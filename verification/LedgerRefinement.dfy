/**
 The dry run guards the update: if it accepts a batch, the update takes none of
 its underflow branches, and the two agree on every balance of the source.
 */
module LedgerRefinement {
  import opened Ledger
  import opened Listings

  // ---------------------------------------------------------------------
  // Order-free amounts of a batch's transfers.

  function AmountOf(t: Token): ErcTransfer -> int {
    (e: ErcTransfer) => if e.token == t then e.amount else 0
  }

  function AmountTo(t: Token, d: SubnetId): ErcTransfer -> int {
    (e: ErcTransfer) => if e.token == t && e.destination == d then e.amount else 0
  }

  /** Everything of token `t` that the transfers take from the source. */
  ghost function Taken(ts: seq<ErcTransfer>, t: Token): int {
    Sum(ts, AmountOf(t))
  }

  /** Everything of token `t` that they give to subnet `d`. */
  ghost function Given(ts: seq<ErcTransfer>, t: Token, d: SubnetId): int {
    Sum(ts, AmountTo(t, d))
  }

  lemma {:induction false} GivenWithinTaken(ts: seq<ErcTransfer>, t: Token, d: SubnetId)
    ensures 0 <= Given(ts, t, d) <= Taken(ts, t)
  {
    if ts != [] {
      GivenWithinTaken(ts[1..], t, d);
    }
  }

  ghost predicate AllPositive(ts: seq<ErcTransfer>) {
    forall e :: e in ts ==> e.amount > 0
  }

  /** The dry run's view can pay for all transfers of every token together. */
  ghost predicate Affordable(ts: seq<ErcTransfer>, run: Running, bal: Balances, src: SubnetId) {
    forall t :: Taken(ts, t) <= View(run, bal, src, t)
  }

  /**
   What `DryTransfers` decides, without its order: every amount is positive and
   the source can pay the sum of each token. What it leaves is the difference.
   */
  lemma {:induction false} DryTransfersClosed(src: SubnetId, ts: seq<ErcTransfer>, bal: Balances, run: Running)
    ensures DryTransfers(src, ts, bal, run).Ok? <==> AllPositive(ts) && Affordable(ts, run, bal, src)
    ensures DryTransfers(src, ts, bal, run).Ok? ==>
      forall t :: View(DryTransfers(src, ts, bal, run).value, bal, src, t) == View(run, bal, src, t) - Taken(ts, t)
  {
    if ts != [] {
      var e := ts[0];
      assert forall t :: Taken(ts, t) == AmountOf(t)(e) + Taken(ts[1..], t);
      if e.amount == 0 {
        assert e in ts;
      } else if View(run, bal, src, e.token) < e.amount {
        GivenWithinTaken(ts[1..], e.token, src);
        assert Taken(ts, e.token) > View(run, bal, src, e.token);
      } else {
        var run' := run[e.token := View(run, bal, src, e.token) - e.amount];
        assert forall t :: View(run', bal, src, t) == View(run, bal, src, t) - AmountOf(t)(e);
        DryTransfersClosed(src, ts[1..], bal, run');
        assert AllPositive(ts) <==> AllPositive(ts[1..]) by {
          assert ts == [e] + ts[1..];
        }
        assert Affordable(ts, run, bal, src) <==> Affordable(ts[1..], run', bal, src) by {
          forall t
            ensures Taken(ts, t) <= View(run, bal, src, t) <==> Taken(ts[1..], t) <= View(run', bal, src, t)
          {
          }
        }
      }
    }
  }

  /** Credits to a destination accumulate up to the clamp. */
  lemma MoveTokensEffect(src: SubnetId, e: ErcTransfer, bal: Balances)
    requires e.amount <= Balance(bal, e.token, src)
    ensures forall t :: Balance(MoveTokens(src, e, bal), t, src)
                        == Balance(bal, t, src) - AmountOf(t)(e) + AmountTo(t, src)(e)
    ensures forall t, d :: d != src ==>
      Balance(MoveTokens(src, e, bal), t, d) == Min(U256_MAX, Balance(bal, t, d) + AmountTo(t, d)(e))
    ensures MoveTokens(src, e, bal).Keys == bal.Keys + {(e.token, src), (e.token, e.destination)}
  {
  }

  ghost function TouchedRows(ts: seq<ErcTransfer>, src: SubnetId): set<(Token, SubnetId)> {
    (set e | e in ts :: (e.token, src)) + (set e | e in ts :: (e.token, e.destination))
  }

  /**
   What `ApplyTransfers` computes when the source can pay each token's sum: no
   underflow, the source keeps what was not sent away, and each destination
   gains what was sent to it, up to the clamp.
   */
  lemma {:induction false} ApplyTransfersClosed(src: SubnetId, ts: seq<ErcTransfer>, bal: Balances)
    requires AllPositive(ts)
    requires forall t :: Taken(ts, t) <= Balance(bal, t, src)
    ensures ApplyTransfers(src, ts, bal).Ok?
    ensures forall t :: Balance(ApplyTransfers(src, ts, bal).value, t, src)
                        == Balance(bal, t, src) - Taken(ts, t) + Given(ts, t, src)
    ensures forall t, d :: d != src ==>
      Balance(ApplyTransfers(src, ts, bal).value, t, d) == Min(U256_MAX, Balance(bal, t, d) + Given(ts, t, d))
  {
    if ts != [] {
      var e := ts[0];
      var rest := ts[1..];
      assert e in ts && ts == [e] + rest;
      assert forall t :: Taken(ts, t) == AmountOf(t)(e) + Taken(rest, t);
      assert forall t, d :: Given(ts, t, d) == AmountTo(t, d)(e) + Given(rest, t, d);
      GivenWithinTaken(rest, e.token, src);
      assert e.amount <= Balance(bal, e.token, src);
      var bal' := MoveTokens(src, e, bal);
      MoveTokensEffect(src, e, bal);
      forall t
        ensures Taken(rest, t) <= Balance(bal', t, src)
      {
        assert Taken(ts, t) <= Balance(bal, t, src);
      }
      ApplyTransfersClosed(src, rest, bal');
      forall t, d
        ensures 0 <= Given(rest, t, d)
      {
        GivenWithinTaken(rest, t, d);
      }
    }
  }

  /** Which rows exist afterwards. */
  lemma {:induction false} ApplyTransfersRows(src: SubnetId, ts: seq<ErcTransfer>, bal: Balances)
    requires AllPositive(ts) && ApplyTransfers(src, ts, bal).Ok?
    ensures ApplyTransfers(src, ts, bal).value.Keys == bal.Keys + TouchedRows(ts, src)
  {
    if ts != [] {
      var e, rest := ts[0], ts[1..];
      assert e in ts && ts == [e] + rest;
      MoveTokensEffect(src, e, bal);
      ApplyTransfersRows(src, rest, MoveTokens(src, e, bal));
      assert TouchedRows(ts, src) == TouchedRows(rest, src) + {(e.token, src), (e.token, e.destination)};
    }
  }

  // ---------------------------------------------------------------------
  // Registrations, mints and burns

  /** The dry run and the stored balances show the source the same amounts. */
  ghost predicate Agree(run: Running, bal0: Balances, bal: Balances, src: SubnetId) {
    forall t :: Balance(bal, t, src) == View(run, bal0, src, t)
  }

  lemma AgreeAfterWrite(run: Running, bal0: Balances, bal: Balances, src: SubnetId, t: Token, v: U256)
    requires Agree(run, bal0, bal, src)
    ensures Agree(run[t := v], bal0, bal[(t, src) := v], src)
  {
    var bal', run' := bal[(t, src) := v], run[t := v];
    forall u
      ensures Balance(bal', u, src) == View(run', bal0, src, u)
    {
      assert Balance(bal, u, src) == View(run, bal0, src, u);
    }
  }

  lemma {:induction false} RegistrationsAgree(
    src: SubnetId, regs: seq<Registration>, bal0: Balances, run: Running, bal: Balances)
    requires Agree(run, bal0, bal, src)
    requires DryRegistrations(src, regs, bal0, run).Ok?
    ensures Agree(DryRegistrations(src, regs, bal0, run).value, bal0, ApplyRegistrations(src, regs, bal), src)
  {
    if regs != [] {
      var t := Token(src, regs[0].address);
      AgreeAfterWrite(run, bal0, bal, src, t, regs[0].supply);
      RegistrationsAgree(src, regs[1..], bal0, run[t := regs[0].supply], bal[(t, src) := regs[0].supply]);
    }
  }

  lemma {:induction false} MintsAgree(
    src: SubnetId, adjs: seq<Adjustment>, bal0: Balances, run: Running, bal: Balances)
    requires Agree(run, bal0, bal, src)
    ensures Agree(DryMints(src, adjs, bal0, run), bal0, ApplyMints(src, adjs, bal), src)
  {
    if adjs != [] {
      var t := Token(src, adjs[0].address);
      if adjs[0].delta < 0 {
        MintsAgree(src, adjs[1..], bal0, run, bal);
      } else {
        assert Balance(bal, t, src) == View(run, bal0, src, t);
        var minted := SaturatingAdd(Balance(bal, t, src), Magnitude(adjs[0].delta));
        AgreeAfterWrite(run, bal0, bal, src, t, minted);
        if adjs[0].delta == 0 {
          assert Agree(run, bal0, bal[(t, src) := minted], src) by {
            assert forall u :: View(run[t := minted], bal0, src, u) == View(run, bal0, src, u);
          }
          MintsAgree(src, adjs[1..], bal0, run, bal[(t, src) := minted]);
        } else {
          MintsAgree(src, adjs[1..], bal0, run[t := minted], bal[(t, src) := minted]);
        }
      }
    }
  }

  lemma {:induction false} BurnsAgree(
    src: SubnetId, adjs: seq<Adjustment>, bal0: Balances, run: Running, bal: Balances)
    requires Agree(run, bal0, bal, src)
    ensures DryBurns(src, adjs, bal0, run).Ok? <==> ApplyBurns(src, adjs, bal).Ok?
    ensures DryBurns(src, adjs, bal0, run).Ok? ==>
      Agree(DryBurns(src, adjs, bal0, run).value, bal0, ApplyBurns(src, adjs, bal).value, src)
  {
    if adjs != [] {
      var t := Token(src, adjs[0].address);
      if adjs[0].delta >= 0 {
        BurnsAgree(src, adjs[1..], bal0, run, bal);
      } else {
        var have := View(run, bal0, src, t);
        assert have == Balance(bal, t, src);
        var burn := Magnitude(adjs[0].delta);
        if have >= burn {
          AgreeAfterWrite(run, bal0, bal, src, t, have - burn);
          BurnsAgree(src, adjs[1..], bal0, run[t := have - burn], bal[(t, src) := have - burn]);
        }
      }
    }
  }

  lemma SupplyAgrees(b: Batch, bal: Balances)
    requires DrySupply(b, bal).Ok?
    ensures ApplySupply(b, bal).Ok?
    ensures Agree(DrySupply(b, bal).value, bal, ApplySupply(b, bal).value, b.source)
  {
    var run := DryRegistrations(b.source, b.registrations, bal, map[]).value;
    var stored := ApplyRegistrations(b.source, b.registrations, bal);
    RegistrationsAgree(b.source, b.registrations, bal, map[], bal);
    MintsAgree(b.source, b.adjustments, bal, run, stored);
    BurnsAgree(b.source, b.adjustments, bal,
               DryMints(b.source, b.adjustments, bal, run), ApplyMints(b.source, b.adjustments, stored));
  }

  // ---------------------------------------------------------------------
  // Main results

  /**
   The whole batch in closed form. An accepted batch changes the source's row by
   the supply phase and the net outflow, and any other row only by what was sent
   to it.
   */
  lemma AcceptedBatch(b: Batch, bal: Balances)
    requires DryRun(b, bal).Ok?
    ensures DrySupply(b, bal).Ok? && ApplySupply(b, bal).Ok? && ApplyBalances(b, bal).Ok?
    ensures AllPositive(b.transfers)
    ensures forall t :: Taken(b.transfers, t) <= Balance(ApplySupply(b, bal).value, t, b.source)
    ensures forall t :: Balance(ApplyBalances(b, bal).value, t, b.source)
                        == Balance(ApplySupply(b, bal).value, t, b.source) - Taken(b.transfers, t) + Given(b.transfers, t, b.source)
    ensures forall t, d :: d != b.source ==>
      Balance(ApplyBalances(b, bal).value, t, d)
      == Min(U256_MAX, Balance(ApplySupply(b, bal).value, t, d) + Given(b.transfers, t, d))
    ensures ApplyBalances(b, bal).value.Keys == ApplySupply(b, bal).value.Keys + TouchedRows(b.transfers, b.source)
  {
    SupplyAgrees(b, bal);
    var run := DrySupply(b, bal).value;
    DryTransfersClosed(b.source, b.transfers, bal, run);
    forall t
      ensures Taken(b.transfers, t) <= Balance(ApplySupply(b, bal).value, t, b.source)
    {
      assert Taken(b.transfers, t) <= View(run, bal, b.source, t);
    }
    ApplyTransfersClosed(b.source, b.transfers, ApplySupply(b, bal).value);
    ApplyTransfersRows(b.source, b.transfers, ApplySupply(b, bal).value);
  }

  /**
   An accepted dry run means that the update succeeds, and that every final
   balance of the source is the dry run's figure plus the batch's transfers of
   that token back to the source itself.
   */
  lemma DryRunRefinesApply(b: Batch, bal: Balances)
    requires DryRun(b, bal).Ok?
    ensures ApplyBalances(b, bal).Ok?
    ensures forall t :: Balance(ApplyBalances(b, bal).value, t, b.source)
                        == View(DryRun(b, bal).value, bal, b.source, t) + Given(b.transfers, t, b.source)
  {
    AcceptedBatch(b, bal);
    SupplyAgrees(b, bal);
    DryTransfersClosed(b.source, b.transfers, bal, DrySupply(b, bal).value);
  }

  /** The dry run is the only gate: its verdict is the verdict of the whole save. */
  lemma SaveIsGatedByDryRun(db: Db, b: Batch, origin: Origin, subnets: seq<SubnetId>)
    ensures SaveBatch(db, b, origin, subnets).Ok? <==>
      b.source in db.subnets && HasCheckpoint(db.subnets[b.source]) && DryRun(b, db.balances).Ok?
  {
    if DryRun(b, db.balances).Ok? {
      DryRunRefinesApply(b, db.balances);
    }
  }
}

/**
 Supply: what all holders of a token hold together. A batch changes it by exactly
 registrations plus mints minus burns, unless a balance is clamped at the maximum,
 and a batch of one subnet cannot touch the supply of another subnet's tokens.
 */
module LedgerSupply {
  import opened Ledger
  import opened Listings
  import opened LedgerRefinement

  ghost function Share(bal: Balances, k: (Token, SubnetId), t: Token): nat
    requires k in bal
  {
    if k.0 == t then bal[k] else 0
  }

  /** The sum of all rows of token `t`. */
  ghost function Supply(bal: Balances, t: Token): nat
    decreases |bal|
  {
    if bal == map[] then 0
    else
      var k :| k in bal;
      Share(bal, k, t) + Supply(bal - {k}, t)
  }

  /** Any row may be split off first. */
  lemma {:induction false} SupplyWithout(bal: Balances, t: Token, k: (Token, SubnetId))
    requires k in bal
    ensures Supply(bal, t) == Share(bal, k, t) + Supply(bal - {k}, t)
    decreases |bal|
  {
    var first :| first in bal && Supply(bal, t) == Share(bal, first, t) + Supply(bal - {first}, t);
    if first != k {
      var x, y := bal - {first}, bal - {k};
      assert k in x && first in y && x - {k} == y - {first};
      SupplyWithout(x, t, k);
      SupplyWithout(y, t, first);
      assert Share(x, k, t) == Share(bal, k, t) && Share(y, first, t) == Share(bal, first, t);
    }
  }

  /** A write changes the supply by the difference it makes to that one row. */
  lemma SupplyWrite(bal: Balances, t: Token, holder: SubnetId, v: U256, u: Token)
    ensures Supply(bal[(t, holder) := v], u)
            == Supply(bal, u) + (if t == u then v - Balance(bal, t, holder) else 0)
  {
    var k := (t, holder);
    var bal' := bal[k := v];
    SupplyWithout(bal', u, k);
    if k in bal {
      SupplyWithout(bal, u, k);
      assert bal' - {k} == bal - {k};
    } else {
      assert bal' - {k} == bal;
    }
  }

  lemma BalanceWithinSupply(bal: Balances, t: Token, holder: SubnetId)
    ensures Balance(bal, t, holder) <= Supply(bal, t)
  {
    if (t, holder) in bal {
      SupplyWithout(bal, t, (t, holder));
    }
  }

  /** Two different holders together hold no more than the supply. */
  lemma TwoBalancesWithinSupply(bal: Balances, t: Token, h: SubnetId, g: SubnetId)
    requires h != g
    ensures Balance(bal, t, h) + Balance(bal, t, g) <= Supply(bal, t)
  {
    BalanceWithinSupply(bal, t, g);
    if (t, h) in bal {
      SupplyWithout(bal, t, (t, h));
      BalanceWithinSupply(bal - {(t, h)}, t, g);
    }
  }

  // ---------------------------------------------------------------------
  // What a batch declares for a token

  function RegisteredIn(src: SubnetId, t: Token): Registration -> int {
    (r: Registration) => if Token(src, r.address) == t then r.supply else 0
  }

  function MintedIn(src: SubnetId, t: Token): Adjustment -> int {
    (a: Adjustment) => if Token(src, a.address) == t && a.delta > 0 then a.delta else 0
  }

  function BurnedIn(src: SubnetId, t: Token): Adjustment -> int {
    (a: Adjustment) => if Token(src, a.address) == t && a.delta < 0 then 0 - a.delta else 0
  }

  ghost function Registered(b: Batch, t: Token): int { Sum(b.registrations, RegisteredIn(b.source, t)) }
  ghost function Minted(b: Batch, t: Token): int { Sum(b.adjustments, MintedIn(b.source, t)) }
  ghost function Burned(b: Batch, t: Token): int { Sum(b.adjustments, BurnedIn(b.source, t)) }

  lemma {:induction false} SumNonNegative<T>(s: seq<T>, f: T -> int)
    requires forall x :: x in s ==> f(x) >= 0
    ensures Sum(s, f) >= 0
  {
    if s != [] {
      assert s[0] in s;
      SumNonNegative(s[1..], f);
    }
  }

  // ---------------------------------------------------------------------
  // Phase by phase

  /** Registrations the dry run accepts start from an empty row each. */
  lemma {:induction false} RegistrationsAdd(
    src: SubnetId, regs: seq<Registration>, bal0: Balances, run: Running, bal: Balances, t: Token)
    requires Agree(run, bal0, bal, src)
    requires DryRegistrations(src, regs, bal0, run).Ok?
    ensures Supply(ApplyRegistrations(src, regs, bal), t) == Supply(bal, t) + Sum(regs, RegisteredIn(src, t))
    ensures Balance(ApplyRegistrations(src, regs, bal), t, src) == Balance(bal, t, src) + Sum(regs, RegisteredIn(src, t))
    ensures forall h :: h != src ==> Balance(ApplyRegistrations(src, regs, bal), t, h) == Balance(bal, t, h)
  {
    if regs != [] {
      var u := Token(src, regs[0].address);
      assert View(run, bal0, src, u) == Balance(bal, u, src) == 0;
      var bal' := bal[(u, src) := regs[0].supply];
      AgreeAfterWrite(run, bal0, bal, src, u, regs[0].supply);
      SupplyWrite(bal, u, src, regs[0].supply, t);
      RegistrationsAdd(src, regs[1..], bal0, run[u := regs[0].supply], bal', t);
    }
  }

  /** Mints add what they say, exactly when the home row never reaches the clamp. */
  lemma {:induction false} MintsAdd(src: SubnetId, adjs: seq<Adjustment>, bal: Balances, t: Token)
    ensures Balance(ApplyMints(src, adjs, bal), t, src) == Min(U256_MAX, Balance(bal, t, src) + Sum(adjs, MintedIn(src, t)))
    ensures Supply(ApplyMints(src, adjs, bal), t) - Supply(bal, t)
            == Balance(ApplyMints(src, adjs, bal), t, src) - Balance(bal, t, src)
    ensures forall h :: h != src ==> Balance(ApplyMints(src, adjs, bal), t, h) == Balance(bal, t, h)
  {
    if adjs != [] {
      SumNonNegative(adjs[1..], MintedIn(src, t));
      if adjs[0].delta < 0 {
        MintsAdd(src, adjs[1..], bal, t);
      } else {
        var u := Token(src, adjs[0].address);
        var v := SaturatingAdd(Balance(bal, u, src), Magnitude(adjs[0].delta));
        SupplyWrite(bal, u, src, v, t);
        MintsAdd(src, adjs[1..], bal[(u, src) := v], t);
      }
    }
  }

  lemma {:induction false} BurnsRemove(src: SubnetId, adjs: seq<Adjustment>, bal: Balances, t: Token)
    requires ApplyBurns(src, adjs, bal).Ok?
    ensures Balance(ApplyBurns(src, adjs, bal).value, t, src) == Balance(bal, t, src) - Sum(adjs, BurnedIn(src, t))
    ensures Supply(ApplyBurns(src, adjs, bal).value, t) == Supply(bal, t) - Sum(adjs, BurnedIn(src, t))
    ensures forall h :: h != src ==> Balance(ApplyBurns(src, adjs, bal).value, t, h) == Balance(bal, t, h)
  {
    if adjs != [] {
      if adjs[0].delta >= 0 {
        BurnsRemove(src, adjs[1..], bal, t);
      } else {
        var u := Token(src, adjs[0].address);
        var v := Balance(bal, u, src) - Magnitude(adjs[0].delta);
        SupplyWrite(bal, u, src, v, t);
        BurnsRemove(src, adjs[1..], bal[(u, src) := v], t);
      }
    }
  }

  /** No destination of token `t` is pushed past the maximum. */
  ghost predicate Fits(ts: seq<ErcTransfer>, bal: Balances, src: SubnetId, t: Token) {
    forall d :: d != src ==> Balance(bal, t, d) + Given(ts, t, d) <= U256_MAX
  }

  lemma MoveTokensSupply(src: SubnetId, e: ErcTransfer, bal: Balances, t: Token)
    requires e.amount <= Balance(bal, e.token, src)
    ensures Supply(MoveTokens(src, e, bal), t) ==
            if e.token == t && e.destination != src && Balance(bal, t, e.destination) + e.amount > U256_MAX
            then Supply(bal, t) - e.amount + (U256_MAX - Balance(bal, t, e.destination))
            else Supply(bal, t)
  {
    var debited := bal[(e.token, src) := Balance(bal, e.token, src) - e.amount];
    SupplyWrite(bal, e.token, src, Balance(bal, e.token, src) - e.amount, t);
    SupplyWrite(debited, e.token, e.destination,
                SaturatingAdd(Balance(debited, e.token, e.destination), e.amount), t);
  }

  /** Transfers conserve a token's supply if and only if no credit is clamped. */
  lemma {:induction false} TransfersConserve(src: SubnetId, ts: seq<ErcTransfer>, bal: Balances, t: Token)
    requires ApplyTransfers(src, ts, bal).Ok?
    ensures Supply(ApplyTransfers(src, ts, bal).value, t) <= Supply(bal, t)
    ensures Supply(ApplyTransfers(src, ts, bal).value, t) == Supply(bal, t) <==> Fits(ts, bal, src, t)
  {
    if ts != [] {
      var e := ts[0];
      assert forall d :: Given(ts, t, d) == AmountTo(t, d)(e) + Given(ts[1..], t, d);
      if e.amount == 0 {
        TransfersConserve(src, ts[1..], bal, t);
        assert Fits(ts, bal, src, t) <==> Fits(ts[1..], bal, src, t);
      } else {
        var bal' := MoveTokens(src, e, bal);
        MoveTokensSupply(src, e, bal, t);
        MoveTokensEffect(src, e, bal);
        TransfersConserve(src, ts[1..], bal', t);
        GivenWithinTaken(ts[1..], t, e.destination);
        if e.token == t && e.destination != src && Balance(bal, t, e.destination) + e.amount > U256_MAX {
          assert !Fits(ts, bal, src, t) by {
            assert Balance(bal, t, e.destination) + Given(ts, t, e.destination) > U256_MAX;
          }
        } else {
          assert forall d :: d != src ==> Balance(bal', t, d) == Balance(bal, t, d) + AmountTo(t, d)(e);
          assert Fits(ts, bal, src, t) <==> Fits(ts[1..], bal', src, t) by {
            assert forall d :: d != src ==>
              Balance(bal, t, d) + Given(ts, t, d) == Balance(bal', t, d) + Given(ts[1..], t, d);
          }
        }
      }
    }
  }

  // ---------------------------------------------------------------------
  // One batch

  /**
   No clamp: the home row takes registration and mints without saturating, and no
   destination is pushed past the maximum. It speaks of the batch and the balances
   before it only.
   */
  ghost predicate NoClamp(b: Batch, bal: Balances, t: Token) {
    && Balance(bal, t, b.source) + Registered(b, t) + Minted(b, t) <= U256_MAX
    && Fits(b.transfers, bal, b.source, t)
  }

  lemma SupplyPhase(b: Batch, bal: Balances, t: Token)
    requires DrySupply(b, bal).Ok?
    ensures ApplySupply(b, bal).Ok?
    ensures Supply(ApplySupply(b, bal).value, t) + Burned(b, t) <= Supply(bal, t) + Registered(b, t) + Minted(b, t)
    ensures Supply(ApplySupply(b, bal).value, t) + Burned(b, t) == Supply(bal, t) + Registered(b, t) + Minted(b, t)
            <==> Balance(bal, t, b.source) + Registered(b, t) + Minted(b, t) <= U256_MAX
    ensures forall h :: h != b.source ==> Balance(ApplySupply(b, bal).value, t, h) == Balance(bal, t, h)
  {
    SupplyAgrees(b, bal);
    RegistrationsAdd(b.source, b.registrations, bal, map[], bal, t);
    var registered := ApplyRegistrations(b.source, b.registrations, bal);
    MintsAdd(b.source, b.adjustments, registered, t);
    BurnsRemove(b.source, b.adjustments, ApplyMints(b.source, b.adjustments, registered), t);
  }

  /**
   Conservation, exactly: an accepted batch changes a token's supply by
   registrations plus mints minus burns if and only if nothing is clamped, and
   can otherwise only lose tokens, never create them.
   */
  lemma BatchConservesExactly(b: Batch, bal: Balances, t: Token)
    requires DryRun(b, bal).Ok?
    ensures ApplyBalances(b, bal).Ok?
    ensures Supply(ApplyBalances(b, bal).value, t) + Burned(b, t) <= Supply(bal, t) + Registered(b, t) + Minted(b, t)
    ensures Supply(ApplyBalances(b, bal).value, t) + Burned(b, t) == Supply(bal, t) + Registered(b, t) + Minted(b, t)
            <==> NoClamp(b, bal, t)
  {
    AcceptedBatch(b, bal);
    SupplyPhase(b, bal, t);
    var mid := ApplySupply(b, bal).value;
    TransfersConserve(b.source, b.transfers, mid, t);
    assert Fits(b.transfers, mid, b.source, t) <==> Fits(b.transfers, bal, b.source, t) by {
      assert forall h :: h != b.source ==> Balance(mid, t, h) == Balance(bal, t, h);
    }
  }

  lemma {:induction false} SumZero<T>(s: seq<T>, f: T -> int)
    requires forall x :: x in s ==> f(x) == 0
    ensures Sum(s, f) == 0
  {
    if s != [] {
      assert s[0] in s;
      SumZero(s[1..], f);
    }
  }

  lemma ForeignTokenUndeclared(b: Batch, t: Token)
    requires t.home != b.source
    ensures Registered(b, t) == Minted(b, t) == Burned(b, t) == 0
  {
    SumZero(b.registrations, RegisteredIn(b.source, t));
    SumZero(b.adjustments, MintedIn(b.source, t));
    SumZero(b.adjustments, BurnedIn(b.source, t));
  }

  lemma DeclaredNonNegative(b: Batch, t: Token)
    ensures Registered(b, t) >= 0 && Minted(b, t) >= 0 && Burned(b, t) >= 0
  {
    SumNonNegative(b.registrations, RegisteredIn(b.source, t));
    SumNonNegative(b.adjustments, MintedIn(b.source, t));
    SumNonNegative(b.adjustments, BurnedIn(b.source, t));
  }

  /** If the supply with everything newly declared fits a U256, nothing clamps. */
  lemma FittingSupplyNeverClamps(b: Batch, bal: Balances, t: Token)
    requires DryRun(b, bal).Ok?
    requires Supply(bal, t) + Registered(b, t) + Minted(b, t) <= U256_MAX
    ensures NoClamp(b, bal, t)
  {
    BalanceWithinSupply(bal, t, b.source);
    AcceptedBatch(b, bal);
    SupplyPhase(b, bal, t);
    var mid := ApplySupply(b, bal).value;
    DeclaredNonNegative(b, t);
    forall d | d != b.source
      ensures Balance(bal, t, d) + Given(b.transfers, t, d) <= U256_MAX
    {
      GivenWithinTaken(b.transfers, t, d);
      TwoBalancesWithinSupply(mid, t, d, b.source);
      assert Taken(b.transfers, t) <= Balance(mid, t, b.source);
    }
  }

  /** What registrations, mints and burns make of the source's own row. */
  lemma SupplyPhaseAtSource(b: Batch, bal: Balances, t: Token)
    requires DrySupply(b, bal).Ok?
    ensures ApplySupply(b, bal).Ok?
    ensures Balance(ApplySupply(b, bal).value, t, b.source)
            == Min(U256_MAX, Balance(bal, t, b.source) + Registered(b, t) + Minted(b, t)) - Burned(b, t)
  {
    SupplyAgrees(b, bal);
    RegistrationsAdd(b.source, b.registrations, bal, map[], bal, t);
    var registered := ApplyRegistrations(b.source, b.registrations, bal);
    MintsAdd(b.source, b.adjustments, registered, t);
    BurnsRemove(b.source, b.adjustments, ApplyMints(b.source, b.adjustments, registered), t);
  }

  /**
   Firewall: a batch of subnet S never raises the supply of a token with another home, and
   leaves it as it was if and only if no destination is pushed past the maximum; it lowers
   no balance of another subnet, whatever it carries.
   */
  lemma Firewall(b: Batch, bal: Balances, t: Token)
    requires DryRun(b, bal).Ok?
    ensures ApplyBalances(b, bal).Ok?
    ensures t.home != b.source ==>
      && Supply(ApplyBalances(b, bal).value, t) <= Supply(bal, t)
      && (Supply(ApplyBalances(b, bal).value, t) == Supply(bal, t) <==> Fits(b.transfers, bal, b.source, t))
    ensures t.home != b.source && Supply(bal, t) <= U256_MAX ==> Fits(b.transfers, bal, b.source, t)
    ensures forall h :: h != b.source ==> Balance(bal, t, h) <= Balance(ApplyBalances(b, bal).value, t, h)
  {
    AcceptedBatch(b, bal);
    SupplyPhase(b, bal, t);
    BatchConservesExactly(b, bal, t);
    if t.home != b.source {
      ForeignTokenUndeclared(b, t);
      if Supply(bal, t) <= U256_MAX {
        FittingSupplyNeverClamps(b, bal, t);
      }
    }
    forall h | h != b.source
      ensures Balance(bal, t, h) <= Balance(ApplyBalances(b, bal).value, t, h)
    {
      GivenWithinTaken(b.transfers, t, h);
    }
  }
}

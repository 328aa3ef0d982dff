/**
 When a batch and a fund message are accepted, and what they leave behind, said without
 the loops: in sums over the batch's records and the rows of the database before it.
 */
module LedgerAcceptance {
  import opened Outcomes
  import opened Ledger
  import opened Listings
  import opened LedgerRefinement
  import opened LedgerMessages
  import opened LedgerSupply
  import opened LedgerRegistrations

  /** What the source has of a token once the batch's registrations and mints are in. */
  ghost function Holdable(b: Batch, bal: Balances, t: Token): int {
    Min(U256_MAX, Balance(bal, t, b.source) + Registered(b, t) + Minted(b, t))
  }

  /** The declarations are new, the burns are covered, and the transfers by what is left. */
  ghost predicate Acceptable(b: Batch, bal: Balances) {
    && DistinctAddresses(b.registrations)
    && (forall i :: 0 <= i < |b.registrations| ==> Balance(bal, Token(b.source, b.registrations[i].address), b.source) == 0)
    && (forall e :: e in b.transfers ==> e.amount > 0)
    && forall t :: Burned(b, t) + Taken(b.transfers, t) <= Holdable(b, bal, t)
  }

  /** Burns go through if and only if the source holds the sum of each token's. */
  lemma {:induction false} BurnsPassExactly(src: SubnetId, adjs: seq<Adjustment>, bal: Balances)
    ensures ApplyBurns(src, adjs, bal).Ok? <==> forall t :: Sum(adjs, BurnedIn(src, t)) <= Balance(bal, t, src)
  {
    if adjs != [] {
      var u, rest := Token(src, adjs[0].address), adjs[1..];
      assert forall t :: Sum(adjs, BurnedIn(src, t)) == BurnedIn(src, t)(adjs[0]) + Sum(rest, BurnedIn(src, t));
      if adjs[0].delta >= 0 {
        BurnsPassExactly(src, rest, bal);
      } else {
        var burn := Magnitude(adjs[0].delta);
        SumNonNegative(rest, BurnedIn(src, u));
        if Balance(bal, u, src) < burn {
          assert Sum(adjs, BurnedIn(src, u)) > Balance(bal, u, src);
        } else {
          var bal' := bal[(u, src) := Balance(bal, u, src) - burn];
          BurnsPassExactly(src, rest, bal');
          assert forall t :: Balance(bal', t, src) == Balance(bal, t, src) - BurnedIn(src, t)(adjs[0]);
        }
      }
    }
  }

  lemma MintedUp(b: Batch, bal: Balances, t: Token)
    requires DryRegistrations(b.source, b.registrations, bal, map[]).Ok?
    ensures Balance(ApplyMints(b.source, b.adjustments, ApplyRegistrations(b.source, b.registrations, bal)), t, b.source)
            == Holdable(b, bal, t)
  {
    RegistrationsAdd(b.source, b.registrations, bal, map[], bal, t);
    MintsAdd(b.source, b.adjustments, ApplyRegistrations(b.source, b.registrations, bal), t);
  }

  /** Registrations, mints and burns pass. */
  lemma SupplyPassesExactly(b: Batch, bal: Balances)
    ensures DrySupply(b, bal).Ok? <==>
      DryRegistrations(b.source, b.registrations, bal, map[]).Ok? && forall t :: Burned(b, t) <= Holdable(b, bal, t)
  {
    var dry := DryRegistrations(b.source, b.registrations, bal, map[]);
    if dry.Ok? {
      var stored := ApplyRegistrations(b.source, b.registrations, bal);
      var minted := ApplyMints(b.source, b.adjustments, stored);
      RegistrationsAgree(b.source, b.registrations, bal, map[], bal);
      MintsAgree(b.source, b.adjustments, bal, dry.value, stored);
      BurnsAgree(b.source, b.adjustments, bal, DryMints(b.source, b.adjustments, bal, dry.value), minted);
      BurnsPassExactly(b.source, b.adjustments, minted);
      forall t
        ensures Balance(minted, t, b.source) == Holdable(b, bal, t)
      {
        MintedUp(b, bal, t);
      }
    }
  }

  lemma ViewAfterSupply(b: Batch, bal: Balances, t: Token)
    requires DrySupply(b, bal).Ok?
    ensures View(DrySupply(b, bal).value, bal, b.source, t) == Holdable(b, bal, t) - Burned(b, t)
  {
    SupplyAgrees(b, bal);
    SupplyPhaseAtSource(b, bal, t);
    assert Agree(DrySupply(b, bal).value, bal, ApplySupply(b, bal).value, b.source);
  }

  lemma TransfersPassExactly(b: Batch, bal: Balances)
    requires DrySupply(b, bal).Ok?
    ensures DryRun(b, bal).Ok? <==>
      AllPositive(b.transfers) && forall t :: Burned(b, t) + Taken(b.transfers, t) <= Holdable(b, bal, t)
  {
    var run := DrySupply(b, bal).value;
    DryTransfersClosed(b.source, b.transfers, bal, run);
    forall t
      ensures View(run, bal, b.source, t) == Holdable(b, bal, t) - Burned(b, t)
    {
      ViewAfterSupply(b, bal, t);
    }
  }

  /**
   The dry run accepts a batch if and only if no token is registered twice or held by its
   home already, every transfer is positive, and for every token what is burned and what
   is sent fits into what the source holds after registrations and mints.
   */
  lemma DryRunAcceptsExactly(b: Batch, bal: Balances)
    ensures DryRun(b, bal).Ok? <==> Acceptable(b, bal)
  {
    RegistrationsPassExactly(b.source, b.registrations, bal, map[]);
    SupplyPassesExactly(b, bal);
    forall t
      ensures Taken(b.transfers, t) >= 0
    {
      GivenWithinTaken(b.transfers, t, b.source);
    }
    if DrySupply(b, bal).Ok? {
      TransfersPassExactly(b, bal);
    }
  }

  /** What is wrong with a batch that the dry run refuses with this error. */
  ghost predicate Because(b: Batch, bal: Balances, e: BatchError) {
    match e
    case DuplicateRegistration => !DistinctAddresses(b.registrations)
    case AlreadyRegistered => exists r :: r in b.registrations && Balance(bal, Token(b.source, r.address), b.source) > 0
    case BurnExceedsBalance => exists t :: Burned(b, t) > Holdable(b, bal, t)
    case ZeroAmount => exists t :: t in b.transfers && t.amount == 0
    case InsufficientBalance => exists t :: Burned(b, t) + Taken(b.transfers, t) > Holdable(b, bal, t)
    case _ => false
  }

  lemma {:induction false} RegistrationRefused(src: SubnetId, regs: seq<Registration>, bal: Balances, run: Running)
    requires DryRegistrations(src, regs, bal, run).Err?
    ensures match DryRegistrations(src, regs, bal, run).error
      case DuplicateRegistration => !DistinctAddresses(regs) || exists r :: r in regs && Token(src, r.address) in run
      case AlreadyRegistered => exists r :: r in regs && Balance(bal, Token(src, r.address), src) > 0
      case _ => false
  {
    var t, rest := Token(src, regs[0].address), regs[1..];
    assert regs[0] in regs;
    if t !in run && Balance(bal, t, src) == 0 {
      RegistrationRefused(src, rest, bal, run[t := regs[0].supply]);
      if r :| r in rest && Token(src, r.address) in run[t := regs[0].supply] {
        assert r in regs;
        if Token(src, r.address) == t {
          var i :| 0 <= i < |rest| && rest[i] == r;
          assert regs[i + 1].address == regs[0].address;
        }
      }
      if !DistinctAddresses(rest) {
        var i, j :| 0 <= i < j < |rest| && rest[i].address == rest[j].address;
        assert regs[i + 1].address == regs[j + 1].address;
      }
    }
  }

  lemma {:induction false} BurnRefused(src: SubnetId, adjs: seq<Adjustment>, bal: Balances, run: Running)
    requires DryBurns(src, adjs, bal, run).Err?
    ensures DryBurns(src, adjs, bal, run).error == BurnExceedsBalance
  {
    if adjs[0].delta >= 0 {
      BurnRefused(src, adjs[1..], bal, run);
    } else {
      var t := Token(src, adjs[0].address);
      if View(run, bal, src, t) >= Magnitude(adjs[0].delta) {
        BurnRefused(src, adjs[1..], bal, run[t := View(run, bal, src, t) - Magnitude(adjs[0].delta)]);
      }
    }
  }

  lemma {:induction false} TransferRefused(src: SubnetId, ts: seq<ErcTransfer>, bal: Balances, run: Running)
    requires DryTransfers(src, ts, bal, run).Err?
    ensures match DryTransfers(src, ts, bal, run).error
      case ZeroAmount => exists e :: e in ts && e.amount == 0
      case InsufficientBalance => exists t :: Taken(ts, t) > View(run, bal, src, t)
      case _ => false
  {
    var e, rest := ts[0], ts[1..];
    assert e in ts;
    GivenWithinTaken(rest, e.token, src);
    assert Taken(ts, e.token) == AmountOf(e.token)(e) + Taken(rest, e.token);
    if e.amount > 0 && View(run, bal, src, e.token) >= e.amount {
      var run' := run[e.token := View(run, bal, src, e.token) - e.amount];
      TransferRefused(src, rest, bal, run');
      if t :| Taken(rest, t) > View(run', bal, src, t) {
        assert Taken(ts, t) == AmountOf(t)(e) + Taken(rest, t);
        assert Taken(ts, t) > View(run, bal, src, t);
      }
    }
  }

  lemma TransferRefusedBecause(b: Batch, bal: Balances)
    requires DrySupply(b, bal).Ok? && DryRun(b, bal).Err?
    ensures Because(b, bal, DryRun(b, bal).error)
  {
    TransferRefused(b.source, b.transfers, bal, DrySupply(b, bal).value);
    if t :| Taken(b.transfers, t) > View(DrySupply(b, bal).value, bal, b.source, t) {
      ViewAfterSupply(b, bal, t);
    }
  }

  /** A refusal names what is wrong with the batch. */
  lemma RefusedBecause(b: Batch, bal: Balances)
    requires DryRun(b, bal).Err?
    ensures Because(b, bal, DryRun(b, bal).error)
  {
    var registered := DryRegistrations(b.source, b.registrations, bal, map[]);
    SupplyPassesExactly(b, bal);
    if registered.Err? {
      RegistrationRefused(b.source, b.registrations, bal, map[]);
    } else if DrySupply(b, bal).Err? {
      BurnRefused(b.source, b.adjustments, bal, DryMints(b.source, b.adjustments, bal, registered.value));
    } else {
      TransferRefusedBecause(b, bal);
    }
  }

  // ---------------------------------------------------------------------
  // Saving a batch

  ghost function BalanceAfter(b: Batch, bal: Balances, t: Token, h: SubnetId): int {
    if h == b.source then Holdable(b, bal, t) - Burned(b, t) - Taken(b.transfers, t) + Given(b.transfers, t, h)
    else Min(U256_MAX, Balance(bal, t, h) + Given(b.transfers, t, h))
  }

  /** The last checkpoint's row, with the batch on it, in the slot after it; all else of the subnet as it was. */
  ghost predicate BatchRecorded(s: SubnetSummary, s': SubnetSummary, origin: Origin) {
    && s.lastCheckpoint.Some? && s.lastCheckpoint.value in s.checkpoints
    && s'.lastCheckpoint == s.lastCheckpoint && s'.killedOrPending == s.killedOrPending
    && var last := s.lastCheckpoint.value;
       && s'.checkpoints.Keys == s.checkpoints.Keys + {last + 1}
       && s'.checkpoints[last + 1] == CheckpointRow(s.checkpoints[last].number, Some(origin))
       && forall n :: n in s.checkpoints && n != last + 1 ==> s'.checkpoints[n] == s.checkpoints[n]
  }

  /**
   A batch is saved if and only if its source is known and has recorded a checkpoint, and
   the batch is acceptable. Then every balance is the one given by the batch's sums, the
   source's checkpoint row is written one slot late, and no other subnet's rows change.
   */
  lemma SaveBatchExactly(db: Db, b: Batch, origin: Origin, listing: seq<SubnetId>)
    ensures var r := SaveBatch(db, b, origin, listing);
      && (r.Ok? <==> && b.source in db.subnets && db.subnets[b.source].lastCheckpoint.Some?
                     && db.subnets[b.source].lastCheckpoint.value in db.subnets[b.source].checkpoints
                     && Acceptable(b, db.balances))
      && (r.Ok? ==> && r.value.subnets.Keys == db.subnets.Keys
                    && BatchRecorded(db.subnets[b.source], r.value.subnets[b.source], origin)
                    && (forall d :: d in db.subnets && d != b.source ==> r.value.subnets[d] == db.subnets[d])
                    && forall t, h :: Balance(r.value.balances, t, h) == BalanceAfter(b, db.balances, t, h))
  {
    SaveIsGatedByDryRun(db, b, origin, listing);
    DryRunAcceptsExactly(b, db.balances);
    if SaveBatch(db, b, origin, listing).Ok? {
      SavedBalances(b, db.balances);
    }
  }

  lemma SavedBalances(b: Batch, bal: Balances)
    requires DryRun(b, bal).Ok?
    ensures ApplyBalances(b, bal).Ok?
    ensures forall t, h :: Balance(ApplyBalances(b, bal).value, t, h) == BalanceAfter(b, bal, t, h)
  {
    AcceptedBatch(b, bal);
    forall t, h
      ensures Balance(ApplyBalances(b, bal).value, t, h) == BalanceAfter(b, bal, t, h)
    {
      SupplyPhaseAtSource(b, bal, t);
      SupplyPhase(b, bal, t);
    }
  }

  // ---------------------------------------------------------------------
  // Funding

  lemma OneAppended(box: Inbox, payload: Payload, origin: Origin)
    requires Dense(box)
    ensures Dense(box[|box| := Message(payload, |box|, origin)])
    ensures Rows(box[|box| := Message(payload, |box|, origin)]) == Rows(box) + [Message(payload, |Rows(box)|, origin)]
  {
    AppendRow(box, Message(payload, |box|, origin));
  }

  /** One delivery appends one message to one inbox. */
  lemma OnePost(boxes: Inboxes, p: Post, origin: Origin)
    requires AllDense(boxes)
    ensures var after := Deliver(boxes, p, origin);
      && AllDense(after)
      && Contents(after, p.destination)
         == Contents(boxes, p.destination) + [Message(p.payload, |Contents(boxes, p.destination)|, origin)]
      && forall e :: e != p.destination ==> Contents(after, e) == Contents(boxes, e)
  {
    DenseInbox(boxes, p.destination);
    OneAppended(InboxOf(boxes, p.destination), p.payload, origin);
    var after := Deliver(boxes, p, origin);
    forall e | e != p.destination
      ensures InboxOf(after, e) == InboxOf(boxes, e)
    {
    }
  }

  /**
   A fund message is accepted if and only if its subnet is known and neither killed nor
   marked. It appends one message to that subnet and changes nothing else.
   */
  lemma SaveFundExactly(db: Db, d: SubnetId, amount: nat, recipient: Address, origin: Origin)
    requires AllDense(db.inboxes)
    ensures var r := SaveFund(db, d, amount, recipient, origin);
      && (r.Some? <==> d in db.subnets && !db.subnets[d].killedOrPending)
      && (r.Some? ==> && r.value.subnets == db.subnets && r.value.balances == db.balances
                      && AllDense(r.value.inboxes)
                      && Contents(r.value.inboxes, d) == Contents(db.inboxes, d) + [Message(Fund(amount, recipient), |Contents(db.inboxes, d)|, origin)]
                      && forall e :: e != d ==> Contents(r.value.inboxes, e) == Contents(db.inboxes, e))
  {
    OnePost(db.inboxes, Post(d, Fund(amount, recipient)), origin);
  }
}

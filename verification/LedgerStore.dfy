/**
 The imperative form: the dry run's loops over a scratch map, and the save that
 rewrites the tables inside one write transaction. Both are proved against the
 functions of module Ledger.
 */
module LedgerStore {
  import opened Outcomes
  import opened Ledger
  import opened LedgerRefinement

  /** `validate_erc_batch_data`. */
  method ValidateErcBatch(b: Batch, bal: Balances) returns (r: Result<Running, BatchError>)
    ensures r == DryRun(b, bal)
  {
    var src := b.source;
    var final: Running := map[];
    for i := 0 to |b.registrations|
      invariant DryRegistrations(src, b.registrations[i..], bal, final) == DryRegistrations(src, b.registrations, bal, map[])
    {
      var t := Token(src, b.registrations[i].address);
      if t in final {
        return Err(DuplicateRegistration);
      }
      if Balance(bal, t, src) > 0 {
        return Err(AlreadyRegistered);
      }
      final := final[t := b.registrations[i].supply];
      assert b.registrations[i..][1..] == b.registrations[i + 1..];
    }
    final := MintLoop(src, b.adjustments, bal, final);
    r := BurnLoop(src, b.adjustments, bal, final);
    if r.Ok? {
      r := TransferLoop(src, b.transfers, bal, r.value);
    }
  }

  method MintLoop(src: SubnetId, adjs: seq<Adjustment>, bal: Balances, run: Running) returns (final: Running)
    ensures final == DryMints(src, adjs, bal, run)
  {
    final := run;
    for i := 0 to |adjs|
      invariant DryMints(src, adjs[i..], bal, final) == DryMints(src, adjs, bal, run)
    {
      assert adjs[i..][1..] == adjs[i + 1..];
      if adjs[i].delta < 0 {
        continue;
      }
      if Magnitude(adjs[i].delta) == 0 {
        continue;
      }
      var t := Token(src, adjs[i].address);
      ghost var before := final;
      if t !in final {
        final := final[t := Balance(bal, t, src)];
      }
      ghost var merged := before[t := SaturatingAdd(final[t], Magnitude(adjs[i].delta))];
      final := final[t := SaturatingAdd(final[t], Magnitude(adjs[i].delta))];
      assert final == merged;
    }
  }

  method BurnLoop(src: SubnetId, adjs: seq<Adjustment>, bal: Balances, run: Running) returns (r: Result<Running, BatchError>)
    ensures r == DryBurns(src, adjs, bal, run)
  {
    var final: Running := run;
    for i := 0 to |adjs|
      invariant DryBurns(src, adjs[i..], bal, final) == DryBurns(src, adjs, bal, run)
    {
      assert adjs[i..][1..] == adjs[i + 1..];
      if adjs[i].delta >= 0 {
        continue;
      }
      var t := Token(src, adjs[i].address);
      ghost var before := final;
      if t !in final {
        final := final[t := Balance(bal, t, src)];
      }
      if final[t] < Magnitude(adjs[i].delta) {
        return Err(BurnExceedsBalance);
      }
      ghost var merged := before[t := final[t] - Magnitude(adjs[i].delta)];
      final := final[t := final[t] - Magnitude(adjs[i].delta)];
      assert final == merged;
    }
    r := Ok(final);
  }

  method TransferLoop(src: SubnetId, ts: seq<ErcTransfer>, bal: Balances, run: Running) returns (r: Result<Running, BatchError>)
    ensures r == DryTransfers(src, ts, bal, run)
  {
    var final: Running := run;
    for i := 0 to |ts|
      invariant DryTransfers(src, ts[i..], bal, final) == DryTransfers(src, ts, bal, run)
    {
      assert ts[i..][1..] == ts[i + 1..];
      if ts[i].amount == 0 {
        return Err(ZeroAmount);
      }
      var t := ts[i].token;
      ghost var before := final;
      if t !in final {
        final := final[t := Balance(bal, t, src)];
      }
      if final[t] < ts[i].amount {
        return Err(InsufficientBalance);
      }
      ghost var merged := before[t := final[t] - ts[i].amount];
      final := final[t := final[t] - ts[i].amount];
      assert final == merged;
    }
    r := Ok(final);
  }

  // ---------------------------------------------------------------------

  lemma {:induction false} DeliverAllConcat(boxes: Inboxes, ps: seq<Post>, qs: seq<Post>, origin: Origin)
    ensures DeliverAll(boxes, ps + qs, origin) == DeliverAll(DeliverAll(boxes, ps, origin), qs, origin)
    decreases |ps|
  {
    if ps == [] {
      assert ps + qs == qs;
    } else {
      assert (ps + qs)[1..] == ps[1..] + qs;
      DeliverAllConcat(Deliver(boxes, ps[0], origin), ps[1..], qs, origin);
    }
  }

  /** Posting the three kinds one after the other posts the batch. */
  lemma PostedInTurn(boxes: Inboxes, b: Batch, origin: Origin, listing: seq<SubnetId>)
    ensures var native := DeliverAll(boxes, NativePosts(b.native), origin);
      var registered := DeliverAll(native, RegistrationPosts(b.source, b.registrations, listing), origin);
      DeliverAll(registered, TransferPosts(b.transfers), origin) == DeliverAll(boxes, BatchPosts(b, listing), origin)
  {
    var native, regs := NativePosts(b.native), RegistrationPosts(b.source, b.registrations, listing);
    DeliverAllConcat(boxes, native, regs, origin);
    DeliverAllConcat(boxes, native + regs, TransferPosts(b.transfers), origin);
  }

  /** The monitor's tables. */
  class Store {
    var subnets: map<SubnetId, SubnetSummary>
    var balances: Balances
    var inboxes: Inboxes

    constructor ()
      ensures Contents() == Db(map[], map[], map[])
    {
      subnets, balances, inboxes := map[], map[], map[];
    }

    function Contents(): Db
      reads this
    {
      Db(subnets, balances, inboxes)
    }

    /**
     `IpcBatchTransferMsg::save_to_db`. `listing` is the subnet table in the
     order the store yields it. On an error nothing is written.
     */
    method SaveBatchTransfer(b: Batch, origin: Origin, listing: seq<SubnetId>) returns (r: Result<(), BatchError>)
      modifies this
      ensures var spec := SaveBatch(old(Contents()), b, origin, listing);
        && (spec.Ok? ==> r == Ok(()) && Contents() == spec.value)
        && (spec.Err? ==> r == Err(spec.error) && Contents() == old(Contents()))
    {
      if b.source !in subnets {
        return Err(UnknownSource);
      }
      if subnets[b.source].lastCheckpoint.None? || subnets[b.source].lastCheckpoint.value !in subnets[b.source].checkpoints {
        return Err(NoCheckpoint);
      }
      var checked := ValidateErcBatch(b, balances);
      if checked.Err? {
        return Err(checked.error);
      }
      var boxes := PostNative(inboxes, b.native, origin);
      var bal: Balances;
      boxes, bal := Register(boxes, balances, b, origin, listing);
      bal := Mint(bal, b.source, b.adjustments);
      var burned := Burn(bal, b.source, b.adjustments);
      if burned.Err? {
        return Err(burned.error);
      }
      var moved;
      boxes, moved := Transfer(boxes, burned.value, b.source, b.transfers, origin);
      if moved.Err? {
        return Err(moved.error);
      }
      PostedInTurn(inboxes, b, origin, listing);
      RecordBatch(b.source, origin);
      balances, inboxes := moved.value, boxes;
      r := Ok(());
    }

    /** The checkpoint row that the batch's transaction is written on. */
    method RecordBatch(source: SubnetId, origin: Origin)
      requires source in subnets && HasCheckpoint(subnets[source])
      modifies this`subnets
      ensures subnets == old(subnets)[source := WithBatch(old(subnets)[source], origin)]
    {
      var last := subnets[source].lastCheckpoint.value;
      var row := subnets[source].checkpoints[last].(batch := Some(origin));
      subnets := subnets[source := subnets[source].(checkpoints := subnets[source].checkpoints[last + 1 := row])];
    }

    /** `IpcFundSubnetMsg::save_to_db`. */
    method SaveFundMessage(d: SubnetId, amount: nat, recipient: Address, origin: Origin) returns (accepted: bool)
      modifies this`inboxes
      ensures var spec := SaveFund(old(Contents()), d, amount, recipient, origin);
        && accepted == spec.Some?
        && Contents() == if spec.Some? then spec.value else old(Contents())
    {
      if d !in subnets || subnets[d].killedOrPending {
        return false;
      }
      inboxes := Deliver(inboxes, Post(d, Fund(amount, recipient)), origin);
      accepted := true;
    }
  }

  lemma {:induction false} NoUnderflowInLoops(src: SubnetId, regs: seq<Registration>, adjs: seq<Adjustment>,
                                              ts: seq<ErcTransfer>, bal: Balances, run: Running)
    ensures var e := DryRegistrations(src, regs, bal, run); e.Err? ==> e.error != BurnUnderflow && e.error != TransferUnderflow
    ensures var e := DryBurns(src, adjs, bal, run); e.Err? ==> e.error != BurnUnderflow && e.error != TransferUnderflow
    ensures var e := DryTransfers(src, ts, bal, run); e.Err? ==> e.error != BurnUnderflow && e.error != TransferUnderflow
    decreases |regs| + |adjs| + |ts|
  {
    if regs != [] {
      NoUnderflowInLoops(src, regs[1..], [], [], bal, run[Token(src, regs[0].address) := regs[0].supply]);
    }
    if adjs != [] {
      var t := Token(src, adjs[0].address);
      NoUnderflowInLoops(src, [], adjs[1..], [], bal, run);
      if adjs[0].delta < 0 && View(run, bal, src, t) >= Magnitude(adjs[0].delta) {
        NoUnderflowInLoops(src, [], adjs[1..], [], bal, run[t := View(run, bal, src, t) - Magnitude(adjs[0].delta)]);
      }
    }
    if ts != [] && View(run, bal, src, ts[0].token) >= ts[0].amount {
      NoUnderflowInLoops(src, [], [], ts[1..], bal, run[ts[0].token := View(run, bal, src, ts[0].token) - ts[0].amount]);
    }
  }

  lemma NoUnderflowInDryRun(b: Batch, bal: Balances)
    ensures var e := DryRun(b, bal); e.Err? ==> e.error != BurnUnderflow && e.error != TransferUnderflow
  {
    NoUnderflowInLoops(b.source, b.registrations, [], [], bal, map[]);
    var regs := DryRegistrations(b.source, b.registrations, bal, map[]);
    if regs.Ok? {
      NoUnderflowInLoops(b.source, [], b.adjustments, [], bal, DryMints(b.source, b.adjustments, bal, regs.value));
    }
    if DrySupply(b, bal).Ok? {
      NoUnderflowInLoops(b.source, [], [], b.transfers, bal, DrySupply(b, bal).value);
    }
  }

  /** The two underflow branches of the update are dead: a save never fails there. */
  lemma SaveNeverUnderflows(db: Db, b: Batch, origin: Origin, listing: seq<SubnetId>)
    ensures var r := SaveBatch(db, b, origin, listing);
      r.Err? ==> r.error != BurnUnderflow && r.error != TransferUnderflow
  {
    NoUnderflowInDryRun(b, db.balances);
    if DryRun(b, db.balances).Ok? {
      DryRunRefinesApply(b, db.balances);
    }
  }

  // ---------------------------------------------------------------------
  // The phases of the save, each one loop of the write transaction

  method PostNative(boxes: Inboxes, ts: seq<NativeTransfer>, origin: Origin) returns (after: Inboxes)
    ensures after == DeliverAll(boxes, NativePosts(ts), origin)
  {
    after := boxes;
    for i := 0 to |ts|
      invariant DeliverAll(after, NativePosts(ts[i..]), origin) == DeliverAll(boxes, NativePosts(ts), origin)
    {
      assert ts[i..][1..] == ts[i + 1..];
      var p := Post(ts[i].destination, Fund(ts[i].amount, ts[i].recipient));
      assert NativePosts(ts[i..]) == [p] + NativePosts(ts[i + 1..]);
      assert NativePosts(ts[i..])[1..] == NativePosts(ts[i + 1..]);
      after := Deliver(after, p, origin);
    }
  }

  method PostFanOut(boxes: Inboxes, src: SubnetId, reg: Registration, origin: Origin, listing: seq<SubnetId>)
    returns (after: Inboxes)
    ensures after == DeliverAll(boxes, FanOut(src, reg, listing), origin)
  {
    after := boxes;
    for j := 0 to |listing|
      invariant DeliverAll(after, FanOut(src, reg, listing[j..]), origin) == DeliverAll(boxes, FanOut(src, reg, listing), origin)
    {
      assert listing[j..][1..] == listing[j + 1..];
      if listing[j] == src {
        continue;
      }
      var p := Post(listing[j], ErcRegistration(src, reg));
      assert FanOut(src, reg, listing[j..])[1..] == FanOut(src, reg, listing[j + 1..]);
      after := Deliver(after, p, origin);
    }
  }

  method Register(boxes: Inboxes, bal: Balances, b: Batch, origin: Origin, listing: seq<SubnetId>)
    returns (after: Inboxes, stored: Balances)
    ensures after == DeliverAll(boxes, RegistrationPosts(b.source, b.registrations, listing), origin)
    ensures stored == ApplyRegistrations(b.source, b.registrations, bal)
  {
    var src, regs := b.source, b.registrations;
    after, stored := boxes, bal;
    for i := 0 to |regs|
      invariant ApplyRegistrations(src, regs[i..], stored) == ApplyRegistrations(src, regs, bal)
      invariant DeliverAll(after, RegistrationPosts(src, regs[i..], listing), origin)
                == DeliverAll(boxes, RegistrationPosts(src, regs, listing), origin)
    {
      assert regs[i..][1..] == regs[i + 1..];
      stored := stored[(Token(src, regs[i].address), src) := regs[i].supply];
      DeliverAllConcat(after, FanOut(src, regs[i], listing), RegistrationPosts(src, regs[i + 1..], listing), origin);
      after := PostFanOut(after, src, regs[i], origin, listing);
    }
  }

  method Mint(bal: Balances, src: SubnetId, adjs: seq<Adjustment>) returns (stored: Balances)
    ensures stored == ApplyMints(src, adjs, bal)
  {
    stored := bal;
    for i := 0 to |adjs|
      invariant ApplyMints(src, adjs[i..], stored) == ApplyMints(src, adjs, bal)
    {
      assert adjs[i..][1..] == adjs[i + 1..];
      if adjs[i].delta >= 0 {
        var t := Token(src, adjs[i].address);
        stored := stored[(t, src) := SaturatingAdd(Balance(stored, t, src), Magnitude(adjs[i].delta))];
      }
    }
  }

  method Burn(bal: Balances, src: SubnetId, adjs: seq<Adjustment>) returns (r: Result<Balances, BatchError>)
    ensures r == ApplyBurns(src, adjs, bal)
  {
    var stored: Balances := bal;
    for i := 0 to |adjs|
      invariant ApplyBurns(src, adjs[i..], stored) == ApplyBurns(src, adjs, bal)
    {
      assert adjs[i..][1..] == adjs[i + 1..];
      if adjs[i].delta < 0 {
        var t := Token(src, adjs[i].address);
        if Balance(stored, t, src) < Magnitude(adjs[i].delta) {
          return Err(BurnUnderflow);
        }
        stored := stored[(t, src) := Balance(stored, t, src) - Magnitude(adjs[i].delta)];
      }
    }
    r := Ok(stored);
  }

  method Transfer(boxes: Inboxes, bal: Balances, src: SubnetId, ts: seq<ErcTransfer>, origin: Origin)
    returns (after: Inboxes, r: Result<Balances, BatchError>)
    ensures r == ApplyTransfers(src, ts, bal)
    ensures r.Ok? ==> after == DeliverAll(boxes, TransferPosts(ts), origin)
  {
    var stored: Balances := bal;
    after := boxes;
    for i := 0 to |ts|
      invariant ApplyTransfers(src, ts[i..], stored) == ApplyTransfers(src, ts, bal)
      invariant DeliverAll(after, TransferPosts(ts[i..]), origin) == DeliverAll(boxes, TransferPosts(ts), origin)
    {
      var e := ts[i];
      assert ts[i..][1..] == ts[i + 1..];
      if e.amount == 0 {
        continue;
      }
      var have := Balance(stored, e.token, src);
      if have < e.amount {
        return after, Err(TransferUnderflow);
      }
      stored := stored[(e.token, src) := have - e.amount];
      stored := stored[(e.token, e.destination) := SaturatingAdd(Balance(stored, e.token, e.destination), e.amount)];
      assert TransferPosts(ts[i..])[1..] == TransferPosts(ts[i + 1..]);
      after := Deliver(after, Post(e.destination, ErcTransferred(e)), origin);
    }
    r := Ok(stored);
  }
}

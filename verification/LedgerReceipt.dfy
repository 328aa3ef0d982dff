/**
 What a subnet receives from a batch, in terms of the records on the wire: who gets how
 much, in which order and under which nonce.
 */
module LedgerReceipt {
  import opened Ledger
  import opened Listings
  import opened LedgerMessages
  import opened LedgerRuns
  import opened LedgerConfluence
  import opened LedgerAcceptance

  // ---------------------------------------------------------------------
  // Groups, record by record

  lemma {:induction false} NativePayloadsAt(ts: seq<NativeTransfer>, d: SubnetId)
    requires forall e :: e in ts ==> e.destination == d
    ensures |NativePayloads(ts, d)| == |ts|
    ensures forall i :: 0 <= i < |ts| ==> NativePayloads(ts, d)[i] == Fund(ts[i].amount, ts[i].recipient)
  {
    if ts != [] {
      assert ts[0] in ts;
      NativePayloadsAt(ts[1..], d);
    }
  }

  lemma {:induction false} TransferPayloadsAt(ts: seq<ErcTransfer>, d: SubnetId)
    requires forall e :: e in ts ==> e.destination == d
    ensures |TransferPayloads(ts, d)| == |ts|
    ensures forall i :: 0 <= i < |ts| ==> TransferPayloads(ts, d)[i] == ErcTransferred(ts[i])
  {
    if ts != [] {
      assert ts[0] in ts;
      TransferPayloadsAt(ts[1..], d);
    }
  }

  /** The native records on the wire that subnet `d` can be sent. */
  function NativeFor(wire: Wire, known: set<SubnetId>, d: SubnetId): seq<NativeRecord> {
    if d in known && d in wire.native then wire.native[d] else []
  }

  function ErcFor(wire: Wire, d: SubnetId): seq<ErcRecord> {
    if d in wire.transfers then wire.transfers[d] else []
  }

  /** One fund per record, of its amount and for its recipient. */
  ghost predicate Funds(ps: seq<Payload>, native: seq<NativeRecord>) {
    |ps| == |native| && forall i :: 0 <= i < |ps| ==> ps[i] == Fund(native[i].amount, native[i].recipient)
  }

  ghost predicate Announces(ps: seq<Payload>, src: SubnetId, regs: seq<Registration>) {
    |ps| == |regs| && forall i :: 0 <= i < |ps| ==> ps[i] == ErcRegistration(src, regs[i])
  }

  /** One token message per record, of its token and amount and for its recipient on `d`. */
  ghost predicate Carries(ps: seq<Payload>, d: SubnetId, erc: seq<ErcRecord>) {
    && |ps| == |erc|
    && forall i :: 0 <= i < |ps| ==> ps[i] == ErcTransferred(ErcTransfer(erc[i].token, erc[i].amount, d, erc[i].recipient))
  }

  /**
   Decoding loses nothing and mixes up nothing: whatever the order of the groups, each
   native record for a known subnet becomes a fund of its amount for its recipient, in the
   order of its group, and records for unknown subnets are dropped.
   */
  lemma DecodedNative(src: SubnetId, wire: Wire, known: set<SubnetId>, n: seq<SubnetId>, e: seq<SubnetId>, d: SubnetId)
    requires Lists(n, wire.native.Keys) && Lists(e, wire.transfers.Keys)
    ensures var ps := NativePayloads(Decode(src, wire, known, n, e).native, d);
      && (d !in known || d !in wire.native ==> ps == [])
      && (d in known && d in wire.native ==> Funds(ps, wire.native[d]))
  {
    DecodedPayloads(src, wire, known, n, e, d);
    if d in wire.native {
      NativePayloadsAt(NativeGroups(wire, known)[d], d);
    }
  }

  /** The same for token records, which go out whether or not the destination is known. */
  lemma DecodedErc(src: SubnetId, wire: Wire, known: set<SubnetId>, n: seq<SubnetId>, e: seq<SubnetId>, d: SubnetId)
    requires Lists(n, wire.native.Keys) && Lists(e, wire.transfers.Keys)
    ensures var ps := TransferPayloads(Decode(src, wire, known, n, e).transfers, d);
      && (d !in wire.transfers ==> ps == [])
      && (d in wire.transfers ==> Carries(ps, d, wire.transfers[d]))
  {
    DecodedPayloads(src, wire, known, n, e, d);
    if d in wire.transfers {
      TransferPayloadsAt(ErcGroups(wire)[d], d);
    }
  }

  // ---------------------------------------------------------------------
  // An accepted batch, inbox by inbox

  lemma {:induction false} NumberedAt(xs: seq<Payload>, n: nat, origin: Origin)
    ensures |Numbered(xs, n, origin)| == |xs|
    ensures forall i :: 0 <= i < |xs| ==> Numbered(xs, n, origin)[i] == Message(xs[i], n + i, origin)
  {
    if xs != [] {
      NumberedAt(xs[1..], n + 1, origin);
    }
  }

  /** `now` is `before` with these payloads appended under consecutive nonces. */
  ghost predicate Appends(before: seq<Message>, now: seq<Message>, xs: seq<Payload>, origin: Origin) {
    && |now| == |before| + |xs|
    && now[..|before|] == before
    && forall i :: 0 <= i < |xs| ==> now[|before| + i] == Message(xs[i], |before| + i, origin)
  }

  lemma NumberedAppends(before: seq<Message>, now: seq<Message>, xs: seq<Payload>, origin: Origin)
    requires now == before + Numbered(xs, |before|, origin)
    ensures Appends(before, now, xs, origin)
  {
    NumberedAt(xs, |before|, origin);
  }

  /** The messages that the wire holds for `d`: its native records, the registrations, its token records. */
  ghost predicate FromWire(xs: seq<Payload>, src: SubnetId, wire: Wire, known: set<SubnetId>, d: SubnetId) {
    var native, erc := NativeFor(wire, known, d), ErcFor(wire, d);
    var regs := if d in known && d != src then wire.registrations else [];
    var m := |native| + |regs|;
    && |xs| == m + |erc|
    && Funds(xs[..|native|], native)
    && Announces(xs[|native|..m], src, regs)
    && Carries(xs[m..], d, erc)
  }

  lemma ThreeParts(a: seq<Payload>, b: seq<Payload>, c: seq<Payload>, xs: seq<Payload>)
    requires xs == a + b + c
    ensures xs[..|a|] == a && xs[|a|..|a| + |b|] == b && xs[|a| + |b|..] == c
  {
  }

  lemma PartsFromWire(a: seq<Payload>, b: seq<Payload>, c: seq<Payload>, xs: seq<Payload>,
                      src: SubnetId, wire: Wire, known: set<SubnetId>, d: SubnetId)
    requires Funds(a, NativeFor(wire, known, d)) && Carries(c, d, ErcFor(wire, d))
    requires Announces(b, src, if d in known && d != src then wire.registrations else [])
    requires xs == a + b + c
    ensures FromWire(xs, src, wire, known, d)
  {
    ThreeParts(a, b, c, xs);
  }

  lemma PayloadsFromWire(src: SubnetId, wire: Wire, known: set<SubnetId>, b: Batch, n: seq<SubnetId>, e: seq<SubnetId>, d: SubnetId)
    requires Lists(n, wire.native.Keys) && Lists(e, wire.transfers.Keys) && b == Decode(src, wire, known, n, e)
    ensures FromWire(BatchPayloads(b, known, d), src, wire, known, d)
  {
    var regs := if d in known && d != src then RegistrationPayloads(src, wire.registrations) else [];
    var native, erc := NativePayloads(b.native, d), TransferPayloads(b.transfers, d);
    assert Funds(native, NativeFor(wire, known, d)) by {
      DecodedNative(src, wire, known, n, e, d);
    }
    assert Carries(erc, d, ErcFor(wire, d)) by {
      DecodedErc(src, wire, known, n, e, d);
    }
    PartsFromWire(native, regs, erc, BatchPayloads(b, known, d), src, wire, known, d);
  }

  /**
   What an accepted batch brings to subnet `d`, in terms of the wire alone: after the
   messages already there, under the next nonces, one fund per native record for it, one
   copy of every registration unless it is the source or unknown, and one token message
   per token record for it.
   */
  lemma ReceiptAppends(db: Db, src: SubnetId, wire: Wire, announced: nat, origin: Origin,
                       n: seq<SubnetId>, e: seq<SubnetId>, listing: seq<SubnetId>, d: SubnetId)
    requires Lists(n, wire.native.Keys) && Lists(e, wire.transfers.Keys) && Lists(listing, db.subnets.Keys)
    requires AllDense(db.inboxes) && Receive(db, src, wire, announced, origin, n, e, listing).Some?
    ensures var after := Receive(db, src, wire, announced, origin, n, e, listing).value.inboxes;
      && AllDense(after)
      && exists xs :: FromWire(xs, src, wire, db.subnets.Keys, d)
                      && Appends(Contents(db.inboxes, d), Contents(after, d), xs, origin)
  {
    var b := Decode(src, wire, db.subnets.Keys, n, e);
    var after := Receive(db, src, wire, announced, origin, n, e, listing).value.inboxes;
    var xs := BatchPayloads(b, db.subnets.Keys, d);
    BatchAppends(db, b, origin, listing, d);
    NumberedAppends(Contents(db.inboxes, d), Contents(after, d), xs, origin);
    PayloadsFromWire(src, wire, db.subnets.Keys, b, n, e, d);
  }

  // ---------------------------------------------------------------------
  // When a batch is received

  function NativeCount(wire: Wire, known: set<SubnetId>): SubnetId -> int {
    (d: SubnetId) => |NativeFor(wire, known, d)|
  }

  function ErcCount(wire: Wire): SubnetId -> int {
    (d: SubnetId) => |ErcFor(wire, d)|
  }

  lemma {:induction false} FlattenLength<V>(order: seq<SubnetId>, groups: map<SubnetId, seq<V>>, count: SubnetId -> int)
    requires forall d :: d in order ==> d in groups && |groups[d]| == count(d)
    ensures |Flatten(order, groups)| == Sum(order, count)
  {
    if order != [] {
      assert order[0] in order;
      FlattenLength(order[1..], groups, count);
    }
  }

  lemma DecodedCounts(src: SubnetId, wire: Wire, known: set<SubnetId>, n: seq<SubnetId>, e: seq<SubnetId>)
    requires Lists(n, wire.native.Keys) && Lists(e, wire.transfers.Keys)
    ensures var b := Decode(src, wire, known, n, e);
      |b.native| == Sum(n, NativeCount(wire, known)) && |b.transfers| == Sum(e, ErcCount(wire))
  {
    FlattenLength(n, NativeGroups(wire, known), NativeCount(wire, known));
    FlattenLength(e, ErcGroups(wire), ErcCount(wire));
  }

  /**
   A batch is received if and only if it decodes to something, the checkpoint announced as
   many native transfers as the wire holds for known subnets, its source is known and has
   a checkpoint, and the decoded batch is acceptable.
   */
  lemma ReceiveExactly(db: Db, src: SubnetId, wire: Wire, announced: nat, origin: Origin,
                       n: seq<SubnetId>, e: seq<SubnetId>, listing: seq<SubnetId>)
    requires Lists(n, wire.native.Keys) && Lists(e, wire.transfers.Keys)
    ensures var natives, ercs := Sum(n, NativeCount(wire, db.subnets.Keys)), Sum(e, ErcCount(wire));
      Receive(db, src, wire, announced, origin, n, e, listing).Some? <==>
        && !(natives == 0 && ercs == 0 && wire.registrations == [] && wire.adjustments == [])
        && natives == announced
        && src in db.subnets && HasCheckpoint(db.subnets[src])
        && Acceptable(Decode(src, wire, db.subnets.Keys, n, e), db.balances)
  {
    var b := Decode(src, wire, db.subnets.Keys, n, e);
    DecodedCounts(src, wire, db.subnets.Keys, n, e);
    SaveBatchExactly(db, b, origin, listing);
    assert NoData(b) <==> |b.native| == 0 && |b.transfers| == 0 && wire.registrations == [] && wire.adjustments == [];
  }
}

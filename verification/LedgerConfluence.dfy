/**
 Confluence: a batch arrives as hash maps from destination subnet to records, and
 two monitors may visit the groups, and the subnet table, in different orders.
 They still reach the same verdict, the same balances and the same messages.
 */
module LedgerConfluence {
  import opened Outcomes
  import opened Ledger
  import opened Listings
  import opened LedgerRefinement
  import opened LedgerMessages

  /** `BatchTransferWireData`: records grouped by destination. */
  datatype NativeRecord = NativeRecord(recipient: Address, amount: nat)
  datatype ErcRecord = ErcRecord(token: Token, amount: U256, recipient: Address)
  datatype Wire = Wire(
    native: map<SubnetId, seq<NativeRecord>>,
    registrations: seq<Registration>,
    adjustments: seq<Adjustment>,
    transfers: map<SubnetId, seq<ErcRecord>>)

  function NativeGroup(d: SubnetId, rs: seq<NativeRecord>): seq<NativeTransfer> {
    seq(|rs|, i requires 0 <= i < |rs| => NativeTransfer(d, rs[i].amount, rs[i].recipient))
  }

  function ErcGroup(d: SubnetId, rs: seq<ErcRecord>): seq<ErcTransfer> {
    seq(|rs|, i requires 0 <= i < |rs| => ErcTransfer(rs[i].token, rs[i].amount, d, rs[i].recipient))
  }

  /** Native groups for subnets that are not in the database are skipped. */
  function NativeGroups(wire: Wire, known: set<SubnetId>): map<SubnetId, seq<NativeTransfer>> {
    map d | d in wire.native :: if d in known then NativeGroup(d, wire.native[d]) else []
  }

  function ErcGroups(wire: Wire): map<SubnetId, seq<ErcTransfer>> {
    map d | d in wire.transfers :: ErcGroup(d, wire.transfers[d])
  }

  /** `IpcBatchTransferMsg::from_tx`, for one visiting order of each hash map. */
  function Decode(src: SubnetId, wire: Wire, known: set<SubnetId>,
                  nativeOrder: seq<SubnetId>, ercOrder: seq<SubnetId>): Batch
    requires forall d :: d in nativeOrder ==> d in wire.native
    requires forall d :: d in ercOrder ==> d in wire.transfers
  {
    Batch(src, Flatten(nativeOrder, NativeGroups(wire, known)), wire.registrations, wire.adjustments,
          Flatten(ercOrder, ErcGroups(wire)))
  }

  // ---------------------------------------------------------------------
  // A destination's records all sit in its own group

  lemma {:induction false} NativePayloadsConcat(a: seq<NativeTransfer>, b: seq<NativeTransfer>, d: SubnetId)
    ensures NativePayloads(a + b, d) == NativePayloads(a, d) + NativePayloads(b, d)
  {
    if a == [] {
      assert a + b == b;
    } else {
      assert (a + b)[1..] == a[1..] + b;
      NativePayloadsConcat(a[1..], b, d);
    }
  }

  lemma {:induction false} TransferPayloadsConcat(a: seq<ErcTransfer>, b: seq<ErcTransfer>, d: SubnetId)
    ensures TransferPayloads(a + b, d) == TransferPayloads(a, d) + TransferPayloads(b, d)
  {
    if a == [] {
      assert a + b == b;
    } else {
      assert (a + b)[1..] == a[1..] + b;
      TransferPayloadsConcat(a[1..], b, d);
    }
  }

  lemma {:induction false} NoNativeElsewhere(ts: seq<NativeTransfer>, d: SubnetId)
    requires forall e :: e in ts ==> e.destination != d
    ensures NativePayloads(ts, d) == []
  {
    if ts != [] {
      assert ts[0] in ts;
      NoNativeElsewhere(ts[1..], d);
    }
  }

  lemma {:induction false} NoTransferElsewhere(ts: seq<ErcTransfer>, d: SubnetId)
    requires forall e :: e in ts ==> e.destination != d
    ensures TransferPayloads(ts, d) == []
  {
    if ts != [] {
      assert ts[0] in ts;
      NoTransferElsewhere(ts[1..], d);
    }
  }

  lemma {:induction false} NativeOfGroups(order: seq<SubnetId>, groups: map<SubnetId, seq<NativeTransfer>>, d: SubnetId)
    requires Distinct(order) && forall k :: k in order ==> k in groups
    requires forall k, e :: k in groups && e in groups[k] ==> e.destination == k
    ensures NativePayloads(Flatten(order, groups), d)
            == if d in order then NativePayloads(groups[d], d) else []
  {
    if order != [] {
      var k := order[0];
      assert order == [k] + order[1..];
      NativeOfGroups(order[1..], groups, d);
      NativePayloadsConcat(groups[k], Flatten(order[1..], groups), d);
      if k != d {
        NoNativeElsewhere(groups[k], d);
      }
    }
  }

  lemma {:induction false} TransfersOfGroups(order: seq<SubnetId>, groups: map<SubnetId, seq<ErcTransfer>>, d: SubnetId)
    requires Distinct(order) && forall k :: k in order ==> k in groups
    requires forall k, e :: k in groups && e in groups[k] ==> e.destination == k
    ensures TransferPayloads(Flatten(order, groups), d)
            == if d in order then TransferPayloads(groups[d], d) else []
  {
    if order != [] {
      var k := order[0];
      assert order == [k] + order[1..];
      TransfersOfGroups(order[1..], groups, d);
      TransferPayloadsConcat(groups[k], Flatten(order[1..], groups), d);
      if k != d {
        NoTransferElsewhere(groups[k], d);
      }
    }
  }

  // ---------------------------------------------------------------------
  // Messages: each inbox depends only on what is addressed to it

  lemma SameAddressedSameInboxes(boxes: Inboxes, ps: seq<Post>, qs: seq<Post>, origin: Origin)
    requires forall d :: Addressed(ps, d) == Addressed(qs, d)
    ensures DeliverAll(boxes, ps, origin) == DeliverAll(boxes, qs, origin)
  {
    var x, y := DeliverAll(boxes, ps, origin), DeliverAll(boxes, qs, origin);
    forall d
      ensures d in x <==> d in y
      ensures InboxOf(x, d) == InboxOf(y, d)
    {
      assert Addressed(ps, d) == Addressed(qs, d);
      DeliverAllAt(boxes, ps, origin, d);
      DeliverAllAt(boxes, qs, origin, d);
    }
    assert x.Keys == y.Keys;
    forall d | d in x
      ensures x[d] == y[d]
    {
      assert InboxOf(x, d) == InboxOf(y, d);
    }
  }

  // ---------------------------------------------------------------------
  // Balances: only the sums matter

  /** The batches differ only in the order of their transfers. */
  ghost predicate SameUpToOrder(b: Batch, c: Batch) {
    && b.source == c.source
    && b.registrations == c.registrations
    && b.adjustments == c.adjustments
    && multiset(b.transfers) == multiset(c.transfers)
  }

  lemma PermutedSums(b: Batch, c: Batch)
    requires SameUpToOrder(b, c)
    ensures forall t :: Taken(b.transfers, t) == Taken(c.transfers, t)
    ensures forall t, d :: Given(b.transfers, t, d) == Given(c.transfers, t, d)
    ensures forall e :: e in b.transfers <==> e in c.transfers
  {
    forall t
      ensures Taken(b.transfers, t) == Taken(c.transfers, t)
    {
      SumPermutation(b.transfers, c.transfers, AmountOf(t));
    }
    forall t, d
      ensures Given(b.transfers, t, d) == Given(c.transfers, t, d)
    {
      SumPermutation(b.transfers, c.transfers, AmountTo(t, d));
    }
    forall e
      ensures e in b.transfers <==> e in c.transfers
    {
      assert e in multiset(b.transfers) <==> e in multiset(c.transfers);
    }
  }

  lemma PermutedVerdict(b: Batch, c: Batch, bal: Balances)
    requires SameUpToOrder(b, c)
    ensures DryRun(b, bal).Ok? <==> DryRun(c, bal).Ok?
  {
    if DrySupply(b, bal).Ok? {
      PermutedSums(b, c);
      DryTransfersClosed(b.source, b.transfers, bal, DrySupply(b, bal).value);
      DryTransfersClosed(c.source, c.transfers, bal, DrySupply(c, bal).value);
    }
  }

  lemma PermutedBalances(b: Batch, c: Batch, bal: Balances)
    requires SameUpToOrder(b, c) && DryRun(b, bal).Ok?
    ensures ApplyBalances(b, bal).Ok? && ApplyBalances(c, bal).Ok?
    ensures ApplyBalances(b, bal).value == ApplyBalances(c, bal).value
  {
    PermutedVerdict(b, c, bal);
    PermutedSums(b, c);
    AcceptedBatch(b, bal);
    AcceptedBatch(c, bal);
    var x, y := ApplyBalances(b, bal).value, ApplyBalances(c, bal).value;
    assert TouchedRows(b.transfers, b.source) == TouchedRows(c.transfers, c.source);
    assert x.Keys == y.Keys;
    forall k | k in x
      ensures x[k] == y[k]
    {
      assert Balance(x, k.0, k.1) == Balance(y, k.0, k.1);
    }
  }

  // ---------------------------------------------------------------------
  // Main result

  lemma DecodedTransfersPermute(src: SubnetId, wire: Wire, known: set<SubnetId>,
                                n1: seq<SubnetId>, n2: seq<SubnetId>, e1: seq<SubnetId>, e2: seq<SubnetId>)
    requires Lists(n1, wire.native.Keys) && Lists(n2, wire.native.Keys)
    requires Lists(e1, wire.transfers.Keys) && Lists(e2, wire.transfers.Keys)
    ensures SameUpToOrder(Decode(src, wire, known, n1, e1), Decode(src, wire, known, n2, e2))
  {
    FlattenPermutation(e1, e2, wire.transfers.Keys, ErcGroups(wire));
  }

  lemma DecodedPayloads(src: SubnetId, wire: Wire, known: set<SubnetId>,
                        n: seq<SubnetId>, e: seq<SubnetId>, d: SubnetId)
    requires Lists(n, wire.native.Keys) && Lists(e, wire.transfers.Keys)
    ensures NativePayloads(Decode(src, wire, known, n, e).native, d)
            == if d in wire.native then NativePayloads(NativeGroups(wire, known)[d], d) else []
    ensures TransferPayloads(Decode(src, wire, known, n, e).transfers, d)
            == if d in wire.transfers then TransferPayloads(ErcGroups(wire)[d], d) else []
  {
    NativeOfGroups(n, NativeGroups(wire, known), d);
    TransfersOfGroups(e, ErcGroups(wire), d);
  }

  /** Two decodings post the same messages under the same nonces. */
  lemma InboxesAgree(db: Db, src: SubnetId, wire: Wire, origin: Origin,
                     n1: seq<SubnetId>, n2: seq<SubnetId>, e1: seq<SubnetId>, e2: seq<SubnetId>,
                     s1: seq<SubnetId>, s2: seq<SubnetId>)
    requires Lists(n1, wire.native.Keys) && Lists(n2, wire.native.Keys)
    requires Lists(e1, wire.transfers.Keys) && Lists(e2, wire.transfers.Keys)
    requires Lists(s1, db.subnets.Keys) && Lists(s2, db.subnets.Keys)
    requires DryRun(Decode(src, wire, db.subnets.Keys, n1, e1), db.balances).Ok?
    requires DryRun(Decode(src, wire, db.subnets.Keys, n2, e2), db.balances).Ok?
    ensures DeliverAll(db.inboxes, BatchPosts(Decode(src, wire, db.subnets.Keys, n1, e1), s1), origin)
            == DeliverAll(db.inboxes, BatchPosts(Decode(src, wire, db.subnets.Keys, n2, e2), s2), origin)
  {
    var known := db.subnets.Keys;
    var b, c := Decode(src, wire, known, n1, e1), Decode(src, wire, known, n2, e2);
    AcceptedBatch(b, db.balances);
    AcceptedBatch(c, db.balances);
    forall d
      ensures Addressed(BatchPosts(b, s1), d) == Addressed(BatchPosts(c, s2), d)
    {
      BatchAddressed(b, known, s1, d);
      BatchAddressed(c, known, s2, d);
      DecodedPayloads(src, wire, known, n1, e1, d);
      DecodedPayloads(src, wire, known, n2, e2, d);
    }
    SameAddressedSameInboxes(db.inboxes, BatchPosts(b, s1), BatchPosts(c, s2), origin);
  }

  /** Two saves of one wire batch agree. */
  lemma SavesAgree(db: Db, src: SubnetId, wire: Wire, origin: Origin,
                   n1: seq<SubnetId>, n2: seq<SubnetId>, e1: seq<SubnetId>, e2: seq<SubnetId>,
                   s1: seq<SubnetId>, s2: seq<SubnetId>)
    requires Lists(n1, wire.native.Keys) && Lists(n2, wire.native.Keys)
    requires Lists(e1, wire.transfers.Keys) && Lists(e2, wire.transfers.Keys)
    requires Lists(s1, db.subnets.Keys) && Lists(s2, db.subnets.Keys)
    ensures var r1 := SaveBatch(db, Decode(src, wire, db.subnets.Keys, n1, e1), origin, s1);
            var r2 := SaveBatch(db, Decode(src, wire, db.subnets.Keys, n2, e2), origin, s2);
            && (r1.Ok? <==> r2.Ok?)
            && (r1.Ok? ==> r1.value == r2.value)
  {
    var known := db.subnets.Keys;
    var b, c := Decode(src, wire, known, n1, e1), Decode(src, wire, known, n2, e2);
    DecodedTransfersPermute(src, wire, known, n1, n2, e1, e2);
    PermutedVerdict(b, c, db.balances);
    SaveIsGatedByDryRun(db, b, origin, s1);
    SaveIsGatedByDryRun(db, c, origin, s2);
    if SaveBatch(db, b, origin, s1).Ok? {
      PermutedBalances(b, c, db.balances);
      InboxesAgree(db, src, wire, origin, n1, n2, e1, e2, s1, s2);
    }
  }

  predicate NoData(b: Batch) {
    b.native == [] && b.registrations == [] && b.adjustments == [] && b.transfers == []
  }

  /**
   A batch from the wire to the database: refused if it decodes to nothing, if its
   native transfers are not as many as the checkpoint announced, or by the save.
   */
  function Receive(db: Db, src: SubnetId, wire: Wire, announced: nat, origin: Origin,
                   nativeOrder: seq<SubnetId>, ercOrder: seq<SubnetId>, listing: seq<SubnetId>): Option<Db>
    requires forall d :: d in nativeOrder ==> d in wire.native
    requires forall d :: d in ercOrder ==> d in wire.transfers
  {
    var b := Decode(src, wire, db.subnets.Keys, nativeOrder, ercOrder);
    var saved := SaveBatch(db, b, origin, listing);
    if NoData(b) || |b.native| != announced || saved.Err? then None else Some(saved.value)
  }

  lemma DecodedSizes(src: SubnetId, wire: Wire, known: set<SubnetId>,
                     n1: seq<SubnetId>, n2: seq<SubnetId>, e1: seq<SubnetId>, e2: seq<SubnetId>)
    requires Lists(n1, wire.native.Keys) && Lists(n2, wire.native.Keys)
    requires Lists(e1, wire.transfers.Keys) && Lists(e2, wire.transfers.Keys)
    ensures var b, c := Decode(src, wire, known, n1, e1), Decode(src, wire, known, n2, e2);
      |b.native| == |c.native| && |b.transfers| == |c.transfers|
  {
    var b, c := Decode(src, wire, known, n1, e1), Decode(src, wire, known, n2, e2);
    FlattenPermutation(n1, n2, wire.native.Keys, NativeGroups(wire, known));
    FlattenPermutation(e1, e2, wire.transfers.Keys, ErcGroups(wire));
    assert |multiset(b.native)| == |multiset(c.native)|;
    assert |multiset(b.transfers)| == |multiset(c.transfers)|;
  }

  /**
   For every database, wire batch and origin, and for any two orders in which the
   groups and the subnet table are visited: both monitors accept the batch or both
   refuse it, and when they accept they are left with the very same database.
   */
  lemma Confluence(db: Db, src: SubnetId, wire: Wire, announced: nat, origin: Origin,
                   n1: seq<SubnetId>, n2: seq<SubnetId>, e1: seq<SubnetId>, e2: seq<SubnetId>,
                   s1: seq<SubnetId>, s2: seq<SubnetId>)
    requires Lists(n1, wire.native.Keys) && Lists(n2, wire.native.Keys)
    requires Lists(e1, wire.transfers.Keys) && Lists(e2, wire.transfers.Keys)
    requires Lists(s1, db.subnets.Keys) && Lists(s2, db.subnets.Keys)
    ensures Receive(db, src, wire, announced, origin, n1, e1, s1) == Receive(db, src, wire, announced, origin, n2, e2, s2)
  {
    DecodedSizes(src, wire, db.subnets.Keys, n1, n2, e1, e2);
    SavesAgree(db, src, wire, origin, n1, n2, e1, e2, s1, s2);
  }
}

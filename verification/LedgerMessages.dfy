/**
 Rootnet messages: in every reachable state the nonces of a subnet are exactly
 0..n-1, no message is overwritten, and each batch appends to each subnet exactly
 the messages meant for it, in order.
 */
module LedgerMessages {
  import opened Ledger
  import opened Listings

  /** The rows of an inbox are numbered 0..n-1, and each knows its number. */
  ghost predicate Dense(box: Inbox) {
    && (forall n :: n in box <==> 0 <= n < |box|)
    && forall n :: n in box ==> box[n].nonce == n
  }

  ghost predicate AllDense(boxes: Inboxes) {
    forall d :: d in boxes ==> Dense(boxes[d])
  }

  /** The messages of a dense inbox in nonce order. */
  ghost function Rows(box: Inbox): seq<Message>
    requires Dense(box)
  {
    seq(|box|, n requires 0 <= n < |box| => box[n])
  }

  lemma DenseInbox(boxes: Inboxes, d: SubnetId)
    requires AllDense(boxes)
    ensures Dense(InboxOf(boxes, d))
  {
  }

  ghost function Contents(boxes: Inboxes, d: SubnetId): seq<Message>
    requires AllDense(boxes)
  {
    DenseInbox(boxes, d);
    Rows(InboxOf(boxes, d))
  }

  /** The payloads addressed to `d`, in the order they are posted. */
  function Addressed(ps: seq<Post>, d: SubnetId): seq<Payload> {
    if ps == [] then []
    else if ps[0].destination == d then [ps[0].payload] + Addressed(ps[1..], d)
    else Addressed(ps[1..], d)
  }

  /** Consecutive nonces from `n` on. */
  function Numbered(xs: seq<Payload>, n: nat, origin: Origin): seq<Message> {
    if xs == [] then [] else [Message(xs[0], n, origin)] + Numbered(xs[1..], n + 1, origin)
  }

  lemma {:induction false} AddressedConcat(a: seq<Post>, b: seq<Post>, d: SubnetId)
    ensures Addressed(a + b, d) == Addressed(a, d) + Addressed(b, d)
  {
    if a == [] {
      assert a + b == b;
    } else {
      assert (a + b)[1..] == a[1..] + b;
      AddressedConcat(a[1..], b, d);
    }
  }

  // ---------------------------------------------------------------------
  // Delivery

  /** Payloads put into one inbox, each under the next free nonce. */
  function PutAll(box: Inbox, xs: seq<Payload>, origin: Origin): Inbox
    decreases |xs|
  {
    if xs == [] then box else PutAll(box[|box| := Message(xs[0], |box|, origin)], xs[1..], origin)
  }

  /** An inbox depends only on what is addressed to it. */
  lemma {:induction false} DeliverAllAt(boxes: Inboxes, ps: seq<Post>, origin: Origin, d: SubnetId)
    ensures InboxOf(DeliverAll(boxes, ps, origin), d) == PutAll(InboxOf(boxes, d), Addressed(ps, d), origin)
    ensures d in DeliverAll(boxes, ps, origin) <==> d in boxes || Addressed(ps, d) != []
    decreases |ps|
  {
    if ps != [] {
      DeliverAllAt(Deliver(boxes, ps[0], origin), ps[1..], origin, d);
      if ps[0].destination == d {
        assert Addressed(ps, d)[1..] == Addressed(ps[1..], d);
      }
    }
  }

  /** A new row never replaces one, and the numbering stays without a gap. */
  lemma AppendDense(box: Inbox, m: Message)
    requires Dense(box) && m.nonce == |box|
    ensures |box| !in box
    ensures |box[|box| := m]| == |box| + 1
    ensures Dense(box[|box| := m])
  {
    MapGrows(box, |box|, m);
  }

  lemma AppendRow(box: Inbox, m: Message)
    requires Dense(box) && m.nonce == |box|
    ensures Dense(box[|box| := m])
    ensures Rows(box[|box| := m]) == Rows(box) + [m]
  {
    AppendDense(box, m);
  }

  lemma {:induction false} PutAllAppends(box: Inbox, xs: seq<Payload>, origin: Origin)
    requires Dense(box)
    ensures Dense(PutAll(box, xs, origin))
    ensures Rows(PutAll(box, xs, origin)) == Rows(box) + Numbered(xs, |box|, origin)
    decreases |xs|
  {
    if xs == [] {
      assert Rows(box) + [] == Rows(box);
    } else {
      var m := Message(xs[0], |box|, origin);
      AppendDense(box, m);
      AppendRow(box, m);
      PutAllAppends(box[|box| := m], xs[1..], origin);
    }
  }

  /**
   Delivering a list of posts appends to every subnet's messages the payloads
   addressed to it, numbered on from what was there.
   */
  lemma DeliverAllAppends(boxes: Inboxes, ps: seq<Post>, origin: Origin, d: SubnetId)
    requires AllDense(boxes)
    ensures AllDense(DeliverAll(boxes, ps, origin))
    ensures Contents(DeliverAll(boxes, ps, origin), d)
            == Contents(boxes, d) + Numbered(Addressed(ps, d), NextNonce(boxes, d), origin)
  {
    var after := DeliverAll(boxes, ps, origin);
    forall e
      ensures Dense(InboxOf(after, e))
      ensures Rows(InboxOf(after, e)) == Contents(boxes, e) + Numbered(Addressed(ps, e), NextNonce(boxes, e), origin)
    {
      DenseInbox(boxes, e);
      DeliverAllAt(boxes, ps, origin, e);
      PutAllAppends(InboxOf(boxes, e), Addressed(ps, e), origin);
    }
    forall e | e in after
      ensures Dense(after[e])
    {
      assert Dense(InboxOf(after, e));
    }
  }

  // ---------------------------------------------------------------------
  // What one batch posts to one subnet

  function NativePayloads(ts: seq<NativeTransfer>, d: SubnetId): seq<Payload> {
    if ts == [] then []
    else if ts[0].destination == d then [Fund(ts[0].amount, ts[0].recipient)] + NativePayloads(ts[1..], d)
    else NativePayloads(ts[1..], d)
  }

  function RegistrationPayloads(src: SubnetId, regs: seq<Registration>): seq<Payload> {
    seq(|regs|, i requires 0 <= i < |regs| => ErcRegistration(src, regs[i]))
  }

  function TransferPayloads(ts: seq<ErcTransfer>, d: SubnetId): seq<Payload> {
    if ts == [] then []
    else if ts[0].destination == d then [ErcTransferred(ts[0])] + TransferPayloads(ts[1..], d)
    else TransferPayloads(ts[1..], d)
  }

  lemma {:induction false} NativeAddressed(ts: seq<NativeTransfer>, d: SubnetId)
    ensures Addressed(NativePosts(ts), d) == NativePayloads(ts, d)
  {
    if ts != [] {
      NativeAddressed(ts[1..], d);
      AddressedConcat(NativePosts(ts)[..1], NativePosts(ts[1..]), d);
      assert NativePosts(ts)[1..] == NativePosts(ts[1..]);
    }
  }

  lemma {:induction false} TransferAddressed(ts: seq<ErcTransfer>, d: SubnetId)
    requires forall e :: e in ts ==> e.amount > 0
    ensures Addressed(TransferPosts(ts), d) == TransferPayloads(ts, d)
  {
    if ts != [] {
      assert ts[0] in ts;
      TransferAddressed(ts[1..], d);
      assert TransferPosts(ts)[1..] == TransferPosts(ts[1..]);
    }
  }

  /** Whatever the listing's order, each known non-source subnet gets one copy. */
  lemma {:induction false} FanOutAddressed(src: SubnetId, reg: Registration, subnets: seq<SubnetId>, d: SubnetId)
    requires Distinct(subnets)
    ensures Addressed(FanOut(src, reg, subnets), d)
            == if d in subnets && d != src then [ErcRegistration(src, reg)] else []
  {
    if subnets != [] {
      assert subnets == [subnets[0]] + subnets[1..];
      FanOutAddressed(src, reg, subnets[1..], d);
      if subnets[0] != src {
        assert FanOut(src, reg, subnets)[1..] == FanOut(src, reg, subnets[1..]);
      }
    }
  }

  lemma {:induction false} RegistrationAddressed(
    src: SubnetId, regs: seq<Registration>, subnets: seq<SubnetId>, d: SubnetId)
    requires Distinct(subnets)
    ensures Addressed(RegistrationPosts(src, regs, subnets), d)
            == if d in subnets && d != src then RegistrationPayloads(src, regs) else []
  {
    if regs != [] {
      RegistrationAddressed(src, regs[1..], subnets, d);
      FanOutAddressed(src, regs[0], subnets, d);
      var first, rest := FanOut(src, regs[0], subnets), RegistrationPosts(src, regs[1..], subnets);
      assert RegistrationPosts(src, regs, subnets) == first + rest;
      AddressedConcat(first, rest, d);
      assert RegistrationPayloads(src, regs) == [ErcRegistration(src, regs[0])] + RegistrationPayloads(src, regs[1..]);
    }
  }

  /** The payloads a batch sends to subnet `d`. */
  function BatchPayloads(b: Batch, known: set<SubnetId>, d: SubnetId): seq<Payload> {
    NativePayloads(b.native, d)
    + (if d in known && d != b.source then RegistrationPayloads(b.source, b.registrations) else [])
    + TransferPayloads(b.transfers, d)
  }

  lemma BatchAddressed(b: Batch, known: set<SubnetId>, subnets: seq<SubnetId>, d: SubnetId)
    requires Lists(subnets, known)
    requires forall e :: e in b.transfers ==> e.amount > 0
    ensures Addressed(BatchPosts(b, subnets), d) == BatchPayloads(b, known, d)
  {
    NativeAddressed(b.native, d);
    RegistrationAddressed(b.source, b.registrations, subnets, d);
    TransferAddressed(b.transfers, d);
    var regs := RegistrationPosts(b.source, b.registrations, subnets);
    AddressedConcat(NativePosts(b.native), regs, d);
    AddressedConcat(NativePosts(b.native) + regs, TransferPosts(b.transfers), d);
  }
}

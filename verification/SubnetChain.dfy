/**
 The checkpoint records and the committee table. On every run slot k holds record k,
 each record names a stored committee, and the table holds the committee in office under
 its number. Records are also linked, each signed by the committee its predecessor
 named, until a checkpoint rotates between committees of one address.
 */
module SubnetChain {
  import opened Outcomes
  import opened Committees
  import opened Subnets

  type Records = map<nat, Checkpoint>
  type Table = map<nat, Committee>

  /** Slot `k` holds record number `k`, which names a stored committee. */
  ghost predicate RecordOk(cps: Records, table: Table, k: nat, now: nat) {
    && k in cps
    && cps[k].number == k
    && cps[k].batchTxid.None?
    && cps[k].blockHeight <= now
    && cps[k].signedCommittee <= cps[k].nextCommittee <= cps[k].signedCommittee + 1
    && cps[k].nextCommittee in table
  }

  /** The first `n` slots, with heights that never fall. */
  ghost predicate SlotsOk(cps: Records, table: Table, n: nat, now: nat) {
    && (forall k :: 0 <= k < n ==> RecordOk(cps, table, k, now))
    && forall j, k :: 0 <= j < k < n ==> j in cps && k in cps && cps[j].blockHeight <= cps[k].blockHeight
  }

  /** The table has rows 1..number and at most one more, and row `number` is the committee in office. */
  ghost predicate OfficeStored(table: Table, number: nat, c: Committee) {
    && (forall m :: 1 <= m <= number ==> m in table)
    && (forall m :: m in table ==> 1 <= m <= number + 1)
    && number in table
    && table[number] == c
  }

  ghost predicate TablesOk(s: Subnet, now: nat) {
    && (s.state.None? ==> s.checkpoints == map[] && s.committees == map[])
    && (s.state.Some? ==>
        && SlotsOk(s.checkpoints, s.committees, NextCheckpoint(s.state.value), now)
        && OfficeStored(s.committees, s.state.value.committeeNumber, s.state.value.committee))
  }

  /** Record `k` is signed by the committee that the record before it named. */
  ghost predicate Linked(cps: Records, k: nat) {
    && k in cps
    && if k == 0 then cps[k].signedCommittee == 1
       else k - 1 in cps && cps[k].signedCommittee == cps[k - 1].nextCommittee
  }

  ghost predicate AllLinked(cps: Records, n: nat) {
    forall k :: 0 <= k < n ==> Linked(cps, k)
  }

  /** The committee number that the first `n` records lead to. */
  ghost predicate LeadsTo(cps: Records, n: nat, committee: nat) {
    if n == 0 then committee == 1 else n - 1 in cps && cps[n - 1].nextCommittee == committee
  }

  ghost predicate LinksOk(s: Subnet) {
    s.state.Some? ==>
      && AllLinked(s.checkpoints, NextCheckpoint(s.state.value))
      && LeadsTo(s.checkpoints, NextCheckpoint(s.state.value), s.state.value.committeeNumber)
      && s.state.value.committeeNumber + 1 !in s.committees
  }

  ghost predicate ChainOk(s: Subnet, now: nat) {
    TablesOk(s, now) && LinksOk(s)
  }

  // ---------------------------------------------------------------------
  // What leaves the records alone

  /** Writing slot `n` or beyond and adding committees leaves the first `n` slots in order. */
  lemma SlotsFrame(cps: Records, cps': Records, table: Table, table': Table, n: nat, now: nat, height: nat)
    requires SlotsOk(cps, table, n, now) && now <= height
    requires forall k :: 0 <= k < n && k in cps ==> k in cps' && cps'[k] == cps[k]
    requires forall m :: m in table ==> m in table'
    ensures SlotsOk(cps', table', n, height)
  {
    forall k | 0 <= k < n
      ensures RecordOk(cps', table', k, height) && k in cps && cps'[k] == cps[k]
    {
      assert RecordOk(cps, table, k, now);
    }
  }

  /** The fields that records, links and the table speak of are the same. */
  ghost predicate SameRecords(s: Subnet, s': Subnet) {
    && s'.checkpoints == s.checkpoints && s'.committees == s.committees
    && s'.state.Some? == s.state.Some?
    && (s.state.Some? ==>
        && s'.state.value.lastCheckpoint == s.state.value.lastCheckpoint
        && s'.state.value.committeeNumber == s.state.value.committeeNumber
        && s'.state.value.committee == s.state.value.committee)
  }

  lemma TablesFrame(s: Subnet, s': Subnet, now: nat, height: nat)
    requires TablesOk(s, now) && now <= height && SameRecords(s, s')
    ensures TablesOk(s', height)
  {
    if s.state.Some? {
      SlotsFrame(s.checkpoints, s.checkpoints, s.committees, s.committees, NextCheckpoint(s.state.value), now, height);
    }
  }

  lemma LinksFrame(s: Subnet, s': Subnet)
    requires SameRecords(s, s')
    ensures LinksOk(s') <==> LinksOk(s)
  {
  }

  /** Bootstrap starts the chain. */
  lemma BootstrapChain(s: Subnet, v: Validator, at: Place, now: nat)
    requires s.state.None? && TablesOk(s, now) && JoinBefore(s, v, at).Ok?
    ensures TablesOk(JoinBefore(s, v, at).value, at.height) && LinksOk(JoinBefore(s, v, at).value)
  {
  }

  /** The row a batch writes lies beyond the records, and the next checkpoint replaces it. */
  lemma BatchKeepsRecords(s: Subnet, at: Place, now: nat)
    requires TablesOk(s, now) && now <= at.height && ApplyBatch(s, at).Ok?
    ensures TablesOk(ApplyBatch(s, at).value, at.height)
    ensures LinksOk(ApplyBatch(s, at).value) <==> LinksOk(s)
  {
    var s', n := ApplyBatch(s, at).value, NextCheckpoint(s.state.value);
    SlotsFrame(s.checkpoints, s'.checkpoints, s.committees, s'.committees, n, now, at.height);
    forall k | 0 <= k < n
      ensures Linked(s'.checkpoints, k) <==> Linked(s.checkpoints, k)
    {
      assert RecordOk(s.checkpoints, s.committees, k, now);
      assert k > 0 ==> RecordOk(s.checkpoints, s.committees, k - 1, now);
    }
  }

  // ---------------------------------------------------------------------
  // Checkpoints

  /** One more record. */
  lemma ExtendSlots(cps: Records, table: Table, table': Table, n: nat, r: Checkpoint, now: nat, height: nat)
    requires SlotsOk(cps, table, n, now) && now <= height
    requires forall m :: m in table ==> m in table'
    requires r.number == n && r.batchTxid.None? && r.blockHeight == height
    requires r.signedCommittee <= r.nextCommittee <= r.signedCommittee + 1 && r.nextCommittee in table'
    ensures SlotsOk(cps[n := r], table', n + 1, height)
  {
    var cps' := cps[n := r];
    SlotsFrame(cps, cps', table, table', n, now, height);
    forall k | 0 <= k < n + 1
      ensures RecordOk(cps', table', k, height)
      ensures k < n ==> k in cps && cps[k].blockHeight <= now
    {
      if k < n {
        assert RecordOk(cps, table, k, now);
      }
    }
  }

  /** One more record that the committee in office signed. */
  lemma ExtendLinks(cps: Records, n: nat, r: Checkpoint, committee: nat)
    requires AllLinked(cps, n) && LeadsTo(cps, n, committee) && r.signedCommittee == committee
    ensures AllLinked(cps[n := r], n + 1)
    ensures LeadsTo(cps[n := r], n + 1, r.nextCommittee)
  {
    var cps' := cps[n := r];
    forall k | 0 <= k < n + 1
      ensures Linked(cps', k)
    {
      if k < n {
        assert Linked(cps, k);
      }
    }
  }

  /** The subnet after a rotation. */
  function Rotated(s: Subnet, nextConf: nat, isKill: bool, at: Place): Subnet
    requires s.state.Some? && nextConf in s.log
  {
    var st, target := s.state.value, s.log[nextConf].committeeAfter;
    var record := Recorded(st, nextConf, isKill, at);
    s.(state := Some(Checkpointed(Rotate(st, target), isKill, at)),
       checkpoints := s.checkpoints[record.number := record],
       committees := s.committees[st.committeeNumber + 1 := target],
       log := ConfirmUpTo(s.log, nextConf, at.height))
  }

  lemma PlainTables(s: Subnet, nextConf: nat, isKill: bool, at: Place, now: nat)
    requires TablesOk(s, now) && now <= at.height && s.state.Some? && !Rotates(s.state.value, nextConf)
    ensures TablesOk(ApplyCheckpoint(s, nextConf, isKill, at).value, at.height)
  {
    var st := s.state.value;
    ExtendSlots(s.checkpoints, s.committees, s.committees, NextCheckpoint(st), Recorded(st, nextConf, isKill, at), now, at.height);
  }

  lemma RotatedTables(s: Subnet, nextConf: nat, isKill: bool, at: Place, now: nat)
    requires TablesOk(s, now) && now <= at.height && s.state.Some? && Rotates(s.state.value, nextConf) && nextConf in s.log
    ensures TablesOk(Rotated(s, nextConf, isKill, at), at.height)
  {
    var st, target := s.state.value, s.log[nextConf].committeeAfter;
    var table' := s.committees[st.committeeNumber + 1 := target];
    ExtendSlots(s.checkpoints, s.committees, table', NextCheckpoint(st), Recorded(st, nextConf, isKill, at), now, at.height);
    var st' := Rotate(st, target);
    assert OfficeStored(table', st'.committeeNumber, st'.committee);
  }

  /** Every checkpoint keeps the slots and the table, whatever it rotates to. */
  lemma CheckpointKeepsTables(s: Subnet, nextConf: nat, isKill: bool, at: Place, now: nat)
    requires TablesOk(s, now) && now <= at.height && ApplyCheckpoint(s, nextConf, isKill, at).Ok?
    ensures TablesOk(ApplyCheckpoint(s, nextConf, isKill, at).value, at.height)
  {
    if Rotates(s.state.value, nextConf) {
      RotatedTables(s, nextConf, isKill, at, now);
    } else {
      PlainTables(s, nextConf, isKill, at, now);
    }
  }

  // ---------------------------------------------------------------------
  // Links

  /** The rotation target has the address of the committee in office. */
  predicate CollidingTarget(s: Subnet, nextConf: nat) {
    && s.state.Some?
    && Rotates(s.state.value, nextConf)
    && nextConf in s.log
    && s.log[nextConf].committeeAfter.address == s.state.value.committee.address
  }

  lemma PlainLinks(s: Subnet, nextConf: nat, isKill: bool, at: Place)
    requires LinksOk(s) && s.state.Some? && !Rotates(s.state.value, nextConf)
    ensures LinksOk(ApplyCheckpoint(s, nextConf, isKill, at).value)
  {
    var st := s.state.value;
    ExtendLinks(s.checkpoints, NextCheckpoint(st), Recorded(st, nextConf, isKill, at), st.committeeNumber);
  }

  /** A rotation to another address extends the chain. */
  lemma RotatedLinks(s: Subnet, nextConf: nat, isKill: bool, at: Place, now: nat)
    requires TablesOk(s, now) && LinksOk(s) && s.state.Some?
    requires Rotates(s.state.value, nextConf) && nextConf in s.log && !CollidingTarget(s, nextConf)
    ensures LinksOk(Rotated(s, nextConf, isKill, at))
  {
    var st := s.state.value;
    ExtendLinks(s.checkpoints, NextCheckpoint(st), Recorded(st, nextConf, isKill, at), st.committeeNumber);
  }

  /** The record names a new committee number, but the state keeps the old one. */
  lemma CollidingRotation(s: Subnet, nextConf: nat, isKill: bool, at: Place)
    requires CollidingTarget(s, nextConf)
    ensures var s' := Rotated(s, nextConf, isKill, at);
      && s'.state.Some? && NextCheckpoint(s'.state.value) == NextCheckpoint(s.state.value) + 1
      && !LeadsTo(s'.checkpoints, NextCheckpoint(s'.state.value), s'.state.value.committeeNumber)
  {
    var st, s' := s.state.value, Rotated(s, nextConf, isKill, at);
    assert s'.checkpoints[NextCheckpoint(st)].nextCommittee == st.committeeNumber + 1;
  }

  /** A checkpoint keeps the links if and only if it does not rotate between equal addresses. */
  lemma CheckpointKeepsLinksExactly(s: Subnet, nextConf: nat, isKill: bool, at: Place, now: nat)
    requires TablesOk(s, now) && LinksOk(s) && ApplyCheckpoint(s, nextConf, isKill, at).Ok?
    ensures LinksOk(ApplyCheckpoint(s, nextConf, isKill, at).value) <==> !CollidingTarget(s, nextConf)
  {
    if !Rotates(s.state.value, nextConf) {
      PlainLinks(s, nextConf, isKill, at);
    } else if CollidingTarget(s, nextConf) {
      CollidingRotation(s, nextConf, isKill, at);
    } else {
      RotatedLinks(s, nextConf, isKill, at, now);
    }
  }
}

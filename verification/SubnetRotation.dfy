/**
 Rotations. Whatever a checkpoint rotates to, every snapshot that is left replays the
 log; the latest one falls behind exactly when a later waiting committee with the
 target's address is dropped. What a rotation confirms, and what the records say of it.
 */
module SubnetRotation {
  import opened Outcomes
  import opened Committees
  import opened Subnets
  import opened SubnetLog
  import opened SubnetSteps
  import opened SubnetChain

  /** The two logs differ in confirmations alone. */
  ghost predicate SameChanges(log: Log, log': Log) {
    && |log'| == |log|
    && (forall k :: k in log' <==> k in log)
    && forall k :: k in log ==>
         && log'[k].change == log[k].change && log'[k].validator == log[k].validator
         && log'[k].committeeAfter == log[k].committeeAfter
  }

  lemma ConfirmExtends(log: Log, max: nat, height: nat)
    requires Numbered(log)
    ensures SameChanges(log, ConfirmUpTo(log, max, height)) && Extends(log, ConfirmUpTo(log, max, height))
    ensures LogKept(log, ConfirmUpTo(log, max, height))
  {
    var log' := ConfirmUpTo(log, max, height);
    assert log'.Keys == log.Keys;
    assert |log'.Keys| == |log.Keys|;
  }

  lemma RotationEntries(g: seq<Validator>, log: Log, log': Log)
    requires SameChanges(log, log') && Extends(log, log') && EntriesOk(g, log)
    ensures EntriesOk(g, log')
  {
    forall k | k in log'
      ensures EntryOk(g, log', k)
    {
      assert EntryOk(g, log, k);
      SnapshotFrame(g, log, log', log[k].committeeAfter);
    }
  }

  lemma RotationTable(g: seq<Validator>, log: Log, log': Log, table: Table, n: nat, target: Committee)
    requires Extends(log, log') && StoredOk(g, log, table) && SnapshotOk(g, log, target)
    ensures StoredOk(g, log', table[n := target])
  {
    SnapshotFrame(g, log, log', target);
    StoredFrame(g, log, log', table);
  }

  lemma RotationWaiting(g: seq<Validator>, log: Log, log': Log, c: Committee)
    requires SameChanges(log, log') && Extends(log, log') && LatestOk(g, log, c) && LastIs(log, c)
    ensures LatestOk(g, log', c) && LastIs(log', c)
  {
    SnapshotFrame(g, log, log', c);
  }

  /** Whatever a rotation goes to, every snapshot that is left still replays the log. */
  lemma RotatedSnapshots(g: seq<Validator>, log: Log, log': Log, table: Table, st: SubnetState, n: nat, target: Committee)
    requires SameChanges(log, log') && Extends(log, log') && SnapshotsOk(g, log, table, st.committee, st.waiting)
    requires SnapshotOk(g, log, target)
    ensures SnapshotsOk(g, log', table[n := target], Rotate(st, target).committee, Rotate(st, target).waiting)
  {
    RotationEntries(g, log, log');
    RotationTable(g, log, log', table, n, target);
    SnapshotFrame(g, log, log', target);
    SnapshotFrame(g, log, log', st.committee);
    if st.waiting.Some? {
      RotationWaiting(g, log, log', st.waiting.value);
    }
  }

  /** The parts of a rotated subnet that the replay speaks of. */
  lemma RotatedParts(s: Subnet, nextConf: nat, isKill: bool, at: Place)
    requires s.state.Some? && nextConf in s.log
    ensures var st, target, s' := s.state.value, s.log[nextConf].committeeAfter, Rotated(s, nextConf, isKill, at);
      && s'.id == s.id && s'.genesis == s.genesis && s'.log == ConfirmUpTo(s.log, nextConf, at.height)
      && s'.committees == s.committees[st.committeeNumber + 1 := target]
      && s'.state.Some? && s'.state.value.committee == Rotate(st, target).committee
      && s'.state.value.waiting == Rotate(st, target).waiting
  {
  }

  lemma ReplayFromParts(s: Subnet, s': Subnet, target: Committee)
    requires s.state.Some? && ReplayCore(s) && s'.state.Some? && s'.genesis == s.genesis
    requires SameChanges(s.log, s'.log) && Extends(s.log, s'.log)
    requires s'.committees == s.committees[s.state.value.committeeNumber + 1 := target]
    requires s'.state.value.committee == Rotate(s.state.value, target).committee
    requires s'.state.value.waiting == Rotate(s.state.value, target).waiting
    requires SnapshotOk(s.genesis.validators, s.log, target)
    ensures ReplayCore(s')
  {
    RotatedSnapshots(s.genesis.validators, s.log, s'.log, s.committees, s.state.value, s.state.value.committeeNumber + 1, target);
  }

  lemma EntryOfCore(s: Subnet, n: nat)
    requires s.state.Some? && ReplayCore(s) && n in s.log
    ensures EntryOk(s.genesis.validators, s.log, n)
  {
  }

  lemma RotationKeepsCore(s: Subnet, nextConf: nat, isKill: bool, at: Place)
    requires s.state.Some? && Numbered(s.log) && ReplayCore(s) && nextConf in s.log
    ensures ReplayCore(Rotated(s, nextConf, isKill, at))
  {
    EntryOfCore(s, nextConf);
    ConfirmExtends(s.log, nextConf, at.height);
    RotatedParts(s, nextConf, isKill, at);
    ReplayFromParts(s, Rotated(s, nextConf, isKill, at), s.log[nextConf].committeeAfter);
  }

  /** An accepted checkpoint that rotates leads to the rotated subnet. */
  lemma CheckpointIsRotated(s: Subnet, nextConf: nat, isKill: bool, at: Place)
    requires s.state.Some? && Rotates(s.state.value, nextConf) && ApplyCheckpoint(s, nextConf, isKill, at).Ok?
    ensures nextConf in s.log && s.state.value.committee.configurationNumber < nextConf
    ensures ApplyCheckpoint(s, nextConf, isKill, at) == Ok(Rotated(s, nextConf, isKill, at))
  {
  }

  lemma PlainKeepsCore(s: Subnet, nextConf: nat, isKill: bool, at: Place)
    requires s.state.Some? && ReplayCore(s) && !Rotates(s.state.value, nextConf)
    ensures var s' := ApplyCheckpoint(s, nextConf, isKill, at).value;
      ReplayCore(s') && (Behind(s') <==> Behind(s))
  {
  }

  /** Every checkpoint keeps the snapshots replayed, whatever it rotates to. */
  lemma CheckpointKeepsReplayCore(s: Subnet, nextConf: nat, isKill: bool, at: Place)
    requires Numbered(s.log) && ReplayCore(s) && ApplyCheckpoint(s, nextConf, isKill, at).Ok?
    ensures ReplayCore(ApplyCheckpoint(s, nextConf, isKill, at).value)
  {
    if Rotates(s.state.value, nextConf) {
      CheckpointIsRotated(s, nextConf, isKill, at);
      RotationKeepsCore(s, nextConf, isKill, at);
    } else {
      PlainKeepsCore(s, nextConf, isKill, at);
    }
  }

  // ---------------------------------------------------------------------
  // When the latest committee falls behind

  /** A later waiting committee has the address of the rotation target. */
  predicate DroppingTarget(s: Subnet, nextConf: nat) {
    && s.state.Some?
    && Rotates(s.state.value, nextConf)
    && nextConf in s.log
    && var st, target := s.state.value, s.log[nextConf].committeeAfter;
       && target.address != st.committee.address
       && st.waiting.Some? && st.waiting.value.address == target.address
       && st.waiting.value.configurationNumber != target.configurationNumber
  }

  /** The rotation target is told apart by its address from the current and from a later waiting committee. */
  predicate FaithfulCheckpoint(s: Subnet, nextConf: nat) {
    !CollidingTarget(s, nextConf) && !DroppingTarget(s, nextConf)
  }

  lemma RotationBehind(s: Subnet, nextConf: nat, isKill: bool, at: Place)
    requires s.state.Some? && Numbered(s.log) && !Behind(s)
    requires Rotates(s.state.value, nextConf) && ApplyCheckpoint(s, nextConf, isKill, at).Ok?
    ensures nextConf in s.log
    ensures Behind(Rotated(s, nextConf, isKill, at)) <==> DroppingTarget(s, nextConf)
  {
    ConfirmExtends(s.log, nextConf, at.height);
    RotatedParts(s, nextConf, isKill, at);
  }

  /** A checkpoint keeps the replay if and only if it does not drop a later waiting committee. */
  lemma CheckpointReplayExactly(s: Subnet, nextConf: nat, isKill: bool, at: Place)
    requires Numbered(s.log) && ReplayOk(s) && ApplyCheckpoint(s, nextConf, isKill, at).Ok?
    ensures ReplayOk(ApplyCheckpoint(s, nextConf, isKill, at).value) <==> !DroppingTarget(s, nextConf)
  {
    CheckpointKeepsReplayCore(s, nextConf, isKill, at);
    if Rotates(s.state.value, nextConf) {
      RotationBehind(s, nextConf, isKill, at);
    } else {
      PlainKeepsCore(s, nextConf, isKill, at);
    }
  }

  /** A checkpoint keeps the chain and the replay if and only if it is faithful. */
  lemma CheckpointKeepsExactly(s: Subnet, nextConf: nat, isKill: bool, at: Place, now: nat)
    requires Numbered(s.log) && ReplayOk(s) && ChainOk(s, now) && now <= at.height
    requires ApplyCheckpoint(s, nextConf, isKill, at).Ok?
    ensures var s' := ApplyCheckpoint(s, nextConf, isKill, at).value;
      ReplayOk(s') && ChainOk(s', at.height) <==> FaithfulCheckpoint(s, nextConf)
  {
    CheckpointReplayExactly(s, nextConf, isKill, at);
    CheckpointKeepsTables(s, nextConf, isKill, at, now);
    CheckpointKeepsLinksExactly(s, nextConf, isKill, at, now);
  }

  // ---------------------------------------------------------------------
  // Committees and the log

  lemma CheckpointCommittees(s: Subnet, nextConf: nat, isKill: bool, at: Place)
    requires CommitteesOk(s) && Numbered(s.log) && ApplyCheckpoint(s, nextConf, isKill, at).Ok?
    ensures CommitteesOk(ApplyCheckpoint(s, nextConf, isKill, at).value)
  {
    if Rotates(s.state.value, nextConf) {
      ConfirmExtends(s.log, nextConf, at.height);
      RotatedParts(s, nextConf, isKill, at);
      RotatedCommittees(s, Rotated(s, nextConf, isKill, at), s.log[nextConf].committeeAfter);
    }
  }

  lemma EntriesFormedFrame(log: Log, log': Log, id: SubnetId, minStake: nat)
    requires SameChanges(log, log') && EntriesWellFormed(log, id, minStake)
    ensures EntriesWellFormed(log', id, minStake)
  {
  }

  lemma TableFormedPut(table: Table, n: nat, c: Committee, id: SubnetId, minStake: nat)
    requires TableWellFormed(table, id, minStake) && WellFormed(c, id, minStake)
    ensures TableWellFormed(table[n := c], id, minStake)
  {
  }

  lemma RotateFormed(st: SubnetState, target: Committee, id: SubnetId, minStake: nat)
    requires WellFormed(st.committee, id, minStake) && WellFormed(LatestCommittee(st), id, minStake) && WellFormed(target, id, minStake)
    ensures WellFormed(Rotate(st, target).committee, id, minStake) && WellFormed(LatestCommittee(Rotate(st, target)), id, minStake)
  {
  }

  lemma RotatedCommittees(s: Subnet, s': Subnet, target: Committee)
    requires CommitteesOk(s) && s.state.Some? && s'.state.Some? && s'.id == s.id && s'.genesis == s.genesis
    requires SameChanges(s.log, s'.log) && WellFormed(target, s.id, s.genesis.minStake)
    requires s'.committees == s.committees[s.state.value.committeeNumber + 1 := target]
    requires s'.state.value.committee == Rotate(s.state.value, target).committee
    requires s'.state.value.waiting == Rotate(s.state.value, target).waiting
    ensures CommitteesOk(s')
  {
    EntriesFormedFrame(s.log, s'.log, s.id, s.genesis.minStake);
    TableFormedPut(s.committees, s.state.value.committeeNumber + 1, target, s.id, s.genesis.minStake);
    RotateFormed(s.state.value, target, s.id, s.genesis.minStake);
  }

  lemma CheckpointLog(s: Subnet, nextConf: nat, isKill: bool, at: Place, now: nat)
    requires LogOk(s, now) && now <= at.height && ApplyCheckpoint(s, nextConf, isKill, at).Ok?
    ensures LogOk(ApplyCheckpoint(s, nextConf, isKill, at).value, at.height)
  {
    ConfirmOk(s.log, nextConf, now, at.height);
  }

  // ---------------------------------------------------------------------
  // Configuration numbers of the records

  /**
   The committee `c` has the number that the record says. A rotation may have gone to
   the first half of a join, whose snapshot has the number of the second half.
   */
  ghost predicate Names(r: Checkpoint, log: Log, c: Committee) {
    if r.signedCommittee == r.nextCommittee then c.configurationNumber == r.nextConfiguration
    else r.nextConfiguration in log && c.configurationNumber == SnapshotNumber(log, r.nextConfiguration)
  }

  ghost predicate AllNamed(cps: Records, table: Table, log: Log, n: nat) {
    forall k :: 0 <= k < n ==> k in cps && cps[k].nextCommittee in table && Names(cps[k], log, table[cps[k].nextCommittee])
  }

  ghost predicate NamesOk(s: Subnet) {
    s.state.Some? ==> AllNamed(s.checkpoints, s.committees, s.log, NextCheckpoint(s.state.value))
  }

  lemma NamesFrame(cps: Records, cps': Records, table: Table, table': Table, log: Log, log': Log, n: nat)
    requires AllNamed(cps, table, log, n) && LogKept(log, log')
    requires forall k :: 0 <= k < n && k in cps ==> k in cps' && cps'[k] == cps[k]
    requires forall m :: m in table ==> m in table' && table'[m] == table[m]
    ensures AllNamed(cps', table', log', n)
  {
  }

  /** A checkpoint that does not rotate between equal addresses leaves every record with the right number. */
  lemma CheckpointNames(s: Subnet, nextConf: nat, isKill: bool, at: Place)
    requires Numbered(s.log) && ReplayCore(s) && LinksOk(s) && NamesOk(s)
    requires s.state.Some? ==> OfficeStored(s.committees, s.state.value.committeeNumber, s.state.value.committee)
    requires ApplyCheckpoint(s, nextConf, isKill, at).Ok? && !CollidingTarget(s, nextConf)
    ensures NamesOk(ApplyCheckpoint(s, nextConf, isKill, at).value)
  {
    if Rotates(s.state.value, nextConf) {
      CheckpointIsRotated(s, nextConf, isKill, at);
      RotationNames(s, nextConf, isKill, at);
    } else {
      PlainNames(s, nextConf, isKill, at);
    }
  }

  lemma PlainNames(s: Subnet, nextConf: nat, isKill: bool, at: Place)
    requires s.state.Some? && NamesOk(s) && !Rotates(s.state.value, nextConf)
    requires OfficeStored(s.committees, s.state.value.committeeNumber, s.state.value.committee)
    ensures NamesOk(ApplyCheckpoint(s, nextConf, isKill, at).value)
  {
    var n, r := NextCheckpoint(s.state.value), Recorded(s.state.value, nextConf, isKill, at);
    NamesFrame(s.checkpoints, s.checkpoints[n := r], s.committees, s.committees, s.log, s.log, n);
    assert AllNamed(s.checkpoints[n := r], s.committees, s.log, n + 1);
  }

  lemma RotationNames(s: Subnet, nextConf: nat, isKill: bool, at: Place)
    requires s.state.Some? && Numbered(s.log) && ReplayCore(s) && NamesOk(s) && LinksOk(s)
    requires Rotates(s.state.value, nextConf) && nextConf in s.log
    ensures NamesOk(Rotated(s, nextConf, isKill, at))
  {
    EntryOfCore(s, nextConf);
    ConfirmExtends(s.log, nextConf, at.height);
    RotatedNames(s, nextConf, isKill, at);
  }

  lemma RotatedNames(s: Subnet, nextConf: nat, isKill: bool, at: Place)
    requires s.state.Some? && NamesOk(s) && Rotates(s.state.value, nextConf) && nextConf in s.log
    requires s.state.value.committeeNumber + 1 !in s.committees
    requires s.log[nextConf].committeeAfter.configurationNumber == SnapshotNumber(s.log, nextConf)
    requires LogKept(s.log, ConfirmUpTo(s.log, nextConf, at.height))
    ensures NamesOk(Rotated(s, nextConf, isKill, at))
  {
    var st, log' := s.state.value, ConfirmUpTo(s.log, nextConf, at.height);
    var n, r := NextCheckpoint(st), Recorded(st, nextConf, isKill, at);
    var table' := s.committees[st.committeeNumber + 1 := s.log[nextConf].committeeAfter];
    NamesFrame(s.checkpoints, s.checkpoints[n := r], s.committees, table', s.log, log', n);
    assert AllNamed(s.checkpoints[n := r], table', log', n + 1);
  }

  // ---------------------------------------------------------------------
  // Confirmations and the committee in office

  /**
   Entries below the number of the committee in office are confirmed and entries above
   it are not. The entry with that very number is confirmed too, unless it is a deposit
   and the committee came into office through the join half of it.
   */
  ghost predicate ConfirmedToOffice(log: Log, number: nat) {
    && (forall k :: k in log && k < number ==> log[k].confirmed.Some?)
    && (forall k :: k in log && k > number ==> log[k].confirmed.None?)
    && (number in log && log[number].confirmed.None? ==> number > 0 && number - 1 in log && log[number - 1].change.Join?)
  }

  ghost predicate OfficeOk(s: Subnet) {
    s.state.Some? ==> ConfirmedToOffice(s.log, s.state.value.committee.configurationNumber)
  }

  lemma OfficeFrame(log: Log, log': Log, number: nat)
    requires ConfirmedToOffice(log, number) && number <= |log|
    requires forall k :: k in log ==> k in log' && log'[k] == log[k]
    requires forall k :: k in log' && k !in log ==> k > |log| && log'[k].confirmed.None?
    ensures ConfirmedToOffice(log', number)
  {
  }

  lemma ConfirmedOffice(log: Log, number: nat, nextConf: nat, height: nat)
    requires Numbered(log) && ConfirmedToOffice(log, number) && number < nextConf && nextConf in log
    ensures ConfirmedToOffice(ConfirmUpTo(log, nextConf, height), SnapshotNumber(log, nextConf))
  {
  }

  lemma CheckpointOffice(s: Subnet, nextConf: nat, isKill: bool, at: Place)
    requires Numbered(s.log) && ReplayCore(s) && OfficeOk(s)
    requires ApplyCheckpoint(s, nextConf, isKill, at).Ok? && !CollidingTarget(s, nextConf)
    ensures OfficeOk(ApplyCheckpoint(s, nextConf, isKill, at).value)
  {
    if Rotates(s.state.value, nextConf) {
      EntryOfCore(s, nextConf);
      ConfirmedOffice(s.log, s.state.value.committee.configurationNumber, nextConf, at.height);
      RotatedParts(s, nextConf, isKill, at);
    }
  }

  /** Every entry up to the number of the committee in office is confirmed. */
  ghost predicate OfficeConfirmed(s: Subnet) {
    s.state.Some? && forall k :: k in s.log && k <= s.state.value.committee.configurationNumber ==> s.log[k].confirmed.Some?
  }

  /**
   A rotation to another address leaves every entry up to its committee's number confirmed
   if and only if its target is not the join half of an entry pair whose deposit is pending.
   */
  lemma RotationConfirmsExactly(s: Subnet, nextConf: nat, isKill: bool, at: Place)
    requires s.state.Some? && Numbered(s.log) && ReplayCore(s)
    requires Rotates(s.state.value, nextConf) && ApplyCheckpoint(s, nextConf, isKill, at).Ok?
    requires !CollidingTarget(s, nextConf)
    ensures nextConf in s.log
    ensures OfficeConfirmed(ApplyCheckpoint(s, nextConf, isKill, at).value) <==>
      (s.log[nextConf].change.Join? && nextConf + 1 in s.log ==> s.log[nextConf + 1].confirmed.Some?)
  {
    EntryOfCore(s, nextConf);
    RotatedParts(s, nextConf, isKill, at);
    ConfirmedRange(s.log, nextConf, at.height);
  }

  lemma ConfirmedRange(log: Log, nextConf: nat, height: nat)
    requires Numbered(log) && nextConf in log
    ensures var log' := ConfirmUpTo(log, nextConf, height);
      (forall k :: k in log' && k <= SnapshotNumber(log, nextConf) ==> log'[k].confirmed.Some?) <==>
      (log[nextConf].change.Join? && nextConf + 1 in log ==> log[nextConf + 1].confirmed.Some?)
  {
    var log', n := ConfirmUpTo(log, nextConf, height), SnapshotNumber(log, nextConf);
    forall k | k in log'
      ensures log'[k].confirmed.Some? <==> log[k].confirmed.Some? || k <= nextConf
    {
    }
    if log[nextConf].change.Join? && nextConf + 1 in log && log[nextConf + 1].confirmed.None? {
      assert nextConf + 1 in log' && log'[nextConf + 1].confirmed.None?;
    }
  }
}

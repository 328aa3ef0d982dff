/**
 The row of a candidate over any run inside a snapshot. It holds the minima over the
 committee that was in office at the opening and the committees of those records whose
 number the row had not seen; and as long as no rotation of the subnet goes between equal
 addresses, these are the minima over all committees in office.
 */
module RewardSnapshots {
  import opened Outcomes
  import opened Committees
  import opened Subnets
  import opened SubnetChain
  import opened SubnetKill
  import opened SubnetHistory
  import opened Rewards
  import opened RewardMinima
  import opened RewardRuns

  predicate Bootstrapped(w: World, id: SubnetId) {
    id in w && w[id].subnet.state.Some?
  }

  predicate IsKilled(w: World, id: SubnetId) {
    Bootstrapped(w, id) && w[id].subnet.state.value.killed.Killed?
  }

  function Office(w: World, id: SubnetId): Committee
    requires Bootstrapped(w, id)
  {
    w[id].subnet.state.value.committee
  }

  function OfficeNumber(w: World, id: SubnetId): nat
    requires Bootstrapped(w, id)
  {
    w[id].subnet.state.value.committeeNumber
  }

  // ---------------------------------------------------------------------
  // What the tracker counts

  /** The record of an event that lowers a row which has last seen committee number `recent`. */
  function Counts(w: World, e: MonitorEvent, id: SubnetId, recent: nat): (r: Option<Checkpoint>)
    ensures r.Some? ==> e.Message? && id in w && r.value.nextCommittee in Step(w[id].subnet, e.event).committees
  {
    if e.Message? && e.id == id && id in w && AcceptsCheckpoint(w[id].subnet, e.event) then
      var s' := Step(w[id].subnet, e.event);
      var r := LastRecord(s');
      if && r.Some? && !r.value.isKill && r.value.signedCommittee != r.value.nextCommittee
         && r.value.nextCommittee != recent && r.value.nextCommittee in s'.committees
      then r else None
    else None
  }

  /** The committees that lower the row during a run. */
  function Counted(w: World, evs: seq<MonitorEvent>, id: SubnetId, recent: nat): seq<Committee>
    decreases |evs|
  {
    if evs == [] then []
    else
      var r, w' := Counts(w, evs[0], id, recent), WorldAfter(w, evs[0]);
      if r.None? then Counted(w', evs[1..], id, recent)
      else [Step(w[id].subnet, evs[0].event).committees[r.value.nextCommittee]] + Counted(w', evs[1..], id, r.value.nextCommittee)
  }

  /** The last committee number that the row has seen. */
  function LastCounted(w: World, evs: seq<MonitorEvent>, id: SubnetId, recent: nat): nat
    decreases |evs|
  {
    if evs == [] then recent
    else
      var r := Counts(w, evs[0], id, recent);
      LastCounted(WorldAfter(w, evs[0]), evs[1..], id, if r.Some? then r.value.nextCommittee else recent)
  }

  // ---------------------------------------------------------------------
  // The row of one candidate

  /** The amounts are the minima over the committees counted, or can still be read off the first of them. */
  ghost predicate RowMinima(info: RewardInfo, s: Subnet, recent: nat, seen: seq<Committee>)
    requires seen != []
  {
    && info.mostRecent == recent
    && (info.amounts.None? ==>
        && |seen| == 1 && DistinctValidators(seen[0].validators)
        && s.state.Some? && recent <= s.state.value.committeeNumber
        && recent in s.committees && s.committees[recent] == seen[0])
    && (info.amounts.Some? ==> AreMinima(info.amounts.value, seen))
  }

  /** A candidate has its row until it is killed. */
  ghost predicate RowOk(w: World, t: Tracker, snapshot: nat, id: SubnetId, recent: nat, seen: seq<Committee>) {
    && Bootstrapped(w, id)
    && seen != []
    && ((snapshot, id) in t.candidates <==> !IsKilled(w, id))
    && ((snapshot, id) in t.candidates ==> RowMinima(t.candidates[(snapshot, id)], w[id].subnet, recent, seen))
  }

  /** The committee number never falls, and the rows up to it are never rewritten. */
  ghost predicate TableGrows(s: Subnet, s': Subnet) {
    && s.state.Some? && s'.state.Some?
    && s.state.value.committeeNumber <= s'.state.value.committeeNumber
    && forall m :: m in s.committees && m <= s.state.value.committeeNumber ==> m in s'.committees && s'.committees[m] == s.committees[m]
  }

  lemma StepTableGrows(s: Subnet, ev: Event, now: nat)
    requires TablesOk(s, now) && now <= ev.at.height && s.state.Some?
    ensures TableGrows(s, Step(s, ev))
  {
    NumberGrows(s, ev, now);
  }

  lemma RowStays(info: RewardInfo, s: Subnet, s': Subnet, recent: nat, seen: seq<Committee>)
    requires seen != [] && RowMinima(info, s, recent, seen) && TableGrows(s, s')
    ensures RowMinima(info, s', recent, seen)
  {
  }

  /** Whatever the row says, it stands for the minima so far. */
  lemma RowAmountsAre(w: World, id: SubnetId, info: RewardInfo, recent: nat, seen: seq<Committee>)
    requires seen != [] && id in w && RowMinima(info, w[id].subnet, recent, seen)
    ensures AmountsOf(w, id, info).Some? && AreMinima(AmountsOf(w, id, info).value, seen)
  {
    if info.amounts.None? {
      FirstMinima(seen, seen[0]);
    }
  }

  // ---------------------------------------------------------------------
  // Steps inside a snapshot

  /** After the first block of the snapshot and before its last block ends. */
  ghost predicate Inside(cfg: RewardConfig, snapshot: nat, e: MonitorEvent)
    requires ValidConfig(cfg)
  {
    && Start(cfg, snapshot) < HeightOf(e) <= End(cfg, snapshot)
    && (e.BlockEnd? ==> HeightOf(e) < End(cfg, snapshot))
  }

  ghost function TrackerAfter(cfg: RewardConfig, w: World, t: Tracker, e: MonitorEvent): Tracker
    requires ValidConfig(cfg)
  {
    Next(cfg, Monitor(w, t), e).tracker
  }

  /** Events of other subnets, and block ends, do not touch the row. */
  lemma RowUntouched(cfg: RewardConfig, w: World, t: Tracker, snapshot: nat, id: SubnetId, e: MonitorEvent)
    requires ValidConfig(cfg) && Inside(cfg, snapshot, e)
    requires e.Message? ==> e.id != id
    ensures var t', row := TrackerAfter(cfg, w, t, e), (snapshot, id);
      (row in t'.candidates <==> row in t.candidates) && (row in t.candidates ==> t'.candidates[row] == t.candidates[row])
    ensures id in w ==> id in WorldAfter(w, e) && WorldAfter(w, e)[id] == w[id]
  {
    SnapshotsTile(cfg, HeightOf(e), snapshot);
  }

  /** No row appears inside a snapshot. */
  lemma NoNewRow(cfg: RewardConfig, w: World, t: Tracker, snapshot: nat, id: SubnetId, e: MonitorEvent)
    requires ValidConfig(cfg) && Inside(cfg, snapshot, e)
    requires (snapshot, id) !in t.candidates
    ensures (snapshot, id) !in TrackerAfter(cfg, w, t, e).candidates
  {
    SnapshotsTile(cfg, HeightOf(e), snapshot);
  }

  /** The hook of a checkpoint inside the snapshot, as far as its row is concerned. */
  lemma HookAt(cfg: RewardConfig, w: World, t: Tracker, snapshot: nat, height: nat, id: SubnetId, cp: Checkpoint)
    requires ValidConfig(cfg) && Start(cfg, snapshot) < height <= End(cfg, snapshot)
    ensures var t', row := AfterCheckpoint(cfg, w, t, height, id, cp).tracker, (snapshot, id);
      && (cp.isKill ==> row !in t'.candidates)
      && (!cp.isKill && (row !in t.candidates || cp.signedCommittee == cp.nextCommittee) ==> t' == t)
      && (!cp.isKill && row in t.candidates && cp.nextCommittee == t.candidates[row].mostRecent ==> t' == t)
      && (!cp.isKill && row in t.candidates && cp.signedCommittee != cp.nextCommittee && cp.nextCommittee != t.candidates[row].mostRecent
          && AmountsOf(w, id, t.candidates[row]).Some? && id in w && cp.nextCommittee in w[id].subnet.committees ==>
            && row in t'.candidates
            && t'.candidates[row] == RewardInfo(cp.nextCommittee,
                 Some(Lowered(AmountsOf(w, id, t.candidates[row]).value, w[id].subnet.committees[cp.nextCommittee].validators))))
  {
    SnapshotsTile(cfg, height, snapshot);
  }

  /** The record of an accepted checkpoint, and what the rows say afterwards. */
  lemma CheckpointRows(s: Subnet, s': Subnet, n: nat, isKill: bool, at: Place)
    requires ApplyCheckpoint(s, n, isKill, at) == Ok(s')
    ensures s.state.Some? && s'.state.Some?
    ensures LastRecord(s') == Some(Recorded(s.state.value, n, isKill, at))
    ensures s'.state.value.killed == if isKill then Killed(at.height) else s.state.value.killed
    ensures Rotates(s.state.value, n) ==> s.state.value.committeeNumber + 1 in s'.committees
  {
  }

  /** A row after a checkpoint that it counts; `w` is the world after it. */
  lemma CountedRow(cfg: RewardConfig, w: World, t: Tracker, snapshot: nat, height: nat, id: SubnetId, cp: Checkpoint,
                   recent: nat, seen: seq<Committee>)
    requires ValidConfig(cfg) && Start(cfg, snapshot) < height <= End(cfg, snapshot) && !cp.isKill
    requires id in w && seen != [] && (snapshot, id) in t.candidates
    requires RowMinima(t.candidates[(snapshot, id)], w[id].subnet, recent, seen)
    requires cp.signedCommittee != cp.nextCommittee && cp.nextCommittee != recent && cp.nextCommittee in w[id].subnet.committees
    ensures var t' := AfterCheckpoint(cfg, w, t, height, id, cp).tracker;
      && (snapshot, id) in t'.candidates
      && RowMinima(t'.candidates[(snapshot, id)], w[id].subnet, cp.nextCommittee, seen + [w[id].subnet.committees[cp.nextCommittee]])
  {
    var info := t.candidates[(snapshot, id)];
    RowAmountsAre(w, id, info, recent, seen);
    LowerMinima(AmountsOf(w, id, info).value, seen, w[id].subnet.committees[cp.nextCommittee]);
    HookAt(cfg, w, t, snapshot, height, id, cp);
  }

  /** A row after any checkpoint, which counts if it is not a kill and names a number the row has not seen. */
  lemma RecordedRow(cfg: RewardConfig, w: World, w': World, t: Tracker, snapshot: nat, at: Place, id: SubnetId, n: nat, isKill: bool,
                    recent: nat, seen: seq<Committee>)
    requires ValidConfig(cfg) && Start(cfg, snapshot) < at.height <= End(cfg, snapshot)
    requires RowOk(w, t, snapshot, id, recent, seen) && id in w' && TableGrows(w[id].subnet, w'[id].subnet)
    requires ApplyCheckpoint(w[id].subnet, n, isKill, at) == Ok(w'[id].subnet)
    ensures var cp := Recorded(w[id].subnet.state.value, n, isKill, at);
      var t', counts := AfterCheckpoint(cfg, w', t, at.height, id, cp).tracker,
                        !isKill && cp.signedCommittee != cp.nextCommittee && cp.nextCommittee != recent;
      && (counts ==> cp.nextCommittee in w'[id].subnet.committees
                     && RowOk(w', t', snapshot, id, cp.nextCommittee, seen + [w'[id].subnet.committees[cp.nextCommittee]]))
      && (!counts ==> RowOk(w', t', snapshot, id, recent, seen))
  {
    var s, s' := w[id].subnet, w'[id].subnet;
    var cp := Recorded(s.state.value, n, isKill, at);
    CheckpointRows(s, s', n, isKill, at);
    HookAt(cfg, w', t, snapshot, at.height, id, cp);
    if (snapshot, id) in t.candidates && !isKill {
      RowStays(t.candidates[(snapshot, id)], s, s', recent, seen);
      if cp.signedCommittee != cp.nextCommittee && cp.nextCommittee != recent {
        CountedRow(cfg, w', t, snapshot, at.height, id, cp, recent, seen);
      }
    }
  }

  /** The row after an event: what it has seen and what it has counted. */
  ghost predicate RowAfter(w: World, t: Tracker, w': World, t': Tracker, snapshot: nat, e: MonitorEvent, id: SubnetId, recent: nat, seen: seq<Committee>) {
    var r := Counts(w, e, id, recent);
    if r.None? then RowOk(w', t', snapshot, id, recent, seen)
    else RowOk(w', t', snapshot, id, r.value.nextCommittee, seen + [Step(w[id].subnet, e.event).committees[r.value.nextCommittee]])
  }

  lemma CheckpointRow(cfg: RewardConfig, w: World, t: Tracker, snapshot: nat, id: SubnetId, ev: Event, recent: nat, seen: seq<Committee>)
    requires ValidConfig(cfg) && Start(cfg, snapshot) < ev.at.height <= End(cfg, snapshot)
    requires RowOk(w, t, snapshot, id, recent, seen) && TableGrows(w[id].subnet, Step(w[id].subnet, ev))
    requires AcceptsCheckpoint(w[id].subnet, ev)
    ensures RowAfter(w, t, WorldAfter(w, Message(id, ev)), MessageHook(cfg, w, t, id, ev), snapshot, Message(id, ev), id, recent, seen)
  {
    var w', n, isKill := WorldAfter(w, Message(id, ev)), ev.msg.nextConfiguration, ev.msg.isKill;
    CheckpointRows(w[id].subnet, w'[id].subnet, n, isKill, ev.at);
    RecordedRow(cfg, w, w', t, snapshot, ev.at, id, n, isKill, recent, seen);
  }

  lemma MessageRow(cfg: RewardConfig, w: World, t: Tracker, snapshot: nat, id: SubnetId, ev: Event, recent: nat, seen: seq<Committee>)
    requires ValidConfig(cfg) && RowOk(w, t, snapshot, id, recent, seen) && TableGrows(w[id].subnet, Step(w[id].subnet, ev))
    requires !AcceptsCheckpoint(w[id].subnet, ev)
    ensures RowAfter(w, t, WorldAfter(w, Message(id, ev)), MessageHook(cfg, w, t, id, ev), snapshot, Message(id, ev), id, recent, seen)
  {
    var s := w[id].subnet;
    StepFields(s, ev);
    if (snapshot, id) in t.candidates {
      RowStays(t.candidates[(snapshot, id)], s, Step(s, ev), recent, seen);
    }
  }

  lemma OtherRow(cfg: RewardConfig, w: World, t: Tracker, snapshot: nat, id: SubnetId, e: MonitorEvent, recent: nat, seen: seq<Committee>)
    requires ValidConfig(cfg) && Inside(cfg, snapshot, e) && (e.Message? ==> e.id != id)
    requires RowOk(w, t, snapshot, id, recent, seen)
    ensures RowAfter(w, t, WorldAfter(w, e), TrackerAfter(cfg, w, t, e), snapshot, e, id, recent, seen)
  {
    RowUntouched(cfg, w, t, snapshot, id, e);
  }

  ghost predicate TrackedOkAt(w: World, id: SubnetId, now: nat) {
    id in w && TrackedOk(w[id], now)
  }

  /** Every event inside the snapshot, whatever it is, takes the row where it should. */
  lemma RowStep(cfg: RewardConfig, w: World, t: Tracker, snapshot: nat, id: SubnetId, e: MonitorEvent, recent: nat, seen: seq<Committee>, now: nat)
    requires ValidConfig(cfg) && Inside(cfg, snapshot, e) && TrackedOkAt(w, id, now) && GoodEvent(w, e, now)
    requires RowOk(w, t, snapshot, id, recent, seen)
    ensures RowAfter(w, t, WorldAfter(w, e), TrackerAfter(cfg, w, t, e), snapshot, e, id, recent, seen)
  {
    if e.Message? && e.id == id {
      StepTableGrows(w[id].subnet, e.event, now);
      if AcceptsCheckpoint(w[id].subnet, e.event) {
        CheckpointRow(cfg, w, t, snapshot, id, e.event, recent, seen);
      } else {
        MessageRow(cfg, w, t, snapshot, id, e.event, recent, seen);
      }
    } else {
      OtherRow(cfg, w, t, snapshot, id, e, recent, seen);
    }
  }

  // ---------------------------------------------------------------------
  // Whole snapshots

  ghost predicate SnapshotRun(cfg: RewardConfig, snapshot: nat, w: World, evs: seq<MonitorEvent>, now: nat)
    requires ValidConfig(cfg)
    decreases |evs|
  {
    evs == [] ||
    (&& Inside(cfg, snapshot, evs[0])
     && GoodEvent(w, evs[0], now)
     && SnapshotRun(cfg, snapshot, WorldAfter(w, evs[0]), evs[1..], HeightOf(evs[0])))
  }

  function LastEvent(evs: seq<MonitorEvent>, now: nat): nat {
    if evs == [] then now else HeightOf(evs[|evs| - 1])
  }

  /** The first event of a run inside a snapshot. */
  lemma FirstEvent(cfg: RewardConfig, m: Monitor, snapshot: nat, evs: seq<MonitorEvent>, now: nat)
    requires ValidConfig(cfg) && WorldOk(m.world, now) && SnapshotRun(cfg, snapshot, m.world, evs, now) && evs != []
    ensures Inside(cfg, snapshot, evs[0]) && GoodEvent(m.world, evs[0], now)
    ensures Next(cfg, m, evs[0]).world == WorldAfter(m.world, evs[0])
    ensures Next(cfg, m, evs[0]).tracker == TrackerAfter(cfg, m.world, m.tracker, evs[0])
    ensures WorldOk(Next(cfg, m, evs[0]).world, HeightOf(evs[0]))
    ensures SnapshotRun(cfg, snapshot, Next(cfg, m, evs[0]).world, evs[1..], HeightOf(evs[0]))
    ensures RunMonitor(cfg, m, evs) == RunMonitor(cfg, Next(cfg, m, evs[0]), evs[1..])
  {
    NextWorld(m.world, evs[0], now);
  }

  ghost predicate MonitorRowOk(m: Monitor, snapshot: nat, id: SubnetId, recent: nat, seen: seq<Committee>) {
    RowOk(m.world, m.tracker, snapshot, id, recent, seen)
  }

  /** What the first event adds to what was counted. */
  lemma CountedUnfold(w: World, evs: seq<MonitorEvent>, id: SubnetId, recent: nat, seen: seq<Committee>)
    returns (recent': nat, seen': seq<Committee>)
    requires evs != []
    ensures var r := Counts(w, evs[0], id, recent);
      if r.None? then recent' == recent && seen' == seen
      else recent' == r.value.nextCommittee && seen' == seen + [Step(w[id].subnet, evs[0].event).committees[recent']]
    ensures LastCounted(w, evs, id, recent) == LastCounted(WorldAfter(w, evs[0]), evs[1..], id, recent')
    ensures seen + Counted(w, evs, id, recent) == seen' + Counted(WorldAfter(w, evs[0]), evs[1..], id, recent')
  {
    var r := Counts(w, evs[0], id, recent);
    if r.None? {
      recent', seen' := recent, seen;
    } else {
      recent' := r.value.nextCommittee;
      seen' := seen + [Step(w[id].subnet, evs[0].event).committees[recent']];
    }
  }

  lemma AfterIsOk(w: World, t: Tracker, m': Monitor, snapshot: nat, e: MonitorEvent, id: SubnetId,
                  recent: nat, seen: seq<Committee>, recent': nat, seen': seq<Committee>)
    requires RowAfter(w, t, m'.world, m'.tracker, snapshot, e, id, recent, seen)
    requires var r := Counts(w, e, id, recent);
      if r.None? then recent' == recent && seen' == seen
      else recent' == r.value.nextCommittee && seen' == seen + [Step(w[id].subnet, e.event).committees[recent']]
    ensures MonitorRowOk(m', snapshot, id, recent', seen')
  {
  }

  /** The row after the first event of a run. */
  lemma FirstRow(cfg: RewardConfig, m: Monitor, m': Monitor, snapshot: nat, id: SubnetId, evs: seq<MonitorEvent>, recent: nat, seen: seq<Committee>, now: nat)
    returns (recent': nat, seen': seq<Committee>)
    requires ValidConfig(cfg) && WorldOk(m.world, now) && SnapshotRun(cfg, snapshot, m.world, evs, now) && evs != []
    requires MonitorRowOk(m, snapshot, id, recent, seen) && m' == Next(cfg, m, evs[0])
    ensures MonitorRowOk(m', snapshot, id, recent', seen')
    ensures LastCounted(m.world, evs, id, recent) == LastCounted(m'.world, evs[1..], id, recent')
    ensures seen + Counted(m.world, evs, id, recent) == seen' + Counted(m'.world, evs[1..], id, recent')
  {
    FirstEvent(cfg, m, snapshot, evs, now);
    assert TrackedOkAt(m.world, id, now);
    RowStep(cfg, m.world, m.tracker, snapshot, id, evs[0], recent, seen, now);
    recent', seen' := CountedUnfold(m.world, evs, id, recent, seen);
    AfterIsOk(m.world, m.tracker, m', snapshot, evs[0], id, recent, seen, recent', seen');
  }

  /** The row of a candidate after any run: minima over what was counted before and during it. */
  lemma {:induction false} RowRun(cfg: RewardConfig, m: Monitor, snapshot: nat, id: SubnetId, evs: seq<MonitorEvent>, recent: nat, seen: seq<Committee>, now: nat)
    requires ValidConfig(cfg) && WorldOk(m.world, now) && SnapshotRun(cfg, snapshot, m.world, evs, now)
    requires MonitorRowOk(m, snapshot, id, recent, seen)
    ensures MonitorRowOk(RunMonitor(cfg, m, evs), snapshot, id, LastCounted(m.world, evs, id, recent), seen + Counted(m.world, evs, id, recent))
    decreases |evs|
  {
    if evs == [] {
      assert seen + [] == seen;
    } else {
      var m' := Next(cfg, m, evs[0]);
      FirstEvent(cfg, m, snapshot, evs, now);
      var recent', seen' := FirstRow(cfg, m, m', snapshot, id, evs, recent, seen, now);
      RowRun(cfg, m', snapshot, id, evs[1..], recent', seen', HeightOf(evs[0]));
    }
  }

  lemma {:induction false} NoRowRun(cfg: RewardConfig, m: Monitor, snapshot: nat, id: SubnetId, evs: seq<MonitorEvent>, now: nat)
    requires ValidConfig(cfg) && WorldOk(m.world, now) && SnapshotRun(cfg, snapshot, m.world, evs, now)
    requires (snapshot, id) !in m.tracker.candidates
    ensures (snapshot, id) !in RunMonitor(cfg, m, evs).tracker.candidates
    decreases |evs|
  {
    if evs != [] {
      FirstEvent(cfg, m, snapshot, evs, now);
      NoNewRow(cfg, m.world, m.tracker, snapshot, id, evs[0]);
      NoRowRun(cfg, Next(cfg, m, evs[0]), snapshot, id, evs[1..], HeightOf(evs[0]));
    }
  }

  // ---------------------------------------------------------------------
  // The hook finds its rows

  /** The checkpoint hook that this event runs reports an error. */
  ghost predicate HookFails(cfg: RewardConfig, m: Monitor, id: SubnetId, ev: Event)
    requires ValidConfig(cfg)
  {
    && id in m.world && AcceptsCheckpoint(m.world[id].subnet, ev)
    && var w' := WorldAfter(m.world, Message(id, ev));
       || LastRecord(w'[id].subnet).None?
       || AfterCheckpoint(cfg, w', m.tracker, ev.at.height, id, LastRecord(w'[id].subnet).value).failed
  }

  /** A hook fails only where a row is there whose committees are not. */
  lemma HookFailsOnlyAt(cfg: RewardConfig, w: World, t: Tracker, snapshot: nat, height: nat, id: SubnetId, cp: Checkpoint)
    requires ValidConfig(cfg) && Start(cfg, snapshot) < height <= End(cfg, snapshot)
    requires (snapshot, id) in t.candidates && id in w && !cp.isKill && cp.signedCommittee != cp.nextCommittee ==>
      AmountsOf(w, id, t.candidates[(snapshot, id)]).Some? && cp.nextCommittee in w[id].subnet.committees
    requires id in w
    ensures !AfterCheckpoint(cfg, w, t, height, id, cp).failed
  {
    SnapshotsTile(cfg, height, snapshot);
  }

  lemma RowedHook(cfg: RewardConfig, w: World, w': World, t: Tracker, snapshot: nat, at: Place, id: SubnetId, n: nat, isKill: bool,
                  recent: nat, seen: seq<Committee>)
    requires ValidConfig(cfg) && Start(cfg, snapshot) < at.height <= End(cfg, snapshot)
    requires RowOk(w, t, snapshot, id, recent, seen) && id in w' && TableGrows(w[id].subnet, w'[id].subnet)
    requires ApplyCheckpoint(w[id].subnet, n, isKill, at) == Ok(w'[id].subnet)
    ensures !AfterCheckpoint(cfg, w', t, at.height, id, Recorded(w[id].subnet.state.value, n, isKill, at)).failed
  {
    var s, s' := w[id].subnet, w'[id].subnet;
    CheckpointRows(s, s', n, isKill, at);
    if (snapshot, id) in t.candidates {
      RowStays(t.candidates[(snapshot, id)], s, s', recent, seen);
      RowAmountsAre(w', id, t.candidates[(snapshot, id)], recent, seen);
    }
    HookFailsOnlyAt(cfg, w', t, snapshot, at.height, id, Recorded(s.state.value, n, isKill, at));
  }

  lemma UnrowedHook(cfg: RewardConfig, w: World, t: Tracker, snapshot: nat, height: nat, id: SubnetId, cp: Checkpoint)
    requires ValidConfig(cfg) && Start(cfg, snapshot) < height <= End(cfg, snapshot)
    requires (snapshot, id) !in t.candidates && id in w
    ensures !AfterCheckpoint(cfg, w, t, height, id, cp).failed
  {
    HookFailsOnlyAt(cfg, w, t, snapshot, height, id, cp);
  }

  /** No checkpoint of a subnet whose row is in order, or that has none, makes its hook fail. */
  lemma HookSucceeds(cfg: RewardConfig, m: Monitor, snapshot: nat, id: SubnetId, ev: Event, recent: nat, seen: seq<Committee>, now: nat)
    requires ValidConfig(cfg) && Start(cfg, snapshot) < ev.at.height <= End(cfg, snapshot)
    requires WorldOk(m.world, now) && GoodEvent(m.world, Message(id, ev), now)
    requires (snapshot, id) in m.tracker.candidates ==> MonitorRowOk(m, snapshot, id, recent, seen)
    ensures !HookFails(cfg, m, id, ev)
  {
    if id in m.world && AcceptsCheckpoint(m.world[id].subnet, ev) {
      var w', n, isKill := WorldAfter(m.world, Message(id, ev)), ev.msg.nextConfiguration, ev.msg.isKill;
      var s := m.world[id].subnet;
      CheckpointRows(s, w'[id].subnet, n, isKill, ev.at);
      if (snapshot, id) in m.tracker.candidates {
        StepTableGrows(s, ev, now);
        RowedHook(cfg, m.world, w', m.tracker, snapshot, ev.at, id, n, isKill, recent, seen);
      } else {
        UnrowedHook(cfg, w', m.tracker, snapshot, ev.at.height, id, Recorded(s.state.value, n, isKill, ev.at));
      }
    }
  }

  lemma LastEventTail(evs: seq<MonitorEvent>, now: nat)
    requires evs != []
    ensures LastEvent(evs[1..], HeightOf(evs[0])) == LastEvent(evs, now)
  {
  }

  lemma {:induction false} WorldRun(cfg: RewardConfig, m: Monitor, snapshot: nat, evs: seq<MonitorEvent>, now: nat)
    requires ValidConfig(cfg) && WorldOk(m.world, now) && SnapshotRun(cfg, snapshot, m.world, evs, now)
    ensures WorldOk(RunMonitor(cfg, m, evs).world, LastEvent(evs, now))
    decreases |evs|
  {
    if evs != [] {
      FirstEvent(cfg, m, snapshot, evs, now);
      LastEventTail(evs, now);
      WorldRun(cfg, Next(cfg, m, evs[0]), snapshot, evs[1..], HeightOf(evs[0]));
    }
  }
}

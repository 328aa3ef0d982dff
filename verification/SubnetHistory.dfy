/**
 The checkpoint records over whole runs. The chain holds at the end of a run if and
 only if no accepted checkpoint of it rotated between committees of one address. The
 records are the history of the subnet: reading them and the committee table for a
 height, at any later time and whatever happened since, gives the committee number that
 was in office at that height if and only if the last record up to it named that number.
 */
module SubnetHistory {
  import opened Outcomes
  import opened Committees
  import opened Subnets
  import opened SubnetChain
  import opened SubnetCore

  /** The message rotates, if it is accepted, between committees of one address. */
  predicate Collides(s: Subnet, ev: Event) {
    ev.msg.CheckpointMsg? && CollidingTarget(s, ev.msg.nextConfiguration)
  }

  // ---------------------------------------------------------------------
  // One step

  /**
   The records and the committees of `s` are untouched in `s'`, and either no record was
   added, or one that the committee in office signed and that carries `height`.
   */
  ghost predicate HistoryKept(s: Subnet, s': Subnet, height: nat) {
    && s.state.Some? && s'.state.Some?
    && (forall n :: n in s.committees && n <= s.state.value.committeeNumber ==> n in s'.committees && s'.committees[n] == s.committees[n])
    && var next := NextCheckpoint(s.state.value);
       && (forall k :: 0 <= k < next && k in s.checkpoints ==> k in s'.checkpoints && s'.checkpoints[k] == s.checkpoints[k])
       && (|| (&& NextCheckpoint(s'.state.value) == next
               && s'.state.value.committeeNumber == s.state.value.committeeNumber)
           || (&& NextCheckpoint(s'.state.value) == next + 1
               && next in s'.checkpoints && s'.checkpoints[next].blockHeight == height
               && s'.checkpoints[next].signedCommittee == s.state.value.committeeNumber))
  }

  lemma CheckpointHistory(s: Subnet, s': Subnet, n: nat, isKill: bool, at: Place)
    requires ApplyCheckpoint(s, n, isKill, at) == Ok(s')
    ensures HistoryKept(s, s', at.height)
  {
  }

  lemma BatchHistory(s: Subnet, s': Subnet, at: Place)
    requires ApplyBatch(s, at) == Ok(s')
    ensures HistoryKept(s, s', at.height)
  {
  }

  lemma StepHistory(s: Subnet, ev: Event)
    requires s.state.Some?
    ensures HistoryKept(s, Step(s, ev), ev.at.height)
  {
    if Apply(s, ev).Ok? {
      var s', at := Apply(s, ev).value, ev.at;
      if IsChange(ev) {
        ChangesShape(s, ev);
      } else {
        match ev.msg
        case CheckpointMsg(n, isKill) => CheckpointHistory(s, s', n, isKill, at);
        case BatchMsg => BatchHistory(s, s', at);
        case KillMsg(k, rows) => KillShape(s, s', k, rows, at);
      }
    }
  }

  lemma StepLinksExactly(s: Subnet, ev: Event, now: nat)
    requires TablesOk(s, now) && LinksOk(s) && now <= ev.at.height && Apply(s, ev).Ok?
    ensures LinksOk(Step(s, ev)) <==> !Collides(s, ev)
  {
    if s.state.None? {
      GenesisTables(s, ev, now);
    } else if ev.msg.CheckpointMsg? {
      CheckpointKeepsLinksExactly(s, ev.msg.nextConfiguration, ev.msg.isKill, ev.at, now);
    } else if ev.msg.BatchMsg? {
      BatchKeepsRecords(s, ev.at, now);
    } else {
      RecordsUntouched(s, ev);
      LinksFrame(s, Step(s, ev));
    }
  }

  /** An accepted message keeps the chain if and only if it does not collide. */
  lemma StepKeepsChainExactly(s: Subnet, ev: Event, now: nat)
    requires ChainOk(s, now) && now <= ev.at.height && Apply(s, ev).Ok?
    ensures ChainOk(Step(s, ev), ev.at.height) <==> !Collides(s, ev)
  {
    StepTables(s, ev, now);
    StepLinksExactly(s, ev, now);
  }

  // ---------------------------------------------------------------------
  // A broken chain stays broken

  ghost predicate Broken(s: Subnet) {
    && s.state.Some?
    && var n := NextCheckpoint(s.state.value);
       && (forall k :: 0 <= k < n ==> k in s.checkpoints)
       && (!LeadsTo(s.checkpoints, n, s.state.value.committeeNumber) || exists k :: 0 <= k < n && !Linked(s.checkpoints, k))
  }

  lemma BrokenStays(s: Subnet, s': Subnet, height: nat)
    requires Broken(s) && HistoryKept(s, s', height)
    ensures Broken(s')
  {
    var n := NextCheckpoint(s.state.value);
    if k :| 0 <= k < n && !Linked(s.checkpoints, k) {
      assert !Linked(s'.checkpoints, k);
    } else if NextCheckpoint(s'.state.value) == n + 1 {
      assert !Linked(s'.checkpoints, n);
    }
  }

  lemma {:induction false} BrokenForever(s: Subnet, evs: seq<Event>)
    requires Broken(s)
    ensures Broken(Run(s, evs))
    decreases |evs|
  {
    if evs != [] {
      StepHistory(s, evs[0]);
      BrokenStays(s, Step(s, evs[0]), evs[0].at.height);
      BrokenForever(Step(s, evs[0]), evs[1..]);
    }
  }

  lemma BrokenIsNoChain(s: Subnet, now: nat)
    requires Broken(s)
    ensures !ChainOk(s, now)
  {
  }

  lemma CollisionBreaks(s: Subnet, ev: Event, now: nat)
    requires ChainOk(s, now) && Apply(s, ev).Ok? && Collides(s, ev)
    ensures Broken(Step(s, ev))
  {
    var n, isKill := ev.msg.nextConfiguration, ev.msg.isKill;
    assert Step(s, ev) == Rotated(s, n, isKill, ev.at);
    CollidingRotation(s, n, isKill, ev.at);
    forall k | 0 <= k < NextCheckpoint(s.state.value)
      ensures k in s.checkpoints
    {
      assert RecordOk(s.checkpoints, s.committees, k, now);
    }
  }

  // ---------------------------------------------------------------------
  // Runs

  /** No accepted message of the run collides. */
  predicate CollisionFree(s: Subnet, evs: seq<Event>)
    decreases |evs|
  {
    evs == [] || ((Apply(s, evs[0]).Ok? ==> !Collides(s, evs[0])) && CollisionFree(Step(s, evs[0]), evs[1..]))
  }

  lemma ChainStep(s: Subnet, ev: Event, now: nat)
    requires ChainOk(s, now) && now <= ev.at.height && (Apply(s, ev).Ok? ==> !Collides(s, ev))
    ensures ChainOk(Step(s, ev), ev.at.height)
  {
    if Apply(s, ev).Ok? {
      StepKeepsChainExactly(s, ev, now);
    } else {
      TablesFrame(s, s, now, ev.at.height);
    }
  }

  /** At the end of any run, the chain holds if and only if no accepted message collided. */
  lemma {:induction false} ChainExactlyOverRuns(s: Subnet, evs: seq<Event>, now: nat)
    requires ChainOk(s, now) && OrderedRun(s, evs, now)
    ensures ChainOk(Run(s, evs), LastHeight(evs, now)) <==> CollisionFree(s, evs)
    decreases |evs|
  {
    if evs != [] {
      LastHeightTail(evs, now);
      if Apply(s, evs[0]).Ok? && Collides(s, evs[0]) {
        CollisionBreaks(s, evs[0], now);
        BrokenForever(Step(s, evs[0]), evs[1..]);
        BrokenIsNoChain(Run(s, evs), LastHeight(evs, now));
      } else {
        ChainStep(s, evs[0], now);
        ChainExactlyOverRuns(Step(s, evs[0]), evs[1..], evs[0].at.height);
      }
    }
  }

  // ---------------------------------------------------------------------
  // Reading the history

  /** The committee number in office at height `h`, from the first `n` records. */
  function ActiveNumber(cps: Records, n: nat, h: nat): nat {
    if n == 0 then 1
    else if n - 1 in cps && cps[n - 1].blockHeight <= h then cps[n - 1].nextCommittee
    else ActiveNumber(cps, n - 1, h)
  }

  function CommitteeAt(s: Subnet, h: nat): Option<Committee> {
    if s.state.None? then None
    else
      var number := ActiveNumber(s.checkpoints, NextCheckpoint(s.state.value), h);
      if number in s.committees then Some(s.committees[number]) else None
  }

  lemma {:induction false} ActiveFrame(cps: Records, cps': Records, n: nat, h: nat)
    requires forall k :: 0 <= k < n ==> k in cps && k in cps' && cps'[k] == cps[k]
    ensures ActiveNumber(cps', n, h) == ActiveNumber(cps, n, h)
  {
    if n > 0 {
      ActiveFrame(cps, cps', n - 1, h);
      assert cps'[n - 1] == cps[n - 1];
    }
  }

  function ReadNumber(s: Subnet, h: nat): nat
    requires s.state.Some?
  {
    ActiveNumber(s.checkpoints, NextCheckpoint(s.state.value), h)
  }

  /** Reading the history now gives the number in office if and only if the last record named it. */
  lemma ReadNow(s: Subnet, now: nat)
    requires TablesOk(s, now) && s.state.Some?
    ensures ReadNumber(s, now) == s.state.value.committeeNumber <==>
      LeadsTo(s.checkpoints, NextCheckpoint(s.state.value), s.state.value.committeeNumber)
  {
    var n := NextCheckpoint(s.state.value);
    if n > 0 {
      assert RecordOk(s.checkpoints, s.committees, n - 1, now);
    }
  }

  /** A message above height `h` does not change what the history says of `h`. */
  lemma HistoryStep(s: Subnet, s': Subnet, now: nat, height: nat, h: nat)
    requires TablesOk(s, now) && HistoryKept(s, s', height) && h < height
    ensures ReadNumber(s', h) == ReadNumber(s, h)
  {
    var n := NextCheckpoint(s.state.value);
    forall k | 0 <= k < n
      ensures k in s.checkpoints && k in s'.checkpoints && s'.checkpoints[k] == s.checkpoints[k]
    {
      assert RecordOk(s.checkpoints, s.committees, k, now);
    }
    ActiveFrame(s.checkpoints, s'.checkpoints, n, h);
  }

  lemma TablesAfter(s: Subnet, ev: Event, now: nat)
    requires TablesOk(s, now) && now <= ev.at.height
    ensures TablesOk(Step(s, ev), ev.at.height)
  {
    if Apply(s, ev).Ok? {
      StepTables(s, ev, now);
    } else {
      TablesFrame(s, s, now, ev.at.height);
    }
  }

  lemma OfficeNumberGrows(s: Subnet, ev: Event)
    requires s.state.Some? && Step(s, ev).state.Some?
    ensures s.state.value.committeeNumber <= Step(s, ev).state.value.committeeNumber
  {
    if Apply(s, ev).Ok? {
      if ev.msg.CheckpointMsg? {
        CheckpointNumber(s, Step(s, ev), ev.msg.nextConfiguration, ev.msg.isKill, ev.at);
      } else if !ev.msg.BatchMsg? {
        RecordsUntouched(s, ev);
      }
    }
  }

  lemma KeptOffices(s: Subnet, s': Subnet, height: nat)
    requires HistoryKept(s, s', height)
    ensures s'.state.Some?
    ensures forall m :: m in s.committees && m <= s.state.value.committeeNumber ==> m in s'.committees && s'.committees[m] == s.committees[m]
  {
  }

  lemma NumberGrows(s: Subnet, ev: Event, now: nat)
    requires TablesOk(s, now) && now <= ev.at.height && s.state.Some?
    ensures Step(s, ev).state.Some? && TablesOk(Step(s, ev), ev.at.height)
    ensures s.state.value.committeeNumber <= Step(s, ev).state.value.committeeNumber
    ensures forall m :: m in s.committees && m <= s.state.value.committeeNumber ==>
      m in Step(s, ev).committees && Step(s, ev).committees[m] == s.committees[m]
  {
    StepHistory(s, ev);
    KeptOffices(s, Step(s, ev), ev.at.height);
    TablesAfter(s, ev, now);
    OfficeNumberGrows(s, ev);
  }

  lemma CheckpointNumber(s: Subnet, s': Subnet, n: nat, isKill: bool, at: Place)
    requires ApplyCheckpoint(s, n, isKill, at) == Ok(s')
    ensures s.state.Some? && s'.state.Some? && s.state.value.committeeNumber <= s'.state.value.committeeNumber
  {
  }

  /** Over any run above `h`, what is read for `h` stays, and so do the committees up to the number in office. */
  lemma {:induction false} HistoryRuns(s: Subnet, evs: seq<Event>, now: nat, h: nat)
    requires TablesOk(s, now) && s.state.Some? && OrderedRun(s, evs, now)
    requires forall i :: 0 <= i < |evs| ==> evs[i].at.height > h
    ensures Run(s, evs).state.Some? && ReadNumber(Run(s, evs), h) == ReadNumber(s, h)
    ensures forall m :: m in s.committees && m <= s.state.value.committeeNumber ==>
      m in Run(s, evs).committees && Run(s, evs).committees[m] == s.committees[m]
    decreases |evs|
  {
    if evs != [] {
      var ev := evs[0];
      StepHistory(s, ev);
      HistoryStep(s, Step(s, ev), now, ev.at.height, h);
      NumberGrows(s, ev, now);
      HistoryRuns(Step(s, ev), evs[1..], ev.at.height, h);
    }
  }

  /**
   The records are authoritative. Whatever happened up to height `h`, and whatever
   happens above it, reading the records for height `h` gives the committee number that
   was in office when the messages up to `h` had been handled if and only if the last
   record by then named that number, and then the committee read is the one in office.
   */
  lemma HistoryIsAuthoritative(s: Subnet, later: seq<Event>, h: nat)
    requires TablesOk(s, h) && s.state.Some? && OrderedRun(s, later, h)
    requires forall i :: 0 <= i < |later| ==> later[i].at.height > h
    ensures var last, st := Run(s, later), s.state.value;
      && last.state.Some?
      && (ReadNumber(last, h) == st.committeeNumber <==> LeadsTo(s.checkpoints, NextCheckpoint(st), st.committeeNumber))
      && (LeadsTo(s.checkpoints, NextCheckpoint(st), st.committeeNumber) ==> CommitteeAt(last, h) == Some(st.committee))
  {
    ReadNow(s, h);
    HistoryRuns(s, later, h, h);
  }

  /** The same from creation; a run without collisions always meets the condition. */
  lemma HistoryFromCreation(created: Subnet, evs: seq<Event>, later: seq<Event>, h: nat)
    requires Core(created, 0) && OrderedRun(created, evs, 0) && LastHeight(evs, 0) <= h
    requires OrderedRun(Run(created, evs), later, h) && forall i :: 0 <= i < |later| ==> later[i].at.height > h
    ensures var s, last := Run(created, evs), Run(created, evs + later);
      s.state.Some? && LeadsTo(s.checkpoints, NextCheckpoint(s.state.value), s.state.value.committeeNumber) ==>
        CommitteeAt(last, h) == Some(s.state.value.committee)
    ensures LinksOk(created) && CollisionFree(created, evs) && Run(created, evs).state.Some? ==>
      CommitteeAt(Run(created, evs + later), h) == Some(Run(created, evs).state.value.committee)
  {
    var s := Run(created, evs);
    RunsKeepCore(created, evs, 0);
    CoreLater(s, LastHeight(evs, 0), h);
    RunConcat(created, evs, later);
    if s.state.Some? {
      HistoryIsAuthoritative(s, later, h);
      if LinksOk(created) {
        ChainExactlyOverRuns(created, evs, 0);
      }
    }
  }
}

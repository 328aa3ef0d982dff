/**
 What the tracker counts, against the committees in office. As long as no rotation of a
 subnet goes between equal addresses, every rotation is counted, and the minima over the
 committees counted are the minima over all committees in office.
 */
module RewardOffices {
  import opened Outcomes
  import opened Listings
  import opened Multisig
  import opened Committees
  import opened Subnets
  import opened SubnetChain
  import opened SubnetKill
  import opened SubnetCore
  import opened SubnetHistory
  import opened Rewards
  import opened RewardMinima
  import opened RewardRuns
  import opened RewardSnapshots

  /** The committees in office of a subnet, now and after each event. */
  function Offices(w: World, evs: seq<MonitorEvent>, id: SubnetId): seq<Committee>
    decreases |evs|
  {
    (if Bootstrapped(w, id) then [Office(w, id)] else [])
    + if evs == [] then [] else Offices(WorldAfter(w, evs[0]), evs[1..], id)
  }

  /** The committees in office after the first. */
  function LaterOffices(w: World, evs: seq<MonitorEvent>, id: SubnetId): seq<Committee> {
    if evs == [] then [] else Offices(WorldAfter(w, evs[0]), evs[1..], id)
  }

  /** No message to the subnet that is accepted rotates between equal addresses. */
  predicate CollisionFreeFor(w: World, evs: seq<MonitorEvent>, id: SubnetId)
    decreases |evs|
  {
    evs == [] ||
    (&& (evs[0].Message? && evs[0].id == id && id in w && Apply(w[id].subnet, evs[0].event).Ok? ==> !Collides(w[id].subnet, evs[0].event))
     && CollisionFreeFor(WorldAfter(w, evs[0]), evs[1..], id))
  }

  function RunWorld(w: World, evs: seq<MonitorEvent>): World
    decreases |evs|
  {
    if evs == [] then w else RunWorld(WorldAfter(w, evs[0]), evs[1..])
  }

  lemma {:induction false} WorldOfRun(cfg: RewardConfig, m: Monitor, evs: seq<MonitorEvent>)
    requires ValidConfig(cfg)
    ensures RunMonitor(cfg, m, evs).world == RunWorld(m.world, evs)
    decreases |evs|
  {
    if evs != [] {
      WorldOfRun(cfg, Next(cfg, m, evs[0]), evs[1..]);
    }
  }

  // ---------------------------------------------------------------------
  // One event

  /** A bootstrapped subnet stays one, and a killed one stays killed. */
  lemma KilledStays(w: World, e: MonitorEvent, id: SubnetId)
    requires Bootstrapped(w, id)
    ensures Bootstrapped(WorldAfter(w, e), id)
    ensures IsKilled(w, id) ==> IsKilled(WorldAfter(w, e), id)
  {
    if e.Message? && e.id == id {
      KillMovesForward(w[id].subnet, e.event);
    }
  }

  lemma {:induction false} KilledForever(w: World, evs: seq<MonitorEvent>, id: SubnetId)
    requires IsKilled(w, id)
    ensures IsKilled(RunWorld(w, evs), id)
    decreases |evs|
  {
    if evs != [] {
      KilledStays(w, evs[0], id);
      KilledForever(WorldAfter(w, evs[0]), evs[1..], id);
    }
  }

  /** Only a checkpoint changes the committee in office. */
  lemma OthersKeepOffice(s: Subnet, ev: Event)
    requires s.state.Some? && !AcceptsCheckpoint(s, ev)
    ensures Step(s, ev).state.Some?
    ensures Step(s, ev).state.value.committee == s.state.value.committee
    ensures Step(s, ev).state.value.committeeNumber == s.state.value.committeeNumber
  {
    if Apply(s, ev).Ok? {
      if ev.msg.BatchMsg? {
        assert Step(s, ev).state == s.state;
      } else {
        RecordsUntouched(s, ev);
      }
    }
  }

  /** A checkpoint that does not collide puts into office what it stores under its next number. */
  lemma CheckpointOffices(s: Subnet, s': Subnet, n: nat, at: Place)
    requires ApplyCheckpoint(s, n, false, at) == Ok(s') && !CollidingTarget(s, n)
    ensures s.state.Some? && s'.state.Some? && LastRecord(s') == Some(Recorded(s.state.value, n, false, at))
    ensures !Rotates(s.state.value, n) ==>
      s'.state.value.committee == s.state.value.committee && s'.state.value.committeeNumber == s.state.value.committeeNumber
    ensures Rotates(s.state.value, n) ==>
      && s'.state.value.committeeNumber == s.state.value.committeeNumber + 1
      && s.state.value.committeeNumber + 1 in s'.committees
      && s'.committees[s.state.value.committeeNumber + 1] == s'.state.value.committee
  {
  }

  /** The office after an event is the one before, or the one that the tracker counts. */
  ghost predicate OfficeMoves(w: World, e: MonitorEvent, id: SubnetId) {
    var w' := WorldAfter(w, e);
    && Bootstrapped(w, id) && Bootstrapped(w', id)
    && var r := Counts(w, e, id, OfficeNumber(w, id));
       if r.None? then Office(w', id) == Office(w, id) && OfficeNumber(w', id) == OfficeNumber(w, id)
       else OfficeNumber(w', id) == r.value.nextCommittee
            && Step(w[id].subnet, e.event).committees[r.value.nextCommittee] == Office(w', id)
  }

  lemma CheckpointMoves(w: World, id: SubnetId, ev: Event)
    requires Bootstrapped(w, id) && AcceptsCheckpoint(w[id].subnet, ev) && !Collides(w[id].subnet, ev) && !ev.msg.isKill
    ensures OfficeMoves(w, Message(id, ev), id)
  {
    CheckpointOffices(w[id].subnet, Step(w[id].subnet, ev), ev.msg.nextConfiguration, ev.at);
  }

  lemma KillKills(s: Subnet, s': Subnet, n: nat, at: Place)
    requires ApplyCheckpoint(s, n, true, at) == Ok(s')
    ensures s'.state.Some? && s'.state.value.killed == Killed(at.height)
  {
  }

  lemma EventMoves(w: World, e: MonitorEvent, id: SubnetId)
    requires Bootstrapped(w, id) && !IsKilled(WorldAfter(w, e), id)
    requires e.Message? && e.id == id && Apply(w[id].subnet, e.event).Ok? ==> !Collides(w[id].subnet, e.event)
    ensures OfficeMoves(w, e, id)
  {
    if e.Message? && e.id == id {
      var s, ev := w[id].subnet, e.event;
      if AcceptsCheckpoint(s, ev) {
        if ev.msg.isKill {
          KillKills(s, Step(s, ev), ev.msg.nextConfiguration, ev.at);
        }
        CheckpointMoves(w, id, ev);
      } else {
        OthersKeepOffice(s, ev);
      }
    }
  }

  // ---------------------------------------------------------------------
  // Runs

  lemma MinOverGrows(a: seq<Committee>, b: seq<Committee>, c: Committee, k: Key)
    requires a != [] && b != [] && MinOver(a, k) == MinOver(b, k)
    ensures MinOver(a + [c], k) == MinOver(b + [c], k)
  {
    assert (a + [c])[..|a|] == a && (b + [c])[..|b|] == b;
  }

  /** What one event adds to either list leaves their minima equal. */
  lemma OneMoves(w: World, evs: seq<MonitorEvent>, id: SubnetId, k: Key, a: seq<Committee>, b: seq<Committee>)
    returns (a': seq<Committee>, b': seq<Committee>)
    requires evs != [] && OfficeMoves(w, evs[0], id)
    requires a != [] && b != [] && b[|b| - 1] == Office(w, id) && MinOver(a, k) == MinOver(b, k)
    ensures a' != [] && b' != [] && b'[|b'| - 1] == Office(WorldAfter(w, evs[0]), id) && MinOver(a', k) == MinOver(b', k)
    ensures a + Counted(w, evs, id, OfficeNumber(w, id))
            == a' + Counted(WorldAfter(w, evs[0]), evs[1..], id, OfficeNumber(WorldAfter(w, evs[0]), id))
    ensures b + LaterOffices(w, evs, id) == b' + LaterOffices(WorldAfter(w, evs[0]), evs[1..], id)
  {
    var w' := WorldAfter(w, evs[0]);
    var recent;
    recent, a' := CountedUnfold(w, evs, id, OfficeNumber(w, id), a);
    b' := b + [Office(w', id)];
    LaterUnfold(w, evs, id, b, b');
    if Counts(w, evs[0], id, OfficeNumber(w, id)).None? {
      MinOverRepeat(b, Office(w, id), k);
    } else {
      MinOverGrows(a, b, Office(w', id), k);
    }
  }

  lemma LaterUnfold(w: World, evs: seq<MonitorEvent>, id: SubnetId, b: seq<Committee>, b': seq<Committee>)
    requires evs != [] && Bootstrapped(WorldAfter(w, evs[0]), id) && b' == b + [Office(WorldAfter(w, evs[0]), id)]
    ensures b + LaterOffices(w, evs, id) == b' + LaterOffices(WorldAfter(w, evs[0]), evs[1..], id)
  {
    var w' := WorldAfter(w, evs[0]);
    var rest := LaterOffices(w', evs[1..], id);
    OfficesSplit(w', evs[1..], id);
    AppendFirst(b, Office(w', id), rest);
  }

  lemma OfficesSplit(w: World, evs: seq<MonitorEvent>, id: SubnetId)
    requires Bootstrapped(w, id)
    ensures Offices(w, evs, id) == [Office(w, id)] + LaterOffices(w, evs, id)
  {
  }

  /** Over a run without collisions, and without a kill, the two lists keep the same minima. */
  lemma {:induction false} CountedIsOffices(w: World, evs: seq<MonitorEvent>, id: SubnetId, k: Key, a: seq<Committee>, b: seq<Committee>)
    requires Bootstrapped(w, id) && CollisionFreeFor(w, evs, id) && !IsKilled(RunWorld(w, evs), id)
    requires a != [] && b != [] && b[|b| - 1] == Office(w, id) && MinOver(a, k) == MinOver(b, k)
    ensures MinOver(a + Counted(w, evs, id, OfficeNumber(w, id)), k) == MinOver(b + LaterOffices(w, evs, id), k)
    decreases |evs|
  {
    if evs == [] {
      assert a + [] == a && b + [] == b;
    } else {
      var w' := WorldAfter(w, evs[0]);
      KilledStays(w, evs[0], id);
      if IsKilled(w', id) {
        KilledForever(w', evs[1..], id);
      }
      EventMoves(w, evs[0], id);
      var a', b' := OneMoves(w, evs, id, k, a, b);
      CountedIsOffices(w', evs[1..], id, k, a', b');
    }
  }

  /** So the minima over what is counted from the opening on are those over all committees in office. */
  lemma CountedMinima(w: World, evs: seq<MonitorEvent>, id: SubnetId, k: Key)
    requires Bootstrapped(w, id) && CollisionFreeFor(w, evs, id) && !IsKilled(RunWorld(w, evs), id)
    ensures Offices(w, evs, id) != []
    ensures MinOver([Office(w, id)] + Counted(w, evs, id, OfficeNumber(w, id)), k) == MinOver(Offices(w, evs, id), k)
  {
    CountedIsOffices(w, evs, id, k, [Office(w, id)], [Office(w, id)]);
    OfficesSplit(w, evs, id);
  }
}

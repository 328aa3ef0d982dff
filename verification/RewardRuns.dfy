/**
 A monitor handles the messages of all subnets in block order, with the reward hooks
 in between. Over every snapshot, the lazily kept amounts come out as the minima over
 all committees that were in office.
 */
module RewardRuns {
  import opened Outcomes
  import opened Multisig
  import opened Committees
  import opened Subnets
  import opened SubnetKill
  import opened SubnetCore
  import opened Rewards

  datatype Monitor = Monitor(world: World, tracker: Tracker)

  datatype MonitorEvent =
    | Create(id: SubnetId, minStake: nat, minValidators: nat, whitelist: set<Key>, height: nat)
    | Message(id: SubnetId, event: Event)
    | BlockEnd(height: nat, rows: seq<SubnetId>)

  function HeightOf(e: MonitorEvent): nat {
    match e
    case Create(_, _, _, _, h) => h
    case Message(_, ev) => ev.at.height
    case BlockEnd(h, _) => h
  }

  /** The record of the checkpoint that was just accepted. */
  function LastRecord(s: Subnet): Option<Checkpoint> {
    if s.state.Some? && s.state.value.lastCheckpoint.Some? && s.state.value.lastCheckpoint.value in s.checkpoints
    then Some(s.checkpoints[s.state.value.lastCheckpoint.value]) else None
  }

  function WorldAfter(w: World, e: MonitorEvent): World {
    match e
    case Create(id, minStake, minValidators, whitelist, h) =>
      if id in w then w else w[id := Tracked(h, Created(id, minStake, minValidators, whitelist))]
    case Message(id, ev) => if id in w then w[id := w[id].(subnet := Step(w[id].subnet, ev))] else w
    case BlockEnd(_, _) => w
  }

  /** After an accepted checkpoint its hook runs, on the rows as the checkpoint left them. */
  function MessageHook(cfg: RewardConfig, w: World, t: Tracker, id: SubnetId, ev: Event): Tracker
    requires ValidConfig(cfg)
  {
    if id in w && AcceptsCheckpoint(w[id].subnet, ev) then
      var w' := WorldAfter(w, Message(id, ev));
      var record := LastRecord(w'[id].subnet);
      if record.Some? then AfterCheckpoint(cfg, w', t, ev.at.height, id, record.value).tracker else t
    else t
  }

  ghost function Next(cfg: RewardConfig, m: Monitor, e: MonitorEvent): Monitor
    requires ValidConfig(cfg)
  {
    var t' :=
      match e
      case Create(_, _, _, _, _) => m.tracker
      case Message(id, ev) => MessageHook(cfg, m.world, m.tracker, id, ev)
      case BlockEnd(h, rows) => AfterBlock(cfg, m.world, m.tracker, h, rows).tracker;
    Monitor(WorldAfter(m.world, e), t')
  }

  ghost function RunMonitor(cfg: RewardConfig, m: Monitor, evs: seq<MonitorEvent>): Monitor
    requires ValidConfig(cfg)
    decreases |evs|
  {
    if evs == [] then m else RunMonitor(cfg, Next(cfg, m, evs[0]), evs[1..])
  }

  // ---------------------------------------------------------------------
  // The subnets during a run

  /** Nothing was bootstrapped or killed in the future. */
  ghost predicate HeightsOk(s: Subnet, now: nat) {
    s.state.Some? ==>
      && s.genesis.height.Some? && s.genesis.height.value <= now
      && (s.state.value.killed.Killed? ==> s.state.value.killed.parentHeight <= now)
  }

  ghost predicate TrackedOk(t: Tracked, now: nat) {
    t.created <= now && Core(t.subnet, now) && HeightsOk(t.subnet, now)
  }

  ghost predicate WorldOk(w: World, now: nat) {
    forall id :: id in w ==> TrackedOk(w[id], now)
  }

  /** An event that comes later. */
  ghost predicate GoodEvent(w: World, e: MonitorEvent, now: nat) {
    && now <= HeightOf(e)
    && (e.Message? && e.id in w ==> WellListed(w[e.id].subnet, e.event))
  }

  lemma BootstrapHeights(s: Subnet, k: Key, c: nat, at: Place)
    requires s.state.None? && ApplyJoin(s, k, c, at).Ok?
    ensures HeightsOk(ApplyJoin(s, k, c, at).value, at.height)
  {
  }

  lemma KilledAt(s: Subnet, ev: Event)
    requires s.state.Some?
    ensures Step(s, ev).state.Some?
    ensures Step(s, ev).state.value.killed.Killed? ==>
      || Step(s, ev).state.value.killed == s.state.value.killed
      || (AcceptsCheckpoint(s, ev) && Step(s, ev).state.value.killed == Killed(ev.at.height))
  {
    StepFields(s, ev);
  }

  lemma StepHeights(s: Subnet, ev: Event, now: nat)
    requires HeightsOk(s, now) && now <= ev.at.height
    ensures HeightsOk(Step(s, ev), ev.at.height)
  {
    if s.state.Some? {
      GenesisSettled(s, ev);
      KilledAt(s, ev);
    } else if Apply(s, ev).Ok? && ev.msg.JoinMsg? {
      BootstrapHeights(s, ev.msg.key, ev.msg.collateral, ev.at);
    }
  }

  lemma TrackedStep(t: Tracked, ev: Event, now: nat)
    requires TrackedOk(t, now) && now <= ev.at.height && WellListed(t.subnet, ev)
    ensures TrackedOk(t.(subnet := Step(t.subnet, ev)), ev.at.height)
  {
    StepKeepsCore(t.subnet, ev, now);
    StepHeights(t.subnet, ev, now);
  }

  lemma TrackedLater(t: Tracked, now: nat, height: nat)
    requires TrackedOk(t, now) && now <= height
    ensures TrackedOk(t, height)
  {
    CoreLater(t.subnet, now, height);
  }

  lemma TrackedNew(id: SubnetId, minStake: nat, minValidators: nat, whitelist: set<Key>, height: nat)
    ensures TrackedOk(Tracked(height, Created(id, minStake, minValidators, whitelist)), height)
  {
    CreatedCore(id, minStake, minValidators, whitelist);
    CoreLater(Created(id, minStake, minValidators, whitelist), 0, height);
  }

  lemma WorldLater(w: World, now: nat, height: nat)
    requires WorldOk(w, now) && now <= height
    ensures WorldOk(w, height)
  {
    forall id | id in w
      ensures TrackedOk(w[id], height)
    {
      TrackedLater(w[id], now, height);
    }
  }

  /** Replacing or adding one subnet that is in order. */
  lemma WorldWith(w: World, id: SubnetId, t: Tracked, now: nat)
    requires WorldOk(w, now) && TrackedOk(t, now)
    ensures WorldOk(w[id := t], now)
  {
  }

  lemma MessageWorld(w: World, id: SubnetId, ev: Event, now: nat)
    requires WorldOk(w, now) && GoodEvent(w, Message(id, ev), now)
    ensures WorldOk(WorldAfter(w, Message(id, ev)), ev.at.height)
  {
    WorldLater(w, now, ev.at.height);
    if id in w {
      TrackedStep(w[id], ev, now);
      WorldWith(w, id, w[id].(subnet := Step(w[id].subnet, ev)), ev.at.height);
    }
  }

  lemma CreateWorld(w: World, e: MonitorEvent, now: nat)
    requires e.Create? && WorldOk(w, now) && now <= e.height
    ensures WorldOk(WorldAfter(w, e), e.height)
  {
    WorldLater(w, now, e.height);
    if e.id !in w {
      TrackedNew(e.id, e.minStake, e.minValidators, e.whitelist, e.height);
      WorldWith(w, e.id, Tracked(e.height, Created(e.id, e.minStake, e.minValidators, e.whitelist)), e.height);
    }
  }

  lemma NextWorld(w: World, e: MonitorEvent, now: nat)
    requires WorldOk(w, now) && GoodEvent(w, e, now)
    ensures WorldOk(WorldAfter(w, e), HeightOf(e))
  {
    match e
    case Create(_, _, _, _, _) => CreateWorld(w, e, now);
    case Message(id, ev) => MessageWorld(w, id, ev, now);
    case BlockEnd(h, _) => WorldLater(w, now, h);
  }

  // ---------------------------------------------------------------------
  // Active subnets of the past

  predicate KilledBy(s: Subnet, height: nat) {
    s.state.Some? && s.state.value.killed.Killed? && s.state.value.killed.parentHeight <= height
  }

  ghost predicate AllAfter(evs: seq<Event>, height: nat) {
    forall i :: 0 <= i < |evs| ==> evs[i].at.height > height
  }

  lemma {:induction false} GenesisKept(s: Subnet, evs: seq<Event>)
    requires s.state.Some?
    ensures Run(s, evs).state.Some? && Run(s, evs).genesis == s.genesis
    decreases |evs|
  {
    if evs != [] {
      GenesisSettled(s, evs[0]);
      StepFields(s, evs[0]);
      GenesisKept(Step(s, evs[0]), evs[1..]);
    }
  }

  lemma BootstrappedNow(s: Subnet, ev: Event)
    requires s.state.None? && Step(s, ev).state.Some?
    ensures Step(s, ev).genesis.height == Some(ev.at.height)
  {
  }

  /** A subnet that is bootstrapped later has a later genesis. */
  lemma {:induction false} GenesisLater(s: Subnet, evs: seq<Event>, height: nat)
    requires s.state.None? && AllAfter(evs, height)
    ensures var s' := Run(s, evs); s'.state.Some? ==> s'.genesis.height.Some? && s'.genesis.height.value > height
    decreases |evs|
  {
    if evs != [] {
      var next := Step(s, evs[0]);
      if next.state.Some? {
        BootstrappedNow(s, evs[0]);
        GenesisKept(next, evs[1..]);
      } else {
        GenesisLater(next, evs[1..], height);
      }
    }
  }

  /**
   The active subnets between two heights, asked for at any later time: those created and
   bootstrapped by the first height and not killed by the last.
   */
  lemma ActiveInPast(t: Tracked, evs: seq<Event>, from: nat, to: nat)
    requires from <= to && HeightsOk(t.subnet, from) && AllAfter(evs, from)
    ensures var t' := t.(subnet := Run(t.subnet, evs));
      Active(t', from, to) <==> t.created <= from && t.subnet.state.Some? && !KilledBy(t'.subnet, to)
  {
    if t.subnet.state.Some? {
      GenesisKept(t.subnet, evs);
    } else {
      GenesisLater(t.subnet, evs, from);
    }
  }
}

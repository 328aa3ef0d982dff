/**
 Why the rewards need committee numbers that chain. After a rotation between equal
 addresses the state keeps its committee number, so the next rotation names a number
 that the tracker has seen already, and the tracker skips it.
 */
module RewardLimits {
  import opened Outcomes
  import opened Committees
  import opened Subnets
  import opened SubnetChain
  import opened SubnetKill
  import opened SubnetHistory
  import opened SubnetLimits
  import opened Rewards
  import opened RewardMinima
  import opened RewardRuns
  import opened RewardSnapshots
  import opened RewardOffices
  import opened RewardResults

  const RICH: nat := 5_000_000_000
  const RICHER: nat := 5_500_000_000
  const POOR: nat := 1_000_000_000

  /** Snapshot 0 is blocks 10 to 19. */
  const CONFIG: RewardConfig := RewardConfig(10, 10)

  /** A stake above the cap, a rotation to it, an unstake below the cap, and a rotation to that. */
  ghost predicate SkippedEvents(evs: seq<Event>) {
    && |evs| == 4
    && evs[0] == Event(Place(11, 11), StakeMsg(1, 500_000_000, true))
    && evs[1] == Event(Place(12, 12), CheckpointMsg(1, false))
    && evs[2] == Event(Place(13, 13), UnstakeMsg(1, 4_500_000_000))
    && evs[3] == Event(Place(14, 14), CheckpointMsg(2, false))
  }

  // ---------------------------------------------------------------------
  // The subnet

  /** The committee is that of 5,000,000,000 under number 1, and record 0 names a committee 2. */
  ghost predicate Collided(s: Subnet) {
    && s.state.Some? && s.state.value.committeeNumber == 1 && s.state.value.committee == Lone(Member(1, RICH), 0)
    && s.committees == map[1 := Lone(Member(1, RICH), 0), 2 := Lone(Member(1, RICHER), 1)]
    && LastRecord(s).Some? && LastRecord(s).value.signedCommittee == 1 && LastRecord(s).value.nextCommittee == 2 && !LastRecord(s).value.isKill
  }

  lemma StakeAndCollide(s: Subnet) returns (staked: Subnet, collided: Subnet)
    requires s == Single(RICH)
    ensures ApplyStake(s, 1, 500_000_000, true, Place(11, 11)) == Ok(staked)
    ensures staked == Waiting(s, Lone(Member(1, RICHER), 1), Deposit(500_000_000), 1, Place(11, 11))
    ensures ApplyCheckpoint(staked, 1, false, Place(12, 12)) == Ok(collided) && CollidingTarget(staked, 1)
    ensures Collided(collided) && collided.id == ID && collided.genesis == s.genesis && collided.log.Keys == {1}
    ensures collided.state.value.waiting == Some(Lone(Member(1, RICHER), 1)) && collided.state.value.killed == NotKilled
    ensures collided.state.value.lastCheckpoint == Some(0)
  {
    LoneStake(s, Member(1, RICH), 500_000_000, Place(11, 11));
    staked := Waiting(s, Lone(Member(1, RICHER), 1), Deposit(500_000_000), 1, Place(11, 11));
    collided := ApplyCheckpoint(staked, 1, false, Place(12, 12)).value;
    assert collided.log.Keys == {1};
  }

  /** The validator takes out all but 1,000,000,000. */
  lemma MostlyUnstaked(s: Subnet) returns (left: Subnet)
    requires s.id == ID && s.genesis.minStake == POWER_SCALE_FACTOR && s.state.Some? && s.log.Keys == {1}
    requires s.state.value.committee == Lone(Member(1, RICH), 0) && s.state.value.killed == NotKilled
    requires s.state.value.waiting == Some(Lone(Member(1, RICHER), 1))
    ensures ApplyUnstake(s, 1, 4_500_000_000, Place(13, 13)) == Ok(left)
    ensures left == Waiting(s, Lone(Member(1, POOR), 2), Withdraw(4_500_000_000), 1, Place(13, 13))
    ensures left.log.Keys == {1, 2}
  {
    LoneUnstake(s, Member(1, RICH), Member(1, RICHER), 4_500_000_000, Place(13, 13));
    assert |s.log.Keys| == 1;
    left := Waiting(s, Lone(Member(1, POOR), 2), Withdraw(4_500_000_000), 1, Place(13, 13));
  }

  lemma RotateAgain(left: Subnet) returns (last: Subnet)
    requires left.state.Some? && left.log.Keys == {1, 2} && left.log[2].committeeAfter == Lone(Member(1, POOR), 2)
    requires left.state.value.committee == Lone(Member(1, RICH), 0) && left.state.value.committeeNumber == 1
    requires left.state.value.lastCheckpoint == Some(0)
    ensures ApplyCheckpoint(left, 2, false, Place(14, 14)) == Ok(last)
    ensures last.state.Some? && last.state.value.committee == Lone(Member(1, POOR), 2)
    ensures LastRecord(last).Some? && LastRecord(last).value.signedCommittee == 1
    ensures LastRecord(last).value.nextCommittee == 2 && !LastRecord(last).value.isKill
  {
    last := ApplyCheckpoint(left, 2, false, Place(14, 14)).value;
  }

  /** The states of the run, and what of them matters to the tracker. */
  lemma SkippedStates(s: Subnet, evs: seq<Event>) returns (staked: Subnet, collided: Subnet, left: Subnet, last: Subnet)
    requires s == Single(RICH) && SkippedEvents(evs)
    ensures Step(s, evs[0]) == staked && Step(staked, evs[1]) == collided && Step(collided, evs[2]) == left && Step(left, evs[3]) == last
    ensures AcceptsCheckpoint(staked, evs[1]) && Collides(staked, evs[1]) && Collided(collided) && AcceptsCheckpoint(left, evs[3])
    ensures staked.state.Some? && staked.state.value.committee == Lone(Member(1, RICH), 0)
    ensures left.state.Some? && left.state.value.committee == Lone(Member(1, RICH), 0)
    ensures last.state.Some? && last.state.value.committee == Lone(Member(1, POOR), 2)
    ensures LastRecord(last).Some? && LastRecord(last).value.signedCommittee == 1
    ensures LastRecord(last).value.nextCommittee == 2 && !LastRecord(last).value.isKill
  {
    staked, collided := StakeAndCollide(s);
    left := MostlyUnstaked(collided);
    last := RotateAgain(left);
  }

  // ---------------------------------------------------------------------
  // The tracker

  function RowOf(t: Tracker): Option<RewardInfo> {
    if (0, ID) in t.candidates then Some(t.candidates[(0, ID)]) else None
  }

  lemma RichAmounts(vs: seq<Validator>)
    requires vs == [Member(1, RICH)]
    ensures PositiveCollaterals(vs) == [(1, RICH)]
  {
    assert vs[1..] == [];
  }

  lemma RichLowered(a: Amounts, vs: seq<Validator>)
    requires a == [(1, RICH)] && vs == [Member(1, RICHER)]
    ensures Lowered(a, vs) == a
  {
    assert vs[1..] == [] && PositiveCollateral(vs, 1) == Some(RICHER);
    assert a[1..] == [] && Lowered(a[1..], vs) == [];
  }

  /** The first rotation lowers nothing, but the row now names committee 2. */
  lemma FirstHook(w: World, t: Tracker, s: Subnet, height: nat)
    requires ID in w && w[ID].subnet == s && Collided(s) && RowOf(t) == Some(RewardInfo(1, None)) && height == 12
    ensures RowOf(AfterCheckpoint(CONFIG, w, t, height, ID, LastRecord(s).value).tracker) == Some(RewardInfo(2, Some([(1, RICH)])))
  {
    RichAmounts(s.committees[1].validators);
    RichLowered([(1, RICH)], s.committees[2].validators);
    HookAt(CONFIG, w, t, 0, height, ID, LastRecord(s).value);
  }

  /** So the second rotation, which names committee 2 as well, is skipped. */
  lemma SecondHook(w: World, t: Tracker, cp: Checkpoint, height: nat)
    requires RowOf(t).Some? && RowOf(t).value.mostRecent == 2 && height == 14
    requires cp.signedCommittee == 1 && cp.nextCommittee == 2 && !cp.isKill
    ensures AfterCheckpoint(CONFIG, w, t, height, ID, cp).tracker == t
  {
    SnapshotsTile(CONFIG, height, 0);
  }

  /** A message to the subnet, as far as the subnet and its row are concerned. */
  lemma Told(m: Monitor, s: Subnet, ev: Event, s': Subnet)
    requires ID in m.world && m.world[ID].subnet == s && Step(s, ev) == s'
    ensures var m' := Next(CONFIG, m, Message(ID, ev));
      && m'.world == m.world[ID := m.world[ID].(subnet := s')]
      && (!AcceptsCheckpoint(s, ev) ==> m'.tracker == m.tracker)
      && (AcceptsCheckpoint(s, ev) && LastRecord(s').Some? ==>
            m'.tracker == AfterCheckpoint(CONFIG, m'.world, m.tracker, ev.at.height, ID, LastRecord(s').value).tracker)
  {
  }

  /** The monitor after each of the four messages; the row ends with the richer amount. */
  lemma SkippedRow(m: Monitor, evs: seq<Event>, staked: Subnet, collided: Subnet, left: Subnet, last: Subnet)
    returns (m1: Monitor, m2: Monitor, m3: Monitor, m4: Monitor)
    requires ID in m.world && RowOf(m.tracker) == Some(RewardInfo(1, None)) && SkippedEvents(evs)
    requires Step(m.world[ID].subnet, evs[0]) == staked && Step(staked, evs[1]) == collided
    requires Step(collided, evs[2]) == left && Step(left, evs[3]) == last
    requires AcceptsCheckpoint(staked, evs[1]) && Collided(collided) && AcceptsCheckpoint(left, evs[3])
    requires LastRecord(last).Some? && LastRecord(last).value.signedCommittee == 1
    requires LastRecord(last).value.nextCommittee == 2 && !LastRecord(last).value.isKill
    ensures m1 == Next(CONFIG, m, Message(ID, evs[0])) && m2 == Next(CONFIG, m1, Message(ID, evs[1]))
    ensures m3 == Next(CONFIG, m2, Message(ID, evs[2])) && m4 == Next(CONFIG, m3, Message(ID, evs[3]))
    ensures ID in m1.world && m1.world[ID].subnet == staked && ID in m2.world && m2.world[ID].subnet == collided
    ensures ID in m3.world && m3.world[ID].subnet == left && ID in m4.world && m4.world[ID].subnet == last
    ensures RowOf(m4.tracker) == Some(RewardInfo(2, Some([(1, RICH)])))
  {
    Told(m, m.world[ID].subnet, evs[0], staked);
    m1 := Next(CONFIG, m, Message(ID, evs[0]));
    Told(m1, staked, evs[1], collided);
    m2 := Next(CONFIG, m1, Message(ID, evs[1]));
    FirstHook(m2.world, m1.tracker, collided, evs[1].at.height);
    Told(m2, collided, evs[2], left);
    m3 := Next(CONFIG, m2, Message(ID, evs[2]));
    Told(m3, left, evs[3], last);
    m4 := Next(CONFIG, m3, Message(ID, evs[3]));
    SecondHook(m4.world, m3.tracker, LastRecord(last).value, evs[3].at.height);
  }

  // ---------------------------------------------------------------------
  // What is paid, and what should be

  ghost predicate Messages(wevs: seq<MonitorEvent>, evs: seq<Event>) {
    |wevs| == |evs| && forall i :: 0 <= i < |evs| ==> wevs[i] == Message(ID, evs[i])
  }

  lemma FourMessages(m: Monitor, wevs: seq<MonitorEvent>, evs: seq<Event>, m1: Monitor, m2: Monitor, m3: Monitor, m4: Monitor)
    requires |evs| == 4 && Messages(wevs, evs)
    requires m1 == Next(CONFIG, m, Message(ID, evs[0])) && m2 == Next(CONFIG, m1, Message(ID, evs[1]))
    requires m3 == Next(CONFIG, m2, Message(ID, evs[2])) && m4 == Next(CONFIG, m3, Message(ID, evs[3]))
    ensures RunMonitor(CONFIG, m, wevs) == m4
  {
    var a, b, c := wevs[1..], wevs[2..], wevs[3..];
    assert a[1..] == b && b[1..] == c && c[1..] == [];
    assert wevs[0] == Message(ID, evs[0]) && a[0] == Message(ID, evs[1]) && b[0] == Message(ID, evs[2]) && c[0] == Message(ID, evs[3]);
    assert RunMonitor(CONFIG, m3, c) == RunMonitor(CONFIG, m4, []) == m4;
    assert RunMonitor(CONFIG, m2, b) == RunMonitor(CONFIG, m3, c);
    assert RunMonitor(CONFIG, m1, a) == RunMonitor(CONFIG, m2, b);
  }

  lemma OneOffice(w: World, wevs: seq<MonitorEvent>, w': World, rest: seq<MonitorEvent>, id: SubnetId)
    requires wevs != [] && WorldAfter(w, wevs[0]) == w' && rest == wevs[1..] && Bootstrapped(w, id)
    ensures Offices(w, wevs, id) == [Office(w, id)] + Offices(w', rest, id)
  {
  }

  lemma FourOffices(w: World, wevs: seq<MonitorEvent>, w1: World, w2: World, w3: World, w4: World, id: SubnetId)
    requires |wevs| == 4 && WorldAfter(w, wevs[0]) == w1 && WorldAfter(w1, wevs[1]) == w2
    requires WorldAfter(w2, wevs[2]) == w3 && WorldAfter(w3, wevs[3]) == w4
    requires Bootstrapped(w, id) && Bootstrapped(w1, id) && Bootstrapped(w2, id) && Bootstrapped(w3, id) && Bootstrapped(w4, id)
    ensures Offices(w, wevs, id) == [Office(w, id), Office(w1, id), Office(w2, id), Office(w3, id), Office(w4, id)]
  {
    var a, b, c := wevs[1..], wevs[2..], wevs[3..];
    assert a[1..] == b && b[1..] == c && c[1..] == [];
    LastOffice(w4, id);
    OneOffice(w3, c, w4, [], id);
    assert Offices(w3, c, id) == [Office(w3, id), Office(w4, id)];
    OneOffice(w2, b, w3, c, id);
    assert Offices(w2, b, id) == [Office(w2, id), Office(w3, id), Office(w4, id)];
    OneOffice(w1, a, w2, b, id);
    OneOffice(w, wevs, w1, a, id);
  }

  lemma LastOffice(w: World, id: SubnetId)
    requires Bootstrapped(w, id)
    ensures Offices(w, [], id) == [Office(w, id)]
  {
  }

  lemma LoneCollateral(c: Committee, amount: nat, conf: nat)
    requires amount >= POWER_SCALE_FACTOR && c == Lone(Member(1, amount), conf)
    ensures PositiveCollateral(c.validators, 1) == Some(amount)
  {
    assert c.validators[1..] == [];
  }

  /** Four times the rich committee and then the poor one: the least is the poor one's. */
  lemma PoorestOffice(cs: seq<Committee>)
    requires |cs| == 5 && cs[4] == Lone(Member(1, POOR), 2)
    requires forall i :: 0 <= i < 4 ==> cs[i] == Lone(Member(1, RICH), 0)
    ensures LeastOver(cs, 1) == Some(POOR)
  {
    LoneCollateral(cs[4], POOR, 2);
    forall i | 0 <= i < 4
      ensures PositiveCollateral(cs[i].validators, 1) == Some(RICH)
    {
      LoneCollateral(cs[i], RICH, 0);
    }
    MinOverBounds(cs, 1);
    LeastIsMinOver(cs, 1);
  }

  lemma FinishedRich(w: World, t: Tracker, rows: seq<SubnetId>)
    requires RowOf(t) == Some(RewardInfo(2, Some([(1, RICH)]))) && rows == [ID]
    ensures var h := Finished(w, t, 0, rows);
      !h.failed && 0 in h.tracker.results && h.tracker.results[0].rewards == map[1 := RICH]
  {
    var a := [(1, RICH)];
    assert rows[1..] == [] && a[1..] == [];
    assert RowAmounts(w, t, 0, ID) == Some(a);
    assert CreditAll(map[], a) == CreditAll(map[1 := RICH], []) == map[1 := RICH];
    assert Gather(w, t, 0, rows, map[]) == Gather(w, t, 0, [], map[1 := RICH]);
  }

  /** The world of the run: one subnet of one rich validator. */
  ghost predicate RichWorld(m: Monitor) {
    m.world == map[ID := Tracked(1, Single(RICH))] && m.tracker == Tracker(map[], map[])
  }

  /** It is reached from an empty database by creating the subnet and joining it. */
  lemma RichWorldReached(m: Monitor, evs: seq<MonitorEvent>)
    requires m == Fresh() && |evs| == 2
    requires evs[0] == Create(ID, POWER_SCALE_FACTOR, 1, {1}, 1) && evs[1] == Message(ID, JoinAt1(RICH))
    ensures RichWorld(RunMonitor(CONFIG, m, evs))
  {
    var one := Next(CONFIG, m, evs[0]);
    assert one.world == map[ID := Tracked(1, SubnetLimits.Start())];
    SingleBootstraps(RICH);
    var two := Next(CONFIG, one, evs[1]);
    Told(one, SubnetLimits.Start(), JoinAt1(RICH), Single(RICH));
    assert two.world == map[ID := Tracked(1, Single(RICH))];
    assert evs[1..][0] == evs[1] && evs[1..][1..] == [];
    assert RunMonitor(CONFIG, one, evs[1..]) == RunMonitor(CONFIG, two, []) == two;
  }

  lemma RichOpens(m: Monitor, first: seq<SubnetId>)
    requires RichWorld(m)
    ensures var m1 := Next(CONFIG, m, BlockEnd(Rewards.Start(CONFIG, 0), first));
      m1.world == m.world && RowOf(m1.tracker) == Some(RewardInfo(1, None))
  {
    SnapshotsTile(CONFIG, Rewards.Start(CONFIG, 0), 0);
    StartedAt(m.world, m.tracker, 0, Rewards.Start(CONFIG, 0), End(CONFIG, 0), ID);
  }

  /**
   The rewards of this snapshot pay the validator 5,000,000,000, although the committee
   in office at the end has it with 1,000,000,000: the second rotation was skipped.
   */
  lemma SkippedRotationOverpays(m: Monitor, evs: seq<Event>, wevs: seq<MonitorEvent>, first: seq<SubnetId>, rows: seq<SubnetId>)
    requires RichWorld(m) && SkippedEvents(evs) && Messages(wevs, evs) && rows == [ID]
    ensures var h := LastHook(CONFIG, m, 0, wevs, first, rows);
      !h.failed && 0 in h.tracker.results && h.tracker.results[0].rewards == map[1 := RICH]
    ensures LeastOver(InOffice(m.world, wevs)(ID), 1) == Some(POOR)
  {
    SkippedResult(m, evs, wevs, first, rows);
    SkippedEager(m, evs, wevs, first);
  }

  /** The monitors of the run, from the opening block on. */
  lemma SkippedMonitors(m: Monitor, evs: seq<Event>, first: seq<SubnetId>)
    returns (m0: Monitor, m1: Monitor, m2: Monitor, m3: Monitor, m4: Monitor)
    requires RichWorld(m) && SkippedEvents(evs)
    ensures m0 == Next(CONFIG, m, BlockEnd(Rewards.Start(CONFIG, 0), first)) && m0.world == m.world
    ensures m1 == Next(CONFIG, m0, Message(ID, evs[0])) && m2 == Next(CONFIG, m1, Message(ID, evs[1]))
    ensures m3 == Next(CONFIG, m2, Message(ID, evs[2])) && m4 == Next(CONFIG, m3, Message(ID, evs[3]))
    ensures RowOf(m4.tracker) == Some(RewardInfo(2, Some([(1, RICH)])))
    ensures RichOffice(m0.world) && RichOffice(m1.world) && RichOffice(m2.world) && RichOffice(m3.world)
    ensures Bootstrapped(m4.world, ID) && Office(m4.world, ID) == Lone(Member(1, POOR), 2)
  {
    RichOpens(m, first);
    m0 := Next(CONFIG, m, BlockEnd(Rewards.Start(CONFIG, 0), first));
    var staked, collided, left, last := SkippedStates(Single(RICH), evs);
    m1, m2, m3, m4 := SkippedRow(m0, evs, staked, collided, left, last);
  }

  ghost predicate RichOffice(w: World) {
    Bootstrapped(w, ID) && Office(w, ID) == Lone(Member(1, RICH), 0)
  }

  lemma SkippedResult(m: Monitor, evs: seq<Event>, wevs: seq<MonitorEvent>, first: seq<SubnetId>, rows: seq<SubnetId>)
    requires RichWorld(m) && SkippedEvents(evs) && Messages(wevs, evs) && rows == [ID]
    ensures var h := LastHook(CONFIG, m, 0, wevs, first, rows);
      !h.failed && 0 in h.tracker.results && h.tracker.results[0].rewards == map[1 := RICH]
  {
    var m0, m1, m2, m3, m4 := SkippedMonitors(m, evs, first);
    FourMessages(m0, wevs, evs, m1, m2, m3, m4);
    LastBlockFinishes(m4, rows);
    FinishedRich(m4.world, m4.tracker, rows);
  }

  lemma LastBlockFinishes(m: Monitor, rows: seq<SubnetId>)
    ensures AfterBlock(CONFIG, m.world, m.tracker, End(CONFIG, 0), rows) == Finished(m.world, m.tracker, 0, rows)
  {
    SnapshotsTile(CONFIG, End(CONFIG, 0), 0);
  }

  lemma SkippedEager(m: Monitor, evs: seq<Event>, wevs: seq<MonitorEvent>, first: seq<SubnetId>)
    requires RichWorld(m) && SkippedEvents(evs) && Messages(wevs, evs)
    ensures LeastOver(InOffice(m.world, wevs)(ID), 1) == Some(POOR)
  {
    var m0, m1, m2, m3, m4 := SkippedMonitors(m, evs, first);
    WorldOfNext(m0, wevs[0]);
    WorldOfNext(m1, wevs[1]);
    WorldOfNext(m2, wevs[2]);
    WorldOfNext(m3, wevs[3]);
    EagerIsPoor(m0.world, wevs, m1.world, m2.world, m3.world, m4.world);
  }

  lemma WorldOfNext(m: Monitor, e: MonitorEvent)
    ensures Next(CONFIG, m, e).world == WorldAfter(m.world, e)
  {
  }

  lemma EagerIsPoor(w: World, wevs: seq<MonitorEvent>, w1: World, w2: World, w3: World, w4: World)
    requires |wevs| == 4 && WorldAfter(w, wevs[0]) == w1 && WorldAfter(w1, wevs[1]) == w2
    requires WorldAfter(w2, wevs[2]) == w3 && WorldAfter(w3, wevs[3]) == w4
    requires RichOffice(w) && RichOffice(w1) && RichOffice(w2) && RichOffice(w3)
    requires Bootstrapped(w4, ID) && Office(w4, ID) == Lone(Member(1, POOR), 2)
    ensures LeastOver(InOffice(w, wevs)(ID), 1) == Some(POOR)
  {
    FourOffices(w, wevs, w1, w2, w3, w4, ID);
    PoorestOffice(Offices(w, wevs, ID));
  }
}

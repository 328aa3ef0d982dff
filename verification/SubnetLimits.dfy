/**
 Runs from creation, each within the source's own checks: one that is benign and
 rotates, one that rotates to the first half of a join, three in which a message that
 is not benign is accepted, and one whose last message finds no power left.
 */
module SubnetLimits {
  import opened Outcomes
  import opened Listings
  import opened Sorting
  import opened Multisig
  import opened Committees
  import opened Subnets
  import opened SubnetLog
  import opened SubnetChain
  import opened SubnetRotation
  import opened SubnetSteps
  import opened SubnetHistory
  import opened SubnetCore
  import opened SubnetRuns
  import opened SubnetPanics

  const ID: SubnetId := 7

  /** Power is capped, so that stakes above the cap share one address. */
  const CAP: nat := 429_496

  // ---------------------------------------------------------------------
  // Runs by their states

  /** `states` are those of the run, before the first event and after each. */
  ghost predicate Trace(states: seq<Subnet>, evs: seq<Event>) {
    && |states| == |evs| + 1
    && forall i :: 0 <= i < |evs| ==> Step(states[i], evs[i]) == states[i + 1]
  }

  lemma {:induction false} TraceRuns(states: seq<Subnet>, evs: seq<Event>)
    requires Trace(states, evs)
    ensures Run(states[0], evs) == states[|evs|]
    decreases |evs|
  {
    if evs != [] {
      forall i | 0 <= i < |evs[1..]|
        ensures Step(states[1..][i], evs[1..][i]) == states[1..][i + 1]
      {
        assert Step(states[i + 1], evs[i + 1]) == states[i + 2];
      }
      TraceRuns(states[1..], evs[1..]);
      assert Step(states[0], evs[0]) == states[1];
    }
  }

  /** The state before the last event of a trace. */
  lemma TraceBeforeLast(states: seq<Subnet>, evs: seq<Event>, n: nat)
    requires Trace(states, evs) && n <= |evs|
    ensures Run(states[0], evs[..n]) == states[n]
  {
    TraceRuns(states[..n + 1], evs[..n]);
  }

  lemma {:induction false} TraceTimely(states: seq<Subnet>, evs: seq<Event>)
    requires Trace(states, evs) && forall i :: 0 <= i < |evs| ==> Timely(states[i], evs[i]) && !Collides(states[i], evs[i])
    ensures TimelyRun(states[0], evs) && CollisionFree(states[0], evs)
    decreases |evs|
  {
    if evs != [] {
      forall i | 0 <= i < |evs[1..]|
        ensures Step(states[1..][i], evs[1..][i]) == states[1..][i + 1]
        ensures Timely(states[1..][i], evs[1..][i]) && !Collides(states[1..][i], evs[1..][i])
      {
        assert Step(states[i + 1], evs[i + 1]) == states[i + 2] && Timely(states[i + 1], evs[i + 1]) && !Collides(states[i + 1], evs[i + 1]);
      }
      TraceTimely(states[1..], evs[1..]);
      assert Step(states[0], evs[0]) == states[1] && Timely(states[0], evs[0]) && !Collides(states[0], evs[0]);
    }
  }

  lemma {:induction false} TraceBenign(states: seq<Subnet>, evs: seq<Event>)
    requires Trace(states, evs) && forall i :: 0 <= i < |evs| ==> Benign(states[i], evs[i])
    ensures BenignRun(states[0], evs)
    decreases |evs|
  {
    if evs != [] {
      forall i | 0 <= i < |evs[1..]|
        ensures Step(states[1..][i], evs[1..][i]) == states[1..][i + 1] && Benign(states[1..][i], evs[1..][i])
      {
        assert Step(states[i + 1], evs[i + 1]) == states[i + 2] && Benign(states[i + 1], evs[i + 1]);
      }
      TraceBenign(states[1..], evs[1..]);
      assert Step(states[0], evs[0]) == states[1] && Benign(states[0], evs[0]);
    }
  }

  /** Without votes, heights that rise are all it takes. */
  lemma {:induction false} Rising(s: Subnet, evs: seq<Event>, now: nat)
    requires forall i :: 0 <= i < |evs| ==> !evs[i].msg.KillMsg? && evs[i].at.height == now + 1 + i
    ensures OrderedRun(s, evs, now)
    decreases |evs|
  {
    if evs != [] {
      Rising(Step(s, evs[0]), evs[1..], now + 1);
    }
  }

  ghost predicate NoVotes(evs: seq<Event>) {
    forall i :: 0 <= i < |evs| ==> !evs[i].msg.KillMsg? && evs[i].at.height == 1 + i
  }

  /** The run of a trace, and the run up to its last event. */
  lemma RunOf(states: seq<Subnet>, evs: seq<Event>)
    requires Trace(states, evs) && evs != [] && NoVotes(evs)
    ensures Run(states[0], evs) == states[|evs|] && Run(states[0], evs[..|evs| - 1]) == states[|evs| - 1]
    ensures OrderedRun(states[0], evs, 0)
    ensures (forall i :: 0 <= i < |evs| ==> Benign(states[i], evs[i])) ==> BenignRun(states[0], evs)
  {
    TraceRuns(states, evs);
    TraceBeforeLast(states, evs, |evs| - 1);
    Rising(states[0], evs, 0);
    if forall i :: 0 <= i < |evs| ==> Benign(states[i], evs[i]) {
      TraceBenign(states, evs);
    }
  }

  lemma RunOfThree(a: Subnet, b: Subnet, c: Subnet, d: Subnet, evs: seq<Event>)
    requires |evs| == 3 && NoVotes(evs) && Step(a, evs[0]) == b && Step(b, evs[1]) == c && Step(c, evs[2]) == d
    ensures Run(a, evs) == d && Run(a, evs[..2]) == c && OrderedRun(a, evs, 0)
    ensures Benign(a, evs[0]) && Benign(b, evs[1]) && Benign(c, evs[2]) ==> BenignRun(a, evs)
  {
    RunOf([a, b, c, d], evs);
  }

  lemma RunOfFour(a: Subnet, b: Subnet, c: Subnet, d: Subnet, e: Subnet, evs: seq<Event>)
    requires |evs| == 4 && NoVotes(evs)
    requires Step(a, evs[0]) == b && Step(b, evs[1]) == c && Step(c, evs[2]) == d && Step(d, evs[3]) == e
    ensures Run(a, evs) == e && Run(a, evs[..3]) == d && OrderedRun(a, evs, 0)
    ensures Benign(a, evs[0]) && Benign(b, evs[1]) && Benign(c, evs[2]) && Benign(d, evs[3]) ==> BenignRun(a, evs)
  {
    RunOf([a, b, c, d, e], evs);
  }

  // ---------------------------------------------------------------------
  // A subnet of one validator

  /** The committee of a single validator. */
  function Lone(v: Validator, conf: nat): Committee {
    Committee(conf, Threshold(v.power), [v], MultisigAddress(ID, [WeightedKey(v.pubkey, v.power)], Threshold(v.power)))
  }

  lemma LoneBuilt(v: Validator, conf: nat)
    requires v.power >= 1
    ensures Build(ID, [v], conf) == Ok(Lone(v, conf))
  {
    assert [v][1..] == [];
    assert Total([v]) == v.power;
    var keys := WeightedKeys([v]);
    var w := WeightedKey(v.pubkey, v.power);
    assert keys == [w] && keys[1..] == [];
    assert Sort(keys[1..], KeyOrder()) == [];
    assert SortKeys(keys) == Insert(w, [], KeyOrder()) == [w];
    AddressNeedsPower(ID, [v]);
  }

  /** Right after creation. */
  function Start(): Subnet {
    Created(ID, POWER_SCALE_FACTOR, 1, {1})
  }

  function Member(k: Key, collateral: nat): Validator
    requires collateral >= POWER_SCALE_FACTOR
  {
    Validator(k, CollateralToPower(collateral, POWER_SCALE_FACTOR).value, collateral)
  }

  /** Bootstrapped by one validator. */
  function Single(collateral: nat): Subnet
    requires collateral >= POWER_SCALE_FACTOR
  {
    var c := Lone(Member(1, collateral), 0);
    Subnet(ID, Genesis(POWER_SCALE_FACTOR, 1, {1}, [Member(1, collateral)], Some(1)),
           Some(SubnetState(1, c, None, None, NotKilled, None)), map[], map[1 := c], map[], map[])
  }

  function JoinAt1(collateral: nat): Event {
    Event(Place(1, 1), JoinMsg(1, collateral))
  }

  lemma SingleBootstraps(collateral: nat)
    requires collateral >= POWER_SCALE_FACTOR
    ensures Step(Start(), JoinAt1(collateral)) == Single(collateral)
  {
    var v := Member(1, collateral);
    LoneBuilt(v, 0);
    assert [] + [v] == [v];
  }

  /** The lone validator raises its collateral by `amount`. */
  lemma LoneStake(s: Subnet, v: Validator, amount: nat, at: Place)
    requires s.state.Some? && s.state.value.killed == NotKilled && amount > 0 && s.genesis.minStake == POWER_SCALE_FACTOR
    requires s.id == ID && LatestCommittee(s.state.value).validators == [v] && v.pubkey == 1
    requires v.collateral + amount >= POWER_SCALE_FACTOR
    ensures var next := Lone(Member(1, v.collateral + amount), LatestCommittee(s.state.value).configurationNumber + 1);
      ApplyStake(s, 1, amount, true, at) == Ok(Waiting(s, next, Deposit(amount), 1, at))
  {
    var latest := LatestCommittee(s.state.value);
    var w := Member(1, v.collateral + amount);
    assert latest.validators[0 := w] == [w];
    LoneBuilt(w, latest.configurationNumber + 1);
  }

  /** The lone validator takes out `amount` and keeps at least a unit of power. */
  lemma LoneUnstake(s: Subnet, u: Validator, v: Validator, amount: nat, at: Place)
    requires s.state.Some? && s.state.value.killed == NotKilled && amount > 0 && s.genesis.minStake == POWER_SCALE_FACTOR
    requires s.id == ID && LatestCommittee(s.state.value).validators == [v] && v.pubkey == 1
    requires s.state.value.committee.validators == [u] && amount <= u.collateral && amount + POWER_SCALE_FACTOR <= v.collateral
    ensures var next := Lone(Member(1, v.collateral - amount), LatestCommittee(s.state.value).configurationNumber + 1);
      ApplyUnstake(s, 1, amount, at) == Ok(Waiting(s, next, Withdraw(amount), 1, at))
  {
    var latest, w := LatestCommittee(s.state.value), Member(1, v.collateral - amount);
    assert [u][1..] == [] && TotalCollateral([u]) == u.collateral;
    assert latest.validators[0 := w] == [w];
    LoneBuilt(w, latest.configurationNumber + 1);
  }

  // ---------------------------------------------------------------------
  // A benign run

  function StakeAt2(amount: nat): Event {
    Event(Place(2, 2), StakeMsg(1, amount, true))
  }

  ghost predicate OrdinaryEvents(evs: seq<Event>) {
    && |evs| == 3
    && evs[0] == JoinAt1(1_000_000)
    && evs[1] == StakeAt2(500_000)
    && evs[2] == Event(Place(3, 3), CheckpointMsg(1, false))
  }

  lemma OrdinaryNoVotes(evs: seq<Event>)
    requires OrdinaryEvents(evs)
    ensures NoVotes(evs)
  {
  }

  /** The waiting committee of a stake below the cap comes into office. */
  lemma OrdinaryRotation(staked: Subnet)
    requires staked == Waiting(Single(1_000_000), Lone(Member(1, 1_500_000), 1), Deposit(500_000), 1, Place(2, 2))
    ensures FaithfulCheckpoint(staked, 1)
    ensures var rotated := ApplyCheckpoint(staked, 1, false, Place(3, 3));
      && rotated.Ok? && rotated.value.state.Some?
      && rotated.value.state.value.committeeNumber == 2
      && rotated.value.state.value.committee == Lone(Member(1, 1_500_000), 1)
      && rotated.value.state.value.waiting == None
  {
  }

  /** The bootstrapped subnet and the one after a stake. */
  lemma Staked(created: Subnet, collateral: nat, amount: nat) returns (s: Subnet, staked: Subnet)
    requires created == Start() && collateral >= POWER_SCALE_FACTOR && amount > 0
    ensures s == Single(collateral) && Step(created, JoinAt1(collateral)) == s
    ensures Step(s, StakeAt2(amount)) == staked
    ensures staked == Waiting(s, Lone(Member(1, collateral + amount), 1), Deposit(amount), 1, Place(2, 2))
  {
    s := Single(collateral);
    SingleBootstraps(collateral);
    LoneStake(s, Member(1, collateral), amount, Place(2, 2));
    staked := Waiting(s, Lone(Member(1, collateral + amount), 1), Deposit(amount), 1, Place(2, 2));
  }

  lemma OrdinaryStates(created: Subnet, evs: seq<Event>) returns (s: Subnet, staked: Subnet, last: Subnet)
    requires created == Start() && OrdinaryEvents(evs)
    ensures Step(created, evs[0]) == s && Step(s, evs[1]) == staked && Step(staked, evs[2]) == last
    ensures Benign(staked, evs[2]) && last.state.Some? && last.state.value.committeeNumber == 2
    ensures last.state.value.committee == Lone(Member(1, 1_500_000), 1) && last.state.value.waiting == None
  {
    s, staked := Staked(created, 1_000_000, 500_000);
    OrdinaryRotation(staked);
    last := Step(staked, evs[2]);
  }

  /** Bootstrap, a stake below the cap, and a checkpoint that rotates to it: a benign run to committee 2. */
  lemma OrdinaryRun(created: Subnet, evs: seq<Event>) returns (after: Subnet)
    requires created == Start() && OrdinaryEvents(evs)
    ensures OrderedRun(created, evs, 0) && BenignRun(created, evs) && after == Run(created, evs)
    ensures after.state.Some? && after.state.value.committeeNumber == 2
    ensures after.state.value.committee == Lone(Member(1, 1_500_000), 1) && after.state.value.waiting == None
  {
    var s, staked;
    s, staked, after := OrdinaryStates(created, evs);
    OrdinaryNoVotes(evs);
    RunOfThree(created, s, staked, after, evs);
  }

  // ---------------------------------------------------------------------
  // Equal addresses

  ghost predicate CappedEvents(evs: seq<Event>) {
    && |evs| == 3
    && evs[0] == JoinAt1(5_000_000_000)
    && evs[1] == StakeAt2(500_000_000)
    && evs[2] == Event(Place(3, 3), CheckpointMsg(1, false))
  }

  lemma CappedNoVotes(evs: seq<Event>)
    requires CappedEvents(evs)
    ensures NoVotes(evs)
  {
  }

  lemma CappedRotation(staked: Subnet)
    requires staked == Waiting(Single(5_000_000_000), Lone(Member(1, 5_500_000_000), 1), Deposit(500_000_000), 1, Place(2, 2))
    ensures !FaithfulCheckpoint(staked, 1)
    ensures var rotated := ApplyCheckpoint(staked, 1, false, Place(3, 3));
      && rotated.Ok? && rotated.value.state.Some?
      && 0 in rotated.value.checkpoints && rotated.value.checkpoints[0].nextCommittee == 2
      && rotated.value.state.value.committeeNumber == 1
      && rotated.value.state.value.committee == Lone(Member(1, 5_000_000_000), 0)
      && 1 in rotated.value.log && rotated.value.log[1].confirmed == Some(3)
      && !ChainOk(rotated.value, 3)
  {
    assert staked.log[1].committeeAfter.address == staked.state.value.committee.address;
    CollidingRotation(staked, 1, false, Place(3, 3));
  }

  lemma CappedStates(created: Subnet, evs: seq<Event>) returns (s: Subnet, staked: Subnet, last: Subnet)
    requires created == Start() && CappedEvents(evs)
    ensures Step(created, evs[0]) == s && Step(s, evs[1]) == staked && Step(staked, evs[2]) == last
    ensures Apply(staked, evs[2]).Ok? && !Benign(staked, evs[2])
    ensures last.state.Some? && last.state.value.committeeNumber == 1 && last.state.value.committee == Lone(Member(1, 5_000_000_000), 0)
    ensures 0 in last.checkpoints && last.checkpoints[0].nextCommittee == 2
    ensures 1 in last.log && last.log[1].confirmed == Some(3) && !ChainOk(last, 3)
  {
    s, staked := Staked(created, 5_000_000_000, 500_000_000);
    CappedRotation(staked);
    last := Step(staked, evs[2]);
  }

  /**
   The validator already has the capped power when it stakes more. The checkpoint
   that rotates to the new committee records committee 2 as next, but the addresses
   are equal, so the state stays at committee 1 with the old collateral.
   */
  lemma CappedStakeBreaksChain(created: Subnet, evs: seq<Event>) returns (before: Subnet, after: Subnet)
    requires created == Start() && CappedEvents(evs)
    ensures OrderedRun(created, evs, 0) && before == Run(created, evs[..2]) && after == Run(created, evs)
    ensures Apply(before, evs[2]).Ok? && !Benign(before, evs[2])
    ensures after.state.Some? && after.state.value.committeeNumber == 1
    ensures after.state.value.committee == Lone(Member(1, 5_000_000_000), 0)
    ensures 0 in after.checkpoints && after.checkpoints[0].nextCommittee == 2
    ensures 1 in after.log && after.log[1].confirmed == Some(3) && !ChainOk(after, 3)
  {
    var s;
    s, before, after := CappedStates(created, evs);
    CappedNoVotes(evs);
    RunOfThree(created, s, before, after, evs);
  }

  ghost predicate DroppedEvents(evs: seq<Event>) {
    && |evs| == 4
    && evs[0] == JoinAt1(4_000_000_000)
    && evs[1] == StakeAt2(1_000_000_000)
    && evs[2] == Event(Place(3, 3), StakeMsg(1, 1_000_000_000, true))
    && evs[3] == Event(Place(4, 4), CheckpointMsg(1, false))
  }

  lemma DroppedNoVotes(evs: seq<Event>)
    requires DroppedEvents(evs)
    ensures NoVotes(evs)
  {
  }

  lemma DroppedRotation(second: Subnet)
    requires second.state.Some? && second.log.Keys == {1, 2} && second.state.value.committee == Lone(Member(1, 4_000_000_000), 0)
    requires second.log[1].committeeAfter == Lone(Validator(1, CAP, 5_000_000_000), 1)
    requires second.state.value.waiting == Some(Lone(Validator(1, CAP, 6_000_000_000), 2))
    ensures !FaithfulCheckpoint(second, 1)
    ensures var rotated := ApplyCheckpoint(second, 1, false, Place(4, 4));
      && rotated.Ok? && rotated.value.state.Some?
      && |rotated.value.log| == 2
      && LatestCommittee(rotated.value.state.value) == Lone(Validator(1, CAP, 5_000_000_000), 1)
      && !ReplayOk(rotated.value)
  {
    var rotated := ApplyCheckpoint(second, 1, false, Place(4, 4)).value;
    assert rotated.log.Keys == {1, 2};
    assert |rotated.log.Keys| == 2;
    assert !LatestOk(rotated.genesis.validators, rotated.log, LatestCommittee(rotated.state.value));
  }

  lemma StakedTwice(s: Subnet, first: Subnet) returns (second: Subnet)
    requires s == Single(4_000_000_000)
    requires first == Waiting(s, Lone(Member(1, 5_000_000_000), 1), Deposit(1_000_000_000), 1, Place(2, 2))
    ensures ApplyStake(first, 1, 1_000_000_000, true, Place(3, 3)) == Ok(second)
    ensures second.state.Some? && second.log.Keys == {1, 2} && second.state.value.committee == Lone(Member(1, 4_000_000_000), 0)
    ensures second.log[1].committeeAfter == Lone(Validator(1, CAP, 5_000_000_000), 1)
    ensures second.state.value.waiting == Some(Lone(Validator(1, CAP, 6_000_000_000), 2))
  {
    LoneStake(first, Member(1, 5_000_000_000), 1_000_000_000, Place(3, 3));
    second := Waiting(first, Lone(Member(1, 6_000_000_000), 2), Deposit(1_000_000_000), 1, Place(3, 3));
    assert first.log.Keys == {1} && |first.log.Keys| == 1;
  }

  ghost predicate TwiceStaked(s: Subnet) {
    && s.state.Some? && s.log.Keys == {1, 2} && s.state.value.committee == Lone(Member(1, 4_000_000_000), 0)
    && s.log[1].committeeAfter == Lone(Validator(1, CAP, 5_000_000_000), 1)
    && s.state.value.waiting == Some(Lone(Validator(1, CAP, 6_000_000_000), 2))
  }

  lemma DroppedFirst(created: Subnet, evs: seq<Event>) returns (s: Subnet, first: Subnet, second: Subnet)
    requires created == Start() && DroppedEvents(evs)
    ensures Step(created, evs[0]) == s && Step(s, evs[1]) == first && Step(first, evs[2]) == second
    ensures TwiceStaked(second)
  {
    s, first := Staked(created, 4_000_000_000, 1_000_000_000);
    second := StakedTwice(s, first);
  }

  lemma DroppedLast(second: Subnet, ev: Event) returns (last: Subnet)
    requires TwiceStaked(second) && ev == Event(Place(4, 4), CheckpointMsg(1, false))
    ensures Step(second, ev) == last && Apply(second, ev).Ok? && !Benign(second, ev)
    ensures last.state.Some? && |last.log| == 2 && LatestCommittee(last.state.value) == Lone(Validator(1, CAP, 5_000_000_000), 1)
    ensures !ReplayOk(last)
  {
    DroppedRotation(second);
    last := Step(second, ev);
  }

  /**
   Two stakes pass the cap. Rotating to the first drops the second, which has the
   same address: the latest committee is then older than the log, whose last
   change is in no committee.
   */
  lemma CappedStakeIsDropped(created: Subnet, evs: seq<Event>) returns (before: Subnet, after: Subnet)
    requires created == Start() && DroppedEvents(evs)
    ensures OrderedRun(created, evs, 0) && before == Run(created, evs[..3]) && after == Run(created, evs)
    ensures Apply(before, evs[3]).Ok? && !Benign(before, evs[3])
    ensures after.state.Some? && |after.log| == 2
    ensures LatestCommittee(after.state.value) == Lone(Validator(1, CAP, 5_000_000_000), 1)
    ensures !ReplayOk(after)
  {
    var s, first;
    s, first, before := DroppedFirst(created, evs);
    after := DroppedLast(before, evs[3]);
    DroppedNoVotes(evs);
    RunOfFour(created, s, first, before, after, evs);
  }

  // ---------------------------------------------------------------------
  // A dropped committee that comes back

  ghost predicate RecoveredEvents(evs: seq<Event>) {
    && |evs| == 7
    && evs[0] == JoinAt1(4_000_000_000)
    && evs[1] == StakeAt2(1_000_000_000)
    && evs[2] == Event(Place(3, 3), UnstakeMsg(1, 800_000_000))
    && evs[3] == Event(Place(4, 4), StakeMsg(1, 1_800_000_000, true))
    && evs[4] == Event(Place(5, 5), CheckpointMsg(1, false))
    && evs[5] == Event(Place(6, 6), CheckpointMsg(2, false))
    && evs[6] == Event(Place(7, 7), CheckpointMsg(3, false))
  }

  lemma RecoveredNoVotes(evs: seq<Event>)
    requires RecoveredEvents(evs)
    ensures NoVotes(evs)
  {
  }

  /** What a rotation to entry `n` does, as far as these runs care. */
  lemma RotateTo(s: Subnet, n: nat, at: Place) returns (s': Subnet)
    requires s.state.Some? && n in s.log && s.state.value.committee.configurationNumber < n
    requires s.log[n].committeeAfter.address != s.state.value.committee.address
    ensures ApplyCheckpoint(s, n, false, at) == Ok(s') && s'.state.Some? && s'.log.Keys == s.log.Keys
    ensures forall k :: k in s.log ==> s'.log[k].committeeAfter == s.log[k].committeeAfter
    ensures s'.state.value.committee == s.log[n].committeeAfter
    ensures !CollidingTarget(s, n)
    ensures s'.state.value.waiting.Some? ==> s'.state.value.waiting == s.state.value.waiting
    ensures s.state.value.waiting.Some? && s.state.value.waiting.value.address == s.log[n].committeeAfter.address ==> s'.state.value.waiting.None?
  {
    s' := ApplyCheckpoint(s, n, false, at).value;
  }

  /** Entries 1 to 3 lead from 5,000,000,000 over 4,200,000,000 to 6,000,000,000. */
  ghost predicate ThreeEntries(log: Log) {
    && log.Keys == {1, 2, 3}
    && log[1].committeeAfter == Lone(Validator(1, CAP, 5_000_000_000), 1)
    && log[2].committeeAfter == Lone(Validator(1, 420_000, 4_200_000_000), 2)
    && log[3].committeeAfter == Lone(Validator(1, CAP, 6_000_000_000), 3)
  }

  lemma SecondChange(s: Subnet, first: Subnet) returns (second: Subnet)
    requires s == Single(4_000_000_000)
    requires first == Waiting(s, Lone(Member(1, 5_000_000_000), 1), Deposit(1_000_000_000), 1, Place(2, 2))
    ensures ApplyUnstake(first, 1, 800_000_000, Place(3, 3)) == Ok(second)
    ensures !Behind(first) && CleanUnstake(first, 1, 800_000_000)
    ensures second.state == Some(s.state.value.(waiting := Some(Lone(Member(1, 4_200_000_000), 2))))
    ensures second.id == ID && second.genesis.minStake == POWER_SCALE_FACTOR && second.log.Keys == {1, 2}
    ensures second.log[1].committeeAfter == Lone(Validator(1, CAP, 5_000_000_000), 1)
    ensures second.log[2].committeeAfter == Lone(Validator(1, 420_000, 4_200_000_000), 2)
  {
    LoneUnstake(first, Member(1, 4_000_000_000), Member(1, 5_000_000_000), 800_000_000, Place(3, 3));
    assert first.log.Keys == {1} && |first.log.Keys| == 1;
    second := Waiting(first, Lone(Member(1, 4_200_000_000), 2), Withdraw(800_000_000), 1, Place(3, 3));
    assert first.log.Keys == {1} && Position([Member(1, 5_000_000_000)], 1) == Some(0);
  }

  lemma ThirdChange(second: Subnet) returns (third: Subnet)
    requires second.state == Some(Single(4_000_000_000).state.value.(waiting := Some(Lone(Member(1, 4_200_000_000), 2))))
    requires second.id == ID && second.genesis.minStake == POWER_SCALE_FACTOR && second.log.Keys == {1, 2}
    requires second.log[1].committeeAfter == Lone(Validator(1, CAP, 5_000_000_000), 1)
    requires second.log[2].committeeAfter == Lone(Validator(1, 420_000, 4_200_000_000), 2)
    ensures ApplyStake(second, 1, 1_800_000_000, true, Place(4, 4)) == Ok(third) && !Behind(second)
    ensures third.state.Some? && ThreeEntries(third.log) && third.state.value.committee == Lone(Member(1, 4_000_000_000), 0)
    ensures third.state.value.waiting == Some(Lone(Validator(1, CAP, 6_000_000_000), 3))
  {
    assert |second.log.Keys| == 2;
    LoneStake(second, Member(1, 4_200_000_000), 1_800_000_000, Place(4, 4));
    third := Waiting(second, Lone(Member(1, 6_000_000_000), 3), Deposit(1_800_000_000), 1, Place(4, 4));
  }

  /** Three rotations: the first drops the waiting committee, the last puts it in office. */
  lemma ThreeRotations(third: Subnet) returns (one: Subnet, two: Subnet, last: Subnet)
    requires third.state.Some? && ThreeEntries(third.log) && third.state.value.committee == Lone(Member(1, 4_000_000_000), 0)
    requires third.state.value.waiting == Some(Lone(Validator(1, CAP, 6_000_000_000), 3))
    ensures ApplyCheckpoint(third, 1, false, Place(5, 5)) == Ok(one) && ApplyCheckpoint(one, 2, false, Place(6, 6)) == Ok(two)
    ensures ApplyCheckpoint(two, 3, false, Place(7, 7)) == Ok(last)
    ensures !CollidingTarget(third, 1) && !CollidingTarget(one, 2) && !CollidingTarget(two, 3)
    ensures one.state.Some? && !ReplayOk(one) && last.state.Some? && |last.log| == 3 && 3 in last.log
    ensures LatestCommittee(last.state.value) == last.log[3].committeeAfter == Lone(Validator(1, CAP, 6_000_000_000), 3)
  {
    one := RotateTo(third, 1, Place(5, 5));
    assert |one.log.Keys| == 3;
    assert !LatestOk(one.genesis.validators, one.log, LatestCommittee(one.state.value));
    two := RotateTo(one, 2, Place(6, 6));
    last := RotateTo(two, 3, Place(7, 7));
    assert |last.log.Keys| == 3;
  }

  lemma RecoveredFirst(created: Subnet, evs: seq<Event>) returns (s: Subnet, first: Subnet, second: Subnet, third: Subnet)
    requires created == Start() && RecoveredEvents(evs)
    ensures Step(created, evs[0]) == s && Step(s, evs[1]) == first && Step(first, evs[2]) == second && Step(second, evs[3]) == third
    ensures Harmless(created, evs[0]) && Harmless(s, evs[1]) && Harmless(first, evs[2]) && Harmless(second, evs[3])
    ensures third.state.Some? && ThreeEntries(third.log) && third.state.value.committee == Lone(Member(1, 4_000_000_000), 0)
    ensures third.state.value.waiting == Some(Lone(Validator(1, CAP, 6_000_000_000), 3))
  {
    s, first := Staked(created, 4_000_000_000, 1_000_000_000);
    second := SecondChange(s, first);
    third := ThirdChange(second);
  }

  lemma RecoveredLast(third: Subnet, evs: seq<Event>) returns (one: Subnet, two: Subnet, last: Subnet)
    requires RecoveredEvents(evs)
    requires third.state.Some? && ThreeEntries(third.log) && third.state.value.committee == Lone(Member(1, 4_000_000_000), 0)
    requires third.state.value.waiting == Some(Lone(Validator(1, CAP, 6_000_000_000), 3))
    ensures Step(third, evs[4]) == one && Step(one, evs[5]) == two && Step(two, evs[6]) == last
    ensures Harmless(third, evs[4]) && Harmless(one, evs[5]) && Harmless(two, evs[6])
    ensures !ReplayOk(one) && last.state.Some? && |last.log| == 3 && 3 in last.log
    ensures LatestCommittee(last.state.value) == last.log[3].committeeAfter == Lone(Validator(1, CAP, 6_000_000_000), 3)
  {
    one, two, last := ThreeRotations(third);
  }

  predicate Harmless(s: Subnet, ev: Event) {
    Timely(s, ev) && !Collides(s, ev)
  }

  lemma RunOfSeven(a: Subnet, b: Subnet, c: Subnet, d: Subnet, e: Subnet, f: Subnet, g: Subnet, h: Subnet, evs: seq<Event>)
    requires |evs| == 7 && NoVotes(evs)
    requires Step(a, evs[0]) == b && Step(b, evs[1]) == c && Step(c, evs[2]) == d && Step(d, evs[3]) == e
    requires Step(e, evs[4]) == f && Step(f, evs[5]) == g && Step(g, evs[6]) == h
    requires Harmless(a, evs[0]) && Harmless(b, evs[1]) && Harmless(c, evs[2]) && Harmless(d, evs[3])
    requires Harmless(e, evs[4]) && Harmless(f, evs[5]) && Harmless(g, evs[6])
    ensures Run(a, evs) == h && Run(a, evs[..5]) == f && OrderedRun(a, evs, 0)
    ensures TimelyRun(a, evs) && CollisionFree(a, evs)
  {
    var states := [a, b, c, d, e, f, g, h];
    RunOf(states, evs);
    TraceTimely(states, evs);
    TraceBeforeLast(states, evs, 5);
  }

  /**
   Dropping is not for ever. The waiting committee of 6,000,000,000 is dropped by the
   rotation to entry 1, and a rotation to its own entry puts it in office after all: the
   latest committee is then again the one of the last entry, and the whole invariant holds.
   */
  lemma DroppedCommitteeReturns(created: Subnet, evs: seq<Event>) returns (middle: Subnet, after: Subnet)
    requires created == Start() && RecoveredEvents(evs)
    ensures OrderedRun(created, evs, 0) && middle == Run(created, evs[..5]) && after == Run(created, evs)
    ensures !ReplayOk(middle)
    ensures after.state.Some? && |after.log| == 3 && 3 in after.log
    ensures LatestCommittee(after.state.value) == after.log[3].committeeAfter == Lone(Validator(1, CAP, 6_000_000_000), 3)
    ensures Inv(after, 7)
  {
    var s, first, second, third := RecoveredFirst(created, evs);
    var two;
    middle, two, after := RecoveredLast(third, evs);
    RecoveredNoVotes(evs);
    RunOfSeven(created, s, first, second, third, middle, two, after, evs);
    ReachableSubnets(created, evs);
  }

  // ---------------------------------------------------------------------
  // The first half of a join

  ghost predicate JoinHalfEvents(evs: seq<Event>) {
    && |evs| == 4
    && evs[0] == JoinAt1(1_000_000)
    && evs[1] == Event(Place(2, 2), JoinMsg(2, 500_000))
    && evs[2] == Event(Place(3, 3), CheckpointMsg(1, false))
    && evs[3] == Event(Place(4, 4), CheckpointMsg(2, false))
  }

  lemma JoinHalfNoVotes(evs: seq<Event>)
    requires JoinHalfEvents(evs)
    ensures NoVotes(evs)
  {
  }

  /** Both validators, as the join leaves them. */
  function Pair(): Committee
    requires Build(ID, [Member(1, 1_000_000), Member(2, 500_000)], 2).Ok?
  {
    Build(ID, [Member(1, 1_000_000), Member(2, 500_000)], 2).value
  }

  lemma PairBuilt()
    ensures Build(ID, [Member(1, 1_000_000), Member(2, 500_000)], 2).Ok?
    ensures Pair().address != Lone(Member(1, 1_000_000), 0).address
  {
    var a, b := Member(1, 1_000_000), Member(2, 500_000);
    assert [a, b][1..] == [b];
    assert Total([b]) == 50;
    assert Total([a, b]) == 150;
    AddressNeedsPower(ID, [a, b]);
    SortKeysSameElements(WeightedKeys([a, b]));
    assert |Pair().address.keys| == 2;
  }

  lemma LaterJoin(s: Subnet)
    requires s == Single(1_000_000) && Build(ID, [Member(1, 1_000_000), Member(2, 500_000)], 2).Ok?
    ensures var joined := ApplyJoin(s, 2, 500_000, Place(2, 2));
      && joined.Ok? && joined.value.state == Some(s.state.value.(waiting := Some(Pair())))
      && joined.value.log == map[1 := StakeChange(Join, 2, 1, Pair(), 2, None), 2 := StakeChange(Deposit(500_000), 2, 2, Pair(), 2, None)]
  {
    assert [Member(1, 1_000_000)] + [Member(2, 500_000)] == [Member(1, 1_000_000), Member(2, 500_000)];
    assert [Member(1, 1_000_000)][1..] == [];
  }

  /** Rotating to entry 1 puts the joined committee in office; a second checkpoint finds nothing to rotate to. */
  lemma HalfRotation(joined: Subnet)
    requires Build(ID, [Member(1, 1_000_000), Member(2, 500_000)], 2).Ok?
    requires Pair().address != Lone(Member(1, 1_000_000), 0).address
    requires joined.state == Some(Single(1_000_000).state.value.(waiting := Some(Pair())))
    requires joined.log == map[1 := StakeChange(Join, 2, 1, Pair(), 2, None), 2 := StakeChange(Deposit(500_000), 2, 2, Pair(), 2, None)]
    ensures FaithfulCheckpoint(joined, 1)
    ensures var one := ApplyCheckpoint(joined, 1, false, Place(3, 3));
      && one.Ok? && FaithfulCheckpoint(one.value, 2)
      && var two := ApplyCheckpoint(one.value, 2, false, Place(4, 4));
         && two.Ok? && two.value.log == one.value.log && two.value.state.Some? && two.value.state.value.committee == Pair()
         && 1 in two.value.log && 2 in two.value.log
         && two.value.log[1].confirmed == Some(3) && two.value.log[2].confirmed == None
  {
  }

  lemma JoinHalfStates(created: Subnet, evs: seq<Event>) returns (s: Subnet, joined: Subnet, one: Subnet, last: Subnet)
    requires created == Start() && JoinHalfEvents(evs)
    ensures Step(created, evs[0]) == s && Step(s, evs[1]) == joined && Step(joined, evs[2]) == one && Step(one, evs[3]) == last
    ensures Benign(joined, evs[2]) && Benign(one, evs[3])
    ensures last.state.Some? && last.state.value.committee.configurationNumber == 2 && IsValidator(last.state.value.committee, 2)
    ensures 1 in last.log && last.log[1].confirmed == Some(3)
    ensures 2 in last.log && last.log[2].change == Deposit(500_000) && last.log[2].confirmed == None
  {
    s := Single(1_000_000);
    SingleBootstraps(1_000_000);
    PairBuilt();
    LaterJoin(s);
    joined := Step(s, evs[1]);
    HalfRotation(joined);
    one := Step(joined, evs[2]);
    last := Step(one, evs[3]);
    assert Pair().validators[1].pubkey == 2 && Pair().validators[1] in Pair().validators;
  }

  /**
   Every message of this run is benign. It ends with a committee in office whose last
   change, the deposit of the validator that joined, stays unconfirmed: the checkpoint
   that names its number does not rotate, because that committee is in office already.
   */
  lemma JoinHalfStaysUnconfirmed(created: Subnet, evs: seq<Event>) returns (after: Subnet)
    requires created == Start() && JoinHalfEvents(evs)
    ensures OrderedRun(created, evs, 0) && BenignRun(created, evs) && after == Run(created, evs)
    ensures after.state.Some? && after.state.value.committee.configurationNumber == 2
    ensures IsValidator(after.state.value.committee, 2)
    ensures 1 in after.log && after.log[1].confirmed == Some(3)
    ensures 2 in after.log && after.log[2].change == Deposit(500_000) && after.log[2].confirmed == None
    ensures !OfficeConfirmed(after)
  {
    var s, joined, one;
    s, joined, one, after := JoinHalfStates(created, evs);
    JoinHalfNoVotes(evs);
    RunOfFour(created, s, joined, one, after, evs);
  }

  // ---------------------------------------------------------------------
  // Unstaking

  ghost predicate ResidueEvents(evs: seq<Event>) {
    && |evs| == 3
    && evs[0] == Event(Place(1, 1), JoinMsg(1, 20_000))
    && evs[1] == Event(Place(2, 2), JoinMsg(2, 20_000))
    && evs[2] == Event(Place(3, 3), UnstakeMsg(1, 15_000))
  }

  lemma ResidueNoVotes(evs: seq<Event>)
    requires ResidueEvents(evs)
    ensures NoVotes(evs)
  {
  }

  lemma FirstOfTwo(created: Subnet) returns (one: Subnet)
    requires created == Created(ID, 1, 2, {1, 2})
    ensures ApplyJoin(created, 1, 20_000, Place(1, 1)) == Ok(one)
    ensures one.id == ID && one.genesis == Genesis(1, 2, {1, 2}, [Validator(1, 2, 20_000)], None) && one.state.None? && one.log == map[]
  {
    var a := Validator(1, 2, 20_000);
    assert [] + [a] == [a];
    one := ApplyJoin(created, 1, 20_000, Place(1, 1)).value;
  }

  lemma ResidueStates(created: Subnet, evs: seq<Event>) returns (one: Subnet, two: Subnet, last: Subnet)
    requires created == Created(ID, 1, 2, {1, 2}) && ResidueEvents(evs)
    ensures Step(created, evs[0]) == one && Step(one, evs[1]) == two && Step(two, evs[2]) == last
    ensures Apply(two, evs[2]).Ok? && !Benign(two, evs[2])
    ensures last.state.Some? && LatestCommittee(last.state.value).validators == [Validator(2, 2, 20_000)]
    ensures Replay(last.genesis.validators, last.log, 1) == map[1 := 5_000, 2 := 20_000] && !ReplayOk(last)
  {
    one := FirstOfTwo(created);
    TwoBootstrap(one);
    two := Step(one, evs[1]);
    TwoUnstake(two);
    last := Step(two, evs[2]);
  }

  /**
   With a minimum stake of one satoshi, a validator that keeps 5000 has no power
   and leaves the committee, but the log only says that it withdrew 15000.
   */
  lemma UnstakeLosesResidue(created: Subnet, evs: seq<Event>) returns (before: Subnet, after: Subnet)
    requires created == Created(ID, 1, 2, {1, 2}) && ResidueEvents(evs)
    ensures OrderedRun(created, evs, 0) && before == Run(created, evs[..2]) && after == Run(created, evs)
    ensures Apply(before, evs[2]).Ok? && !Benign(before, evs[2])
    ensures after.state.Some? && LatestCommittee(after.state.value).validators == [Validator(2, 2, 20_000)]
    ensures Replay(after.genesis.validators, after.log, 1) == map[1 := 5_000, 2 := 20_000]
    ensures !ReplayOk(after)
  {
    var one;
    one, before, after := ResidueStates(created, evs);
    ResidueNoVotes(evs);
    RunOfThree(created, one, before, after, evs);
  }

  lemma TwoBootstrap(one: Subnet)
    requires one.genesis == Genesis(1, 2, {1, 2}, [Validator(1, 2, 20_000)], None) && one.state.None?
    ensures var two := ApplyJoin(one, 2, 20_000, Place(2, 2));
      && two.Ok? && two.value.state.Some? && two.value.id == one.id
      && two.value.genesis == Genesis(1, 2, {1, 2}, [Validator(1, 2, 20_000), Validator(2, 2, 20_000)], Some(2))
      && two.value.state.value.committee.validators == [Validator(1, 2, 20_000), Validator(2, 2, 20_000)]
      && two.value.state.value.waiting.None? && two.value.state.value.killed == NotKilled
      && two.value.log == one.log
  {
    var a, b := Validator(1, 2, 20_000), Validator(2, 2, 20_000);
    assert [a] + [b] == [a, b];
    assert [a][1..] == [] && Position([a], 2).None?;
    assert [a, b][1..] == [b] && [b][1..] == [];
    assert Total([b]) == 2;
    assert Total([a, b]) == 4;
    AddressNeedsPower(one.id, [a, b]);
  }

  lemma TwoUnstake(two: Subnet)
    requires two.id == ID && two.state.Some? && two.log == map[] && two.genesis.minStake == 1
    requires two.genesis.validators == two.state.value.committee.validators == [Validator(1, 2, 20_000), Validator(2, 2, 20_000)]
    requires two.state.value.waiting.None? && two.state.value.killed == NotKilled
    ensures !Benign(two, Event(Place(3, 3), UnstakeMsg(1, 15_000)))
    ensures var left := ApplyUnstake(two, 1, 15_000, Place(3, 3));
      && left.Ok? && left.value.state.Some?
      && LatestCommittee(left.value.state.value).validators == [Validator(2, 2, 20_000)]
      && Replay(left.value.genesis.validators, left.value.log, 1) == map[1 := 5_000, 2 := 20_000]
      && !ReplayOk(left.value)
  {
    var a, b := Validator(1, 2, 20_000), Validator(2, 2, 20_000);
    var latest := two.state.value.committee;
    assert [a, b][1..] == [b] && [b][1..] == [];
    assert TotalCollateral([b]) == 20_000;
    assert TotalCollateral([a, b]) == 40_000;
    assert Without([a, b], 0) == [b];
    var next := Lone(b, latest.configurationNumber + 1);
    LoneBuilt(b, latest.configurationNumber + 1);
    var left := ApplyUnstake(two, 1, 15_000, Place(3, 3)).value;
    assert left == Waiting(two, next, Withdraw(15_000), 1, Place(3, 3));
    TwoReplay(left.log);
    assert 1 !in PubKeys([b]);
    assert left.log.Keys == {1};
    assert |left.log.Keys| == 1;
    assert !LatestOk(left.genesis.validators, left.log, next);
  }

  lemma TwoReplay(log: Log)
    requires 1 in log && log[1].change == Withdraw(15_000) && log[1].validator == 1
    ensures Replay([Validator(1, 2, 20_000), Validator(2, 2, 20_000)], log, 1) == map[1 := 5_000, 2 := 20_000]
  {
    var a, b := Validator(1, 2, 20_000), Validator(2, 2, 20_000);
    assert [a, b][..1] == [a] && [a][..0] == [];
    assert CollateralMap([a]) == map[1 := 20_000];
    assert CollateralMap([a, b]) == map[1 := 20_000, 2 := 20_000];
    assert Replay([a, b], log, 0) == map[1 := 20_000, 2 := 20_000];
  }

  // ---------------------------------------------------------------------
  // No power left

  lemma LoneLeaves(s: Subnet, ev: Event)
    requires s == Single(1_000_000) && ev.msg == UnstakeMsg(1, 1_000_000)
    ensures Panics(s, ev)
  {
    var v := Member(1, 1_000_000);
    assert [v][1..] == [] && TotalCollateral([v]) == 1_000_000;
    assert Without([v], 0) == [];
    PanicsExactly(s, ev);
  }

  /** A subnet bootstrapped by one validator, which then takes out all it has. */
  lemma LastUnstakePanics(created: Subnet, evs: seq<Event>) returns (before: Subnet)
    requires created == Start() && |evs| == 2 && evs[0] == JoinAt1(1_000_000) && evs[1] == Event(Place(2, 2), UnstakeMsg(1, 1_000_000))
    ensures before == Run(created, evs[..1]) && Panics(before, evs[1])
  {
    before := Single(1_000_000);
    SingleBootstraps(1_000_000);
    LoneLeaves(before, evs[1]);
    assert Trace([created, before], evs[..1]);
    TraceRuns([created, before], evs[..1]);
  }
}

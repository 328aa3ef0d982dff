/**
 The replay of the log over whole runs, and the whole invariant. Both are decided
 exactly, for one step and for every run: the replay by when stake changes were made and
 what unstakes left, the chain by collisions.
 */
module SubnetRuns {
  import opened Outcomes
  import opened Multisig
  import opened Committees
  import opened Subnets
  import opened SubnetLog
  import opened SubnetSteps
  import opened SubnetChain
  import opened SubnetRotation
  import opened SubnetCore
  import opened SubnetHistory

  // ---------------------------------------------------------------------
  // The replay after one step

  /** An unstake leaves nothing or a unit of power. */
  predicate Clean(s: Subnet, ev: Event) {
    ev.msg.UnstakeMsg? ==> CleanUnstake(s, ev.msg.key, ev.msg.amount)
  }

  /** The checkpoint drops a later waiting committee that has the target's address. */
  predicate Drops(s: Subnet, ev: Event) {
    ev.msg.CheckpointMsg? && DroppingTarget(s, ev.msg.nextConfiguration)
  }

  lemma VoteReplay(s: Subnet, s': Subnet)
    requires VoteShape(s, s') && ReplayCore(s)
    ensures ReplayCore(s') && (Behind(s') <==> Behind(s))
  {
  }

  lemma BatchReplay(s: Subnet, s': Subnet, at: Place)
    requires ReplayCore(s) && ApplyBatch(s, at) == Ok(s')
    ensures ReplayCore(s') && (Behind(s') <==> Behind(s))
  {
  }

  /** A stake change made while the latest committee is not behind keeps the replay if and only if it is clean. */
  lemma ChangeReplayExactly(s: Subnet, ev: Event, now: nat)
    requires LogOk(s, now) && CommitteesOk(s) && ReplayOk(s) && now <= ev.at.height && IsChange(ev) && Apply(s, ev).Ok?
    ensures ReplayOk(Step(s, ev)) <==> Clean(s, ev)
  {
    match ev.msg
    case JoinMsg(k, c) => JoinKeeps(s, k, c, ev.at, now);
    case StakeMsg(k, a, enough) => StakeKeeps(s, k, a, enough, ev.at, now);
    case UnstakeMsg(k, a) => UnstakeKeepsExactly(s, k, a, ev.at, now);
  }

  /** An accepted message keeps the replay if and only if it drops no committee and is clean; collisions do no harm. */
  lemma StepReplayExactly(s: Subnet, ev: Event, now: nat)
    requires LogOk(s, now) && CommitteesOk(s) && ReplayOk(s) && now <= ev.at.height && Apply(s, ev).Ok?
    ensures ReplayOk(Step(s, ev)) <==> !Drops(s, ev) && Clean(s, ev)
  {
    var s', at := Apply(s, ev).value, ev.at;
    if IsChange(ev) {
      ChangeReplayExactly(s, ev, now);
    } else {
      match ev.msg
      case CheckpointMsg(n, isKill) => CheckpointReplayExactly(s, n, isKill, at);
      case BatchMsg => BatchReplay(s, s', at);
      case KillMsg(k, rows) =>
        KillShape(s, s', k, rows, at);
        VoteReplay(s, s');
    }
  }

  // ---------------------------------------------------------------------
  // Damage that stays

  /** Entry `k` has a snapshot of another number, or one that the log up to its number does not give. */
  ghost predicate DamagedAt(g: seq<Validator>, log: Log, k: nat) {
    && k in log
    && var c := log[k].committeeAfter;
       || c.configurationNumber != SnapshotNumber(log, k)
       || (c.configurationNumber <= k && !Describes(Replay(g, log, c.configurationNumber), c.validators))
  }

  ghost predicate Damaged(s: Subnet) {
    s.state.Some? && exists k :: DamagedAt(s.genesis.validators, s.log, k)
  }

  lemma DamagedIsNoReplay(s: Subnet)
    requires Damaged(s)
    ensures !ReplayCore(s)
  {
    var k :| DamagedAt(s.genesis.validators, s.log, k);
    assert !EntryOk(s.genesis.validators, s.log, k);
  }

  lemma DamageStays(g: seq<Validator>, log: Log, log': Log, k: nat)
    requires Numbered(log) && LogKept(log, log') && DamagedAt(g, log, k)
    ensures DamagedAt(g, log', k)
  {
    if log[k].committeeAfter.configurationNumber <= k {
      ReplayFrame(g, log, log', log[k].committeeAfter.configurationNumber);
    }
  }

  lemma {:induction false} DamagedForever(s: Subnet, evs: seq<Event>, now: nat)
    requires Core(s, now) && OrderedRun(s, evs, now) && Damaged(s)
    ensures Damaged(Run(s, evs))
    decreases |evs|
  {
    if evs != [] {
      var s' := Step(s, evs[0]);
      var k :| DamagedAt(s.genesis.validators, s.log, k);
      StepLogKept(s, evs[0]);
      GenesisSettled(s, evs[0]);
      StepHistory(s, evs[0]);
      DamageStays(s.genesis.validators, s.log, s'.log, k);
      StepKeepsCore(s, evs[0], now);
      DamagedForever(s', evs[1..], evs[0].at.height);
    }
  }

  /** An unstake that leaves a residue without power logs a snapshot that the log does not replay to. */
  lemma ResidueDamages(s: Subnet, k: Key, amount: nat, at: Place, now: nat)
    requires LogOk(s, now) && ReplayOk(s) && CommitteesOk(s) && now <= at.height
    requires ApplyUnstake(s, k, amount, at).Ok? && !CleanUnstake(s, k, amount)
    ensures Damaged(ApplyUnstake(s, k, amount, at).value)
  {
    var next, i, w, removes := UnstakeShape(s, k, amount, at);
    LatestDistinct(s);
    LatestDescribed(s);
    WithdrawRemoves(LatestReplay(s), LatestCommittee(s.state.value).validators, i, amount);
    LoggedDamage(s, next, Withdraw(amount), k, at);
  }

  lemma LatestDescribed(s: Subnet)
    requires ReplayOk(s) && s.state.Some?
    ensures Describes(LatestReplay(s), LatestCommittee(s.state.value).validators)
    ensures LatestCommittee(s.state.value).configurationNumber == |s.log|
  {
  }

  /** A change whose committee is not what the change makes of the log damages its entry. */
  lemma LoggedDamage(s: Subnet, next: Committee, change: StakingChange, k: Key, at: Place)
    requires s.state.Some? && Numbered(s.log) && next.configurationNumber == |s.log| + 1
    requires !Describes(NextReplay(s, change, k), next.validators)
    ensures Damaged(Waiting(s, next, change, k, at))
  {
    var n, g, s' := NextNumber(s), s.genesis.validators, Waiting(s, next, change, k, at);
    AppendReplay(g, s.log, Record(s, change, k, n, next, at));
    assert DamagedAt(g, s'.log, n);
  }

  lemma LateJoin(s: Subnet, k: Key, c: nat, at: Place)
    requires Behind(s) && Numbered(s.log) && ApplyJoin(s, k, c, at).Ok?
    ensures Damaged(ApplyJoin(s, k, c, at).value)
  {
    var v := Validator(k, CollateralToPower(c, s.genesis.minStake).value, c);
    var next := JoinShape(s, v, at);
    var n, s' := NextNumber(s), Joined(s, v, next, at);
    assert s'.log[n].change.Join? && s'.log[n].committeeAfter == next;
    assert DamagedAt(s'.genesis.validators, s'.log, n);
  }

  lemma LateStake(s: Subnet, k: Key, amount: nat, enough: bool, at: Place)
    requires Behind(s) && ApplyStake(s, k, amount, enough, at).Ok?
    ensures Damaged(ApplyStake(s, k, amount, enough, at).value)
  {
    var next, i, w := StakeShape(s, k, amount, enough, at);
    var n, s' := NextNumber(s), Waiting(s, next, Deposit(amount), k, at);
    assert DamagedAt(s'.genesis.validators, s'.log, n);
  }

  lemma LateUnstake(s: Subnet, k: Key, amount: nat, at: Place)
    requires Behind(s) && ApplyUnstake(s, k, amount, at).Ok?
    ensures Damaged(ApplyUnstake(s, k, amount, at).value)
  {
    var next, i, w, removes := UnstakeShape(s, k, amount, at);
    var n, s' := NextNumber(s), Waiting(s, next, Withdraw(amount), k, at);
    assert DamagedAt(s'.genesis.validators, s'.log, n);
  }

  /** A stake change made while the latest committee is behind logs a snapshot under a wrong number. */
  lemma LateChangeDamages(s: Subnet, ev: Event)
    requires Behind(s) && Numbered(s.log) && IsChange(ev) && Apply(s, ev).Ok?
    ensures Damaged(Step(s, ev))
  {
    match ev.msg
    case JoinMsg(k, c) => LateJoin(s, k, c, ev.at);
    case StakeMsg(k, a, enough) => LateStake(s, k, a, enough, ev.at);
    case UnstakeMsg(k, a) => LateUnstake(s, k, a, ev.at);
  }

  // ---------------------------------------------------------------------
  // The replay over runs, exactly

  /** A stake change is made while the latest committee is not behind, and is clean. */
  predicate Timely(s: Subnet, ev: Event) {
    IsChange(ev) ==> !Behind(s) && Clean(s, ev)
  }

  /** Every accepted message of the run is timely. */
  predicate TimelyRun(s: Subnet, evs: seq<Event>)
    decreases |evs|
  {
    evs == [] || ((Apply(s, evs[0]).Ok? ==> Timely(s, evs[0])) && TimelyRun(Step(s, evs[0]), evs[1..]))
  }

  lemma TimelyStep(s: Subnet, ev: Event, now: nat)
    requires LogOk(s, now) && CommitteesOk(s) && ReplayCore(s) && now <= ev.at.height
    requires Apply(s, ev).Ok? ==> Timely(s, ev)
    ensures ReplayCore(Step(s, ev))
  {
    if Apply(s, ev).Ok? {
      var s', at := Apply(s, ev).value, ev.at;
      if IsChange(ev) {
        ChangeReplayExactly(s, ev, now);
      } else {
        match ev.msg
        case CheckpointMsg(n, isKill) => CheckpointKeepsReplayCore(s, n, isKill, at);
        case BatchMsg => BatchReplay(s, s', at);
        case KillMsg(k, rows) =>
          KillShape(s, s', k, rows, at);
          VoteReplay(s, s');
      }
    }
  }

  lemma UntimelyDamages(s: Subnet, ev: Event, now: nat)
    requires LogOk(s, now) && CommitteesOk(s) && ReplayCore(s) && now <= ev.at.height
    requires Apply(s, ev).Ok? && !Timely(s, ev)
    ensures Damaged(Step(s, ev))
  {
    if Behind(s) {
      LateChangeDamages(s, ev);
    } else {
      ResidueDamages(s, ev.msg.key, ev.msg.amount, ev.at, now);
    }
  }

  /**
   At the end of any run every snapshot replays the log if and only if every accepted
   message was timely, and the latest committee replays the whole log if and only if,
   besides, it is not behind at the end.
   */
  lemma {:induction false} ReplayExactlyOverRuns(s: Subnet, evs: seq<Event>, now: nat)
    requires Core(s, now) && ReplayCore(s) && OrderedRun(s, evs, now)
    ensures ReplayCore(Run(s, evs)) <==> TimelyRun(s, evs)
    ensures ReplayOk(Run(s, evs)) <==> TimelyRun(s, evs) && !Behind(Run(s, evs))
    decreases |evs|
  {
    if evs != [] {
      StepKeepsCore(s, evs[0], now);
      if Apply(s, evs[0]).Ok? && !Timely(s, evs[0]) {
        UntimelyDamages(s, evs[0], now);
        DamagedForever(Step(s, evs[0]), evs[1..], evs[0].at.height);
        DamagedIsNoReplay(Run(s, evs));
      } else {
        TimelyStep(s, evs[0], now);
        ReplayExactlyOverRuns(Step(s, evs[0]), evs[1..], evs[0].at.height);
      }
    }
  }

  /**
   The log replayed, from creation: in every state that a run of timely messages reaches,
   the committee in office and every snapshot in the log and in the table have exactly the
   collateral that the log gives up to the snapshot's number; and the latest committee
   that of the whole log, as soon as it has the log's number.
   */
  lemma LatestIsReplayOfLog(created: Subnet, evs: seq<Event>, s: Subnet)
    requires created == Created(created.id, created.genesis.minStake, created.genesis.minValidators, created.genesis.whitelist)
    requires OrderedRun(created, evs, 0) && TimelyRun(created, evs) && s == Run(created, evs) && s.state.Some?
    ensures TrueToLog(s, s.state.value.committee)
    ensures forall k :: k in s.log ==> TrueToLog(s, s.log[k].committeeAfter)
    ensures forall n :: n in s.committees ==> TrueToLog(s, s.committees[n])
    ensures var latest := LatestCommittee(s.state.value);
      latest.configurationNumber == |s.log| ==> Describes(Replay(s.genesis.validators, s.log, |s.log|), latest.validators)
  {
    CreatedCore(created.id, created.genesis.minStake, created.genesis.minValidators, created.genesis.whitelist);
    ReplayExactlyOverRuns(created, evs, 0);
    forall k | k in s.log
      ensures TrueToLog(s, s.log[k].committeeAfter)
    {
      assert EntryOk(s.genesis.validators, s.log, k);
    }
  }

  /** The snapshot has the collateral that the log gives up to its number. */
  ghost predicate TrueToLog(s: Subnet, c: Committee) {
    c.configurationNumber <= |s.log| && Describes(Replay(s.genesis.validators, s.log, c.configurationNumber), c.validators)
  }

  // ---------------------------------------------------------------------
  // The records' numbers and the confirmations after one step

  /** Everything that can be said of a subnet, except that its latest committee is not behind. */
  ghost predicate Sound(s: Subnet, now: nat) {
    && Core(s, now)
    && ReplayCore(s)
    && LinksOk(s)
    && NamesOk(s)
    && OfficeOk(s)
  }

  ghost predicate Inv(s: Subnet, now: nat) {
    Sound(s, now) && !Behind(s)
  }

  lemma ChangeKeepsRest(s: Subnet, s': Subnet)
    requires ReplayCore(s) && NamesOk(s) && OfficeOk(s) && ChangeShape(s, s') && Appended(s.log, s'.log)
    ensures NamesOk(s') && OfficeOk(s')
  {
    var n := NextCheckpoint(s.state.value);
    NamesFrame(s.checkpoints, s'.checkpoints, s.committees, s'.committees, s.log, s'.log, n);
    OfficeFrame(s.log, s'.log, s.state.value.committee.configurationNumber);
  }

  lemma GenesisRest(s: Subnet, ev: Event)
    requires s.state.None? && ReplayCore(s) && Apply(s, ev).Ok?
    ensures NamesOk(Step(s, ev)) && OfficeOk(Step(s, ev))
  {
  }

  lemma BatchRest(s: Subnet, s': Subnet, at: Place)
    requires NamesOk(s) && OfficeOk(s) && ApplyBatch(s, at) == Ok(s')
    ensures NamesOk(s') && OfficeOk(s')
  {
    NamesFrame(s.checkpoints, s'.checkpoints, s.committees, s'.committees, s.log, s'.log, NextCheckpoint(s.state.value));
  }

  lemma StepKeepsRest(s: Subnet, ev: Event, now: nat)
    requires Numbered(s.log) && ReplayCore(s) && TablesOk(s, now) && LinksOk(s) && NamesOk(s) && OfficeOk(s)
    requires Apply(s, ev).Ok? && !Collides(s, ev)
    ensures NamesOk(Step(s, ev)) && OfficeOk(Step(s, ev))
  {
    var s', at := Apply(s, ev).value, ev.at;
    if s.state.None? {
      GenesisRest(s, ev);
    } else if IsChange(ev) {
      ChangesShape(s, ev);
      StepAppends(s, ev);
      ChangeKeepsRest(s, s');
    } else {
      match ev.msg
      case CheckpointMsg(n, isKill) =>
        CheckpointNames(s, n, isKill, at);
        CheckpointOffice(s, n, isKill, at);
      case BatchMsg => BatchRest(s, s', at);
      case KillMsg(k, rows) => KillShape(s, s', k, rows, at);
    }
  }

  lemma SoundStep(s: Subnet, ev: Event, now: nat)
    requires Sound(s, now) && now <= ev.at.height && WellListed(s, ev)
    requires Apply(s, ev).Ok? ==> Timely(s, ev) && !Collides(s, ev)
    ensures Sound(Step(s, ev), ev.at.height)
  {
    StepKeepsCore(s, ev, now);
    TimelyStep(s, ev, now);
    if Apply(s, ev).Ok? {
      StepLinksExactly(s, ev, now);
      StepKeepsRest(s, ev, now);
    }
  }

  // ---------------------------------------------------------------------
  // The whole invariant

  /**
   What a caller can check of a message before it is applied: an unstake leaves
   nothing or a unit of power, and a rotation's target is told apart by address.
   */
  predicate Benign(s: Subnet, ev: Event) {
    Clean(s, ev) && !Drops(s, ev) && !Collides(s, ev)
  }

  /** An accepted message keeps the invariant if and only if it is benign. */
  lemma StepKeepsExactly(s: Subnet, ev: Event, now: nat)
    requires Inv(s, now) && now <= ev.at.height && WellListed(s, ev) && Apply(s, ev).Ok?
    ensures Inv(Step(s, ev), ev.at.height) <==> Benign(s, ev)
  {
    StepReplayExactly(s, ev, now);
    StepLinksExactly(s, ev, now);
    if Benign(s, ev) {
      SoundStep(s, ev, now);
    }
  }

  /**
   At the end of any run the invariant holds if and only if no accepted message collided,
   every one was timely, and the latest committee is not behind.
   */
  lemma {:induction false} InvExactlyOverRuns(s: Subnet, evs: seq<Event>, now: nat)
    requires Sound(s, now) && OrderedRun(s, evs, now)
    ensures Sound(Run(s, evs), LastHeight(evs, now)) <==> CollisionFree(s, evs) && TimelyRun(s, evs)
    ensures Inv(Run(s, evs), LastHeight(evs, now)) <==> CollisionFree(s, evs) && TimelyRun(s, evs) && !Behind(Run(s, evs))
  {
    ChainExactlyOverRuns(s, evs, now);
    ReplayExactlyOverRuns(s, evs, now);
    if CollisionFree(s, evs) && TimelyRun(s, evs) {
      SoundRun(s, evs, now);
    }
  }

  lemma {:induction false} SoundRun(s: Subnet, evs: seq<Event>, now: nat)
    requires Sound(s, now) && OrderedRun(s, evs, now) && CollisionFree(s, evs) && TimelyRun(s, evs)
    ensures Sound(Run(s, evs), LastHeight(evs, now))
    decreases |evs|
  {
    if evs != [] {
      SoundStep(s, evs[0], now);
      LastHeightTail(evs, now);
      SoundRun(Step(s, evs[0]), evs[1..], evs[0].at.height);
    }
  }

  lemma CreatedInv(id: SubnetId, minStake: nat, minValidators: nat, whitelist: set<Key>)
    ensures Inv(Created(id, minStake, minValidators, whitelist), 0)
  {
  }

  /**
   Every state that a run reaches from creation: the core always holds, the chain if and
   only if no accepted message collided, the replay if and only if every one was timely and
   the latest committee is not behind, and all of it if and only if both.
   */
  lemma ReachableSubnets(created: Subnet, evs: seq<Event>)
    requires created == Created(created.id, created.genesis.minStake, created.genesis.minValidators, created.genesis.whitelist)
    requires OrderedRun(created, evs, 0)
    ensures var s, now := Run(created, evs), LastHeight(evs, 0);
      && Core(s, now)
      && (ChainOk(s, now) <==> CollisionFree(created, evs))
      && (ReplayOk(s) <==> TimelyRun(created, evs) && !Behind(s))
      && (Inv(s, now) <==> ChainOk(s, now) && ReplayOk(s))
  {
    CreatedInv(created.id, created.genesis.minStake, created.genesis.minValidators, created.genesis.whitelist);
    RunsKeepCore(created, evs, 0);
    ChainExactlyOverRuns(created, evs, 0);
    ReplayExactlyOverRuns(created, evs, 0);
    InvExactlyOverRuns(created, evs, 0);
  }

  // ---------------------------------------------------------------------
  // When every message is benign

  /** Snapshots with different numbers, the current committee and the waiting one, differ in address. */
  ghost predicate FreshAddresses(s: Subnet) {
    s.state.Some? ==>
      var st := s.state.value;
      forall k :: k in s.log ==>
        var c := s.log[k].committeeAfter;
        && (c.configurationNumber != st.committee.configurationNumber ==> c.address != st.committee.address)
        && (st.waiting.Some? && c.configurationNumber != st.waiting.value.configurationNumber ==> c.address != st.waiting.value.address)
  }

  lemma FreshIsFaithful(s: Subnet, n: nat, isKill: bool, at: Place)
    requires ReplayCore(s) && FreshAddresses(s) && ApplyCheckpoint(s, n, isKill, at).Ok?
    ensures FaithfulCheckpoint(s, n)
  {
    if Rotates(s.state.value, n) {
      CheckpointIsRotated(s, n, isKill, at);
      EntryOfCore(s, n);
    }
  }

  /** With fresh addresses and a minimum stake of one unit of power, whatever is accepted is benign. */
  lemma UsuallyBenign(s: Subnet, ev: Event)
    requires ReplayCore(s) && Apply(s, ev).Ok?
    requires FreshAddresses(s) && s.genesis.minStake >= POWER_SCALE_FACTOR
    ensures Benign(s, ev)
  {
    if ev.msg.UnstakeMsg? {
      MinStakeMakesClean(s, ev.msg.key, ev.msg.amount, ev.at);
    } else if ev.msg.CheckpointMsg? {
      FreshIsFaithful(s, ev.msg.nextConfiguration, ev.msg.isKill, ev.at);
    }
  }

  /** Every message of the run that is accepted is benign. */
  predicate BenignRun(s: Subnet, evs: seq<Event>)
    decreases |evs|
  {
    evs == [] ||
    ((Apply(s, evs[0]).Ok? ==> Benign(s, evs[0])) && BenignRun(Step(s, evs[0]), evs[1..]))
  }

  lemma BenignStep(s: Subnet, ev: Event, now: nat)
    requires Inv(s, now) && now <= ev.at.height && WellListed(s, ev) && (Apply(s, ev).Ok? ==> Benign(s, ev))
    ensures Inv(Step(s, ev), ev.at.height)
  {
    if Apply(s, ev).Ok? {
      StepKeepsExactly(s, ev, now);
    } else {
      SoundStep(s, ev, now);
    }
  }

  /** A run of benign messages keeps the invariant in every state, and so is timely and free of collisions. */
  lemma {:induction false} BenignRunsKeepInv(s: Subnet, evs: seq<Event>, now: nat)
    requires Inv(s, now) && OrderedRun(s, evs, now) && BenignRun(s, evs)
    ensures Inv(Run(s, evs), LastHeight(evs, now)) && CollisionFree(s, evs) && TimelyRun(s, evs)
    decreases |evs|
  {
    if evs != [] {
      BenignStep(s, evs[0], now);
      LastHeightTail(evs, now);
      BenignRunsKeepInv(Step(s, evs[0]), evs[1..], evs[0].at.height);
    }
  }

  /** Every state of the run, the first included, tells snapshots apart by address. */
  ghost predicate FreshRun(s: Subnet, evs: seq<Event>)
    decreases |evs|
  {
    FreshAddresses(s) && (evs == [] || FreshRun(Step(s, evs[0]), evs[1..]))
  }

  /** No message changes the minimum stake. */
  lemma MinStakeFixed(s: Subnet, ev: Event)
    ensures Step(s, ev).genesis.minStake == s.genesis.minStake
  {
    if s.state.Some? {
      GenesisSettled(s, ev);
    } else if Apply(s, ev).Ok? {
      GenesisShape(s, ev);
    }
  }

  /** With a minimum stake of one unit of power and fresh addresses throughout, a run is benign. */
  lemma {:induction false} UsuallyBenignRun(s: Subnet, evs: seq<Event>, now: nat)
    requires Inv(s, now) && OrderedRun(s, evs, now) && FreshRun(s, evs) && s.genesis.minStake >= POWER_SCALE_FACTOR
    ensures BenignRun(s, evs)
    decreases |evs|
  {
    if evs != [] {
      if Apply(s, evs[0]).Ok? {
        UsuallyBenign(s, evs[0]);
      }
      BenignStep(s, evs[0], now);
      MinStakeFixed(s, evs[0]);
      UsuallyBenignRun(Step(s, evs[0]), evs[1..], evs[0].at.height);
    }
  }
}

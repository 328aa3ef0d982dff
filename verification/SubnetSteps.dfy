/**
 What each stake change does to the log and the committees. Joining and staking
 always keep the replay; unstaking keeps it exactly when it leaves nothing or at
 least one unit of power.
 */
module SubnetSteps {
  import opened Outcomes
  import opened Listings
  import opened Multisig
  import opened Committees
  import opened Subnets
  import opened SubnetLog

  /** The changes of `log` are still there under `log'`. */
  ghost predicate Extends(log: Log, log': Log) {
    && |log| <= |log'|
    && forall k :: 1 <= k <= |log| ==>
         k in log && k in log' && log[k].change == log'[k].change && log[k].validator == log'[k].validator
  }

  lemma SnapshotFrame(g: seq<Validator>, log: Log, log': Log, c: Committee)
    requires Extends(log, log') && SnapshotOk(g, log, c)
    ensures SnapshotOk(g, log', c)
  {
    ReplayFrame(g, log, log', c.configurationNumber);
  }

  lemma StoredFrame(g: seq<Validator>, log: Log, log': Log, table: map<nat, Committee>)
    requires Extends(log, log') && StoredOk(g, log, table)
    ensures StoredOk(g, log', table)
  {
    forall n | n in table
      ensures SnapshotOk(g, log', table[n])
    {
      SnapshotFrame(g, log, log', table[n]);
    }
  }

  /** `log'` is `log` and one or two entries more that carry the snapshot `next`. */
  ghost predicate Grown(log: Log, log': Log, next: Committee) {
    && Extends(log, log')
    && |log'| > |log|
    && (forall k :: k in log ==> k in log' && log'[k] == log[k] && k <= |log|)
    && forall k :: k in log' && k !in log ==> log'[k].committeeAfter == next && |log'| == SnapshotNumber(log', k)
  }

  lemma EntriesFrame(g: seq<Validator>, log: Log, log': Log, next: Committee)
    requires Grown(log, log', next) && EntriesOk(g, log) && LatestOk(g, log', next)
    ensures EntriesOk(g, log') && LastIs(log', next)
  {
    forall k | k in log'
      ensures EntryOk(g, log', k)
      ensures log'[k].committeeAfter.configurationNumber == |log'| ==> log'[k].committeeAfter == next
    {
      if k in log {
        assert EntryOk(g, log, k);
        SnapshotFrame(g, log, log', log[k].committeeAfter);
      }
    }
  }

  // ---------------------------------------------------------------------
  // One logged change

  lemma OneAppended(log: Log, e: StakeChange)
    requires Numbered(log) && e.configurationNumber == |log| + 1 && !e.change.Join?
    ensures var log' := log[|log| + 1 := e];
      |log| + 1 !in log && Numbered(log') && |log'| == |log| + 1 && Grown(log, log', e.committeeAfter)
  {
    AppendNumbered(log, e);
  }

  lemma WaitingLog(s: Subnet, next: Committee, change: StakingChange, k: Key, at: Place, now: nat)
    requires s.state.Some? && LogOk(s, now) && now <= at.height && !change.Join?
    ensures LogOk(Waiting(s, next, change, k, at), at.height)
    ensures |Waiting(s, next, change, k, at).log| == |s.log| + 1
    ensures Grown(s.log, Waiting(s, next, change, k, at).log, next)
    ensures NextNumber(s) !in s.log
  {
    var e := Record(s, change, k, NextNumber(s), next, at);
    OneAppended(s.log, e);
    AppendOrdered(s.log, e, now, at.height);
  }

  ghost function LatestReplay(s: Subnet): map<Key, nat> {
    Replay(s.genesis.validators, s.log, |s.log|)
  }

  /** The collateral after one more change. */
  ghost function NextReplay(s: Subnet, change: StakingChange, k: Key): map<Key, nat> {
    Replayed(LatestReplay(s), change, k)
  }

  lemma WaitingLatest(s: Subnet, next: Committee, change: StakingChange, k: Key, at: Place, now: nat)
    requires s.state.Some? && LogOk(s, now) && now <= at.height && !change.Join?
    requires next.configurationNumber == |s.log| + 1
    ensures LatestOk(s.genesis.validators, Waiting(s, next, change, k, at).log, next) <==> Describes(NextReplay(s, change, k), next.validators)
  {
    var s' := Waiting(s, next, change, k, at);
    var n := NextNumber(s);
    WaitingLog(s, next, change, k, at, now);
    AppendReplay(s.genesis.validators, s.log, Record(s, change, k, n, next, at));
  }

  /** A logged change keeps the replay if and only if the new committee is what it says. */
  lemma WaitingReplay(s: Subnet, next: Committee, change: StakingChange, k: Key, at: Place, now: nat)
    requires s.state.Some? && LogOk(s, now) && ReplayOk(s) && now <= at.height && !change.Join?
    requires next.configurationNumber == |s.log| + 1
    ensures ReplayOk(Waiting(s, next, change, k, at)) <==> Describes(NextReplay(s, change, k), next.validators)
  {
    var s' := Waiting(s, next, change, k, at);
    WaitingLatest(s, next, change, k, at, now);
    WaitingLog(s, next, change, k, at, now);
    var g := s.genesis.validators;
    if LatestOk(g, s'.log, next) {
      GrownSnapshots(g, s.log, s'.log, s.committees, s.state.value.committee, s.state.value.waiting, next);
    }
  }

  /** All snapshots replay the grown log if the new one does. */
  lemma GrownSnapshots(g: seq<Validator>, log: Log, log': Log, table: map<nat, Committee>, current: Committee, waiting: Option<Committee>, next: Committee)
    requires SnapshotsOk(g, log, table, current, waiting) && Grown(log, log', next) && LatestOk(g, log', next)
    ensures SnapshotsOk(g, log', table, current, Some(next))
  {
    SnapshotFrame(g, log, log', current);
    StoredFrame(g, log, log', table);
    EntriesFrame(g, log, log', next);
  }

  lemma WaitingCommittees(s: Subnet, next: Committee, change: StakingChange, k: Key, at: Place)
    requires s.state.Some? && CommitteesOk(s) && WellFormed(next, s.id, s.genesis.minStake)
    ensures CommitteesOk(Waiting(s, next, change, k, at))
  {
  }

  // ---------------------------------------------------------------------
  // Stake

  /** What an accepted stake message does. */
  lemma StakeShape(s: Subnet, k: Key, amount: nat, enough: bool, at: Place)
    returns (next: Committee, i: nat, w: Validator)
    requires ApplyStake(s, k, amount, enough, at).Ok?
    ensures s.state.Some? && ApplyStake(s, k, amount, enough, at).value == Waiting(s, next, Deposit(amount), k, at)
    ensures var latest := LatestCommittee(s.state.value);
      && i < |latest.validators| && latest.validators[i].pubkey == k == w.pubkey
      && w.collateral == latest.validators[i].collateral + amount
      && CollateralToPower(w.collateral, s.genesis.minStake) == Some(w.power)
      && ModifyValidator(latest, s.id, w) == Ok(next)
      && next.validators == latest.validators[i := w]
      && next.configurationNumber == latest.configurationNumber + 1
  {
    var latest := LatestCommittee(s.state.value);
    i := Position(latest.validators, k).value;
    var v := latest.validators[i];
    w := v.(collateral := v.collateral + amount,
            power := CollateralToPower(v.collateral + amount, s.genesis.minStake).value);
    next := ModifyValidator(latest, s.id, w).value;
  }

  lemma DepositDescribed(s: Subnet, vs: seq<Validator>, i: nat, w: Validator, amount: nat)
    requires Describes(LatestReplay(s), vs) && DistinctValidators(vs)
    requires i < |vs| && vs[i].pubkey == w.pubkey && w.collateral == vs[i].collateral + amount
    ensures Describes(NextReplay(s, Deposit(amount), w.pubkey), vs[i := w])
  {
    assert vs[i] in vs;
    DescribesModify(LatestReplay(s), vs, i, w);
  }

  lemma LatestDistinct(s: Subnet)
    requires s.state.Some? && CommitteesOk(s)
    ensures DistinctValidators(LatestCommittee(s.state.value).validators)
  {
  }

  /** Staking keeps the order of the log and the committees, whatever the replay says. */
  lemma StakeKeepsOrder(s: Subnet, k: Key, amount: nat, enough: bool, at: Place, now: nat)
    requires LogOk(s, now) && CommitteesOk(s) && now <= at.height
    requires ApplyStake(s, k, amount, enough, at).Ok?
    ensures var s' := ApplyStake(s, k, amount, enough, at).value;
      LogOk(s', at.height) && CommitteesOk(s')
  {
    var next, i, w := StakeShape(s, k, amount, enough, at);
    assert WellFormed(next, s.id, s.genesis.minStake) by {
      ChangesKeepWellFormed(LatestCommittee(s.state.value), s.id, s.genesis.minStake, w);
    }
    WaitingCommittees(s, next, Deposit(amount), k, at);
    WaitingLog(s, next, Deposit(amount), k, at, now);
  }

  lemma StakeKeeps(s: Subnet, k: Key, amount: nat, enough: bool, at: Place, now: nat)
    requires LogOk(s, now) && ReplayOk(s) && CommitteesOk(s) && now <= at.height
    requires ApplyStake(s, k, amount, enough, at).Ok?
    ensures var s' := ApplyStake(s, k, amount, enough, at).value;
      LogOk(s', at.height) && ReplayOk(s') && CommitteesOk(s')
  {
    var next, i, w := StakeShape(s, k, amount, enough, at);
    StakeKeepsOrder(s, k, amount, enough, at, now);
    LatestDistinct(s);
    DepositDescribed(s, LatestCommittee(s.state.value).validators, i, w, amount);
    WaitingReplay(s, next, Deposit(amount), k, at, now);
  }

  // ---------------------------------------------------------------------
  // Unstake

  /** What the validator would have left, for an unstake message that names a validator. */
  function Residual(s: Subnet, k: Key, amount: nat): int {
    if s.state.None? then 0
    else
      var latest := LatestCommittee(s.state.value);
      var p := Position(latest.validators, k);
      if p.None? then 0 else latest.validators[p.value].collateral - amount
  }

  /** Nothing is left, or enough for one unit of power. */
  predicate CleanUnstake(s: Subnet, k: Key, amount: nat) {
    Residual(s, k, amount) == 0 || Residual(s, k, amount) >= POWER_SCALE_FACTOR
  }

  /** What an accepted unstake message does. */
  lemma UnstakeShape(s: Subnet, k: Key, amount: nat, at: Place)
    returns (next: Committee, i: nat, w: Validator, removes: bool)
    requires ApplyUnstake(s, k, amount, at).Ok?
    ensures s.state.Some? && ApplyUnstake(s, k, amount, at).value == Waiting(s, next, Withdraw(amount), k, at)
    ensures var latest := LatestCommittee(s.state.value);
      && Position(latest.validators, k) == Some(i) && amount <= latest.validators[i].collateral
      && w.pubkey == k && w.collateral == latest.validators[i].collateral - amount
      && next.configurationNumber == latest.configurationNumber + 1
      && (removes ==> RemoveValidator(latest, s.id, k) == Ok(next) && next.validators == Without(latest.validators, i))
      && (!removes ==> && ModifyValidator(latest, s.id, w) == Ok(next)
                       && next.validators == latest.validators[i := w]
                       && CollateralToPower(w.collateral, s.genesis.minStake) == Some(w.power))
      && (removes <==> w.collateral == 0 || w.collateral < POWER_SCALE_FACTOR)
  {
    var latest := LatestCommittee(s.state.value);
    i := Position(latest.validators, k).value;
    var v := latest.validators[i];
    var left := v.collateral - amount;
    var power := CollateralToPower(left, s.genesis.minStake);
    removes := power.None? || power.value == 0;
    w := v.(collateral := left, power := if power.Some? then power.value else 0);
    next := Unstaked(s, latest, v, left).value;
  }

  lemma WithdrawModifies(m: map<Key, nat>, vs: seq<Validator>, i: nat, w: Validator, amount: nat)
    requires Describes(m, vs) && DistinctValidators(vs) && i < |vs| && vs[i].pubkey == w.pubkey
    requires amount <= vs[i].collateral && w.collateral == vs[i].collateral - amount > 0
    ensures Describes(Replayed(m, Withdraw(amount), w.pubkey), vs[i := w])
  {
    assert vs[i] in vs;
    DescribesModify(m, vs, i, w);
  }

  lemma WithdrawRemoves(m: map<Key, nat>, vs: seq<Validator>, i: nat, amount: nat)
    requires Describes(m, vs) && DistinctValidators(vs) && i < |vs| && amount <= vs[i].collateral
    ensures Describes(Replayed(m, Withdraw(amount), vs[i].pubkey), Without(vs, i)) <==> amount == vs[i].collateral
  {
    assert vs[i] in vs;
    DescribesRemove(m, vs, i);
  }

  lemma UnstakeCommittees(s: Subnet, k: Key, amount: nat, at: Place)
    requires CommitteesOk(s) && ApplyUnstake(s, k, amount, at).Ok?
    ensures CommitteesOk(ApplyUnstake(s, k, amount, at).value)
  {
    var next, i, w, removes := UnstakeShape(s, k, amount, at);
    var latest := LatestCommittee(s.state.value);
    assert latest.validators[i] in latest.validators;
    if removes {
      ChangesKeepWellFormed(latest, s.id, s.genesis.minStake, latest.validators[i]);
    } else {
      ChangesKeepWellFormed(latest, s.id, s.genesis.minStake, w);
    }
    WaitingCommittees(s, next, Withdraw(amount), k, at);
  }

  /** Unstaking keeps the order of the log and the committees, clean or not. */
  lemma UnstakeKeepsOrder(s: Subnet, k: Key, amount: nat, at: Place, now: nat)
    requires LogOk(s, now) && CommitteesOk(s) && now <= at.height
    requires ApplyUnstake(s, k, amount, at).Ok?
    ensures var s' := ApplyUnstake(s, k, amount, at).value;
      LogOk(s', at.height) && CommitteesOk(s')
  {
    var next, i, w, removes := UnstakeShape(s, k, amount, at);
    UnstakeCommittees(s, k, amount, at);
    WaitingLog(s, next, Withdraw(amount), k, at, now);
  }

  /** Unstaking keeps the replay if and only if it is clean. */
  lemma UnstakeKeepsExactly(s: Subnet, k: Key, amount: nat, at: Place, now: nat)
    requires LogOk(s, now) && ReplayOk(s) && CommitteesOk(s) && now <= at.height
    requires ApplyUnstake(s, k, amount, at).Ok?
    ensures var s' := ApplyUnstake(s, k, amount, at).value;
      LogOk(s', at.height) && CommitteesOk(s') && (ReplayOk(s') <==> CleanUnstake(s, k, amount))
  {
    var next, i, w, removes := UnstakeShape(s, k, amount, at);
    UnstakeKeepsOrder(s, k, amount, at, now);
    LatestDistinct(s);
    var vs := LatestCommittee(s.state.value).validators;
    if removes {
      WithdrawRemoves(LatestReplay(s), vs, i, amount);
    } else {
      WithdrawModifies(LatestReplay(s), vs, i, w, amount);
    }
    WaitingReplay(s, next, Withdraw(amount), k, at, now);
  }

  /** With a minimum stake of at least one unit of power every accepted unstake is clean. */
  lemma MinStakeMakesClean(s: Subnet, k: Key, amount: nat, at: Place)
    requires s.genesis.minStake >= POWER_SCALE_FACTOR && ApplyUnstake(s, k, amount, at).Ok?
    ensures CleanUnstake(s, k, amount)
  {
  }

  // ---------------------------------------------------------------------
  // Join

  /** The log after a join that led to committee `next`. */
  function JoinLog(s: Subnet, v: Validator, next: Committee, at: Place): Log {
    var n := NextNumber(s);
    s.log[n := Record(s, Join, v.pubkey, n, next, at)]
         [n + 1 := Record(s, Deposit(v.collateral), v.pubkey, n + 1, next, at)]
  }

  function Joined(s: Subnet, v: Validator, next: Committee, at: Place): Subnet
    requires s.state.Some?
  {
    s.(state := Some(s.state.value.(waiting := Some(next))), log := JoinLog(s, v, next, at))
  }

  lemma JoinShape(s: Subnet, v: Validator, at: Place) returns (next: Committee)
    requires s.state.Some? && JoinAfter(s, v, at).Ok?
    ensures JoinAfter(s, v, at).value == Joined(s, v, next, at)
    ensures var latest := LatestCommittee(s.state.value);
      && JoinNewValidator(latest, s.id, v) == Ok(next)
      && next.validators == latest.validators + [v]
      && next.configurationNumber == latest.configurationNumber + 2
      && v.pubkey !in PubKeys(latest.validators)
  {
    next := JoinNewValidator(LatestCommittee(s.state.value), s.id, v).value;
  }

  lemma TwoAppended(log: Log, a: StakeChange, b: StakeChange, next: Committee)
    requires Numbered(log) && a.configurationNumber == |log| + 1 && b.configurationNumber == |log| + 2
    requires a.committeeAfter == b.committeeAfter == next && a.change.Join? && !b.change.Join?
    ensures var log' := log[|log| + 1 := a][|log| + 2 := b];
      Numbered(log') && |log'| == |log| + 2 && Grown(log, log', next)
  {
    AppendNumbered(log, a);
    AppendNumbered(log[|log| + 1 := a], b);
  }

  lemma JoinedLog(s: Subnet, v: Validator, next: Committee, at: Place, now: nat)
    requires LogOk(s, now) && now <= at.height
    ensures var log' := JoinLog(s, v, next, at);
      Numbered(log') && Ordered(log', at.height) && |log'| == |s.log| + 2 && Grown(s.log, log', next)
  {
    var n := NextNumber(s);
    var join, deposit := Record(s, Join, v.pubkey, n, next, at), Record(s, Deposit(v.collateral), v.pubkey, n + 1, next, at);
    TwoAppended(s.log, join, deposit, next);
    AppendNumbered(s.log, join);
    AppendOrdered(s.log, join, now, at.height);
    AppendOrdered(s.log[n := join], deposit, at.height, at.height);
  }

  /** A join and its deposit replay to one more row. */
  lemma JoinReplay(g: seq<Validator>, log: Log, a: StakeChange, b: StakeChange)
    requires Numbered(log) && a.configurationNumber == |log| + 1
    requires a.change == Join && b.change.Deposit? && b.validator !in Replay(g, log, |log|)
    ensures Replay(g, log[|log| + 1 := a][|log| + 2 := b], |log| + 2) == Replay(g, log, |log|)[b.validator := b.change.amount]
  {
    AppendNumbered(log, a);
    AppendReplay(g, log, a);
    AppendReplay(g, log[|log| + 1 := a], b);
  }

  lemma JoinedLatest(s: Subnet, v: Validator, next: Committee, at: Place, now: nat)
    requires LogOk(s, now) && now <= at.height
    requires next.configurationNumber == |s.log| + 2
    requires v.pubkey !in LatestReplay(s) && Describes(LatestReplay(s)[v.pubkey := v.collateral], next.validators)
    ensures LatestOk(s.genesis.validators, JoinLog(s, v, next, at), next)
  {
    var n := NextNumber(s);
    var join, deposit := Record(s, Join, v.pubkey, n, next, at), Record(s, Deposit(v.collateral), v.pubkey, n + 1, next, at);
    TwoAppended(s.log, join, deposit, next);
    JoinReplay(s.genesis.validators, s.log, join, deposit);
  }

  lemma JoinAfterReplay(s: Subnet, v: Validator, next: Committee, at: Place, now: nat)
    requires s.state.Some? && LogOk(s, now) && ReplayOk(s) && now <= at.height
    requires var latest := LatestCommittee(s.state.value);
      && next.validators == latest.validators + [v] && next.configurationNumber == latest.configurationNumber + 2
      && v.pubkey !in PubKeys(latest.validators)
    ensures ReplayOk(Joined(s, v, next, at))
  {
    var g, log' := s.genesis.validators, JoinLog(s, v, next, at);
    assert LatestOk(g, log', next) by {
      DescribesAppend(LatestReplay(s), LatestCommittee(s.state.value).validators, v);
      JoinedLatest(s, v, next, at, now);
    }
    assert Grown(s.log, log', next) by {
      JoinedLog(s, v, next, at, now);
    }
    GrownSnapshots(g, s.log, log', s.committees, s.state.value.committee, s.state.value.waiting, next);
  }

  lemma JoinCommittees(s: Subnet, v: Validator, next: Committee, at: Place)
    requires s.state.Some? && CommitteesOk(s)
    requires CollateralToPower(v.collateral, s.genesis.minStake) == Some(v.power)
    requires JoinNewValidator(LatestCommittee(s.state.value), s.id, v) == Ok(next)
    ensures CommitteesOk(Joined(s, v, next, at))
  {
    assert WellFormed(next, s.id, s.genesis.minStake) by {
      ChangesKeepWellFormed(LatestCommittee(s.state.value), s.id, s.genesis.minStake, v);
    }
    JoinedCommittees(s, v, next, at);
  }

  lemma JoinedCommittees(s: Subnet, v: Validator, next: Committee, at: Place)
    requires s.state.Some? && CommitteesOk(s) && WellFormed(next, s.id, s.genesis.minStake)
    ensures CommitteesOk(Joined(s, v, next, at))
  {
    assert EntriesWellFormed(JoinLog(s, v, next, at), s.id, s.genesis.minStake);
  }

  lemma JoinBeforeOrder(s: Subnet, v: Validator, at: Place, now: nat)
    requires s.state.None? && LogOk(s, now) && CommitteesOk(s) && now <= at.height
    requires CollateralToPower(v.collateral, s.genesis.minStake) == Some(v.power)
    requires JoinBefore(s, v, at).Ok?
    ensures LogOk(JoinBefore(s, v, at).value, at.height) && CommitteesOk(JoinBefore(s, v, at).value)
  {
    JoinBeforeLog(s, v, at, now);
    JoinBeforeCommittees(s, v, at);
  }

  lemma JoinBeforeLog(s: Subnet, v: Validator, at: Place, now: nat)
    requires LogOk(s, now) && now <= at.height && JoinBefore(s, v, at).Ok?
    ensures LogOk(JoinBefore(s, v, at).value, at.height)
  {
    LogLater(s, now, at.height);
    assert JoinBefore(s, v, at).value.log == s.log;
  }

  lemma JoinBeforeCommittees(s: Subnet, v: Validator, at: Place)
    requires s.state.None? && CommitteesOk(s)
    requires CollateralToPower(v.collateral, s.genesis.minStake) == Some(v.power)
    requires JoinBefore(s, v, at).Ok?
    ensures CommitteesOk(JoinBefore(s, v, at).value)
  {
    JoinKeepsGood(s.genesis.validators, v, s.genesis.minStake);
    BuildWellFormed(s.id, s.genesis.validators + [v], 0, s.genesis.minStake);
  }

  lemma JoinAfterOrder(s: Subnet, v: Validator, at: Place, now: nat)
    requires s.state.Some? && LogOk(s, now) && CommitteesOk(s) && now <= at.height
    requires CollateralToPower(v.collateral, s.genesis.minStake) == Some(v.power)
    requires JoinAfter(s, v, at).Ok?
    ensures LogOk(JoinAfter(s, v, at).value, at.height) && CommitteesOk(JoinAfter(s, v, at).value)
  {
    var next := JoinShape(s, v, at);
    JoinedLog(s, v, next, at, now);
    JoinCommittees(s, v, next, at);
  }

  /** Joining keeps the order of the log and the committees. */
  lemma JoinKeepsOrder(s: Subnet, k: Key, collateral: nat, at: Place, now: nat)
    requires LogOk(s, now) && CommitteesOk(s) && now <= at.height
    requires ApplyJoin(s, k, collateral, at).Ok?
    ensures var s' := ApplyJoin(s, k, collateral, at).value;
      LogOk(s', at.height) && CommitteesOk(s')
  {
    var v := Validator(k, CollateralToPower(collateral, s.genesis.minStake).value, collateral);
    if s.state.None? {
      JoinBeforeOrder(s, v, at, now);
    } else {
      JoinAfterOrder(s, v, at, now);
    }
  }

  lemma JoinBeforeReplay(s: Subnet, v: Validator, at: Place)
    requires s.state.None? && ReplayOk(s) && CommitteesOk(s)
    requires CollateralToPower(v.collateral, s.genesis.minStake) == Some(v.power)
    requires JoinBefore(s, v, at).Ok?
    ensures ReplayOk(JoinBefore(s, v, at).value)
  {
    var s', vs := JoinBefore(s, v, at).value, s.genesis.validators + [v];
    if s'.state.Some? {
      JoinKeepsGood(s.genesis.validators, v, s.genesis.minStake);
      GenesisDescribed(vs);
      assert SnapshotOk(vs, s'.log, s'.state.value.committee);
    }
  }

  lemma JoinKeeps(s: Subnet, k: Key, collateral: nat, at: Place, now: nat)
    requires LogOk(s, now) && ReplayOk(s) && CommitteesOk(s) && now <= at.height
    requires ApplyJoin(s, k, collateral, at).Ok?
    ensures var s' := ApplyJoin(s, k, collateral, at).value;
      LogOk(s', at.height) && ReplayOk(s') && CommitteesOk(s')
  {
    var v := Validator(k, CollateralToPower(collateral, s.genesis.minStake).value, collateral);
    JoinKeepsOrder(s, k, collateral, at, now);
    if s.state.None? {
      JoinBeforeReplay(s, v, at);
    } else {
      var next := JoinShape(s, v, at);
      JoinAfterReplay(s, v, next, at, now);
    }
  }
}

/**
 What every run keeps, whatever its messages: the log is numbered, append-only and
 confirmed as a prefix, every stored committee is well formed, slot k holds checkpoint
 record k and the table the committee in office, and kill requests of one validator lie
 apart. Only the order of heights is needed.
 */
module SubnetCore {
  import opened Outcomes
  import opened Listings
  import opened Multisig
  import opened Committees
  import opened Subnets
  import opened SubnetLog
  import opened SubnetSteps
  import opened SubnetChain
  import opened SubnetRotation
  import opened SubnetKill

  ghost predicate Core(s: Subnet, now: nat) {
    && LogOk(s, now)
    && CommitteesOk(s)
    && TablesOk(s, now)
    && KillsOk(s.kills, now)
    && MarkOk(s)
  }

  /** The rows a kill vote reads are those of the request table, in some order. */
  ghost predicate WellListed(s: Subnet, ev: Event) {
    ev.msg.KillMsg? ==> Lists(ev.msg.rows, s.kills.Keys)
  }

  lemma KillsLater(kills: Kills, now: nat, height: nat)
    requires KillsOk(kills, now) && now <= height
    ensures KillsOk(kills, height)
  {
  }

  lemma CoreLater(s: Subnet, now: nat, height: nat)
    requires Core(s, now) && now <= height
    ensures Core(s, height)
  {
    LogLater(s, now, height);
    TablesFrame(s, s, now, height);
    KillsLater(s.kills, now, height);
  }

  // ---------------------------------------------------------------------
  // What the messages leave alone. `s'` is the subnet after the message.

  /** A vote touches the requests and, in the state, only the two kill fields. */
  ghost predicate VoteShape(s: Subnet, s': Subnet) {
    && s.state.Some?
    && s' == s.(kills := s'.kills, state := s'.state)
    && s'.state.Some?
    && s'.state.value == s.state.value.(killed := s'.state.value.killed, marked := s'.state.value.marked)
  }

  lemma KillShape(s: Subnet, s': Subnet, k: Key, rows: seq<(nat, nat)>, at: Place)
    requires ApplyKill(s, k, rows, at) == Ok(s')
    ensures VoteShape(s, s')
  {
  }

  /** A stake change after bootstrap writes the log and the waiting committee, no more. */
  ghost predicate ChangeShape(s: Subnet, s': Subnet) {
    && s.state.Some? && s'.state.Some?
    && s' == s.(log := s'.log, state := s'.state)
    && s'.state.value == s.state.value.(waiting := s'.state.value.waiting)
  }

  lemma JoinChange(s: Subnet, s': Subnet, k: Key, c: nat, at: Place)
    requires s.state.Some? && ApplyJoin(s, k, c, at) == Ok(s')
    ensures ChangeShape(s, s')
  {
    var next := JoinShape(s, Validator(k, CollateralToPower(c, s.genesis.minStake).value, c), at);
  }

  lemma StakeChanges(s: Subnet, s': Subnet, k: Key, amount: nat, enough: bool, at: Place)
    requires ApplyStake(s, k, amount, enough, at) == Ok(s')
    ensures ChangeShape(s, s')
  {
    var next, i, w := StakeShape(s, k, amount, enough, at);
  }

  lemma UnstakeChanges(s: Subnet, s': Subnet, k: Key, amount: nat, at: Place)
    requires ApplyUnstake(s, k, amount, at) == Ok(s')
    ensures ChangeShape(s, s')
  {
    var next, i, w, removes := UnstakeShape(s, k, amount, at);
  }

  predicate IsChange(ev: Event) {
    ev.msg.JoinMsg? || ev.msg.StakeMsg? || ev.msg.UnstakeMsg?
  }

  lemma ChangesShape(s: Subnet, ev: Event)
    requires s.state.Some? && IsChange(ev) && Apply(s, ev).Ok?
    ensures ChangeShape(s, Step(s, ev))
  {
    var s', at := Apply(s, ev).value, ev.at;
    match ev.msg
    case JoinMsg(k, c) => JoinChange(s, s', k, c, at);
    case StakeMsg(k, a, enough) => StakeChanges(s, s', k, a, enough, at);
    case UnstakeMsg(k, a) => UnstakeChanges(s, s', k, a, at);
  }

  /** Before bootstrap only joins are accepted, and they leave the log and the requests alone. */
  lemma GenesisShape(s: Subnet, ev: Event)
    requires s.state.None? && Apply(s, ev).Ok?
    ensures ev.msg.JoinMsg? && Step(s, ev).log == s.log && Step(s, ev).kills == s.kills
    ensures Step(s, ev).genesis.minStake == s.genesis.minStake
  {
  }

  lemma CheckpointShape(s: Subnet, s': Subnet, n: nat, isKill: bool, at: Place)
    requires ApplyCheckpoint(s, n, isKill, at) == Ok(s')
    ensures s'.kills == s.kills && s'.genesis == s.genesis
  {
  }

  /** Only votes write requests. */
  lemma RequestsUntouched(s: Subnet, ev: Event)
    requires !ev.msg.KillMsg?
    ensures Step(s, ev).kills == s.kills
  {
    if Apply(s, ev).Ok? {
      if s.state.None? {
        GenesisShape(s, ev);
      } else if IsChange(ev) {
        ChangesShape(s, ev);
      } else if ev.msg.CheckpointMsg? {
        CheckpointShape(s, Step(s, ev), ev.msg.nextConfiguration, ev.msg.isKill, ev.at);
      }
    }
  }

  /** The genesis is settled by bootstrapping. */
  lemma GenesisSettled(s: Subnet, ev: Event)
    requires s.state.Some?
    ensures Step(s, ev).genesis == s.genesis
  {
    if Apply(s, ev).Ok? {
      if IsChange(ev) {
        ChangesShape(s, ev);
      } else if ev.msg.CheckpointMsg? {
        CheckpointShape(s, Step(s, ev), ev.msg.nextConfiguration, ev.msg.isKill, ev.at);
      } else if ev.msg.KillMsg? {
        KillShape(s, Step(s, ev), ev.msg.key, ev.msg.rows, ev.at);
      }
    }
  }

  /** `log'` is `log` with unconfirmed entries appended. */
  ghost predicate Appended(log: Log, log': Log) {
    && (forall k :: k in log ==> k in log' && log'[k] == log[k])
    && forall k :: k in log' && k !in log ==> k > |log| && log'[k].confirmed.None?
  }

  lemma JoinAppends(s: Subnet, s': Subnet, k: Key, c: nat, at: Place)
    requires s.state.Some? && Numbered(s.log) && ApplyJoin(s, k, c, at) == Ok(s')
    ensures Appended(s.log, s'.log)
  {
    var next := JoinShape(s, Validator(k, CollateralToPower(c, s.genesis.minStake).value, c), at);
  }

  lemma StakeAppends(s: Subnet, s': Subnet, k: Key, amount: nat, enough: bool, at: Place)
    requires Numbered(s.log) && ApplyStake(s, k, amount, enough, at) == Ok(s')
    ensures Appended(s.log, s'.log)
  {
    var next, i, w := StakeShape(s, k, amount, enough, at);
  }

  lemma UnstakeAppends(s: Subnet, s': Subnet, k: Key, amount: nat, at: Place)
    requires Numbered(s.log) && ApplyUnstake(s, k, amount, at) == Ok(s')
    ensures Appended(s.log, s'.log)
  {
    var next, i, w, removes := UnstakeShape(s, k, amount, at);
  }

  /** Messages other than checkpoints only append. */
  lemma StepAppends(s: Subnet, ev: Event)
    requires Numbered(s.log) && !ev.msg.CheckpointMsg?
    ensures Appended(s.log, Step(s, ev).log)
  {
    if Apply(s, ev).Ok? {
      var s', at := Apply(s, ev).value, ev.at;
      if s.state.None? {
        GenesisShape(s, ev);
      } else {
        match ev.msg
        case JoinMsg(k, c) => JoinAppends(s, s', k, c, at);
        case StakeMsg(k, a, enough) => StakeAppends(s, s', k, a, enough, at);
        case UnstakeMsg(k, a) => UnstakeAppends(s, s', k, a, at);
        case BatchMsg =>
        case KillMsg(k, rows) => KillShape(s, s', k, rows, at);
      }
    }
  }

  lemma CheckpointLogKept(s: Subnet, s': Subnet, n: nat, isKill: bool, at: Place)
    requires Numbered(s.log) && ApplyCheckpoint(s, n, isKill, at) == Ok(s')
    ensures LogKept(s.log, s'.log)
  {
    ConfirmExtends(s.log, n, at.height);
  }

  /** No message overwrites an entry or rewrites a confirmation. */
  lemma StepLogKept(s: Subnet, ev: Event)
    requires Numbered(s.log)
    ensures LogKept(s.log, Step(s, ev).log)
  {
    if !ev.msg.CheckpointMsg? {
      StepAppends(s, ev);
    } else if Apply(s, ev).Ok? {
      CheckpointLogKept(s, Step(s, ev), ev.msg.nextConfiguration, ev.msg.isKill, ev.at);
    }
  }

  // ---------------------------------------------------------------------
  // One step

  lemma BatchOrder(s: Subnet, s': Subnet, at: Place, now: nat)
    requires LogOk(s, now) && CommitteesOk(s) && now <= at.height && ApplyBatch(s, at) == Ok(s')
    ensures LogOk(s', at.height) && CommitteesOk(s')
  {
    LogLater(s, now, at.height);
  }

  lemma VoteOrder(s: Subnet, s': Subnet, now: nat, height: nat)
    requires LogOk(s, now) && CommitteesOk(s) && now <= height && VoteShape(s, s')
    ensures LogOk(s', height) && CommitteesOk(s')
  {
    LogLater(s, now, height);
  }

  /** The log and the committees stay in order. */
  lemma StepOrder(s: Subnet, ev: Event, now: nat)
    requires LogOk(s, now) && CommitteesOk(s) && now <= ev.at.height && Apply(s, ev).Ok?
    ensures LogOk(Step(s, ev), ev.at.height) && CommitteesOk(Step(s, ev))
  {
    var s', at := Apply(s, ev).value, ev.at;
    match ev.msg
    case JoinMsg(k, c) => JoinKeepsOrder(s, k, c, at, now);
    case StakeMsg(k, a, enough) => StakeKeepsOrder(s, k, a, enough, at, now);
    case UnstakeMsg(k, a) => UnstakeKeepsOrder(s, k, a, at, now);
    case CheckpointMsg(n, isKill) =>
      CheckpointLog(s, n, isKill, at, now);
      CheckpointCommittees(s, n, isKill, at);
    case BatchMsg => BatchOrder(s, s', at, now);
    case KillMsg(k, rows) =>
      KillShape(s, s', k, rows, at);
      VoteOrder(s, s', now, at.height);
  }

  lemma GenesisTables(s: Subnet, ev: Event, now: nat)
    requires s.state.None? && TablesOk(s, now) && Apply(s, ev).Ok?
    ensures TablesOk(Step(s, ev), ev.at.height) && LinksOk(Step(s, ev))
  {
    GenesisShape(s, ev);
    var k, c := ev.msg.key, ev.msg.collateral;
    BootstrapChain(s, Validator(k, CollateralToPower(c, s.genesis.minStake).value, c), ev.at, now);
  }

  /** Stake changes and votes leave the records and the committee table alone. */
  lemma RecordsUntouched(s: Subnet, ev: Event)
    requires s.state.Some? && Apply(s, ev).Ok? && !ev.msg.CheckpointMsg? && !ev.msg.BatchMsg?
    ensures SameRecords(s, Step(s, ev))
  {
    if ev.msg.KillMsg? {
      KillShape(s, Step(s, ev), ev.msg.key, ev.msg.rows, ev.at);
    } else {
      ChangesShape(s, ev);
    }
  }

  /** The slots and the committee table stay in order. */
  lemma StepTables(s: Subnet, ev: Event, now: nat)
    requires TablesOk(s, now) && now <= ev.at.height && Apply(s, ev).Ok?
    ensures TablesOk(Step(s, ev), ev.at.height)
  {
    if s.state.None? {
      GenesisTables(s, ev, now);
    } else if ev.msg.CheckpointMsg? {
      CheckpointKeepsTables(s, ev.msg.nextConfiguration, ev.msg.isKill, ev.at, now);
    } else if ev.msg.BatchMsg? {
      BatchKeepsRecords(s, ev.at, now);
    } else {
      RecordsUntouched(s, ev);
      TablesFrame(s, Step(s, ev), now, ev.at.height);
    }
  }

  lemma StepRequests(s: Subnet, ev: Event, now: nat)
    requires KillsOk(s.kills, now) && now <= ev.at.height && WellListed(s, ev) && Apply(s, ev).Ok?
    ensures KillsOk(Step(s, ev).kills, ev.at.height)
  {
    if ev.msg.KillMsg? {
      KillKeepsRequests(s, ev.msg.key, ev.msg.rows, ev.at, now);
    } else {
      RequestsUntouched(s, ev);
      KillsLater(s.kills, now, ev.at.height);
    }
  }

  /** Every message, benign or not, accepted or not, keeps the core. */
  lemma StepKeepsCore(s: Subnet, ev: Event, now: nat)
    requires Core(s, now) && now <= ev.at.height && WellListed(s, ev)
    ensures Core(Step(s, ev), ev.at.height)
  {
    if Apply(s, ev).Ok? {
      StepOrder(s, ev, now);
      StepTables(s, ev, now);
      StepRequests(s, ev, now);
      StepKeepsMark(s, ev);
    } else {
      CoreLater(s, now, ev.at.height);
    }
  }

  // ---------------------------------------------------------------------
  // Runs

  /** Heights never fall. */
  ghost predicate OrderedRun(s: Subnet, evs: seq<Event>, now: nat)
    decreases |evs|
  {
    evs == [] ||
    (&& now <= evs[0].at.height
     && WellListed(s, evs[0])
     && OrderedRun(Step(s, evs[0]), evs[1..], evs[0].at.height))
  }

  function LastHeight(evs: seq<Event>, now: nat): nat {
    if evs == [] then now else evs[|evs| - 1].at.height
  }

  lemma LastHeightTail(evs: seq<Event>, now: nat)
    requires evs != []
    ensures LastHeight(evs[1..], evs[0].at.height) == LastHeight(evs, now)
  {
  }

  /** Over any run the core is kept, no entry is overwritten and no confirmation is rewritten. */
  lemma {:induction false} RunsKeepCore(s: Subnet, evs: seq<Event>, now: nat)
    requires Core(s, now) && OrderedRun(s, evs, now)
    ensures Core(Run(s, evs), LastHeight(evs, now)) && LogKept(s.log, Run(s, evs).log)
    decreases |evs|
  {
    if evs != [] {
      var s' := Step(s, evs[0]);
      StepKeepsCore(s, evs[0], now);
      StepLogKept(s, evs[0]);
      LastHeightTail(evs, now);
      RunsKeepCore(s', evs[1..], evs[0].at.height);
      KeptTwice(s.log, s'.log, Run(s', evs[1..]).log);
    }
  }

  lemma {:induction false} RunConcat(s: Subnet, a: seq<Event>, b: seq<Event>)
    ensures Run(s, a + b) == Run(Run(s, a), b)
    decreases |a|
  {
    if a == [] {
      assert a + b == b;
    } else {
      assert (a + b)[1..] == a[1..] + b;
      RunConcat(Step(s, a[0]), a[1..], b);
    }
  }

  lemma CreatedCore(id: SubnetId, minStake: nat, minValidators: nat, whitelist: set<Key>)
    ensures Core(Created(id, minStake, minValidators, whitelist), 0)
  {
  }

  /**
   Every reachable state: after any run from creation whose heights never fall, and
   after any continuation of it, the log is numbered 1..n with a confirmed prefix and
   heights that never fall, every committee is well formed, slot k holds record k for
   every k up to the last and names a stored committee one number up at most, the table
   holds the committee in office, kill requests of one validator lie more than their
   validity apart, and the earlier log is still there.
   */
  lemma EveryReachableSubnet(created: Subnet, evs: seq<Event>, later: seq<Event>)
    requires created == Created(created.id, created.genesis.minStake, created.genesis.minValidators, created.genesis.whitelist)
    requires OrderedRun(created, evs, 0) && OrderedRun(Run(created, evs), later, LastHeight(evs, 0))
    ensures Core(Run(created, evs + later), LastHeight(later, LastHeight(evs, 0)))
    ensures LogKept(Run(created, evs).log, Run(created, evs + later).log)
  {
    CreatedCore(created.id, created.genesis.minStake, created.genesis.minValidators, created.genesis.whitelist);
    RunsKeepCore(created, evs, 0);
    RunsKeepCore(Run(created, evs), later, LastHeight(evs, 0));
    RunConcat(created, evs, later);
  }
}

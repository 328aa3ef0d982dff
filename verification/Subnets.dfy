/**
 The life of one subnet: bootstrap, stake changes recorded in a numbered log,
 checkpoints that rotate the committee and confirm the log, batches, kill votes.

 A subnet is its rows in the database tables. Each operation returns the subnet
 after an accepted message, or the reason it is refused.
 */
module Subnets {
  import opened Outcomes
  import opened Multisig
  import opened Committees

  const KILL_REQUEST_VALID_BLOCKS: nat := 36
  const KILL_PERIOD_NUMBER_OF_CHECKPOINTS: nat := 5

  datatype KillState = NotKilled | ToBeKilled | Killed(parentHeight: nat)

  datatype SubnetState = SubnetState(
    committeeNumber: nat,
    committee: Committee,
    waiting: Option<Committee>,
    lastCheckpoint: Option<nat>,
    killed: KillState,
    marked: Option<nat>)

  datatype StakingChange = Join | Deposit(amount: nat) | Withdraw(amount: nat)

  datatype StakeChange = StakeChange(
    change: StakingChange,
    validator: Key,
    configurationNumber: nat,
    committeeAfter: Committee,
    blockHeight: nat,
    confirmed: Option<nat>)

  datatype Checkpoint = Checkpoint(
    number: nat,
    blockHeight: nat,
    txid: nat,
    batchTxid: Option<nat>,
    signedCommittee: nat,
    nextCommittee: nat,
    nextConfiguration: nat,
    isKill: bool)

  datatype KillRequest = KillRequest(validator: Key, blockHeight: nat)

  datatype Genesis = Genesis(
    minStake: nat,
    minValidators: nat,
    whitelist: set<Key>,
    validators: seq<Validator>,
    height: Option<nat>)

  datatype Subnet = Subnet(
    id: SubnetId,
    genesis: Genesis,
    state: Option<SubnetState>,
    log: map<nat, StakeChange>,
    committees: map<nat, Committee>,
    checkpoints: map<nat, Checkpoint>,
    kills: map<(nat, nat), KillRequest>)

  datatype SubnetError =
    | ZeroAmount
    | BelowMinimum
    | NotWhitelisted
    | AlreadyRegistered
    | NotBootstrapped
    | KilledOrPending
    | UnknownValidator
    | IncreaseTooSmall
    | AmountTooLarge
    | MustUnstakeAll
    | StaleConfiguration
    | NoSuchChange
    | NoCheckpoint
    | AlreadyVoted
    | CommitteeFailed(error: CommitteeError)

  /** Where on Bitcoin a message was found. */
  datatype Place = Place(height: nat, txid: nat)

  function LatestCommittee(st: SubnetState): Committee {
    if st.waiting.Some? then st.waiting.value else st.committee
  }

  predicate KilledOrMarked(st: SubnetState) {
    st.killed != NotKilled
  }

  /** `should_kill`; the subtraction is on unsigned numbers in the source. */
  predicate ShouldKill(st: SubnetState) {
    && st.killed == ToBeKilled
    && st.lastCheckpoint.Some?
    && if st.marked.Some? then st.lastCheckpoint.value - st.marked.value >= KILL_PERIOD_NUMBER_OF_CHECKPOINTS
       else st.lastCheckpoint.value + 1 >= KILL_PERIOD_NUMBER_OF_CHECKPOINTS
  }

  // ---------------------------------------------------------------------
  // Join

  function ToSubnet(s: Subnet, vs: seq<Validator>): Result<SubnetState, CommitteeError> {
    var c := Build(s.id, vs, 0);
    if c.Err? then Err(c.error) else Ok(SubnetState(1, c.value, None, None, NotKilled, None))
  }

  function JoinBefore(s: Subnet, v: Validator, at: Place): Result<Subnet, SubnetError> {
    if v.pubkey !in s.genesis.whitelist then Err(NotWhitelisted)
    else if Position(s.genesis.validators, v.pubkey).Some? then Err(AlreadyRegistered)
    else
      var vs := s.genesis.validators + [v];
      if |vs| % 0x1_0000 >= s.genesis.minValidators then
        var st := ToSubnet(s, vs);
        if st.Err? then Err(CommitteeFailed(st.error))
        else Ok(s.(genesis := s.genesis.(validators := vs, height := Some(at.height)),
                   state := Some(st.value),
                   committees := s.committees[1 := st.value.committee]))
      else Ok(s.(genesis := s.genesis.(validators := vs)))
  }

  function NextNumber(s: Subnet): nat {
    |s.log| + 1
  }

  function Record(s: Subnet, change: StakingChange, k: Key, n: nat, after: Committee, at: Place): StakeChange {
    StakeChange(change, k, n, after, at.height, None)
  }

  function JoinAfter(s: Subnet, v: Validator, at: Place): Result<Subnet, SubnetError>
    requires s.state.Some?
  {
    var st := s.state.value;
    if KilledOrMarked(st) then Err(KilledOrPending)
    else if IsValidator(st.committee, v.pubkey) || IsValidator(LatestCommittee(st), v.pubkey) then Err(AlreadyRegistered)
    else
      var next := JoinNewValidator(LatestCommittee(st), s.id, v);
      if next.Err? then Err(CommitteeFailed(next.error))
      else
        var n := NextNumber(s);
        Ok(s.(state := Some(st.(waiting := Some(next.value))),
              log := s.log[n := Record(s, Join, v.pubkey, n, next.value, at)]
                          [n + 1 := Record(s, Deposit(v.collateral), v.pubkey, n + 1, next.value, at)]))
  }

  function ApplyJoin(s: Subnet, k: Key, collateral: nat, at: Place): Result<Subnet, SubnetError> {
    if collateral == 0 then Err(ZeroAmount)
    else
      var power := CollateralToPower(collateral, s.genesis.minStake);
      if power.None? then Err(BelowMinimum)
      else
        var v := Validator(k, power.value, collateral);
        if s.state.None? then JoinBefore(s, v, at) else JoinAfter(s, v, at)
  }

  // ---------------------------------------------------------------------
  // Stake and unstake

  /** Makes `next` the waiting committee and logs the change that led to it. */
  function Waiting(s: Subnet, next: Committee, change: StakingChange, k: Key, at: Place): Subnet
    requires s.state.Some?
  {
    var n := NextNumber(s);
    s.(state := Some(s.state.value.(waiting := Some(next))), log := s.log[n := Record(s, change, k, n, next, at)])
  }

  /** `enough` is the verdict of the five-percent check, which is floating point. */
  function ApplyStake(s: Subnet, k: Key, amount: nat, enough: bool, at: Place): Result<Subnet, SubnetError> {
    if amount == 0 then Err(ZeroAmount)
    else if s.state.None? then Err(NotBootstrapped)
    else
      var st := s.state.value;
      if KilledOrMarked(st) then Err(KilledOrPending)
      else
        var latest := LatestCommittee(st);
        var p := Position(latest.validators, k);
        if p.None? then Err(UnknownValidator)
        else if !enough then Err(IncreaseTooSmall)
        else
          var v := latest.validators[p.value];
          var power := CollateralToPower(v.collateral + amount, s.genesis.minStake);
          if power.None? then Err(BelowMinimum)
          else
            var next := ModifyValidator(latest, s.id, v.(collateral := v.collateral + amount, power := power.value));
            if next.Err? then Err(CommitteeFailed(next.error)) else Ok(Waiting(s, next.value, Deposit(amount), k, at))
  }

  function TotalCollateral(vs: seq<Validator>): nat {
    if vs == [] then 0 else vs[0].collateral + TotalCollateral(vs[1..])
  }

  /** The committee after unstaking: modified, or without the validator when no power is left. */
  function Unstaked(s: Subnet, latest: Committee, v: Validator, left: nat): Result<Committee, CommitteeError> {
    var power := CollateralToPower(left, s.genesis.minStake);
    if power.None? || power.value == 0 then RemoveValidator(latest, s.id, v.pubkey)
    else ModifyValidator(latest, s.id, v.(collateral := left, power := power.value))
  }

  function ApplyUnstake(s: Subnet, k: Key, amount: nat, at: Place): Result<Subnet, SubnetError> {
    if amount == 0 then Err(ZeroAmount)
    else if s.state.None? then Err(NotBootstrapped)
    else
      var st := s.state.value;
      if KilledOrMarked(st) then Err(KilledOrPending)
      else
        var latest := LatestCommittee(st);
        var p := Position(latest.validators, k);
        if p.None? then Err(UnknownValidator)
        else if amount > TotalCollateral(st.committee.validators) then Err(AmountTooLarge)
        else
          var v := latest.validators[p.value];
          if amount > v.collateral then Err(AmountTooLarge)
          else if CollateralToPower(v.collateral - amount, s.genesis.minStake).None? && amount != v.collateral then Err(MustUnstakeAll)
          else
            var next := Unstaked(s, latest, v, v.collateral - amount);
            if next.Err? then Err(CommitteeFailed(next.error)) else Ok(Waiting(s, next.value, Withdraw(amount), k, at))
  }

  // ---------------------------------------------------------------------
  // Checkpoints

  /** `rotate_to_committee`: committees are compared by address alone. */
  function Rotate(st: SubnetState, c: Committee): SubnetState {
    if st.committee.address == c.address then st
    else
      st.(waiting := if st.waiting.Some? && st.waiting.value.address == c.address then None else st.waiting,
          committee := c,
          committeeNumber := st.committeeNumber + 1)
  }

  /** `confirm_stake_changes`. */
  function ConfirmUpTo(log: map<nat, StakeChange>, max: nat, height: nat): map<nat, StakeChange> {
    map n | n in log ::
      if log[n].confirmed.None? && log[n].configurationNumber <= max then log[n].(confirmed := Some(height)) else log[n]
  }

  function NextCheckpoint(st: SubnetState): nat {
    if st.lastCheckpoint.Some? then st.lastCheckpoint.value + 1 else 0
  }

  /** A checkpoint without a configuration number, or with the current one, does not rotate. */
  predicate Rotates(st: SubnetState, nextConf: nat) {
    nextConf != 0 && nextConf != st.committee.configurationNumber
  }

  function Recorded(st: SubnetState, nextConf: nat, isKill: bool, at: Place): Checkpoint {
    var rotates := Rotates(st, nextConf);
    Checkpoint(NextCheckpoint(st), at.height, at.txid, None, st.committeeNumber,
               if rotates then st.committeeNumber + 1 else st.committeeNumber,
               if rotates then nextConf else st.committee.configurationNumber,
               isKill)
  }

  function Checkpointed(st: SubnetState, isKill: bool, at: Place): SubnetState {
    st.(lastCheckpoint := Some(NextCheckpoint(st)), killed := if isKill then Killed(at.height) else st.killed)
  }

  function ApplyCheckpoint(s: Subnet, nextConf: nat, isKill: bool, at: Place): Result<Subnet, SubnetError> {
    if s.state.None? then Err(NotBootstrapped)
    else
      var st := s.state.value;
      var record := Recorded(st, nextConf, isKill, at);
      var slot := s.checkpoints[record.number := record];
      if !Rotates(st, nextConf) then
        Ok(s.(state := Some(Checkpointed(st, isKill, at)), checkpoints := slot))
      else if nextConf < st.committee.configurationNumber then Err(StaleConfiguration)
      else if nextConf !in s.log then Err(NoSuchChange)
      else
        var target := s.log[nextConf].committeeAfter;
        Ok(s.(state := Some(Checkpointed(Rotate(st, target), isKill, at)),
              checkpoints := slot,
              committees := s.committees[st.committeeNumber + 1 := target],
              log := ConfirmUpTo(s.log, nextConf, at.height)))
  }

  /** The checkpoint row a batch writes: the last record, but in the slot after it. */
  function ApplyBatch(s: Subnet, at: Place): Result<Subnet, SubnetError> {
    if s.state.None? then Err(NotBootstrapped)
    else if s.state.value.lastCheckpoint.None? || s.state.value.lastCheckpoint.value !in s.checkpoints then Err(NoCheckpoint)
    else
      var last := s.state.value.lastCheckpoint.value;
      Ok(s.(checkpoints := s.checkpoints[last + 1 := s.checkpoints[last].(batchTxid := Some(at.txid))]))
  }

  // ---------------------------------------------------------------------
  // Kill votes

  /** A request still counts at `height`. */
  predicate StillValid(r: KillRequest, height: nat) {
    r.blockHeight >= if height >= KILL_REQUEST_VALID_BLOCKS then height - KILL_REQUEST_VALID_BLOCKS else 0
  }

  /** The valid requests, in the order in which the table lists its rows. */
  function ValidRequests(kills: map<(nat, nat), KillRequest>, rows: seq<(nat, nat)>, height: nat): seq<KillRequest> {
    if rows == [] then []
    else
      (if rows[0] in kills && StillValid(kills[rows[0]], height) then [kills[rows[0]]] else [])
      + ValidRequests(kills, rows[1..], height)
  }

  function PowerOfKey(vs: seq<Validator>, k: Key): nat {
    var p := Position(vs, k);
    if p.Some? then vs[p.value].power else 0
  }

  function Tally(vs: seq<Validator>, reqs: seq<KillRequest>): nat {
    if reqs == [] then 0 else PowerOfKey(vs, reqs[0].validator) + Tally(vs, reqs[1..])
  }

  predicate HasVoted(reqs: seq<KillRequest>, k: Key) {
    exists i :: 0 <= i < |reqs| && reqs[i].validator == k
  }

  /** `IpcKillSubnetMsg::save_to_db`, the request table being listed as `rows`. */
  function ApplyKill(s: Subnet, k: Key, rows: seq<(nat, nat)>, at: Place): Result<Subnet, SubnetError> {
    if s.state.None? then Err(NotBootstrapped)
    else
      var st := s.state.value;
      var vs := LatestCommittee(st).validators;
      var earlier := ValidRequests(s.kills, rows, at.height);
      var request := KillRequest(k, at.height);
      if Position(vs, k).None? then Err(UnknownValidator)
      else if HasVoted(earlier, k) then Err(AlreadyVoted)
      else
        var kills := s.kills[(at.height, at.txid) := request];
        if Tally(vs, earlier + [request]) >= Threshold(Total(vs)) && st.killed == NotKilled then
          Ok(s.(kills := kills, state := Some(st.(killed := ToBeKilled, marked := if st.lastCheckpoint.Some? then st.lastCheckpoint else st.marked))))
        else Ok(s.(kills := kills))
  }

  // ---------------------------------------------------------------------
  // Runs

  datatype Msg =
    | JoinMsg(key: Key, collateral: nat)
    | StakeMsg(key: Key, amount: nat, enough: bool)
    | UnstakeMsg(key: Key, amount: nat)
    | CheckpointMsg(nextConfiguration: nat, isKill: bool)
    | BatchMsg
    | KillMsg(key: Key, rows: seq<(nat, nat)>)

  datatype Event = Event(at: Place, msg: Msg)

  function Apply(s: Subnet, ev: Event): Result<Subnet, SubnetError> {
    match ev.msg
    case JoinMsg(k, c) => ApplyJoin(s, k, c, ev.at)
    case StakeMsg(k, a, enough) => ApplyStake(s, k, a, enough, ev.at)
    case UnstakeMsg(k, a) => ApplyUnstake(s, k, a, ev.at)
    case CheckpointMsg(n, isKill) => ApplyCheckpoint(s, n, isKill, ev.at)
    case BatchMsg => ApplyBatch(s, ev.at)
    case KillMsg(k, rows) => ApplyKill(s, k, rows, ev.at)
  }

  /** A refused message changes nothing. */
  function Step(s: Subnet, ev: Event): Subnet {
    var r := Apply(s, ev);
    if r.Ok? then r.value else s
  }

  function Run(s: Subnet, evs: seq<Event>): Subnet
    decreases |evs|
  {
    if evs == [] then s else Run(Step(s, evs[0]), evs[1..])
  }

  /** A subnet right after it was created. */
  function Created(id: SubnetId, minStake: nat, minValidators: nat, whitelist: set<Key>): Subnet {
    Subnet(id, Genesis(minStake, minValidators, whitelist, [], None), None, map[], map[], map[], map[])
  }
}

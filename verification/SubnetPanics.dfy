/**
 Where the source panics. A committee without power has no multisig script, and the
 source expects one: a message that passes every check and would leave no power does
 not return an error, it aborts the monitor. The model has the refusal `NoPower` there.
 */
module SubnetPanics {
  import opened Outcomes
  import opened Listings
  import opened Multisig
  import opened Committees
  import opened Subnets
  import opened SubnetLog
  import opened SubnetCore

  predicate Panics(s: Subnet, ev: Event) {
    Apply(s, ev) == Err(CommitteeFailed(NoPower))
  }

  predicate Live(s: Subnet) {
    s.state.Some? && !KilledOrMarked(s.state.value)
  }

  /** What joining would make of the committee, if nothing else is wrong with the message. */
  function JoinRebuilds(s: Subnet, k: Key, c: nat): Option<seq<Validator>> {
    var power := CollateralToPower(c, s.genesis.minStake);
    if c == 0 || power.None? then None
    else if s.state.None? then
      var vs := s.genesis.validators + [Validator(k, power.value, c)];
      if k in s.genesis.whitelist && Position(s.genesis.validators, k).None? && |vs| % 0x1_0000 >= s.genesis.minValidators
      then Some(vs) else None
    else if Live(s) && !IsValidator(s.state.value.committee, k) && !IsValidator(LatestCommittee(s.state.value), k)
    then Some(LatestCommittee(s.state.value).validators + [Validator(k, power.value, c)])
    else None
  }

  function StakeRebuilds(s: Subnet, k: Key, amount: nat, enough: bool): Option<seq<Validator>> {
    if amount == 0 || !Live(s) || !enough then None
    else
      var vs := LatestCommittee(s.state.value).validators;
      var p := Position(vs, k);
      if p.None? then None
      else
        var power := CollateralToPower(vs[p.value].collateral + amount, s.genesis.minStake);
        if power.None? then None else Some(vs[p.value := Validator(k, power.value, vs[p.value].collateral + amount)])
  }

  function UnstakeRebuilds(s: Subnet, k: Key, amount: nat): Option<seq<Validator>> {
    if amount == 0 || !Live(s) then None
    else
      var vs := LatestCommittee(s.state.value).validators;
      var p := Position(vs, k);
      if p.None? || amount > TotalCollateral(s.state.value.committee.validators) || amount > vs[p.value].collateral then None
      else
        var left := vs[p.value].collateral - amount;
        var power := CollateralToPower(left, s.genesis.minStake);
        if power.None? && left > 0 then None
        else if power.None? || power.value == 0 then Some(Without(vs, p.value))
        else Some(vs[p.value := Validator(k, power.value, left)])
  }

  /** The validators whose script a message makes the source compile, if it passes every check before. */
  function Rebuilds(s: Subnet, ev: Event): Option<seq<Validator>> {
    match ev.msg
    case JoinMsg(k, c) => JoinRebuilds(s, k, c)
    case StakeMsg(k, a, enough) => StakeRebuilds(s, k, a, enough)
    case UnstakeMsg(k, a) => UnstakeRebuilds(s, k, a)
    case _ => None
  }

  lemma BuildFails(id: SubnetId, vs: seq<Validator>, conf: nat)
    ensures Build(id, vs, conf).Err? <==> Total(vs) == 0
    ensures Build(id, vs, conf).Err? ==> Build(id, vs, conf) == Err(NoPower)
  {
    AddressNeedsPower(id, vs);
  }

  /** The verdict on a message that rebuilds `vs`, or nothing. */
  ghost predicate Verdict(r: Result<Subnet, SubnetError>, rebuilt: Option<seq<Validator>>) {
    && (r == Err(CommitteeFailed(NoPower)) <==> rebuilt.Some? && Total(rebuilt.value) == 0)
    && (rebuilt.Some? && Total(rebuilt.value) > 0 ==> r.Ok?)
    && (r.Err? && r.error.CommitteeFailed? ==> r.error.error == NoPower)
  }

  lemma JoinVerdict(s: Subnet, k: Key, c: nat, at: Place)
    ensures Verdict(ApplyJoin(s, k, c, at), JoinRebuilds(s, k, c))
  {
    var rebuilt := JoinRebuilds(s, k, c);
    if rebuilt.Some? {
      BuildFails(s.id, rebuilt.value, if s.state.None? then 0 else LatestCommittee(s.state.value).configurationNumber + 2);
    }
  }

  lemma StakeVerdict(s: Subnet, k: Key, amount: nat, enough: bool, at: Place)
    ensures Verdict(ApplyStake(s, k, amount, enough, at), StakeRebuilds(s, k, amount, enough))
  {
    var rebuilt := StakeRebuilds(s, k, amount, enough);
    if rebuilt.Some? {
      BuildFails(s.id, rebuilt.value, LatestCommittee(s.state.value).configurationNumber + 1);
    }
  }

  lemma UnstakeVerdict(s: Subnet, k: Key, amount: nat, at: Place)
    ensures Verdict(ApplyUnstake(s, k, amount, at), UnstakeRebuilds(s, k, amount))
  {
    var rebuilt := UnstakeRebuilds(s, k, amount);
    if rebuilt.Some? {
      BuildFails(s.id, rebuilt.value, LatestCommittee(s.state.value).configurationNumber + 1);
    }
  }

  /**
   A message panics if and only if it passes every check and the committee it would
   lead to has no power; nothing else can go wrong once the checks are passed.
   */
  lemma PanicsExactly(s: Subnet, ev: Event)
    ensures Panics(s, ev) <==> Rebuilds(s, ev).Some? && Total(Rebuilds(s, ev).value) == 0
    ensures Rebuilds(s, ev).Some? && Total(Rebuilds(s, ev).value) > 0 ==> Apply(s, ev).Ok?
  {
    match ev.msg
    case JoinMsg(k, c) => JoinVerdict(s, k, c, ev.at);
    case StakeMsg(k, a, enough) => StakeVerdict(s, k, a, enough, ev.at);
    case UnstakeMsg(k, a) => UnstakeVerdict(s, k, a, ev.at);
    case CheckpointMsg(_, _) =>
    case BatchMsg =>
    case KillMsg(_, _) =>
  }

  // ---------------------------------------------------------------------
  // With the usual minimum stake

  /** The only member of the latest committee takes out everything it has. */
  predicate LastMemberLeaves(s: Subnet, ev: Event) {
    && ev.msg.UnstakeMsg?
    && Live(s)
    && var vs := LatestCommittee(s.state.value).validators;
       && |vs| == 1 && vs[0].pubkey == ev.msg.key && vs[0].collateral == ev.msg.amount
       && 0 < ev.msg.amount <= TotalCollateral(s.state.value.committee.validators)
  }

  lemma {:induction false} TotalPositive(vs: seq<Validator>)
    requires forall v :: v in vs ==> v.power >= 1
    ensures Total(vs) >= |vs|
  {
    if vs != [] {
      assert vs[0] in vs;
      TotalPositive(vs[1..]);
    }
  }

  /** Members that meet a minimum of one unit all have power. */
  lemma MembersHavePower(vs: seq<Validator>, minStake: nat)
    requires GoodValidators(vs, minStake) && minStake >= POWER_SCALE_FACTOR
    ensures forall v :: v in vs ==> v.power >= 1
    ensures Total(vs) >= |vs|
  {
    forall v | v in vs
      ensures v.power >= 1
    {
      assert CollateralToPower(v.collateral, minStake) == Some(v.power);
    }
    TotalPositive(vs);
  }

  lemma JoinLeavesPower(s: Subnet, k: Key, c: nat)
    requires CommitteesOk(s) && s.genesis.minStake >= POWER_SCALE_FACTOR && JoinRebuilds(s, k, c).Some?
    ensures Total(JoinRebuilds(s, k, c).value) > 0
  {
    var members := if s.state.None? then s.genesis.validators else LatestCommittee(s.state.value).validators;
    MembersHavePower(members, s.genesis.minStake);
    TotalPositive(JoinRebuilds(s, k, c).value);
  }

  lemma StakeLeavesPower(s: Subnet, k: Key, amount: nat, enough: bool)
    requires CommitteesOk(s) && s.genesis.minStake >= POWER_SCALE_FACTOR && StakeRebuilds(s, k, amount, enough).Some?
    ensures Total(StakeRebuilds(s, k, amount, enough).value) > 0
  {
    MembersHavePower(LatestCommittee(s.state.value).validators, s.genesis.minStake);
    TotalPositive(StakeRebuilds(s, k, amount, enough).value);
  }

  lemma UnstakeLeavesPower(s: Subnet, ev: Event)
    requires CommitteesOk(s) && s.genesis.minStake >= POWER_SCALE_FACTOR && ev.msg.UnstakeMsg?
    requires Rebuilds(s, ev).Some?
    ensures Total(Rebuilds(s, ev).value) == 0 <==> LastMemberLeaves(s, ev)
  {
    var vs, rebuilt := LatestCommittee(s.state.value).validators, Rebuilds(s, ev).value;
    MembersHavePower(vs, s.genesis.minStake);
    assert vs[Position(vs, ev.msg.key).value] in vs;
    TotalPositive(rebuilt);
  }

  /**
   In every reachable subnet with a minimum stake of one unit of power, the one message
   that panics is the last member of the latest committee taking out all it has.
   */
  lemma OnlyTheLastMemberPanics(s: Subnet, ev: Event, now: nat)
    requires Core(s, now) && s.genesis.minStake >= POWER_SCALE_FACTOR
    ensures Panics(s, ev) <==> LastMemberLeaves(s, ev)
  {
    PanicsExactly(s, ev);
    if Rebuilds(s, ev).Some? {
      match ev.msg
      case JoinMsg(k, c) => JoinLeavesPower(s, k, c);
      case StakeMsg(k, a, enough) => StakeLeavesPower(s, k, a, enough);
      case UnstakeMsg(_, _) => UnstakeLeavesPower(s, ev);
    } else if LastMemberLeaves(s, ev) {
      LastMemberPasses(s, ev);
    }
  }

  lemma LastMemberPasses(s: Subnet, ev: Event)
    requires LastMemberLeaves(s, ev)
    ensures Rebuilds(s, ev).Some?
  {
  }
}

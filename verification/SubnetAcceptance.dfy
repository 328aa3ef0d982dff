/**
 When each message to a subnet is accepted, and what it writes, said of the rows of the
 tables before and after: which members, which heights, which numbers.
 */
module SubnetAcceptance {
  import opened Outcomes
  import opened Listings
  import opened Multisig
  import opened Committees
  import opened Subnets
  import opened SubnetLog
  import opened SubnetKill
  import opened SubnetCore
  import Ledger

  function CollateralOf(): Validator -> int {
    (v: Validator) => v.collateral
  }

  lemma {:induction false} TotalCollateralIsSum(vs: seq<Validator>)
    ensures TotalCollateral(vs) == Sum(vs, CollateralOf())
  {
    if vs != [] {
      TotalCollateralIsSum(vs[1..]);
    }
  }

  /** One unit per 10,000 satoshis, of at most 2^32 - 1 satoshis. */
  function PowerFor(collateral: nat): Power {
    (if collateral < 4_294_967_296 then collateral else 4_294_967_295) / 10_000
  }

  /** A committee of these validators, with the threshold and the address that they need. */
  ghost predicate Stands(c: Committee, id: SubnetId, vs: seq<Validator>, number: nat) {
    && c.validators == vs
    && c.configurationNumber == number
    && 3 * (c.threshold - 1) <= 2 * Total(vs) < 3 * c.threshold
    && AddressOf(id, vs) == Some(c.address)
  }

  /** It exists exactly when there is power. */
  lemma BuildStands(id: SubnetId, vs: seq<Validator>, number: nat)
    ensures Build(id, vs, number).Ok? <==> Total(vs) > 0
    ensures Build(id, vs, number).Ok? ==> Stands(Build(id, vs, number).value, id, vs, number)
  {
    AddressNeedsPower(id, vs);
  }

  lemma MemberHasPosition(vs: seq<Validator>, k: Key)
    ensures Position(vs, k).Some? <==> HasMember(vs, k)
  {
    if Position(vs, k).Some? {
      assert vs[Position(vs, k).value] in vs;
    }
  }

  /** The member with this key, of which there is one. */
  lemma MemberAt(vs: seq<Validator>, v: Validator)
    requires DistinctValidators(vs) && v in vs
    ensures Position(vs, v.pubkey).Some? && vs[Position(vs, v.pubkey).value] == v
  {
    var i :| 0 <= i < |vs| && vs[i] == v;
  }

  lemma {:induction false} TotalConcat(a: seq<Validator>, b: seq<Validator>)
    ensures Total(a + b) == Total(a) + Total(b)
  {
    if a == [] {
      assert a + b == b;
    } else {
      assert (a + b)[1..] == a[1..] + b;
      TotalConcat(a[1..], b);
    }
  }

  lemma TotalWith(vs: seq<Validator>, v: Validator)
    ensures Total(vs + [v]) == Total(vs) + v.power
  {
    TotalConcat(vs, [v]);
    assert Total([v]) == v.power + Total([v][1..]);
  }

  // ---------------------------------------------------------------------
  // Joining before bootstrap

  predicate Bootstraps(s: Subnet) {
    (|s.genesis.validators| + 1) % 65536 >= s.genesis.minValidators
  }

  ghost predicate GenesisJoinWritten(s: Subnet, s': Subnet, v: Validator, at: Place) {
    var vs := s.genesis.validators + [v];
    if Bootstraps(s) then
      && s'.state.Some?
      && var st := s'.state.value;
         && Stands(st.committee, s.id, vs, 0)
         && st == SubnetState(1, st.committee, None, None, NotKilled, None)
         && s' == s.(genesis := s.genesis.(validators := vs, height := Some(at.height)), state := s'.state,
                     committees := s.committees[1 := st.committee])
    else s' == s.(genesis := s.genesis.(validators := vs))
  }

  /**
   Before bootstrap a join is accepted if and only if it brings a positive collateral of at
   least the minimum, its key is on the whitelist and has not joined, and, if it bootstraps
   the subnet, somebody has power. It registers the validator, and bootstraps the subnet
   with everybody who joined once there are enough, counted modulo 2^16.
   */
  lemma GenesisJoinExactly(s: Subnet, k: Key, c: nat, at: Place)
    requires s.state.None?
    ensures var r, v := ApplyJoin(s, k, c, at), Validator(k, PowerFor(c), c);
      && (r.Ok? <==>
            && c > 0 && c >= s.genesis.minStake
            && k in s.genesis.whitelist && !HasMember(s.genesis.validators, k)
            && (Bootstraps(s) ==> Total(s.genesis.validators) + v.power > 0))
      && (r.Ok? ==> GenesisJoinWritten(s, r.value, v, at))
  {
    var v := Validator(k, PowerFor(c), c);
    MemberHasPosition(s.genesis.validators, k);
    BuildStands(s.id, s.genesis.validators + [v], 0);
    TotalWith(s.genesis.validators, v);
  }

  // ---------------------------------------------------------------------
  // Changes after bootstrap

  /** A waiting committee and new log entries from `|log| + 1` on, and nothing else. */
  ghost predicate ChangeWritten(s: Subnet, s': Subnet, next: Committee, log': Log) {
    && s.state.Some? && s'.state.Some?
    && s' == s.(state := Some(s.state.value.(waiting := Some(next))), log := log')
  }

  ghost predicate JoinWritten(s: Subnet, s': Subnet, v: Validator, at: Place) {
    && s.state.Some? && s'.state.Some? && s'.state.value.waiting.Some?
    && var latest, next, n := LatestCommittee(s.state.value), s'.state.value.waiting.value, |s.log|;
       && Stands(next, s.id, latest.validators + [v], latest.configurationNumber + 2)
       && ChangeWritten(s, s', next,
            s.log[n + 1 := StakeChange(Join, v.pubkey, n + 1, next, at.height, None)]
                 [n + 2 := StakeChange(Deposit(v.collateral), v.pubkey, n + 2, next, at.height, None)])
  }

  /**
   After bootstrap a join is accepted if and only if it brings a positive collateral of at
   least the minimum, the subnet is neither killed nor marked, the key is in neither the
   committee in office nor the latest one, and there is power. It appends the validator to
   the latest committee and logs the key and its deposit.
   */
  lemma JoinExactly(s: Subnet, k: Key, c: nat, at: Place)
    requires s.state.Some?
    ensures var r, v, st := ApplyJoin(s, k, c, at), Validator(k, PowerFor(c), c), s.state.value;
      && (r.Ok? <==>
            && c > 0 && c >= s.genesis.minStake
            && st.killed == NotKilled
            && !HasMember(st.committee.validators, k) && !HasMember(LatestCommittee(st).validators, k)
            && Total(LatestCommittee(st).validators) + v.power > 0)
      && (r.Ok? ==> JoinWritten(s, r.value, v, at))
  {
    var latest, v := LatestCommittee(s.state.value), Validator(k, PowerFor(c), c);
    MemberHasPosition(s.state.value.committee.validators, k);
    MemberHasPosition(latest.validators, k);
    BuildStands(s.id, latest.validators + [v], latest.configurationNumber + 2);
    TotalWith(latest.validators, v);
  }

  /** The same members in the same order, the one with this key replaced. */
  ghost predicate Replaced(vs: seq<Validator>, vs': seq<Validator>, w: Validator) {
    |vs'| == |vs| && forall i :: 0 <= i < |vs| ==> vs'[i] == if vs[i].pubkey == w.pubkey then w else vs[i]
  }

  /** The same members in the same order, without the one with this key. */
  ghost predicate Removed(vs: seq<Validator>, vs': seq<Validator>, k: Key) {
    exists i :: 0 <= i < |vs| && vs[i].pubkey == k && vs' == vs[..i] + vs[i + 1..]
  }

  lemma ReplacedAt(vs: seq<Validator>, i: nat, w: Validator)
    requires DistinctValidators(vs) && i < |vs| && vs[i].pubkey == w.pubkey
    ensures Replaced(vs, vs[i := w], w)
  {
  }

  /** One entry in the log, and the waiting committee that it leads to. */
  ghost predicate OneChangeWritten(s: Subnet, s': Subnet, change: StakingChange, k: Key, at: Place) {
    && s.state.Some? && s'.state.Some? && s'.state.value.waiting.Some?
    && var latest, next, n := LatestCommittee(s.state.value), s'.state.value.waiting.value, |s.log|;
       && Stands(next, s.id, next.validators, latest.configurationNumber + 1)
       && ChangeWritten(s, s', next, s.log[n + 1 := StakeChange(change, k, n + 1, next, at.height, None)])
  }

  /** A member of the latest committee of a subnet that takes changes. */
  ghost predicate LiveMember(s: Subnet, v: Validator) {
    s.state.Some? && s.state.value.killed == NotKilled && v in LatestCommittee(s.state.value).validators
  }

  ghost predicate StakeAccepted(s: Subnet, v: Validator, amount: nat, enough: bool, w: Validator) {
    && amount > 0 && enough && LiveMember(s, v)
    && v.collateral + amount >= s.genesis.minStake
    && w == Validator(v.pubkey, PowerFor(v.collateral + amount), v.collateral + amount)
    && exists vs :: Replaced(LatestCommittee(s.state.value).validators, vs, w) && Total(vs) > 0
  }

  ghost predicate StakeWritten(s: Subnet, s': Subnet, w: Validator, amount: nat, at: Place) {
    && OneChangeWritten(s, s', Deposit(amount), w.pubkey, at)
    && Replaced(LatestCommittee(s.state.value).validators, s'.state.value.waiting.value.validators, w)
  }

  lemma ReplacedUnique(vs: seq<Validator>, a: seq<Validator>, b: seq<Validator>, w: Validator)
    requires Replaced(vs, a, w) && Replaced(vs, b, w)
    ensures a == b
  {
  }

  lemma WaitingWritten(s: Subnet, next: Committee, change: StakingChange, k: Key, at: Place)
    requires s.state.Some? && Stands(next, s.id, next.validators, LatestCommittee(s.state.value).configurationNumber + 1)
    ensures OneChangeWritten(s, Waiting(s, next, change, k, at), change, k, at)
    ensures Waiting(s, next, change, k, at).state.value.waiting == Some(next)
  {
  }

  /** The checks of a stake, and what becomes of the committee that it builds. */
  ghost predicate StakeVerdict(s: Subnet, v: Validator, i: nat, amount: nat, enough: bool, at: Place, w: Validator, r: Result<Subnet, SubnetError>)
    requires s.state.Some? && i < |LatestCommittee(s.state.value).validators|
  {
    var latest := LatestCommittee(s.state.value);
    var built := Build(s.id, latest.validators[i := w], latest.configurationNumber + 1);
    && (r.Ok? <==> amount > 0 && enough && s.state.value.killed == NotKilled && w.collateral >= s.genesis.minStake && built.Ok?)
    && (r.Ok? ==> r.value == Waiting(s, built.value, Deposit(amount), v.pubkey, at))
  }

  lemma StakeChecks(s: Subnet, v: Validator, i: nat, amount: nat, enough: bool, at: Place, w: Validator)
    requires s.state.Some?
    requires Position(LatestCommittee(s.state.value).validators, v.pubkey) == Some(i) && LatestCommittee(s.state.value).validators[i] == v
    requires w == Validator(v.pubkey, PowerFor(v.collateral + amount), v.collateral + amount)
    ensures StakeVerdict(s, v, i, amount, enough, at, w, ApplyStake(s, v.pubkey, amount, enough, at))
  {
  }

  lemma ReplacedPower(vs: seq<Validator>, i: nat, w: Validator)
    requires DistinctValidators(vs) && i < |vs| && vs[i].pubkey == w.pubkey
    ensures (exists other :: Replaced(vs, other, w) && Total(other) > 0) <==> Total(vs[i := w]) > 0
  {
    ReplacedAt(vs, i, w);
    if other :| Replaced(vs, other, w) && Total(other) > 0 {
      ReplacedUnique(vs, vs[i := w], other, w);
    }
  }

  lemma StakeJudged(s: Subnet, v: Validator, i: nat, amount: nat, enough: bool, at: Place, w: Validator, r: Result<Subnet, SubnetError>)
    requires s.state.Some? && DistinctValidators(LatestCommittee(s.state.value).validators)
    requires i < |LatestCommittee(s.state.value).validators| && LatestCommittee(s.state.value).validators[i] == v
    requires w == Validator(v.pubkey, PowerFor(v.collateral + amount), v.collateral + amount)
    requires StakeVerdict(s, v, i, amount, enough, at, w, r)
    ensures r.Ok? <==> StakeAccepted(s, v, amount, enough, w)
    ensures r.Ok? ==> StakeWritten(s, r.value, w, amount, at)
  {
    var latest := LatestCommittee(s.state.value);
    ReplacedPower(latest.validators, i, w);
    BuildStands(s.id, latest.validators[i := w], latest.configurationNumber + 1);
    if r.Ok? {
      ReplacedAt(latest.validators, i, w);
      WaitingWritten(s, Build(s.id, latest.validators[i := w], latest.configurationNumber + 1).value, Deposit(amount), v.pubkey, at);
    }
  }

  lemma StakeByMember(s: Subnet, v: Validator, amount: nat, enough: bool, at: Place)
    requires s.state.Some? && CommitteesOk(s) && v in LatestCommittee(s.state.value).validators
    ensures var w := Validator(v.pubkey, PowerFor(v.collateral + amount), v.collateral + amount);
      && (ApplyStake(s, v.pubkey, amount, enough, at).Ok? <==> StakeAccepted(s, v, amount, enough, w))
      && (ApplyStake(s, v.pubkey, amount, enough, at).Ok? ==> StakeWritten(s, ApplyStake(s, v.pubkey, amount, enough, at).value, w, amount, at))
  {
    var vs, w := LatestCommittee(s.state.value).validators, Validator(v.pubkey, PowerFor(v.collateral + amount), v.collateral + amount);
    MemberAt(vs, v);
    var i := Position(vs, v.pubkey).value;
    StakeChecks(s, v, i, amount, enough, at, w);
    StakeJudged(s, v, i, amount, enough, at, w, ApplyStake(s, v.pubkey, amount, enough, at));
  }

  /**
   A stake is accepted if and only if it is positive and enough of an increase, the subnet is
   bootstrapped and neither killed nor marked, its key is a member of the latest committee
   that ends up with the minimum, and there is power. It raises that member's collateral, and
   its power with it, and logs the deposit.
   */
  lemma StakeExactly(s: Subnet, k: Key, amount: nat, enough: bool, at: Place)
    requires CommitteesOk(s)
    ensures ApplyStake(s, k, amount, enough, at).Ok? <==> exists v: Validator, w :: v.pubkey == k && StakeAccepted(s, v, amount, enough, w)
    ensures forall v: Validator, w :: v.pubkey == k && StakeAccepted(s, v, amount, enough, w) && ApplyStake(s, k, amount, enough, at).Ok? ==>
      StakeWritten(s, ApplyStake(s, k, amount, enough, at).value, w, amount, at)
  {
    forall v: Validator | v.pubkey == k && LiveMember(s, v)
      ensures var w := Validator(k, PowerFor(v.collateral + amount), v.collateral + amount);
        && (ApplyStake(s, k, amount, enough, at).Ok? <==> StakeAccepted(s, v, amount, enough, w))
        && (ApplyStake(s, k, amount, enough, at).Ok? ==> StakeWritten(s, ApplyStake(s, k, amount, enough, at).value, w, amount, at))
    {
      StakeByMember(s, v, amount, enough, at);
    }
    if ApplyStake(s, k, amount, enough, at).Ok? {
      var vs := LatestCommittee(s.state.value).validators;
      var v := vs[Position(vs, k).value];
      assert LiveMember(s, v);
    }
  }

  ghost predicate UnstakeAccepted(s: Subnet, v: Validator, amount: nat) {
    && amount > 0 && LiveMember(s, v)
    && amount <= v.collateral && amount <= Sum(s.state.value.committee.validators, CollateralOf())
    && (amount == v.collateral || v.collateral - amount >= s.genesis.minStake)
    && exists vs :: Unstakes(s, v, amount, vs) && Total(vs) > 0
  }

  /** The member keeps what is left if it has power with it, and goes otherwise. */
  ghost predicate Unstakes(s: Subnet, v: Validator, amount: nat, vs: seq<Validator>)
    requires s.state.Some? && amount <= v.collateral
  {
    var latest, left := LatestCommittee(s.state.value).validators, v.collateral - amount;
    if left >= s.genesis.minStake && left >= 10_000 then Replaced(latest, vs, Validator(v.pubkey, PowerFor(left), left))
    else Removed(latest, vs, v.pubkey)
  }

  ghost predicate UnstakeWritten(s: Subnet, s': Subnet, v: Validator, amount: nat, at: Place)
    requires s.state.Some? && amount <= v.collateral
  {
    && OneChangeWritten(s, s', Withdraw(amount), v.pubkey, at)
    && Unstakes(s, v, amount, s'.state.value.waiting.value.validators)
  }

  lemma RemovedUnique(vs: seq<Validator>, a: seq<Validator>, b: seq<Validator>, k: Key)
    requires DistinctValidators(vs) && Removed(vs, a, k) && Removed(vs, b, k)
    ensures a == b
  {
  }

  lemma UnstakesUnique(s: Subnet, v: Validator, amount: nat, a: seq<Validator>, b: seq<Validator>)
    requires s.state.Some? && amount <= v.collateral && DistinctValidators(LatestCommittee(s.state.value).validators)
    requires Unstakes(s, v, amount, a) && Unstakes(s, v, amount, b)
    ensures a == b
  {
    var latest, left := LatestCommittee(s.state.value).validators, v.collateral - amount;
    if left >= s.genesis.minStake && left >= 10_000 {
      ReplacedUnique(latest, a, b, Validator(v.pubkey, PowerFor(left), left));
    } else {
      RemovedUnique(latest, a, b, v.pubkey);
    }
  }

  /** The members after unstaking, in the source's terms. */
  function MembersLeft(vs: seq<Validator>, i: nat, left: nat, minStake: nat): seq<Validator>
    requires i < |vs|
  {
    if left >= minStake && left >= 10_000 then vs[i := Validator(vs[i].pubkey, PowerFor(left), left)] else Without(vs, i)
  }

  lemma LeftUnstakes(s: Subnet, v: Validator, amount: nat, i: nat)
    requires s.state.Some? && amount <= v.collateral && DistinctValidators(LatestCommittee(s.state.value).validators)
    requires i < |LatestCommittee(s.state.value).validators| && LatestCommittee(s.state.value).validators[i] == v
    ensures Unstakes(s, v, amount, MembersLeft(LatestCommittee(s.state.value).validators, i, v.collateral - amount, s.genesis.minStake))
  {
    var latest, left := LatestCommittee(s.state.value).validators, v.collateral - amount;
    if left >= s.genesis.minStake && left >= 10_000 {
      ReplacedAt(latest, i, Validator(v.pubkey, PowerFor(left), left));
    }
  }

  lemma UnstakedBuilds(s: Subnet, latest: Committee, v: Validator, i: nat, left: nat)
    requires Position(latest.validators, v.pubkey) == Some(i) && latest.validators[i] == v
    ensures Unstaked(s, latest, v, left)
            == Build(s.id, MembersLeft(latest.validators, i, left, s.genesis.minStake), latest.configurationNumber + 1)
  {
  }

  /** The checks of an unstake, and what becomes of the committee that it builds. */
  ghost predicate UnstakeVerdict(s: Subnet, v: Validator, amount: nat, at: Place, r: Result<Subnet, SubnetError>)
    requires s.state.Some?
  {
    && (r.Ok? <==>
          && amount > 0 && s.state.value.killed == NotKilled && amount <= v.collateral
          && amount <= TotalCollateral(s.state.value.committee.validators)
          && (amount == v.collateral || v.collateral - amount >= s.genesis.minStake)
          && Unstaked(s, LatestCommittee(s.state.value), v, v.collateral - amount).Ok?)
    && (r.Ok? ==> r.value == Waiting(s, Unstaked(s, LatestCommittee(s.state.value), v, v.collateral - amount).value,
                                     Withdraw(amount), v.pubkey, at))
  }

  lemma UnstakeChecks(s: Subnet, v: Validator, i: nat, amount: nat, at: Place)
    requires s.state.Some?
    requires Position(LatestCommittee(s.state.value).validators, v.pubkey) == Some(i) && LatestCommittee(s.state.value).validators[i] == v
    ensures UnstakeVerdict(s, v, amount, at, ApplyUnstake(s, v.pubkey, amount, at))
  {
  }

  lemma UnstakesPower(s: Subnet, v: Validator, amount: nat, i: nat, vs: seq<Validator>)
    requires s.state.Some? && amount <= v.collateral && DistinctValidators(LatestCommittee(s.state.value).validators)
    requires i < |LatestCommittee(s.state.value).validators| && LatestCommittee(s.state.value).validators[i] == v
    requires vs == MembersLeft(LatestCommittee(s.state.value).validators, i, v.collateral - amount, s.genesis.minStake)
    ensures Unstakes(s, v, amount, vs)
    ensures (exists other :: Unstakes(s, v, amount, other) && Total(other) > 0) <==> Total(vs) > 0
  {
    LeftUnstakes(s, v, amount, i);
    if other :| Unstakes(s, v, amount, other) && Total(other) > 0 {
      UnstakesUnique(s, v, amount, vs, other);
    }
  }

  /** What an unstake builds has the members that are left, and is built when they have power. */
  lemma UnstakeBuilds(s: Subnet, v: Validator, i: nat, amount: nat)
    requires s.state.Some? && DistinctValidators(LatestCommittee(s.state.value).validators) && amount <= v.collateral
    requires Position(LatestCommittee(s.state.value).validators, v.pubkey) == Some(i) && LatestCommittee(s.state.value).validators[i] == v
    ensures var latest := LatestCommittee(s.state.value);
      var built := Unstaked(s, latest, v, v.collateral - amount);
      && (built.Ok? <==> exists vs :: Unstakes(s, v, amount, vs) && Total(vs) > 0)
      && (built.Ok? ==> && Stands(built.value, s.id, built.value.validators, latest.configurationNumber + 1)
                        && Unstakes(s, v, amount, built.value.validators))
  {
    var latest := LatestCommittee(s.state.value);
    var vs := MembersLeft(latest.validators, i, v.collateral - amount, s.genesis.minStake);
    UnstakesPower(s, v, amount, i, vs);
    UnstakedBuilds(s, latest, v, i, v.collateral - amount);
    BuildStands(s.id, vs, latest.configurationNumber + 1);
  }

  lemma UnstakeJudged(s: Subnet, v: Validator, i: nat, amount: nat, at: Place, r: Result<Subnet, SubnetError>)
    requires s.state.Some? && DistinctValidators(LatestCommittee(s.state.value).validators)
    requires Position(LatestCommittee(s.state.value).validators, v.pubkey) == Some(i) && LatestCommittee(s.state.value).validators[i] == v
    requires UnstakeVerdict(s, v, amount, at, r)
    ensures r.Ok? <==> UnstakeAccepted(s, v, amount)
    ensures r.Ok? ==> amount <= v.collateral && UnstakeWritten(s, r.value, v, amount, at)
  {
    TotalCollateralIsSum(s.state.value.committee.validators);
    if amount <= v.collateral {
      UnstakeBuilds(s, v, i, amount);
      if r.Ok? {
        WaitingWritten(s, Unstaked(s, LatestCommittee(s.state.value), v, v.collateral - amount).value, Withdraw(amount), v.pubkey, at);
      }
    }
  }

  lemma UnstakeByMember(s: Subnet, v: Validator, amount: nat, at: Place)
    requires s.state.Some? && CommitteesOk(s) && v in LatestCommittee(s.state.value).validators
    ensures ApplyUnstake(s, v.pubkey, amount, at).Ok? <==> UnstakeAccepted(s, v, amount)
    ensures ApplyUnstake(s, v.pubkey, amount, at).Ok? ==>
      amount <= v.collateral && UnstakeWritten(s, ApplyUnstake(s, v.pubkey, amount, at).value, v, amount, at)
  {
    var vs := LatestCommittee(s.state.value).validators;
    MemberAt(vs, v);
    UnstakeChecks(s, v, Position(vs, v.pubkey).value, amount, at);
    UnstakeJudged(s, v, Position(vs, v.pubkey).value, amount, at, ApplyUnstake(s, v.pubkey, amount, at));
  }

  /**
   An unstake is accepted if and only if it is positive, the subnet is bootstrapped and
   neither killed nor marked, its key is a member of the latest committee that has the amount
   and keeps either nothing or the minimum, the committee in office has the amount too, and
   power is left. It lowers that member's collateral and power, or removes it when no power
   is left to it, and logs the withdrawal.
   */
  lemma UnstakeExactly(s: Subnet, k: Key, amount: nat, at: Place)
    requires CommitteesOk(s)
    ensures ApplyUnstake(s, k, amount, at).Ok? <==> exists v: Validator :: v.pubkey == k && UnstakeAccepted(s, v, amount)
    ensures forall v: Validator :: v.pubkey == k && UnstakeAccepted(s, v, amount) && ApplyUnstake(s, k, amount, at).Ok? ==>
      UnstakeWritten(s, ApplyUnstake(s, k, amount, at).value, v, amount, at)
  {
    forall v: Validator | v.pubkey == k && LiveMember(s, v)
      ensures ApplyUnstake(s, k, amount, at).Ok? <==> UnstakeAccepted(s, v, amount)
      ensures ApplyUnstake(s, k, amount, at).Ok? ==>
        amount <= v.collateral && UnstakeWritten(s, ApplyUnstake(s, k, amount, at).value, v, amount, at)
    {
      UnstakeByMember(s, v, amount, at);
    }
    if ApplyUnstake(s, k, amount, at).Ok? {
      var vs := LatestCommittee(s.state.value).validators;
      var v := vs[Position(vs, k).value];
      assert LiveMember(s, v);
    }
  }

  // ---------------------------------------------------------------------
  // Checkpoints and batches

  /** The checkpoint names another configuration than the one in office. */
  predicate NamesAnother(st: SubnetState, n: nat) {
    n != 0 && n != st.committee.configurationNumber
  }

  /** Every unconfirmed entry up to `n` is confirmed at this height, and nothing else changes. */
  ghost predicate ConfirmedUpTo(log: Log, log': Log, n: nat, height: nat) {
    && log'.Keys == log.Keys
    && forall k :: k in log ==>
         log'[k] == if log[k].confirmed.None? && log[k].configurationNumber <= n then log[k].(confirmed := Some(height)) else log[k]
  }

  /** The committee in office and the waiting one after a rotation to `target`. */
  ghost predicate OfficeAfter(st: SubnetState, st': SubnetState, target: Committee) {
    if target.address == st.committee.address then
      st'.committee == st.committee && st'.committeeNumber == st.committeeNumber && st'.waiting == st.waiting
    else
      && st'.committee == target && st'.committeeNumber == st.committeeNumber + 1
      && st'.waiting == if st.waiting.Some? && st.waiting.value.address == target.address then None else st.waiting
  }

  ghost predicate CheckpointWritten(s: Subnet, s': Subnet, n: nat, isKill: bool, at: Place) {
    && s.state.Some? && s'.state.Some?
    && var st, st' := s.state.value, s'.state.value;
       var number, rotates := (if st.lastCheckpoint.Some? then st.lastCheckpoint.value + 1 else 0), NamesAnother(st, n);
       && s'.id == s.id && s'.genesis == s.genesis && s'.kills == s.kills
       && s'.checkpoints == s.checkpoints[number :=
            Checkpoint(number, at.height, at.txid, None, st.committeeNumber,
                       if rotates then st.committeeNumber + 1 else st.committeeNumber,
                       if rotates then n else st.committee.configurationNumber, isKill)]
       && st'.lastCheckpoint == Some(number) && st'.marked == st.marked
       && st'.killed == (if isKill then Killed(at.height) else st.killed)
       && if rotates then
            && n in s.log
            && OfficeAfter(st, st', s.log[n].committeeAfter)
            && s'.committees == s.committees[st.committeeNumber + 1 := s.log[n].committeeAfter]
            && ConfirmedUpTo(s.log, s'.log, n, at.height)
          else
            st'.committee == st.committee && st'.committeeNumber == st.committeeNumber && st'.waiting == st.waiting
            && s'.committees == s.committees && s'.log == s.log
  }

  /**
   A checkpoint is accepted if and only if the subnet is bootstrapped and the configuration
   it names is none, the one in office, or a later one that is in the log. Whether the subnet
   is marked or killed does not matter.
   */
  lemma CheckpointExactly(s: Subnet, n: nat, isKill: bool, at: Place)
    ensures var r := ApplyCheckpoint(s, n, isKill, at);
      && (r.Ok? <==> s.state.Some? && (NamesAnother(s.state.value, n) ==> n > s.state.value.committee.configurationNumber && n in s.log))
      && (r.Ok? ==> CheckpointWritten(s, r.value, n, isKill, at))
  {
    var r := ApplyCheckpoint(s, n, isKill, at);
    if r.Ok? && NamesAnother(s.state.value, n) {
      RotationWritten(s, r.value, n, isKill, at);
    }
  }

  lemma RotationWritten(s: Subnet, s': Subnet, n: nat, isKill: bool, at: Place)
    requires ApplyCheckpoint(s, n, isKill, at) == Ok(s') && NamesAnother(s.state.value, n)
    ensures CheckpointWritten(s, s', n, isKill, at)
  {
    assert s'.log == ConfirmUpTo(s.log, n, at.height);
  }

  /**
   A batch is recorded if and only if the subnet is bootstrapped and has a record of its last
   checkpoint: that record, with the batch on it, goes into the slot after it.
   */
  lemma BatchExactly(s: Subnet, at: Place)
    ensures var r := ApplyBatch(s, at);
      && (r.Ok? <==> s.state.Some? && exists n :: s.state.value.lastCheckpoint == Some(n) && n in s.checkpoints)
      && (r.Ok? ==>
            var n := s.state.value.lastCheckpoint.value;
            && r.value == s.(checkpoints := r.value.checkpoints)
            && r.value.checkpoints == s.checkpoints[n + 1 := s.checkpoints[n].(batchTxid := Some(at.txid))])
  {
  }

  // ---------------------------------------------------------------------
  // Why a message is refused

  /** What is wrong with a message that is refused with this error. */
  ghost predicate Because(s: Subnet, ev: Event, e: SubnetError) {
    match e
    case ZeroAmount =>
      (ev.msg.JoinMsg? && ev.msg.collateral == 0) || ((ev.msg.StakeMsg? || ev.msg.UnstakeMsg?) && ev.msg.amount == 0)
    case BelowMinimum =>
      || (ev.msg.JoinMsg? && ev.msg.collateral < s.genesis.minStake)
      || (ev.msg.StakeMsg? && exists v :: LiveMember(s, v) && v.pubkey == ev.msg.key && v.collateral + ev.msg.amount < s.genesis.minStake)
    case NotWhitelisted => ev.msg.JoinMsg? && s.state.None? && ev.msg.key !in s.genesis.whitelist
    case AlreadyRegistered =>
      && ev.msg.JoinMsg?
      && if s.state.None? then HasMember(s.genesis.validators, ev.msg.key)
         else HasMember(s.state.value.committee.validators, ev.msg.key) || HasMember(LatestCommittee(s.state.value).validators, ev.msg.key)
    case NotBootstrapped => !ev.msg.JoinMsg? && s.state.None?
    case KilledOrPending => IsChange(ev) && s.state.Some? && s.state.value.killed != NotKilled
    case UnknownValidator =>
      && (ev.msg.StakeMsg? || ev.msg.UnstakeMsg? || ev.msg.KillMsg?)
      && s.state.Some? && !HasMember(LatestCommittee(s.state.value).validators, ev.msg.key)
    case IncreaseTooSmall => ev.msg.StakeMsg? && !ev.msg.enough
    case AmountTooLarge =>
      && ev.msg.UnstakeMsg? && s.state.Some?
      && (|| ev.msg.amount > Sum(s.state.value.committee.validators, CollateralOf())
          || exists v :: LiveMember(s, v) && v.pubkey == ev.msg.key && ev.msg.amount > v.collateral)
    case MustUnstakeAll =>
      && ev.msg.UnstakeMsg?
      && exists v :: LiveMember(s, v) && v.pubkey == ev.msg.key && 0 < v.collateral - ev.msg.amount < s.genesis.minStake
    case StaleConfiguration =>
      ev.msg.CheckpointMsg? && s.state.Some? && 0 < ev.msg.nextConfiguration < s.state.value.committee.configurationNumber
    case NoSuchChange => ev.msg.CheckpointMsg? && ev.msg.nextConfiguration !in s.log
    case NoCheckpoint =>
      && ev.msg.BatchMsg? && s.state.Some?
      && !exists n :: s.state.value.lastCheckpoint == Some(n) && n in s.checkpoints
    case AlreadyVoted => ev.msg.KillMsg? && VotedLately(s.kills, ev.msg.key, ev.at.height)
    case CommitteeFailed(_) => IsChange(ev)
  }

  lemma MemberIsLive(s: Subnet, k: Key, v: Validator)
    requires s.state.Some? && s.state.value.killed == NotKilled
    requires Position(LatestCommittee(s.state.value).validators, k).Some?
    requires v == LatestCommittee(s.state.value).validators[Position(LatestCommittee(s.state.value).validators, k).value]
    ensures LiveMember(s, v) && v.pubkey == k
  {
  }

  lemma JoinRefused(s: Subnet, ev: Event)
    requires ev.msg.JoinMsg? && Apply(s, ev).Err?
    ensures Because(s, ev, Apply(s, ev).error)
  {
    var k := ev.msg.key;
    MemberHasPosition(s.genesis.validators, k);
    if s.state.Some? {
      MemberHasPosition(s.state.value.committee.validators, k);
      MemberHasPosition(LatestCommittee(s.state.value).validators, k);
    }
  }

  lemma StakeRefused(s: Subnet, ev: Event)
    requires ev.msg.StakeMsg? && Apply(s, ev).Err?
    ensures Because(s, ev, Apply(s, ev).error)
  {
    if s.state.Some? {
      var vs, k := LatestCommittee(s.state.value).validators, ev.msg.key;
      MemberHasPosition(vs, k);
      if s.state.value.killed == NotKilled && Position(vs, k).Some? {
        MemberIsLive(s, k, vs[Position(vs, k).value]);
      }
    }
  }

  lemma UnstakeRefused(s: Subnet, ev: Event)
    requires ev.msg.UnstakeMsg? && Apply(s, ev).Err?
    ensures Because(s, ev, Apply(s, ev).error)
  {
    if s.state.Some? {
      var vs, k := LatestCommittee(s.state.value).validators, ev.msg.key;
      MemberHasPosition(vs, k);
      TotalCollateralIsSum(s.state.value.committee.validators);
      if s.state.value.killed == NotKilled && Position(vs, k).Some? {
        MemberIsLive(s, k, vs[Position(vs, k).value]);
      }
    }
  }

  lemma VoteRefused(s: Subnet, ev: Event)
    requires ev.msg.KillMsg? && Lists(ev.msg.rows, s.kills.Keys) && Apply(s, ev).Err?
    ensures Because(s, ev, Apply(s, ev).error)
  {
    RepeatIsWindow(s.kills, ev.msg.rows, ev.at.height, ev.msg.key);
    if s.state.Some? {
      MemberHasPosition(LatestCommittee(s.state.value).validators, ev.msg.key);
    }
  }

  /** A refusal names what is wrong with the message. */
  lemma RefusedBecause(s: Subnet, ev: Event)
    requires WellListed(s, ev) && Apply(s, ev).Err?
    ensures Because(s, ev, Apply(s, ev).error)
  {
    match ev.msg
    case JoinMsg(_, _) => JoinRefused(s, ev);
    case StakeMsg(_, _, _) => StakeRefused(s, ev);
    case UnstakeMsg(_, _) => UnstakeRefused(s, ev);
    case CheckpointMsg(_, _) =>
    case BatchMsg =>
    case KillMsg(_, _) => VoteRefused(s, ev);
  }

  // ---------------------------------------------------------------------
  // Once marked

  /** What the ledger knows of the subnet: whether it is bootstrapped, and whether it is killed or marked. */
  ghost predicate Summarized(db: Ledger.Db, s: Subnet) {
    && (s.id in db.subnets <==> s.state.Some?)
    && (s.state.Some? ==> (db.subnets[s.id].killedOrPending <==> s.state.value.killed != NotKilled))
  }

  lemma MarkedRefusesChange(s: Subnet, ev: Event)
    requires s.state.Some? && s.state.value.killed != NotKilled && IsChange(ev)
    ensures Apply(s, ev).Err?
  {
  }

  /**
   A marked subnet stays closed: after any further run it refuses every join, stake, unstake
   and fund message. Checkpoints and votes are still judged as before.
   */
  lemma MarkedStaysClosed(s: Subnet, evs: seq<Event>, ev: Event, db: Ledger.Db, amount: nat, recipient: Ledger.Address, origin: Ledger.Origin)
    requires s.state.Some? && s.state.value.killed != NotKilled
    requires Summarized(db, Run(s, evs))
    ensures IsChange(ev) ==> Apply(Run(s, evs), ev).Err?
    ensures Ledger.SaveFund(db, Run(s, evs).id, amount, recipient, origin).None?
  {
    MarkedRunsFrozen(s, evs);
    if IsChange(ev) {
      MarkedRefusesChange(Run(s, evs), ev);
    }
  }
}

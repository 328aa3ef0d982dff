/**
 Committees: validators with their collateral and power, the threshold of their
 multisig, and the address that stands for them.
 */
module Committees {
  import opened Outcomes
  import opened Listings
  import opened Sorting
  import opened Multisig
  import opened Tapscript
  import opened MultisigProof

  type SubnetId = nat

  const POWER_SCALE_FACTOR: nat := 10_000
  const MAX_COMMITTEE: nat := 5000

  /**
   `collateral_to_power`: one unit of power per 10,000 satoshis, the part of a unit
   lost, of at most 2^32 - 1 satoshis; nothing below the minimum collateral has power.
   */
  function CollateralToPower(amount: nat, minAmount: nat): (p: Option<Power>)
    ensures p.Some? <==> minAmount <= amount
    ensures p.Some? ==> 10_000 * p.value <= amount && 10_000 * p.value <= 4_294_967_295
    ensures p.Some? ==> amount < 10_000 * (p.value + 1) || 4_294_967_295 < 10_000 * (p.value + 1)
  {
    if amount < minAmount then None
    else Some((if amount <= U32_MAX then amount else U32_MAX) / POWER_SCALE_FACTOR)
  }

  /** `multisig_threshold`: the least power above two thirds of the total. */
  function Threshold(total: nat): (t: nat)
    ensures 3 * (t - 1) <= 2 * total < 3 * t
  {
    total * 2 / 3 + 1
  }

  datatype Validator = Validator(pubkey: Key, power: Power, collateral: nat)

  function WeightedKeys(vs: seq<Validator>): seq<WeightedKey> {
    seq(|vs|, i requires 0 <= i < |vs| => WeightedKey(vs[i].pubkey, vs[i].power))
  }

  function Total(vs: seq<Validator>): nat {
    if vs == [] then 0 else vs[0].power + Total(vs[1..])
  }

  lemma {:induction false} TotalIsTotalPower(vs: seq<Validator>)
    ensures TotalPower(WeightedKeys(vs)) == Total(vs)
  {
    if vs != [] {
      assert WeightedKeys(vs)[1..] == WeightedKeys(vs[1..]);
      TotalIsTotalPower(vs[1..]);
    }
  }

  /**
   The taproot address, as an injective function of what goes into it: the subnet,
   the sorted weighted keys and the threshold. Collateral is not part of it.
   */
  datatype MultisigAddress = MultisigAddress(subnet: SubnetId, keys: seq<WeightedKey>, threshold: nat)

  /** None where the source panics: a committee without power has no script. */
  function AddressOf(id: SubnetId, vs: seq<Validator>): Option<MultisigAddress> {
    var keys, threshold := WeightedKeys(vs), Threshold(Total(vs));
    if MultisigScript(keys, threshold).Err? then None
    else Some(MultisigAddress(id, SortKeys(keys), threshold))
  }

  datatype Committee = Committee(
    configurationNumber: nat,
    threshold: nat,
    validators: seq<Validator>,
    address: MultisigAddress)

  datatype CommitteeError = AlreadyValidator | NotValidator | NoPower

  function Position(vs: seq<Validator>, k: Key): (p: Option<nat>)
    ensures p.Some? ==> p.value < |vs| && vs[p.value].pubkey == k
    ensures p.None? ==> forall v :: v in vs ==> v.pubkey != k
  {
    if vs == [] then None
    else if vs[0].pubkey == k then Some(0)
    else
      var p := Position(vs[1..], k);
      if p.Some? then Some(p.value + 1) else None
  }

  predicate IsValidator(c: Committee, k: Key) {
    Position(c.validators, k).Some?
  }

  /** A committee of `vs` under configuration number `conf`. */
  function Build(id: SubnetId, vs: seq<Validator>, conf: nat): Result<Committee, CommitteeError> {
    var address := AddressOf(id, vs);
    if address.None? then Err(NoPower)
    else Ok(Committee(conf, Threshold(Total(vs)), vs, address.value))
  }

  /** A join counts as two changes: the key and its deposit. */
  function JoinNewValidator(c: Committee, id: SubnetId, v: Validator): Result<Committee, CommitteeError> {
    if IsValidator(c, v.pubkey) then Err(AlreadyValidator)
    else Build(id, c.validators + [v], c.configurationNumber + 2)
  }

  function ModifyValidator(c: Committee, id: SubnetId, v: Validator): Result<Committee, CommitteeError> {
    var p := Position(c.validators, v.pubkey);
    if p.None? then Err(NotValidator)
    else Build(id, c.validators[p.value := v], c.configurationNumber + 1)
  }

  function RemoveValidator(c: Committee, id: SubnetId, k: Key): Result<Committee, CommitteeError> {
    var p := Position(c.validators, k);
    if p.None? then Err(NotValidator)
    else Build(id, Without(c.validators, p.value), c.configurationNumber + 1)
  }

  // ---------------------------------------------------------------------
  // The committee invariant

  ghost predicate DistinctValidators(vs: seq<Validator>) {
    forall i, j :: 0 <= i < j < |vs| ==> vs[i].pubkey != vs[j].pubkey
  }

  ghost predicate GoodValidators(vs: seq<Validator>, minStake: nat) {
    DistinctValidators(vs) && forall v :: v in vs ==> CollateralToPower(v.collateral, minStake) == Some(v.power)
  }

  ghost predicate WellFormed(c: Committee, id: SubnetId, minStake: nat) {
    && GoodValidators(c.validators, minStake)
    && c.threshold == Threshold(Total(c.validators))
    && AddressOf(id, c.validators) == Some(c.address)
  }

  lemma BuildWellFormed(id: SubnetId, vs: seq<Validator>, conf: nat, minStake: nat)
    requires GoodValidators(vs, minStake)
    ensures Build(id, vs, conf).Ok? ==> WellFormed(Build(id, vs, conf).value, id, minStake)
  {
  }

  lemma JoinKeepsGood(vs: seq<Validator>, v: Validator, minStake: nat)
    requires GoodValidators(vs, minStake) && CollateralToPower(v.collateral, minStake) == Some(v.power)
    requires Position(vs, v.pubkey).None?
    ensures GoodValidators(vs + [v], minStake)
  {
    forall i | 0 <= i < |vs|
      ensures vs[i].pubkey != v.pubkey
    {
      assert vs[i] in vs;
    }
  }

  lemma ModifyKeepsGood(vs: seq<Validator>, i: nat, v: Validator, minStake: nat)
    requires GoodValidators(vs, minStake) && CollateralToPower(v.collateral, minStake) == Some(v.power)
    requires i < |vs| && vs[i].pubkey == v.pubkey
    ensures GoodValidators(vs[i := v], minStake)
  {
    var ws := vs[i := v];
    assert forall j :: 0 <= j < |ws| ==> ws[j].pubkey == vs[j].pubkey;
    forall w | w in ws
      ensures CollateralToPower(w.collateral, minStake) == Some(w.power)
    {
      var j :| 0 <= j < |ws| && ws[j] == w;
      assert vs[j] in vs;
    }
  }

  lemma RemoveKeepsGood(vs: seq<Validator>, i: nat, minStake: nat)
    requires GoodValidators(vs, minStake) && i < |vs|
    ensures GoodValidators(Without(vs, i), minStake)
  {
    var ws := Without(vs, i);
    assert forall j :: 0 <= j < |ws| ==> ws[j] == vs[if j < i then j else j + 1];
  }

  /** Every change of a well-formed committee that succeeds is well formed again. */
  lemma ChangesKeepWellFormed(c: Committee, id: SubnetId, minStake: nat, v: Validator)
    requires WellFormed(c, id, minStake) && CollateralToPower(v.collateral, minStake) == Some(v.power)
    ensures JoinNewValidator(c, id, v).Ok? ==> WellFormed(JoinNewValidator(c, id, v).value, id, minStake)
    ensures ModifyValidator(c, id, v).Ok? ==> WellFormed(ModifyValidator(c, id, v).value, id, minStake)
    ensures RemoveValidator(c, id, v.pubkey).Ok? ==> WellFormed(RemoveValidator(c, id, v.pubkey).value, id, minStake)
  {
    var p := Position(c.validators, v.pubkey);
    if p.None? {
      JoinKeepsGood(c.validators, v, minStake);
    } else {
      ModifyKeepsGood(c.validators, p.value, v, minStake);
      RemoveKeepsGood(c.validators, p.value, minStake);
    }
  }

  // ---------------------------------------------------------------------
  // Power, thresholds and quorums

  /** The power of the validators whose key is in `s`. */
  function PowerIn(vs: seq<Validator>, s: set<Key>): nat {
    if vs == [] then 0 else (if vs[0].pubkey in s then vs[0].power else 0) + PowerIn(vs[1..], s)
  }

  lemma {:induction false} PowerOverlap(vs: seq<Validator>, a: set<Key>, b: set<Key>)
    ensures PowerIn(vs, a) + PowerIn(vs, b) <= Total(vs) + PowerIn(vs, a * b)
  {
    if vs != [] {
      PowerOverlap(vs[1..], a, b);
    }
  }

  /** The validators whose key is in `s` hold more than two thirds of the power. */
  predicate Quorum(vs: seq<Validator>, s: set<Key>) {
    3 * PowerIn(vs, s) > 2 * Total(vs)
  }

  /** Any two quorums share more than a third of the power. */
  lemma QuorumOverlap(vs: seq<Validator>, a: set<Key>, b: set<Key>)
    requires Quorum(vs, a) && Quorum(vs, b)
    ensures 3 * PowerIn(vs, a * b) > Total(vs)
  {
    PowerOverlap(vs, a, b);
  }

  /** The threshold is what a quorum reaches and nothing short of a quorum does. */
  lemma ThresholdIsQuorum(vs: seq<Validator>, s: set<Key>)
    ensures PowerIn(vs, s) >= Threshold(Total(vs)) <==> Quorum(vs, s)
  {
  }

  /** The address exists exactly when there is power, and then the threshold can be met. */
  lemma AddressNeedsPower(id: SubnetId, vs: seq<Validator>)
    ensures AddressOf(id, vs).Some? <==> Total(vs) >= 1
    ensures AddressOf(id, vs).Some? ==> 1 <= Threshold(Total(vs)) <= Total(vs)
  {
    TotalIsTotalPower(vs);
  }

  lemma {:induction false} TotalBound(vs: seq<Validator>, minStake: nat)
    requires forall v :: v in vs ==> CollateralToPower(v.collateral, minStake) == Some(v.power)
    ensures Total(vs) <= 429496 * |vs|
  {
    if vs != [] {
      assert vs[0] in vs;
      TotalBound(vs[1..], minStake);
    }
  }

  /** With at most 5000 members neither the doubling nor a script number overflows. */
  lemma NoOverflow(c: Committee, id: SubnetId, minStake: nat)
    requires WellFormed(c, id, minStake) && |c.validators| <= MAX_COMMITTEE
    ensures Total(c.validators) <= MAX_OPERAND
    ensures Total(c.validators) * 2 <= U32_MAX
    ensures 1 <= c.threshold <= Total(c.validators)
  {
    TotalBound(c.validators, minStake);
    AddressNeedsPower(id, c.validators);
  }

  /** With the usual minimum stake every member counts. */
  lemma EveryMemberHasPower(c: Committee, id: SubnetId, minStake: nat, v: Validator)
    requires WellFormed(c, id, minStake) && v in c.validators && minStake >= POWER_SCALE_FACTOR
    ensures v.power >= 1 && v.collateral >= minStake
  {
  }

  lemma {:induction false} SignersPower(vs: seq<Validator>, sigs: Signatures)
    ensures SignedPower(WeightedKeys(vs), sigs) == PowerIn(vs, sigs.Keys)
  {
    if vs != [] {
      assert WeightedKeys(vs)[1..] == WeightedKeys(vs[1..]);
      SignersPower(vs[1..], sigs);
    }
  }

  ghost predicate SignaturesValid(vs: seq<Validator>, sigs: Signatures, valid: Checker) {
    forall v :: v in vs && v.pubkey in sigs ==> valid(v.pubkey, sigs[v.pubkey])
  }

  lemma MembersValid(vs: seq<Validator>, sigs: Signatures, valid: Checker)
    ensures AllValid(WeightedKeys(vs), sigs, valid) <==> SignaturesValid(vs, sigs, valid)
  {
    var keys := WeightedKeys(vs);
    if AllValid(keys, sigs, valid) {
      forall v | v in vs && v.pubkey in sigs
        ensures valid(v.pubkey, sigs[v.pubkey])
      {
        var i :| 0 <= i < |vs| && vs[i] == v;
        assert keys[i] in keys;
      }
    }
    if SignaturesValid(vs, sigs, valid) {
      forall w | w in keys && w.key in sigs
        ensures valid(w.key, sigs[w.key])
      {
        var i :| 0 <= i < |keys| && keys[i] == w;
        assert vs[i] in vs;
      }
    }
  }

  /**
   What it takes to spend from a committee's address. Every well-formed committee
   within the size limit has a script, and the finalized witness of any collected
   signatures spends it if and only if the committee has at most 998 members, every
   collected signature of a member verifies, and the signing members hold more than
   two thirds of the power.
   */
  lemma SpendsExactly(c: Committee, id: SubnetId, minStake: nat, sigs: Signatures, extra: nat, valid: Checker)
    requires WellFormed(c, id, minStake) && |c.validators| <= MAX_COMMITTEE
    ensures MultisigScript(WeightedKeys(c.validators), c.threshold).Ok?
    ensures Spends(MultisigScript(WeightedKeys(c.validators), c.threshold).value,
                   Witness(SortKeys(WeightedKeys(c.validators)), sigs), extra, valid)
            <==> |c.validators| <= 998 && SignaturesValid(c.validators, sigs, valid)
                 && 3 * PowerIn(c.validators, sigs.Keys) > 2 * Total(c.validators)
  {
    var keys := WeightedKeys(c.validators);
    NoOverflow(c, id, minStake);
    TotalIsTotalPower(c.validators);
    MultisigCorrect(keys, c.threshold, sigs, extra, valid);
    MembersValid(c.validators, sigs, valid);
    SignersPower(c.validators, sigs);
    ThresholdIsQuorum(c.validators, sigs.Keys);
  }

  /** All members signing validly always spends. */
  lemma EveryoneSpends(c: Committee, id: SubnetId, minStake: nat, sigs: Signatures, extra: nat, valid: Checker)
    requires WellFormed(c, id, minStake) && |c.validators| <= 998
    requires forall v :: v in c.validators ==> v.pubkey in sigs && valid(v.pubkey, sigs[v.pubkey])
    ensures MultisigScript(WeightedKeys(c.validators), c.threshold).Ok?
    ensures Spends(MultisigScript(WeightedKeys(c.validators), c.threshold).value,
                   Witness(SortKeys(WeightedKeys(c.validators)), sigs), extra, valid)
  {
    SpendsExactly(c, id, minStake, sigs, extra, valid);
    AllPower(c.validators, sigs.Keys);
    AddressNeedsPower(id, c.validators);
  }

  lemma {:induction false} AllPower(vs: seq<Validator>, s: set<Key>)
    requires forall v :: v in vs ==> v.pubkey in s
    ensures PowerIn(vs, s) == Total(vs)
  {
    if vs != [] {
      assert vs[0] in vs;
      AllPower(vs[1..], s);
    }
  }

  lemma DistinctWeighted(vs: seq<Validator>)
    requires DistinctValidators(vs)
    ensures DistinctKeys(WeightedKeys(vs))
  {
  }

  /**
   Two committees share an address if and only if they belong to one subnet and have
   the same members with the same powers, in whatever order.
   */
  lemma SameAddressExactly(id: SubnetId, vs: seq<Validator>, id': SubnetId, vs': seq<Validator>)
    requires DistinctValidators(vs) && AddressOf(id, vs).Some? && AddressOf(id', vs').Some?
    ensures AddressOf(id, vs) == AddressOf(id', vs')
            <==> id == id' && multiset(WeightedKeys(vs)) == multiset(WeightedKeys(vs'))
  {
    var keys, keys' := WeightedKeys(vs), WeightedKeys(vs');
    SortMultiset(keys, KeyOrder());
    SortMultiset(keys', KeyOrder());
    if multiset(keys) == multiset(keys') {
      DistinctWeighted(vs);
      SortKeysOrderFree(keys, keys');
      SumPermutation(keys, keys', PowerOf());
      TotalIsTotalPower(vs);
      TotalIsTotalPower(vs');
    }
  }

  /**
   Two spends of one committee's multisig always share signers holding more than a
   third of its power. The spends may be of different transactions: which signatures
   are valid, and how large the rest of the witness is, may differ.
   */
  lemma TwoSpendsOverlap(c: Committee, id: SubnetId, minStake: nat,
                         s1: Signatures, s2: Signatures, extra1: nat, extra2: nat, valid1: Checker, valid2: Checker)
    requires WellFormed(c, id, minStake) && |c.validators| <= MAX_COMMITTEE
    requires MultisigScript(WeightedKeys(c.validators), c.threshold).Ok?
    requires Spends(MultisigScript(WeightedKeys(c.validators), c.threshold).value,
                    Witness(SortKeys(WeightedKeys(c.validators)), s1), extra1, valid1)
    requires Spends(MultisigScript(WeightedKeys(c.validators), c.threshold).value,
                    Witness(SortKeys(WeightedKeys(c.validators)), s2), extra2, valid2)
    ensures 3 * PowerIn(c.validators, s1.Keys * s2.Keys) > Total(c.validators)
  {
    SpendsExactly(c, id, minStake, s1, extra1, valid1);
    SpendsExactly(c, id, minStake, s2, extra2, valid2);
    QuorumOverlap(c.validators, s1.Keys, s2.Keys);
  }
}

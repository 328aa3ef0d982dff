/**
 Validator rewards. A snapshot is a fixed number of blocks; at its first block the
 active subnets become candidates, checkpoints inside it lower a candidate's amounts
 lazily, and at its last block the amounts are added up per key.
 */
module Rewards {
  import opened Outcomes
  import opened Listings
  import opened Multisig
  import opened Committees
  import opened Subnets

  // ---------------------------------------------------------------------
  // Snapshot boundaries

  datatype RewardConfig = RewardConfig(activation: nat, length: nat)

  /** `validate` refuses a length of zero. */
  predicate ValidConfig(cfg: RewardConfig) {
    cfg.length > 0
  }

  function Start(cfg: RewardConfig, snapshot: nat): nat {
    cfg.activation + snapshot * cfg.length
  }

  function End(cfg: RewardConfig, snapshot: nat): nat
    requires ValidConfig(cfg)
  {
    Start(cfg, snapshot) + cfg.length - 1
  }

  /** The snapshot that a height belongs to. */
  function SnapshotAt(cfg: RewardConfig, h: nat): Option<nat>
    requires ValidConfig(cfg)
  {
    if h < cfg.activation then None else Some((h - cfg.activation) / cfg.length)
  }

  lemma DivisionIsUnique(x: nat, len: nat, q: nat)
    requires len > 0
    ensures q * len <= x < q * len + len <==> x / len == q
  {
    var d := x / len;
    assert x == d * len + x % len;
    if q < d {
      assert (q + 1) * len <= d * len;
    } else if q > d {
      assert (d + 1) * len <= q * len;
    }
  }

  /** Snapshots tile the heights from activation on: a height lies in exactly one. */
  lemma SnapshotsTile(cfg: RewardConfig, h: nat, snapshot: nat)
    requires ValidConfig(cfg)
    ensures SnapshotAt(cfg, h) == Some(snapshot) <==> Start(cfg, snapshot) <= h <= End(cfg, snapshot)
    ensures Start(cfg, snapshot + 1) == End(cfg, snapshot) + 1
  {
    if h >= cfg.activation {
      DivisionIsUnique(h - cfg.activation, cfg.length, snapshot);
    }
    assert (snapshot + 1) * cfg.length == snapshot * cfg.length + cfg.length;
  }

  // ---------------------------------------------------------------------
  // What the tracker keeps

  type Amounts = seq<(Key, nat)>

  datatype RewardInfo = RewardInfo(mostRecent: nat, amounts: Option<Amounts>)

  /** The entries of the reward list, and their sum. */
  datatype SnapshotResult = SnapshotResult(rewards: map<Key, nat>, total: nat)

  datatype Tracker = Tracker(candidates: map<(nat, SubnetId), RewardInfo>, results: map<nat, SnapshotResult>)

  /** A tracker after a hook; what a failing hook wrote before it failed stays. */
  datatype Hook = Hook(tracker: Tracker, failed: bool)

  /** A subnet and the height at which it was created. */
  datatype Tracked = Tracked(created: nat, subnet: Subnet)

  type World = map<SubnetId, Tracked>

  /** `get_all_active_subnets`. */
  predicate Active(t: Tracked, from: nat, to: nat) {
    && t.subnet.state.Some?
    && t.created <= from
    && t.subnet.genesis.height.Some?
    && t.subnet.genesis.height.value <= from
    && !(t.subnet.state.value.killed.Killed? && t.subnet.state.value.killed.parentHeight <= to)
  }

  // ---------------------------------------------------------------------
  // Amounts

  /** The entries with a positive collateral. */
  function PositiveCollaterals(vs: seq<Validator>): Amounts {
    if vs == [] then []
    else (if vs[0].collateral > 0 then [(vs[0].pubkey, vs[0].collateral)] else []) + PositiveCollaterals(vs[1..])
  }

  /** The same entries as a hash map: a later entry replaces an earlier one of the same key. */
  function PositiveCollateral(vs: seq<Validator>, k: Key): Option<nat> {
    if vs == [] then None
    else
      var later := PositiveCollateral(vs[1..], k);
      if later.Some? then later
      else if vs[0].pubkey == k && vs[0].collateral > 0 then Some(vs[0].collateral)
      else None
  }

  /** Each amount lowered to the new collateral, and dropped where there is none. */
  function Lowered(a: Amounts, vs: seq<Validator>): Amounts {
    if a == [] then []
    else
      var c := PositiveCollateral(vs, a[0].0);
      (if c.Some? then [(a[0].0, Min(a[0].1, c.value))] else []) + Lowered(a[1..], vs)
  }

  /** `get_or_init_reward_amounts`. */
  function AmountsOf(w: World, id: SubnetId, info: RewardInfo): Option<Amounts> {
    if info.amounts.Some? then info.amounts
    else if id in w && info.mostRecent in w[id].subnet.committees
    then Some(PositiveCollaterals(w[id].subnet.committees[info.mostRecent].validators))
    else None
  }

  // ---------------------------------------------------------------------
  // The checkpoint hook

  function AfterCheckpoint(cfg: RewardConfig, w: World, t: Tracker, height: nat, id: SubnetId, cp: Checkpoint): Hook
    requires ValidConfig(cfg)
  {
    var snapshot := SnapshotAt(cfg, height);
    if snapshot.None? || height == Start(cfg, snapshot.value) then Hook(t, false)
    else
      var row := (snapshot.value, id);
      if cp.isKill then Hook(t.(candidates := t.candidates - {row}), false)
      else if cp.signedCommittee == cp.nextCommittee then Hook(t, false)
      else if row !in t.candidates || cp.nextCommittee == t.candidates[row].mostRecent then Hook(t, false)
      else
        var amounts := AmountsOf(w, id, t.candidates[row]);
        if amounts.None? || id !in w || cp.nextCommittee !in w[id].subnet.committees then Hook(t, true)
        else
          var lowered := Lowered(amounts.value, w[id].subnet.committees[cp.nextCommittee].validators);
          Hook(t.(candidates := t.candidates[row := RewardInfo(cp.nextCommittee, Some(lowered))]), false)
  }

  // ---------------------------------------------------------------------
  // The block hook

  /** Every active subnet becomes a candidate under its current committee. */
  function Started(w: World, t: Tracker, snapshot: nat, from: nat, to: nat): Tracker {
    t.(candidates := t.candidates + map id | id in w && Active(w[id], from, to) ::
         (snapshot, id) := RewardInfo(w[id].subnet.state.value.committeeNumber, None))
  }

  function Credit(rewards: map<Key, nat>, k: Key, amount: nat): map<Key, nat> {
    rewards[k := (if k in rewards then rewards[k] else 0) + amount]
  }

  function CreditAll(rewards: map<Key, nat>, a: Amounts): map<Key, nat>
    decreases |a|
  {
    if a == [] then rewards else CreditAll(Credit(rewards, a[0].0, a[0].1), a[1..])
  }

  function RowAmounts(w: World, t: Tracker, snapshot: nat, id: SubnetId): Option<Amounts> {
    if (snapshot, id) in t.candidates then AmountsOf(w, id, t.candidates[(snapshot, id)]) else None
  }

  /** The amounts of the candidates of a snapshot, in the order in which `rows` lists them. */
  function Gather(w: World, t: Tracker, snapshot: nat, rows: seq<SubnetId>, rewards: map<Key, nat>): Option<map<Key, nat>>
    decreases |rows|
  {
    if rows == [] then Some(rewards)
    else
      var a := RowAmounts(w, t, snapshot, rows[0]);
      if a.None? then None else Gather(w, t, snapshot, rows[1..], CreditAll(rewards, a.value))
  }

  /** The sum of all values. */
  ghost function MapSum(m: map<Key, nat>): nat
    decreases |m|
  {
    if m == map[] then 0
    else
      var k :| k in m;
      m[k] + MapSum(m - {k})
  }

  function CandidateIds(t: Tracker, snapshot: nat): set<SubnetId> {
    set row | row in t.candidates && row.0 == snapshot :: row.1
  }

  ghost function Finished(w: World, t: Tracker, snapshot: nat, rows: seq<SubnetId>): Hook {
    var rewards := Gather(w, t, snapshot, rows, map[]);
    if rewards.None? then Hook(t, true)
    else Hook(t.(results := t.results[snapshot := SnapshotResult(rewards.value, MapSum(rewards.value))]), false)
  }

  /** The tracker before the last part of the block hook. */
  function Opened(cfg: RewardConfig, w: World, t: Tracker, height: nat): Tracker
    requires ValidConfig(cfg)
  {
    var snapshot := SnapshotAt(cfg, height);
    if snapshot.Some? && height == Start(cfg, snapshot.value)
    then Started(w, t, snapshot.value, height, End(cfg, snapshot.value))
    else t
  }

  /** `rows` lists the candidates of the snapshot that ends with this block, if one does. */
  ghost function AfterBlock(cfg: RewardConfig, w: World, t: Tracker, height: nat, rows: seq<SubnetId>): Hook
    requires ValidConfig(cfg)
  {
    var snapshot, begun := SnapshotAt(cfg, height), Opened(cfg, w, t, height);
    if snapshot.Some? && height == End(cfg, snapshot.value) then Finished(w, begun, snapshot.value, rows)
    else Hook(begun, false)
  }
}

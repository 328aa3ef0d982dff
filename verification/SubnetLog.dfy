/**
 The stake-change log: its numbering and confirmations, and the fact that every
 committee snapshot is what replaying the log up to its own number gives.
 */
module SubnetLog {
  import opened Outcomes
  import opened Listings
  import opened Multisig
  import opened Committees
  import opened Subnets

  // ---------------------------------------------------------------------
  // Replaying the log

  ghost function PubKeys(vs: seq<Validator>): set<Key> {
    set v | v in vs :: v.pubkey
  }

  /** `m` is exactly the collateral of each validator. */
  ghost predicate Describes(m: map<Key, nat>, vs: seq<Validator>) {
    && m.Keys == PubKeys(vs)
    && forall v :: v in vs ==> v.pubkey in m && m[v.pubkey] == v.collateral
  }

  function CollateralMap(vs: seq<Validator>): map<Key, nat> {
    if vs == [] then map[]
    else CollateralMap(vs[..|vs| - 1])[vs[|vs| - 1].pubkey := vs[|vs| - 1].collateral]
  }

  /** A deposit adds, a withdrawal subtracts and removes what reaches zero; a join alone moves nothing. */
  function Replayed(m: map<Key, nat>, change: StakingChange, k: Key): map<Key, nat> {
    match change
    case Join => m
    case Deposit(a) => m[k := (if k in m then m[k] else 0) + a]
    case Withdraw(a) => if k !in m then m else if m[k] > a then m[k := m[k] - a] else m - {k}
  }

  /** The collateral after the first `n` changes. */
  function Replay(genesis: seq<Validator>, log: map<nat, StakeChange>, n: nat): map<Key, nat> {
    if n == 0 then CollateralMap(genesis)
    else if n !in log then map[]
    else Replayed(Replay(genesis, log, n - 1), log[n].change, log[n].validator)
  }

  lemma DescribesAppend(m: map<Key, nat>, vs: seq<Validator>, v: Validator)
    requires Describes(m, vs) && v.pubkey !in PubKeys(vs)
    ensures Describes(m[v.pubkey := v.collateral], vs + [v])
  {
    assert PubKeys(vs + [v]) == PubKeys(vs) + {v.pubkey};
    forall w | w in vs
      ensures w.pubkey in PubKeys(vs) && w.pubkey != v.pubkey
    {
    }
  }

  lemma DescribesModify(m: map<Key, nat>, vs: seq<Validator>, i: nat, v: Validator)
    requires Describes(m, vs) && DistinctValidators(vs) && i < |vs| && vs[i].pubkey == v.pubkey
    ensures Describes(m[v.pubkey := v.collateral], vs[i := v])
  {
    var ws, m' := vs[i := v], m[v.pubkey := v.collateral];
    assert vs[i] in vs && v.pubkey in m;
    forall w | w in ws
      ensures w.pubkey in m' && m'[w.pubkey] == w.collateral && w.pubkey in PubKeys(vs)
    {
      var j :| 0 <= j < |ws| && ws[j] == w;
      assert vs[j] in vs;
    }
    forall k | k in PubKeys(vs)
      ensures k in PubKeys(ws)
    {
      var w :| w in vs && w.pubkey == k;
      var j :| 0 <= j < |vs| && vs[j] == w;
      assert ws[j] in ws;
    }
    assert PubKeys(ws) == PubKeys(vs) == m'.Keys;
  }

  /** Removing a validator removes its key and no other. */
  lemma PubKeysRemove(vs: seq<Validator>, i: nat)
    requires DistinctValidators(vs) && i < |vs|
    ensures forall w :: w in Without(vs, i) ==> w in vs && w.pubkey != vs[i].pubkey
    ensures PubKeys(Without(vs, i)) == PubKeys(vs) - {vs[i].pubkey}
  {
    var ws := Without(vs, i);
    forall w | w in ws
      ensures w in vs && w.pubkey != vs[i].pubkey
    {
      var j :| 0 <= j < |ws| && ws[j] == w;
      assert w == vs[if j < i then j else j + 1];
    }
    forall k | k in PubKeys(vs) && k != vs[i].pubkey
      ensures k in PubKeys(ws)
    {
      var w :| w in vs && w.pubkey == k;
      var j :| 0 <= j < |vs| && vs[j] == w;
      assert ws[if j < i then j else j - 1] == w;
    }
  }

  lemma DescribesRemove(m: map<Key, nat>, vs: seq<Validator>, i: nat)
    requires Describes(m, vs) && DistinctValidators(vs) && i < |vs|
    ensures Describes(m - {vs[i].pubkey}, Without(vs, i))
    ensures vs[i].pubkey !in PubKeys(Without(vs, i))
  {
    PubKeysRemove(vs, i);
    assert (m - {vs[i].pubkey}).Keys == PubKeys(Without(vs, i));
  }

  lemma {:induction false} GenesisDescribed(vs: seq<Validator>)
    requires DistinctValidators(vs)
    ensures Describes(CollateralMap(vs), vs)
  {
    if vs != [] {
      var n := |vs| - 1;
      GenesisDescribed(vs[..n]);
      assert forall v :: v in vs[..n] ==> v.pubkey != vs[n].pubkey;
      DescribesAppend(CollateralMap(vs[..n]), vs[..n], vs[n]);
      assert vs[..n] + [vs[n]] == vs;
    }
  }

  /** Confirmations and later entries do not change a replay. */
  lemma {:induction false} ReplayFrame(genesis: seq<Validator>, log: map<nat, StakeChange>, log': map<nat, StakeChange>, n: nat)
    requires forall k :: 1 <= k <= n ==>
      k in log && k in log' && log[k].change == log'[k].change && log[k].validator == log'[k].validator
    ensures Replay(genesis, log, n) == Replay(genesis, log', n)
  {
    if n > 0 {
      ReplayFrame(genesis, log, log', n - 1);
      assert log[n].change == log'[n].change;
    }
  }

  // ---------------------------------------------------------------------
  // The invariants of the log

  ghost predicate Numbered(log: map<nat, StakeChange>) {
    && (forall k :: k in log <==> 1 <= k <= |log|)
    && forall k :: k in log ==> log[k].configurationNumber == k
  }

  /** Confirmed entries form a prefix, and neither kind of height ever falls along the log. */
  ghost predicate Ordered(log: map<nat, StakeChange>, now: nat) {
    && (forall k :: k in log ==> log[k].blockHeight <= now)
    && (forall k :: k in log && log[k].confirmed.Some? ==> log[k].blockHeight <= log[k].confirmed.value <= now)
    && forall j, k :: j in log && k in log && j < k ==>
         && log[j].blockHeight <= log[k].blockHeight
         && (log[k].confirmed.Some? ==> log[j].confirmed.Some? && log[j].confirmed.value <= log[k].confirmed.value)
  }

  ghost predicate LogOk(s: Subnet, now: nat) {
    Numbered(s.log) && Ordered(s.log, now)
  }

  lemma LogLater(s: Subnet, now: nat, height: nat)
    requires LogOk(s, now) && now <= height
    ensures LogOk(s, height)
  {
  }

  type Log = map<nat, StakeChange>

  /** The snapshot's collateral is the replay of the log up to the snapshot's number. */
  ghost predicate SnapshotOk(g: seq<Validator>, log: Log, c: Committee) {
    c.configurationNumber <= |log| && Describes(Replay(g, log, c.configurationNumber), c.validators)
  }

  /** The number of the snapshot that entry `k` carries: its own, or the next one for the first half of a join. */
  function SnapshotNumber(log: Log, k: nat): nat {
    if k in log && log[k].change.Join? then k + 1 else k
  }

  ghost predicate EntryOk(g: seq<Validator>, log: Log, k: nat) {
    && k in log
    && SnapshotOk(g, log, log[k].committeeAfter)
    && log[k].committeeAfter.configurationNumber == SnapshotNumber(log, k)
  }

  ghost predicate EntriesOk(g: seq<Validator>, log: Log) {
    forall k :: k in log ==> EntryOk(g, log, k)
  }

  ghost predicate StoredOk(g: seq<Validator>, log: Log, table: map<nat, Committee>) {
    forall n :: n in table ==> SnapshotOk(g, log, table[n])
  }

  /** A snapshot with the number of the whole log is the committee `c`. */
  ghost predicate LastIs(log: Log, c: Committee) {
    forall k :: k in log && log[k].committeeAfter.configurationNumber == |log| ==> log[k].committeeAfter == c
  }

  /** The latest committee replays the whole log. */
  ghost predicate LatestOk(g: seq<Validator>, log: Log, c: Committee) {
    c.configurationNumber == |log| && SnapshotOk(g, log, c)
  }

  /** Every snapshot there is replays the log: the current, the entries', the stored and the waiting one. */
  ghost predicate SnapshotsOk(g: seq<Validator>, log: Log, table: map<nat, Committee>, current: Committee, waiting: Option<Committee>) {
    && SnapshotOk(g, log, current)
    && EntriesOk(g, log)
    && StoredOk(g, log, table)
    && (waiting.Some? ==> LatestOk(g, log, waiting.value) && LastIs(log, waiting.value))
  }

  ghost predicate ReplayCore(s: Subnet) {
    && (s.state.None? ==> s.log == map[] && s.committees == map[])
    && (s.state.Some? ==>
        SnapshotsOk(s.genesis.validators, s.log, s.committees, s.state.value.committee, s.state.value.waiting))
  }

  /** The latest committee does not have the number of the whole log. */
  predicate Behind(s: Subnet) {
    s.state.Some? && LatestCommittee(s.state.value).configurationNumber != |s.log|
  }

  /** Every snapshot replays the log, and the latest one the whole of it. */
  ghost predicate ReplayOk(s: Subnet) {
    ReplayCore(s) && !Behind(s)
  }

  ghost predicate EntriesWellFormed(log: Log, id: SubnetId, minStake: nat) {
    forall k :: k in log ==> WellFormed(log[k].committeeAfter, id, minStake)
  }

  ghost predicate TableWellFormed(table: map<nat, Committee>, id: SubnetId, minStake: nat) {
    forall n :: n in table ==> WellFormed(table[n], id, minStake)
  }

  ghost predicate CommitteesOk(s: Subnet) {
    && GoodValidators(s.genesis.validators, s.genesis.minStake)
    && (s.state.Some? ==> WellFormed(s.state.value.committee, s.id, s.genesis.minStake))
    && (s.state.Some? ==> WellFormed(LatestCommittee(s.state.value), s.id, s.genesis.minStake))
    && EntriesWellFormed(s.log, s.id, s.genesis.minStake)
    && TableWellFormed(s.committees, s.id, s.genesis.minStake)
  }

  /** Entries stay as they are, except that an unconfirmed one may become confirmed. */
  ghost predicate LogKept(log: Log, log': Log) {
    forall k :: k in log ==>
      && k in log'
      && log'[k] == log[k].(confirmed := log'[k].confirmed)
      && (log[k].confirmed.Some? ==> log'[k].confirmed == log[k].confirmed)
  }

  lemma KeptTwice(a: Log, b: Log, c: Log)
    requires LogKept(a, b) && LogKept(b, c)
    ensures LogKept(a, c)
  {
  }

  // ---------------------------------------------------------------------
  // Appending to the log

  lemma AppendNumbered(log: map<nat, StakeChange>, e: StakeChange)
    requires Numbered(log) && e.configurationNumber == |log| + 1
    ensures |log| + 1 !in log
    ensures |log[|log| + 1 := e]| == |log| + 1
    ensures Numbered(log[|log| + 1 := e])
  {
    MapGrows(log, |log| + 1, e);
  }

  /** The last entry is replayed last. */
  lemma AppendReplay(g: seq<Validator>, log: Log, e: StakeChange)
    requires Numbered(log)
    ensures Replay(g, log[|log| + 1 := e], |log| + 1) == Replayed(Replay(g, log, |log|), e.change, e.validator)
  {
    var n, log' := |log| + 1, log[|log| + 1 := e];
    ReplayFrame(g, log, log', n - 1);
    assert log'[n] == e;
  }

  lemma AppendOrdered(log: map<nat, StakeChange>, e: StakeChange, now: nat, height: nat)
    requires Numbered(log) && Ordered(log, now) && now <= height
    requires e.configurationNumber == |log| + 1 && e.blockHeight == height && e.confirmed.None?
    ensures Ordered(log[|log| + 1 := e], height)
  {
  }

  lemma ConfirmOk(log: map<nat, StakeChange>, max: nat, now: nat, height: nat)
    requires Numbered(log) && Ordered(log, now) && now <= height
    ensures Numbered(ConfirmUpTo(log, max, height)) && Ordered(ConfirmUpTo(log, max, height), height)
    ensures |ConfirmUpTo(log, max, height)| == |log|
  {
    var log' := ConfirmUpTo(log, max, height);
    assert log'.Keys == log.Keys;
    assert |log'.Keys| == |log.Keys|;
  }

  /** A confirmation is never rewritten, and every entry up to `max` ends up confirmed. */
  lemma ConfirmExactly(log: map<nat, StakeChange>, max: nat, height: nat, k: nat)
    requires Numbered(log) && k in log
    ensures k in ConfirmUpTo(log, max, height)
    ensures log[k].confirmed.Some? ==> ConfirmUpTo(log, max, height)[k] == log[k]
    ensures ConfirmUpTo(log, max, height)[k].confirmed.Some? <==> log[k].confirmed.Some? || k <= max
    ensures log[k].confirmed.None? && k <= max ==> ConfirmUpTo(log, max, height)[k] == log[k].(confirmed := Some(height))
    ensures log[k].confirmed.None? && k > max ==> ConfirmUpTo(log, max, height)[k] == log[k]
  {
  }
}

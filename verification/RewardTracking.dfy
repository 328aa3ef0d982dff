/**
 The reward tracker as it is kept: tables rewritten by two hooks. Each hook leaves
 exactly the tables that its specification names.
 */
module RewardTracking {
  import opened Outcomes
  import opened Listings
  import opened Multisig
  import opened Committees
  import opened Subnets
  import opened Rewards
  import opened RewardMinima

  /** The table after the subnets in `done` were looked at. */
  ghost predicate PutSoFar(w: World, t: Tracker, snapshot: nat, from: nat, to: nat, done: seq<SubnetId>, candidates: map<(nat, SubnetId), RewardInfo>)
    requires forall id :: id in done ==> id in w
  {
    forall row: (nat, SubnetId) ::
      if row.0 == snapshot && row.1 in done && Active(w[row.1], from, to)
      then row in candidates && candidates[row] == RewardInfo(w[row.1].subnet.state.value.committeeNumber, None)
      else (row in candidates <==> row in t.candidates) && (row in t.candidates ==> candidates[row] == t.candidates[row])
  }

  lemma AllPut(w: World, t: Tracker, snapshot: nat, from: nat, to: nat, order: seq<SubnetId>, candidates: map<(nat, SubnetId), RewardInfo>)
    requires (forall id :: id in order <==> id in w) && PutSoFar(w, t, snapshot, from, to, order, candidates)
    ensures candidates == Started(w, t, snapshot, from, to).candidates
  {
    var all := Started(w, t, snapshot, from, to).candidates;
    forall row: (nat, SubnetId)
      ensures row in candidates <==> row in all
      ensures row in candidates && row in all ==> candidates[row] == all[row]
    {
      StartedRow(w, t, snapshot, from, to, row);
    }
  }

  lemma StartedRow(w: World, t: Tracker, snapshot: nat, from: nat, to: nat, row: (nat, SubnetId))
    ensures var all := Started(w, t, snapshot, from, to).candidates;
      if row.0 == snapshot && row.1 in w && Active(w[row.1], from, to)
      then row in all && all[row] == RewardInfo(w[row.1].subnet.state.value.committeeNumber, None)
      else (row in all <==> row in t.candidates) && (row in t.candidates ==> all[row] == t.candidates[row])
  {
  }

  /** The active subnets, written row by row. */
  method PutCandidates(w: World, t: Tracker, snapshot: nat, from: nat, to: nat, order: seq<SubnetId>)
    returns (candidates: map<(nat, SubnetId), RewardInfo>)
    requires Lists(order, w.Keys)
    ensures candidates == Started(w, t, snapshot, from, to).candidates
  {
    assert forall id :: id in order <==> id in w.Keys;
    candidates := t.candidates;
    for i := 0 to |order|
      invariant PutSoFar(w, t, snapshot, from, to, order[..i], candidates)
    {
      var id := order[i];
      assert order[..i + 1] == order[..i] + [id];
      if Active(w[id], from, to) {
        candidates := candidates[(snapshot, id) := RewardInfo(w[id].subnet.state.value.committeeNumber, None)];
      }
    }
    assert order[..|order|] == order;
    AllPut(w, t, snapshot, from, to, order, candidates);
  }

  /** `rewards_total`, accumulated over the candidates and their amounts. */
  method GatherRewards(w: World, t: Tracker, snapshot: nat, rows: seq<SubnetId>) returns (rewards: Option<map<Key, nat>>)
    ensures rewards == Gather(w, t, snapshot, rows, map[])
  {
    var totals: map<Key, nat> := map[];
    for i := 0 to |rows|
      invariant Gather(w, t, snapshot, rows[i..], totals) == Gather(w, t, snapshot, rows, map[])
    {
      assert rows[i..][1..] == rows[i + 1..];
      var amounts := RowAmounts(w, t, snapshot, rows[i]);
      if amounts.None? {
        return None;
      }
      ghost var all := CreditAll(totals, amounts.value);
      for j := 0 to |amounts.value|
        invariant CreditAll(totals, amounts.value[j..]) == all
      {
        var (k, amount) := amounts.value[j];
        assert amounts.value[j..][1..] == amounts.value[j + 1..];
        if k in totals {
          totals := totals[k := totals[k] + amount];
        } else {
          totals := totals[k := amount];
        }
      }
    }
    rewards := Some(totals);
  }

  /** The sum of the reward list, in whatever order the hash map yields its entries. */
  method SumRewards(rewards: map<Key, nat>) returns (total: nat)
    ensures total == MapSum(rewards)
  {
    total := 0;
    var left := rewards;
    while left != map[]
      invariant total + MapSum(left) == MapSum(rewards)
      decreases |left|
    {
      var k :| k in left;
      MapSumWithout(left, k);
      total := total + left[k];
      left := left - {k};
    }
  }

  class RewardTracker {
    const config: RewardConfig
    var candidates: map<(nat, SubnetId), RewardInfo>
    var results: map<nat, SnapshotResult>

    function View(): Tracker
      reads this
    {
      Tracker(candidates, results)
    }

    constructor (config: RewardConfig)
      ensures this.config == config && View() == Tracker(map[], map[])
    {
      this.config := config;
      candidates, results := map[], map[];
    }

    /** `order` and `rows` are the subnets and the candidates in the order in which they are iterated. */
    method UpdateAfterBlock(w: World, height: nat, order: seq<SubnetId>, rows: seq<SubnetId>) returns (failed: bool)
      requires ValidConfig(config) && Lists(order, w.Keys)
      modifies this
      ensures Hook(View(), failed) == AfterBlock(config, w, old(View()), height, rows)
    {
      if height < config.activation {
        return false;
      }
      var snapshot := (height - config.activation) / config.length;
      var start, end := Start(config, snapshot), End(config, snapshot);
      if height == start {
        candidates := PutCandidates(w, View(), snapshot, start, end, order);
      }
      if height == end {
        var rewards := GatherRewards(w, View(), snapshot, rows);
        if rewards.None? {
          return true;
        }
        var total := SumRewards(rewards.value);
        results := results[snapshot := SnapshotResult(rewards.value, total)];
      }
      failed := false;
    }

    method UpdateAfterCheckpoint(w: World, height: nat, id: SubnetId, cp: Checkpoint) returns (failed: bool)
      requires ValidConfig(config)
      modifies this`candidates
      ensures Hook(View(), failed) == AfterCheckpoint(config, w, old(View()), height, id, cp)
    {
      if height < config.activation {
        return false;
      }
      var snapshot := (height - config.activation) / config.length;
      if height == Start(config, snapshot) {
        return false;
      }
      var row := (snapshot, id);
      if cp.isKill {
        candidates := candidates - {row};
        return false;
      }
      if cp.signedCommittee == cp.nextCommittee || row !in candidates {
        return false;
      }
      var info := candidates[row];
      if cp.nextCommittee == info.mostRecent {
        return false;
      }
      var amounts := AmountsOf(w, id, info);
      if amounts.None? || id !in w || cp.nextCommittee !in w[id].subnet.committees {
        return true;
      }
      var lowered := LowerAmounts(amounts.value, w[id].subnet.committees[cp.nextCommittee].validators);
      candidates := candidates[row := RewardInfo(cp.nextCommittee, Some(lowered))];
      failed := false;
    }
  }

  method LowerAmounts(a: Amounts, vs: seq<Validator>) returns (lowered: Amounts)
    ensures lowered == Lowered(a, vs)
  {
    lowered := [];
    for i := 0 to |a|
      invariant Lowered(a, vs) == lowered + Lowered(a[i..], vs)
    {
      assert a[i..][1..] == a[i + 1..];
      var (k, amount) := a[i];
      var c := PositiveCollateral(vs, k);
      if c.Some? {
        assert lowered + Lowered(a[i..], vs) == lowered + [(k, Min(amount, c.value))] + Lowered(a[i + 1..], vs);
        lowered := lowered + [(k, Min(amount, c.value))];
      }
    }
  }
}

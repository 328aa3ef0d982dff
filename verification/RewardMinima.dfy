/**
 The amounts of one candidate as minima over committees, and their sums per key.
 */
module RewardMinima {
  import opened Outcomes
  import opened Listings
  import opened Multisig
  import opened Committees
  import opened Rewards

  // ---------------------------------------------------------------------
  // Minima, independently of any tracker

  function Smaller(a: Option<nat>, b: Option<nat>): Option<nat> {
    if a.Some? && b.Some? then Some(Min(a.value, b.value)) else None
  }

  /** The least collateral that `k` has in these committees, if it has some in each. */
  function MinOver(cs: seq<Committee>, k: Key): Option<nat>
    requires cs != []
  {
    var last := PositiveCollateral(cs[|cs| - 1].validators, k);
    if |cs| == 1 then last else Smaller(MinOver(cs[..|cs| - 1], k), last)
  }

  /** A bound that is attained, and defined when every committee has the key. */
  lemma {:induction false} MinOverBounds(cs: seq<Committee>, k: Key)
    requires cs != []
    ensures MinOver(cs, k).Some? <==> forall i :: 0 <= i < |cs| ==> PositiveCollateral(cs[i].validators, k).Some?
    ensures MinOver(cs, k).Some? ==>
      && (forall i :: 0 <= i < |cs| ==> MinOver(cs, k).value <= PositiveCollateral(cs[i].validators, k).value)
      && exists i :: 0 <= i < |cs| && MinOver(cs, k) == PositiveCollateral(cs[i].validators, k)
  {
    var n := |cs| - 1;
    if n > 0 {
      var before := cs[..n];
      MinOverBounds(before, k);
      assert forall i :: 0 <= i < n ==> before[i] == cs[i];
      if MinOver(cs, k).Some? {
        var i :| 0 <= i < |before| && MinOver(before, k) == PositiveCollateral(before[i].validators, k);
        assert MinOver(cs, k) == PositiveCollateral(cs[i].validators, k) || MinOver(cs, k) == PositiveCollateral(cs[n].validators, k);
      }
    } else {
      assert cs[0] == cs[n];
    }
  }

  // ---------------------------------------------------------------------
  // The same over the members' own collateral

  ghost predicate Holds(c: Committee, k: Key, amount: nat) {
    exists v :: v in c.validators && v.pubkey == k && v.collateral == amount
  }

  ghost predicate HoldsAtLeast(c: Committee, k: Key, amount: nat) {
    exists v :: v in c.validators && v.pubkey == k && v.collateral >= amount
  }

  /** The key is a member of every committee, with at least this positive collateral, and with just this one somewhere. */
  ghost predicate IsLeast(cs: seq<Committee>, k: Key, amount: nat) {
    && amount > 0
    && (forall c :: c in cs ==> HoldsAtLeast(c, k, amount))
    && exists c :: c in cs && Holds(c, k, amount)
  }

  ghost predicate AllDistinct(cs: seq<Committee>) {
    forall c :: c in cs ==> DistinctValidators(c.validators)
  }

  /** A committee without duplicates gives a key the collateral of the member that has it. */
  lemma {:induction false} PositiveExactly(vs: seq<Validator>, k: Key, amount: nat)
    requires DistinctValidators(vs)
    ensures PositiveCollateral(vs, k) == Some(amount) <==>
      amount > 0 && exists v :: v in vs && v.pubkey == k && v.collateral == amount
  {
    if vs != [] {
      assert vs == [vs[0]] + vs[1..];
      PositiveExactly(vs[1..], k, amount);
      PositiveIn(vs[1..], k);
      if vs[0].pubkey == k {
        assert forall v :: v in vs[1..] ==> v.pubkey != k;
        assert PositiveCollateral(vs[1..], k).None?;
      }
    }
  }

  /** A positive collateral of at least this much shows in the hash map. */
  lemma HeldIsPositive(c: Committee, k: Key, amount: nat)
    requires DistinctValidators(c.validators) && amount > 0
    ensures HoldsAtLeast(c, k, amount) <==>
      PositiveCollateral(c.validators, k).Some? && PositiveCollateral(c.validators, k).value >= amount
  {
    if HoldsAtLeast(c, k, amount) {
      var v :| v in c.validators && v.pubkey == k && v.collateral >= amount;
      PositiveExactly(c.validators, k, v.collateral);
    }
    if PositiveCollateral(c.validators, k).Some? {
      PositiveExactly(c.validators, k, PositiveCollateral(c.validators, k).value);
    }
  }

  /** `MinOver` is the least collateral of the key, as a member of all these committees. */
  lemma MinOverIsMinimum(cs: seq<Committee>, k: Key, amount: nat)
    requires cs != [] && AllDistinct(cs)
    ensures MinOver(cs, k) == Some(amount) <==> IsLeast(cs, k, amount)
  {
    MinOverBounds(cs, k);
    if MinOver(cs, k) == Some(amount) {
      var i :| 0 <= i < |cs| && MinOver(cs, k) == PositiveCollateral(cs[i].validators, k);
      PositiveExactly(cs[i].validators, k, amount);
      assert cs[i] in cs && Holds(cs[i], k, amount);
      forall c | c in cs
        ensures HoldsAtLeast(c, k, amount)
      {
        HeldIsPositive(c, k, amount);
      }
    }
    if IsLeast(cs, k, amount) {
      forall i | 0 <= i < |cs|
        ensures PositiveCollateral(cs[i].validators, k).Some? && PositiveCollateral(cs[i].validators, k).value >= amount
      {
        assert cs[i] in cs;
        HeldIsPositive(cs[i], k, amount);
      }
      var c :| c in cs && Holds(c, k, amount);
      PositiveExactly(c.validators, k, amount);
      var i :| 0 <= i < |cs| && cs[i] == c;
    }
  }

  /** The least collateral of a key over a list of committees. */
  ghost function LeastOver(cs: seq<Committee>, k: Key): Option<nat> {
    if exists amount: nat :: IsLeast(cs, k, amount) then
      var amount: nat :| IsLeast(cs, k, amount);
      Some(amount)
    else None
  }

  /** There is only one such amount, and the running minimum finds it. */
  lemma LeastIsMinOver(cs: seq<Committee>, k: Key)
    requires cs != [] && AllDistinct(cs)
    ensures LeastOver(cs, k) == MinOver(cs, k)
  {
    if MinOver(cs, k).Some? {
      MinOverIsMinimum(cs, k, MinOver(cs, k).value);
    }
    if LeastOver(cs, k).Some? {
      MinOverIsMinimum(cs, k, LeastOver(cs, k).value);
    }
  }

  /** A committee that stays in office changes no minimum. */
  lemma MinOverRepeat(cs: seq<Committee>, c: Committee, k: Key)
    requires cs != [] && cs[|cs| - 1] == c
    ensures MinOver(cs + [c], k) == MinOver(cs, k)
  {
    assert (cs + [c])[..|cs|] == cs;
  }

  lemma {:induction false} MinOverSame(cs: seq<Committee>, c: Committee, k: Key)
    requires cs != [] && forall i :: 0 <= i < |cs| ==> cs[i] == c
    ensures MinOver(cs, k) == PositiveCollateral(c.validators, k)
  {
    if |cs| > 1 {
      MinOverSame(cs[..|cs| - 1], c, k);
    }
  }

  // ---------------------------------------------------------------------
  // Amounts as a table

  function Lookup(a: Amounts, k: Key): Option<nat> {
    if a == [] then None else if a[0].0 == k then Some(a[0].1) else Lookup(a[1..], k)
  }

  ghost predicate DistinctAmounts(a: Amounts) {
    forall i, j :: 0 <= i < j < |a| ==> a[i].0 != a[j].0
  }

  lemma {:induction false} LookupIn(a: Amounts, k: Key)
    ensures Lookup(a, k).Some? <==> exists i :: 0 <= i < |a| && a[i].0 == k
  {
    if a != [] {
      LookupIn(a[1..], k);
      if Lookup(a[1..], k).Some? {
        var i :| 0 <= i < |a[1..]| && a[1..][i].0 == k;
        assert a[i + 1].0 == k;
      }
      if i :| 0 <= i < |a| && a[i].0 == k {
        assert i > 0 ==> a[1..][i - 1].0 == k;
      }
    }
  }

  lemma {:induction false} PositiveIn(vs: seq<Validator>, k: Key)
    ensures PositiveCollateral(vs, k).Some? ==> PositiveCollateral(vs, k).value > 0
    ensures PositiveCollateral(vs, k).Some? ==> exists i :: 0 <= i < |vs| && vs[i].pubkey == k
  {
    if vs != [] {
      PositiveIn(vs[1..], k);
      if PositiveCollateral(vs[1..], k).Some? {
        var i :| 0 <= i < |vs[1..]| && vs[1..][i].pubkey == k;
        assert vs[i + 1].pubkey == k;
      }
    }
  }

  /** The list and the hash map of a committee without duplicates agree. */
  lemma {:induction false} ListMatchesMap(vs: seq<Validator>, k: Key)
    requires DistinctValidators(vs)
    ensures Lookup(PositiveCollaterals(vs), k) == PositiveCollateral(vs, k)
  {
    if vs != [] {
      ListMatchesMap(vs[1..], k);
      PositiveIn(vs[1..], vs[0].pubkey);
      var rest := PositiveCollaterals(vs[1..]);
      if vs[0].collateral > 0 {
        assert PositiveCollaterals(vs)[1..] == rest;
      } else {
        assert PositiveCollaterals(vs) == rest;
      }
    }
  }

  lemma {:induction false} PositiveDistinct(vs: seq<Validator>)
    requires DistinctValidators(vs)
    ensures DistinctAmounts(PositiveCollaterals(vs))
  {
    if vs != [] {
      PositiveDistinct(vs[1..]);
      var rest := PositiveCollaterals(vs[1..]);
      forall i | 0 <= i < |rest|
        ensures rest[i].0 != vs[0].pubkey
      {
        LookupIn(rest, rest[i].0);
        ListMatchesMap(vs[1..], rest[i].0);
        PositiveIn(vs[1..], rest[i].0);
      }
    }
  }

  /** Lowering takes the smaller of the two, key by key. */
  lemma {:induction false} LoweredLookup(a: Amounts, vs: seq<Validator>, k: Key)
    ensures Lookup(Lowered(a, vs), k) == Smaller(Lookup(a, k), PositiveCollateral(vs, k))
  {
    if a != [] {
      LoweredLookup(a[1..], vs, k);
      var c, rest := PositiveCollateral(vs, a[0].0), Lowered(a[1..], vs);
      if c.Some? {
        assert Lowered(a, vs)[1..] == rest;
      } else {
        assert Lowered(a, vs) == rest;
      }
    }
  }

  lemma {:induction false} LoweredDistinct(a: Amounts, vs: seq<Validator>)
    requires DistinctAmounts(a)
    ensures DistinctAmounts(Lowered(a, vs))
  {
    if a != [] {
      LoweredDistinct(a[1..], vs);
      var rest := Lowered(a[1..], vs);
      forall i | 0 <= i < |rest|
        ensures rest[i].0 != a[0].0
      {
        LookupIn(rest, rest[i].0);
        LoweredLookup(a[1..], vs, rest[i].0);
        LookupIn(a[1..], rest[i].0);
        var j :| 0 <= j < |a[1..]| && a[1..][j].0 == rest[i].0;
        assert a[j + 1].0 == rest[i].0;
      }
    }
  }

  /** The amounts are the minima over these committees. */
  ghost predicate AreMinima(a: Amounts, cs: seq<Committee>)
    requires cs != []
  {
    DistinctAmounts(a) && forall k :: Lookup(a, k) == MinOver(cs, k)
  }

  lemma FirstMinima(cs: seq<Committee>, c: Committee)
    requires cs != [] && (forall i :: 0 <= i < |cs| ==> cs[i] == c) && DistinctValidators(c.validators)
    ensures AreMinima(PositiveCollaterals(c.validators), cs)
  {
    PositiveDistinct(c.validators);
    forall k
      ensures Lookup(PositiveCollaterals(c.validators), k) == MinOver(cs, k)
    {
      ListMatchesMap(c.validators, k);
      MinOverSame(cs, c, k);
    }
  }

  lemma LowerMinima(a: Amounts, cs: seq<Committee>, c: Committee)
    requires cs != [] && AreMinima(a, cs)
    ensures AreMinima(Lowered(a, c.validators), cs + [c])
  {
    LoweredDistinct(a, c.validators);
    forall k
      ensures Lookup(Lowered(a, c.validators), k) == MinOver(cs + [c], k)
    {
      LoweredLookup(a, c.validators, k);
      assert (cs + [c])[..|cs|] == cs;
    }
  }

  // ---------------------------------------------------------------------
  // Sums per key

  function OrZero(o: Option<nat>): nat {
    if o.Some? then o.value else 0
  }

  function Entry(m: map<Key, nat>, k: Key): nat {
    if k in m then m[k] else 0
  }

  function AmountSum(a: Amounts): nat {
    if a == [] then 0 else a[0].1 + AmountSum(a[1..])
  }

  /** Crediting distinct entries adds to each key what the entries have for it. */
  lemma {:induction false} CreditAllAt(rewards: map<Key, nat>, a: Amounts, k: Key)
    requires DistinctAmounts(a)
    ensures Entry(CreditAll(rewards, a), k) == Entry(rewards, k) + OrZero(Lookup(a, k))
    ensures k in CreditAll(rewards, a) <==> k in rewards || Lookup(a, k).Some?
    decreases |a|
  {
    if a != [] {
      var next := Credit(rewards, a[0].0, a[0].1);
      CreditAllAt(next, a[1..], k);
      LookupIn(a[1..], k);
    }
  }

  /** Any entry may be split off first. */
  lemma {:induction false} MapSumWithout(m: map<Key, nat>, k: Key)
    requires k in m
    ensures MapSum(m) == m[k] + MapSum(m - {k})
    decreases |m|
  {
    var first :| first in m && MapSum(m) == m[first] + MapSum(m - {first});
    if first != k {
      var x, y := m - {first}, m - {k};
      assert k in x && first in y && x - {k} == y - {first};
      MapSumWithout(x, k);
      MapSumWithout(y, first);
    }
  }

  lemma CreditSum(m: map<Key, nat>, k: Key, amount: nat)
    ensures MapSum(Credit(m, k, amount)) == MapSum(m) + amount
  {
    var m' := Credit(m, k, amount);
    MapSumWithout(m', k);
    if k in m {
      MapSumWithout(m, k);
      assert m' - {k} == m - {k};
    } else {
      assert m' - {k} == m;
    }
  }

  /** Nothing is lost or made up when amounts are credited. */
  lemma {:induction false} CreditAllSum(m: map<Key, nat>, a: Amounts)
    ensures MapSum(CreditAll(m, a)) == MapSum(m) + AmountSum(a)
    decreases |a|
  {
    if a != [] {
      CreditSum(m, a[0].0, a[0].1);
      CreditAllSum(Credit(m, a[0].0, a[0].1), a[1..]);
    }
  }

  /** A list and a map of the same amounts have the same sum. */
  lemma {:induction false} AmountSumIsMapSum(a: Amounts, m: map<Key, nat>)
    requires DistinctAmounts(a) && forall k :: Lookup(a, k) == if k in m then Some(m[k]) else None
    ensures AmountSum(a) == MapSum(m)
    decreases |a|
  {
    if a == [] {
      assert forall k :: k in m ==> Lookup(a, k) == Some(m[k]);
      assert m == map[];
    } else {
      var k0, rest, m' := a[0].0, a[1..], m - {a[0].0};
      assert Lookup(a, k0) == Some(a[0].1);
      forall k
        ensures Lookup(rest, k) == if k in m' then Some(m'[k]) else None
      {
        LookupIn(rest, k);
        assert Lookup(a, k) == if k in m then Some(m[k]) else None;
      }
      AmountSumIsMapSum(rest, m');
      MapSumWithout(m, k0);
    }
  }

  /** What row `id` gives key `k`. */
  function RowShare(w: World, t: Tracker, snapshot: nat, k: Key): SubnetId -> int {
    (id: SubnetId) =>
      var a := RowAmounts(w, t, snapshot, id);
      if a.Some? then OrZero(Lookup(a.value, k)) else 0
  }

  /** What row `id` gives all keys together. */
  function RowTotal(w: World, t: Tracker, snapshot: nat): SubnetId -> int {
    (id: SubnetId) =>
      var a := RowAmounts(w, t, snapshot, id);
      if a.Some? then AmountSum(a.value) else 0
  }

  ghost predicate GoodRow(w: World, t: Tracker, snapshot: nat, id: SubnetId) {
    RowAmounts(w, t, snapshot, id).Some? && DistinctAmounts(RowAmounts(w, t, snapshot, id).value)
  }

  predicate HasRow(w: World, t: Tracker, snapshot: nat, id: SubnetId, k: Key) {
    RowAmounts(w, t, snapshot, id).Some? && Lookup(RowAmounts(w, t, snapshot, id).value, k).Some?
  }

  lemma {:induction false} GatherAt(w: World, t: Tracker, snapshot: nat, rows: seq<SubnetId>, rewards: map<Key, nat>, k: Key)
    requires forall id :: id in rows ==> GoodRow(w, t, snapshot, id)
    ensures var all := Gather(w, t, snapshot, rows, rewards);
      && all.Some?
      && Entry(all.value, k) == Entry(rewards, k) + Sum(rows, RowShare(w, t, snapshot, k))
      && (k in all.value <==> k in rewards || exists id :: id in rows && HasRow(w, t, snapshot, id, k))
    decreases |rows|
  {
    if rows != [] {
      assert rows == [rows[0]] + rows[1..];
      assert GoodRow(w, t, snapshot, rows[0]);
      var a := RowAmounts(w, t, snapshot, rows[0]).value;
      CreditAllAt(rewards, a, k);
      assert HasRow(w, t, snapshot, rows[0], k) <==> Lookup(a, k).Some?;
      assert rows[0] in rows && forall id :: id in rows <==> id == rows[0] || id in rows[1..];
      GatherAt(w, t, snapshot, rows[1..], CreditAll(rewards, a), k);
    }
  }

  lemma {:induction false} GatherSum(w: World, t: Tracker, snapshot: nat, rows: seq<SubnetId>, rewards: map<Key, nat>)
    requires forall id :: id in rows ==> GoodRow(w, t, snapshot, id)
    ensures var all := Gather(w, t, snapshot, rows, rewards);
      all.Some? && MapSum(all.value) == MapSum(rewards) + Sum(rows, RowTotal(w, t, snapshot))
    decreases |rows|
  {
    if rows != [] {
      assert rows == [rows[0]] + rows[1..];
      assert GoodRow(w, t, snapshot, rows[0]);
      var a := RowAmounts(w, t, snapshot, rows[0]).value;
      CreditAllSum(rewards, a);
      GatherSum(w, t, snapshot, rows[1..], CreditAll(rewards, a));
    }
  }
}

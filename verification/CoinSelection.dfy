/**
 Coin selection for committee spends: largest first until the target and its
 size-dependent fee are covered, then a bounded sweep of the smallest leftovers.
 */
module CoinSelection {
  import opened Outcomes
  import opened Listings
  import opened Sorting

  datatype Utxo = Utxo(txid: nat, vout: nat, amount: nat)

  function AmountOf(): Utxo -> int {
    (u: Utxo) => u.amount
  }

  function Amount(us: seq<Utxo>): int {
    Sum(us, AmountOf())
  }

  /**
   One request: what to pay, what each input weighs, and how much to sweep. The fee
   for a weight is any function here, of which the source's fee rate is one.
   */
  datatype Job = Job(target: nat, fee: nat -> nat, baseWeight: nat, inputWeight: nat, dust: nat, sweepLimit: nat)

  /** The weight depends on how many inputs there are, not on which. */
  function WeightOf(j: Job, inputs: nat): nat {
    if inputs == 0 then j.baseWeight else WeightOf(j, inputs - 1) + j.inputWeight
  }

  function RequiredFee(j: Job, inputs: nat): nat {
    j.fee(WeightOf(j, inputs))
  }

  predicate Covers(j: Job, c: seq<Utxo>) {
    Amount(c) >= j.target + RequiredFee(j, |c|)
  }

  // ---------------------------------------------------------------------
  // The deterministic order: larger amounts first, then txid, then vout

  predicate Precedes(a: Utxo, b: Utxo) {
    || a.amount > b.amount
    || (a.amount == b.amount && (a.txid < b.txid || (a.txid == b.txid && a.vout <= b.vout)))
  }

  function Precedence(): (Utxo, Utxo) -> bool {
    (a: Utxo, b: Utxo) => Precedes(a, b)
  }

  function SortUtxos(s: seq<Utxo>): seq<Utxo> {
    Sort(s, Precedence())
  }

  // ---------------------------------------------------------------------
  // The three phases

  /** Phase 1: the first prefix, of at least `k` inputs, that covers its own fee. */
  function FirstCover(j: Job, s: seq<Utxo>, k: nat): Option<nat>
    decreases |s| + 1 - k
  {
    if k > |s| then None
    else if Covers(j, s[..k]) then Some(k)
    else FirstCover(j, s, k + 1)
  }

  /** The last `n` of the order, smallest first. */
  function Tail(s: seq<Utxo>, n: nat): seq<Utxo>
    requires n <= |s|
  {
    Reverse(s[|s| - n..])
  }

  function Picked(s: seq<Utxo>, k: nat, n: nat): seq<Utxo>
    requires k + n <= |s|
  {
    s[..k] + Tail(s, n)
  }

  /** Phase 2: sweep on while the change would stay at or above the dust value. */
  function Sweep(j: Job, s: seq<Utxo>, k: nat, n: nat): nat
    requires k + n <= |s|
    decreases |s| - k - n
  {
    if n >= j.sweepLimit || k + n == |s| then n
    else if Amount(Picked(s, k, n)) + s[|s| - n - 1].amount < j.target + RequiredFee(j, k + n + 1) + j.dust then n
    else Sweep(j, s, k, n + 1)
  }

  datatype Selection = Selection(selected: seq<Utxo>, change: Option<nat>)
  datatype CoinError = InsufficientFunds | InsufficientForFees

  /** `select_coins`. */
  function Select(j: Job, utxos: seq<Utxo>): Result<Selection, CoinError> {
    var s := SortUtxos(utxos);
    var k := FirstCover(j, s, 1);
    if k.None? || k.value > |s| then Err(InsufficientFunds)
    else Finish(j, Selected(j, s, k.value))
  }

  function Selected(j: Job, s: seq<Utxo>, k: nat): seq<Utxo>
    requires k <= |s|
  {
    SweepBounds(j, s, k, 0);
    Picked(s, k, Sweep(j, s, k, 0))
  }

  /** Phase 3: the final fee, and change only above the dust value. */
  function Finish(j: Job, selected: seq<Utxo>): Result<Selection, CoinError> {
    var left := Amount(selected) - j.target - RequiredFee(j, |selected|);
    if left < 0 then Err(InsufficientForFees)
    else Ok(Selection(selected, if left > j.dust then Some(left) else None))
  }

  lemma {:induction false} SweepBounds(j: Job, s: seq<Utxo>, k: nat, n: nat)
    requires k + n <= |s|
    ensures n <= Sweep(j, s, k, n) && k + Sweep(j, s, k, n) <= |s|
    ensures n <= j.sweepLimit ==> Sweep(j, s, k, n) <= j.sweepLimit
    decreases |s| - k - n
  {
    if n < j.sweepLimit && k + n < |s| {
      SweepBounds(j, s, k, n + 1);
    }
  }

  // ---------------------------------------------------------------------
  // Greedy optimality

  lemma {:induction false} FirstCoverFinds(j: Job, s: seq<Utxo>, k: nat)
    ensures var r := FirstCover(j, s, k);
      match r
      case None => forall i :: k <= i <= |s| ==> !Covers(j, s[..i])
      case Some(f) => k <= f <= |s| && Covers(j, s[..f]) && forall i :: k <= i < f ==> !Covers(j, s[..i])
    decreases |s| + 1 - k
  {
    if k <= |s| && !Covers(j, s[..k]) {
      FirstCoverFinds(j, s, k + 1);
    }
  }

  /** Among all choices of the same size, the largest-first prefix is worth most. */
  lemma {:induction false} PrefixIsRichest(s: seq<Utxo>, c: seq<Utxo>)
    requires Sorted(s, Precedence()) && multiset(c) <= multiset(s)
    ensures |c| <= |s| && Amount(c) <= Amount(s[..|c|])
    decreases |c|
  {
    SubMultisetSize(c, s);
    if c != [] {
      var i := OneOut(s, c);
      PrefixIsRichest(s[1..], Without(c, i));
      SumWithout(c, i, AmountOf());
      assert s[..|c|][1..] == s[1..][..|c| - 1];
    }
  }

  /** Some element of a choice can be traded for the richest output. */
  lemma OneOut(s: seq<Utxo>, c: seq<Utxo>) returns (i: nat)
    requires Sorted(s, Precedence()) && s != [] && c != [] && multiset(c) <= multiset(s)
    ensures i < |c| && c[i].amount <= s[0].amount
    ensures multiset(Without(c, i)) <= multiset(s[1..])
  {
    i := if s[0] in c then IndexOf(c, s[0]) else 0;
    InLarger(c, s, i);
    WithoutMultiset(c, i);
    assert Without(s, 0) == s[1..];
    WithoutMultiset(s, 0);
    DropBoth(c[i], s[0], multiset(Without(c, i)), multiset(s[1..]), multiset(c));
  }

  function IndexOf(c: seq<Utxo>, x: Utxo): (i: nat)
    requires x in c
    ensures i < |c| && c[i] == x
  {
    if c[0] == x then 0 else 1 + IndexOf(c[1..], x)
  }

  lemma DropBoth(x: Utxo, h: Utxo, m: multiset<Utxo>, n: multiset<Utxo>, all: multiset<Utxo>)
    requires all == multiset{x} + m && all <= multiset{h} + n
    requires x == h || h !in all
    ensures m <= n
  {
    forall y
      ensures m[y] <= n[y]
    {
      assert all[y] <= (multiset{h} + n)[y];
    }
  }

  lemma SubMultisetSize(c: seq<Utxo>, s: seq<Utxo>)
    requires multiset(c) <= multiset(s)
    ensures |c| <= |s|
  {
    var extra := multiset(s) - multiset(c);
    assert multiset(s) == multiset(c) + extra;
    assert |multiset(s)| == |multiset(c)| + |extra|;
  }

  /** A choice of at least one wallet output that pays the target and its own fee. */
  ghost predicate Solution(j: Job, utxos: seq<Utxo>, c: seq<Utxo>) {
    c != [] && multiset(c) <= multiset(utxos) && Covers(j, c)
  }

  lemma PrefixWithin(s: seq<Utxo>, utxos: seq<Utxo>, i: nat)
    requires i <= |s| && multiset(s) == multiset(utxos)
    ensures multiset(s[..i]) <= multiset(utxos)
  {
    assert s == s[..i] + s[i..];
  }

  /** Phase 1 stops at a solution with the fewest inputs there can be, or there is none. */
  lemma GreedyIsOptimal(j: Job, utxos: seq<Utxo>)
    ensures var s, f := SortUtxos(utxos), FirstCover(j, SortUtxos(utxos), 1);
      match f
      case None => !exists c :: Solution(j, utxos, c)
      case Some(k) => 1 <= k <= |s| && Solution(j, utxos, s[..k]) && forall c :: Solution(j, utxos, c) ==> k <= |c|
  {
    var s, f := SortUtxos(utxos), FirstCover(j, SortUtxos(utxos), 1);
    SortMultiset(utxos, Precedence());
    SortSorted(utxos, Precedence());
    FirstCoverFinds(j, s, 1);
    forall c | Solution(j, utxos, c)
      ensures f.Some? && f.value <= |c|
    {
      PrefixIsRichest(s, c);
      assert Covers(j, s[..|c|]);
    }
    if f.Some? {
      PrefixWithin(s, utxos, f.value);
    }
  }

  // ---------------------------------------------------------------------
  // Value accounting

  lemma {:induction false} SweepKeepsCover(j: Job, s: seq<Utxo>, k: nat, n: nat)
    requires k + n <= |s| && Covers(j, Picked(s, k, n))
    ensures k + Sweep(j, s, k, n) <= |s|
    ensures Covers(j, Picked(s, k, Sweep(j, s, k, n)))
    decreases |s| - k - n
  {
    if n < j.sweepLimit && k + n < |s|
       && Amount(Picked(s, k, n)) + s[|s| - n - 1].amount >= j.target + RequiredFee(j, k + n + 1) + j.dust {
      SweptCovers(j, s, k, n);
      SweepKeepsCover(j, s, k, n + 1);
    }
  }

  lemma SweptCovers(j: Job, s: seq<Utxo>, k: nat, n: nat)
    requires k + n < |s|
    requires Amount(Picked(s, k, n)) + s[|s| - n - 1].amount >= j.target + RequiredFee(j, k + n + 1) + j.dust
    ensures Covers(j, Picked(s, k, n + 1))
  {
    ReverseMultiset(s[|s| - n - 1..]);
    PickedNext(s, k, n);
  }

  lemma PickedNext(s: seq<Utxo>, k: nat, n: nat)
    requires k + n < |s|
    ensures Picked(s, k, n + 1) == Picked(s, k, n) + [s[|s| - n - 1]]
    ensures Amount(Picked(s, k, n + 1)) == Amount(Picked(s, k, n)) + s[|s| - n - 1].amount
  {
    assert s[|s| - n - 1..][1..] == s[|s| - n..];
    assert Picked(s, k, n + 1) == Picked(s, k, n) + [s[|s| - n - 1]];
    SumConcat(Picked(s, k, n), [s[|s| - n - 1]], AmountOf());
    assert Sum([s[|s| - n - 1]], AmountOf()) == AmountOf()(s[|s| - n - 1]) + Sum([s[|s| - n - 1]][1..], AmountOf());
  }

  lemma PickedWithin(s: seq<Utxo>, k: nat, n: nat)
    requires k + n <= |s|
    ensures multiset(Picked(s, k, n)) <= multiset(s)
  {
    ReverseMultiset(s[|s| - n..]);
    assert s == s[..k] + s[k..|s| - n] + s[|s| - n..];
  }

  /** The change output, or nothing. */
  function ChangeValue(sel: Selection): nat {
    if sel.change.Some? then sel.change.value else 0
  }

  /** What phase 2 hands on: inputs of the list that cover, at most the limit more than phase 1 took. */
  lemma SelectedCovers(j: Job, s: seq<Utxo>, k: nat)
    requires 1 <= k <= |s| && Covers(j, s[..k])
    ensures Covers(j, Selected(j, s, k)) && multiset(Selected(j, s, k)) <= multiset(s)
    ensures k <= |Selected(j, s, k)| <= k + j.sweepLimit
  {
    assert Picked(s, k, 0) == s[..k];
    SweepBounds(j, s, k, 0);
    SweepKeepsCover(j, s, k, 0);
    var n := Sweep(j, s, k, 0);
    ReverseMultiset(s[|s| - n..]);
    PickedWithin(s, k, n);
  }

  /** Phase 3 never fails on inputs that cover, and its fee is off by at most dust. */
  lemma FinishPays(j: Job, selected: seq<Utxo>)
    requires Covers(j, selected)
    ensures Finish(j, selected).Ok? && Finish(j, selected).value.selected == selected
    ensures var sel := Finish(j, selected).value;
      var paid := Amount(selected) - j.target - ChangeValue(sel);
      && RequiredFee(j, |selected|) <= paid <= RequiredFee(j, |selected|) + j.dust
      && (sel.change.Some? ==> paid == RequiredFee(j, |selected|) && sel.change.value > j.dust)
  {
  }

  /**
   `select_coins` as a whole. It fails exactly when no choice of outputs covers
   the target with its own fee, and never in its last phase. On success the inputs
   come from the wallet, each at most as often as it is there; the inputs pay the
   target, the change and a fee that is at least the required one and exceeds it
   by at most the dust value; change is always above dust; and the sweep adds at
   most its limit to the fewest inputs possible.
   */
  lemma SelectAccounts(j: Job, utxos: seq<Utxo>)
    ensures Select(j, utxos).Err? <==> !exists c :: Solution(j, utxos, c)
    ensures Select(j, utxos).Err? ==> Select(j, utxos).error == InsufficientFunds
    ensures Select(j, utxos).Ok? ==>
      var sel := Select(j, utxos).value;
      var paid := Amount(sel.selected) - j.target - ChangeValue(sel);
      && multiset(sel.selected) <= multiset(utxos)
      && RequiredFee(j, |sel.selected|) <= paid <= RequiredFee(j, |sel.selected|) + j.dust
      && (sel.change.Some? ==> paid == RequiredFee(j, |sel.selected|) && sel.change.value > j.dust)
      && forall c :: Solution(j, utxos, c) ==> |sel.selected| <= |c| + j.sweepLimit
  {
    GreedyIsOptimal(j, utxos);
    var s, f := SortUtxos(utxos), FirstCover(j, SortUtxos(utxos), 1);
    if f.Some? {
      var k := f.value;
      SelectedCovers(j, s, k);
      FinishPays(j, Selected(j, s, k));
      SortMultiset(utxos, Precedence());
      assert Solution(j, utxos, s[..k]);
    }
  }

  // ---------------------------------------------------------------------
  // Which outputs are selected

  /** Larger amounts first, then smaller transaction ids, then smaller output numbers. */
  ghost predicate InOrder(w: seq<Utxo>) {
    forall i, j :: 0 <= i < j < |w| ==>
      || w[i].amount > w[j].amount
      || (w[i].amount == w[j].amount && w[i].txid < w[j].txid)
      || (w[i].amount == w[j].amount && w[i].txid == w[j].txid && w[i].vout <= w[j].vout)
  }

  /** What is left of `c` after the target and the fee for a transaction with its inputs. */
  function Surplus(j: Job, c: seq<Utxo>): int {
    Amount(c) - j.target - j.fee(j.baseWeight + |c| * j.inputWeight)
  }

  lemma {:induction false} WeightExactly(j: Job, inputs: nat)
    ensures WeightOf(j, inputs) == j.baseWeight + inputs * j.inputWeight
  {
    if inputs > 0 {
      WeightExactly(j, inputs - 1);
      assert inputs * j.inputWeight == (inputs - 1) * j.inputWeight + j.inputWeight;
    }
  }

  lemma CoversExactly(j: Job, c: seq<Utxo>)
    ensures Covers(j, c) <==> Surplus(j, c) >= 0
  {
    WeightExactly(j, |c|);
  }

  /** The first `k` of the wallet in order, and no fewer, pay for themselves. */
  ghost predicate FewestCover(j: Job, w: seq<Utxo>, k: nat) {
    && 1 <= k <= |w|
    && Surplus(j, w[..k]) >= 0
    && forall i :: 1 <= i < k ==> Surplus(j, w[..i]) < 0
  }

  /** The first `k` of the wallet and then outputs from its end, the last one first. */
  ghost predicate Drawn(w: seq<Utxo>, k: nat, c: seq<Utxo>) {
    && k <= |c| <= |w|
    && c[..k] == w[..k]
    && forall i :: k <= i < |c| ==> c[i] == w[|w| - 1 - (i - k)]
  }

  /**
   After the first `k` come the smallest of the others, smallest first: as many as the limit
   allows, as there are, or as still leave the dust value when they are added.
   */
  ghost predicate SweptFrom(j: Job, w: seq<Utxo>, k: nat, c: seq<Utxo>) {
    && Drawn(w, k, c) && |c| <= k + j.sweepLimit
    && (forall i :: k < i <= |c| ==> Surplus(j, c[..i]) >= j.dust)
    && (|c| == k + j.sweepLimit || |c| == |w| || Surplus(j, c + [w[|w| - 1 - (|c| - k)]]) < j.dust)
  }

  /** All of what is left is change if it is more than dust, and goes to the fee otherwise. */
  ghost predicate SelectionSpec(j: Job, utxos: seq<Utxo>, w: seq<Utxo>, k: nat, sel: Selection) {
    && multiset(w) == multiset(utxos) && InOrder(w)
    && FewestCover(j, w, k)
    && SweptFrom(j, w, k, sel.selected)
    && Surplus(j, sel.selected) >= 0
    && sel.change == if Surplus(j, sel.selected) > j.dust then Some(Surplus(j, sel.selected)) else None
  }

  lemma SortUtxosInOrder(utxos: seq<Utxo>)
    ensures multiset(SortUtxos(utxos)) == multiset(utxos) && InOrder(SortUtxos(utxos))
  {
    SortMultiset(utxos, Precedence());
    SortSorted(utxos, Precedence());
  }

  lemma FirstCoverIsFewest(j: Job, s: seq<Utxo>)
    ensures var f := FirstCover(j, s, 1); f.Some? ==> FewestCover(j, s, f.value)
  {
    FirstCoverFinds(j, s, 1);
    forall i | 1 <= i <= |s|
      ensures Covers(j, s[..i]) <==> Surplus(j, s[..i]) >= 0
    {
      CoversExactly(j, s[..i]);
    }
  }

  /** The sum that phase 2 tests is the surplus with one more input. */
  lemma SweepTest(j: Job, s: seq<Utxo>, k: nat, n: nat)
    requires k + n < |s|
    ensures |Picked(s, k, n + 1)| == k + n + 1
    ensures Amount(Picked(s, k, n)) + s[|s| - n - 1].amount < j.target + RequiredFee(j, k + n + 1) + j.dust
            <==> Surplus(j, Picked(s, k, n + 1)) < j.dust
  {
    PickedNext(s, k, n);
    PickedAt(s, k, n + 1);
    WeightExactly(j, k + n + 1);
  }

  lemma PickedAt(s: seq<Utxo>, k: nat, n: nat)
    requires k + n <= |s|
    ensures |Picked(s, k, n)| == k + n
    ensures Picked(s, k, n)[..k] == s[..k]
    ensures forall i :: k <= i < k + n ==> Picked(s, k, n)[i] == s[|s| - 1 - (i - k)]
  {
    ReverseAt(s[|s| - n..]);
  }

  lemma PickedPrefix(s: seq<Utxo>, k: nat, n: nat, m: nat)
    requires m <= n && k + n <= |s|
    ensures |Picked(s, k, n)| == k + n && Picked(s, k, n)[..k + m] == Picked(s, k, m)
  {
    PickedAt(s, k, n);
    PickedAt(s, k, m);
    var long, short := Picked(s, k, n), Picked(s, k, m);
    forall i | 0 <= i < k + m
      ensures long[i] == short[i]
    {
      if i < k {
        assert long[i] == long[..k][i] && short[i] == short[..k][i];
      }
    }
  }

  /** Where the sweep stops, and why it did not stop before. */
  lemma {:induction false} SweepStops(j: Job, s: seq<Utxo>, k: nat, n: nat)
    requires k + n <= |s| && n <= j.sweepLimit
    ensures var r := Sweep(j, s, k, n);
      && n <= r <= j.sweepLimit && k + r <= |s|
      && (forall m :: n < m <= r ==> Surplus(j, Picked(s, k, m)) >= j.dust)
      && (r == j.sweepLimit || k + r == |s| || Surplus(j, Picked(s, k, r + 1)) < j.dust)
    decreases |s| - k - n
  {
    if n < j.sweepLimit && k + n < |s| {
      SweepTest(j, s, k, n);
      if Surplus(j, Picked(s, k, n + 1)) >= j.dust {
        SweepStops(j, s, k, n + 1);
      }
    }
  }

  lemma SelectedIsSwept(j: Job, s: seq<Utxo>, k: nat)
    requires k <= |s|
    ensures SweptFrom(j, s, k, Selected(j, s, k))
  {
    SweepStops(j, s, k, 0);
    var n := Sweep(j, s, k, 0);
    var c := Picked(s, k, n);
    PickedAt(s, k, n);
    forall i | k < i <= |c|
      ensures Surplus(j, c[..i]) >= j.dust
    {
      PickedPrefix(s, k, n, i - k);
    }
    if k + n < |s| {
      PickedNext(s, k, n);
    }
  }

  lemma FinishExactly(j: Job, c: seq<Utxo>, sel: Selection)
    requires Finish(j, c) == Ok(sel)
    ensures sel.selected == c && Surplus(j, c) >= 0
    ensures sel.change == if Surplus(j, c) > j.dust then Some(Surplus(j, c)) else None
  {
    WeightExactly(j, |c|);
  }

  lemma SelectedMeetsSpec(j: Job, utxos: seq<Utxo>, s: seq<Utxo>, k: nat, sel: Selection)
    requires s == SortUtxos(utxos) && FirstCover(j, s, 1) == Some(k) && k <= |s| && Finish(j, Selected(j, s, k)) == Ok(sel)
    ensures SelectionSpec(j, utxos, s, k, sel)
  {
    assert multiset(s) == multiset(utxos) && InOrder(s) by {
      SortUtxosInOrder(utxos);
    }
    assert FewestCover(j, s, k) by {
      FirstCoverIsFewest(j, s);
    }
    SelectedIsSwept(j, s, k);
    FinishExactly(j, Selected(j, s, k), sel);
  }

  lemma InOrderUnique(v: seq<Utxo>, w: seq<Utxo>)
    requires InOrder(v) && InOrder(w) && multiset(v) == multiset(w)
    ensures v == w
  {
    assert Sorted(v, Precedence()) && Sorted(w, Precedence());
    SortedUnique(v, w, Precedence());
  }

  lemma DrawnAt(w: seq<Utxo>, k: nat, c: seq<Utxo>, i: nat)
    requires Drawn(w, k, c) && i < |c|
    ensures c[i] == if i < k then w[i] else w[|w| - 1 - (i - k)]
  {
    if i < k {
      assert c[i] == c[..k][i] == w[..k][i];
    }
  }

  lemma DrawnFurther(w: seq<Utxo>, k: nat, c: seq<Utxo>, d: seq<Utxo>)
    requires Drawn(w, k, c) && Drawn(w, k, d) && |c| <= |d|
    ensures c == d[..|c|]
    ensures |c| < |d| ==> c + [w[|w| - 1 - (|c| - k)]] == d[..|c| + 1]
  {
    forall i | 0 <= i < |c|
      ensures c[i] == d[i]
    {
      DrawnAt(w, k, c, i);
      DrawnAt(w, k, d, i);
    }
  }

  /** No sweep stops earlier than another one does. */
  lemma SweptAsFar(j: Job, w: seq<Utxo>, k: nat, c: seq<Utxo>, d: seq<Utxo>)
    requires SweptFrom(j, w, k, c) && SweptFrom(j, w, k, d)
    ensures |d| <= |c|
  {
    if |c| < |d| {
      DrawnFurther(w, k, c, d);
    }
  }

  lemma SweptUnique(j: Job, w: seq<Utxo>, k: nat, c: seq<Utxo>, d: seq<Utxo>)
    requires SweptFrom(j, w, k, c) && SweptFrom(j, w, k, d)
    ensures c == d
  {
    SweptAsFar(j, w, k, c, d);
    SweptAsFar(j, w, k, d, c);
    DrawnFurther(w, k, c, d);
  }

  /** The specification leaves no choice. */
  lemma SpecIsUnique(j: Job, utxos: seq<Utxo>, v: seq<Utxo>, k: nat, sel: Selection, w: seq<Utxo>, l: nat, other: Selection)
    requires SelectionSpec(j, utxos, v, k, sel) && SelectionSpec(j, utxos, w, l, other)
    ensures sel == other
  {
    InOrderUnique(v, w);
    assert k == l;
    SweptUnique(j, v, k, sel.selected, other.selected);
  }

  /** Any choice from the wallet that pays the target and its own fee. */
  ghost predicate Pays(j: Job, utxos: seq<Utxo>, c: seq<Utxo>) {
    c != [] && multiset(c) <= multiset(utxos) && Surplus(j, c) >= 0
  }

  lemma SolutionPays(j: Job, utxos: seq<Utxo>, c: seq<Utxo>)
    ensures Solution(j, utxos, c) <==> Pays(j, utxos, c)
  {
    CoversExactly(j, c);
  }

  lemma SelectsWhenever(j: Job, utxos: seq<Utxo>)
    ensures Select(j, utxos).Ok? <==> exists c :: Pays(j, utxos, c)
  {
    SelectAccounts(j, utxos);
    if c :| Pays(j, utxos, c) {
      SolutionPays(j, utxos, c);
    }
    if c :| Solution(j, utxos, c) {
      SolutionPays(j, utxos, c);
    }
  }

  lemma SelectedBySpec(j: Job, utxos: seq<Utxo>) returns (k: nat)
    requires Select(j, utxos).Ok?
    ensures SelectionSpec(j, utxos, SortUtxos(utxos), k, Select(j, utxos).value)
  {
    k := FirstCover(j, SortUtxos(utxos), 1).value;
    SelectedMeetsSpec(j, utxos, SortUtxos(utxos), k, Select(j, utxos).value);
  }

  lemma SpecPays(j: Job, utxos: seq<Utxo>, w: seq<Utxo>, k: nat, sel: Selection)
    requires SelectionSpec(j, utxos, w, k, sel)
    ensures Pays(j, utxos, w[..k])
  {
    PrefixWithin(w, utxos, k);
  }

  /**
   What is selected, said of the result alone. With the wallet in order, the selection is
   the shortest beginning that pays the target and its own fee, followed by the smallest
   outputs left, smallest first, each of which leaves at least the dust value behind; it
   stops only at the limit, at the end of the wallet, or where the next one would not. What
   is then left is the change if it is more than dust. There is exactly one such selection,
   and it is found whenever some choice of outputs pays the target and its own fee.
   */
  lemma SelectExactly(j: Job, utxos: seq<Utxo>, sel: Selection)
    ensures Select(j, utxos) == Ok(sel) <==> exists w, k :: SelectionSpec(j, utxos, w, k, sel)
    ensures Select(j, utxos).Ok? <==> exists c :: Pays(j, utxos, c)
  {
    SelectsWhenever(j, utxos);
    if Select(j, utxos).Ok? {
      var k := SelectedBySpec(j, utxos);
      if w, l :| SelectionSpec(j, utxos, w, l, sel) {
        SpecIsUnique(j, utxos, SortUtxos(utxos), k, Select(j, utxos).value, w, l, sel);
      }
    } else if w, l :| SelectionSpec(j, utxos, w, l, sel) {
      SpecPays(j, utxos, w, l, sel);
    }
  }

  /** Listing the wallet in another order changes nothing. */
  lemma SelectOrderFree(j: Job, a: seq<Utxo>, b: seq<Utxo>)
    requires multiset(a) == multiset(b)
    ensures Select(j, a) == Select(j, b)
  {
    SortOrderFree(a, b, Precedence());
  }

  ghost predicate DistinctOutpoints(us: seq<Utxo>) {
    forall i, j :: 0 <= i < j < |us| ==> (us[i].txid, us[i].vout) != (us[j].txid, us[j].vout)
  }

  lemma {:induction false} DistinctOnce(a: seq<Utxo>, x: Utxo)
    requires DistinctOutpoints(a)
    ensures multiset(a)[x] <= 1
  {
    if a != [] {
      assert a == [a[0]] + a[1..];
      DistinctOnce(a[1..], x);
      if a[0] == x {
        assert x !in a[1..];
      }
    }
  }

  /** With distinct outpoints in the wallet no output is spent twice. */
  lemma NoDoubleSpend(j: Job, utxos: seq<Utxo>)
    requires DistinctOutpoints(utxos) && Select(j, utxos).Ok?
    ensures DistinctOutpoints(Select(j, utxos).value.selected)
  {
    SelectAccounts(j, utxos);
    var c := Select(j, utxos).value.selected;
    forall x, y | 0 <= x < y < |c|
      ensures (c[x].txid, c[x].vout) != (c[y].txid, c[y].vout)
    {
      InLarger(c, utxos, x);
      InLarger(c, utxos, y);
      if c[x] == c[y] {
        CountedTwice(c, x, y);
        DistinctOnce(utxos, c[x]);
      }
    }
  }

  // ---------------------------------------------------------------------
  // The loops

  /** `select_coins`, in the source's form. */
  method SelectCoins(j: Job, utxos: seq<Utxo>) returns (r: Result<Selection, CoinError>)
    ensures r == Select(j, utxos)
  {
    var s := SortUtxos(utxos);
    var selected, total, weight, covered := CoverLoop(j, s);
    if !covered {
      return Err(InsufficientFunds);
    }
    FirstCoverFinds(j, s, 1);
    selected, total, weight := SweepLoop(j, s, |selected|, selected, total, weight);
    var fee := j.fee(weight);
    if total < j.target || total - j.target < fee {
      return Err(InsufficientForFees);
    }
    var change := total - j.target - fee;
    if change > j.dust {
      r := Ok(Selection(selected, Some(change)));
    } else {
      r := Ok(Selection(selected, None));
    }
  }

  lemma PrefixNext(s: seq<Utxo>, i: nat)
    requires i < |s|
    ensures s[..i + 1] == s[..i] + [s[i]]
    ensures Amount(s[..i + 1]) == Amount(s[..i]) + s[i].amount
  {
    assert s[..i + 1] == s[..i] + [s[i]];
    SumConcat(s[..i], [s[i]], AmountOf());
    assert Sum([s[i]], AmountOf()) == AmountOf()(s[i]) + Sum([s[i]][1..], AmountOf());
  }

  /** Phase 1 of `select_coins`. */
  method CoverLoop(j: Job, s: seq<Utxo>)
    returns (selected: seq<Utxo>, total: int, weight: nat, covered: bool)
    ensures covered <==> FirstCover(j, s, 1).Some?
    ensures covered ==> |selected| <= |s| && FirstCover(j, s, 1) == Some(|selected|) && selected == s[..|selected|]
    ensures total == Amount(selected) && weight == WeightOf(j, |selected|)
  {
    selected, total, weight := [], 0, j.baseWeight;
    for index := 0 to |s|
      invariant selected == s[..index] && total == Amount(selected) && weight == WeightOf(j, index)
      invariant FirstCover(j, s, index + 1) == FirstCover(j, s, 1)
    {
      PrefixNext(s, index);
      selected := selected + [s[index]];
      total := total + s[index].amount;
      weight := weight + j.inputWeight;
      if total >= j.target + j.fee(weight) {
        return selected, total, weight, true;
      }
    }
    covered := false;
  }

  /** Phase 2 of `select_coins`. */
  method SweepLoop(j: Job, s: seq<Utxo>, k: nat, picked: seq<Utxo>, amount: int, w: nat)
    returns (selected: seq<Utxo>, total: int, weight: nat)
    requires k <= |s| && picked == s[..k] && amount == Amount(picked) && w == WeightOf(j, k)
    ensures selected == Selected(j, s, k)
    ensures total == Amount(selected) && weight == WeightOf(j, |selected|)
  {
    selected, total, weight := picked, amount, w;
    var n := 0;
    assert Picked(s, k, 0) == s[..k];
    while n < j.sweepLimit && k + n < |s|
      invariant k + n <= |s| && selected == Picked(s, k, n) && |selected| == k + n
      invariant total == Amount(selected) && weight == WeightOf(j, k + n)
      invariant Sweep(j, s, k, n) == Sweep(j, s, k, 0)
      decreases |s| - n
    {
      var utxo := s[|s| - n - 1];
      var nextWeight := weight + j.inputWeight;
      var nextAmount := total + utxo.amount;
      assert nextWeight == WeightOf(j, k + n + 1);
      if nextAmount < j.target + j.fee(nextWeight) + j.dust {
        break;
      }
      PickedNext(s, k, n);
      selected := selected + [utxo];
      total, weight := nextAmount, nextWeight;
      n := n + 1;
    }
  }
}

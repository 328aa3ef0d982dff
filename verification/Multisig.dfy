/**
 The weighted threshold multisig of a committee: the order of its keys, the
 tapscript it compiles to, and the power threshold.
 */
module Multisig {
  import opened Outcomes
  import opened Listings
  import opened Sorting

  const U32_MAX: nat := 0xFFFF_FFFF

  /** Keys compare as 32-byte strings, so a number stands for one. */
  type Key = nat
  type Power = p: nat | p <= U32_MAX

  datatype WeightedKey = WeightedKey(key: Key, power: Power)

  function PowerOf(): WeightedKey -> int {
    (w: WeightedKey) => w.power
  }

  function TotalPower(keys: seq<WeightedKey>): int {
    Sum(keys, PowerOf())
  }

  // ---------------------------------------------------------------------
  // sort_committee_keys: a stable sort by key alone

  function KeyOrder(): (WeightedKey, WeightedKey) -> bool {
    (a: WeightedKey, b: WeightedKey) => a.key <= b.key
  }

  function SortKeys(s: seq<WeightedKey>): seq<WeightedKey> {
    Sort(s, KeyOrder())
  }

  ghost predicate DistinctKeys(s: seq<WeightedKey>) {
    forall i, j :: 0 <= i < j < |s| ==> s[i].key != s[j].key
  }

  lemma SortKeysSameElements(s: seq<WeightedKey>)
    ensures |SortKeys(s)| == |s|
    ensures TotalPower(SortKeys(s)) == TotalPower(s)
    ensures forall w :: w in SortKeys(s) <==> w in s
  {
    SortMultiset(s, KeyOrder());
    assert |multiset(SortKeys(s))| == |multiset(s)|;
    SumPermutation(SortKeys(s), s, PowerOf());
    forall w
      ensures w in SortKeys(s) <==> w in s
    {
      assert w in multiset(SortKeys(s)) <==> w in multiset(s);
    }
  }

  /** The keys ascend, and each keeps its power. */
  lemma SortKeysAscending(s: seq<WeightedKey>)
    ensures multiset(SortKeys(s)) == multiset(s)
    ensures forall i, j :: 0 <= i < j < |SortKeys(s)| ==> SortKeys(s)[i].key <= SortKeys(s)[j].key
  {
    SortMultiset(s, KeyOrder());
    SortSorted(s, KeyOrder());
  }

  /** The sorted order, and so the script and the address, ignore the input order. */
  lemma SortKeysOrderFree(a: seq<WeightedKey>, b: seq<WeightedKey>)
    requires DistinctKeys(a) && multiset(a) == multiset(b)
    ensures SortKeys(a) == SortKeys(b)
  {
    SortOrderFree(a, b, KeyOrder());
  }

  // ---------------------------------------------------------------------
  // create_multisig_script

  datatype Op =
    | PushInt(n: int)
    | PushKey(key: Key)
    | OpSwap
    | OpCheckSig
    | OpIf
    | OpEndIf
    | OpAdd
    | OpGreaterThanOrEqual

  datatype MultisigError = InsufficientTotalPower

  function KeyBlock(w: WeightedKey): seq<Op> {
    [OpSwap, PushKey(w.key), OpCheckSig, OpIf, PushInt(w.power), OpAdd, OpEndIf]
  }

  function KeyBlocks(keys: seq<WeightedKey>): seq<Op> {
    if keys == [] then [] else KeyBlock(keys[0]) + KeyBlocks(keys[1..])
  }

  function MultisigScript(keys: seq<WeightedKey>, threshold: nat): Result<seq<Op>, MultisigError> {
    if TotalPower(keys) < threshold then Err(InsufficientTotalPower)
    else Ok([PushInt(0)] + KeyBlocks(SortKeys(keys)) + [PushInt(threshold), OpGreaterThanOrEqual])
  }
}

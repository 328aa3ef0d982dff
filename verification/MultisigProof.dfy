/**
 The compiled multisig script accepts a witness exactly when the signers hold the
 threshold, for committees the stack limit admits.
 */
module MultisigProof {
  import opened Outcomes
  import opened Listings
  import opened Sorting
  import opened Folding
  import opened Multisig
  import opened Tapscript

  type Signatures = map<Key, Signature>

  function ElemFor(k: Key, sigs: Signatures): Elem {
    if k in sigs then Sig(sigs[k]) else Num(0)
  }

  /** The witness stack, bottom first: the last key's element lies lowest. */
  function Witness(keys: seq<WeightedKey>, sigs: Signatures): seq<Elem> {
    if keys == [] then [] else Witness(keys[1..], sigs) + [ElemFor(keys[0].key, sigs)]
  }

  function SignedBy(sigs: Signatures): WeightedKey -> int {
    (w: WeightedKey) => if w.key in sigs then w.power else 0
  }

  function SignedPower(keys: seq<WeightedKey>, sigs: Signatures): int {
    Sum(keys, SignedBy(sigs))
  }

  function Signers(keys: seq<WeightedKey>, sigs: Signatures): nat {
    if keys == [] then 0 else (if keys[0].key in sigs then 1 else 0) + Signers(keys[1..], sigs)
  }

  ghost predicate AllValid(keys: seq<WeightedKey>, sigs: Signatures, valid: Checker) {
    forall w :: w in keys && w.key in sigs ==> valid(w.key, sigs[w.key])
  }

  lemma {:induction false} PowerWithin(keys: seq<WeightedKey>, sigs: Signatures)
    ensures 0 <= SignedPower(keys, sigs) <= TotalPower(keys)
  {
    if keys != [] {
      PowerWithin(keys[1..], sigs);
    }
  }

  lemma {:induction false} WitnessLength(keys: seq<WeightedKey>, sigs: Signatures)
    ensures |Witness(keys, sigs)| == |keys|
    ensures WitnessSize(Witness(keys, sigs)) >= 65 * Signers(keys, sigs)
  {
    if keys != [] {
      WitnessLength(keys[1..], sigs);
      WitnessSizeConcat(Witness(keys[1..], sigs), [ElemFor(keys[0].key, sigs)]);
    }
  }

  lemma {:induction false} WitnessSizeConcat(a: seq<Elem>, b: seq<Elem>)
    ensures WitnessSize(a + b) == WitnessSize(a) + WitnessSize(b)
  {
    if a == [] {
      assert a + b == b;
    } else {
      assert (a + b)[1..] == a[1..] + b;
      WitnessSizeConcat(a[1..], b);
    }
  }

  // ---------------------------------------------------------------------
  // Running the script

  /** The machines that one key's block runs through. */
  function BlockPath(pre: seq<Elem>, w: WeightedKey, sigs: Signatures, acc: int, budget: int): seq<Machine> {
    var x, signed := ElemFor(w.key, sigs), w.key in sigs;
    var left := budget - if signed then SIGOP_COST else 0;
    [ Machine(pre + [x, Num(acc)], [], budget),
      Machine(pre + [Num(acc), x], [], budget),
      Machine(pre + [Num(acc), x, PubKey(w.key)], [], budget),
      Machine(pre + [Num(acc), Num(if signed then 1 else 0)], [], left),
      Machine(pre + [Num(acc)], [signed], left),
      Machine(pre + (if signed then [Num(acc), Num(w.power)] else [Num(acc)]), [signed], left),
      Machine(pre + [Num(acc + if signed then w.power else 0)], [signed], left),
      Machine(pre + [Num(acc + if signed then w.power else 0)], [], left) ]
  }

  function FirstMachine(pre: seq<Elem>, w: WeightedKey, sigs: Signatures, acc: int, budget: int): Machine {
    Machine(pre + [ElemFor(w.key, sigs), Num(acc)], [], budget)
  }

  function LastMachine(pre: seq<Elem>, w: WeightedKey, sigs: Signatures, acc: int, budget: int): Machine {
    Machine(pre + [Num(acc + SignedBy(sigs)(w))], [], budget - if w.key in sigs then SIGOP_COST else 0)
  }

  lemma BlockPushes(pre: seq<Elem>, w: WeightedKey, sigs: Signatures, acc: int, budget: int, valid: Checker)
    requires |pre| + 3 <= MAX_STACK
    ensures var p := BlockPath(pre, w, sigs, acc, budget);
      && StepOp(OpSwap, p[0], valid) == Some(p[1])
      && StepOp(PushKey(w.key), p[1], valid) == Some(p[2])
  {
    var p := BlockPath(pre, w, sigs, acc, budget);
    assert p[0].stack[..|pre|] == pre;
    assert p[1].stack + [PubKey(w.key)] == p[2].stack;
  }

  lemma BlockChecks(pre: seq<Elem>, w: WeightedKey, sigs: Signatures, acc: int, budget: int, valid: Checker)
    requires |pre| + 3 <= MAX_STACK
    requires w.key in sigs ==> budget >= SIGOP_COST
    ensures var p := BlockPath(pre, w, sigs, acc, budget);
      StepOp(OpCheckSig, p[2], valid) == if w.key in sigs && !valid(w.key, sigs[w.key]) then None else Some(p[3])
  {
    var p := BlockPath(pre, w, sigs, acc, budget);
    assert p[2].stack[..|pre| + 1] == pre + [Num(acc)];
    assert pre + [Num(acc)] + [Num(0)] == pre + [Num(acc), Num(0)];
    assert pre + [Num(acc)] + [Num(1)] == pre + [Num(acc), Num(1)];
  }

  lemma BlockBranches(pre: seq<Elem>, w: WeightedKey, sigs: Signatures, acc: int, budget: int, valid: Checker)
    requires |pre| + 3 <= MAX_STACK
    ensures var p := BlockPath(pre, w, sigs, acc, budget);
      && StepOp(OpIf, p[3], valid) == Some(p[4])
      && StepOp(PushInt(w.power), p[4], valid) == Some(p[5])
  {
    var p := BlockPath(pre, w, sigs, acc, budget);
    assert p[3].stack[..|pre| + 1] == pre + [Num(acc)];
    assert p[3].cond + [w.key in sigs] == [w.key in sigs];
    assert pre + [Num(acc)] + [Num(w.power)] == pre + [Num(acc), Num(w.power)];
  }

  lemma BlockAdds(pre: seq<Elem>, w: WeightedKey, sigs: Signatures, acc: int, budget: int, valid: Checker)
    requires |pre| + 3 <= MAX_STACK
    requires 0 <= acc && acc + w.power <= MAX_OPERAND
    ensures var p := BlockPath(pre, w, sigs, acc, budget);
      && StepOp(OpAdd, p[5], valid) == Some(p[6])
      && StepOp(OpEndIf, p[6], valid) == Some(p[7])
  {
    var p := BlockPath(pre, w, sigs, acc, budget);
    if w.key in sigs {
      assert p[5].stack[..|pre|] == pre;
    }
    assert p[6].cond[..0] == [];
  }

  /** One key's block consumes its witness element and adds its power if it signed. */
  lemma BlockStep(pre: seq<Elem>, w: WeightedKey, sigs: Signatures, acc: int, budget: int, valid: Checker)
    requires |pre| + 3 <= MAX_STACK
    requires 0 <= acc && acc + w.power <= MAX_OPERAND
    requires w.key in sigs ==> budget >= SIGOP_COST
    ensures BlockDoes(KeyBlock(w), FirstMachine(pre, w, sigs, acc, budget), LastMachine(pre, w, sigs, acc, budget),
                      w.key in sigs ==> valid(w.key, sigs[w.key]), Stepper(valid))
  {
    var p, step := BlockPath(pre, w, sigs, acc, budget), Stepper(valid);
    BlockPushes(pre, w, sigs, acc, budget, valid);
    BlockChecks(pre, w, sigs, acc, budget, valid);
    if w.key in sigs && !valid(w.key, sigs[w.key]) {
      FoldStuck(KeyBlock(w), p[..3], step);
    } else {
      BlockBranches(pre, w, sigs, acc, budget, valid);
      BlockAdds(pre, w, sigs, acc, budget, valid);
      FoldPath(KeyBlock(w), p, step);
    }
  }

  /** The machine in front of the block of key `i`. */
  function Before(keys: seq<WeightedKey>, sigs: Signatures, budget: int, i: nat): Machine
    requires i <= |keys|
  {
    Machine(Witness(keys[i..], sigs) + [Num(SignedPower(keys[..i], sigs))], [],
            budget - SIGOP_COST * Signers(keys[..i], sigs))
  }

  lemma {:induction false} SignersSplit(keys: seq<WeightedKey>, sigs: Signatures, i: nat)
    requires i < |keys|
    ensures Signers(keys[..i + 1], sigs) == Signers(keys[..i], sigs) + if keys[i].key in sigs then 1 else 0
    ensures Signers(keys[..i + 1], sigs) <= Signers(keys, sigs)
  {
    if i > 0 {
      SignersSplit(keys[1..], sigs, i - 1);
      assert keys[..i + 1][1..] == keys[1..][..i] && keys[..i][1..] == keys[1..][..i - 1];
    } else {
      assert keys[..1][1..] == [];
    }
  }

  lemma PowerSplit(keys: seq<WeightedKey>, sigs: Signatures, i: nat)
    requires i < |keys|
    ensures SignedPower(keys[..i + 1], sigs) == SignedPower(keys[..i], sigs) + SignedBy(sigs)(keys[i])
    ensures 0 <= SignedPower(keys[..i], sigs)
    ensures SignedPower(keys[..i], sigs) + keys[i].power <= TotalPower(keys)
  {
    assert keys[..i + 1] == keys[..i] + [keys[i]];
    SumConcat(keys[..i], [keys[i]], SignedBy(sigs));
    assert keys == keys[..i] + ([keys[i]] + keys[i + 1..]);
    SumConcat(keys[..i], [keys[i]] + keys[i + 1..], PowerOf());
    SumConcat([keys[i]], keys[i + 1..], PowerOf());
    assert Sum([keys[i]], SignedBy(sigs)) == SignedBy(sigs)(keys[i]) + Sum([keys[i]][1..], SignedBy(sigs));
    assert Sum([keys[i]], PowerOf()) == PowerOf()(keys[i]) + Sum([keys[i]][1..], PowerOf());
    PowerWithin(keys[..i], sigs);
    PowerWithin(keys[i + 1..], sigs);
  }

  lemma BlockEnds(keys: seq<WeightedKey>, sigs: Signatures, budget: int, i: nat)
    requires i < |keys|
    ensures var pre, acc := Witness(keys[i + 1..], sigs), SignedPower(keys[..i], sigs);
      var left := budget - SIGOP_COST * Signers(keys[..i], sigs);
      && FirstMachine(pre, keys[i], sigs, acc, left) == Before(keys, sigs, budget, i)
      && LastMachine(pre, keys[i], sigs, acc, left) == Before(keys, sigs, budget, i + 1)
  {
    var w, pre := keys[i], Witness(keys[i + 1..], sigs);
    var acc := SignedPower(keys[..i], sigs);
    SignersSplit(keys, sigs, i);
    PowerSplit(keys, sigs, i);
    assert keys[i..][1..] == keys[i + 1..];
    assert Witness(keys[i..], sigs) + [Num(acc)] == pre + [ElemFor(w.key, sigs), Num(acc)];
  }

  lemma BlockRoom(keys: seq<WeightedKey>, sigs: Signatures, budget: int, i: nat)
    requires i < |keys| && |keys| + 2 <= MAX_STACK
    requires TotalPower(keys) <= MAX_OPERAND
    requires budget >= SIGOP_COST * Signers(keys, sigs)
    ensures |Witness(keys[i + 1..], sigs)| + 3 <= MAX_STACK
    ensures 0 <= SignedPower(keys[..i], sigs) && SignedPower(keys[..i], sigs) + keys[i].power <= MAX_OPERAND
    ensures keys[i].key in sigs ==> budget - SIGOP_COST * Signers(keys[..i], sigs) >= SIGOP_COST
  {
    WitnessLength(keys[i + 1..], sigs);
    SignersSplit(keys, sigs, i);
    PowerSplit(keys, sigs, i);
  }

  lemma BlockMoves(keys: seq<WeightedKey>, sigs: Signatures, budget: int, i: nat, valid: Checker,
                   first: Machine, last: Machine)
    requires i < |keys| && |keys| + 2 <= MAX_STACK
    requires TotalPower(keys) <= MAX_OPERAND
    requires budget >= SIGOP_COST * Signers(keys, sigs)
    requires first == Before(keys, sigs, budget, i) && last == Before(keys, sigs, budget, i + 1)
    ensures BlockDoes(KeyBlock(keys[i]), first, last, ValidAt(keys, sigs, valid, i), Stepper(valid))
  {
    var pre, acc := Witness(keys[i + 1..], sigs), SignedPower(keys[..i], sigs);
    var left := budget - SIGOP_COST * Signers(keys[..i], sigs);
    assert first == FirstMachine(pre, keys[i], sigs, acc, left) && last == LastMachine(pre, keys[i], sigs, acc, left) by {
      BlockEnds(keys, sigs, budget, i);
    }
    assert BlockDoes(KeyBlock(keys[i]), first, last, ValidAt(keys, sigs, valid, i), Stepper(valid)) by {
      BlockRoom(keys, sigs, budget, i);
      BlockStep(pre, keys[i], sigs, acc, left, valid);
    }
  }

  ghost predicate ValidAt(keys: seq<WeightedKey>, sigs: Signatures, valid: Checker, i: nat)
    requires i < |keys|
  {
    keys[i].key in sigs ==> valid(keys[i].key, sigs[keys[i].key])
  }

  function Blocks(keys: seq<WeightedKey>): seq<seq<Op>> {
    seq(|keys|, i requires 0 <= i < |keys| => KeyBlock(keys[i]))
  }

  lemma {:induction false} BlocksConcat(keys: seq<WeightedKey>)
    ensures Concat(Blocks(keys)) == KeyBlocks(keys)
  {
    if keys != [] {
      assert Blocks(keys)[1..] == Blocks(keys[1..]);
      BlocksConcat(keys[1..]);
    }
  }

  /** All blocks together: the accumulator ends at the signers' power. */
  lemma BlocksRun(keys: seq<WeightedKey>, sigs: Signatures, budget: int, valid: Checker)
    requires |keys| + 2 <= MAX_STACK && TotalPower(keys) <= MAX_OPERAND
    requires budget >= SIGOP_COST * Signers(keys, sigs)
    ensures Fold(KeyBlocks(keys), Before(keys, sigs, budget, 0), Stepper(valid))
            == if AllValid(keys, sigs, valid) then Some(Before(keys, sigs, budget, |keys|)) else None
  {
    var n := |keys|;
    var blocks := Blocks(keys);
    var path := seq(n + 1, i requires 0 <= i <= n => Before(keys, sigs, budget, i));
    var ok := seq(n, i requires 0 <= i < n => ValidAt(keys, sigs, valid, i));
    forall i | 0 <= i < n
      ensures BlockDoes(blocks[i], path[i], path[i + 1], ok[i], Stepper(valid))
    {
      BlockMoves(keys, sigs, budget, i, valid, path[i], path[i + 1]);
    }
    FoldBlocks(blocks, path, ok, Stepper(valid));
    BlocksConcat(keys);
    ValidEverywhere(keys, sigs, valid, ok);
  }

  lemma ValidEverywhere(keys: seq<WeightedKey>, sigs: Signatures, valid: Checker, ok: seq<bool>)
    requires |ok| == |keys| && forall i :: 0 <= i < |keys| ==> ok[i] == ValidAt(keys, sigs, valid, i)
    ensures AllValid(keys, sigs, valid) <==> false !in ok
  {
    if AllValid(keys, sigs, valid) {
      assert forall i :: 0 <= i < |keys| ==> keys[i] in keys && ok[i];
    } else {
      var w :| w in keys && w.key in sigs && !valid(w.key, sigs[w.key]);
      var i :| 0 <= i < |keys| && keys[i] == w;
      assert !ok[i];
    }
  }

  lemma Comparison(acc: int, threshold: int, budget: int, valid: Checker)
    requires 0 <= acc <= MAX_OPERAND && 0 <= threshold <= MAX_OPERAND
    ensures Fold([PushInt(threshold), OpGreaterThanOrEqual], Machine([Num(acc)], [], budget), Stepper(valid))
            == Some(Machine([Num(if acc >= threshold then 1 else 0)], [], budget))
  {
    var path := [
      Machine([Num(acc)], [], budget),
      Machine([Num(acc), Num(threshold)], [], budget),
      Machine([Num(if acc >= threshold then 1 else 0)], [], budget)];
    assert path[0].stack + [Num(threshold)] == path[1].stack;
    assert path[1].stack[..0] + path[2].stack == path[2].stack;
    FoldPath([PushInt(threshold), OpGreaterThanOrEqual], path, Stepper(valid));
  }

  lemma PushZero(stack: seq<Elem>, budget: int, valid: Checker)
    requires |stack| < MAX_STACK
    ensures Fold([PushInt(0)], Machine(stack, [], budget), Stepper(valid))
            == Some(Machine(stack + [Num(0)], [], budget))
  {
    FoldPath([PushInt(0)], [Machine(stack, [], budget), Machine(stack + [Num(0)], [], budget)], Stepper(valid));
  }

  lemma BeforeEnds(keys: seq<WeightedKey>, sigs: Signatures, budget: int)
    ensures Before(keys, sigs, budget, 0) == Machine(Witness(keys, sigs) + [Num(0)], [], budget)
    ensures Before(keys, sigs, budget, |keys|)
            == Machine([Num(SignedPower(keys, sigs))], [], budget - SIGOP_COST * Signers(keys, sigs))
  {
    var n := |keys|;
    assert keys[0..] == keys && keys[..n] == keys && keys[n..] == [] && keys[..0] == [];
    assert Witness([], sigs) + [Num(SignedPower(keys, sigs))] == [Num(SignedPower(keys, sigs))];
  }

  lemma ScriptRun(keys: seq<WeightedKey>, threshold: nat, sigs: Signatures, budget: int, valid: Checker)
    requires |keys| + 2 <= MAX_STACK && TotalPower(keys) <= MAX_OPERAND && threshold <= MAX_OPERAND
    requires budget >= SIGOP_COST * Signers(keys, sigs)
    ensures Exec([PushInt(0)] + KeyBlocks(keys) + [PushInt(threshold), OpGreaterThanOrEqual],
                 Machine(Witness(keys, sigs), [], budget), valid)
            == if !AllValid(keys, sigs, valid) then None
               else Some(Machine([Num(if SignedPower(keys, sigs) >= threshold then 1 else 0)], [],
                                 budget - SIGOP_COST * Signers(keys, sigs)))
  {
    var n := |keys|;
    var start, first := Machine(Witness(keys, sigs), [], budget), Before(keys, sigs, budget, 0);
    var acc, left := SignedPower(keys, sigs), budget - SIGOP_COST * Signers(keys, sigs);
    BeforeEnds(keys, sigs, budget);
    WitnessLength(keys, sigs);
    PushZero(Witness(keys, sigs), budget, valid);
    BlocksRun(keys, sigs, budget, valid);
    PowerWithin(keys, sigs);
    Comparison(acc, threshold, left, valid);
    FoldThree([PushInt(0)], KeyBlocks(keys), [PushInt(threshold), OpGreaterThanOrEqual], start, Stepper(valid), first,
              if AllValid(keys, sigs, valid) then Some(Machine([Num(acc)], [], left)) else None,
              Some(Machine([Num(if acc >= threshold then 1 else 0)], [], left)));
  }

  /** From 999 keys on, no witness of one element per key gets past the second push. */
  lemma TooManyKeys(keys: seq<WeightedKey>, threshold: nat, sigs: Signatures, budget: int, valid: Checker)
    requires |keys| + 2 > MAX_STACK && |keys| <= MAX_STACK
    ensures Exec([PushInt(0)] + KeyBlocks(keys) + [PushInt(threshold), OpGreaterThanOrEqual],
                 Machine(Witness(keys, sigs), [], budget), valid).None?
  {
    var m := Machine(Witness(keys, sigs), [], budget);
    WitnessLength(keys, sigs);
    var ops := [PushInt(0)] + KeyBlocks(keys) + [PushInt(threshold), OpGreaterThanOrEqual];
    assert ops[0] == PushInt(0) && ops[1] == OpSwap && ops[2] == PushKey(keys[0].key);
    var m1 := m.(stack := m.stack + [Num(0)]);
    if |m1.stack| > MAX_STACK {
      FoldStuck(ops, [m], Stepper(valid));
    } else {
      var m2 := StepOp(OpSwap, m1, valid).value;
      FoldStuck(ops, [m, m1, m2], Stepper(valid));
    }
  }

  // ---------------------------------------------------------------------
  // finalize_spend_psbt

  /** One witness element per key, pushed in reverse sorted order. */
  method FinalizeWitness(keys: seq<WeightedKey>, sigs: Signatures) returns (elems: seq<Elem>)
    ensures elems == Witness(SortKeys(keys), sigs)
  {
    var sorted := SortKeys(keys);
    elems := [];
    var i := |sorted|;
    assert sorted[i..] == [];
    while i > 0
      invariant 0 <= i <= |sorted|
      invariant elems == Witness(sorted[i..], sigs)
    {
      i := i - 1;
      assert sorted[i..][1..] == sorted[i + 1..];
      elems := elems + [if sorted[i].key in sigs then Sig(sigs[sorted[i].key]) else Num(0)];
    }
    assert sorted[0..] == sorted;
  }

  lemma SortedSignersSame(keys: seq<WeightedKey>, sigs: Signatures, valid: Checker)
    ensures SignedPower(SortKeys(keys), sigs) == SignedPower(keys, sigs)
    ensures AllValid(SortKeys(keys), sigs, valid) <==> AllValid(keys, sigs, valid)
  {
    SortMultiset(keys, KeyOrder());
    SumPermutation(SortKeys(keys), keys, SignedBy(sigs));
    SortKeysSameElements(keys);
  }

  /**
   Script correctness. For every committee whose power fits four-byte script
   numbers, every input order of its keys and every set of collected signatures:
   the finalized witness spends the script if and only if the committee has at
   most 998 keys, every collected signature of a member verifies, and the signing
   members hold the threshold.
   */
  lemma MultisigCorrect(keys: seq<WeightedKey>, threshold: nat, sigs: Signatures, extra: nat, valid: Checker)
    requires TotalPower(keys) <= MAX_OPERAND
    requires MultisigScript(keys, threshold).Ok?
    ensures Spends(MultisigScript(keys, threshold).value, Witness(SortKeys(keys), sigs), extra, valid)
            <==> |keys| <= 998 && AllValid(keys, sigs, valid) && SignedPower(keys, sigs) >= threshold
  {
    var sorted := SortKeys(keys);
    SortKeysSameElements(keys);
    SortedSignersSame(keys, sigs, valid);
    WitnessLength(sorted, sigs);
    var budget := 50 + WitnessSize(Witness(sorted, sigs)) + extra;
    if |keys| <= 998 {
      ScriptRun(sorted, threshold, sigs, budget, valid);
    } else if |keys| <= MAX_STACK {
      TooManyKeys(sorted, threshold, sigs, budget, valid);
    }
  }

  /** Committees listed in a different order share the script and every witness. */
  lemma MultisigOrderFree(a: seq<WeightedKey>, b: seq<WeightedKey>, threshold: nat, sigs: Signatures)
    requires DistinctKeys(a) && multiset(a) == multiset(b)
    ensures MultisigScript(a, threshold) == MultisigScript(b, threshold)
    ensures Witness(SortKeys(a), sigs) == Witness(SortKeys(b), sigs)
  {
    SortKeysOrderFree(a, b);
    SumPermutation(a, b, PowerOf());
  }
}

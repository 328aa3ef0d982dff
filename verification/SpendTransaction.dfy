/**
 The unsigned spend of a committee's outputs: a selection with change, or every
 output at once when the committee changes or the subnet is killed, and the kill
 checkpoint that pays its change out to the leaving validators.
 */
module SpendTransaction {
  import opened Outcomes
  import opened Listings
  import opened Sorting
  import opened CoinSelection

  type Script = nat

  datatype TxOut = TxOut(value: nat, script: Script)
  datatype Tx = Tx(inputs: seq<Utxo>, outputs: seq<TxOut>)

  datatype SpendError = NoUtxos | CannotCoverOutputs | CannotCoverFees | SelectionFailed(error: CoinError) | ShareOverflow

  function ValueOf(): TxOut -> int {
    (o: TxOut) => o.value
  }

  function Value(outs: seq<TxOut>): int {
    Sum(outs, ValueOf())
  }

  function Scripts(outs: seq<TxOut>): seq<Script> {
    seq(|outs|, i requires 0 <= i < |outs| => outs[i].script)
  }

  /**
   How the committee spends. What a transaction weighs is some function of its
   output scripts and of the number of its inputs; the values of outputs take eight
   bytes whatever they are. The fee is any function of the weight.
   */
  datatype Spender = Spender(
    changeScript: Script,
    dust: nat,
    fee: nat -> nat,
    baseWeight: seq<Script> -> nat,
    inputWeight: nat,
    fullWeight: (seq<Script>, nat) -> nat)

  /** The exact fee for spending `n` inputs into `outs` and a change output. */
  function SpendAllFee(sp: Spender, outs: seq<TxOut>, n: nat): nat {
    sp.fee(sp.fullWeight(Scripts(outs) + [sp.changeScript], n))
  }

  /** Only change above the dust value gets an output. */
  function WithChange(sp: Spender, outs: seq<TxOut>, left: nat): seq<TxOut> {
    if left > sp.dust then outs + [TxOut(left, sp.changeScript)] else outs
  }

  /** `construct_spend_unsigned_transaction` with `exhaust_unspent`. */
  function SpendAll(sp: Spender, unspent: seq<Utxo>, outs: seq<TxOut>): Result<Tx, SpendError> {
    if unspent == [] then Err(NoUtxos)
    else if Amount(unspent) < Value(outs) then Err(CannotCoverOutputs)
    else
      var left := Amount(unspent) - Value(outs) - SpendAllFee(sp, outs, |unspent|);
      if left < 0 then Err(CannotCoverFees)
      else Ok(Tx(SortUtxos(unspent), WithChange(sp, outs, left)))
  }

  /** What the selection is asked to pay for: the outputs and one change output. */
  function SelectJob(sp: Spender, outs: seq<TxOut>, sweepLimit: nat): Job
    requires Value(outs) >= 0
  {
    Job(Value(outs), sp.fee, sp.baseWeight(Scripts(outs) + [sp.changeScript]), sp.inputWeight, sp.dust, sweepLimit)
  }

  lemma {:induction false} ValueNonNegative(outs: seq<TxOut>)
    ensures Value(outs) >= 0
  {
    if outs != [] {
      ValueNonNegative(outs[1..]);
    }
  }

  /** The same call without `exhaust_unspent`. */
  function SpendSome(sp: Spender, unspent: seq<Utxo>, outs: seq<TxOut>, sweepLimit: nat): Result<Tx, SpendError> {
    ValueNonNegative(outs);
    var r := Select(SelectJob(sp, outs, sweepLimit), unspent);
    if r.Err? then Err(SelectionFailed(r.error))
    else Ok(Tx(r.value.selected,
               if r.value.change.Some? then outs + [TxOut(r.value.change.value, sp.changeScript)] else outs))
  }

  function ConstructSpend(sp: Spender, unspent: seq<Utxo>, exhaust: bool, outs: seq<TxOut>, sweepLimit: nat): Result<Tx, SpendError> {
    if exhaust then SpendAll(sp, unspent, outs) else SpendSome(sp, unspent, outs, sweepLimit)
  }

  function FeePaid(tx: Tx): int {
    Amount(tx.inputs) - Value(tx.outputs)
  }

  /** The fee the transaction has to pay for its size. */
  function FeeDue(sp: Spender, tx: Tx, exhaust: bool, outs: seq<TxOut>): nat {
    if exhaust then SpendAllFee(sp, outs, |tx.inputs|)
    else
      ValueNonNegative(outs);
      RequiredFee(SelectJob(sp, outs, 0), |tx.inputs|)
  }

  lemma AppendValue(outs: seq<TxOut>, o: TxOut)
    ensures Value(outs + [o]) == Value(outs) + o.value
  {
    SumConcat(outs, [o], ValueOf());
    assert Sum([o], ValueOf()) == ValueOf()(o) + Sum([o][1..], ValueOf());
  }

  lemma {:induction false} SameWeight(j: Job, k: Job, n: nat)
    requires j.baseWeight == k.baseWeight && j.inputWeight == k.inputWeight
    ensures WeightOf(j, n) == WeightOf(k, n)
  {
    if n > 0 {
      SameWeight(j, k, n - 1);
    }
  }

  /**
   Every transaction that is built carries the listed outputs first and unchanged,
   spends only given outputs, all of them when asked to exhaust, and pays in fee
   what its size demands or at most the dust value more.
   */
  lemma SpendAccounts(sp: Spender, unspent: seq<Utxo>, exhaust: bool, outs: seq<TxOut>, sweepLimit: nat)
    requires ConstructSpend(sp, unspent, exhaust, outs, sweepLimit).Ok?
    ensures var tx := ConstructSpend(sp, unspent, exhaust, outs, sweepLimit).value;
      && outs <= tx.outputs && |tx.outputs| <= |outs| + 1
      && (|tx.outputs| > |outs| ==> tx.outputs[|outs|].script == sp.changeScript && tx.outputs[|outs|].value > sp.dust)
      && multiset(tx.inputs) <= multiset(unspent)
      && (exhaust ==> multiset(tx.inputs) == multiset(unspent))
      && FeeDue(sp, tx, exhaust, outs) <= FeePaid(tx) <= FeeDue(sp, tx, exhaust, outs) + sp.dust
  {
    var tx := ConstructSpend(sp, unspent, exhaust, outs, sweepLimit).value;
    ValueNonNegative(outs);
    if exhaust {
      SortMultiset(unspent, Precedence());
      SumPermutation(SortUtxos(unspent), unspent, CoinSelection.AmountOf());
      assert |multiset(SortUtxos(unspent))| == |multiset(unspent)|;
      AppendValue(outs, TxOut(if |tx.outputs| > |outs| then tx.outputs[|outs|].value else 0, sp.changeScript));
    } else {
      var j := SelectJob(sp, outs, sweepLimit);
      SelectAccounts(j, unspent);
      SameWeight(j, SelectJob(sp, outs, 0), |tx.inputs|);
      AppendValue(outs, TxOut(ChangeValue(Select(j, unspent).value), sp.changeScript));
    }
  }

  // ---------------------------------------------------------------------
  // Which transaction is built

  /** All outputs of the wallet in order, the listed outputs, and what is left if it is more than dust. */
  ghost predicate SpendsAll(sp: Spender, unspent: seq<Utxo>, outs: seq<TxOut>, tx: Tx) {
    var left := Amount(unspent) - Value(outs) - sp.fee(sp.fullWeight(Scripts(outs) + [sp.changeScript], |unspent|));
    && unspent != [] && left >= 0
    && multiset(tx.inputs) == multiset(unspent) && InOrder(tx.inputs)
    && tx.outputs == if left > sp.dust then outs + [TxOut(left, sp.changeScript)] else outs
  }

  /** The outputs selected to pay for the listed ones, with the change as the last output. */
  ghost predicate SpendsSelected(sp: Spender, unspent: seq<Utxo>, outs: seq<TxOut>, sweepLimit: nat, tx: Tx, change: Option<nat>) {
    && Value(outs) >= 0
    && (exists w, k ::
          SelectionSpec(Job(Value(outs), sp.fee, sp.baseWeight(Scripts(outs) + [sp.changeScript]), sp.inputWeight, sp.dust, sweepLimit),
                        unspent, w, k, Selection(tx.inputs, change)))
    && tx.outputs == if change.Some? then outs + [TxOut(change.value, sp.changeScript)] else outs
  }

  lemma SpendAllExactly(sp: Spender, unspent: seq<Utxo>, outs: seq<TxOut>, tx: Tx)
    ensures SpendAll(sp, unspent, outs) == Ok(tx) <==> SpendsAll(sp, unspent, outs, tx)
  {
    SortUtxosInOrder(unspent);
    if SpendsAll(sp, unspent, outs, tx) {
      InOrderUnique(tx.inputs, SortUtxos(unspent));
    }
  }

  lemma SpendSomeExactly(sp: Spender, unspent: seq<Utxo>, outs: seq<TxOut>, sweepLimit: nat, tx: Tx)
    ensures SpendSome(sp, unspent, outs, sweepLimit) == Ok(tx) <==>
      exists change :: SpendsSelected(sp, unspent, outs, sweepLimit, tx, change)
  {
    ValueNonNegative(outs);
    var j := Job(Value(outs), sp.fee, sp.baseWeight(Scripts(outs) + [sp.changeScript]), sp.inputWeight, sp.dust, sweepLimit);
    var r := Select(j, unspent);
    if r.Ok? {
      SelectExactly(j, unspent, r.value);
    }
    if SpendSome(sp, unspent, outs, sweepLimit) == Ok(tx) {
      assert r.value == Selection(tx.inputs, r.value.change);
      assert SpendsSelected(sp, unspent, outs, sweepLimit, tx, r.value.change);
    }
    if change :| SpendsSelected(sp, unspent, outs, sweepLimit, tx, change) {
      SelectExactly(j, unspent, Selection(tx.inputs, change));
    }
  }

  /**
   Exactly which transaction is built, if any: with `exhaust` the whole wallet pays the
   listed outputs and the fee for all of it, and otherwise the selection made for the
   listed outputs does; the change goes last, and only if it is more than dust.
   */
  lemma SpendExactly(sp: Spender, unspent: seq<Utxo>, exhaust: bool, outs: seq<TxOut>, sweepLimit: nat, tx: Tx)
    ensures ConstructSpend(sp, unspent, exhaust, outs, sweepLimit) == Ok(tx) <==>
      if exhaust then SpendsAll(sp, unspent, outs, tx)
      else exists change :: SpendsSelected(sp, unspent, outs, sweepLimit, tx, change)
  {
    if exhaust {
      SpendAllExactly(sp, unspent, outs, tx);
    } else {
      SpendSomeExactly(sp, unspent, outs, sweepLimit, tx);
    }
  }

  /** A refusal names what is wrong: nothing to spend, not enough for the outputs, or for the fee, or for any choice. */
  lemma SpendRefused(sp: Spender, unspent: seq<Utxo>, exhaust: bool, outs: seq<TxOut>, sweepLimit: nat)
    requires ConstructSpend(sp, unspent, exhaust, outs, sweepLimit).Err?
    ensures Value(outs) >= 0
    ensures match ConstructSpend(sp, unspent, exhaust, outs, sweepLimit).error
      case NoUtxos => exhaust && unspent == []
      case CannotCoverOutputs => exhaust && Amount(unspent) < Value(outs)
      case CannotCoverFees => exhaust && Value(outs) <= Amount(unspent) < Value(outs) + sp.fee(sp.fullWeight(Scripts(outs) + [sp.changeScript], |unspent|))
      case SelectionFailed(e) => !exhaust && e == InsufficientFunds && !exists c :: Pays(SelectJob(sp, outs, sweepLimit), unspent, c)
      case ShareOverflow => false
  {
    ValueNonNegative(outs);
    if !exhaust {
      SelectAccounts(SelectJob(sp, outs, sweepLimit), unspent);
      SelectsWhenever(SelectJob(sp, outs, sweepLimit), unspent);
    }
  }

  /** The transaction does not depend on the order in which the wallet lists outputs. */
  lemma SpendOrderFree(sp: Spender, a: seq<Utxo>, b: seq<Utxo>, exhaust: bool, outs: seq<TxOut>, sweepLimit: nat)
    requires multiset(a) == multiset(b)
    ensures ConstructSpend(sp, a, exhaust, outs, sweepLimit) == ConstructSpend(sp, b, exhaust, outs, sweepLimit)
  {
    ValueNonNegative(outs);
    if exhaust {
      SpendAllOrderFree(sp, a, b, outs);
    } else {
      SelectOrderFree(SelectJob(sp, outs, sweepLimit), a, b);
    }
  }

  lemma SpendAllOrderFree(sp: Spender, a: seq<Utxo>, b: seq<Utxo>, outs: seq<TxOut>)
    requires multiset(a) == multiset(b)
    ensures SpendAll(sp, a, outs) == SpendAll(sp, b, outs)
  {
    SortOrderFree(a, b, Precedence());
    SumPermutation(a, b, CoinSelection.AmountOf());
    assert |multiset(a)| == |multiset(b)|;
  }

  // ---------------------------------------------------------------------
  // Kill checkpoints

  /** The value of the first output that pays the change address. */
  function ChangeFound(sp: Spender, outputs: seq<TxOut>): nat {
    if outputs == [] then 0
    else if outputs[0].script == sp.changeScript then outputs[0].value
    else ChangeFound(sp, outputs[1..])
  }

  ghost predicate NoneToChange(sp: Spender, outs: seq<TxOut>) {
    forall o :: o in outs ==> o.script != sp.changeScript
  }

  function SumNat(xs: seq<nat>): nat {
    if xs == [] then 0 else xs[0] + SumNat(xs[1..])
  }

  /** Adds a share to each output; values only, scripts stay. */
  function AddShares(outs: seq<TxOut>, shares: seq<nat>): seq<TxOut>
    requires |outs| == |shares|
  {
    seq(|outs|, i requires 0 <= i < |outs| => TxOut(outs[i].value + shares[i], outs[i].script))
  }

  /** The last unstake takes what the others leave. */
  function Shares(change: nat, first: seq<nat>): seq<nat>
    requires SumNat(first) <= change
  {
    first + [change - SumNat(first)]
  }

  /**
   The outputs of a kill checkpoint, `first` being the rounded proportional shares
   of all unstakes but the last. `Err(ShareOverflow)` is the subtraction that panics
   when rounding handed out more than there is.
   */
  function KillOutputs(change: nat, listed: seq<TxOut>, unstakes: seq<TxOut>, first: seq<nat>): Result<seq<TxOut>, SpendError>
    requires unstakes != [] && |first| == |unstakes| - 1
  {
    if SumNat(first) > change then Err(ShareOverflow)
    else Ok(listed + AddShares(unstakes, Shares(change, first)))
  }

  /** The checkpoint transaction of `to_checkpoint_psbt` for a kill checkpoint. */
  function KillCheckpoint(sp: Spender, unspent: seq<Utxo>, listed: seq<TxOut>, unstakes: seq<TxOut>, first: seq<nat>): Result<Tx, SpendError>
    requires unstakes != [] ==> |first| == |unstakes| - 1
  {
    var pass := SpendAll(sp, unspent, listed + unstakes);
    if pass.Err? then pass
    else
      var change := ChangeFound(sp, pass.value.outputs);
      if change == 0 || unstakes == [] || Value(unstakes) == 0 then pass
      else
        var outs := KillOutputs(change, listed, unstakes, first);
        if outs.Err? then Err(outs.error) else SpendAll(sp, unspent, outs.value)
  }

  lemma {:induction false} SumNatConcat(a: seq<nat>, b: seq<nat>)
    ensures SumNat(a + b) == SumNat(a) + SumNat(b)
  {
    if a == [] {
      assert a + b == b;
    } else {
      assert (a + b)[1..] == a[1..] + b;
      SumNatConcat(a[1..], b);
    }
  }

  /** The shares add up to exactly the change. */
  lemma SharesTotal(change: nat, first: seq<nat>)
    requires SumNat(first) <= change
    ensures SumNat(Shares(change, first)) == change
  {
    SumNatConcat(first, [change - SumNat(first)]);
    assert SumNat([change - SumNat(first)]) == change - SumNat(first) + SumNat([]);
  }

  lemma {:induction false} AddSharesValue(outs: seq<TxOut>, shares: seq<nat>)
    requires |outs| == |shares|
    ensures Value(AddShares(outs, shares)) == Value(outs) + SumNat(shares)
  {
    if outs != [] {
      assert AddShares(outs, shares)[1..] == AddShares(outs[1..], shares[1..]);
      AddSharesValue(outs[1..], shares[1..]);
    }
  }

  lemma {:induction false} ChangeFoundAfter(sp: Spender, outs: seq<TxOut>, rest: seq<TxOut>)
    requires NoneToChange(sp, outs)
    ensures ChangeFound(sp, outs + rest) == ChangeFound(sp, rest)
  {
    if outs == [] {
      assert outs + rest == rest;
    } else {
      assert outs[0] in outs;
      assert (outs + rest)[1..] == outs[1..] + rest;
      ChangeFoundAfter(sp, outs[1..], rest);
    }
  }

  /** What the first pass leaves over. */
  function LeftOver(sp: Spender, unspent: seq<Utxo>, outs: seq<TxOut>): int {
    Amount(unspent) - Value(outs) - SpendAllFee(sp, outs, |unspent|)
  }

  lemma FirstPassChange(sp: Spender, unspent: seq<Utxo>, outs: seq<TxOut>)
    requires SpendAll(sp, unspent, outs).Ok? && NoneToChange(sp, outs)
    ensures ChangeFound(sp, SpendAll(sp, unspent, outs).value.outputs)
            == if LeftOver(sp, unspent, outs) > sp.dust then LeftOver(sp, unspent, outs) else 0
  {
    var left := LeftOver(sp, unspent, outs);
    ChangeFoundAfter(sp, outs, []);
    assert outs + [] == outs;
    if left > sp.dust {
      ChangeFoundAfter(sp, outs, [TxOut(left, sp.changeScript)]);
    }
  }

  lemma SharedOutputs(listed: seq<TxOut>, unstakes: seq<TxOut>, first: seq<nat>, change: nat)
    requires unstakes != [] && |first| == |unstakes| - 1 && SumNat(first) <= change
    ensures var outs := listed + AddShares(unstakes, Shares(change, first));
      Value(outs) == Value(listed + unstakes) + change && Scripts(outs) == Scripts(listed + unstakes)
  {
    SharesTotal(change, first);
    AddSharesValue(unstakes, Shares(change, first));
    SumConcat(listed, unstakes, ValueOf());
    SumConcat(listed, AddShares(unstakes, Shares(change, first)), ValueOf());
  }

  lemma RebuiltPass(sp: Spender, unspent: seq<Utxo>, outs: seq<TxOut>, shared: seq<TxOut>)
    requires SpendAll(sp, unspent, outs).Ok?
    requires Value(shared) == Value(outs) + LeftOver(sp, unspent, outs) && Scripts(shared) == Scripts(outs)
    ensures SpendAll(sp, unspent, shared) == Ok(Tx(SortUtxos(unspent), shared))
    ensures Amount(unspent) - Value(shared) == SpendAllFee(sp, outs, |unspent|)
  {
  }

  /** The listed outputs, and then the unstakes with their shares, the last one with what the others leave. */
  ghost predicate SharedOut(outputs: seq<TxOut>, listed: seq<TxOut>, unstakes: seq<TxOut>, first: seq<nat>, left: int) {
    && |outputs| == |listed| + |unstakes|
    && outputs[..|listed|] == listed
    && forall i :: 0 <= i < |unstakes| ==>
         && outputs[|listed| + i].script == unstakes[i].script
         && outputs[|listed| + i].value == unstakes[i].value + if i < |first| then first[i] else left - SumNat(first)
  }

  lemma SharesShared(listed: seq<TxOut>, unstakes: seq<TxOut>, first: seq<nat>, left: nat)
    requires unstakes != [] && |first| == |unstakes| - 1 && SumNat(first) <= left
    ensures SharedOut(listed + AddShares(unstakes, Shares(left, first)), listed, unstakes, first, left)
  {
    var added := AddShares(unstakes, Shares(left, first));
    var outputs := listed + added;
    assert forall i :: 0 <= i < |unstakes| ==> outputs[|listed| + i] == added[i];
  }

  /**
   A kill checkpoint pays everything out. When no listed output pays the change
   address: it fails only as the first pass does or because rounded shares exceed
   the change; otherwise it spends every output of the committee, and it carries no
   output to the change address if and only if the first pass left at most dust or
   there is a positive unstake to share the rest among. In that sharing case the
   unstakes gain their shares, the last one what the others leave of the change, and the
   fee is the first pass's fee.
   */
  lemma KillPaysOut(sp: Spender, unspent: seq<Utxo>, listed: seq<TxOut>, unstakes: seq<TxOut>, first: seq<nat>)
    requires NoneToChange(sp, listed + unstakes)
    requires unstakes != [] ==> |first| == |unstakes| - 1
    ensures var outs := listed + unstakes;
      var pass, kill := SpendAll(sp, unspent, outs), KillCheckpoint(sp, unspent, listed, unstakes, first);
      var left := LeftOver(sp, unspent, outs);
      var shares := left > sp.dust && unstakes != [] && Value(unstakes) > 0;
      && (pass.Err? || !shares ==> kill == pass)
      && (pass.Ok? && shares && SumNat(first) > left ==> kill == Err(ShareOverflow))
      && (pass.Ok? && !(shares && SumNat(first) > left) ==>
          && kill.Ok?
          && multiset(kill.value.inputs) == multiset(unspent)
          && (NoneToChange(sp, kill.value.outputs) <==> left <= sp.dust || shares)
          && (shares ==>
              && SharedOut(kill.value.outputs, listed, unstakes, first, left)
              && Value(kill.value.outputs) == Value(outs) + left
              && FeePaid(kill.value) == FeePaid(pass.value) == SpendAllFee(sp, outs, |unspent|)))
  {
    var outs := listed + unstakes;
    ValueNonNegative(unstakes);
    if SpendAll(sp, unspent, outs).Ok? {
      FirstPass(sp, unspent, outs);
      var left := LeftOver(sp, unspent, outs);
      if left > sp.dust && unstakes != [] && Value(unstakes) > 0 && SumNat(first) <= left {
        KillShares(sp, unspent, listed, unstakes, first, left);
        SharesShared(listed, unstakes, first, left);
        SharedOutputs(listed, unstakes, first, left);
        SortMultiset(unspent, Precedence());
      }
    }
  }

  lemma FirstPass(sp: Spender, unspent: seq<Utxo>, outs: seq<TxOut>)
    requires SpendAll(sp, unspent, outs).Ok? && NoneToChange(sp, outs)
    ensures var left, tx := LeftOver(sp, unspent, outs), SpendAll(sp, unspent, outs).value;
      && ChangeFound(sp, tx.outputs) == (if left > sp.dust then left else 0)
      && multiset(tx.inputs) == multiset(unspent)
      && (NoneToChange(sp, tx.outputs) <==> left <= sp.dust)
      && (left > sp.dust ==> FeePaid(tx) == SpendAllFee(sp, outs, |unspent|))
  {
    var left := LeftOver(sp, unspent, outs);
    FirstPassChange(sp, unspent, outs);
    SortedAmount(unspent);
    ChangePays(sp, outs, left);
  }

  /** Sorting changes neither what is spent nor how much it is. */
  lemma SortedAmount(unspent: seq<Utxo>)
    ensures multiset(SortUtxos(unspent)) == multiset(unspent) && Amount(SortUtxos(unspent)) == Amount(unspent)
  {
    SortMultiset(unspent, Precedence());
    SumPermutation(SortUtxos(unspent), unspent, CoinSelection.AmountOf());
  }

  /** The change output is there exactly above dust, and then accounts for what is left. */
  lemma ChangePays(sp: Spender, outs: seq<TxOut>, left: nat)
    requires NoneToChange(sp, outs)
    ensures NoneToChange(sp, WithChange(sp, outs, left)) <==> left <= sp.dust
    ensures left > sp.dust ==> Value(WithChange(sp, outs, left)) == Value(outs) + left
  {
    var all := WithChange(sp, outs, left);
    if left > sp.dust {
      assert all[|outs|] in all;
      AppendValue(outs, TxOut(left, sp.changeScript));
    }
  }

  lemma KillShares(sp: Spender, unspent: seq<Utxo>, listed: seq<TxOut>, unstakes: seq<TxOut>, first: seq<nat>, left: nat)
    requires NoneToChange(sp, listed + unstakes) && SpendAll(sp, unspent, listed + unstakes).Ok?
    requires left == LeftOver(sp, unspent, listed + unstakes) > sp.dust
    requires unstakes != [] && Value(unstakes) > 0 && |first| == |unstakes| - 1 && SumNat(first) <= left
    ensures var outs, shared := listed + unstakes, listed + AddShares(unstakes, Shares(left, first));
      && KillCheckpoint(sp, unspent, listed, unstakes, first) == Ok(Tx(SortUtxos(unspent), shared))
      && NoneToChange(sp, shared)
      && SumNat(Shares(left, first)) == left
      && FeePaid(Tx(SortUtxos(unspent), shared)) == SpendAllFee(sp, outs, |unspent|)
  {
    var outs, shared := listed + unstakes, listed + AddShares(unstakes, Shares(left, first));
    FirstPassChange(sp, unspent, outs);
    SharedOutputs(listed, unstakes, first, left);
    RebuiltPass(sp, unspent, outs, shared);
    SharesTotal(left, first);
    SortMultiset(unspent, Precedence());
    SumPermutation(SortUtxos(unspent), unspent, CoinSelection.AmountOf());
    forall o | o in shared
      ensures o.script != sp.changeScript
    {
      var i :| 0 <= i < |shared| && shared[i] == o;
      assert Scripts(shared)[i] == Scripts(outs)[i] == outs[i].script;
      assert outs[i] in outs;
    }
  }

  // ---------------------------------------------------------------------
  // When a listed output pays the change address

  /** The first output to the change address is taken for the change, whatever it is. */
  lemma {:induction false} ChangeFoundExactly(sp: Spender, outputs: seq<TxOut>)
    ensures NoneToChange(sp, outputs) ==> ChangeFound(sp, outputs) == 0
    ensures forall i :: 0 <= i < |outputs| && outputs[i].script == sp.changeScript && NoneToChange(sp, outputs[..i]) ==>
      ChangeFound(sp, outputs) == outputs[i].value
  {
    if outputs != [] {
      var rest := outputs[1..];
      assert outputs == [outputs[0]] + rest;
      ChangeFoundExactly(sp, rest);
      forall i | 0 < i < |outputs| && outputs[i].script == sp.changeScript && NoneToChange(sp, outputs[..i])
        ensures ChangeFound(sp, outputs) == outputs[i].value
      {
        assert outputs[..i] == [outputs[0]] + rest[..i - 1];
        assert outputs[0] in outputs[..i];
        assert forall o :: o in rest[..i - 1] ==> o in outputs[..i];
        assert rest[i - 1] == outputs[i];
      }
    }
  }

  lemma SecondPass(sp: Spender, unspent: seq<Utxo>, outs: seq<TxOut>, shared: seq<TxOut>, change: nat)
    requires SpendAll(sp, unspent, outs).Ok?
    requires Value(shared) == Value(outs) + change && Scripts(shared) == Scripts(outs)
    ensures var left := LeftOver(sp, unspent, outs) - change;
      && (SpendAll(sp, unspent, shared).Ok? <==> left >= 0)
      && (left >= 0 ==> SpendAll(sp, unspent, shared) == Ok(Tx(SortUtxos(unspent), WithChange(sp, shared, left))))
  {
  }

  /**
   A kill checkpoint for any outputs, those to the change address included. What the first
   output to that address holds is shared out as the change. The checkpoint fails as the
   first pass does, when the rounded shares exceed that value, or when it is more than the
   first pass really left; otherwise the unstakes gain it, and what is left beyond it is
   again change if it is more than dust.
   */
  lemma KillExactly(sp: Spender, unspent: seq<Utxo>, listed: seq<TxOut>, unstakes: seq<TxOut>, first: seq<nat>, shared: seq<TxOut>)
    requires unstakes != [] ==> |first| == |unstakes| - 1
    requires SpendAll(sp, unspent, listed + unstakes).Ok?
    ensures var pass, kill := SpendAll(sp, unspent, listed + unstakes), KillCheckpoint(sp, unspent, listed, unstakes, first);
      var change, left := ChangeFound(sp, pass.value.outputs), LeftOver(sp, unspent, listed + unstakes);
      if change == 0 || unstakes == [] || Value(unstakes) == 0 then kill == pass
      else if SumNat(first) > change then kill == Err(ShareOverflow)
      else
        && (kill.Ok? <==> change <= left)
        && (kill.Ok? && SharedOut(shared, listed, unstakes, first, change) ==>
              && multiset(kill.value.inputs) == multiset(unspent)
              && kill.value.outputs == if left - change > sp.dust then shared + [TxOut(left - change, sp.changeScript)] else shared)
  {
    var outs := listed + unstakes;
    var change := ChangeFound(sp, SpendAll(sp, unspent, outs).value.outputs);
    if change != 0 && unstakes != [] && Value(unstakes) != 0 && SumNat(first) <= change {
      var built := listed + AddShares(unstakes, Shares(change, first));
      SharedOutputs(listed, unstakes, first, change);
      SecondPass(sp, unspent, outs, built, change);
      SortMultiset(unspent, Precedence());
      if SharedOut(shared, listed, unstakes, first, change) {
        SharesShared(listed, unstakes, first, change);
        SharedOnce(shared, built, listed, unstakes, first, change);
      }
    }
  }

  lemma SharedOnce(a: seq<TxOut>, b: seq<TxOut>, listed: seq<TxOut>, unstakes: seq<TxOut>, first: seq<nat>, change: int)
    requires SharedOut(a, listed, unstakes, first, change) && SharedOut(b, listed, unstakes, first, change)
    ensures a == b
  {
    forall i | 0 <= i < |a|
      ensures a[i] == b[i]
    {
      if i < |listed| {
        assert a[i] == a[..|listed|][i] && b[i] == b[..|listed|][i];
      } else {
        var k := i - |listed|;
        assert a[|listed| + k].script == unstakes[k].script == b[|listed| + k].script;
      }
    }
  }

  // ---------------------------------------------------------------------
  // Shares computed exactly

  /** `share` is the part of the change in proportion to `value`, rounded down. */
  predicate Proportional(share: nat, value: nat, change: nat, total: nat) {
    total * share <= change * value < total * (share + 1)
  }

  lemma Distribute(a: int, x: int, y: int)
    ensures a * (x + y) == a * x + a * y
  {
  }

  lemma AtLeastOnce(a: nat, x: nat)
    requires x >= 1
    ensures a * x >= a
  {
    Distribute(a, 1, x - 1);
  }

  lemma OneMoreShare(total: nat, change: nat, share: nat, value: nat, sum: nat, before: int, n: nat)
    requires Proportional(share, value, change, total)
    requires total * sum <= change * before <= total * (sum + n)
    ensures total * (share + sum) <= change * (value + before) <= total * (share + sum + (n + 1))
  {
    Distribute(change, value, before);
    Distribute(total, share, sum);
    Distribute(total, share + 1, sum + n);
  }

  /** Rounding down never hands out more than the proportion of what was counted. */
  lemma {:induction false} SharesWithin(unstakes: seq<TxOut>, shares: seq<nat>, change: nat, total: nat)
    requires |shares| <= |unstakes|
    requires forall i :: 0 <= i < |shares| ==> Proportional(shares[i], unstakes[i].value, change, total)
    ensures total * SumNat(shares) <= change * Value(unstakes[..|shares|]) <= total * (SumNat(shares) + |shares|)
  {
    if shares != [] {
      var rest := unstakes[1..][..|shares| - 1];
      assert unstakes[..|shares|][1..] == rest;
      assert forall i :: 0 <= i < |shares[1..]| ==> shares[1..][i] == shares[i + 1] && unstakes[1..][i] == unstakes[i + 1];
      SharesWithin(unstakes[1..], shares[1..], change, total);
      OneMoreShare(total, change, shares[0], unstakes[0].value, SumNat(shares[1..]), Value(rest), |shares| - 1);
    }
  }

  lemma LastShare(total: nat, change: nat, sum: nat, before: int, value: nat, n: nat)
    requires total > 0 && total == before + value
    requires total * sum <= change * before <= total * (sum + n)
    ensures sum <= change
    ensures change * value <= total * (change - sum) <= change * value + total * n
  {
    Distribute(change, before, value);
    Distribute(total, sum, n);
    Distribute(total, sum, change - sum);
    if sum > change {
      AtLeastOnce(total, sum - change);
      Distribute(total, change, sum - change);
    }
  }

  /**
   With proportions computed exactly and rounded down, the shares always fit, and the last
   unstake gets its own proportion and at most one satoshi more for each of the others.
   */
  lemma ExactSharesFit(unstakes: seq<TxOut>, first: seq<nat>, change: nat, total: nat)
    requires |unstakes| > 0 && |first| == |unstakes| - 1 && total == Value(unstakes) && total > 0
    requires forall i :: 0 <= i < |first| ==> Proportional(first[i], unstakes[i].value, change, total)
    ensures SumNat(first) <= change
    ensures var last, value := change - SumNat(first), unstakes[|first|].value;
      change * value <= total * last <= change * value + total * |first|
  {
    var n := |first|;
    SharesWithin(unstakes, first, change, total);
    assert unstakes == unstakes[..n] + [unstakes[n]];
    AppendValue(unstakes[..n], unstakes[n]);
    LastShare(total, change, SumNat(first), Value(unstakes[..n]), unstakes[n].value, n);
  }

  function ShareAt(change: nat, first: seq<nat>, k: nat): int {
    if k < |first| then first[k] else change - SumNat(first)
  }

  /** The redistribution loop of `to_checkpoint_psbt`. */
  method DistributeChange(change: nat, listed: seq<TxOut>, unstakes: seq<TxOut>, first: seq<nat>)
    returns (r: Result<seq<TxOut>, SpendError>)
    requires unstakes != [] && |first| == |unstakes| - 1
    ensures r == KillOutputs(change, listed, unstakes, first)
  {
    var txOuts := listed + unstakes;
    var start := |txOuts| - |unstakes|;
    var distributed := 0;
    for i := 0 to |unstakes|
      invariant |txOuts| == |listed| + |unstakes|
      invariant i < |unstakes| ==> distributed == SumNat(first[..i])
      invariant i == |unstakes| ==> SumNat(first) <= change
      invariant txOuts[..start] == listed && txOuts[start + i..] == unstakes[i..]
      invariant forall k :: 0 <= k < i ==>
        txOuts[start + k] == TxOut(unstakes[k].value + ShareAt(change, first, k), unstakes[k].script)
    {
      var additional;
      if i == |unstakes| - 1 {
        assert first[..i] == first;
        if distributed > change {
          return Err(ShareOverflow);
        }
        additional := change - distributed;
      } else {
        additional := first[i];
        assert first[..i + 1] == first[..i] + [first[i]];
        SumNatConcat(first[..i], [first[i]]);
      }
      txOuts := txOuts[start + i := txOuts[start + i].(value := txOuts[start + i].value + additional)];
      distributed := distributed + additional;
    }
    assert txOuts == listed + AddShares(unstakes, Shares(change, first));
    r := Ok(txOuts);
  }
}

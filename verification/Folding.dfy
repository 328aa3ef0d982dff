/** Running a list of instructions, each of which may fail. */
module Folding {
  import opened Outcomes

  function Fold<O, S>(ops: seq<O>, s: S, step: (O, S) -> Option<S>): Option<S>
    decreases |ops|
  {
    if ops == [] then Some(s)
    else
      var r := step(ops[0], s);
      if r.None? then None else Fold(ops[1..], r.value, step)
  }

  lemma {:induction false} FoldConcat<O, S>(a: seq<O>, b: seq<O>, s: S, step: (O, S) -> Option<S>)
    ensures Fold(a + b, s, step) == var r := Fold(a, s, step); if r.None? then None else Fold(b, r.value, step)
    decreases |a|
  {
    if a == [] {
      assert a + b == b;
    } else {
      assert (a + b)[1..] == a[1..] + b;
      var r := step(a[0], s);
      if r.Some? {
        FoldConcat(a[1..], b, r.value, step);
      }
    }
  }

  /** A run is known once its intermediate states are. */
  lemma {:induction false} FoldPath<O, S>(ops: seq<O>, path: seq<S>, step: (O, S) -> Option<S>)
    requires |path| == |ops| + 1
    requires forall i :: 0 <= i < |ops| ==> step(ops[i], path[i]) == Some(path[i + 1])
    ensures Fold(ops, path[0], step) == Some(path[|ops|])
    decreases |ops|
  {
    if ops != [] {
      forall i | 0 <= i < |ops| - 1
        ensures step(ops[1..][i], path[1..][i]) == Some(path[1..][i + 1])
      {
        assert step(ops[i + 1], path[i + 1]) == Some(path[i + 2]);
      }
      FoldPath(ops[1..], path[1..], step);
    }
  }

  /** A run fails at the end of a path whose last instruction fails. */
  lemma FoldStuck<O, S>(ops: seq<O>, path: seq<S>, step: (O, S) -> Option<S>)
    requires 1 <= |path| <= |ops|
    requires forall i :: 0 <= i < |path| - 1 ==> step(ops[i], path[i]) == Some(path[i + 1])
    requires step(ops[|path| - 1], path[|path| - 1]) == None
    ensures Fold(ops, path[0], step) == None
  {
    var n := |path| - 1;
    assert ops == ops[..n] + ops[n..];
    FoldConcat(ops[..n], ops[n..], path[0], step);
    FoldPath(ops[..n], path, step);
  }

  lemma FoldThree<O, S>(a: seq<O>, b: seq<O>, c: seq<O>, s: S, step: (O, S) -> Option<S>,
                        x: S, y: Option<S>, z: Option<S>)
    requires Fold(a, s, step) == Some(x)
    requires Fold(b, x, step) == y
    requires y.Some? ==> Fold(c, y.value, step) == z
    ensures Fold(a + b + c, s, step) == if y.None? then None else z
  {
    FoldConcat(a + b, c, s, step);
    FoldConcat(a, b, s, step);
  }

  function Concat<T>(ss: seq<seq<T>>): seq<T> {
    if ss == [] then [] else ss[0] + Concat(ss[1..])
  }

  ghost predicate BlockDoes<O(!new), S(!new)>(ops: seq<O>, before: S, after: S, ok: bool, step: (O, S) -> Option<S>) {
    Fold(ops, before, step) == if ok then Some(after) else None
  }

  /** The same for a list of blocks, each known to succeed or fail where it starts. */
  lemma {:induction false} FoldBlocks<O(!new), S(!new)>(
    blocks: seq<seq<O>>, path: seq<S>, ok: seq<bool>, step: (O, S) -> Option<S>)
    requires |ok| == |blocks| && |path| == |blocks| + 1
    requires forall i :: 0 <= i < |blocks| ==> BlockDoes(blocks[i], path[i], path[i + 1], ok[i], step)
    ensures Fold(Concat(blocks), path[0], step) == if false in ok then None else Some(path[|blocks|])
    decreases |blocks|
  {
    if blocks != [] {
      FoldConcat(blocks[0], Concat(blocks[1..]), path[0], step);
      assert BlockDoes(blocks[0], path[0], path[1], ok[0], step);
      assert ok == [ok[0]] + ok[1..];
      forall i | 0 <= i < |blocks| - 1
        ensures BlockDoes(blocks[1..][i], path[1..][i], path[1..][i + 1], ok[1..][i], step)
      {
        assert BlockDoes(blocks[i + 1], path[i + 1], path[i + 2], ok[i + 1], step);
      }
      FoldBlocks(blocks[1..], path[1..], ok[1..], step);
    }
  }
}

/**
 The part of tapscript (BIP 342) that the multisig uses: signature opcodes with
 their budget, minimal booleans for OP_IF, four-byte arithmetic operands, at most
 1000 stack elements, and exactly one true element at the end.
 */
module Tapscript {
  import opened Outcomes
  import opened Folding
  import opened Multisig

  type Signature = nat

  /** Stack elements; the empty vector is the number zero. */
  datatype Elem = Num(n: int) | Sig(sig: Signature) | PubKey(key: Key)

  const MAX_STACK: nat := 1000
  const SIGOP_COST: int := 50
  const MAX_OPERAND: int := 0x7FFF_FFFF

  datatype Machine = Machine(stack: seq<Elem>, cond: seq<bool>, budget: int)

  type Checker = (Key, Signature) -> bool

  predicate Operand(e: Elem) {
    e.Num? && -MAX_OPERAND <= e.n <= MAX_OPERAND
  }

  /** Rules for signature opcodes: an empty signature pushes false; any other must verify. */
  function CheckSig(m: Machine, valid: Checker): Option<Machine> {
    var h := |m.stack|;
    if h < 2 || !m.stack[h - 1].PubKey? then None
    else
      var rest := m.stack[..h - 2];
      match m.stack[h - 2]
      case Num(n) => if n == 0 then Some(m.(stack := rest + [Num(0)])) else None
      case PubKey(_) => None
      case Sig(s) =>
        if m.budget < SIGOP_COST || !valid(m.stack[h - 1].key, s) then None
        else Some(m.(stack := rest + [Num(1)], budget := m.budget - SIGOP_COST))
  }

  function Execute(op: Op, m: Machine, valid: Checker): Option<Machine> {
    var h := |m.stack|;
    match op
    case PushInt(n) => Some(m.(stack := m.stack + [Num(n)]))
    case PushKey(k) => Some(m.(stack := m.stack + [PubKey(k)]))
    case OpSwap =>
      if h < 2 then None
      else Some(m.(stack := m.stack[..h - 2] + [m.stack[h - 1], m.stack[h - 2]]))
    case OpCheckSig => CheckSig(m, valid)
    case OpIf =>
      if h < 1 || !(m.stack[h - 1] == Num(0) || m.stack[h - 1] == Num(1)) then None
      else Some(m.(stack := m.stack[..h - 1], cond := m.cond + [m.stack[h - 1] == Num(1)]))
    case OpEndIf =>
      if m.cond == [] then None else Some(m.(cond := m.cond[..|m.cond| - 1]))
    case OpAdd =>
      if h < 2 || !Operand(m.stack[h - 1]) || !Operand(m.stack[h - 2]) then None
      else Some(m.(stack := m.stack[..h - 2] + [Num(m.stack[h - 2].n + m.stack[h - 1].n)]))
    case OpGreaterThanOrEqual =>
      if h < 2 || !Operand(m.stack[h - 1]) || !Operand(m.stack[h - 2]) then None
      else Some(m.(stack := m.stack[..h - 2] + [Num(if m.stack[h - 2].n >= m.stack[h - 1].n then 1 else 0)]))
  }

  /** One opcode; in an untaken branch only the conditionals are followed. */
  function StepOp(op: Op, m: Machine, valid: Checker): Option<Machine> {
    if false in m.cond then
      if op.OpIf? then Some(m.(cond := m.cond + [false]))
      else if op.OpEndIf? then Execute(op, m, valid)
      else Some(m)
    else
      var r := Execute(op, m, valid);
      if r.Some? && |r.value.stack| > MAX_STACK then None else r
  }

  function Stepper(valid: Checker): (Op, Machine) -> Option<Machine> {
    (op: Op, m: Machine) => StepOp(op, m, valid)
  }

  function Exec(ops: seq<Op>, m: Machine, valid: Checker): Option<Machine> {
    Fold(ops, m, Stepper(valid))
  }

  function ElemSize(e: Elem): nat {
    match e
    case Num(_) => 1
    case Sig(_) => 65
    case PubKey(_) => 33
  }

  /** Bytes of the witness elements, each with its length byte. */
  function WitnessSize(stack: seq<Elem>): nat {
    if stack == [] then 0 else ElemSize(stack[0]) + WitnessSize(stack[1..])
  }

  /** `extra` is the size of the rest of the witness: script, control block, count. */
  predicate Spends(ops: seq<Op>, elems: seq<Elem>, extra: nat, valid: Checker) {
    |elems| <= MAX_STACK &&
    var r := Exec(ops, Machine(elems, [], 50 + WitnessSize(elems) + extra), valid);
    r.Some? && r.value.cond == [] && |r.value.stack| == 1 && r.value.stack[0].Num? && r.value.stack[0].n != 0
  }
}

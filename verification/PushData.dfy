/**
 The push-data codec of the commit-reveal scheme: arbitrary bytes as a script of
 pushes that are dropped again, and the parser that collects them.
 */
module PushData {
  import opened Outcomes

  type Byte = n: nat | n < 256
  type Bytes = seq<Byte>

  const OP_PUSHDATA1: Byte := 0x4c
  const OP_PUSHDATA2: Byte := 0x4d
  const OP_PUSHDATA4: Byte := 0x4e
  const OP_TRUE: Byte := 0x51
  const OP_DROP: Byte := 0x75
  const CHUNK_SIZE: nat := 520

  function Header(n: nat): Bytes
    requires n < 0x1_0000_0000
  {
    if n < 76 then [n]
    else if n < 256 then [OP_PUSHDATA1, n]
    else if n < 65536 then [OP_PUSHDATA2, n % 256, n / 256]
    else [OP_PUSHDATA4, n % 256, n / 256 % 256, n / 65536 % 256, n / 16777216]
  }

  /** `Builder::push_slice`: the shortest length prefix, then the bytes. */
  function PushSlice(d: Bytes): Bytes
    requires |d| < 0x1_0000_0000
  {
    Header(|d|) + d
  }

  function Chunk(data: Bytes): Bytes {
    if |data| <= CHUNK_SIZE then data else data[..CHUNK_SIZE]
  }

  /** One chunk, pushed and dropped. */
  function Piece(c: Bytes): Bytes
    requires |c| <= CHUNK_SIZE
  {
    PushSlice(c) + [OP_DROP]
  }

  /** The script for `data`. */
  function Print(data: Bytes): Bytes {
    if data == [] then [OP_TRUE]
    else Piece(Chunk(data)) + Print(data[|Chunk(data)|..])
  }

  // ---------------------------------------------------------------------
  // `ScriptBuf::instructions`

  datatype Instruction = PushBytes(bytes: Bytes) | Op(code: Byte)

  datatype ParseError = UnsupportedOpCode | ErrorParsingWitnessScript

  /** A little-endian length. */
  function Value(a: nat, b: nat, c: nat, d: nat): nat {
    a + 256 * b + 65536 * c + 16777216 * d
  }

  /** Reads `n` bytes after a header of `h` bytes. */
  function Take(s: Bytes, h: nat, n: nat): Option<(Instruction, Bytes)> {
    if |s| < h + n then None else Some((PushBytes(s[h..h + n]), s[h + n..]))
  }

  /** The first instruction and what follows it, or nothing if the script ends early. */
  function Next(s: Bytes): Option<(Instruction, Bytes)>
    requires s != []
  {
    if s[0] < OP_PUSHDATA1 then Take(s, 1, s[0])
    else if s[0] == OP_PUSHDATA1 then
      if |s| < 2 then None else Take(s, 2, s[1])
    else if s[0] == OP_PUSHDATA2 then
      if |s| < 3 then None else Take(s, 3, Value(s[1], s[2], 0, 0))
    else if s[0] == OP_PUSHDATA4 then
      if |s| < 5 then None else Take(s, 5, Value(s[1], s[2], s[3], s[4]))
    else Some((Op(s[0]), s[1..]))
  }

  lemma NextShrinks(s: Bytes)
    requires s != []
    ensures Next(s).Some? ==> |Next(s).value.1| < |s|
  {
  }

  /** The concatenation of all pushes; drops and the final true are skipped. */
  function Parse(s: Bytes): Result<Bytes, ParseError>
    decreases |s|
  {
    if s == [] then Ok([])
    else
      NextShrinks(s);
      var r := Next(s);
      if r.None? then Err(ErrorParsingWitnessScript)
      else
        match r.value.0
        case PushBytes(d) =>
          var rest := Parse(r.value.1);
          if rest.Err? then rest else Ok(d + rest.value)
        case Op(c) =>
          if c == OP_DROP || c == OP_TRUE then Parse(r.value.1) else Err(UnsupportedOpCode)
  }

  // ---------------------------------------------------------------------
  // Execution, as far as these scripts need it

  const MAX_ELEMENT: nat := 520

  /** Runs pushes, drops and OP_TRUE; an element over 520 bytes fails the script. */
  function Run(s: Bytes, stack: seq<Bytes>): Option<seq<Bytes>>
    decreases |s|
  {
    if s == [] then Some(stack)
    else
      NextShrinks(s);
      var r := Next(s);
      if r.None? then None
      else
        match r.value.0
        case PushBytes(d) => if |d| > MAX_ELEMENT then None else Run(r.value.1, stack + [d])
        case Op(c) =>
          if c == OP_TRUE then Run(r.value.1, stack + [[1]])
          else if c == OP_DROP && stack != [] then Run(r.value.1, stack[..|stack| - 1])
          else None
  }

  // ---------------------------------------------------------------------
  // Main results

  lemma LengthDigits(n: nat)
    requires n < 0x1_0000_0000
    ensures Value(n % 256, n / 256 % 256, n / 65536 % 256, n / 16777216) == n
  {
    assert n / 65536 == n / 256 / 256 && n / 16777216 == n / 65536 / 256;
  }

  lemma TakeAfter(header: Bytes, d: Bytes, rest: Bytes)
    ensures Take(header + d + rest, |header|, |d|) == Some((PushBytes(d), rest))
  {
    var s := header + d + rest;
    assert s[|header|..|header| + |d|] == d;
    assert s[|header| + |d|..] == rest;
  }

  lemma NextOfHeader(header: Bytes, n: nat, tail: Bytes)
    requires n < 0x1_0000_0000 && header == Header(n)
    ensures Next(header + tail) == Take(header + tail, |header|, n)
  {
    LengthDigits(n);
    var s := header + tail;
    assert forall i :: 0 <= i < |header| ==> s[i] == header[i];
  }

  /** A printed push is read back as itself, whatever follows it. */
  lemma NextOfPush(d: Bytes, rest: Bytes)
    requires |d| < 0x1_0000_0000
    ensures Next(PushSlice(d) + rest) == Some((PushBytes(d), rest))
  {
    var header := Header(|d|);
    assert PushSlice(d) + rest == header + (d + rest) == header + d + rest;
    NextOfHeader(header, |d|, d + rest);
    TakeAfter(header, d, rest);
  }

  lemma NextOfOp(c: Byte, rest: Bytes)
    requires c > OP_PUSHDATA4
    ensures Next([c] + rest) == Some((Op(c), rest))
  {
    assert ([c] + rest)[1..] == rest;
  }

  lemma PrintShape(data: Bytes)
    requires data != []
    ensures Print(data) == PushSlice(Chunk(data)) + ([OP_DROP] + Print(data[|Chunk(data)|..]))
    ensures 0 < |Chunk(data)| <= CHUNK_SIZE
    ensures Chunk(data) + data[|Chunk(data)|..] == data
  {
  }

  /** Round trip: for every byte string, parsing the printed script returns it. */
  lemma {:induction false} RoundTrip(data: Bytes)
    ensures Parse(Print(data)) == Ok(data)
    decreases |data|
  {
    if data == [] {
      assert Print(data) == [OP_TRUE] + [];
      NextOfOp(OP_TRUE, []);
    } else {
      PrintShape(data);
      var c := Chunk(data);
      var tail := Print(data[|c|..]);
      NextOfPush(c, [OP_DROP] + tail);
      NextOfOp(OP_DROP, tail);
      RoundTrip(data[|c|..]);
      assert Parse([OP_DROP] + tail) == Parse(tail);
    }
  }

  /**
   Spendability: executing the script pushes no element over 520 bytes and leaves
   exactly one element, which is true, on top of whatever was there.
   */
  lemma {:induction false} PrintedScriptSpends(data: Bytes, stack: seq<Bytes>)
    ensures Run(Print(data), stack) == Some(stack + [[1]])
    decreases |data|
  {
    if data == [] {
      assert Print(data) == [OP_TRUE] + [];
      NextOfOp(OP_TRUE, []);
    } else {
      PrintShape(data);
      var c := Chunk(data);
      var tail := Print(data[|c|..]);
      NextOfPush(c, [OP_DROP] + tail);
      NextOfOp(OP_DROP, tail);
      assert (stack + [c])[..|stack|] == stack;
      assert Run([OP_DROP] + tail, stack + [c]) == Run(tail, stack);
      PrintedScriptSpends(data[|c|..], stack);
    }
  }

  // ---------------------------------------------------------------------
  // The two loops

  lemma PrintStep(script: Bytes, left: Bytes, piece: Bytes, rest: Bytes)
    requires left != [] && piece == Piece(Chunk(left)) && rest == left[|Chunk(left)|..]
    ensures script + Print(left) == script + piece + Print(rest)
  {
    assert Print(left) == piece + Print(rest);
  }

  /** `make_push_data_script`. */
  method MakePushDataScript(data: Bytes) returns (script: Bytes)
    ensures script == Print(data)
    ensures Parse(script) == Ok(data)
    ensures Run(script, []) == Some([[1]])
  {
    script := [];
    var offset := 0;
    ghost var left := data;
    while offset < |data|
      invariant 0 <= offset
      invariant left == if offset <= |data| then data[offset..] else []
      invariant script + Print(left) == Print(data)
    {
      var end := if offset + CHUNK_SIZE <= |data| then offset + CHUNK_SIZE else |data|;
      var chunk := data[offset..end];
      assert Chunk(left) == chunk && left[end - offset..] == data[end..];
      ghost var before := script;
      script := script + PushSlice(chunk);
      offset := offset + CHUNK_SIZE;
      script := script + [OP_DROP];
      assert script == before + Piece(chunk);
      PrintStep(before, left, Piece(chunk), data[end..]);
      left := data[end..];
    }
    script := script + [OP_TRUE];
    PrintedScript(data);
  }

  lemma PrintedScript(data: Bytes)
    ensures Parse(Print(data)) == Ok(data) && Run(Print(data), []) == Some([[1]])
  {
    RoundTrip(data);
    PrintedScriptSpends(data, []);
    assert [] + [[1]] == [[1]];
  }

  /** `concatenate_op_push_data`. */
  method ConcatenateOpPushData(script: Bytes) returns (r: Result<Bytes, ParseError>)
    ensures r == Parse(script)
  {
    var data: Bytes := [];
    var rest := script;
    assert Parse(script).Ok? ==> data + Parse(script).value == Parse(script).value;
    while rest != []
      invariant Parse(script) == var p := Parse(rest); if p.Err? then p else Ok(data + p.value)
      decreases |rest|
    {
      NextShrinks(rest);
      var next := Next(rest);
      if next.None? {
        return Err(ErrorParsingWitnessScript);
      }
      match next.value.0 {
        case PushBytes(d) =>
          ghost var p := Parse(next.value.1);
          assert p.Ok? ==> data + (d + p.value) == (data + d) + p.value;
          data := data + d;
        case Op(c) =>
          if c != OP_DROP && c != OP_TRUE {
            return Err(UnsupportedOpCode);
          }
      }
      rest := next.value.1;
    }
    assert data + [] == data;
    r := Ok(data);
  }
}

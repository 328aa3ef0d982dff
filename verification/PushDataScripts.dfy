/**
 The push-data codec against Bitcoin's encoding of scripts: which instructions a printed
 script consists of, and what the parser makes of any byte string.
 */
module PushDataScripts {
  import opened Outcomes
  import opened PushData

  /** A number, its lowest byte first. */
  function LittleEndian(bs: Bytes): nat {
    if bs == [] then 0 else bs[0] as nat + 256 * LittleEndian(bs[1..])
  }

  lemma LittleEndianDigits(bs: Bytes)
    ensures |bs| == 2 ==> LittleEndian(bs) == Value(bs[0], bs[1], 0, 0)
    ensures |bs| == 4 ==> LittleEndian(bs) == Value(bs[0], bs[1], bs[2], bs[3])
  {
    if |bs| == 2 {
      assert LittleEndian(bs) == bs[0] as nat + 256 * LittleEndian([bs[1]]) by { assert bs[1..] == [bs[1]]; }
      assert [bs[1]][1..] == [];
    }
    if |bs| == 4 {
      assert bs[1..][1..] == bs[2..] && bs[2..][1..] == bs[3..] && bs[3..][1..] == [];
      assert LittleEndian(bs[2..]) == bs[2] as nat + 256 * LittleEndian(bs[3..]);
      assert LittleEndian(bs[1..]) == bs[1] as nat + 256 * LittleEndian(bs[2..]);
    }
  }

  /** `b` is one way to write the instruction down. */
  ghost predicate Encodes(b: Bytes, i: Instruction) {
    match i
    case Op(c) => b == [c] && c > 0x4e
    case PushBytes(d) =>
      && |b| > |d|
      && b[|b| - |d|..] == d
      && var header := b[..|b| - |d|];
         || (|header| == 1 && header[0] <= 75 && header[0] == |d|)
         || (|header| == 2 && header[0] == 0x4c && header[1] == |d|)
         || (|header| == 3 && header[0] == 0x4d && LittleEndian(header[1..]) == |d|)
         || (|header| == 5 && header[0] == 0x4e && LittleEndian(header[1..]) == |d|)
  }

  /** The first `n` bytes of `s` encode the instruction. */
  ghost predicate StartsWith(s: Bytes, n: nat, i: Instruction) {
    0 < n <= |s| && Encodes(s[..n], i)
  }

  /** `s` consists of these instructions and then `tail`. */
  ghost predicate Spells(s: Bytes, instructions: seq<Instruction>, tail: Bytes)
    decreases |instructions|
  {
    if instructions == [] then s == tail
    else exists n: nat :: StartsWith(s, n, instructions[0]) && Spells(s[n..], instructions[1..], tail)
  }

  /** No instruction can be read off the beginning: the script ends in the middle of one. */
  ghost predicate Truncated(s: Bytes) {
    s != [] && forall n: nat, i :: !StartsWith(s, n, i)
  }

  // ---------------------------------------------------------------------
  // One instruction

  lemma TakeStarts(s: Bytes, h: nat, n: nat)
    requires |s| >= h + n && h > 0
    ensures Take(s, h, n) == Some((PushBytes(s[h..h + n]), s[h + n..]))
    ensures s[..h + n][h..] == s[h..h + n] && s[..h + n][..h] == s[..h]
  {
  }

  /** What is read is what the bytes encode. */
  lemma NextReads(s: Bytes)
    requires s != [] && Next(s).Some?
    ensures |Next(s).value.1| < |s|
    ensures var n := |s| - |Next(s).value.1|;
      StartsWith(s, n, Next(s).value.0) && s[n..] == Next(s).value.1
  {
    var (h, n) := HeaderOf(s);
    if s[0] <= 0x4e {
      TakeStarts(s, h, n);
      LittleEndianDigits(s[1..h]);
      assert s[..h][1..] == s[1..h];
    }
  }

  /** How long the header is, and the length that it gives. */
  function HeaderOf(s: Bytes): (nat, nat)
    requires s != []
  {
    if s[0] < 0x4c then (1, s[0])
    else if s[0] == 0x4c then (2, if |s| < 2 then 0 else s[1])
    else if s[0] == 0x4d then (3, if |s| < 3 then 0 else Value(s[1], s[2], 0, 0))
    else (5, if |s| < 5 then 0 else Value(s[1], s[2], s[3], s[4]))
  }

  /** What the bytes encode is what is read. */
  lemma StartIsRead(s: Bytes, n: nat, i: Instruction)
    requires StartsWith(s, n, i)
    ensures Next(s) == Some((i, s[n..]))
  {
    var b := s[..n];
    match i
    case Op(c) =>
      assert s[0] == b[0] == c && n == 1;
    case PushBytes(d) =>
      var h := n - |d|;
      assert forall j :: 0 <= j < h ==> b[..h][j] == s[j];
      LittleEndianDigits(b[..h][1..]);
      TakeStarts(s, h, |d|);
      assert s[h..n] == b[h..] == d;
  }

  lemma NoneIsTruncated(s: Bytes)
    requires s != []
    ensures Next(s).None? <==> Truncated(s)
  {
    if Next(s).Some? {
      NextReads(s);
    } else {
      forall n: nat, i
        ensures !StartsWith(s, n, i)
      {
        if StartsWith(s, n, i) {
          StartIsRead(s, n, i);
        }
      }
    }
  }

  // ---------------------------------------------------------------------
  // The parser

  /** Pushes, drops and trues. */
  ghost predicate Understood(instructions: seq<Instruction>) {
    forall i :: i in instructions && i.Op? ==> i.code == 0x75 || i.code == 0x51
  }

  /** The pushed bytes, one push after the other. */
  function Pushed(instructions: seq<Instruction>): Bytes {
    if instructions == [] then []
    else PushedBy(instructions[0]) + Pushed(instructions[1..])
  }

  function PushedBy(i: Instruction): Bytes {
    if i.PushBytes? then i.bytes else []
  }

  /** More data in front of what was parsed. */
  function InFront(d: Bytes, r: Result<Bytes, ParseError>): Result<Bytes, ParseError> {
    if r.Err? then r else Ok(d + r.value)
  }

  lemma InFrontTwice(d: Bytes, e: Bytes, r: Result<Bytes, ParseError>)
    ensures InFront(d, InFront(e, r)) == InFront(d + e, r)
    ensures InFront([], r) == r
  {
    if r.Ok? {
      assert d + (e + r.value) == (d + e) + r.value && [] + r.value == r.value;
    }
  }

  lemma ParseOne(s: Bytes, n: nat, i: Instruction)
    requires StartsWith(s, n, i) && (i.Op? ==> i.code == 0x75 || i.code == 0x51)
    ensures Parse(s) == InFront(PushedBy(i), Parse(s[n..]))
  {
    StartIsRead(s, n, i);
    InFrontTwice([], [], Parse(s[n..]));
  }

  /** The parser reads past any instructions that it understands, and collects what they push. */
  lemma {:induction false} ParsePast(s: Bytes, instructions: seq<Instruction>, tail: Bytes)
    requires Spells(s, instructions, tail) && Understood(instructions)
    ensures Parse(s) == InFront(Pushed(instructions), Parse(tail))
    decreases |instructions|
  {
    InFrontTwice([], [], Parse(tail));
    if instructions != [] {
      var i, rest := instructions[0], instructions[1..];
      var n: nat :| StartsWith(s, n, i) && Spells(s[n..], rest, tail);
      assert i in instructions;
      ParseOne(s, n, i);
      ParsePast(s[n..], rest, tail);
      InFrontTwice(PushedBy(i), Pushed(rest), Parse(tail));
    }
  }

  /** What the parser stops at: the end, an instruction it does not understand, or the middle of one. */
  lemma {:induction false} ParseStops(s: Bytes) returns (instructions: seq<Instruction>, tail: Bytes)
    ensures Spells(s, instructions, tail) && Understood(instructions)
    ensures tail == [] || BadCode(tail) || Truncated(tail)
    decreases |s|
  {
    if s == [] {
      instructions, tail := [], s;
    } else if Next(s).None? {
      NoneIsTruncated(s);
      instructions, tail := [], s;
    } else {
      NextReads(s);
      var i, n := Next(s).value.0, |s| - |Next(s).value.1|;
      if i.Op? && i.code != 0x75 && i.code != 0x51 {
        instructions, tail := [], s;
        assert s[..n] == [i.code] && s[0] == s[..n][0];
      } else {
        var rest;
        rest, tail := ParseStops(s[n..]);
        instructions := [i] + rest;
        assert instructions[1..] == rest;
        assert StartsWith(s, n, instructions[0]) && Spells(s[n..], instructions[1..], tail);
      }
    }
  }

  /** An opcode other than a drop or a true. */
  ghost predicate BadCode(tail: Bytes) {
    tail != [] && tail[0] > 0x4e && tail[0] != 0x75 && tail[0] != 0x51
  }

  lemma ParseTail(tail: Bytes)
    ensures tail == [] ==> Parse(tail) == Ok([])
    ensures BadCode(tail) ==> Parse(tail) == Err(UnsupportedOpCode)
    ensures Truncated(tail) ==> Parse(tail) == Err(ErrorParsingWitnessScript)
  {
    if tail != [] {
      NoneIsTruncated(tail);
    }
  }

  /** What the parser is asked for: understood instructions, and then the given kind of tail. */
  ghost predicate Reads(s: Bytes, instructions: seq<Instruction>, tail: Bytes) {
    Spells(s, instructions, tail) && Understood(instructions)
  }

  /**
   The parser on every byte string. It returns `data` if and only if the bytes spell
   pushes, drops and trues that push `data`; it refuses an opcode if and only if one that is
   neither a drop nor a true follows such instructions; and it reports a broken script if
   and only if the bytes end in the middle of an instruction after them.
   */
  lemma ParseExactly(s: Bytes, data: Bytes)
    ensures Parse(s) == Ok(data) <==> exists instructions :: Reads(s, instructions, []) && Pushed(instructions) == data
    ensures Parse(s) == Err(UnsupportedOpCode) <==> exists instructions, tail :: Reads(s, instructions, tail) && BadCode(tail)
    ensures Parse(s) == Err(ErrorParsingWitnessScript) <==> exists instructions, tail :: Reads(s, instructions, tail) && Truncated(tail)
  {
    forall instructions, tail | Reads(s, instructions, tail)
      ensures tail == [] ==> Parse(s) == Ok(Pushed(instructions))
      ensures BadCode(tail) ==> Parse(s) == Err(UnsupportedOpCode)
      ensures Truncated(tail) ==> Parse(s) == Err(ErrorParsingWitnessScript)
    {
      ParsePast(s, instructions, tail);
      ParseTail(tail);
      assert Pushed(instructions) + [] == Pushed(instructions);
    }
    var instructions, tail := ParseStops(s);
    assert Reads(s, instructions, tail);
  }

  // ---------------------------------------------------------------------
  // The printer

  /** Where chunk `k` ends. */
  function ChunkEnd(data: Bytes, k: nat): nat {
    if 520 * (k + 1) <= |data| then 520 * (k + 1) else |data|
  }

  function ChunkCount(data: Bytes): nat {
    (|data| + 519) / 520
  }

  /** Every 520 bytes and what remains, each pushed and dropped, and a true at the end. */
  function Layout(data: Bytes): seq<Instruction> {
    var n := ChunkCount(data);
    seq(2 * n + 1, i requires 0 <= i <= 2 * n =>
      if i == 2 * n then Op(0x51)
      else if i % 2 == 1 then Op(0x75)
      else PushBytes(data[520 * (i / 2)..ChunkEnd(data, i / 2)]))
  }

  lemma SameChunk(data: Bytes, rest: Bytes, k: nat)
    requires |data| >= 520 && rest == data[520..] && k < ChunkCount(rest)
    ensures ChunkCount(data) == ChunkCount(rest) + 1
    ensures 520 * k <= ChunkEnd(rest, k) && ChunkEnd(data, k + 1) == ChunkEnd(rest, k) + 520
    ensures data[520 * (k + 1)..ChunkEnd(data, k + 1)] == rest[520 * k..ChunkEnd(rest, k)]
  {
    SliceLater(data, rest, 520 * k, ChunkEnd(rest, k));
  }

  lemma SliceLater(data: Bytes, rest: Bytes, from: nat, to: nat)
    requires |data| >= 520 && rest == data[520..] && from <= to <= |rest|
    ensures data[from + 520..to + 520] == rest[from..to]
  {
    var a, b := data[from + 520..to + 520], rest[from..to];
    assert |a| == |b| && forall i :: 0 <= i < |b| ==> a[i] == b[i];
  }

  lemma LayoutLength(data: Bytes)
    ensures |Layout(data)| == 2 * ChunkCount(data) + 1 && Layout(data)[2 * ChunkCount(data)] == Op(0x51)
  {
  }

  lemma LayoutPair(data: Bytes, k: nat)
    requires k < ChunkCount(data)
    ensures |Layout(data)| == 2 * ChunkCount(data) + 1 && 520 * k <= ChunkEnd(data, k) <= |data|
    ensures Layout(data)[2 * k] == PushBytes(data[520 * k..ChunkEnd(data, k)])
    ensures Layout(data)[2 * k + 1] == Op(0x75)
  {
    assert 2 * k / 2 == k && 2 * k % 2 == 0 && (2 * k + 1) % 2 == 1;
  }

  lemma LayoutAt(data: Bytes, rest: Bytes, i: nat)
    requires |data| >= 520 && rest == data[520..] && i < |Layout(rest)|
    ensures |Layout(data)| == |Layout(rest)| + 2
    ensures Layout(data)[i + 2] == Layout(rest)[i]
  {
    LayoutLength(data);
    LayoutLength(rest);
    assert ChunkCount(data) == ChunkCount(rest) + 1;
    if i + 1 < |Layout(rest)| {
      var k := i / 2;
      assert i == 2 * k || i == 2 * k + 1;
      LayoutPair(rest, k);
      LayoutPair(data, k + 1);
      SameChunk(data, rest, k);
    }
  }

  lemma LayoutShort(data: Bytes)
    requires 0 < |data| <= 520
    ensures Layout(data) == [PushBytes(data), Op(0x75), Op(0x51)]
  {
    assert data[0..|data|] == data;
  }

  lemma LayoutUnfold(data: Bytes)
    requires data != []
    ensures Layout(data) == [PushBytes(Chunk(data)), Op(0x75)] + Layout(data[|Chunk(data)|..])
  {
    var rest := data[|Chunk(data)|..];
    if |data| <= 520 {
      LayoutShort(data);
      assert Layout(rest) == [Op(0x51)];
    } else {
      var whole, tail := Layout(data), Layout(rest);
      forall i | 0 <= i < |tail|
        ensures |whole| == |tail| + 2 && whole[i + 2] == tail[i]
      {
        LayoutAt(data, rest, i);
      }
      assert whole[0] == PushBytes(data[0..520]) && data[0..520] == Chunk(data);
      TwoInFront(whole, tail, PushBytes(Chunk(data)), Op(0x75));
    }
  }

  lemma TwoInFront(whole: seq<Instruction>, tail: seq<Instruction>, a: Instruction, b: Instruction)
    requires |whole| == |tail| + 2 && whole[0] == a && whole[1] == b
    requires forall i :: 0 <= i < |tail| ==> whole[i + 2] == tail[i]
    ensures whole == [a, b] + tail
  {
    forall i | 2 <= i < |whole|
      ensures whole[i] == tail[i - 2]
    {
      assert whole[(i - 2) + 2] == tail[i - 2];
    }
  }

  /** The encoding of a push is right, and no other is shorter. */
  lemma PushSliceShortest(d: Bytes, b: Bytes)
    requires |d| < 0x1_0000_0000
    ensures Encodes(PushSlice(d), PushBytes(d))
    ensures Encodes(b, PushBytes(d)) ==> |PushSlice(d)| <= |b|
  {
    var header := Header(|d|);
    LengthDigits(|d|);
    assert PushSlice(d)[..|header|] == header && PushSlice(d)[|header|..] == d;
    if |header| > 1 {
      LittleEndianDigits(header[1..]);
    }
    if Encodes(b, PushBytes(d)) {
      LittleEndianDigits(b[..|b| - |d|][1..]);
    }
  }

  lemma SpellsPush(d: Bytes, rest: Bytes, instructions: seq<Instruction>)
    requires |d| < 0x1_0000_0000 && Spells(rest, instructions, [])
    ensures Spells(PushSlice(d) + rest, [PushBytes(d)] + instructions, [])
  {
    var s, all := PushSlice(d) + rest, [PushBytes(d)] + instructions;
    PushSliceShortest(d, []);
    assert s[..|PushSlice(d)|] == PushSlice(d) && s[|PushSlice(d)|..] == rest && all[1..] == instructions;
    assert StartsWith(s, |PushSlice(d)|, all[0]);
  }

  lemma SpellsOp(c: Byte, rest: Bytes, instructions: seq<Instruction>)
    requires c > 0x4e && Spells(rest, instructions, [])
    ensures Spells([c] + rest, [Op(c)] + instructions, [])
  {
    var s, all := [c] + rest, [Op(c)] + instructions;
    assert s[..1] == [c] && s[1..] == rest && all[1..] == instructions;
    assert StartsWith(s, 1, all[0]);
  }

  /** The printed script consists of exactly these instructions. */
  lemma {:induction false} PrintLayout(data: Bytes)
    ensures Spells(Print(data), Layout(data), [])
    decreases |data|
  {
    if data == [] {
      assert Spells([], [], []);
      SpellsOp(0x51, [], []);
      assert Print(data) == [0x51] + [] && Layout(data) == [Op(0x51)] + [];
    } else {
      PrintShape(data);
      LayoutUnfold(data);
      var c := Chunk(data);
      var rest := data[|c|..];
      PrintLayout(rest);
      SpellsOp(0x75, Print(rest), Layout(rest));
      SpellsPush(c, [0x75] + Print(rest), [Op(0x75)] + Layout(rest));
      assert [PushBytes(c)] + ([Op(0x75)] + Layout(rest)) == [PushBytes(c), Op(0x75)] + Layout(rest);
    }
  }

  lemma SpellsFirst(s: Bytes, i: Instruction, rest: seq<Instruction>) returns (n: nat)
    requires Spells(s, [i] + rest, [])
    ensures StartsWith(s, n, i) && Spells(s[n..], rest, [])
  {
    var all := [i] + rest;
    assert all[0] == i && all[1..] == rest;
    n :| StartsWith(s, n, all[0]) && Spells(s[n..], all[1..], []);
  }

  lemma SpellsPiece(s: Bytes, c: Bytes, rest: seq<Instruction>) returns (t: Bytes)
    requires Spells(s, [PushBytes(c)] + ([Op(0x75)] + rest), []) && |c| <= 520
    ensures Spells(t, rest, []) && |PushSlice(c)| + 1 + |t| <= |s|
  {
    var n := SpellsFirst(s, PushBytes(c), [Op(0x75)] + rest);
    var m := SpellsFirst(s[n..], Op(0x75), rest);
    PushSliceShortest(c, s[..n]);
    t := s[n..][m..];
  }

  lemma LayoutPiece(data: Bytes, c: Bytes, rest: Bytes)
    requires data != [] && c == Chunk(data) && rest == data[|c|..]
    ensures Layout(data) == [PushBytes(c)] + ([Op(0x75)] + Layout(rest))
    ensures |Print(data)| == |PushSlice(c)| + 1 + |Print(rest)|
  {
    assert |Print(data)| == |PushSlice(c)| + 1 + |Print(rest)| by {
      PrintShape(data);
    }
    LayoutUnfold(data);
    AppendFirstOf(PushBytes(c), Op(0x75), Layout(rest));
  }

  lemma AppendFirstOf(a: Instruction, b: Instruction, rest: seq<Instruction>)
    ensures [a, b] + rest == [a] + ([b] + rest)
  {
  }

  /** And no script that consists of them is shorter. */
  lemma {:induction false} PrintIsShortest(data: Bytes, s: Bytes)
    requires Spells(s, Layout(data), [])
    ensures |Print(data)| <= |s|
    decreases |data|
  {
    if data == [] {
      assert Layout(data) == [Op(0x51)] + [];
      var n := SpellsFirst(s, Op(0x51), []);
    } else {
      var c := Chunk(data);
      LayoutPiece(data, c, data[|c|..]);
      var t := SpellsPiece(s, c, Layout(data[|c|..]));
      PrintIsShortest(data[|c|..], t);
    }
  }
}

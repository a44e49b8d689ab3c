/** Disassembly of a contiguous region: decode, thread the width flags
    through REP and SEP, advance by the decoded length, until the requested
    length is reached or passed. */
module Disassembler {
  import opened Opcodes
  import opened Decoder

  /** One line of a disassembled block: the absolute offset, the text and
      the length of the instruction. The raw bytes the line shows are
      `data[offset..offset + size]`, which Tiles places inside the data. */
  datatype Entry = Entry(offset: nat, text: Text, size: nat)

  predicate IsFlagOpcode(op: Byte) {
    op == RepOpcode || op == SepOpcode
  }

  /** True when `bit` is set in `mask`. */
  predicate HasBit(mask: Byte, bit: bv8) {
    (mask as bv8) & bit != 0
  }

  /** The flags after an instruction with opcode `op` whose operand byte is
      `mask`: REP makes the masked registers 16-bit (bit 0x20 for M, bit 0x10
      for X), SEP makes them 8-bit, and every other opcode leaves both. */
  function NextFlags(op: Byte, mask: Byte, f: Flags): (g: Flags)
    ensures !IsFlagOpcode(op) ==> g == f
    ensures op == RepOpcode ==> (g.m <==> f.m && !HasBit(mask, 0x20)) && (g.x <==> f.x && !HasBit(mask, 0x10))
    ensures op == SepOpcode ==> (g.m <==> f.m || HasBit(mask, 0x20)) && (g.x <==> f.x || HasBit(mask, 0x10))
  {
    if op == RepOpcode then
      Flags(if HasBit(mask, 0x20) then false else f.m, if HasBit(mask, 0x10) then false else f.x)
    else if op == SepOpcode then
      Flags(if HasBit(mask, 0x20) then true else f.m, if HasBit(mask, 0x10) then true else f.x)
    else f
  }

  /** The flags after the instruction at `at`; only REP and SEP read the byte
      after the opcode. */
  function FlagsAfter(data: seq<Byte>, at: nat, f: Flags): (g: Flags)
    requires at < |data|
    requires IsFlagOpcode(data[at]) ==> at + 1 < |data|
  {
    if IsFlagOpcode(data[at]) then NextFlags(data[at], data[at + 1], f) else f
  }

  /** Widths change only at REP and SEP: REP can only make a register
      16-bit and SEP can only make it 8-bit. */
  lemma FlagsChangeOnlyAtRepSep(data: seq<Byte>, at: nat, f: Flags)
    requires at < |data|
    requires IsFlagOpcode(data[at]) ==> at + 1 < |data|
    ensures FlagsAfter(data, at, f) != f ==> IsFlagOpcode(data[at])
    ensures data[at] == RepOpcode ==> (FlagsAfter(data, at, f).m ==> f.m) && (FlagsAfter(data, at, f).x ==> f.x)
    ensures data[at] == SepOpcode ==> (f.m ==> FlagsAfter(data, at, f).m) && (f.x ==> FlagsAfter(data, at, f).x)
  {
  }

  /** The region can be walked without reading past the data: it lies
      inside the data and, when it ends exactly at the end, the last byte is
      not a REP or SEP whose mask byte would be missing. */
  predicate InRange(data: seq<Byte>, start: nat, length: int) {
    length <= 0 ||
    (start + length <= |data| &&
     (start + length < |data| || !IsFlagOpcode(data[|data| - 1])))
  }

  /** The end of an entry: the offset just past its last byte. */
  function End(e: Entry): nat {
    e.offset + e.size
  }

  /** A decoder of one instruction: the line at an offset of the data under
      the given flags. The walk over a region is stated once for every
      decoder that obeys the length rule below; the program's decoder is
      Decoder.DecodeAt. */
  type LineDecoder = (seq<Byte>, nat, Flags) -> Line

  /** The length rule of a line decoder: at least one byte, and a line of
      more than one byte lies inside the data. */
  ghost predicate Advances(decode: LineDecoder) {
    forall data: seq<Byte>, offset: nat, f: Flags ::
      decode(data, offset, f).size >= 1 &&
      (decode(data, offset, f).size > 1 ==> offset + decode(data, offset, f).size <= |data|)
  }

  /** The program's decoder obeys the length rule. */
  lemma DecodeAtAdvances()
    ensures Advances(DecodeAt)
  {
  }

  /** The instruction stream of the region of `length` bytes at `start`,
      decoded from the flags `f`: the first instruction, then the stream of
      what is left of the region after it, from the flags it leaves. */
  function Block(decode: LineDecoder, data: seq<Byte>, start: nat, length: int, f: Flags): (es: seq<Entry>)
    requires Advances(decode) && InRange(data, start, length)
    ensures es == [] <==> length <= 0
    decreases length
  {
    if length <= 0 then []
    else
      var line := decode(data, start, f);
      var e := Entry(start, line.text, line.size);
      [e] + Block(decode, data, start + line.size, length - line.size, FlagsAfter(data, start, f))
  }

  /** One step of Block: the first entry, then the stream of the rest,
      which starts at `next`, has `rest` bytes left and is decoded from `g`. */
  lemma BlockStep(decode: LineDecoder, data: seq<Byte>, start: nat, length: int, f: Flags,
                  next: nat, rest: int, g: Flags)
    requires Advances(decode) && InRange(data, start, length) && length > 0
    requires next == start + decode(data, start, f).size && rest == length - decode(data, start, f).size
    requires g == FlagsAfter(data, start, f)
    ensures next <= |data| && InRange(data, next, rest)
    ensures Block(decode, data, start, length, f) ==
      [Entry(start, decode(data, start, f).text, decode(data, start, f).size)] +
      Block(decode, data, next, rest, g)
  {
  }

  /** `es` tiles the bytes from `from` up to `upto`: each instruction starts
      where the previous one ends (the first at `from`) and before `upto`, is
      at least one byte long and ends inside `data`; the last one ends at
      or past `upto`. Only the empty stream tiles an empty
      region. */
  ghost predicate Tiles(data: seq<Byte>, es: seq<Entry>, from: nat, upto: int)
    decreases |es|
  {
    if es == [] then upto <= from
    else
      es[0].offset == from && from < upto && es[0].size >= 1 &&
      End(es[0]) <= |data| &&
      Tiles(data, es[1..], End(es[0]), upto)
  }

  /** The stream of a region tiles exactly that region. */
  lemma {:induction false} BlockTiles(decode: LineDecoder, data: seq<Byte>, start: nat, length: int, f: Flags)
    requires Advances(decode) && InRange(data, start, length)
    ensures Tiles(data, Block(decode, data, start, length, f), start, start + length)
    decreases length
  {
    if length > 0 {
      var size := decode(data, start, f).size;
      BlockStep(decode, data, start, length, f, start + size, length - size, FlagsAfter(data, start, f));
      BlockTiles(decode, data, start + size, length - size, FlagsAfter(data, start, f));
    }
  }

  /** A tiling in index form: the first instruction is at `from`, each next
      one starts where the previous one ends, all start inside the region
      and end inside the data. */
  lemma {:induction false} TilesIndexed(data: seq<Byte>, es: seq<Entry>, from: nat, upto: int)
    requires Tiles(data, es, from, upto)
    ensures es == [] <==> upto <= from
    ensures es != [] ==> es[0].offset == from
    ensures forall i :: 0 <= i < |es| ==>
      es[i].size >= 1 && from <= es[i].offset < upto &&
      End(es[i]) <= |data|
    ensures forall i, j :: 0 <= i && j == i + 1 && j < |es| ==> es[j].offset == End(es[i])
    decreases |es|
  {
    if es != [] {
      TilesIndexed(data, es[1..], End(es[0]), upto);
      assert forall i :: 0 < i < |es| ==> es[i] == es[1..][i - 1];
    }
  }

  /** The instructions of a tiling come in strictly increasing offset
      order. */
  lemma {:induction false} TilesOrdered(data: seq<Byte>, es: seq<Entry>, from: nat, upto: int)
    requires Tiles(data, es, from, upto)
    ensures forall a, b :: 0 <= a < b < |es| ==> es[a].offset < es[b].offset
    decreases |es|
  {
    if es != [] {
      TilesOrdered(data, es[1..], End(es[0]), upto);
      TilesIndexed(data, es[1..], End(es[0]), upto);
      forall a, b | 0 <= a < b < |es|
        ensures es[a].offset < es[b].offset
      {
        assert es[b] == es[1..][b - 1];
        if a > 0 {
          assert es[a] == es[1..][a - 1];
        }
      }
    }
  }

  /** The number of bytes an instruction stream spans. */
  function TotalSize(es: seq<Entry>): nat
  {
    if es == [] then 0 else es[0].size + TotalSize(es[1..])
  }

  /** A tiling reaches the end of its region and stops there: the bytes it
      spans reach `upto`, and without its last instruction they fall short
      of it. */
  lemma {:induction false} TilesTotalSize(data: seq<Byte>, es: seq<Entry>, from: nat, upto: int)
    requires Tiles(data, es, from, upto) && es != []
    ensures from + TotalSize(es) == End(es[|es| - 1])
    ensures from + TotalSize(es) >= upto
    ensures from + TotalSize(es) - es[|es| - 1].size < upto
    decreases |es|
  {
    if |es| > 1 {
      TilesTotalSize(data, es[1..], End(es[0]), upto);
    }
  }

  /** Every byte of the region lies inside some instruction of a tiling. */
  lemma {:induction false} TilesCover(data: seq<Byte>, es: seq<Entry>, from: nat, upto: int, k: int)
    requires Tiles(data, es, from, upto)
    requires from <= k < upto
    ensures exists i :: 0 <= i < |es| && es[i].offset <= k < End(es[i])
    decreases |es|
  {
    if k >= End(es[0]) {
      TilesCover(data, es[1..], End(es[0]), upto, k);
      var i :| 0 <= i < |es[1..]| && es[1..][i].offset <= k < End(es[1..][i]);
      assert es[i + 1] == es[1..][i];
    }
  }

  /** The flags in force after the whole region. */
  function FinalFlags(decode: LineDecoder, data: seq<Byte>, start: nat, length: int, f: Flags): Flags
    requires Advances(decode) && InRange(data, start, length)
    decreases length
  {
    if length <= 0 then f
    else
      var size := decode(data, start, f).size;
      FinalFlags(decode, data, start + size, length - size, FlagsAfter(data, start, f))
  }

  /** Widths change only at REP and SEP: when no instruction of the stream
      is one of them, every instruction is decoded with the initial flags,
      and those are the flags in force after the region. */
  lemma {:induction false} WidthsHoldWithoutFlagOpcodes(decode: LineDecoder, data: seq<Byte>, start: nat, length: int, f: Flags)
    requires Advances(decode) && InRange(data, start, length)
    requires var es := Block(decode, data, start, length, f);
      forall i :: 0 <= i < |es| ==> es[i].offset < |data| && !IsFlagOpcode(data[es[i].offset])
    ensures var es := Block(decode, data, start, length, f);
      forall i :: 0 <= i < |es| ==> Line(es[i].text, es[i].size) == decode(data, es[i].offset, f)
    ensures FinalFlags(decode, data, start, length, f) == f
    decreases length
  {
    if length > 0 {
      var es := Block(decode, data, start, length, f);
      var size := decode(data, start, f).size;
      BlockStep(decode, data, start, length, f, start + size, length - size, FlagsAfter(data, start, f));
      assert es[0].offset == start;
      assert FlagsAfter(data, start, f) == f;
      var rest := Block(decode, data, start + size, length - size, f);
      assert forall i :: 0 <= i < |rest| ==> rest[i] == es[i + 1];
      WidthsHoldWithoutFlagOpcodes(decode, data, start + size, length - size, f);
      assert forall i :: 0 < i < |es| ==> es[i] == rest[i - 1];
    }
  }

  lemma AppendHead<T>(done: seq<T>, head: T, rest: seq<T>)
    ensures (done + [head]) + rest == done + ([head] + rest)
  {
  }

  /** The state of the disassembly loop as a function: `lines` decoded so
      far, `pos` bytes of the region consumed, flags `f` in force; the value
      is the list the loop ends with. */
  function Run(decode: LineDecoder, data: seq<Byte>, offset: nat, length: int,
               pos: nat, f: Flags, lines: seq<Entry>): seq<Entry>
    requires Advances(decode) && InRange(data, offset + pos, length - pos)
    decreases length - pos
  {
    if pos >= length then lines
    else
      var line := decode(data, offset + pos, f);
      var next := pos + line.size;
      var e := Entry(offset + pos, line.text, line.size);
      Run(decode, data, offset, length, next, FlagsAfter(data, offset + pos, f), lines + [e])
  }

  /** From any state, the loop ends with what it has so far followed by the
      stream of what is left of the region. */
  lemma {:induction false} RunIsBlock(decode: LineDecoder, data: seq<Byte>, offset: nat, length: int,
                                      pos: nat, f: Flags, lines: seq<Entry>)
    requires Advances(decode) && InRange(data, offset + pos, length - pos)
    ensures Run(decode, data, offset, length, pos, f, lines) ==
            lines + Block(decode, data, offset + pos, length - pos, f)
    decreases length - pos
  {
    if pos < length {
      var line := decode(data, offset + pos, f);
      var next := pos + line.size;
      var e := Entry(offset + pos, line.text, line.size);
      var g := FlagsAfter(data, offset + pos, f);
      BlockStep(decode, data, offset + pos, length - pos, f, offset + next, length - next, g);
      RunIsBlock(decode, data, offset, length, next, g, lines + [e]);
      AppendHead(lines, e, Block(decode, data, offset + next, length - next, g));
    }
  }

  /** The disassembly loop: decode at the current position with the current
      flags, update the flags after REP or SEP, record the line, advance. */
  method DisasmBlock(decode: LineDecoder, data: seq<Byte>, offset: nat, length: int, mFlag: bool, xFlag: bool)
    returns (lines: seq<Entry>)
    requires Advances(decode) && InRange(data, offset, length)
    ensures lines == Block(decode, data, offset, length, Flags(mFlag, xFlag))
  {
    lines := [];
    var pos: nat := 0;
    var m, x := mFlag, xFlag;
    RunIsBlock(decode, data, offset, length, 0, Flags(mFlag, xFlag), []);
    while pos < length
      invariant InRange(data, offset + pos, length - pos)
      invariant Run(decode, data, offset, length, pos, Flags(m, x), lines) ==
                Run(decode, data, offset, length, 0, Flags(mFlag, xFlag), [])
      decreases length - pos
    {
      ghost var before := Flags(m, x);
      var line := decode(data, offset + pos, Flags(m, x));
      var next := pos + line.size;
      // the bytes the line shows (byte_str); Entry keeps offset and size
      var bytes := data[offset + pos..offset + next];
      var opcode := data[offset + pos];
      if opcode == RepOpcode {
        var val := data[offset + pos + 1];
        if HasBit(val, 0x20) { m := false; }
        if HasBit(val, 0x10) { x := false; }
      } else if opcode == SepOpcode {
        var val := data[offset + pos + 1];
        if HasBit(val, 0x20) { m := true; }
        if HasBit(val, 0x10) { x := true; }
      }
      assert Flags(m, x) == FlagsAfter(data, offset + pos, before);
      lines := lines + [Entry(offset + pos, line.text, line.size)];
      pos := next;
    }
  }

  /** The instructions of the worked example below, each decoded on its
      own with 8-bit registers. */
  lemma ExampleLines()
    ensures DecodeAt([0xA9, 0x01, 0x8D, 0x00, 0x04, 0x6B], 0, Narrow) == Line(Asm(LDA, Byte8(0x01, true)), 2)
    ensures DecodeAt([0xA9, 0x01, 0x8D, 0x00, 0x04, 0x6B], 2, Narrow) == Line(Asm(STA, Address16(0x0400, NoSuffix)), 3)
    ensures DecodeAt([0xA9, 0x01, 0x8D, 0x00, 0x04, 0x6B], 5, Narrow) == Line(Asm(RTL, NoOperand), 1)
  {
    assert Lookup(0x6B) == Descriptor(RTL, 1, Implied);
    assert Lookup(0x8D) == Descriptor(STA, 3, Absolute);
    assert Lookup(0xA9) == Descriptor(LDA, 2, Immediate);
  }

  /** A worked example: LDA #$01 / STA $0400 / RTL, with 8-bit registers,
      decodes to three instructions of two, three and one bytes. */
  lemma ExampleBlock()
    ensures Advances(DecodeAt)
    ensures Block(DecodeAt, [0xA9, 0x01, 0x8D, 0x00, 0x04, 0x6B], 0, 6, Narrow) ==
      [Entry(0, Asm(LDA, Byte8(0x01, true)), 2),
       Entry(2, Asm(STA, Address16(0x0400, NoSuffix)), 3),
       Entry(5, Asm(RTL, NoOperand), 1)]
  {
    DecodeAtAdvances();
    ExampleLines();
    var data: seq<Byte> := [0xA9, 0x01, 0x8D, 0x00, 0x04, 0x6B];
    var e2 := Entry(5, Asm(RTL, NoOperand), 1);
    assert Block(DecodeAt, data, 5, 1, Narrow) == [e2] + Block(DecodeAt, data, 6, 0, Narrow);
    var e1 := Entry(2, Asm(STA, Address16(0x0400, NoSuffix)), 3);
    assert Block(DecodeAt, data, 2, 4, Narrow) == [e1] + Block(DecodeAt, data, 5, 1, Narrow);
    var e0 := Entry(0, Asm(LDA, Byte8(0x01, true)), 2);
    assert Block(DecodeAt, data, 0, 6, Narrow) == [e0] + Block(DecodeAt, data, 2, 4, Narrow);
  }
}

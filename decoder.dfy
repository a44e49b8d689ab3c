/** Decoding of one 65C816 instruction at a byte offset, given the two
    register-width flags. Decoding is total: every offset and every byte
    value yields a line and a length of at least one byte. */
module Decoder {
  import opened Opcodes

  /** The width flags in force: `m` for the accumulator, `x` for the index
      registers; true means 8-bit, false means 16-bit. */
  datatype Flags = Flags(m: bool, x: bool)

  /** Both registers 8-bit: the state the disassembler starts from when the
      caller names no other. */
  const Narrow := Flags(true, true)

  /** How a 16-bit address operand is indexed or dereferenced when shown. */
  datatype Suffix = NoSuffix | IndexX | IndexY | Indirect | IndirectX

  /** The operand of a decoded instruction, as the disassembly renders it. */
  datatype Operand =
    | NoOperand                                 // one-byte instruction
    | Byte8(byte: Byte, immediate: bool)        // "#$xx" or "$xx"
    | Branch(displacement: int, target: int)    // "$tttt  ; rel +d"
    | Banks(first: Byte, second: Byte)          // block move "$aa, $bb"
    | Immediate16(value: nat)                   // "#$xxxx"
    | Address16(value: nat, suffix: Suffix)     // "$xxxx" with its suffix
    | Address24(value: nat, indexed: bool)      // "$xxxxxx" or "$xxxxxx,X"

  /** The text of one disassembled line. */
  datatype Text =
    | OutOfRange                          // the offset lies past the data: "???"
    | Truncated(opcode: Byte)             // ".db $xx  ; truncated"
    | Asm(mnemonic: Mnemonic, operand: Operand)

  /** What decoding one instruction produces: its text and its length. */
  datatype Line = Line(text: Text, size: nat)

  /** A byte read as a two's-complement signed 8-bit number. */
  function Signed8(b: Byte): (r: int)
    ensures -128 <= r < 128
    ensures r % 256 == b
  {
    if b > 127 then b - 256 else b
  }

  /** Two bytes read as a little-endian 16-bit number. */
  function Word(lo: Byte, hi: Byte): (r: nat)
    ensures r < 0x1_0000
    ensures r % 256 == lo && r / 256 == hi
  {
    lo + hi * 256
  }

  /** A 16-bit number read as a two's-complement signed number. */
  function Signed16(w: nat): (r: int)
    requires w < 0x1_0000
    ensures -0x8000 <= r < 0x8000
    ensures r % 0x1_0000 == w
  {
    if w > 0x7FFF then w - 0x1_0000 else w
  }

  /** Three bytes read as a little-endian 24-bit number. */
  function Long24(b0: Byte, b1: Byte, b2: Byte): (r: nat)
    ensures r < 0x100_0000
    ensures r % 256 == b0 && r / 256 % 256 == b1 && r / 0x1_0000 == b2
  {
    b0 + b1 * 256 + b2 * 0x1_0000
  }

  /** The length of an instruction: the table's base size, widened to three
      bytes for an accumulator immediate while M is clear and for an index
      immediate while X is clear. */
  function InstrSize(op: Byte, f: Flags): (n: nat)
    ensures n == Lookup(op).baseSize || (n == 3 && Lookup(op).mode == Immediate)
  {
    var d := Lookup(op);
    if d.mode == Immediate && IsAccumulatorImmediate(op) && !f.m then 3
    else if d.mode == Immediate && IsIndexImmediate(op) && !f.x then 3
    else d.baseSize
  }

  /** The length recomputed from the opcode's class alone: the flags matter
      for the twelve flag-dependent immediates and for nothing else. */
  lemma InstrSizeByClass(op: Byte, f: Flags)
    ensures 1 <= InstrSize(op, f) <= 4
    ensures InstrSize(op, f) ==
      if IsAccumulatorImmediate(op) then (if f.m then 2 else 3)
      else if IsIndexImmediate(op) then (if f.x then 2 else 3)
      else ModeSize(Lookup(op).mode)
  {
  }

  /** The suffix shown after a 16-bit address. */
  function SuffixOf(mode: Mode): Suffix
  {
    match mode
    case AbsoluteX => IndexX
    case AbsoluteY => IndexY
    case AbsoluteIndirect => Indirect
    case AbsoluteXIndirect => IndirectX
    case _ => NoSuffix
  }

  /** The size a mode may take: its own, or three for a widened immediate. */
  predicate SizeFits(mode: Mode, size: nat)
  {
    size == ModeSize(mode) || (mode == Immediate && size == 3)
  }

  /** Renders the operand bytes `ops` (those after the opcode) of an
      instruction at `offset`. Branch targets are relative to the address
      after the instruction. */
  function DecodeOperand(mode: Mode, size: nat, ops: seq<Byte>, offset: nat): Operand
    requires SizeFits(mode, size) && |ops| == size - 1
  {
    if size == 1 then NoOperand
    else if mode == Relative8 then
      var rel := Signed8(ops[0]);
      Branch(rel, offset + 2 + rel)
    else if mode == Relative16 then
      var rel := Signed16(Word(ops[0], ops[1]));
      Branch(rel, offset + 3 + rel)
    else if mode == BlockMove then Banks(ops[0], ops[1])
    else if size == 2 then Byte8(ops[0], IsImmediateMode(mode))
    else if size == 3 then
      if IsImmediateMode(mode) then Immediate16(Word(ops[0], ops[1]))
      else Address16(Word(ops[0], ops[1]), SuffixOf(mode))
    else Address24(Long24(ops[0], ops[1], ops[2]), mode == LongX)
  }

  /** Operand decoding is inverted by OperandBytes, and the operand has the
      shape its mode and size call for. */
  lemma DecodeOperandInverse(mode: Mode, size: nat, ops: seq<Byte>, offset: nat)
    requires SizeFits(mode, size) && |ops| == size - 1
    ensures Shaped(mode, size, offset, DecodeOperand(mode, size, ops, offset))
    ensures OperandBytes(DecodeOperand(mode, size, ops, offset), size) == ops
  {
    if size == 1 {
    } else if mode == Relative8 {
    } else if mode == Relative16 {
      var w := Word(ops[0], ops[1]);
      assert Signed16(w) % 0x1_0000 == w;
    } else if mode == BlockMove {
    } else if size == 2 {
    } else if size == 3 {
      var w := Word(ops[0], ops[1]);
      assert w / 256 % 256 == ops[1];
    } else {
      var v := Long24(ops[0], ops[1], ops[2]);
      assert v / 0x1_0000 % 256 == ops[2];
    }
  }

  /** Decodes the instruction at `offset`. An offset past the data and an
      instruction that would run past the end each yield a one-byte line;
      otherwise the length is the size rule's and fits in the data. */
  function DecodeAt(data: seq<Byte>, offset: nat, f: Flags): (r: Line)
    ensures r.size >= 1
    ensures r.size > 1 ==> offset + r.size <= |data|
    ensures offset >= |data| ==> r == Line(OutOfRange, 1)
    ensures offset < |data| ==>
      (r.text.Asm? <==> offset + InstrSize(data[offset], f) <= |data|)
    ensures r.text.Asm? ==> r.size == InstrSize(data[offset], f)
    ensures offset < |data| && !r.text.Asm? ==> r == Line(Truncated(data[offset]), 1)
  {
    if offset >= |data| then Line(OutOfRange, 1)
    else
      var op := data[offset];
      var d := Lookup(op);
      var size := InstrSize(op, f);
      if offset + size > |data| then Line(Truncated(op), 1)
      else Line(Asm(d.mnemonic, DecodeOperand(d.mode, size, data[offset + 1..offset + size], offset)), size)
  }

  /** Re-encodes an operand into the bytes that follow the opcode in an
      instruction of `size` bytes: the inverse of DecodeOperand. */
  function OperandBytes(operand: Operand, size: nat): seq<Byte>
  {
    match operand
    case NoOperand => []
    case Byte8(v, _) => [v]
    case Branch(rel, _) =>
      if size == 2 then [rel % 256]
      else var w := rel % 0x1_0000; [w % 256, w / 256]
    case Banks(a, b) => [a, b]
    case Immediate16(v) => [v % 256, v / 256 % 256]
    case Address16(v, _) => [v % 256, v / 256 % 256]
    case Address24(v, _) => [v % 256, v / 256 % 256, v / 0x1_0000 % 256]
  }

  /** The operand an instruction of `mode` and `size` at `offset` shows: a
      one-byte instruction has none; a rel8 or rel16 branch has a signed
      displacement of its width and targets the address after the
      instruction plus that displacement; a block move shows two banks; an
      immediate shows "#" and a 16-bit immediate a 16-bit value; an
      absolute address is 16-bit with its mode's suffix; a long address is
      24-bit and indexed exactly for longx. */
  predicate Shaped(mode: Mode, size: nat, offset: nat, operand: Operand)
  {
    match operand
    case NoOperand => size == 1
    case Branch(rel, target) =>
      target == offset + size + rel &&
      ((mode == Relative8 && size == 2 && -0x80 <= rel < 0x80) ||
       (mode == Relative16 && size == 3 && -0x8000 <= rel < 0x8000))
    case Banks(_, _) => mode == BlockMove && size == 3
    case Byte8(_, immediate) => size == 2 && mode != Relative8 && immediate == IsImmediateMode(mode)
    case Immediate16(v) => size == 3 && IsImmediateMode(mode) && v < 0x1_0000
    case Address16(v, suffix) =>
      size == 3 && !IsImmediateMode(mode) && mode != Relative16 && mode != BlockMove &&
      suffix == SuffixOf(mode) && v < 0x1_0000
    case Address24(v, indexed) => size == 4 && v < 0x100_0000 && indexed == (mode == LongX)
  }

  /** For a given mode, size and offset, the operand bytes determine the
      operand: two operands of the same shape that re-encode to the same
      bytes are equal. */
  lemma OperandBytesInjective(mode: Mode, size: nat, offset: nat, a: Operand, b: Operand)
    requires Shaped(mode, size, offset, a) && Shaped(mode, size, offset, b)
    requires OperandBytes(a, size) == OperandBytes(b, size)
    ensures a == b
  {
    var e := OperandBytes(a, size);
    match a
    case NoOperand =>
    case Branch(ra, _) =>
      var rb := b.displacement;
      if size == 2 {
        assert ra % 256 == rb % 256 by { assert e[0] == ra % 256 && e[0] == rb % 256; }
        assert ra == rb by { SameResidue(ra, rb, 0x80); }
      } else {
        var wa := ra % 0x1_0000;
        var wb := rb % 0x1_0000;
        assert wa == wb by {
          assert wa % 256 == wb % 256 && wa / 256 == wb / 256;
          assert wa == wa / 256 * 256 + wa % 256;
          assert wb == wb / 256 * 256 + wb % 256;
        }
        SameResidue(ra, rb, 0x8000);
      }
    case Banks(_, _) =>
    case Byte8(_, _) =>
    case Immediate16(va) =>
      var vb := b.value;
      Split16(va);
      Split16(vb);
    case Address16(va, _) =>
      var vb := b.value;
      Split16(va);
      Split16(vb);
    case Address24(va, _) =>
      var vb := b.value;
      Split24(va);
      Split24(vb);
  }

  /** Two integers in one window of width `2 * h` around zero with the same
      remainder modulo `2 * h` are equal. */
  lemma SameResidue(a: int, b: int, h: int)
    requires h > 0 && -h <= a < h && -h <= b < h && a % (2 * h) == b % (2 * h)
    ensures a == b
  {
    assert a % (2 * h) == (if a < 0 then a + 2 * h else a) by { Residue(a, 2 * h); }
    assert b % (2 * h) == (if b < 0 then b + 2 * h else b) by { Residue(b, 2 * h); }
  }

  /** The remainder of a number in (-n, n) modulo `n`. */
  lemma Residue(a: int, n: int)
    requires n > 0 && -n < a < n
    ensures a % n == (if a < 0 then a + n else a)
  {
    if a < 0 {
      assert (a + n) % n == a % n;
    }
  }

  /** A 16-bit value is its low byte plus 256 times its high byte. */
  lemma Split16(v: nat)
    requires v < 0x1_0000
    ensures v == v % 256 + v / 256 % 256 * 256
  {
  }

  /** A 24-bit value is rebuilt from its three bytes. */
  lemma Split24(v: nat)
    requires v < 0x100_0000
    ensures v == v % 256 + v / 256 % 256 * 256 + v / 0x1_0000 % 256 * 0x1_0000
  {
  }

  /** Decoding loses nothing: a decoded instruction names its opcode's
      mnemonic, its operand has the shape its mode and size call for, and
      it re-encodes to exactly the bytes it was decoded from; with
      OperandBytesInjective, that makes it the only such operand. */
  lemma DecodeLossless(data: seq<Byte>, offset: nat, f: Flags)
    requires DecodeAt(data, offset, f).text.Asm?
    ensures offset < |data|
    ensures DecodeAt(data, offset, f).text.mnemonic == Lookup(data[offset]).mnemonic
    ensures OperandBytes(DecodeAt(data, offset, f).text.operand, DecodeAt(data, offset, f).size)
            == data[offset + 1..offset + DecodeAt(data, offset, f).size]
    ensures Shaped(Lookup(data[offset]).mode, DecodeAt(data, offset, f).size, offset,
                   DecodeAt(data, offset, f).text.operand)
  {
    var size := InstrSize(data[offset], f);
    DecodeOperandInverse(Lookup(data[offset]).mode, size, data[offset + 1..offset + size], offset);
  }

  /** The decoded operand is the only operand of its shape that re-encodes
      to the instruction's bytes: a decoder reading rel8 unsigned, dropping
      a suffix or showing an address as an immediate would differ from it. */
  lemma DecodedOperandUnique(data: seq<Byte>, offset: nat, f: Flags, operand: Operand)
    requires DecodeAt(data, offset, f).text.Asm?
    requires offset < |data|
    requires Shaped(Lookup(data[offset]).mode, DecodeAt(data, offset, f).size, offset, operand)
    requires OperandBytes(operand, DecodeAt(data, offset, f).size) ==
             data[offset + 1..offset + DecodeAt(data, offset, f).size]
    ensures operand == DecodeAt(data, offset, f).text.operand
  {
    var line := DecodeAt(data, offset, f);
    DecodeLossless(data, offset, f);
    OperandBytesInjective(Lookup(data[offset]).mode, line.size, offset, operand, line.text.operand);
  }
}

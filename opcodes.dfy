/** The 65C816 opcode table: every byte value names a mnemonic, a base
    instruction length (opcode byte included) and an addressing mode. */
module Opcodes {

  /** A byte of a binary image. */
  type Byte = b: int | 0 <= b < 256

  /** Addressing modes. The table's short tags are, in order: imp, acc,
      imm, imm8, dp, dpx, dpi, dpxi, dpiy, dpil, dpily, sr, sriy, abs, absx,
      absy, absi, absxi, absil, long, longx, rel8, rel16, blockmv. */
  datatype Mode =
    | Implied | Accumulator
    | Immediate      // operand width depends on the M or X flag
    | Immediate8     // always one operand byte (COP, WDM, REP, SEP)
    | Direct | DirectX | DirectIndirect | DirectXIndirect | DirectIndirectY
    | DirectIndirectLong | DirectIndirectLongY
    | StackRelative | StackRelativeIndirectY
    | Absolute | AbsoluteX | AbsoluteY | AbsoluteIndirect | AbsoluteXIndirect
    | AbsoluteIndirectLong
    | Long | LongX
    | Relative8 | Relative16
    | BlockMove

  /** The instruction mnemonics, as the disassembly prints them. */
  datatype Mnemonic =
    | BRK | ORA | COP | TSB | ASL | PHP | PHD | BPL | TRB | CLC | INC | TCS
    | JSR | AND | JSL | BIT | ROL | PLP | PLD | BMI | SEC | DEC | TSC | RTI
    | EOR | WDM | MVP | LSR | PHA | PHK | JMP | BVC | MVN | CLI | PHY | TCD
    | JML | RTS | ADC | PER | STZ | ROR | PLA | RTL | BVS | SEI | PLY | TDC
    | BRA | STA | BRL | STY | STX | DEY | TXA | PHB | BCC | TYA | TXS | TXY
    | LDY | LDA | LDX | TAY | TAX | PLB | BCS | CLV | TSX | TYX | CPY | CMP
    | REP | INY | DEX | WAI | BNE | PEI | CLD | PHX | STP | CPX | SBC | SEP
    | INX | NOP | XBA | BEQ | PEA | SED | PLX | XCE

  datatype Descriptor = Descriptor(mnemonic: Mnemonic, baseSize: nat, mode: Mode)

  const RepOpcode: Byte := 0xC2
  const SepOpcode: Byte := 0xE2
  const RtlOpcode: Byte := 0x6B

  /** True for the mode tags that contain "imm": their operand is rendered
      with a '#'. */
  predicate IsImmediateMode(mode: Mode) {
    mode == Immediate || mode == Immediate8
  }

  /** Immediate opcodes whose operand is 16-bit when the accumulator is
      16-bit (M flag clear): ORA, AND, EOR, ADC, BIT, LDA, CMP, SBC. */
  predicate IsAccumulatorImmediate(op: Byte) {
    op in {0x09, 0x29, 0x49, 0x69, 0x89, 0xA9, 0xC9, 0xE9}
  }

  /** Immediate opcodes whose operand is 16-bit when the index registers
      are 16-bit (X flag clear): LDY, LDX, CPY, CPX. */
  predicate IsIndexImmediate(op: Byte) {
    op in {0xA0, 0xA2, 0xC0, 0xE0}
  }

  /** The length every instruction of a mode has, independently of the
      table: one opcode byte plus the operand bytes the mode needs (one
      operand byte for the flag-dependent immediates, their 8-bit form). */
  function ModeSize(mode: Mode): (n: nat)
    ensures 1 <= n <= 4
  {
    match mode
    case Implied | Accumulator => 1
    case Immediate | Immediate8 | Direct | DirectX | DirectIndirect | DirectXIndirect
      | DirectIndirectY | DirectIndirectLong | DirectIndirectLongY
      | StackRelative | StackRelativeIndirectY | Relative8 => 2
    case Absolute | AbsoluteX | AbsoluteY | AbsoluteIndirect | AbsoluteXIndirect
      | AbsoluteIndirectLong | Relative16 | BlockMove => 3
    case Long | LongX => 4
  }

  /** The table entry of an opcode. It is defined for every byte value, its
      base size is the one the mode dictates, and the mode is Immediate for
      exactly the twelve flag-dependent opcodes. */
  function Lookup(op: Byte): (d: Descriptor)
    ensures d.baseSize == ModeSize(d.mode)
    ensures d.mode == Immediate <==> IsAccumulatorImmediate(op) || IsIndexImmediate(op)
  {
    match op / 16
    case 0x0 => Row0(op)
    case 0x1 => Row1(op)
    case 0x2 => Row2(op)
    case 0x3 => Row3(op)
    case 0x4 => Row4(op)
    case 0x5 => Row5(op)
    case 0x6 => Row6(op)
    case 0x7 => Row7(op)
    case 0x8 => Row8(op)
    case 0x9 => Row9(op)
    case 0xA => RowA(op)
    case 0xB => RowB(op)
    case 0xC => RowC(op)
    case 0xD => RowD(op)
    case 0xE => RowE(op)
    case 0xF => RowF(op)
  }

  /** Table row 0x00..0x0F. */
  function Row0(op: Byte): (d: Descriptor)
    requires op / 16 == 0x0
    ensures d.baseSize == ModeSize(d.mode)
    ensures d.mode == Immediate <==> IsAccumulatorImmediate(op) || IsIndexImmediate(op)
  {
    match op
    case 0x00 => Descriptor(BRK, 1, Implied)
    case 0x01 => Descriptor(ORA, 2, DirectXIndirect)
    case 0x02 => Descriptor(COP, 2, Immediate8)
    case 0x03 => Descriptor(ORA, 2, StackRelative)
    case 0x04 => Descriptor(TSB, 2, Direct)
    case 0x05 => Descriptor(ORA, 2, Direct)
    case 0x06 => Descriptor(ASL, 2, Direct)
    case 0x07 => Descriptor(ORA, 2, DirectIndirectLong)
    case 0x08 => Descriptor(PHP, 1, Implied)
    case 0x09 => Descriptor(ORA, 2, Immediate)
    case 0x0A => Descriptor(ASL, 1, Accumulator)
    case 0x0B => Descriptor(PHD, 1, Implied)
    case 0x0C => Descriptor(TSB, 3, Absolute)
    case 0x0D => Descriptor(ORA, 3, Absolute)
    case 0x0E => Descriptor(ASL, 3, Absolute)
    case 0x0F => Descriptor(ORA, 4, Long)
  }

  /** Table row 0x10..0x1F. */
  function Row1(op: Byte): (d: Descriptor)
    requires op / 16 == 0x1
    ensures d.baseSize == ModeSize(d.mode)
    ensures d.mode == Immediate <==> IsAccumulatorImmediate(op) || IsIndexImmediate(op)
  {
    match op
    case 0x10 => Descriptor(BPL, 2, Relative8)
    case 0x11 => Descriptor(ORA, 2, DirectIndirectY)
    case 0x12 => Descriptor(ORA, 2, DirectIndirect)
    case 0x13 => Descriptor(ORA, 2, StackRelativeIndirectY)
    case 0x14 => Descriptor(TRB, 2, Direct)
    case 0x15 => Descriptor(ORA, 2, DirectX)
    case 0x16 => Descriptor(ASL, 2, DirectX)
    case 0x17 => Descriptor(ORA, 2, DirectIndirectLongY)
    case 0x18 => Descriptor(CLC, 1, Implied)
    case 0x19 => Descriptor(ORA, 3, AbsoluteY)
    case 0x1A => Descriptor(INC, 1, Accumulator)
    case 0x1B => Descriptor(TCS, 1, Implied)
    case 0x1C => Descriptor(TRB, 3, Absolute)
    case 0x1D => Descriptor(ORA, 3, AbsoluteX)
    case 0x1E => Descriptor(ASL, 3, AbsoluteX)
    case 0x1F => Descriptor(ORA, 4, LongX)
  }

  /** Table row 0x20..0x2F. */
  function Row2(op: Byte): (d: Descriptor)
    requires op / 16 == 0x2
    ensures d.baseSize == ModeSize(d.mode)
    ensures d.mode == Immediate <==> IsAccumulatorImmediate(op) || IsIndexImmediate(op)
  {
    match op
    case 0x20 => Descriptor(JSR, 3, Absolute)
    case 0x21 => Descriptor(AND, 2, DirectXIndirect)
    case 0x22 => Descriptor(JSL, 4, Long)
    case 0x23 => Descriptor(AND, 2, StackRelative)
    case 0x24 => Descriptor(BIT, 2, Direct)
    case 0x25 => Descriptor(AND, 2, Direct)
    case 0x26 => Descriptor(ROL, 2, Direct)
    case 0x27 => Descriptor(AND, 2, DirectIndirectLong)
    case 0x28 => Descriptor(PLP, 1, Implied)
    case 0x29 => Descriptor(AND, 2, Immediate)
    case 0x2A => Descriptor(ROL, 1, Accumulator)
    case 0x2B => Descriptor(PLD, 1, Implied)
    case 0x2C => Descriptor(BIT, 3, Absolute)
    case 0x2D => Descriptor(AND, 3, Absolute)
    case 0x2E => Descriptor(ROL, 3, Absolute)
    case 0x2F => Descriptor(AND, 4, Long)
  }

  /** Table row 0x30..0x3F. */
  function Row3(op: Byte): (d: Descriptor)
    requires op / 16 == 0x3
    ensures d.baseSize == ModeSize(d.mode)
    ensures d.mode == Immediate <==> IsAccumulatorImmediate(op) || IsIndexImmediate(op)
  {
    match op
    case 0x30 => Descriptor(BMI, 2, Relative8)
    case 0x31 => Descriptor(AND, 2, DirectIndirectY)
    case 0x32 => Descriptor(AND, 2, DirectIndirect)
    case 0x33 => Descriptor(AND, 2, StackRelativeIndirectY)
    case 0x34 => Descriptor(BIT, 2, DirectX)
    case 0x35 => Descriptor(AND, 2, DirectX)
    case 0x36 => Descriptor(ROL, 2, DirectX)
    case 0x37 => Descriptor(AND, 2, DirectIndirectLongY)
    case 0x38 => Descriptor(SEC, 1, Implied)
    case 0x39 => Descriptor(AND, 3, AbsoluteY)
    case 0x3A => Descriptor(DEC, 1, Accumulator)
    case 0x3B => Descriptor(TSC, 1, Implied)
    case 0x3C => Descriptor(BIT, 3, AbsoluteX)
    case 0x3D => Descriptor(AND, 3, AbsoluteX)
    case 0x3E => Descriptor(ROL, 3, AbsoluteX)
    case 0x3F => Descriptor(AND, 4, LongX)
  }

  /** Table row 0x40..0x4F. */
  function Row4(op: Byte): (d: Descriptor)
    requires op / 16 == 0x4
    ensures d.baseSize == ModeSize(d.mode)
    ensures d.mode == Immediate <==> IsAccumulatorImmediate(op) || IsIndexImmediate(op)
  {
    match op
    case 0x40 => Descriptor(RTI, 1, Implied)
    case 0x41 => Descriptor(EOR, 2, DirectXIndirect)
    case 0x42 => Descriptor(WDM, 2, Immediate8)
    case 0x43 => Descriptor(EOR, 2, StackRelative)
    case 0x44 => Descriptor(MVP, 3, BlockMove)
    case 0x45 => Descriptor(EOR, 2, Direct)
    case 0x46 => Descriptor(LSR, 2, Direct)
    case 0x47 => Descriptor(EOR, 2, DirectIndirectLong)
    case 0x48 => Descriptor(PHA, 1, Implied)
    case 0x49 => Descriptor(EOR, 2, Immediate)
    case 0x4A => Descriptor(LSR, 1, Accumulator)
    case 0x4B => Descriptor(PHK, 1, Implied)
    case 0x4C => Descriptor(JMP, 3, Absolute)
    case 0x4D => Descriptor(EOR, 3, Absolute)
    case 0x4E => Descriptor(LSR, 3, Absolute)
    case 0x4F => Descriptor(EOR, 4, Long)
  }

  /** Table row 0x50..0x5F. */
  function Row5(op: Byte): (d: Descriptor)
    requires op / 16 == 0x5
    ensures d.baseSize == ModeSize(d.mode)
    ensures d.mode == Immediate <==> IsAccumulatorImmediate(op) || IsIndexImmediate(op)
  {
    match op
    case 0x50 => Descriptor(BVC, 2, Relative8)
    case 0x51 => Descriptor(EOR, 2, DirectIndirectY)
    case 0x52 => Descriptor(EOR, 2, DirectIndirect)
    case 0x53 => Descriptor(EOR, 2, StackRelativeIndirectY)
    case 0x54 => Descriptor(MVN, 3, BlockMove)
    case 0x55 => Descriptor(EOR, 2, DirectX)
    case 0x56 => Descriptor(LSR, 2, DirectX)
    case 0x57 => Descriptor(EOR, 2, DirectIndirectLongY)
    case 0x58 => Descriptor(CLI, 1, Implied)
    case 0x59 => Descriptor(EOR, 3, AbsoluteY)
    case 0x5A => Descriptor(PHY, 1, Implied)
    case 0x5B => Descriptor(TCD, 1, Implied)
    case 0x5C => Descriptor(JML, 4, Long)
    case 0x5D => Descriptor(EOR, 3, AbsoluteX)
    case 0x5E => Descriptor(LSR, 3, AbsoluteX)
    case 0x5F => Descriptor(EOR, 4, LongX)
  }

  /** Table row 0x60..0x6F. */
  function Row6(op: Byte): (d: Descriptor)
    requires op / 16 == 0x6
    ensures d.baseSize == ModeSize(d.mode)
    ensures d.mode == Immediate <==> IsAccumulatorImmediate(op) || IsIndexImmediate(op)
  {
    match op
    case 0x60 => Descriptor(RTS, 1, Implied)
    case 0x61 => Descriptor(ADC, 2, DirectXIndirect)
    case 0x62 => Descriptor(PER, 3, Relative16)
    case 0x63 => Descriptor(ADC, 2, StackRelative)
    case 0x64 => Descriptor(STZ, 2, Direct)
    case 0x65 => Descriptor(ADC, 2, Direct)
    case 0x66 => Descriptor(ROR, 2, Direct)
    case 0x67 => Descriptor(ADC, 2, DirectIndirectLong)
    case 0x68 => Descriptor(PLA, 1, Implied)
    case 0x69 => Descriptor(ADC, 2, Immediate)
    case 0x6A => Descriptor(ROR, 1, Accumulator)
    case 0x6B => Descriptor(RTL, 1, Implied)
    case 0x6C => Descriptor(JMP, 3, AbsoluteIndirect)
    case 0x6D => Descriptor(ADC, 3, Absolute)
    case 0x6E => Descriptor(ROR, 3, Absolute)
    case 0x6F => Descriptor(ADC, 4, Long)
  }

  /** Table row 0x70..0x7F. */
  function Row7(op: Byte): (d: Descriptor)
    requires op / 16 == 0x7
    ensures d.baseSize == ModeSize(d.mode)
    ensures d.mode == Immediate <==> IsAccumulatorImmediate(op) || IsIndexImmediate(op)
  {
    match op
    case 0x70 => Descriptor(BVS, 2, Relative8)
    case 0x71 => Descriptor(ADC, 2, DirectIndirectY)
    case 0x72 => Descriptor(ADC, 2, DirectIndirect)
    case 0x73 => Descriptor(ADC, 2, StackRelativeIndirectY)
    case 0x74 => Descriptor(STZ, 2, DirectX)
    case 0x75 => Descriptor(ADC, 2, DirectX)
    case 0x76 => Descriptor(ROR, 2, DirectX)
    case 0x77 => Descriptor(ADC, 2, DirectIndirectLongY)
    case 0x78 => Descriptor(SEI, 1, Implied)
    case 0x79 => Descriptor(ADC, 3, AbsoluteY)
    case 0x7A => Descriptor(PLY, 1, Implied)
    case 0x7B => Descriptor(TDC, 1, Implied)
    case 0x7C => Descriptor(JMP, 3, AbsoluteXIndirect)
    case 0x7D => Descriptor(ADC, 3, AbsoluteX)
    case 0x7E => Descriptor(ROR, 3, AbsoluteX)
    case 0x7F => Descriptor(ADC, 4, LongX)
  }

  /** Table row 0x80..0x8F. */
  function Row8(op: Byte): (d: Descriptor)
    requires op / 16 == 0x8
    ensures d.baseSize == ModeSize(d.mode)
    ensures d.mode == Immediate <==> IsAccumulatorImmediate(op) || IsIndexImmediate(op)
  {
    match op
    case 0x80 => Descriptor(BRA, 2, Relative8)
    case 0x81 => Descriptor(STA, 2, DirectXIndirect)
    case 0x82 => Descriptor(BRL, 3, Relative16)
    case 0x83 => Descriptor(STA, 2, StackRelative)
    case 0x84 => Descriptor(STY, 2, Direct)
    case 0x85 => Descriptor(STA, 2, Direct)
    case 0x86 => Descriptor(STX, 2, Direct)
    case 0x87 => Descriptor(STA, 2, DirectIndirectLong)
    case 0x88 => Descriptor(DEY, 1, Implied)
    case 0x89 => Descriptor(BIT, 2, Immediate)
    case 0x8A => Descriptor(TXA, 1, Implied)
    case 0x8B => Descriptor(PHB, 1, Implied)
    case 0x8C => Descriptor(STY, 3, Absolute)
    case 0x8D => Descriptor(STA, 3, Absolute)
    case 0x8E => Descriptor(STX, 3, Absolute)
    case 0x8F => Descriptor(STA, 4, Long)
  }

  /** Table row 0x90..0x9F. */
  function Row9(op: Byte): (d: Descriptor)
    requires op / 16 == 0x9
    ensures d.baseSize == ModeSize(d.mode)
    ensures d.mode == Immediate <==> IsAccumulatorImmediate(op) || IsIndexImmediate(op)
  {
    match op
    case 0x90 => Descriptor(BCC, 2, Relative8)
    case 0x91 => Descriptor(STA, 2, DirectIndirectY)
    case 0x92 => Descriptor(STA, 2, DirectIndirect)
    case 0x93 => Descriptor(STA, 2, StackRelativeIndirectY)
    case 0x94 => Descriptor(STY, 2, DirectX)
    case 0x95 => Descriptor(STA, 2, DirectX)
    case 0x96 => Descriptor(STX, 2, DirectX)
    case 0x97 => Descriptor(STA, 2, DirectIndirectLongY)
    case 0x98 => Descriptor(TYA, 1, Implied)
    case 0x99 => Descriptor(STA, 3, AbsoluteY)
    case 0x9A => Descriptor(TXS, 1, Implied)
    case 0x9B => Descriptor(TXY, 1, Implied)
    case 0x9C => Descriptor(STZ, 3, Absolute)
    case 0x9D => Descriptor(STA, 3, AbsoluteX)
    case 0x9E => Descriptor(STZ, 3, AbsoluteX)
    case 0x9F => Descriptor(STA, 4, LongX)
  }

  /** Table row 0xA0..0xAF. */
  function RowA(op: Byte): (d: Descriptor)
    requires op / 16 == 0xA
    ensures d.baseSize == ModeSize(d.mode)
    ensures d.mode == Immediate <==> IsAccumulatorImmediate(op) || IsIndexImmediate(op)
  {
    match op
    case 0xA0 => Descriptor(LDY, 2, Immediate)
    case 0xA1 => Descriptor(LDA, 2, DirectXIndirect)
    case 0xA2 => Descriptor(LDX, 2, Immediate)
    case 0xA3 => Descriptor(LDA, 2, StackRelative)
    case 0xA4 => Descriptor(LDY, 2, Direct)
    case 0xA5 => Descriptor(LDA, 2, Direct)
    case 0xA6 => Descriptor(LDX, 2, Direct)
    case 0xA7 => Descriptor(LDA, 2, DirectIndirectLong)
    case 0xA8 => Descriptor(TAY, 1, Implied)
    case 0xA9 => Descriptor(LDA, 2, Immediate)
    case 0xAA => Descriptor(TAX, 1, Implied)
    case 0xAB => Descriptor(PLB, 1, Implied)
    case 0xAC => Descriptor(LDY, 3, Absolute)
    case 0xAD => Descriptor(LDA, 3, Absolute)
    case 0xAE => Descriptor(LDX, 3, Absolute)
    case 0xAF => Descriptor(LDA, 4, Long)
  }

  /** Table row 0xB0..0xBF. */
  function RowB(op: Byte): (d: Descriptor)
    requires op / 16 == 0xB
    ensures d.baseSize == ModeSize(d.mode)
    ensures d.mode == Immediate <==> IsAccumulatorImmediate(op) || IsIndexImmediate(op)
  {
    match op
    case 0xB0 => Descriptor(BCS, 2, Relative8)
    case 0xB1 => Descriptor(LDA, 2, DirectIndirectY)
    case 0xB2 => Descriptor(LDA, 2, DirectIndirect)
    case 0xB3 => Descriptor(LDA, 2, StackRelativeIndirectY)
    case 0xB4 => Descriptor(LDY, 2, DirectX)
    case 0xB5 => Descriptor(LDA, 2, DirectX)
    case 0xB6 => Descriptor(LDX, 2, DirectX)
    case 0xB7 => Descriptor(LDA, 2, DirectIndirectLongY)
    case 0xB8 => Descriptor(CLV, 1, Implied)
    case 0xB9 => Descriptor(LDA, 3, AbsoluteY)
    case 0xBA => Descriptor(TSX, 1, Implied)
    case 0xBB => Descriptor(TYX, 1, Implied)
    case 0xBC => Descriptor(LDY, 3, AbsoluteX)
    case 0xBD => Descriptor(LDA, 3, AbsoluteX)
    case 0xBE => Descriptor(LDX, 3, AbsoluteY)
    case 0xBF => Descriptor(LDA, 4, LongX)
  }

  /** Table row 0xC0..0xCF. */
  function RowC(op: Byte): (d: Descriptor)
    requires op / 16 == 0xC
    ensures d.baseSize == ModeSize(d.mode)
    ensures d.mode == Immediate <==> IsAccumulatorImmediate(op) || IsIndexImmediate(op)
  {
    match op
    case 0xC0 => Descriptor(CPY, 2, Immediate)
    case 0xC1 => Descriptor(CMP, 2, DirectXIndirect)
    case 0xC2 => Descriptor(REP, 2, Immediate8)
    case 0xC3 => Descriptor(CMP, 2, StackRelative)
    case 0xC4 => Descriptor(CPY, 2, Direct)
    case 0xC5 => Descriptor(CMP, 2, Direct)
    case 0xC6 => Descriptor(DEC, 2, Direct)
    case 0xC7 => Descriptor(CMP, 2, DirectIndirectLong)
    case 0xC8 => Descriptor(INY, 1, Implied)
    case 0xC9 => Descriptor(CMP, 2, Immediate)
    case 0xCA => Descriptor(DEX, 1, Implied)
    case 0xCB => Descriptor(WAI, 1, Implied)
    case 0xCC => Descriptor(CPY, 3, Absolute)
    case 0xCD => Descriptor(CMP, 3, Absolute)
    case 0xCE => Descriptor(DEC, 3, Absolute)
    case 0xCF => Descriptor(CMP, 4, Long)
  }

  /** Table row 0xD0..0xDF. */
  function RowD(op: Byte): (d: Descriptor)
    requires op / 16 == 0xD
    ensures d.baseSize == ModeSize(d.mode)
    ensures d.mode == Immediate <==> IsAccumulatorImmediate(op) || IsIndexImmediate(op)
  {
    match op
    case 0xD0 => Descriptor(BNE, 2, Relative8)
    case 0xD1 => Descriptor(CMP, 2, DirectIndirectY)
    case 0xD2 => Descriptor(CMP, 2, DirectIndirect)
    case 0xD3 => Descriptor(CMP, 2, StackRelativeIndirectY)
    case 0xD4 => Descriptor(PEI, 2, Direct)
    case 0xD5 => Descriptor(CMP, 2, DirectX)
    case 0xD6 => Descriptor(DEC, 2, DirectX)
    case 0xD7 => Descriptor(CMP, 2, DirectIndirectLongY)
    case 0xD8 => Descriptor(CLD, 1, Implied)
    case 0xD9 => Descriptor(CMP, 3, AbsoluteY)
    case 0xDA => Descriptor(PHX, 1, Implied)
    case 0xDB => Descriptor(STP, 1, Implied)
    case 0xDC => Descriptor(JML, 3, AbsoluteIndirectLong)
    case 0xDD => Descriptor(CMP, 3, AbsoluteX)
    case 0xDE => Descriptor(DEC, 3, AbsoluteX)
    case 0xDF => Descriptor(CMP, 4, LongX)
  }

  /** Table row 0xE0..0xEF. */
  function RowE(op: Byte): (d: Descriptor)
    requires op / 16 == 0xE
    ensures d.baseSize == ModeSize(d.mode)
    ensures d.mode == Immediate <==> IsAccumulatorImmediate(op) || IsIndexImmediate(op)
  {
    match op
    case 0xE0 => Descriptor(CPX, 2, Immediate)
    case 0xE1 => Descriptor(SBC, 2, DirectXIndirect)
    case 0xE2 => Descriptor(SEP, 2, Immediate8)
    case 0xE3 => Descriptor(SBC, 2, StackRelative)
    case 0xE4 => Descriptor(CPX, 2, Direct)
    case 0xE5 => Descriptor(SBC, 2, Direct)
    case 0xE6 => Descriptor(INC, 2, Direct)
    case 0xE7 => Descriptor(SBC, 2, DirectIndirectLong)
    case 0xE8 => Descriptor(INX, 1, Implied)
    case 0xE9 => Descriptor(SBC, 2, Immediate)
    case 0xEA => Descriptor(NOP, 1, Implied)
    case 0xEB => Descriptor(XBA, 1, Implied)
    case 0xEC => Descriptor(CPX, 3, Absolute)
    case 0xED => Descriptor(SBC, 3, Absolute)
    case 0xEE => Descriptor(INC, 3, Absolute)
    case 0xEF => Descriptor(SBC, 4, Long)
  }

  /** Table row 0xF0..0xFF. */
  function RowF(op: Byte): (d: Descriptor)
    requires op / 16 == 0xF
    ensures d.baseSize == ModeSize(d.mode)
    ensures d.mode == Immediate <==> IsAccumulatorImmediate(op) || IsIndexImmediate(op)
  {
    match op
    case 0xF0 => Descriptor(BEQ, 2, Relative8)
    case 0xF1 => Descriptor(SBC, 2, DirectIndirectY)
    case 0xF2 => Descriptor(SBC, 2, DirectIndirect)
    case 0xF3 => Descriptor(SBC, 2, StackRelativeIndirectY)
    case 0xF4 => Descriptor(PEA, 3, Absolute)
    case 0xF5 => Descriptor(SBC, 2, DirectX)
    case 0xF6 => Descriptor(INC, 2, DirectX)
    case 0xF7 => Descriptor(SBC, 2, DirectIndirectLongY)
    case 0xF8 => Descriptor(SED, 1, Implied)
    case 0xF9 => Descriptor(SBC, 3, AbsoluteY)
    case 0xFA => Descriptor(PLX, 1, Implied)
    case 0xFB => Descriptor(XCE, 1, Implied)
    case 0xFC => Descriptor(JSR, 3, AbsoluteXIndirect)
    case 0xFD => Descriptor(SBC, 3, AbsoluteX)
    case 0xFE => Descriptor(INC, 3, AbsoluteX)
    case 0xFF => Descriptor(SBC, 4, LongX)
  }

  /** Every base size lies in 1..4; branches, block moves and long modes
      have the sizes their operands need. */
  lemma BaseSizes(op: Byte)
    ensures 1 <= Lookup(op).baseSize <= 4
    ensures Lookup(op).mode == Relative8 ==> Lookup(op).baseSize == 2
    ensures Lookup(op).mode in {Relative16, BlockMove} ==> Lookup(op).baseSize == 3
    ensures Lookup(op).mode in {Long, LongX} ==> Lookup(op).baseSize == 4
  {
  }

  /** The entries the disassembler and the boundary scan rely on. */
  lemma SpecialEntries()
    ensures Lookup(RepOpcode) == Descriptor(REP, 2, Immediate8)
    ensures Lookup(SepOpcode) == Descriptor(SEP, 2, Immediate8)
    ensures Lookup(RtlOpcode) == Descriptor(RTL, 1, Implied)
  {
  }
}

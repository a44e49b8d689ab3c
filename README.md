# compare_wram: a verified model of the 65C816 routine differ

`compare_wram.py` looks for a few WRAM routines of the sd2snes menu in two
ROM images, one built with snescom (the original) and one with 64tass (the
port), and compares each routine byte by byte. When the bytes differ, it
disassembles both sides as WDC 65C816 code and walks the two instruction
streams side by side. Instructions at the same offset are paired and marked
"SIZE DIFF!" or "DIFFERS!". An instruction with no counterpart at its offset
is reported "ONLY IN ORIG" or "ONLY IN PORT".

This project models that core in Dafny and proves what it promises:

- `Opcodes` (opcodes.dfy) is the 256-entry opcode table. Each entry holds a
  mnemonic, a base length and an addressing mode.
- `Decoder` (decoder.dfy) decodes one instruction, `disasm_line`. The
  length rule depends on the M and X register-width flags. Operands are
  decoded as little-endian values, with signed branch displacements and
  targets. The printed text is kept as a structured `Text` value rather
  than a formatted string.
- `Disassembler` (disassembler.dfy) walks a region, `disasm_block`. The
  width flags are threaded through REP and SEP. The walk is a method with
  a loop, proved equal to the recursive stream `Block`. `Block` is stated
  for any line decoder that obeys the length rule, and `Decoder.DecodeAt`
  is proved to be one.
- `Scanner` (scanner.dfy) covers the search:
  - `find_pattern`;
  - the fallback to ever shorter signature prefixes;
  - the choice of the first match;
  - the scan for the RTL that ends a routine in the original. When no RTL
    lies in the window, the length falls back to `port_length`; the model
    follows the code here.
- `Aligner` (aligner.dfy) covers `compare_routines`:
  - the identical check;
  - the two-cursor alignment loop, as the method `AlignInstructions`, proved
    equal to the recursive merge `Merge`;
  - the classification of aligned pairs;
  - the end-to-end guarantee that a byte difference is never hidden.

A merge might be expected to resynchronize after a single change of
addressing mode, which shifts every later instruction by a constant, so
that the change causes no spurious mismatches after it. This one does not. Pairing is by
relative offset only, so instructions after the shift are reported on one
side, or paired with a different instruction. The model follows the code.
`Aligner.ShiftReportsOneSided` exhibits the behaviour on four-byte regions.

## Model

| member | source | states |
|---|---|---|
| Opcodes.Lookup | compare_wram.py:13-113 | every byte value has an entry; the base size is the one its addressing mode dictates; the mode is "imm" for exactly the twelve flag-dependent opcodes |
| Opcodes.Row0 | compare_wram.py:14-19 | entries 0x00-0x0F: base size matches the mode, "imm" exactly for the flag-dependent opcodes |
| Opcodes.Row1 | compare_wram.py:20-25 | entries 0x10-0x1F, as Row0 |
| Opcodes.Row2 | compare_wram.py:26-31 | entries 0x20-0x2F, as Row0 |
| Opcodes.Row3 | compare_wram.py:32-37 | entries 0x30-0x3F, as Row0 |
| Opcodes.Row4 | compare_wram.py:38-43 | entries 0x40-0x4F, as Row0 |
| Opcodes.Row5 | compare_wram.py:44-49 | entries 0x50-0x5F, as Row0 |
| Opcodes.Row6 | compare_wram.py:50-55 | entries 0x60-0x6F, as Row0 |
| Opcodes.Row7 | compare_wram.py:56-61 | entries 0x70-0x7F, as Row0 |
| Opcodes.Row8 | compare_wram.py:62-67 | entries 0x80-0x8F, as Row0 |
| Opcodes.Row9 | compare_wram.py:68-73 | entries 0x90-0x9F, as Row0 |
| Opcodes.RowA | compare_wram.py:74-80 | entries 0xA0-0xAF, as Row0 |
| Opcodes.RowB | compare_wram.py:81-86 | entries 0xB0-0xBF, as Row0 |
| Opcodes.RowC | compare_wram.py:87-93 | entries 0xC0-0xCF, as Row0 |
| Opcodes.RowD | compare_wram.py:94-99 | entries 0xD0-0xDF, as Row0 |
| Opcodes.RowE | compare_wram.py:100-106 | entries 0xE0-0xEF, as Row0 |
| Opcodes.RowF | compare_wram.py:107-112 | entries 0xF0-0xFF, as Row0 |
| Opcodes.ModeSize | compare_wram.py:13-113 | the length each addressing mode implies is between 1 and 4 bytes |
| Opcodes.BaseSizes | compare_wram.py:13-113 | every base size is 1 to 4; rel8 entries are 2 bytes, rel16 and blockmv entries 3, long and longx entries 4 |
| Opcodes.SpecialEntries | compare_wram.py:13-113 | REP (0xC2) and SEP (0xE2) are 2-byte imm8 entries; RTL (0x6B) is a 1-byte implied entry |
| Decoder.Signed8 | compare_wram.py:155-157 | the rel8 displacement lies in -128..127 and is congruent to the byte modulo 256 |
| Decoder.Word | compare_wram.py:161 | the little-endian 16-bit value is below 0x10000, with the low byte as its remainder and the high byte as its quotient by 256 |
| Decoder.Signed16 | compare_wram.py:162-163 | the rel16 displacement lies in -32768..32767 and is congruent to the word modulo 65536 |
| Decoder.Long24 | compare_wram.py:182 | the 24-bit value is below 0x1000000, and its three bytes are recovered in order |
| Decoder.InstrSizeByClass | compare_wram.py:137-145 | accumulator immediates are 2 bytes with M set and 3 with M clear; index immediates the same with X; every other opcode takes its mode's length whatever the flags; all lengths are 1..4 |
| Decoder.InstrSize | compare_wram.py:137-145 | the length is the entry's base size, except that an "imm" opcode may grow to 3 bytes |
| Decoder.DecodeOperandInverse | compare_wram.py:150-184 | the decoded operand has the shape its mode and length call for (kind, value range, suffix, branch target) and re-encodes to exactly the operand bytes it was decoded from |
| Decoder.OperandBytesInjective | compare_wram.py:150-184 | two operands of the shape one mode and length call for that re-encode to the same bytes are equal, so the decoded operand is the only one of its shape with those bytes |
| Decoder.SameResidue | compare_wram.py:155-163 | two displacements in the same signed range that agree modulo twice its bound are equal |
| Decoder.Residue | compare_wram.py:155-163 | the Euclidean remainder by n of a value strictly between -n and n, written out |
| Decoder.Split16 | compare_wram.py:161 | a 16-bit value is its low byte plus 256 times its high byte |
| Decoder.Split24 | compare_wram.py:182 | a 24-bit value is its three bytes in little-endian order |
| Decoder.DecodeAt | compare_wram.py:125-188 | an offset past the data yields a one-byte "???" line; an instruction running past the end yields a one-byte truncated line, exactly when the size rule says it does not fit; otherwise the line has the size rule's length and fits in the data |
| Decoder.DecodeLossless | compare_wram.py:150-184 | a decoded line carries its opcode's mnemonic; its operand has the shape the opcode's mode and the line's length call for (a rel8 displacement in -128..127, a 16-bit value below 0x10000, the mode's index suffix, a branch target equal to the offset after the instruction plus the displacement) and re-encodes to exactly the operand bytes |
| Decoder.DecodedOperandUnique | compare_wram.py:150-184 | any operand of that shape that re-encodes to the operand bytes is the one decoded, so the decoding loses nothing |
| Disassembler.NextFlags | compare_wram.py:199-208 | REP clears M when bit 0x20 of its operand is set and X when bit 0x10 is set; SEP sets them under the same bits; every other opcode leaves both flags |
| Disassembler.FlagsChangeOnlyAtRepSep | compare_wram.py:199-208 | the flags change only at REP or SEP; REP never makes a register 8-bit and SEP never makes one 16-bit |
| Disassembler.DecodeAtAdvances | compare_wram.py:125-188 | every decoded line is at least one byte, and a line of more than one byte lies inside the data |
| Disassembler.Block | compare_wram.py:191-212 | the stream is empty exactly when the requested length is not positive |
| Disassembler.BlockStep | compare_wram.py:195-211 | one loop iteration: the stream is the line at the current offset followed by the stream of the rest, from the flags that line leaves |
| Disassembler.BlockTiles | compare_wram.py:195-211 | the stream tiles the region: the first line at the start offset, each next line where the previous one ends, every line inside the data, and the last one reaching or passing the requested end |
| Disassembler.TilesIndexed | compare_wram.py:210-211 | in a tiled stream, each line starts where the previous one ends, starts before the requested end, and ends inside the data |
| Disassembler.TilesOrdered | compare_wram.py:210-211 | offsets strictly increase along the stream |
| Disassembler.TilesTotalSize | compare_wram.py:195-211 | the lengths add up to the end of the last line, which reaches or passes the requested end and starts before it |
| Disassembler.TilesCover | compare_wram.py:195-211 | every byte of the region lies inside some line of the stream, so nothing is skipped |
| Disassembler.WidthsHoldWithoutFlagOpcodes | compare_wram.py:199-208 | with no REP or SEP in the stream, every line is decoded with the initial flags, and those flags are still in force at the end |
| Disassembler.RunIsBlock | compare_wram.py:193-212 | the loop state after any number of iterations, finished, equals the recursive stream from the start |
| Disassembler.DisasmBlock | compare_wram.py:191-212 | the loop returns exactly the stream Block, starting from the caller's flags |
| Disassembler.ExampleLines | compare_wram.py:125-188 | LDA #$01, STA $0400 and RTL decode to their texts and lengths with 8-bit registers |
| Disassembler.ExampleBlock | compare_wram.py:191-212 | the region A9 01 8D 00 04 6B disassembles to three lines at offsets 0, 2 and 5 |
| Scanner.FindPattern | compare_wram.py:116-122 | the result holds exactly the indices where the pattern occurs, strictly increasing; it is empty exactly when the pattern occurs nowhere |
| Scanner.Locate | compare_wram.py:366-382 | the full signature is used whenever it occurs; otherwise the longest prefix of at least 4 bytes that occurs; the matches are exactly that prefix's occurrences, in order; they are empty exactly when neither the signature nor any such prefix occurs |
| Scanner.PlaceRoutine | compare_wram.py:364-402 | nothing is placed exactly when neither the signature nor any prefix of 4 or more bytes occurs; otherwise the prefix used is the whole signature when it occurs and else the longest prefix of 4 or more bytes that occurs, the routine sits at the smallest offset where that prefix occurs, and its length is the one the RTL scan determines |
| Scanner.RoutineLength | compare_wram.py:390-402 | the length lies in port_length..port_length+16; when it is longer, it ends on the first RTL at or after port_length-1; when it equals port_length, the byte at port_length-1 is RTL or no RTL lies in the window; no RTL lies before the chosen end; the compared length is the larger one |
| Aligner.Slice | compare_wram.py:222-223 | a Python slice clamps to the end of the sequence: its length is as Python computes it |
| Aligner.SliceAt | compare_wram.py:222-223 | an index inside a slice reads the sliced byte |
| Aligner.Classify | compare_wram.py:272-281 | a pair is SIZE DIFF exactly when the lengths differ |
| Aligner.ClassifyMeaning | compare_wram.py:272-281 | a pair is unmarked exactly when the lengths agree and the bytes each instruction covers in its region agree |
| Aligner.MergeFrom | compare_wram.py:261-299 | from a pair of cursors, the number of records is at least what is left on either side and at most what is left on both |
| Aligner.Merge | compare_wram.py:253-299 | the number of records is at least the number of instructions on either side and at most their sum |
| Aligner.MergeStep | compare_wram.py:261-299 | one iteration advances one cursor or both; an aligned record takes both instructions at one offset and their classification; a one-side record takes the instruction at the smaller offset, or the next one of the side not yet used up |
| Aligner.MergeShowsEach | compare_wram.py:261-299 | the records show every original instruction exactly once and in order, and likewise every port instruction |
| Aligner.MergeAligned | compare_wram.py:273-285 | every aligned record pairs two instructions at the same relative offset and carries their classification |
| Aligner.MergeFromCursors | compare_wram.py:261-299 | with increasing offsets, no record shows an instruction before its side's cursor |
| Aligner.NoCounterpart | compare_wram.py:286-299 | with increasing offsets, an ONLY IN ORIG (or ONLY IN PORT) instruction has no instruction at its offset on the other side |
| Aligner.MergeAllSame | compare_wram.py:261-299 | when no record is marked or one-sided, both sides have the same number of instructions, paired index by index at equal offsets, each pair unmarked |
| Aligner.AlignInstructions | compare_wram.py:253-299 | the cursor loop with its -1 sentinels produces exactly the records of Merge |
| Aligner.Records | compare_wram.py:236-299 | the original instructions shown by the records, in order, are exactly the relative disassembly of the original region, and likewise on the port side |
| Aligner.Relative | compare_wram.py:255-256 | one record per line, at its offset minus the routine's start, with its text and length |
| Aligner.RelativeIncreasing | compare_wram.py:255-256 | a disassembled region gives relative offsets that are non-negative and strictly increasing |
| Aligner.BlockCovers | compare_wram.py:236-256 | every offset of the region lies inside some instruction of the relative stream |
| Aligner.PairedSameMeansEqual | compare_wram.py:275-281 | regions covered by instructions that are paired at equal offsets and all unmarked are equal byte for byte |
| Aligner.SameByteAt | compare_wram.py:275-281 | a byte inside an unmarked aligned pair is the same on both sides |
| Aligner.SilentMergeMeansEqual | compare_wram.py:253-299 | when every record is an unmarked aligned pair, the two regions are equal |
| Aligner.DifferenceReported | compare_wram.py:226-299 | when the two regions' bytes differ, at least one record is marked or one-sided |
| Aligner.CompareRoutines | compare_wram.py:215-314 | True exactly when the two slices are equal, with no records; otherwise False, with the records of both disassemblies under 8-bit flags, at least one of them marked or one-sided |
| Aligner.ShiftOrigLines | compare_wram.py:125-188 | LDA $0400 and RTL decode to their texts and lengths with 8-bit registers |
| Aligner.ShiftPortLines | compare_wram.py:125-188 | LDA $00, RTL and NOP decode to their texts and lengths with 8-bit registers |
| Aligner.ShiftOrigDecoded | compare_wram.py:236-255 | AD 00 04 6B disassembles to LDA $0400 at 0 and RTL at 3 |
| Aligner.ShiftPortLast | compare_wram.py:191-212 | the last byte of A5 00 6B EA, on its own, disassembles to NOP |
| Aligner.ShiftPortTail | compare_wram.py:191-212 | the last two bytes of A5 00 6B EA disassemble to RTL then NOP |
| Aligner.ShiftPortDecoded | compare_wram.py:237-256 | A5 00 6B EA disassembles to LDA $00 at 0, RTL at 2 and NOP at 3 |
| Aligner.ShiftMarks | compare_wram.py:272-281 | in that example the two loads are SIZE DIFF, and the original's RTL against the port's NOP is DIFFERS |
| Aligner.ShiftMerge | compare_wram.py:261-299 | in that example the merge gives SIZE DIFF, then ONLY IN PORT for the port's RTL, then RTL against NOP as DIFFERS |
| Aligner.ShiftReportsOneSided | compare_wram.py:215-299 | one addressing-mode change (absolute to direct page) makes compare_routines report a one-sided instruction and a spurious mismatch after it |

## Left out

- Printing is not modelled: the banners, the side-by-side table, the byte-difference count (`diffs`), the raw hex comparison and `hex_dump` only print. Lines keep their offset and length instead of the hex string of their bytes, which is the rendering of `data[offset..offset + size]`.
- Formatted text is not modelled. A line's text is the structured `Text` value (mnemonic and decoded operand), not the formatted string with its `$`, `#` and padding.
- `orig_map` and `port_map` in `compare_routines` are built and never read, so they are not modelled.
- File reading, the fixed ROM paths and the routine list in `main` are not modelled. The driver loop's reporting, the "multiple matches" warning and the length-mismatch branch print only, and `all_identical` is not modelled. The model covers what the loop computes up to the comparison, as `Scanner.PlaceRoutine`: the match search with its fallback (`Scanner.Locate`), the first match, and the routine length (`Scanner.RoutineLength`).
- The DMA copy-size search at the end of `main` is not modelled. It prints only.
- compare2.py and compare3.py are not part of this model.
- Two branches of `disasm_line` cannot be reached and are left out. The `.db` line for an opcode missing from the table cannot happen, because the table is total (`Opcodes.Lookup`). The `???` operand for a size outside 1..4 cannot happen either (`Decoder.InstrSizeByClass`).
- Disassembler.DisasmBlock: its precondition `InRange` is sufficient for the walk never to index past the data, not exactly the condition under which Python raises IndexError. A region ending exactly at the end of the data with a REP or SEP as its last byte is excluded, even where that byte is not an instruction start.
- Aligner.CompareRoutines: the disassembly is required to stay inside the data only when the two slices differ. Python would raise IndexError on out-of-range reads there, and the model does not represent that exception.
- Scanner.RoutineLength: an empty image with a routine at offset 0 of port length 0 is excluded by its precondition. Python raises IndexError there when it reads `orig[-1]`. `Scanner.PlaceRoutine`, its only caller, never reaches that case except for an empty signature, and its own precondition excludes exactly that input.

/** The side-by-side comparison of one routine in the two images: the quick
    check for identical bytes, then the two-cursor merge of the two
    instruction streams by offset from the start of the routine. */
module Aligner {
  import opened Opcodes
  import opened Decoder
  import opened Disassembler

  /** An instruction placed by its offset from the start of its routine. */
  datatype Instr = Instr(rel: nat, text: Text, size: nat)

  /** How the two instructions of an aligned pair compare. */
  datatype Mark = Same | SizeDiff | Differs

  /** One row of the comparison. */
  datatype Record =
    | Aligned(orig: Instr, port: Instr, mark: Mark)
    | OnlyOrig(orig: Instr)
    | OnlyPort(port: Instr)

  /** A record that reports a difference: anything but an aligned pair of
      the same size and the same bytes. */
  predicate Reports(r: Record) {
    !(r.Aligned? && r.mark == Same)
  }

  /** The subscript s[i:j] with non-negative bounds: clamped to the end of
      `s`, and empty when j <= i. */
  function Slice(s: seq<Byte>, i: nat, j: nat): (r: seq<Byte>)
    ensures |r| == if j <= i || |s| <= i then 0 else (if j < |s| then j else |s|) - i
  {
    if |s| <= i || j <= i then [] else s[i..if j < |s| then j else |s|]
  }

  /** An index inside a slice reads the byte of the sliced sequence. */
  lemma SliceAt(s: seq<Byte>, i: nat, j: nat, k: nat)
    requires i <= k < j && k < |s|
    ensures k - i < |Slice(s, i, j)| && Slice(s, i, j)[k - i] == s[k]
  {
  }

  /** The mark of a pair at the same offset, `ob` and `pb` being the two
      compared regions: both are cut to the wider of the two instructions,
      then each to its own instruction's size. */
  function Classify(o: Instr, p: Instr, ob: seq<Byte>, pb: seq<Byte>): (mark: Mark)
    ensures mark == SizeDiff <==> o.size != p.size
  {
    var width := if o.size > p.size then o.size else p.size;
    var oBytes := Slice(ob, o.rel, o.rel + width);
    var pBytes := Slice(pb, p.rel, p.rel + width);
    if o.size != p.size then SizeDiff
    else if Slice(oBytes, 0, o.size) != Slice(pBytes, 0, p.size) then Differs
    else Same
  }

  /** A pair is unmarked exactly when the sizes agree and so do the bytes
      each instruction covers in its region. */
  lemma ClassifyMeaning(o: Instr, p: Instr, ob: seq<Byte>, pb: seq<Byte>)
    ensures Classify(o, p, ob, pb) == Same <==>
      o.size == p.size && Slice(ob, o.rel, o.rel + o.size) == Slice(pb, p.rel, p.rel + p.size)
  {
    if o.size == p.size {
      var oBytes := Slice(ob, o.rel, o.rel + o.size);
      var pBytes := Slice(pb, p.rel, p.rel + p.size);
      assert Slice(oBytes, 0, o.size) == oBytes;
      assert Slice(pBytes, 0, p.size) == pBytes;
    }
  }

  /** How an aligned pair is marked. The merge is stated for any marking;
      the comparison marks pairs with `MarkIn` of its two regions. */
  type Classifier = (Instr, Instr) -> Mark

  /** The comparison's marking: Classify against the two compared regions. */
  function MarkIn(ob: seq<Byte>, pb: seq<Byte>): Classifier {
    (o, p) => Classify(o, p, ob, pb)
  }

  /** The merge from cursor `oi` into `os` and cursor `pi` into `ps`: while
      both sides have an instruction, equal offsets give an aligned pair and
      otherwise the one at the smaller offset is reported on its own side
      only; once one side is used up, the rest of the other side is reported
      on its own. */
  function MergeFrom(os: seq<Instr>, ps: seq<Instr>, oi: nat, pi: nat, classify: Classifier): (rs: seq<Record>)
    requires oi <= |os| && pi <= |ps|
    ensures |os| - oi <= |rs| && |ps| - pi <= |rs| && |rs| <= (|os| - oi) + (|ps| - pi)
    decreases |os| - oi + |ps| - pi
  {
    if oi == |os| && pi == |ps| then []
    else if oi < |os| && pi < |ps| then
      if os[oi].rel == ps[pi].rel then
        [Aligned(os[oi], ps[pi], classify(os[oi], ps[pi]))] + MergeFrom(os, ps, oi + 1, pi + 1, classify)
      else if os[oi].rel < ps[pi].rel then
        [OnlyOrig(os[oi])] + MergeFrom(os, ps, oi + 1, pi, classify)
      else
        [OnlyPort(ps[pi])] + MergeFrom(os, ps, oi, pi + 1, classify)
    else if oi < |os| then
      [OnlyOrig(os[oi])] + MergeFrom(os, ps, oi + 1, pi, classify)
    else
      [OnlyPort(ps[pi])] + MergeFrom(os, ps, oi, pi + 1, classify)
  }

  function Merge(os: seq<Instr>, ps: seq<Instr>, classify: Classifier): (rs: seq<Record>)
    ensures |os| <= |rs| && |ps| <= |rs| && |rs| <= |os| + |ps|
  {
    MergeFrom(os, ps, 0, 0, classify)
  }

  /** One step of the merge: the first record and the cursors it leaves.
      Each step moves one cursor or both, so the merge ends; an aligned pair
      takes both instructions at one offset, and a one-side record takes
      the instruction at the smaller offset, or the next one of the side
      that is not used up. */
  lemma MergeStep(os: seq<Instr>, ps: seq<Instr>, oi: nat, pi: nat, classify: Classifier)
    returns (oi': nat, pi': nat)
    requires oi <= |os| && pi <= |ps| && (oi < |os| || pi < |ps|)
    ensures oi <= oi' <= |os| && pi <= pi' <= |ps| && oi' + pi' > oi + pi
    ensures var rs := MergeFrom(os, ps, oi, pi, classify);
      rs == [rs[0]] + MergeFrom(os, ps, oi', pi', classify)
    ensures var r := MergeFrom(os, ps, oi, pi, classify)[0];
      (r.Aligned? ==> oi' == oi + 1 && pi' == pi + 1 && os[oi].rel == ps[pi].rel &&
                      r == Aligned(os[oi], ps[pi], classify(os[oi], ps[pi]))) &&
      (r.OnlyOrig? ==> oi' == oi + 1 && pi' == pi && r.orig == os[oi] &&
                       (pi < |ps| ==> os[oi].rel < ps[pi].rel)) &&
      (r.OnlyPort? ==> oi' == oi && pi' == pi + 1 && r.port == ps[pi] &&
                       (oi < |os| ==> ps[pi].rel < os[oi].rel))
  {
    if oi < |os| && pi < |ps| && os[oi].rel == ps[pi].rel {
      oi', pi' := oi + 1, pi + 1;
    } else if oi < |os| && (pi == |ps| || os[oi].rel < ps[pi].rel) {
      oi', pi' := oi + 1, pi;
    } else {
      oi', pi' := oi, pi + 1;
    }
  }

  /** The original-side instructions the records show, in order. */
  function OrigSide(rs: seq<Record>): seq<Instr> {
    if rs == [] then []
    else (if rs[0].OnlyPort? then [] else [rs[0].orig]) + OrigSide(rs[1..])
  }

  /** The port-side instructions the records show, in order. */
  function PortSide(rs: seq<Record>): seq<Instr> {
    if rs == [] then []
    else (if rs[0].OnlyOrig? then [] else [rs[0].port]) + PortSide(rs[1..])
  }

  /** Every instruction of each side is shown exactly once, in its order:
      the original side of the records is the rest of `os`, the port side
      the rest of `ps`. */
  lemma {:induction false} MergeShowsEach(os: seq<Instr>, ps: seq<Instr>, oi: nat, pi: nat, classify: Classifier)
    requires oi <= |os| && pi <= |ps|
    ensures OrigSide(MergeFrom(os, ps, oi, pi, classify)) == os[oi..]
    ensures PortSide(MergeFrom(os, ps, oi, pi, classify)) == ps[pi..]
    decreases |os| - oi + |ps| - pi
  {
    var rs := MergeFrom(os, ps, oi, pi, classify);
    if oi < |os| || pi < |ps| {
      var oi', pi' := MergeStep(os, ps, oi, pi, classify);
      MergeShowsEach(os, ps, oi', pi', classify);
      assert rs[1..] == MergeFrom(os, ps, oi', pi', classify);
      if oi' > oi { assert os[oi..] == [os[oi]] + os[oi'..]; }
      if pi' > pi { assert ps[pi..] == [ps[pi]] + ps[pi'..]; }
    }
  }

  /** Offsets strictly increase along the stream. */
  ghost predicate Increasing(s: seq<Instr>) {
    forall a, b :: 0 <= a < b < |s| ==> s[a].rel < s[b].rel
  }

  /** An aligned pair sits at one offset and carries its classification. */
  lemma {:induction false} MergeAligned(os: seq<Instr>, ps: seq<Instr>, oi: nat, pi: nat, classify: Classifier)
    requires oi <= |os| && pi <= |ps|
    ensures var rs := MergeFrom(os, ps, oi, pi, classify);
      forall k :: 0 <= k < |rs| && rs[k].Aligned? ==>
        rs[k].orig.rel == rs[k].port.rel && rs[k].mark == classify(rs[k].orig, rs[k].port)
    decreases |os| - oi + |ps| - pi
  {
    var rs := MergeFrom(os, ps, oi, pi, classify);
    if oi < |os| || pi < |ps| {
      var oi', pi' := MergeStep(os, ps, oi, pi, classify);
      MergeAligned(os, ps, oi', pi', classify);
      var tail := MergeFrom(os, ps, oi', pi', classify);
      assert forall k :: 1 <= k < |rs| ==> rs[k] == tail[k - 1];
    }
  }

  /** With increasing offsets, an instruction the records show is never
      before the cursor of its side. */
  lemma {:induction false} MergeFromCursors(os: seq<Instr>, ps: seq<Instr>, oi: nat, pi: nat, classify: Classifier)
    requires oi <= |os| && pi <= |ps|
    requires Increasing(os) && Increasing(ps)
    ensures var rs := MergeFrom(os, ps, oi, pi, classify);
      forall k :: 0 <= k < |rs| ==>
        (!rs[k].OnlyPort? ==> oi < |os| && os[oi].rel <= rs[k].orig.rel) &&
        (!rs[k].OnlyOrig? ==> pi < |ps| && ps[pi].rel <= rs[k].port.rel)
    decreases |os| - oi + |ps| - pi
  {
    var rs := MergeFrom(os, ps, oi, pi, classify);
    if oi < |os| || pi < |ps| {
      var oi', pi' := MergeStep(os, ps, oi, pi, classify);
      MergeFromCursors(os, ps, oi', pi', classify);
      var tail := MergeFrom(os, ps, oi', pi', classify);
      assert forall k :: 1 <= k < |rs| ==> rs[k] == tail[k - 1];
    }
  }

  /** With increasing offsets, an instruction reported on one side only has
      no instruction at its offset on the other side (from the cursor on). */
  lemma {:induction false} NoCounterpart(os: seq<Instr>, ps: seq<Instr>, oi: nat, pi: nat, classify: Classifier)
    requires oi <= |os| && pi <= |ps|
    requires Increasing(os) && Increasing(ps)
    ensures var rs := MergeFrom(os, ps, oi, pi, classify);
      forall k :: 0 <= k < |rs| ==>
        (rs[k].OnlyOrig? ==> forall j :: pi <= j < |ps| ==> ps[j].rel != rs[k].orig.rel) &&
        (rs[k].OnlyPort? ==> forall j :: oi <= j < |os| ==> os[j].rel != rs[k].port.rel)
    decreases |os| - oi + |ps| - pi
  {
    var rs := MergeFrom(os, ps, oi, pi, classify);
    if oi < |os| || pi < |ps| {
      var oi', pi' := MergeStep(os, ps, oi, pi, classify);
      NoCounterpart(os, ps, oi', pi', classify);
      MergeFromCursors(os, ps, oi', pi', classify);
      var tail := MergeFrom(os, ps, oi', pi', classify);
      assert forall k :: 1 <= k < |rs| ==> rs[k] == tail[k - 1];
    }
  }

  /** When every record is an aligned pair marked the same, the two sides
      have the same number of instructions, paired index by index at equal
      offsets and marked the same. Both cursors then move together, so one
      cursor `i` stands for both. */
  lemma {:induction false} MergeAllSame(os: seq<Instr>, ps: seq<Instr>, i: nat, classify: Classifier)
    requires i <= |os| && i <= |ps|
    requires var rs := MergeFrom(os, ps, i, i, classify);
      forall k :: 0 <= k < |rs| ==> !Reports(rs[k])
    ensures |os| == |ps|
    ensures forall m :: i <= m < |os| ==> os[m].rel == ps[m].rel && classify(os[m], ps[m]) == Same
    decreases |os| - i
  {
    var rs := MergeFrom(os, ps, i, i, classify);
    if i < |os| || i < |ps| {
      var oi', pi' := MergeStep(os, ps, i, i, classify);
      assert !Reports(rs[0]);
      assert oi' == i + 1 && pi' == i + 1;
      var tail := MergeFrom(os, ps, i + 1, i + 1, classify);
      assert forall k :: 0 <= k < |tail| ==> tail[k] == rs[k + 1];
      MergeAllSame(os, ps, i + 1, classify);
    }
  }

  /** The two-cursor loop of the comparison: at each step take the next
      instruction of each side (or none once a side is used up), and emit an
      aligned pair, an original-only or a port-only record. */
  method AlignInstructions(os: seq<Instr>, ps: seq<Instr>, ob: seq<Byte>, pb: seq<Byte>)
    returns (records: seq<Record>)
    ensures records == Merge(os, ps, MarkIn(ob, pb))
  {
    records := [];
    var oidx, pidx := 0, 0;
    while oidx < |os| || pidx < |ps|
      invariant oidx <= |os| && pidx <= |ps|
      invariant records + MergeFrom(os, ps, oidx, pidx, MarkIn(ob, pb)) == Merge(os, ps, MarkIn(ob, pb))
      decreases |os| - oidx + |ps| - pidx
    {
      var orel: int := if oidx < |os| then os[oidx].rel else -1;
      var prel: int := if pidx < |ps| then ps[pidx].rel else -1;
      ghost var rs := MergeFrom(os, ps, oidx, pidx, MarkIn(ob, pb));
      ghost var oi2, pi2 := MergeStep(os, ps, oidx, pidx, MarkIn(ob, pb));
      var r: Record;
      var oidx', pidx' := oidx, pidx;
      if orel >= 0 && prel >= 0 && orel == prel {
        var mark := Classify(os[oidx], ps[pidx], ob, pb);
        assert mark == MarkIn(ob, pb)(os[oidx], ps[pidx]);
        r := Aligned(os[oidx], ps[pidx], mark);
        oidx', pidx' := oidx + 1, pidx + 1;
      } else if orel >= 0 && prel >= 0 {
        if orel < prel {
          r := OnlyOrig(os[oidx]);
          oidx' := oidx + 1;
        } else {
          r := OnlyPort(ps[pidx]);
          pidx' := pidx + 1;
        }
      } else if orel >= 0 {
        r := OnlyOrig(os[oidx]);
        oidx' := oidx + 1;
      } else {
        r := OnlyPort(ps[pidx]);
        pidx' := pidx + 1;
      }
      assert r == rs[0] && oidx' == oi2 && pidx' == pi2;
      AppendHead(records, r, MergeFrom(os, ps, oidx', pidx', MarkIn(ob, pb)));
      records := records + [r];
      oidx, pidx := oidx', pidx';
    }
  }

  /** The instructions of a disassembled block, placed by their offsets
      from `base`. */
  function Relative(es: seq<Entry>, base: nat): (rs: seq<Instr>)
    requires forall i :: 0 <= i < |es| ==> base <= es[i].offset
    ensures |rs| == |es|
    ensures forall i :: 0 <= i < |rs| ==>
      base + rs[i].rel == es[i].offset && rs[i].text == es[i].text && rs[i].size == es[i].size
  {
    seq(|es|, i requires 0 <= i < |es| && base <= es[i].offset =>
      Instr(es[i].offset - base, es[i].text, es[i].size))
  }

  /** Placing the instructions of a tiling from its start keeps their
      offsets increasing. */
  lemma RelativeIncreasing(data: seq<Byte>, es: seq<Entry>, from: nat, upto: int)
    requires Tiles(data, es, from, upto)
    ensures forall i :: 0 <= i < |es| ==> from <= es[i].offset
    ensures Increasing(Relative(es, from))
  {
    TilesIndexed(data, es, from, upto);
    TilesOrdered(data, es, from, upto);
  }

  /** The records of the comparison of a region of `length` bytes at
      `origOff` in the original image and at `portOff` in the port: both
      sides disassembled with 8-bit registers, placed from the start of the
      region, merged, and pairs marked against the two regions' bytes. */
  function Records(decode: LineDecoder, origData: seq<Byte>, portData: seq<Byte>,
                   origOff: nat, portOff: nat, length: nat): (rs: seq<Record>)
    requires Advances(decode) && InRange(origData, origOff, length) && InRange(portData, portOff, length)
    ensures var oes := Block(decode, origData, origOff, length, Narrow);
      (forall i :: 0 <= i < |oes| ==> origOff <= oes[i].offset) && OrigSide(rs) == Relative(oes, origOff)
    ensures var pes := Block(decode, portData, portOff, length, Narrow);
      (forall i :: 0 <= i < |pes| ==> portOff <= pes[i].offset) && PortSide(rs) == Relative(pes, portOff)
  {
    var oes := Block(decode, origData, origOff, length, Narrow);
    var pes := Block(decode, portData, portOff, length, Narrow);
    BlockTiles(decode, origData, origOff, length, Narrow);
    BlockTiles(decode, portData, portOff, length, Narrow);
    RelativeIncreasing(origData, oes, origOff, origOff + length);
    RelativeIncreasing(portData, pes, portOff, portOff + length);
    var os := Relative(oes, origOff);
    var ps := Relative(pes, portOff);
    var mark := MarkIn(Slice(origData, origOff, origOff + length), Slice(portData, portOff, portOff + length));
    MergeShowsEach(os, ps, 0, 0, mark);
    assert os[0..] == os && ps[0..] == ps;
    Merge(os, ps, mark)
  }

  /** Records unfolded: the merge of the two relative streams. */
  lemma RecordsAreMerge(decode: LineDecoder, origData: seq<Byte>, portData: seq<Byte>,
                        origOff: nat, portOff: nat, length: nat)
    requires Advances(decode) && InRange(origData, origOff, length) && InRange(portData, portOff, length)
    requires forall i :: 0 <= i < |Block(decode, origData, origOff, length, Narrow)| ==>
               origOff <= Block(decode, origData, origOff, length, Narrow)[i].offset
    requires forall i :: 0 <= i < |Block(decode, portData, portOff, length, Narrow)| ==>
               portOff <= Block(decode, portData, portOff, length, Narrow)[i].offset
    ensures Records(decode, origData, portData, origOff, portOff, length) ==
      Merge(Relative(Block(decode, origData, origOff, length, Narrow), origOff),
            Relative(Block(decode, portData, portOff, length, Narrow), portOff),
            MarkIn(Slice(origData, origOff, origOff + length), Slice(portData, portOff, portOff + length)))
  {
  }

  /** Offset `j` lies inside some instruction of `ins`. */
  ghost predicate CoveredBy(ins: seq<Instr>, j: int) {
    exists i :: 0 <= i < |ins| && ins[i].rel <= j < ins[i].rel + ins[i].size
  }

  /** Every offset below `length` lies inside some instruction of `ins`. */
  ghost predicate Covers(ins: seq<Instr>, length: nat) {
    forall j :: 0 <= j < length ==> CoveredBy(ins, j)
  }

  /** Two regions of one length are equal when instructions covering the
      first are paired index by index with instructions at the same offsets
      that are marked the same against the two regions. */
  lemma PairedSameMeansEqual(os: seq<Instr>, ps: seq<Instr>, ob: seq<Byte>, pb: seq<Byte>, length: nat)
    requires |ob| == length && |pb| == length && Covers(os, length)
    requires |os| == |ps|
    requires forall m :: 0 <= m < |os| ==> os[m].rel == ps[m].rel && Classify(os[m], ps[m], ob, pb) == Same
    ensures ob == pb
  {
    forall j | 0 <= j < length
      ensures ob[j] == pb[j]
    {
      assert CoveredBy(os, j);
      var i :| 0 <= i < |os| && os[i].rel <= j < os[i].rel + os[i].size;
      SameByteAt(os[i], ps[i], ob, pb, j);
    }
  }

  /** A byte inside a pair of instructions marked the same is the same on
      both sides. */
  lemma SameByteAt(o: Instr, p: Instr, ob: seq<Byte>, pb: seq<Byte>, j: nat)
    requires Classify(o, p, ob, pb) == Same && o.rel == p.rel
    requires o.rel <= j < o.rel + o.size && j < |ob| && j < |pb|
    ensures ob[j] == pb[j]
  {
    ClassifyMeaning(o, p, ob, pb);
    SliceAt(ob, o.rel, o.rel + o.size, j);
    SliceAt(pb, p.rel, p.rel + p.size, j);
  }

  /** The placed instructions of a region's stream cover the region. */
  lemma BlockCovers(decode: LineDecoder, data: seq<Byte>, start: nat, length: nat, f: Flags)
    requires Advances(decode) && InRange(data, start, length)
    ensures var es := Block(decode, data, start, length, f);
      (forall i :: 0 <= i < |es| ==> start <= es[i].offset) &&
      Covers(Relative(es, start), length)
  {
    var es := Block(decode, data, start, length, f);
    BlockTiles(decode, data, start, length, f);
    TilesIndexed(data, es, start, start + length);
    var ins := Relative(es, start);
    forall j | 0 <= j < length
      ensures CoveredBy(ins, j)
    {
      TilesCover(data, es, start, start + length, start + j);
      var i :| 0 <= i < |es| && es[i].offset <= start + j < End(es[i]);
      assert ins[i].rel <= j < ins[i].rel + ins[i].size;
    }
  }

  /** The comparison never hides a difference: when the two regions'
      bytes differ, some record is not an aligned pair marked the same. */
  lemma DifferenceReported(decode: LineDecoder, origData: seq<Byte>, portData: seq<Byte>,
                           origOff: nat, portOff: nat, length: nat)
    requires Advances(decode) && InRange(origData, origOff, length) && InRange(portData, portOff, length)
    requires Slice(origData, origOff, origOff + length) != Slice(portData, portOff, portOff + length)
    ensures var rs := Records(decode, origData, portData, origOff, portOff, length);
      exists k :: 0 <= k < |rs| && Reports(rs[k])
  {
    var ob := Slice(origData, origOff, origOff + length);
    var pb := Slice(portData, portOff, portOff + length);
    var oes := Block(decode, origData, origOff, length, Narrow);
    var pes := Block(decode, portData, portOff, length, Narrow);
    BlockCovers(decode, origData, origOff, length, Narrow);
    BlockCovers(decode, portData, portOff, length, Narrow);
    var os := Relative(oes, origOff);
    var ps := Relative(pes, portOff);
    RecordsAreMerge(decode, origData, portData, origOff, portOff, length);
    var rs := Merge(os, ps, MarkIn(ob, pb));
    if forall k :: 0 <= k < |rs| ==> !Reports(rs[k]) {
      SilentMergeMeansEqual(os, ps, ob, pb, length);
    }
  }

  /** Records that are all aligned pairs marked the same leave no room for
      a difference: two regions whose merge reports nothing are equal. */
  lemma SilentMergeMeansEqual(os: seq<Instr>, ps: seq<Instr>, ob: seq<Byte>, pb: seq<Byte>, length: nat)
    requires |ob| == length && |pb| == length && Covers(os, length)
    requires var rs := Merge(os, ps, MarkIn(ob, pb));
      forall k :: 0 <= k < |rs| ==> !Reports(rs[k])
    ensures ob == pb
  {
    assert Merge(os, ps, MarkIn(ob, pb)) == MergeFrom(os, ps, 0, 0, MarkIn(ob, pb));
    MergeAllSame(os, ps, 0, MarkIn(ob, pb));
    forall m | 0 <= m < |os|
      ensures os[m].rel == ps[m].rel && Classify(os[m], ps[m], ob, pb) == Same
    {
      assert MarkIn(ob, pb)(os[m], ps[m]) == Same;
    }
    PairedSameMeansEqual(os, ps, ob, pb, length);
  }

  /** The comparison of one routine: equal regions are reported identical
      with no records; otherwise both regions are disassembled with 8-bit
      registers and merged, and the routine is reported as differing. The
      regions need to be walkable only when they differ. */
  method CompareRoutines(origData: seq<Byte>, portData: seq<Byte>, origOff: nat, portOff: nat, length: nat)
    returns (identical: bool, records: seq<Record>)
    requires Slice(origData, origOff, origOff + length) == Slice(portData, portOff, portOff + length) ||
             (InRange(origData, origOff, length) && InRange(portData, portOff, length))
    ensures identical <==> Slice(origData, origOff, origOff + length) == Slice(portData, portOff, portOff + length)
    ensures identical ==> records == []
    ensures !identical ==>
      Advances(DecodeAt) && records == Records(DecodeAt, origData, portData, origOff, portOff, length)
    ensures !identical ==> exists k :: 0 <= k < |records| && Reports(records[k])
  {
    var origBytes := Slice(origData, origOff, origOff + length);
    var portBytes := Slice(portData, portOff, portOff + length);
    if origBytes == portBytes {
      return true, [];
    }
    DecodeAtAdvances();
    var origLines := DisasmBlock(DecodeAt, origData, origOff, length, true, true);
    var portLines := DisasmBlock(DecodeAt, portData, portOff, length, true, true);
    BlockCovers(DecodeAt, origData, origOff, length, Narrow);
    BlockCovers(DecodeAt, portData, portOff, length, Narrow);
    var origInstrs := Relative(origLines, origOff);
    var portInstrs := Relative(portLines, portOff);
    records := AlignInstructions(origInstrs, portInstrs, origBytes, portBytes);
    DifferenceReported(DecodeAt, origData, portData, origOff, portOff, length);
    identical := false;
  }

  /** The original side of the length-change example, line by line with
      8-bit registers: LDA $0400 and RTL. */
  lemma ShiftOrigLines()
    ensures DecodeAt([0xAD, 0x00, 0x04, 0x6B], 0, Narrow) == Line(Asm(LDA, Address16(0x0400, NoSuffix)), 3)
    ensures DecodeAt([0xAD, 0x00, 0x04, 0x6B], 3, Narrow) == Line(Asm(RTL, NoOperand), 1)
  {
    assert Lookup(0x6B) == Descriptor(RTL, 1, Implied);
    assert Lookup(0xAD) == Descriptor(LDA, 3, Absolute);
  }

  /** The port side of the length-change example, line by line: LDA $00,
      RTL and NOP. */
  lemma ShiftPortLines()
    ensures DecodeAt([0xA5, 0x00, 0x6B, 0xEA], 0, Narrow) == Line(Asm(LDA, Byte8(0x00, false)), 2)
    ensures DecodeAt([0xA5, 0x00, 0x6B, 0xEA], 2, Narrow) == Line(Asm(RTL, NoOperand), 1)
    ensures DecodeAt([0xA5, 0x00, 0x6B, 0xEA], 3, Narrow) == Line(Asm(NOP, NoOperand), 1)
  {
    assert Lookup(0x6B) == Descriptor(RTL, 1, Implied);
    assert Lookup(0xA5) == Descriptor(LDA, 2, Direct);
    assert Lookup(0xEA) == Descriptor(NOP, 1, Implied);
  }

  /** The original side of the length-change example, disassembled with
      8-bit registers and made relative to offset 0. */
  lemma ShiftOrigDecoded()
    ensures Advances(DecodeAt) && InRange([0xAD, 0x00, 0x04, 0x6B], 0, 4)
    ensures Relative(Block(DecodeAt, [0xAD, 0x00, 0x04, 0x6B], 0, 4, Narrow), 0) ==
      [Instr(0, Asm(LDA, Address16(0x0400, NoSuffix)), 3), Instr(3, Asm(RTL, NoOperand), 1)]
  {
    DecodeAtAdvances();
    ShiftOrigLines();
    var orig: seq<Byte> := [0xAD, 0x00, 0x04, 0x6B];
    var rtl := Entry(3, Asm(RTL, NoOperand), 1);
    var lda := Entry(0, Asm(LDA, Address16(0x0400, NoSuffix)), 3);
    assert Block(DecodeAt, orig, 3, 1, Narrow) == [rtl] + Block(DecodeAt, orig, 4, 0, Narrow);
    assert Block(DecodeAt, orig, 0, 4, Narrow) == [lda] + Block(DecodeAt, orig, 3, 1, Narrow);
  }

  /** The port side of the length-change example, disassembled with 8-bit
      registers and made relative to offset 0. */
  lemma ShiftPortDecoded()
    ensures Advances(DecodeAt) && InRange([0xA5, 0x00, 0x6B, 0xEA], 0, 4)
    ensures Relative(Block(DecodeAt, [0xA5, 0x00, 0x6B, 0xEA], 0, 4, Narrow), 0) ==
      [Instr(0, Asm(LDA, Byte8(0x00, false)), 2), Instr(2, Asm(RTL, NoOperand), 1),
       Instr(3, Asm(NOP, NoOperand), 1)]
  {
    DecodeAtAdvances();
    ShiftPortLines();
    ShiftPortTail();
    var port: seq<Byte> := [0xA5, 0x00, 0x6B, 0xEA];
    var lda := Entry(0, Asm(LDA, Byte8(0x00, false)), 2);
    assert Block(DecodeAt, port, 0, 4, Narrow) == [lda] + Block(DecodeAt, port, 2, 2, Narrow);
  }

  /** The last two lines of the port side: its RTL, then the NOP after it. */
  lemma ShiftPortTail()
    ensures Advances(DecodeAt) && InRange([0xA5, 0x00, 0x6B, 0xEA], 2, 2)
    ensures Block(DecodeAt, [0xA5, 0x00, 0x6B, 0xEA], 2, 2, Narrow) ==
      [Entry(2, Asm(RTL, NoOperand), 1), Entry(3, Asm(NOP, NoOperand), 1)]
  {
    DecodeAtAdvances();
    ShiftPortLines();
    ShiftPortLast();
    var port: seq<Byte> := [0xA5, 0x00, 0x6B, 0xEA];
    var rtl := Entry(2, Asm(RTL, NoOperand), 1);
    assert Block(DecodeAt, port, 2, 2, Narrow) == [rtl] + Block(DecodeAt, port, 3, 1, Narrow);
  }

  /** The last line of the port side: the NOP. */
  lemma ShiftPortLast()
    ensures Advances(DecodeAt) && InRange([0xA5, 0x00, 0x6B, 0xEA], 3, 1)
    ensures Block(DecodeAt, [0xA5, 0x00, 0x6B, 0xEA], 3, 1, Narrow) == [Entry(3, Asm(NOP, NoOperand), 1)]
  {
    DecodeAtAdvances();
    ShiftPortLines();
    var port: seq<Byte> := [0xA5, 0x00, 0x6B, 0xEA];
    var nop := Entry(3, Asm(NOP, NoOperand), 1);
    assert Block(DecodeAt, port, 3, 1, Narrow) == [nop] + Block(DecodeAt, port, 4, 0, Narrow);
  }

  /** How the length-change example's pairs are classified: the two loads
      differ in size, the original's RTL and the port's NOP in their byte. */
  lemma ShiftMarks()
    ensures MarkIn([0xAD, 0x00, 0x04, 0x6B], [0xA5, 0x00, 0x6B, 0xEA])
              (Instr(0, Asm(LDA, Address16(0x0400, NoSuffix)), 3), Instr(0, Asm(LDA, Byte8(0x00, false)), 2)) == SizeDiff
    ensures MarkIn([0xAD, 0x00, 0x04, 0x6B], [0xA5, 0x00, 0x6B, 0xEA])
              (Instr(3, Asm(RTL, NoOperand), 1), Instr(3, Asm(NOP, NoOperand), 1)) == Differs
  {
    var orig: seq<Byte> := [0xAD, 0x00, 0x04, 0x6B];
    var port: seq<Byte> := [0xA5, 0x00, 0x6B, 0xEA];
    var rtl := Instr(3, Asm(RTL, NoOperand), 1);
    var nop := Instr(3, Asm(NOP, NoOperand), 1);
    assert Slice(orig, 3, 4) == [0x6B] && Slice(port, 3, 4) == [0xEA];
    var ob: seq<Byte> := [0x6B];
    var pb: seq<Byte> := [0xEA];
    assert Slice(ob, 0, 1) == ob && Slice(pb, 0, 1) == pb;
    assert ob[0] != pb[0];
    assert Classify(rtl, nop, orig, port) == Differs;
  }

  /** The merge of the length-change example's two streams. */
  lemma ShiftMerge()
    ensures Merge([Instr(0, Asm(LDA, Address16(0x0400, NoSuffix)), 3), Instr(3, Asm(RTL, NoOperand), 1)],
                  [Instr(0, Asm(LDA, Byte8(0x00, false)), 2), Instr(2, Asm(RTL, NoOperand), 1),
                   Instr(3, Asm(NOP, NoOperand), 1)],
                  MarkIn([0xAD, 0x00, 0x04, 0x6B], [0xA5, 0x00, 0x6B, 0xEA])) ==
      [Aligned(Instr(0, Asm(LDA, Address16(0x0400, NoSuffix)), 3), Instr(0, Asm(LDA, Byte8(0x00, false)), 2), SizeDiff),
       OnlyPort(Instr(2, Asm(RTL, NoOperand), 1)),
       Aligned(Instr(3, Asm(RTL, NoOperand), 1), Instr(3, Asm(NOP, NoOperand), 1), Differs)]
  {
    ShiftMarks();
    var os := [Instr(0, Asm(LDA, Address16(0x0400, NoSuffix)), 3), Instr(3, Asm(RTL, NoOperand), 1)];
    var ps := [Instr(0, Asm(LDA, Byte8(0x00, false)), 2), Instr(2, Asm(RTL, NoOperand), 1),
               Instr(3, Asm(NOP, NoOperand), 1)];
    var mark := MarkIn([0xAD, 0x00, 0x04, 0x6B], [0xA5, 0x00, 0x6B, 0xEA]);
    assert MergeFrom(os, ps, 2, 3, mark) == [];
    assert MergeFrom(os, ps, 1, 2, mark) == [Aligned(os[1], ps[2], Differs)] + MergeFrom(os, ps, 2, 3, mark);
    assert MergeFrom(os, ps, 1, 1, mark) == [OnlyPort(ps[1])] + MergeFrom(os, ps, 1, 2, mark);
    assert MergeFrom(os, ps, 0, 0, mark) == [Aligned(os[0], ps[0], SizeDiff)] + MergeFrom(os, ps, 1, 1, mark);
  }

  /** A single change of instruction length does produce one-sided
      records: LDA $0400 / RTL against LDA $00 / RTL / NOP (the absolute
      load shortened to direct page) gives a size difference, the port's RTL
      on its own, then the original's RTL paired with the port's NOP. */
  lemma ShiftReportsOneSided()
    ensures Advances(DecodeAt)
    ensures InRange([0xAD, 0x00, 0x04, 0x6B], 0, 4) && InRange([0xA5, 0x00, 0x6B, 0xEA], 0, 4)
    ensures Records(DecodeAt, [0xAD, 0x00, 0x04, 0x6B], [0xA5, 0x00, 0x6B, 0xEA], 0, 0, 4) ==
      [Aligned(Instr(0, Asm(LDA, Address16(0x0400, NoSuffix)), 3), Instr(0, Asm(LDA, Byte8(0x00, false)), 2), SizeDiff),
       OnlyPort(Instr(2, Asm(RTL, NoOperand), 1)),
       Aligned(Instr(3, Asm(RTL, NoOperand), 1), Instr(3, Asm(NOP, NoOperand), 1), Differs)]
  {
    ShiftOrigDecoded();
    ShiftPortDecoded();
    ShiftMerge();
    var orig: seq<Byte> := [0xAD, 0x00, 0x04, 0x6B];
    var port: seq<Byte> := [0xA5, 0x00, 0x6B, 0xEA];
    assert Slice(orig, 0, 4) == orig && Slice(port, 0, 4) == port;
  }
}

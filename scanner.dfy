/** Locating a routine in the original image: every occurrence of a byte
    signature, the fallback to shorter prefixes of it when it does not
    occur, and the search for the RTL that ends the routine. */
module Scanner {
  import opened Opcodes

  /** `pattern` occurs in `data` starting at index `i`. */
  predicate MatchesAt(data: seq<Byte>, pattern: seq<Byte>, i: int) {
    0 <= i && i + |pattern| <= |data| && data[i..i + |pattern|] == pattern
  }

  /** `pattern` occurs somewhere in `data`. */
  ghost predicate Occurs(data: seq<Byte>, pattern: seq<Byte>) {
    exists i :: MatchesAt(data, pattern, i)
  }

  predicate StrictlyIncreasing(s: seq<nat>) {
    forall a, b :: 0 <= a < b < |s| ==> s[a] < s[b]
  }

  /** Every index at which `pattern` occurs, scanning the start positions
      0 up to |data| - |pattern| in order. */
  method FindPattern(data: seq<Byte>, pattern: seq<Byte>) returns (results: seq<nat>)
    ensures StrictlyIncreasing(results)
    ensures forall i :: i in results <==> MatchesAt(data, pattern, i)
    ensures results == [] <==> !Occurs(data, pattern)
  {
    results := [];
    var i: nat := 0;
    while i < |data| - |pattern| + 1
      invariant i <= |data| - |pattern| + 1 || i == 0
      invariant StrictlyIncreasing(results)
      invariant forall a :: 0 <= a < |results| ==> results[a] < i
      invariant forall k :: k in results <==> k < i && MatchesAt(data, pattern, k)
    {
      if data[i..i + |pattern|] == pattern {
        results := results + [i];
      }
      i := i + 1;
    }
    if results != [] {
      assert MatchesAt(data, pattern, results[0]);
    }
  }

  /** The signature search with its fallback: the whole signature first;
      when it does not occur, its prefixes of |signature| - 1 bytes down to
      4 bytes, stopping at the first that occurs. `used` is the length of
      the prefix the matches belong to. */
  method Locate(data: seq<Byte>, signature: seq<Byte>) returns (matches: seq<nat>, used: nat)
    ensures used <= |signature|
    ensures StrictlyIncreasing(matches)
    ensures forall i :: i in matches <==> MatchesAt(data, signature[..used], i)
    ensures Occurs(data, signature) ==> used == |signature|
    ensures used < |signature| ==>
      4 <= used && !Occurs(data, signature) &&
      forall n :: used < n < |signature| ==> !Occurs(data, signature[..n])
    ensures matches == [] <==>
      !Occurs(data, signature) && forall n :: 4 <= n < |signature| ==> !Occurs(data, signature[..n])
  {
    assert signature[..|signature|] == signature;
    matches := FindPattern(data, signature);
    used := |signature|;
    if matches == [] {
      var sigLen := |signature| - 1;
      while sigLen > 3
        invariant -1 <= sigLen < |signature|
        invariant used <= |signature| && (used < |signature| ==> used == sigLen + 1 && 4 <= used)
        invariant matches == []
        invariant forall i :: i in matches <==> MatchesAt(data, signature[..used], i)
        invariant forall n :: sigLen < n < |signature| ==> !Occurs(data, signature[..n])
        decreases sigLen
      {
        matches := FindPattern(data, signature[..sigLen]);
        used := sigLen;
        if matches != [] {
          break;
        }
        sigLen := sigLen - 1;
      }
    }
  }

  datatype Option<T> = None | Some(value: T)

  /** The byte at index `k` as a Python subscript reads it: a negative index
      counts back from the end. */
  function PyIndex(s: seq<Byte>, k: int): Byte
    requires -|s| <= k < |s|
  {
    if k < 0 then s[|s| + k] else s[k]
  }

  /** The terminator test of the length scan at image index `k`: `k` lies
      below the end of the image and the byte read there is RTL. */
  predicate RtlAt(orig: seq<Byte>, k: int) {
    -|orig| <= k < |orig| && PyIndex(orig, k) == RtlOpcode
  }

  /** The length of the routine found at `origOff`: scan i from
      portLength - 1 up to portLength + 15 for an RTL at image index
      k = origOff + i; the
      first one found gives i + 1 (the RTL included), and when there is none
      (or the count found is zero) the length is portLength. The length
      compared is the larger of that and portLength. When portLength is 0
      and origOff is 0 the first index tried is -1, which reads the last
      byte of the image. */
  method RoutineLength(orig: seq<Byte>, origOff: nat, portLength: nat)
    returns (origLength: nat, compareLength: nat)
    requires origOff + portLength == 0 ==> |orig| > 0
    ensures portLength <= origLength <= portLength + 16
    ensures forall k :: origOff + portLength - 1 <= k < origOff + origLength - 1 ==> !RtlAt(orig, k)
    ensures origLength > portLength ==> RtlAt(orig, origOff + origLength - 1)
    ensures origLength == portLength ==>
      RtlAt(orig, origOff + portLength - 1) ||
      forall k :: origOff + portLength - 1 <= k < origOff + portLength + 16 ==> !RtlAt(orig, k)
    ensures compareLength == origLength
  {
    var searchLen := portLength + 16;
    var foundRtl: Option<int> := None;
    var i: int := portLength - 1;
    while i < searchLen
      invariant portLength - 1 <= i <= searchLen
      invariant foundRtl == None
      invariant forall k :: origOff + portLength - 1 <= k < origOff + i ==> !RtlAt(orig, k)
      decreases searchLen - i
    {
      if origOff + i < |orig| && PyIndex(orig, origOff + i) == RtlOpcode {
        foundRtl := Some(i + 1);
        break;
      }
      i := i + 1;
    }
    origLength := if foundRtl.Some? && foundRtl.value != 0 then foundRtl.value else portLength;
    compareLength := if origLength > portLength then origLength else portLength;
  }
  /** Where a routine was placed in the original image: the length of the
      signature prefix that matched, the offset of its first match, the
      length up to the RTL and the length compared. */
  datatype Placement = Placement(used: nat, origOff: nat, origLength: nat, compareLength: nat)

  /** One routine of the main loop up to the comparison: locate the
      signature (with the prefix fallback), give up when nothing matches,
      otherwise take the first match and measure the routine from there.
      The one input the loop cannot handle is an empty image searched with
      an empty signature for a routine of length 0: it matches at 0 and the
      length scan then reads index -1 of the empty image. */
  method PlaceRoutine(orig: seq<Byte>, signature: seq<Byte>, portLength: nat)
    returns (placement: Option<Placement>)
    requires |orig| == 0 && portLength == 0 ==> |signature| > 0
    ensures placement == None <==>
      !Occurs(orig, signature) && forall n :: 4 <= n < |signature| ==> !Occurs(orig, signature[..n])
    ensures placement.Some? ==>
      var p := placement.value;
      p.used <= |signature| && (p.used < |signature| ==> 4 <= p.used) &&
      (p.used < |signature| ==> forall n :: p.used < n < |signature| ==> !Occurs(orig, signature[..n])) &&
      (Occurs(orig, signature) ==> p.used == |signature|) &&
      MatchesAt(orig, signature[..p.used], p.origOff) &&
      (forall i :: MatchesAt(orig, signature[..p.used], i) ==> p.origOff <= i)
    ensures placement.Some? ==>
      var p := placement.value;
      portLength <= p.origLength <= portLength + 16 && p.compareLength == p.origLength &&
      (forall k :: p.origOff + portLength - 1 <= k < p.origOff + p.origLength - 1 ==> !RtlAt(orig, k)) &&
      (p.origLength > portLength ==> RtlAt(orig, p.origOff + p.origLength - 1)) &&
      (p.origLength == portLength ==>
         RtlAt(orig, p.origOff + portLength - 1) ||
         forall k :: p.origOff + portLength - 1 <= k < p.origOff + portLength + 16 ==> !RtlAt(orig, k))
  {
    var matches, used := Locate(orig, signature);
    if matches == [] {
      return None;
    }
    var origOff := matches[0];
    assert MatchesAt(orig, signature[..used], origOff);
    forall i | MatchesAt(orig, signature[..used], i)
      ensures origOff <= i
    {
      var a :| 0 <= a < |matches| && matches[a] == i;
      assert a == 0 || matches[0] < matches[a];
    }
    var origLength, compareLength := RoutineLength(orig, origOff, portLength);
    placement := Some(Placement(used, origOff, origLength, compareLength));
  }
}

/**
  Jitter correction of one read.

  Memory is the part of the segment from the overlap buffer to the end of the
  read buffer, as one sequence: the overlap is at 0, the read buffer follows it,
  and a comparison that runs over the end of the overlap continues there.
 */
module Jitter {
  import opened Basics
  import opened Layout

  /** Start of the read buffer. */
  function DataAt(z: Sizes): nat { 2 * z.searchBytes }

  /** Where a read is placed: `start` in the readers, `j` in the search. */
  function ReadAt(z: Sizes): nat { DataAt(z) + z.olapBytes }

  /** End of the read buffer. */
  function MemLen(z: Sizes): nat { DataAt(z) + z.chunkBytes + 2 * z.olapBytes }

  /** The first bytes of the new read occur at the even offset `i`. */
  predicate Hit(m: seq<Byte>, z: Sizes, i: nat)
    requires i + z.strLength <= |m| && ReadAt(z) + z.strLength <= |m|
  {
    i % 2 == 0 && m[i..i + z.strLength] == m[ReadAt(z)..ReadAt(z) + z.strLength]
  }

  /** The search as one would state it: try every offset in turn. */
  function NaiveScan(m: seq<Byte>, z: Sizes, from: nat, limit: nat): (r: Option<nat>)
    requires from <= limit && limit + z.strLength <= |m| && ReadAt(z) + z.strLength <= |m|
    ensures r.Some? ==> from <= r.value < limit && Hit(m, z, r.value)
    ensures forall i :: from <= i < (if r.Some? then r.value else limit) ==> !Hit(m, z, i)
    decreases limit - from
  {
    if from == limit then None
    else if Hit(m, z, from) then Some(from)
    else NaiveScan(m, z, from + 1, limit)
  }

  /** memchr: the first of the `n` bytes from `from` that equals `c`. */
  method MemChr(m: array<Byte>, from: nat, c: Byte, n: nat) returns (r: Option<nat>)
    requires from + n <= m.Length
    ensures r.Some? ==> from <= r.value < from + n && m[r.value] == c
    ensures forall i :: from <= i < (if r.Some? then r.value else from + n) ==> m[i] != c
  {
    var i := from;
    while i < from + n
      invariant from <= i <= from + n
      invariant forall x :: from <= x < i ==> m[x] != c
    {
      if m[i] == c { return Some(i); }
      i := i + 1;
    }
    r := None;
  }

  lemma HitStarts(m: seq<Byte>, z: Sizes, i: nat)
    requires i + z.strLength <= |m| && ReadAt(z) + z.strLength <= |m| && z.strLength >= 1
    ensures Hit(m, z, i) ==> m[i] == m[ReadAt(z)]
  {
    var n := z.strLength;
    assert m[i..i + n][0] == m[i] && m[ReadAt(z)..ReadAt(z) + n][0] == m[ReadAt(z)];
  }

  /** Offsets without the right first byte, and odd ones, are no hits. */
  lemma {:induction false} SkipTo(m: seq<Byte>, z: Sizes, from: nat, next: nat, limit: nat)
    requires from <= next <= limit && limit + z.strLength <= |m| && ReadAt(z) + z.strLength <= |m|
    requires z.strLength >= 1
    requires forall i :: from <= i < next ==> m[i] != m[ReadAt(z)] || !Hit(m, z, i)
    ensures NaiveScan(m, z, from, limit) == NaiveScan(m, z, next, limit)
    decreases next - from
  {
    if from < next {
      HitStarts(m, z, from);
      SkipTo(m, z, from + 1, next, limit);
    }
  }

  /** memcmp, at even offsets only. */
  method Matches(m: array<Byte>, z: Sizes, i: nat, j: nat) returns (same: bool)
    requires i + z.strLength <= m.Length && j + z.strLength <= m.Length && j == ReadAt(z)
    ensures same <==> Hit(m[..], z, i)
  {
    same := i % 2 == 0 && m[i..i + z.strLength] == m[j..j + z.strLength];
    assert m[..][i..i + z.strLength] == m[i..i + z.strLength] && m[..][j..j + z.strLength] == m[j..j + z.strLength];
  }

  /** One pass of the loop, up to the next offset with the right first byte. */
  method Probe(m: array<Byte>, z: Sizes, i: nat, l: nat) returns (r: Option<nat>, next: nat)
    requires Consistent(z, true) && m.Length == MemLen(z) && i < l == 2 * z.searchBytes - 1
    ensures i < next <= l
    ensures NaiveScan(m[..], z, i, l) == if r.Some? then r else NaiveScan(m[..], z, next, l)
  {
    var found := MemChr(m, i, m[ReadAt(z)], l - i);
    if found == None {
      SkipTo(m[..], z, i, l, l);
      return None, l;
    }
    SkipTo(m[..], z, i, found.value, l);
    var same := Matches(m, z, found.value, ReadAt(z));
    r, next := if same then found else None, found.value + 1;
  }

  /** The memchr/memcmp loop finds what the naive scan finds. */
  method Search(m: array<Byte>, z: Sizes) returns (r: Option<nat>)
    requires Consistent(z, true) && m.Length == MemLen(z)
    ensures r == NaiveScan(m[..], z, 0, 2 * z.searchBytes - 1)
  {
    var l := 2 * z.searchBytes - 1;
    var i := 0;
    r := None;
    while i < l && r == None
      invariant 0 <= i <= l
      invariant NaiveScan(m[..], z, 0, l) == if r.Some? then r else NaiveScan(m[..], z, i, l)
      decreases l - i
    {
      r, i := Probe(m, z, i, l);
    }
  }

  /** Where the chunk starts after correction, and the memory then. */
  datatype Aligned = Aligned(p: nat, mem: seq<Byte>)

  /** By how many bytes the read starts after the place it should continue; 0 if
      no match was found. */
  function Displacement(m: seq<Byte>, z: Sizes): (idx: int)
    requires Consistent(z, true) && |m| == MemLen(z)
    ensures 0 <= idx + z.searchBytes <= 2 * z.searchBytes - 2
  {
    match NaiveScan(m, z, 0, 2 * z.searchBytes - 1)
    case None => 0
    case Some(i) => i - z.searchBytes
  }

  function Correct(m: seq<Byte>, z: Sizes, jitter: bool): (r: Aligned)
    requires Consistent(z, jitter) && |m| == MemLen(z)
    ensures |r.mem| == |m|
    ensures r.p + z.chunkBytes + z.searchBytes <= |m|
    ensures DataAt(z) <= r.p && (jitter ==> DataAt(z) <= r.p - z.searchBytes)
  {
    if !jitter then Aligned(DataAt(z), m)
    else
      var idx := Displacement(m, z);
      var p := ReadAt(z) - idx;
      if idx > 0
      then Aligned(p, m[..p] + m[z.searchBytes..z.searchBytes + idx] + m[p + idx..])
      else Aligned(p, m)
  }

  /** memcpy between two places of the segment that do not overlap. */
  method MemCpy(m: array<Byte>, to: nat, from: nat, n: nat)
    requires to + n <= m.Length && from + n <= m.Length
    requires to + n <= from || from + n <= to
    modifies m
    ensures m[..] == old(m[..to] + m[from..from + n] + m[to + n..])
  {
    var i := 0;
    while i < n
      invariant 0 <= i <= n
      invariant m[..to] == old(m[..to]) && m[to + i..] == old(m[to + i..])
      invariant m[to..to + i] == old(m[from..from + i])
    {
      assert m[from + i] == old(m[from + i]) by {
        if from < to {
          assert m[..to][from + i] == m[from + i];
        } else {
          assert m[to + i..][from - to] == m[from + i];
        }
      }
      m[to + i] := m[from + i];
      i := i + 1;
    }
    assert m[..] == m[..to] + m[to..to + n] + m[to + n..];
  }

  /** cdda_rd_corrjitter */
  method CorrJitter(m: array<Byte>, z: Sizes, jitter: bool) returns (p: nat)
    requires Consistent(z, jitter) && m.Length == MemLen(z)
    modifies m
    ensures var r := Correct(old(m[..]), z, jitter); p == r.p && m[..] == r.mem
  {
    if !jitter { return DataAt(z); }
    var found := Search(m, z);
    var idx: int := 0;
    if found.Some? { idx := found.value - z.searchBytes; }
    p := ReadAt(z) - idx;
    if idx > 0 {
      MemCpy(m, p, z.searchBytes, idx);
    }
  }

  // ---- the copies stay in their regions ----

  /** For a displacement: the splice reads from the overlap and writes to the read
      buffer, and the chunk and the surroundings of its end are read from it. */
  predicate CopiesFit(z: Sizes, idx: int) {
    var p := ReadAt(z) - idx;
    && (idx > 0 ==> z.searchBytes + idx <= DataAt(z) <= p && p + idx <= MemLen(z))
    && DataAt(z) <= p && p + z.chunkBytes <= MemLen(z)
    && DataAt(z) <= p + z.chunkBytes - z.searchBytes && p + z.chunkBytes + z.searchBytes <= MemLen(z)
  }

  ghost predicate AllCopiesFit(z: Sizes) {
    forall idx: int :: 0 - (z.searchBytes as int) <= idx <= z.searchBytes - 2 ==> CopiesFit(z, idx)
  }

  /** The margins of the read buffer are as small as they can be: every copy stays
      inside exactly when a margin is at least twice the search distance. */
  lemma {:induction false} AllCopiesFitIff(z: Sizes)
    requires z.searchBytes >= 2
    ensures AllCopiesFit(z) <==> z.olapBytes >= 2 * z.searchBytes
  {
    if z.olapBytes < 2 * z.searchBytes {
      assert !CopiesFit(z, 0 - (z.searchBytes as int));
    }
  }

  // ---- what a correction achieves ----

  /** The disc as an endless sequence of bytes. */
  type Disc = int -> Byte

  function DiscBytes(disc: Disc, from: int, n: nat): seq<Byte> {
    seq(n, i => disc(from + i))
  }

  /** The disc up to byte `end`, with silence behind. */
  function Silenced(disc: Disc, end: int): Disc {
    x => if x < end then disc(x) else 0
  }

  /** `m[at..]` holds the `n` disc bytes from `from`. */
  ghost predicate Holds(m: seq<Byte>, at: nat, n: nat, disc: Disc, from: int)
    requires at + n <= |m|
  {
    forall x :: at <= x < at + n ==> m[x] == disc(from + x - at)
  }

  /** Displacements by whole samples that the search can see. */
  predicate InWindow(z: Sizes, d: int) {
    d % 2 == 0 && 0 <= d + z.searchBytes <= 2 * z.searchBytes - z.strLength
  }

  /** No earlier even offset of the window shows the same first bytes. */
  ghost predicate NoEarlierMatch(z: Sizes, disc: Disc, due: int, got: int) {
    forall x :: due - z.searchBytes <= x < got && (x - due) % 2 == 0 ==>
      DiscBytes(disc, x, z.strLength) != DiscBytes(disc, got, z.strLength)
  }

  /** The overlap holds the surroundings of byte `due`, where the next chunk has
      to start, and the read holds the bytes from `got`. */
  ghost predicate ReadIn(m: seq<Byte>, z: Sizes, disc: Disc, due: int, got: int)
    requires |m| == MemLen(z) && z.olapBytes == 2 * z.searchBytes
  {
    && Holds(m, 0, 2 * z.searchBytes, disc, due - z.searchBytes)
    && Holds(m, ReadAt(z), z.chunkBytes + z.olapBytes, disc, got)
  }

  /** All that the search looks at: the overlap, and the first bytes of the read. */
  ghost predicate StartsIn(m: seq<Byte>, z: Sizes, disc: Disc, due: int, got: int)
    requires Consistent(z, true) && |m| == MemLen(z)
  {
    Holds(m, 0, 2 * z.searchBytes, disc, due - z.searchBytes) && Holds(m, ReadAt(z), z.strLength, disc, got)
  }

  lemma {:induction false} HitMeansSameBytes(m: seq<Byte>, z: Sizes, disc: Disc, due: int, got: int, i: nat)
    requires Consistent(z, true) && |m| == MemLen(z) && StartsIn(m, z, disc, due, got)
    requires i + z.strLength <= 2 * z.searchBytes && i % 2 == 0
    ensures Hit(m, z, i) <==>
            DiscBytes(disc, due - z.searchBytes + i, z.strLength) == DiscBytes(disc, got, z.strLength)
  {
    var n := z.strLength;
    assert m[i..i + n] == DiscBytes(disc, due - z.searchBytes + i, n);
    assert m[ReadAt(z)..ReadAt(z) + n] == DiscBytes(disc, got, n);
  }

  lemma {:induction false} EarlierMatchIsHit(m: seq<Byte>, z: Sizes, disc: Disc, due: int, got: int, i: nat)
    requires Consistent(z, true) && |m| == MemLen(z) && StartsIn(m, z, disc, due, got)
    requires InWindow(z, got - due) && NoEarlierMatch(z, disc, due, got) && i < got - due + z.searchBytes
    ensures !Hit(m, z, i)
  {
    if i % 2 == 0 {
      HitMeansSameBytes(m, z, disc, due, got, i);
    }
  }

  lemma {:induction false} FindsAlignment(m: seq<Byte>, z: Sizes, disc: Disc, due: int, got: int)
    requires Consistent(z, true) && |m| == MemLen(z) && StartsIn(m, z, disc, due, got)
    requires InWindow(z, got - due) && NoEarlierMatch(z, disc, due, got)
    ensures NaiveScan(m, z, 0, 2 * z.searchBytes - 1) == Some(got - due + z.searchBytes)
  {
    var t := got - due + z.searchBytes;
    HitMeansSameBytes(m, z, disc, due, got, t);
    forall i | 0 <= i < t ensures !Hit(m, z, i) {
      EarlierMatchIsHit(m, z, disc, due, got, i);
    }
  }

  lemma {:induction false} MissesAlignment(m: seq<Byte>, z: Sizes, disc: Disc, due: int, got: int, x: int)
    requires Consistent(z, true) && |m| == MemLen(z) && StartsIn(m, z, disc, due, got)
    requires InWindow(z, got - due) && due - z.searchBytes <= x < got && (x - due) % 2 == 0
    requires DiscBytes(disc, x, z.strLength) == DiscBytes(disc, got, z.strLength)
    ensures NaiveScan(m, z, 0, 2 * z.searchBytes - 1) != Some(got - due + z.searchBytes)
  {
    var i := x - due + z.searchBytes;
    assert due - z.searchBytes + i == x;
    HitMeansSameBytes(m, z, disc, due, got, i);
  }

  /** The search finds the true alignment exactly when the first bytes of the
      read do not occur earlier in the window. */
  lemma {:induction false} FindsAlignmentIff(m: seq<Byte>, z: Sizes, disc: Disc, due: int, got: int)
    requires Consistent(z, true) && |m| == MemLen(z) && StartsIn(m, z, disc, due, got)
    requires InWindow(z, got - due)
    ensures NaiveScan(m, z, 0, 2 * z.searchBytes - 1) == Some(got - due + z.searchBytes)
            <==> NoEarlierMatch(z, disc, due, got)
  {
    if NoEarlierMatch(z, disc, due, got) {
      FindsAlignment(m, z, disc, due, got);
    } else {
      var x :| due - z.searchBytes <= x < got && (x - due) % 2 == 0
               && DiscBytes(disc, x, z.strLength) == DiscBytes(disc, got, z.strLength);
      MissesAlignment(m, z, disc, due, got, x);
    }
  }

  /** If the first bytes of the read occur nowhere in the window, nothing is corrected:
      the chunk is taken from the start of the read. */
  lemma NoMatchStays(m: seq<Byte>, z: Sizes)
    requires Consistent(z, true) && |m| == MemLen(z)
    requires forall i :: 0 <= i < 2 * z.searchBytes - 1 ==> !Hit(m, z, i)
    ensures Correct(m, z, true) == Aligned(ReadAt(z), m)
  {
  }

  /** Otherwise the first match decides: the chunk starts as many bytes before the read
      as the match lies behind the middle of the window, with the bytes of the overlap
      that follow the middle in front of a late read. */
  lemma {:induction false} FirstMatchDecides(m: seq<Byte>, z: Sizes, i: nat)
    requires Consistent(z, true) && |m| == MemLen(z) && i < 2 * z.searchBytes - 1
    requires Hit(m, z, i) && forall j :: 0 <= j < i ==> !Hit(m, z, j)
    ensures var r := Correct(m, z, true);
            && r.p == ReadAt(z) + z.searchBytes - i
            && forall x :: 0 <= x < |m| ==>
                 r.mem[x] == if r.p <= x < ReadAt(z) then m[x + z.searchBytes - r.p] else m[x]
  {
    assert NaiveScan(m, z, 0, 2 * z.searchBytes - 1) == Some(i);
    forall x | 0 <= x < |m|
      ensures var r := Correct(m, z, true);
              r.mem[x] == if r.p <= x < ReadAt(z) then m[x + z.searchBytes - r.p] else m[x]
    {
      CorrectedBytes(m, z, x);
    }
  }

  /** The memory is the region of the segment from the overlap to the end of the read
      buffer. */
  lemma MemoryIsRegion(s: SharedSegment)
    requires Tile(s.Regions(), s.sizes.size)
    ensures s.b - s.olap == MemLen(s.sizes) && s.data - s.olap == DataAt(s.sizes)
  {
    var rs := s.Regions();
    assert rs[4].at == rs[3].at + rs[3].len && rs[5].at == rs[4].at + rs[4].len;
  }

  /** What the correction writes: `idx` bytes of the overlap in front of a late read. */
  lemma {:induction false} CorrectedBytes(m: seq<Byte>, z: Sizes, x: nat)
    requires Consistent(z, true) && |m| == MemLen(z) && x < |m|
    ensures var idx := Displacement(m, z);
            var r := Correct(m, z, true);
            r.mem[x] == if r.p <= x < r.p + idx then m[z.searchBytes + (x - r.p)] else m[x]
  {
  }

  /** One byte of it, taken from the overlap or from the read. */
  lemma SplicedByte(m: seq<Byte>, z: Sizes, before: Disc, read: Disc, due: int, got: int, p: int, x: int)
    requires |m| == MemLen(z) && z.olapBytes == 2 * z.searchBytes && p == ReadAt(z) - (got - due)
    requires 0 - (z.searchBytes as int) <= got - due <= z.searchBytes
    requires Holds(m, 0, 2 * z.searchBytes, before, due - z.searchBytes)
    requires Holds(m, ReadAt(z), z.chunkBytes + z.olapBytes, read, got)
    requires p <= x < p + z.chunkBytes + z.searchBytes
    ensures if x < ReadAt(z) then m[z.searchBytes + (x - p)] == before(due + x - p) else m[x] == read(due + x - p)
  {
  }

  /** Once the displacement is found, the corrected chunk and what follows it are the
      disc from the byte due. */
  lemma {:induction false} SplicedIs(m: seq<Byte>, z: Sizes, disc: Disc, due: int, got: int)
    requires Consistent(z, true) && |m| == MemLen(z) && ReadIn(m, z, disc, due, got)
    requires Displacement(m, z) == got - due
    ensures var r := Correct(m, z, true);
            r.p == ReadAt(z) - (got - due) && Holds(r.mem, r.p, z.chunkBytes + z.searchBytes, disc, due)
  {
    var r := Correct(m, z, true);
    forall x | r.p <= x < r.p + z.chunkBytes + z.searchBytes
      ensures r.mem[x] == disc(due + x - r.p)
    {
      CorrectedBytes(m, z, x);
      SplicedByte(m, z, disc, disc, due, got, r.p, x);
    }
  }

  /** With the true alignment found, the corrected chunk is the disc bytes from
      `due` on, whether the read started late (filled from the overlap) or early
      (skipped), and the disc goes on behind it as far as the next overlap reaches. */
  lemma {:induction false} SpliceIsSeamless(m: seq<Byte>, z: Sizes, disc: Disc, due: int, got: int)
    requires Consistent(z, true) && |m| == MemLen(z) && ReadIn(m, z, disc, due, got)
    requires InWindow(z, got - due) && NoEarlierMatch(z, disc, due, got)
    ensures Displacement(m, z) == got - due
    ensures var r := Correct(m, z, true);
            r.p == ReadAt(z) - (got - due) && Holds(r.mem, r.p, z.chunkBytes + z.searchBytes, disc, due)
  {
    FindsAlignment(m, z, disc, due, got);
    SplicedIs(m, z, disc, due, got);
  }

  lemma {:induction false} SplicedLast(m: seq<Byte>, z: Sizes, disc: Disc, due: int, got: int, end: int)
    requires Consistent(z, true) && |m| == MemLen(z) && got <= end && Displacement(m, z) == got - due
    requires Holds(m, 0, 2 * z.searchBytes, disc, due - z.searchBytes)
    requires Holds(m, ReadAt(z), z.chunkBytes + z.olapBytes, Silenced(disc, end), got)
    ensures var r := Correct(m, z, true);
            r.p == ReadAt(z) - (got - due) && Holds(r.mem, r.p, z.chunkBytes, Silenced(disc, end), due)
  {
    var r := Correct(m, z, true);
    forall x | r.p <= x < r.p + z.chunkBytes
      ensures r.mem[x] == Silenced(disc, end)(due + x - r.p)
    {
      CorrectedBytes(m, z, x);
      SplicedByte(m, z, disc, Silenced(disc, end), due, got, r.p, x);
    }
  }

  /** The same for a read that ends at byte `end` in zeroed memory. */
  lemma {:induction false} LastSplice(m: seq<Byte>, z: Sizes, disc: Disc, due: int, got: int, end: int)
    requires Consistent(z, true) && |m| == MemLen(z) && got + z.strLength <= end
    requires Holds(m, 0, 2 * z.searchBytes, disc, due - z.searchBytes)
    requires Holds(m, ReadAt(z), z.chunkBytes + z.olapBytes, Silenced(disc, end), got)
    requires InWindow(z, got - due) && NoEarlierMatch(z, disc, due, got)
    ensures var r := Correct(m, z, true);
            r.p == ReadAt(z) - (got - due) && Holds(r.mem, r.p, z.chunkBytes, Silenced(disc, end), due)
  {
    assert StartsIn(m, z, disc, due, got);
    FindsAlignment(m, z, disc, due, got);
    SplicedLast(m, z, disc, due, got, end);
  }
}

/** Whole runs with jitter correction: the chunks in the ring join without a seam. */
module Seamless {
  import opened Basics
  import opened Jitter
  import opened ReaderSpec
  import opened Drift

  /** Within read k the drive delivers the disc from `jit(k)` bytes after the
      requested address on, if need be after retries. */
  ghost predicate Displaced(dev: Device, disc: Disc, jit: Jit) {
    forall k, lba, n {:trigger Answer(dev, k, lba, n, 0)} ::
      Answer(dev, k, lba, n, 0) == Some(Delivered(disc, jit, k, lba, n))
  }

  lemma {:induction false} JoinDiscBytes(disc: Disc, from: int, a: nat, b: nat)
    ensures DiscBytes(disc, from, a) + DiscBytes(disc, from + a, b) == DiscBytes(disc, from, a + b)
  {
  }

  function Delivered(disc: Disc, jit: Jit, k: nat, lba: int, n: int): seq<Byte> {
    DiscBytes(disc, Bytes(lba) + jit(k), if n < 0 then 0 else Bytes(n))
  }

  lemma {:induction false} TransferDelivers(dev: Device, cont: bool, k: nat, lba: int, at: nat, n: int,
                                            m: seq<Byte>, errors: Errors, disc: Disc, jit: Jit)
    requires GoodDevice(dev) && Answer(dev, k, lba, n, 0) == Some(Delivered(disc, jit, k, lba, n))
    requires at <= |m| && (n >= 0 ==> at + Bytes(n) <= |m|)
    ensures var t := Transfer(dev, cont, k, lba, at, n, m, errors);
            t.ok && t.mem == Put(m, at, Delivered(disc, jit, k, lba, n))
  {
  }

  lemma {:induction false} PutDelivered(m: seq<Byte>, at: nat, disc: Disc, jit: Jit, k: nat, lba: int,
                                        n: nat, rest: nat)
    requires at + Bytes(n) + Bytes(rest) <= |m|
    ensures Put(Put(m, at, Delivered(disc, jit, k, lba, n)), at + Bytes(n), Delivered(disc, jit, k, lba + n, rest))
            == Put(m, at, Delivered(disc, jit, k, lba, n + rest))
  {
    JoinDiscBytes(disc, Bytes(lba) + jit(k), Bytes(n), Bytes(rest));
  }

  /** Transfers of at most 13 frames each, laid end to end, are one read. */
  lemma {:induction false} TransfersDeliver(dev: Device, cont: bool, k: nat, lba: int, at: nat, remain: int,
                                            m: seq<Byte>, errors: Errors, disc: Disc, jit: Jit)
    requires GoodDevice(dev) && Displaced(dev, disc, jit)
    requires at <= |m| && (remain >= 0 ==> at + Bytes(remain) <= |m|)
    ensures var t := Transfers(dev, cont, k, lba, at, remain, m, errors);
            t.ok && t.mem == Put(m, at, Delivered(disc, jit, k, lba, remain))
    decreases if remain > 0 then remain else 0
  {
    var n := Frames(remain);
    var t := Transfer(dev, cont, k, lba, at, n, m, errors);
    TransferDelivers(dev, cont, k, lba, at, n, m, errors, disc, jit);
    OneTransfer(dev, cont, k, lba, at, remain, m, errors, t);
    var all := Transfers(dev, cont, k, lba, at, remain, m, errors);
    if remain - n > 0 {
      var u := Transfers(dev, cont, k, lba + n, at + Bytes(n), remain - n, t.mem, t.errors);
      assert all == u;
      TransfersDeliver(dev, cont, k, lba + n, at + Bytes(n), remain - n, t.mem, t.errors, disc, jit);
      PutDelivered(m, at, disc, jit, k, lba, n, remain - n);
      assert u.mem == Put(m, at, Delivered(disc, jit, k, lba, n + (remain - n)));
    } else {
      assert n == remain && all == t;
    }
  }

  // ---- one read of the run ----

  /** What the search relies on at read k. */
  ghost predicate Alignable(run: Run, disc: Disc, jit: Jit, k: nat) {
    NoEarlierMatch(run.z, disc, Due(run, jit, k), Due(run, jit, k) + Idx(run, jit, k))
  }

  /** What the theorem supposes about everything but the length of the chunks:
      jitter correction on, a drive with bounded jitter by whole samples, and no
      earlier look-alike in the window of any read before the last. */
  ghost predicate Conditions(run: Run, disc: Disc, jit: Jit, bound: nat) {
    && ValidRun(run) && run.jitter
    && Displaced(run.dev, disc, jit) && Bounded(jit, bound) && WholeSamples(jit)
    && 2 * bound + 1176 <= run.z.chunkBytes && 2 * bound + 1176 <= run.z.searchBytes - run.z.strLength
    && (forall k {:trigger Alignable(run, disc, jit, k)} ::
          k >= 1 && !LastRead(run, LbaAt(run, jit, k)) ==> Alignable(run, disc, jit, k))
  }

  /** The setting of the theorem: chunks are not shorter than half the overlap. */
  ghost predicate Setting(run: Run, disc: Disc, jit: Jit, bound: nat) {
    Conditions(run, disc, jit, bound) && run.z.chunkBlocks >= 2
  }

  /** The disc as a run delivers it in the end: up to the end of the segment, as far
      as the drive strays in read k, then silence. */
  function Ending(run: Run, disc: Disc, jit: Jit, k: nat): Disc {
    Silenced(disc, Bytes(run.endLba) + jit(k))
  }

  /** The last read, number k, has something to read and can be aligned. */
  ghost predicate LastFits(run: Run, disc: Disc, jit: Jit, k: nat) {
    LbaAt(run, jit, k) < run.endLba && (k == 0 || Alignable(run, disc, jit, k))
  }

  function LastChunk(run: Run, disc: Disc, jit: Jit, k: nat): Chunk {
    DiscBytes(Ending(run, disc, jit, k), Due(run, jit, k), run.z.chunkBytes)
  }

  /** The overlap holds the surroundings of the next byte due. */
  ghost predicate Surrounds(run: Run, disc: Disc, m: seq<Byte>, due: int) {
    2 * run.z.searchBytes <= |m| && Holds(m, 0, 2 * run.z.searchBytes, disc, due - run.z.searchBytes)
  }

  /** The reader before read k: it is where the arithmetic says, the overlap
      surrounds the next byte due, and all chunks placed but a last one that
      reached the end are the disc in order; that one is the disc up to the end. */
  ghost predicate Good(run: Run, disc: Disc, jit: Jit, cont: bool, s: ReadState)
    requires ValidRun(run) && ValidState(run, s)
  {
    && (!s.done && (cont || s.k < run.z.bufferChunks) ==> s.lba == LbaAt(run, jit, s.k))
    && (!s.done && s.k >= 1 ==> Surrounds(run, disc, s.mem, Due(run, jit, s.k)))
    && (forall i :: 0 <= i < (if s.done then s.k - 1 else s.k) ==>
          s.placed[i] == DiscBytes(disc, Due(run, jit, i), run.z.chunkBytes))
    && (s.done && s.k >= 1 && LastFits(run, disc, jit, s.k - 1) ==>
          s.placed[s.k - 1] == LastChunk(run, disc, jit, s.k - 1))
  }

  lemma {:induction false} ReadDelivers(run: Run, disc: Disc, jit: Jit, cont: bool, s: ReadState)
    requires ValidRun(run) && Displaced(run.dev, disc, jit) && ValidState(run, s) && !LastRead(run, s.lba)
    ensures var t := ReadFrames(run, cont, s);
            && t.ok && |t.mem| == MemLen(run.z)
            && Holds(t.mem, ReadAt(run.z), run.z.chunkBytes + run.z.olapBytes, disc, Bytes(s.lba) + jit(s.k))
            && t.mem[..DataAt(run.z)] == s.mem[..DataAt(run.z)]
  {
    var n := run.z.chunkBlocks + run.z.olapBlocks;
    FullReadIs(run, cont, s, n);
    TransfersDeliver(run.dev, cont, s.k, s.lba, ReadAt(run.z), n, s.mem, s.errors, disc, jit);
    PutHolds(s.mem, ReadAt(run.z), DataAt(run.z), disc, Bytes(s.lba) + jit(s.k), run.z.chunkBytes + run.z.olapBytes);
  }

  lemma FullReadIs(run: Run, cont: bool, s: ReadState, n: nat)
    requires ValidRun(run) && ValidState(run, s) && !LastRead(run, s.lba)
    requires n == run.z.chunkBlocks + run.z.olapBlocks
    ensures Bytes(n) == run.z.chunkBytes + run.z.olapBytes && ReadAt(run.z) + Bytes(n) <= |s.mem|
    ensures ReadFrames(run, cont, s) == Transfers(run.dev, cont, s.k, s.lba, ReadAt(run.z), n, s.mem, s.errors)
  {
    ReadFits(run, s.lba);
  }

  lemma PutHolds(m: seq<Byte>, at: nat, below: nat, disc: Disc, from: int, n: nat)
    requires below <= at && at + n <= |m|
    ensures var t := Put(m, at, DiscBytes(disc, from, n));
            Holds(t, at, n, disc, from) && t[..below] == m[..below]
  {
  }

  /** Where the chunk of read k lies after alignment, and what it is. */
  lemma {:induction false} AlignedRead(run: Run, disc: Disc, jit: Jit, bound: nat, cont: bool, s: ReadState)
    requires Conditions(run, disc, jit, bound) && ValidState(run, s) && Good(run, disc, jit, cont, s)
    requires !s.done && !LastRead(run, s.lba) && (cont || s.k < run.z.bufferChunks)
    ensures var t := ReadFrames(run, cont, s);
            var a := Align(run, s.k, t.mem);
            && t.ok && a.p == ReadAt(run.z) - Idx(run, jit, s.k)
            && Holds(a.mem, a.p, run.z.chunkBytes + run.z.searchBytes, disc, Due(run, jit, s.k))
  {
    ReadDelivers(run, disc, jit, cont, s);
    InsideWindow(run, disc, jit, bound, s.k);
    if s.k > 0 {
      assert Alignable(run, disc, jit, s.k);
    }
    FullOf(run, disc, jit, s.k, s.mem, ReadFrames(run, cont, s).mem);
  }

  /** The same in terms of the memory before and after the read. */
  lemma {:induction false} FullOf(run: Run, disc: Disc, jit: Jit, k: nat, before: seq<Byte>, m: seq<Byte>)
    requires ValidRun(run) && run.jitter && |before| == |m| == MemLen(run.z)
    requires (k > 0 ==> Alignable(run, disc, jit, k)) && InWindow(run.z, Idx(run, jit, k))
    requires before[..DataAt(run.z)] == m[..DataAt(run.z)]
    requires k > 0 ==> Surrounds(run, disc, before, Due(run, jit, k))
    requires Holds(m, ReadAt(run.z), run.z.chunkBytes + run.z.olapBytes, disc, Due(run, jit, k) + Idx(run, jit, k))
    ensures var a := Align(run, k, m);
            && a.p == ReadAt(run.z) - Idx(run, jit, k)
            && Holds(a.mem, a.p, run.z.chunkBytes + run.z.searchBytes, disc, Due(run, jit, k))
  {
    var due, idx := Due(run, jit, k), Idx(run, jit, k);
    if k > 0 {
      OverlapStays(run, before, m, disc, due);
      SpliceIsSeamless(m, run.z, disc, due, due + idx);
      assert Align(run, k, m) == Correct(m, run.z, true);
    }
  }

  /** A read whose first bytes occur nowhere in the window is placed as the drive
      delivered it, and lba moves on by exactly a chunk. */
  lemma {:induction false} UnmatchedRead(run: Run, disc: Disc, jit: Jit, cont: bool, s: ReadState)
    returns (t: ReadState)
    requires ValidRun(run) && run.jitter && Displaced(run.dev, disc, jit) && ValidState(run, s)
    requires s.k > 0 && !LastRead(run, s.lba)
    requires var m := ReadFrames(run, cont, s).mem;
             forall i :: 0 <= i < 2 * run.z.searchBytes - 1 ==> !Hit(m, run.z, i)
    ensures ReadChunk(run, cont, s) == Some(t) && t.lba == s.lba + run.z.chunkBlocks
    ensures t.placed == s.placed + [DiscBytes(disc, Bytes(s.lba) + jit(s.k), run.z.chunkBytes)]
  {
    var read := ReadFrames(run, cont, s);
    ReadDelivers(run, disc, jit, cont, s);
    NoMatchStays(read.mem, run.z);
    t := PlacedAsRead(run, disc, Bytes(s.lba) + jit(s.k), s.(errors := read.errors), read.mem);
  }

  lemma {:induction false} PlacedAsRead(run: Run, disc: Disc, from: int, s: ReadState, m: seq<Byte>)
    returns (t: ReadState)
    requires ValidRun(run) && run.jitter && ValidState(run, s) && |m| == MemLen(run.z)
    requires Holds(m, ReadAt(run.z), run.z.chunkBytes + run.z.olapBytes, disc, from)
    ensures t == Place(run, s, Aligned(ReadAt(run.z), m)) && t.lba == s.lba + run.z.chunkBlocks
    ensures t.placed == s.placed + [DiscBytes(disc, from, run.z.chunkBytes)]
  {
    var a := Aligned(ReadAt(run.z), m);
    PlaceIs(run, s, a);
    t := Place(run, s, a);
    assert a.mem[a.p..a.p + run.z.chunkBytes] == DiscBytes(disc, from, run.z.chunkBytes);
  }

  lemma {:induction false} OverlapFollows(run: Run, a: Aligned, disc: Disc, due: int)
    requires ValidRun(run) && run.jitter && run.z.chunkBlocks >= 2 && |a.mem| == MemLen(run.z)
    requires a.p + run.z.chunkBytes + run.z.searchBytes <= |a.mem|
    requires Holds(a.mem, a.p, run.z.chunkBytes + run.z.searchBytes, disc, due)
    ensures a.mem[a.p..a.p + run.z.chunkBytes] == DiscBytes(disc, due, run.z.chunkBytes)
    ensures Surrounds(run, disc, Refill(run, a), due + run.z.chunkBytes)
  {
  }

  lemma {:induction false} NextDue(run: Run, jit: Jit, k: nat)
    ensures Due(run, jit, k + 1) == Due(run, jit, k) + run.z.chunkBytes
  {
    assert (k + 1) * run.z.chunkBytes == k * run.z.chunkBytes + run.z.chunkBytes;
  }

  lemma NextLba(run: Run, jit: Jit, k: nat)
    requires k + 1 != run.z.bufferChunks
    ensures LbaAt(run, jit, k + 1) == LbaAt(run, jit, k) + Advance(run.z.chunkBytes - Idx(run, jit, k))
  {
  }

  /** The chunks placed so far are the disc in order. */
  ghost predicate PlacedAre(run: Run, disc: Disc, jit: Jit, placed: seq<Chunk>) {
    forall i :: 0 <= i < |placed| ==> placed[i] == DiscBytes(disc, Due(run, jit, i), run.z.chunkBytes)
  }

  lemma PlacedMore(run: Run, disc: Disc, jit: Jit, placed: seq<Chunk>, chunk: Chunk)
    requires PlacedAre(run, disc, jit, placed) && chunk == DiscBytes(disc, Due(run, jit, |placed|), run.z.chunkBytes)
    ensures PlacedAre(run, disc, jit, placed + [chunk])
  {
  }

  lemma PlaceIs(run: Run, s: ReadState, a: Aligned)
    requires ValidRun(run) && ValidState(run, s) && |a.mem| == MemLen(run.z)
    requires a.p + run.z.chunkBytes + run.z.searchBytes <= |a.mem| && run.z.searchBytes <= a.p + run.z.chunkBytes
    ensures var t := Place(run, s, a);
            t.placed == s.placed + [a.mem[a.p..a.p + run.z.chunkBytes]] && t.mem == Refill(run, a)
            && t.done == s.done && t.lba == s.lba + Advance(a.p + run.z.chunkBytes - ReadAt(run.z))
  {
  }

  lemma {:induction false} PlaceLba(run: Run, jit: Jit, s: ReadState, a: Aligned)
    requires ValidRun(run) && ValidState(run, s) && |a.mem| == MemLen(run.z) && s.lba == LbaAt(run, jit, s.k)
    requires a.p + run.z.chunkBytes + run.z.searchBytes <= |a.mem| && run.z.searchBytes <= a.p + run.z.chunkBytes
    requires a.p == ReadAt(run.z) - Idx(run, jit, s.k) && s.k + 1 != run.z.bufferChunks
    ensures Place(run, s, a).lba == LbaAt(run, jit, s.k + 1)
  {
    PlaceIs(run, s, a);
    NextLba(run, jit, s.k);
  }

  lemma {:induction false} PlaceKeepsGood(run: Run, disc: Disc, jit: Jit, cont: bool, s: ReadState, a: Aligned)
    requires ValidRun(run) && run.jitter && run.z.chunkBlocks >= 2
    requires ValidState(run, s) && !s.done && |a.mem| == MemLen(run.z)
    requires if cont then s.k >= run.z.bufferChunks else s.k < run.z.bufferChunks
    requires s.lba == LbaAt(run, jit, s.k) && PlacedAre(run, disc, jit, s.placed)
    requires a.p == ReadAt(run.z) - Idx(run, jit, s.k)
    requires a.p + run.z.chunkBytes + run.z.searchBytes <= |a.mem|
    requires Holds(a.mem, a.p, run.z.chunkBytes + run.z.searchBytes, disc, Due(run, jit, s.k))
    ensures Good(run, disc, jit, cont, Place(run, s, a))
  {
    OverlapFollows(run, a, disc, Due(run, jit, s.k));
    NextDue(run, jit, s.k);
    PlacedMore(run, disc, jit, s.placed, a.mem[a.p..a.p + run.z.chunkBytes]);
    PlaceIs(run, s, a);
    if s.k + 1 != run.z.bufferChunks {
      PlaceLba(run, jit, s, a);
    }
    NextIsGood(run, disc, jit, cont, Place(run, s, a));
  }

  /** What makes the state between two reads a good one. */
  lemma NextIsGood(run: Run, disc: Disc, jit: Jit, cont: bool, t: ReadState)
    requires ValidRun(run) && ValidState(run, t) && !t.done && PlacedAre(run, disc, jit, t.placed)
    requires cont || t.k < run.z.bufferChunks ==> t.lba == LbaAt(run, jit, t.k)
    requires Surrounds(run, disc, t.mem, Due(run, jit, t.k))
    ensures Good(run, disc, jit, cont, t)
  {
  }

  /** A read that does not reach the end places the next disc bytes. */
  lemma {:induction false} ReadKeepsGood(run: Run, disc: Disc, jit: Jit, bound: nat, cont: bool, s: ReadState)
    returns (t: ReadState)
    requires Setting(run, disc, jit, bound) && ValidState(run, s) && Good(run, disc, jit, cont, s)
    requires !s.done && !LastRead(run, s.lba)
    requires if cont then s.k >= run.z.bufferChunks else s.k < run.z.bufferChunks
    ensures ReadChunk(run, cont, s) == Some(t) && ValidState(run, t) && t.k == s.k + 1
    ensures Good(run, disc, jit, cont, t) && (t.done <==> LastRead(run, s.lba))
  {
    AlignedRead(run, disc, jit, bound, cont, s);
    var read := ReadFrames(run, cont, s);
    var a := Align(run, s.k, read.mem);
    PlaceKeepsGood(run, disc, jit, cont, s.(errors := read.errors), a);
    t := Place(run, s.(errors := read.errors), a);
  }

  /** What the read that reaches the end leaves in memory. */
  lemma {:induction false} LastReadIs(run: Run, disc: Disc, jit: Jit, bound: nat, cont: bool, s: ReadState)
    requires Conditions(run, disc, jit, bound) && ValidState(run, s) && LastRead(run, s.lba)
    ensures var t := ReadFrames(run, cont, s);
            t.ok && |t.mem| == MemLen(run.z) && t.mem[..DataAt(run.z)] == s.mem[..DataAt(run.z)]
    ensures s.lba < run.endLba ==>
              var t := ReadFrames(run, cont, s);
              Holds(t.mem, ReadAt(run.z), run.z.chunkBytes + run.z.olapBytes,
                    Ending(run, disc, jit, s.k), Bytes(s.lba) + jit(s.k))
  {
    ReadFits(run, s.lba);
    TransfersDeliver(run.dev, cont, s.k, s.lba, ReadAt(run.z), FramesToRead(run, s.lba),
                     Prepare(run, s), s.errors, disc, jit);
    var t := ReadFrames(run, cont, s);
    assert t.mem == Put(Prepare(run, s), ReadAt(run.z), Delivered(disc, jit, s.k, s.lba, FramesToRead(run, s.lba)));
  }

  /** The chunk after alignment. */
  function ChunkOf(run: Run, a: Aligned): Chunk
    requires a.p + run.z.chunkBytes <= |a.mem|
  {
    a.mem[a.p..a.p + run.z.chunkBytes]
  }

  lemma {:induction false} FirstIsLast(run: Run, disc: Disc, m: seq<Byte>, end: int, got: int)
    requires ValidRun(run) && |m| == MemLen(run.z)
    requires Holds(m, ReadAt(run.z), run.z.chunkBytes + run.z.olapBytes, Silenced(disc, end), got)
    ensures var a := Align(run, 0, m);
            ChunkOf(run, a) == DiscBytes(Silenced(disc, end), got, run.z.chunkBytes)
  {
  }

  lemma {:induction false} LaterIsLast(run: Run, disc: Disc, k: nat, m: seq<Byte>, end: int, due: int, idx: int)
    requires ValidRun(run) && run.jitter && |m| == MemLen(run.z) && k > 0 && due + idx + run.z.strLength <= end
    requires Surrounds(run, disc, m, due)
    requires Holds(m, ReadAt(run.z), run.z.chunkBytes + run.z.olapBytes, Silenced(disc, end), due + idx)
    requires InWindow(run.z, idx) && NoEarlierMatch(run.z, disc, due, due + idx)
    ensures var a := Align(run, k, m);
            ChunkOf(run, a) == DiscBytes(Silenced(disc, end), due, run.z.chunkBytes)
  {
    LastSplice(m, run.z, disc, due, due + idx, end);
    assert Align(run, k, m) == Correct(m, run.z, true);
  }

  /** Every displacement lies within the window of the search. */
  lemma {:induction false} InsideWindow(run: Run, disc: Disc, jit: Jit, bound: nat, k: nat)
    requires Conditions(run, disc, jit, bound)
    ensures InWindow(run.z, Idx(run, jit, k))
  {
    DriftIsBounded(run, jit, bound, k);
    DisplacementIsEven(run, jit, k);
  }

  /** Where its chunk lies after alignment, and what it is. */
  lemma {:induction false} AlignedLast(run: Run, disc: Disc, jit: Jit, bound: nat, s: ReadState, m: seq<Byte>)
    requires Conditions(run, disc, jit, bound) && |s.mem| == |m| == MemLen(run.z) && s.lba == LbaAt(run, jit, s.k)
    requires s.k > 0 ==> Surrounds(run, disc, s.mem, Due(run, jit, s.k))
    requires LastFits(run, disc, jit, s.k) && m[..DataAt(run.z)] == s.mem[..DataAt(run.z)]
    requires Holds(m, ReadAt(run.z), run.z.chunkBytes + run.z.olapBytes,
                   Ending(run, disc, jit, s.k), Bytes(s.lba) + jit(s.k))
    ensures ChunkOf(run, Align(run, s.k, m)) == LastChunk(run, disc, jit, s.k)
  {
    InsideWindow(run, disc, jit, bound, s.k);
    LastOf(run, disc, jit, s.k, s.mem, m, Bytes(s.lba) + jit(s.k));
  }

  /** The same in terms of the memory before and after the read. */
  lemma {:induction false} LastOf(run: Run, disc: Disc, jit: Jit, k: nat, before: seq<Byte>, m: seq<Byte>, got: int)
    requires ValidRun(run) && run.jitter && |before| == |m| == MemLen(run.z)
    requires LastFits(run, disc, jit, k) && InWindow(run.z, Idx(run, jit, k))
    requires got == Due(run, jit, k) + Idx(run, jit, k)
    requires before[..DataAt(run.z)] == m[..DataAt(run.z)]
    requires k > 0 ==> Surrounds(run, disc, before, Due(run, jit, k))
    requires Holds(m, ReadAt(run.z), run.z.chunkBytes + run.z.olapBytes, Ending(run, disc, jit, k), got)
    ensures var a := Align(run, k, m);
            ChunkOf(run, a) == LastChunk(run, disc, jit, k)
  {
    var end := Bytes(run.endLba) + jit(k);
    var due, idx := Due(run, jit, k), Idx(run, jit, k);
    if k > 0 {
      OverlapStays(run, before, m, disc, due);
      LaterIsLast(run, disc, k, m, end, due, idx);
    } else {
      FirstIsLast(run, disc, m, end, due);
    }
  }

  lemma OverlapStays(run: Run, before: seq<Byte>, m: seq<Byte>, disc: Disc, due: int)
    requires ValidRun(run) && |before| == |m| == MemLen(run.z) && before[..DataAt(run.z)] == m[..DataAt(run.z)]
    requires Surrounds(run, disc, before, due)
    ensures Surrounds(run, disc, m, due)
  {
    forall x | 0 <= x < 2 * run.z.searchBytes ensures m[x] == disc(due - run.z.searchBytes + x - 0) {
      assert m[..DataAt(run.z)][x] == before[..DataAt(run.z)][x];
    }
  }

  /** A last chunk leaves the others alone. */
  lemma LastIsGood(run: Run, disc: Disc, jit: Jit, cont: bool, s: ReadState, t: ReadState, chunk: Chunk)
    requires ValidRun(run) && ValidState(run, s) && Good(run, disc, jit, cont, s) && !s.done
    requires ValidState(run, t) && t.done && t.placed == s.placed + [chunk]
    requires LastFits(run, disc, jit, s.k) ==> chunk == LastChunk(run, disc, jit, s.k)
    ensures Good(run, disc, jit, cont, t)
  {
  }

  /** The read that reaches the end sets done and leaves the others alone. */
  lemma {:induction false} LastReadKeepsGood(run: Run, disc: Disc, jit: Jit, bound: nat, cont: bool, s: ReadState)
    returns (t: ReadState)
    requires Setting(run, disc, jit, bound) && ValidState(run, s) && Good(run, disc, jit, cont, s)
    requires !s.done && LastRead(run, s.lba)
    requires if cont then s.k >= run.z.bufferChunks else s.k < run.z.bufferChunks
    ensures ReadChunk(run, cont, s) == Some(t) && ValidState(run, t) && t.k == s.k + 1
    ensures Good(run, disc, jit, cont, t) && (t.done <==> LastRead(run, s.lba))
  {
    LastReadIs(run, disc, jit, bound, cont, s);
    var read := ReadFrames(run, cont, s);
    var a := Align(run, s.k, read.mem);
    if LastFits(run, disc, jit, s.k) {
      AlignedLast(run, disc, jit, bound, s, read.mem);
    }
    t := Place(run, s.(done := true, errors := read.errors), a);
    PlaceIs(run, s.(done := true, errors := read.errors), a);
    LastIsGood(run, disc, jit, cont, s, t, ChunkOf(run, a));
  }

  /** Read k is to reach the end. */
  predicate ReachesEnd(run: Run, jit: Jit, k: nat) {
    LastRead(run, LbaAt(run, jit, k))
  }

  /** k reads were made: none of them reached the end but the last, if done. */
  ghost predicate Ends(run: Run, jit: Jit, k: nat, done: bool) {
    && (forall i :: 0 <= i < (if done then k - 1 else k) ==> !ReachesEnd(run, jit, i))
    && (done ==> k >= 1 && ReachesEnd(run, jit, k - 1))
  }

  lemma EndsMore(run: Run, jit: Jit, k: nat, last: bool)
    requires Ends(run, jit, k, false) && (last <==> ReachesEnd(run, jit, k))
    ensures Ends(run, jit, k + 1, last)
  {
  }

  lemma {:induction false} PassKeepsGood(run: Run, disc: Disc, jit: Jit, bound: nat, cont: bool, s: ReadState)
    returns (t: ReadState)
    requires Setting(run, disc, jit, bound) && ValidState(run, s) && Good(run, disc, jit, cont, s) && !s.done
    requires if cont then s.k >= run.z.bufferChunks else s.k < run.z.bufferChunks
    ensures ReadChunk(run, cont, s) == Some(t) && ValidState(run, t) && t.k == s.k + 1
    ensures Good(run, disc, jit, cont, t) && (t.done <==> ReachesEnd(run, jit, s.k))
  {
    if LastRead(run, s.lba) {
      t := LastReadKeepsGood(run, disc, jit, bound, cont, s);
    } else {
      t := ReadKeepsGood(run, disc, jit, bound, cont, s);
    }
  }

  // ---- the run ----

  lemma {:induction false} FillStep(run: Run, disc: Disc, jit: Jit, bound: nat, s: ReadState) returns (u: ReadState)
    requires Setting(run, disc, jit, bound) && ValidState(run, s) && Good(run, disc, jit, false, s)
    requires s.k < run.z.bufferChunks && !s.done && Ends(run, jit, s.k, false)
    ensures ValidState(run, u) && Good(run, disc, jit, false, u) && u.k == s.k + 1 && Ends(run, jit, u.k, u.done)
    ensures FillBuf(run, s, s.k) == FillBuf(run, u, u.k)
  {
    u := PassKeepsGood(run, disc, jit, bound, false, s);
    assert Ends(run, jit, u.k, u.done) by { EndsMore(run, jit, s.k, u.done); }
    assert FillBuf(run, s, s.k) == FillBuf(run, u, u.k) by { FillOnce(run, s, s.k, Some(u)); }
  }

  lemma {:induction false} FillKeepsGood(run: Run, disc: Disc, jit: Jit, bound: nat, s: ReadState, i: nat)
    returns (t: ReadState)
    requires Setting(run, disc, jit, bound) && ValidState(run, s) && Good(run, disc, jit, false, s)
    requires i == s.k <= run.z.bufferChunks && Ends(run, jit, s.k, s.done)
    ensures FillBuf(run, s, i) == Some(t) && ValidState(run, t) && Good(run, disc, jit, false, t)
    ensures (t.done || t.k == run.z.bufferChunks) && Ends(run, jit, t.k, t.done)
    decreases run.z.bufferChunks - i
  {
    if i < run.z.bufferChunks && !s.done {
      var u := FillStep(run, disc, jit, bound, s);
      t := FillKeepsGood(run, disc, jit, bound, u, i + 1);
    } else {
      t := s;
    }
  }

  /** A pass of cont. */
  lemma ContOn(run: Run, s: ReadState, n: nat, u: ReadState)
    requires ValidRun(run) && ValidState(run, s) && ValidState(run, u) && n > 0 && !s.done
    requires ReadChunk(run, true, s) == Some(u)
    ensures ReadCont(run, s, n) == ReadCont(run, u, n - 1)
  {
    ContOnce(run, s, n, Some(u));
  }

  lemma {:induction false} ContStep(run: Run, disc: Disc, jit: Jit, bound: nat, s: ReadState, n: nat)
    returns (u: ReadState)
    requires Setting(run, disc, jit, bound) && ValidState(run, s) && Good(run, disc, jit, true, s)
    requires s.k >= run.z.bufferChunks && !s.done && n > 0 && Ends(run, jit, s.k, false)
    ensures ValidState(run, u) && Good(run, disc, jit, true, u) && u.k == s.k + 1 && Ends(run, jit, u.k, u.done)
    ensures ReadCont(run, s, n) == ReadCont(run, u, n - 1)
  {
    u := PassKeepsGood(run, disc, jit, bound, true, s);
    assert Ends(run, jit, u.k, u.done) by { EndsMore(run, jit, s.k, u.done); }
    assert ReadCont(run, s, n) == ReadCont(run, u, n - 1) by { ContOn(run, s, n, u); }
  }

  lemma {:induction false} ContKeepsGood(run: Run, disc: Disc, jit: Jit, bound: nat, s: ReadState, n: nat)
    returns (t: ReadState)
    requires Setting(run, disc, jit, bound) && ValidState(run, s) && Good(run, disc, jit, true, s)
    requires (s.done || s.k >= run.z.bufferChunks) && Ends(run, jit, s.k, s.done)
    ensures ReadCont(run, s, n) == Some(t) && ValidState(run, t) && Good(run, disc, jit, true, t)
    ensures (t.done || t.k == s.k + n) && Ends(run, jit, t.k, t.done)
    decreases n
  {
    if n > 0 && !s.done {
      var u := ContStep(run, disc, jit, bound, s, n);
      t := ContKeepsGood(run, disc, jit, bound, u, n - 1);
    } else {
      t := s;
    }
  }

  lemma HandOverIsGood(run: Run, disc: Disc, jit: Jit, s: ReadState)
    requires ValidRun(run) && ValidState(run, s) && Good(run, disc, jit, false, s)
    requires s.done || s.k == run.z.bufferChunks
    ensures ValidState(run, HandOver(run, s)) && Good(run, disc, jit, true, HandOver(run, s))
  {
  }

  lemma WholeRunIs(run: Run, s: ReadState, n: nat, t: ReadState, r: ReadState)
    requires ValidRun(run) && Fresh(run, s) && ValidState(run, t)
    requires FillBuf(run, s, 0) == Some(t) && ReadCont(run, HandOver(run, t), n) == Some(r)
    ensures WholeRun(run, s, n) == Some(r)
  {
  }

  lemma {:induction false} RunKeepsGood(run: Run, disc: Disc, jit: Jit, bound: nat, s: ReadState, n: nat)
    returns (r: ReadState)
    requires Setting(run, disc, jit, bound) && Fresh(run, s)
    ensures WholeRun(run, s, n) == Some(r) && ValidState(run, r) && Good(run, disc, jit, true, r)
    ensures (r.done || r.k == run.z.bufferChunks + n) && Ends(run, jit, r.k, r.done)
  {
    var t := FillKeepsGood(run, disc, jit, bound, s, 0);
    HandOverIsGood(run, disc, jit, t);
    r := ContKeepsGood(run, disc, jit, bound, HandOver(run, t), n);
    WholeRunIs(run, s, n, t, r);
  }

  lemma {:induction false} ConcatIsDisc(run: Run, disc: Disc, jit: Jit, chunks: seq<Chunk>)
    requires forall i :: 0 <= i < |chunks| ==> chunks[i] == DiscBytes(disc, Due(run, jit, i), run.z.chunkBytes)
    ensures Concat(chunks) == DiscBytes(disc, Due(run, jit, 0), Length(run, |chunks|))
    decreases |chunks|
  {
    if chunks != [] {
      var n := |chunks| - 1;
      ConcatIsDisc(run, disc, jit, chunks[..n]);
      assert Due(run, jit, n) == Due(run, jit, 0) + n * run.z.chunkBytes;
      JoinDiscBytes(disc, Due(run, jit, 0), n * run.z.chunkBytes, run.z.chunkBytes);
      assert (n + 1) * run.z.chunkBytes == n * run.z.chunkBytes + run.z.chunkBytes;
    }
  }

  lemma {:induction false} ConcatFromStart(run: Run, disc: Disc, jit: Jit, chunks: seq<Chunk>)
    requires forall i :: 0 <= i < |chunks| ==> chunks[i] == DiscBytes(disc, Due(run, jit, i), run.z.chunkBytes)
    ensures Concat(chunks) == DiscBytes(disc, Bytes(run.startLba) + jit(0), Length(run, |chunks|))
  {
    ConcatIsDisc(run, disc, jit, chunks);
    assert Due(run, jit, 0) == Bytes(run.startLba) + jit(0);
  }

  /** The chunks of a run that were read in full. */
  function FullChunks(s: ReadState): seq<Chunk>
    requires |s.placed| == s.k
  {
    if s.done && s.k >= 1 then s.placed[..s.k - 1] else s.placed
  }

  lemma {:induction false} GoodIsSeamless(run: Run, disc: Disc, jit: Jit, cont: bool, s: ReadState)
    requires ValidRun(run) && ValidState(run, s) && Good(run, disc, jit, cont, s)
    ensures Concat(FullChunks(s))
            == DiscBytes(disc, Bytes(run.startLba) + jit(0), Length(run, |FullChunks(s)|))
  {
    ConcatFromStart(run, disc, jit, FullChunks(s));
  }

  /** For a run of any length, stopped anywhere: all chunks placed before the one
      that reaches the end join to one contiguous run of disc bytes, across the
      hand-over from fillbuf to cont as well. */
  lemma {:induction false} RunIsSeamless(run: Run, disc: Disc, jit: Jit, bound: nat, s: ReadState, n: nat)
    returns (r: ReadState)
    requires Setting(run, disc, jit, bound) && Fresh(run, s)
    ensures WholeRun(run, s, n) == Some(r) && |r.placed| == r.k
    ensures Concat(FullChunks(r))
            == DiscBytes(disc, Bytes(run.startLba) + jit(0), Length(run, |FullChunks(r)|))
  {
    r := RunKeepsGood(run, disc, jit, bound, s, n);
    GoodIsSeamless(run, disc, jit, true, r);
  }
}

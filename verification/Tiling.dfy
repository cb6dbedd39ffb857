/**
  Whole runs without jitter correction: the chunks in the ring are the requested
  sectors, padded with zeros, and what reaches the writer's files is their start.
 */
module Tiling {
  import opened Basics
  import opened Jitter
  import opened ReaderSpec
  import opened Drift
  import opened Seamless
  import opened Protocol
  import FifoRefinement
  import Completion

  // ---- the requests of one read ----

  datatype Request = Request(lba: int, frames: int)

  /** The requests of one read that meets no fatal error. */
  function Requests(lba: int, remain: int): (r: seq<Request>)
    ensures r != [] && r[0] == Request(lba, Frames(remain))
    decreases if remain > 0 then remain else 0
  {
    var n := Frames(remain);
    [Request(lba, n)] + if remain - n > 0 then Requests(lba + n, remain - n) else []
  }

  /** Requests that lead from `from` to `end` without gap or overlap, of 13 frames each
      but for the last, which has 1 to 13. */
  predicate Partition(rs: seq<Request>, from: int, end: int) {
    if rs == [] then from == end
    else
      && rs[0].lba == from && 1 <= rs[0].frames <= 13 && (|rs| > 1 ==> rs[0].frames == 13)
      && Partition(rs[1..], from + rs[0].frames, end)
  }

  lemma {:induction false} RequestsPartition(lba: int, remain: int)
    requires remain >= 1
    ensures Partition(Requests(lba, remain), lba, lba + remain)
    decreases remain
  {
    var n := Frames(remain);
    var rest := if remain - n > 0 then Requests(lba + n, remain - n) else [];
    if remain - n > 0 {
      RequestsPartition(lba + n, remain - n);
    }
    assert Requests(lba, remain)[1..] == rest;
  }

  /** Two devices that answer these requests alike, attempt by attempt. */
  ghost predicate SameAnswers(a: Device, b: Device, k: nat, rs: seq<Request>) {
    forall i, j :: 0 <= i < |rs| ==> a(k, rs[i].lba, rs[i].frames, j) == b(k, rs[i].lba, rs[i].frames, j)
  }

  lemma {:induction false} SameAnswer(a: Device, b: Device, k: nat, r: Request, j: nat)
    requires SameAnswers(a, b, k, [r]) && j <= MAX_READ_RETRIES
    ensures Answer(a, k, r.lba, r.frames, j) == Answer(b, k, r.lba, r.frames, j)
    decreases MAX_READ_RETRIES - j
  {
    assert [r][0] == r;
    if j < MAX_READ_RETRIES {
      SameAnswer(a, b, k, r, j + 1);
    }
  }

  lemma {:induction false} SameTransfer(a: Device, b: Device, cont: bool, k: nat, lba: int, at: nat, n: int,
                                        m: seq<Byte>, errors: Errors)
    requires GoodDevice(a) && GoodDevice(b) && SameAnswers(a, b, k, [Request(lba, n)])
    requires at <= |m| && (n >= 0 ==> at + Bytes(n) <= |m|)
    ensures Transfer(a, cont, k, lba, at, n, m, errors) == Transfer(b, cont, k, lba, at, n, m, errors)
  {
    var rs := [Request(lba, n)];
    SameAnswer(a, b, k, rs[0], 0);
    assert a(k, rs[0].lba, rs[0].frames, 0) == b(k, rs[0].lba, rs[0].frames, 0);
  }

  /** A read makes no other requests than these: nothing else a device might
      answer has an influence on it. */
  lemma {:induction false} TransfersAskOnly(a: Device, b: Device, cont: bool, k: nat, lba: int, at: nat, remain: int,
                                            m: seq<Byte>, errors: Errors)
    requires GoodDevice(a) && GoodDevice(b) && SameAnswers(a, b, k, Requests(lba, remain))
    requires at <= |m| && (remain >= 0 ==> at + Bytes(remain) <= |m|)
    ensures Transfers(a, cont, k, lba, at, remain, m, errors) == Transfers(b, cont, k, lba, at, remain, m, errors)
    decreases if remain > 0 then remain else 0
  {
    var n := Frames(remain);
    var rs := Requests(lba, remain);
    assert SameAnswers(a, b, k, [Request(lba, n)]) by {
      assert rs[0] == Request(lba, n);
    }
    SameTransfer(a, b, cont, k, lba, at, n, m, errors);
    var t := Transfer(a, cont, k, lba, at, n, m, errors);
    if remain - n > 0 {
      var rest := Requests(lba + n, remain - n);
      assert SameAnswers(a, b, k, rest) by {
        assert forall i :: 0 <= i < |rest| ==> rest[i] == rs[i + 1];
      }
      TransfersAskOnly(a, b, cont, k, lba + n, at + Bytes(n), remain - n, t.mem, t.errors);
    }
  }

  // ---- the run ----

  /** The disc up to `end`, with silence behind. */
  function Padded(disc: Disc, end: int): Disc {
    Silenced(disc, Bytes(end))
  }

  /** Chunks of a run: the length of the segment over the chunk length, rounded up. */
  function Total(run: Run): nat
    requires ValidRun(run)
  {
    (run.endLba - run.startLba + run.z.chunkBlocks - 1) / run.z.chunkBlocks
  }

  lemma {:induction false} LengthIs(run: Run, n: nat)
    requires ValidRun(run)
    ensures Length(run, n) == Bytes(n * run.z.chunkBlocks)
  {
    assert n * (2352 * run.z.chunkBlocks) == 2352 * (n * run.z.chunkBlocks);
  }

  ghost predicate ExactSetting(run: Run, disc: Disc) {
    ValidRun(run) && !run.jitter && Displaced(run.dev, disc, Still())
  }

  /** The block address of chunk k. */
  function ChunkLba(run: Run, k: nat): int {
    run.startLba + k * run.z.chunkBlocks
  }

  /** The reader between two reads. */
  ghost predicate Tiles(run: Run, disc: Disc, s: ReadState)
    requires ValidRun(run) && ValidState(run, s)
  {
    && s.k <= Total(run) && (s.done <==> s.k == Total(run))
    && (!s.done ==> s.lba == ChunkLba(run, s.k))
    && PlacedAre(run, Padded(disc, run.endLba), Still(), s.placed)
  }

  lemma {:induction false} DivUp(a: nat, b: nat, k: nat)
    requires a >= 1 && b >= 1
    ensures var t := (a + b - 1) / b;
            && (k < t <==> k * b < a)
            && (k < t ==> (k + 1 == t <==> (k + 1) * b >= a))
  {
    var t := (a + b - 1) / b;
    assert t * b == a + b - 1 - (a + b - 1) % b;
    assert (k + 1) * b == k * b + b;
    Times(t - k, b, t * b - k * b);
  }

  /** `n` times `b`, by the sign of `n`. */
  lemma Times(n: int, b: nat, p: int)
    requires b >= 1 && p == n * b
    ensures n >= 2 ==> p >= 2 * b
    ensures n == 1 ==> p == b
    ensures n <= 0 ==> p <= 0
  {
  }

  /** Before every read at least one frame remains, and the read that reaches the
      end is the last one the segment needs. */
  lemma {:induction false} SomethingRemains(run: Run, disc: Disc, s: ReadState)
    requires ValidRun(run) && !run.jitter && ValidState(run, s) && Tiles(run, disc, s) && !s.done
    ensures 1 <= FramesToRead(run, s.lba) <= run.z.chunkBlocks
    ensures LastRead(run, s.lba) <==> s.k + 1 == Total(run)
  {
    var cb := run.z.chunkBlocks;
    DivUp(run.endLba - run.startLba, cb, s.k);
    assert (s.k + 1) * cb == s.k * cb + cb;
  }

  lemma {:induction false} DueIsChunk(run: Run, k: nat)
    requires ValidRun(run)
    ensures Due(run, Still(), k) == Bytes(ChunkLba(run, k))
  {
    assert 2352 * (k * run.z.chunkBlocks) == k * (2352 * run.z.chunkBlocks);
  }

  /** One read fills the read buffer with the segment from lba on. */
  lemma {:induction false} ReadIsPadded(run: Run, disc: Disc, cont: bool, s: ReadState)
    requires ExactSetting(run, disc) && ValidState(run, s)
    requires 1 <= FramesToRead(run, s.lba) <= run.z.chunkBlocks
    ensures var t := ReadFrames(run, cont, s);
            t.ok && t.mem == DiscBytes(Padded(disc, run.endLba), Bytes(s.lba), run.z.chunkBytes)
  {
    var n := FramesToRead(run, s.lba);
    ReadFits(run, s.lba);
    TransfersDeliver(run.dev, cont, s.k, s.lba, ReadAt(run.z), n, Prepare(run, s), s.errors, disc, Still());
    var m := Put(Prepare(run, s), 0, Delivered(disc, Still(), s.k, s.lba, n));
    forall x | 0 <= x < run.z.chunkBytes
      ensures m[x] == Padded(disc, run.endLba)(Bytes(s.lba) + x)
    {
    }
  }

  lemma {:induction false} PlaceTiles(run: Run, disc: Disc, s: ReadState, m: seq<Byte>)
    requires ValidRun(run) && !run.jitter && ValidState(run, s) && |m| == MemLen(run.z)
    requires s.k < Total(run) && (s.done <==> s.k + 1 == Total(run)) && s.lba == ChunkLba(run, s.k)
    requires PlacedAre(run, Padded(disc, run.endLba), Still(), s.placed)
    requires m == DiscBytes(Padded(disc, run.endLba), Due(run, Still(), s.k), run.z.chunkBytes)
    ensures Tiles(run, disc, Place(run, s, Aligned(0, m)))
  {
    assert m[0..run.z.chunkBytes] == m;
    PlaceIs(run, s, Aligned(0, m));
    PlacedMore(run, Padded(disc, run.endLba), Still(), s.placed, m);
    assert (s.k + 1) * run.z.chunkBlocks == s.k * run.z.chunkBlocks + run.z.chunkBlocks;
  }

  lemma {:induction false} PassTiles(run: Run, disc: Disc, cont: bool, s: ReadState) returns (t: ReadState)
    requires ExactSetting(run, disc) && ValidState(run, s) && Tiles(run, disc, s) && !s.done
    ensures ReadChunk(run, cont, s) == Some(t) && ValidState(run, t) && t.k == s.k + 1
    ensures Tiles(run, disc, t)
  {
    SomethingRemains(run, disc, s);
    ReadIsPadded(run, disc, cont, s);
    DueIsChunk(run, s.k);
    var read := ReadFrames(run, cont, s);
    var u := s.(done := s.done || LastRead(run, s.lba), errors := read.errors);
    PlaceTiles(run, disc, u, read.mem);
    t := Place(run, u, Aligned(0, read.mem));
    assert Align(run, s.k, read.mem) == Aligned(0, read.mem);
  }

  lemma {:induction false} FillTiles(run: Run, disc: Disc, s: ReadState, i: nat) returns (t: ReadState)
    requires ExactSetting(run, disc) && ValidState(run, s) && Tiles(run, disc, s)
    requires i == s.k <= run.z.bufferChunks
    ensures FillBuf(run, s, i) == Some(t) && ValidState(run, t) && Tiles(run, disc, t)
    ensures t.k == Min(Total(run), run.z.bufferChunks)
    decreases run.z.bufferChunks - i
  {
    if i < run.z.bufferChunks && !s.done {
      var u := PassTiles(run, disc, false, s);
      FillOnce(run, s, i, Some(u));
      t := FillTiles(run, disc, u, i + 1);
    } else {
      t := s;
    }
  }

  lemma {:induction false} ContPassTiles(run: Run, disc: Disc, s: ReadState, n: nat) returns (u: ReadState)
    requires ExactSetting(run, disc) && ValidState(run, s) && Tiles(run, disc, s) && !s.done && n > 0
    ensures ValidState(run, u) && Tiles(run, disc, u) && u.k == s.k + 1
    ensures ReadCont(run, s, n) == ReadCont(run, u, n - 1)
  {
    u := PassTiles(run, disc, true, s);
    ContOnce(run, s, n, Some(u));
  }

  lemma {:induction false} ContTiles(run: Run, disc: Disc, s: ReadState, n: nat, k: nat) returns (t: ReadState)
    requires ExactSetting(run, disc) && ValidState(run, s) && Tiles(run, disc, s)
    requires k == Min(Total(run), s.k + n)
    ensures ReadCont(run, s, n) == Some(t) && ValidState(run, t) && Tiles(run, disc, t)
    ensures t.k == k
    decreases n
  {
    if n > 0 && !s.done {
      var u := ContPassTiles(run, disc, s, n);
      t := ContTiles(run, disc, u, n - 1, k);
    } else {
      ContEnds(run, s, n);
      t := s;
    }
  }

  /** A run stopped after n tests of the loop in cont has placed all chunks, or
      those of the ring and n more; each is its part of the padded segment. */
  lemma {:induction false} RunTiles(run: Run, disc: Disc, s: ReadState, n: nat) returns (r: ReadState)
    requires ExactSetting(run, disc) && Fresh(run, s)
    ensures WholeRun(run, s, n) == Some(r) && ValidState(run, r) && Tiles(run, disc, r)
    ensures r.k == |r.placed| == Min(Total(run), run.z.bufferChunks + n)
    ensures Concat(r.placed)
            == DiscBytes(Padded(disc, run.endLba), Bytes(run.startLba), Length(run, |r.placed|))
  {
    LastChunkReachesEnd(run);
    var t := FillTiles(run, disc, s, 0);
    HandOverTiles(run, disc, t);
    r := ContTiles(run, disc, HandOver(run, t), n, Min(Total(run), t.k + n));
    WholeRunIs(run, s, n, t, r);
    PrefixTiles(run, disc, r.placed, r.placed);
  }

  lemma HandOverTiles(run: Run, disc: Disc, s: ReadState)
    requires ValidRun(run) && ValidState(run, s) && Tiles(run, disc, s)
    requires s.done || s.k == run.z.bufferChunks
    ensures ValidState(run, HandOver(run, s)) && Tiles(run, disc, HandOver(run, s))
  {
  }

  function Zeros(n: nat): seq<Byte> {
    seq(n, _ => 0)
  }

  /** The bytes of the segment, and how many zeros fill up its last chunk. */
  function Segment(run: Run, disc: Disc): seq<Byte>
    requires ValidRun(run)
  {
    DiscBytes(disc, Bytes(run.startLba), Bytes(run.endLba - run.startLba))
  }

  lemma {:induction false} LastChunkReachesEnd(run: Run)
    requires ValidRun(run)
    ensures Total(run) >= 1
    ensures 0 <= Length(run, Total(run)) - Bytes(run.endLba - run.startLba) < run.z.chunkBytes
  {
    var blocks := run.endLba - run.startLba;
    var cb := run.z.chunkBlocks;
    var t := Total(run);
    DivUp(blocks, cb, 0);
    assert t >= 1;
    DivUp(blocks, cb, t);
    DivUp(blocks, cb, t - 1);
    LengthIs(run, t);
    assert t * cb - cb == (t - 1) * cb < blocks <= t * cb;
  }

  function Padding(run: Run): (r: nat)
    requires ValidRun(run)
    ensures r < run.z.chunkBytes
  {
    LastChunkReachesEnd(run);
    Length(run, Total(run)) - Bytes(run.endLba - run.startLba)
  }

  lemma PaddedAt(disc: Disc, end: int, from: int, n: nat, x: nat)
    requires x < n
    ensures DiscBytes(Padded(disc, end), from, n)[x] == if from + x < Bytes(end) then disc(from + x) else 0
  {
  }

  lemma {:induction false} PaddedSegment(run: Run, disc: Disc)
    requires ValidRun(run)
    ensures DiscBytes(Padded(disc, run.endLba), Bytes(run.startLba), Length(run, Total(run)))
            == Segment(run, disc) + Zeros(Padding(run))
  {
    var d := DiscBytes(Padded(disc, run.endLba), Bytes(run.startLba), Length(run, Total(run)));
    assert |d| == Bytes(run.endLba - run.startLba) + Padding(run);
    forall x | 0 <= x < |d|
      ensures d[x] == (Segment(run, disc) + Zeros(Padding(run)))[x]
    {
      PaddedAt(disc, run.endLba, Bytes(run.startLba), |d|, x);
      if x < Bytes(run.endLba - run.startLba) {
        assert Segment(run, disc)[x] == disc(Bytes(run.startLba) + x);
      }
    }
  }

  /** Exact tiling: a run left alone places ceil(length / chunk length) chunks,
      and they are the segment followed by less than a chunk of zeros. */
  lemma {:induction false} WholeRunIsSegment(run: Run, disc: Disc, s: ReadState, n: nat) returns (r: ReadState)
    requires ExactSetting(run, disc) && Fresh(run, s) && run.z.bufferChunks + n >= Total(run)
    ensures WholeRun(run, s, n) == Some(r) && r.done && |r.placed| == Total(run)
    ensures Concat(r.placed) == Segment(run, disc) + Zeros(Padding(run))
  {
    r := RunTiles(run, disc, s, n);
    PaddedSegment(run, disc);
  }

  // ---- from the drive to the writer ----

  lemma {:induction false} PrefixTiles(run: Run, disc: Disc, all: seq<Chunk>, part: seq<Chunk>)
    requires part <= all && PlacedAre(run, Padded(disc, run.endLba), Still(), all)
    ensures Concat(part)
            == DiscBytes(Padded(disc, run.endLba), Bytes(run.startLba), Length(run, |part|))
  {
    ConcatIsDisc(run, Padded(disc, run.endLba), Still(), part);
  }

  /** The protocol carries the chunks of this run. */
  ghost predicate Carries(c: Config, run: Run, s: ReadState, n: nat)
    requires ValidRun(run) && Fresh(run, s)
  {
    && ValidConfig(c) && c.bufferChunks == run.z.bufferChunks
    && WholeRun(run, s, n).Some? && c.plan == WholeRun(run, s, n).value.placed
    && run.z.bufferChunks + n >= Total(run)
  }

  /** Whatever the schedule and whoever stops the run, at every moment the writer
      has written the padded segment up to some chunk, and nothing else. */
  lemma {:induction false} WriterGetsSegment(c: Config, run: Run, disc: Disc, s: ReadState, n: nat, t: State)
    requires ExactSetting(run, disc) && Fresh(run, s) && Carries(c, run, s, n) && Reachable(c, t)
    ensures |t.written| <= |c.plan| == Total(run)
    ensures Concat(t.written)
            == DiscBytes(Padded(disc, run.endLba), Bytes(run.startLba), Length(run, |t.written|))
  {
    var r := RunTiles(run, disc, s, n);
    FifoRefinement.IndicesAgree(c, t);
    PrefixTiles(run, disc, c.plan, t.written);
  }

  /** A run that the writer ended by draining wrote the whole segment, or all of
      its chunks but the last; the latter only if they do not all fit into the ring. */
  lemma {:induction false} DrainedRunWritesSegment(c: Config, run: Run, disc: Disc, s: ReadState, n: nat, t: State)
    requires ExactSetting(run, disc) && Fresh(run, s) && Carries(c, run, s, n)
    requires Reachable(c, t) && t.cause == Drained
    ensures |t.written| == Total(run) || (|t.written| == Total(run) - 1 && Total(run) > run.z.bufferChunks)
    ensures Concat(t.written)
            == if |t.written| == Total(run) then Segment(run, disc) + Zeros(Padding(run))
               else DiscBytes(disc, Bytes(run.startLba), Length(run, |t.written|))
  {
    WriterGetsSegment(c, run, disc, s, n, t);
    Completion.DrainedRun(c, t);
    LastChunkReachesEnd(run);
    if |t.written| == Total(run) {
      PaddedSegment(run, disc);
    } else {
      BeforeTheEnd(run, disc, |t.written|);
    }
  }

  lemma {:induction false} BeforeTheEnd(run: Run, disc: Disc, n: nat)
    requires ValidRun(run) && n == Total(run) - 1
    ensures DiscBytes(Padded(disc, run.endLba), Bytes(run.startLba), Length(run, n))
            == DiscBytes(disc, Bytes(run.startLba), Length(run, n))
  {
    LastChunkReachesEnd(run);
    assert (n + 1) * run.z.chunkBytes == n * run.z.chunkBytes + run.z.chunkBytes;
    var d := DiscBytes(Padded(disc, run.endLba), Bytes(run.startLba), Length(run, n));
    forall x | 0 <= x < |d|
      ensures d[x] == disc(Bytes(run.startLba) + x)
    {
      PaddedAt(disc, run.endLba, Bytes(run.startLba), |d|, x);
    }
  }
}

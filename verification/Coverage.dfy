/**
  Runs with jitter correction: they end, they cover the segment but for the jitter
  at its ends, and what they read is what the writer writes.
 */
module Coverage {
  import opened Basics
  import opened Jitter
  import opened ReaderSpec
  import opened Drift
  import opened Seamless
  import Tiling
  import Protocol
  import FifoRefinement
  import Completion

  /** By how many bytes lba can be away from its place. */
  function Slack(bound: nat): nat {
    2 * bound + 1176
  }

  function SegmentLen(run: Run): int {
    Bytes(run.endLba - run.startLba)
  }

  /** A read that does not reach the end starts well before it, and one that does
      does not. */
  lemma {:induction false} EndIsNear(run: Run, jit: Jit, bound: nat, k: nat)
    requires ValidRun(run) && Bounded(jit, bound) && Slack(bound) <= run.z.chunkBytes
    ensures if ReachesEnd(run, jit, k)
            then Length(run, k + 1) >= SegmentLen(run) - Slack(bound)
            else Length(run, k + 1) < SegmentLen(run) + Slack(bound)
  {
    LbaStaysNear(run, jit, bound, k);
    OneMoreChunk(run, k);
  }

  lemma OneMoreChunk(run: Run, k: nat)
    ensures Length(run, k + 1) == Length(run, k) + run.z.chunkBytes
  {
  }

  lemma {:induction false} ManyChunksReachEnd(run: Run, k: nat)
    requires ValidRun(run) && k >= run.endLba - run.startLba
    ensures Length(run, k) >= SegmentLen(run)
  {
    var blocks := run.endLba - run.startLba;
    Product(k, run.z.chunkBytes, blocks);
  }

  lemma Product(k: nat, chunkBytes: nat, blocks: nat)
    requires k >= blocks && chunkBytes >= 2352
    ensures k * chunkBytes >= 2352 * blocks
  {
    assert k * (chunkBytes - 2352) >= 0;
  }

  /** `full` chunks cover the segment, give or take the slack and a chunk. */
  predicate Covers(run: Run, bound: nat, full: nat) {
    SegmentLen(run) - run.z.chunkBytes - Slack(bound) <= Length(run, full) < SegmentLen(run) + Slack(bound)
  }

  lemma {:induction false} DoneCovers(run: Run, jit: Jit, bound: nat, k: nat)
    requires ValidRun(run) && Bounded(jit, bound) && Slack(bound) <= run.z.chunkBytes
    requires Ends(run, jit, k, true)
    ensures Covers(run, bound, k - 1)
  {
    EndIsNear(run, jit, bound, k - 1);
    OneMoreChunk(run, k - 1);
    if k > 1 {
      EndIsNear(run, jit, bound, k - 2);
    }
  }

  lemma {:induction false} LongRunIsDone(run: Run, jit: Jit, bound: nat, k: nat)
    requires ValidRun(run) && Bounded(jit, bound) && Slack(bound) <= run.z.chunkBytes
    requires k > run.endLba - run.startLba
    ensures !Ends(run, jit, k, false)
  {
    EndIsNear(run, jit, bound, k - 1);
    ManyChunksReachEnd(run, k - 1);
    OneMoreChunk(run, k - 1);
    assert ReachesEnd(run, jit, k - 1);
  }

  /** A run left alone ends, and its full chunks are one contiguous run of disc
      bytes, as long as the segment but for the jitter and a chunk.  If the last
      read has a frame to read and can be aligned, its chunk goes on from there
      up to the end of the segment, with silence behind. */
  lemma {:induction false} RunCoversSegment(run: Run, disc: Disc, jit: Jit, bound: nat, s: ReadState, n: nat)
    returns (r: ReadState)
    requires Setting(run, disc, jit, bound) && Fresh(run, s) && n >= run.endLba - run.startLba
    ensures WholeRun(run, s, n) == Some(r) && r.done && |r.placed| == r.k == |FullChunks(r)| + 1
    ensures Covers(run, bound, |FullChunks(r)|)
    ensures Concat(FullChunks(r))
            == DiscBytes(disc, Bytes(run.startLba) + jit(0), Length(run, |FullChunks(r)|))
    ensures Ends(run, jit, r.k, true)
    ensures LastFits(run, disc, jit, r.k - 1) ==> r.placed[r.k - 1] == LastChunk(run, disc, jit, r.k - 1)
  {
    r := RunKeepsGood(run, disc, jit, bound, s, n);
    GoodIsSeamless(run, disc, jit, true, r);
    if !r.done {
      LongRunIsDone(run, jit, bound, r.k);
    }
    DoneCovers(run, jit, bound, r.k);
  }

  // ---- drives that stray by less than a quarter of a block ----

  lemma {:induction false} SteadyEnd(run: Run, jit: Jit, bound: nat, k: nat)
    requires ValidRun(run) && Bounded(jit, bound) && 2 * bound < 1176 && Ends(run, jit, k, true)
    ensures k == Tiling.Total(run) && LbaAt(run, jit, k - 1) < run.endLba
  {
    var cb := run.z.chunkBlocks;
    SteadyLba(run, jit, bound, k - 1);
    if k > 1 {
      SteadyLba(run, jit, bound, k - 2);
      assert !ReachesEnd(run, jit, k - 2);
      NextMultiple(k - 2, cb);
    }
    TotalIs(run.endLba - run.startLba, cb, k - 1);
  }

  lemma NextMultiple(n: nat, b: nat)
    ensures (n + 1) * b == n * b + b
  {
  }

  lemma TotalIs(blocks: nat, cb: nat, n: nat)
    requires blocks >= 1 && cb >= 1 && n * cb < blocks <= n * cb + cb
    ensures (blocks + cb - 1) / cb == n + 1
  {
    NextMultiple(n, cb);
    Tiling.DivUp(blocks, cb, n);
  }

  /** The end of the segment lies behind the full chunks. */
  lemma {:induction false} EndIsBehind(run: Run, jit: Jit, bound: nat, k: nat)
    requires ValidRun(run) && Bounded(jit, bound) && 2 * bound < 1176 && LbaAt(run, jit, k) < run.endLba
    ensures Due(run, jit, k) < Bytes(run.endLba) + jit(k)
  {
    SteadyLba(run, jit, bound, k);
    ChunkBlocks(run.z, k);
  }

  lemma {:induction false} FullIsEnding(run: Run, disc: Disc, jit: Jit, k: nat, i: nat)
    requires Due(run, jit, k) <= Bytes(run.endLba) + jit(k) && i < k
    ensures DiscBytes(disc, Due(run, jit, i), run.z.chunkBytes)
            == DiscBytes(Ending(run, disc, jit, k), Due(run, jit, i), run.z.chunkBytes)
  {
    assert Due(run, jit, i) + run.z.chunkBytes <= Due(run, jit, k) by {
      EarlierDue(run, jit, i, k);
    }
  }

  lemma EarlierDue(run: Run, jit: Jit, i: nat, k: nat)
    requires i < k
    ensures Due(run, jit, i) + run.z.chunkBytes <= Due(run, jit, k)
  {
    OneLess(i, k, run.z.chunkBytes);
  }

  lemma OneLess(i: nat, k: nat, b: nat)
    requires i < k
    ensures i * b + b <= k * b
  {
    assert k * b == i * b + b + (k - i - 1) * b;
  }

  /** With such a drive a jitter-corrected run makes exactly as many chunks as the
      segment needs, and all of them together, the last included, are the disc
      from where the first read began up to the end, with silence behind. */
  lemma {:induction false} SteadyRunIsSegment(run: Run, disc: Disc, jit: Jit, bound: nat, s: ReadState, n: nat)
    returns (r: ReadState)
    requires Setting(run, disc, jit, bound) && 2 * bound < 1176 && Fresh(run, s) && n >= run.endLba - run.startLba
    requires Tiling.Total(run) > 1 ==> Alignable(run, disc, jit, Tiling.Total(run) - 1)
    ensures WholeRun(run, s, n) == Some(r) && r.done && |r.placed| == r.k == Tiling.Total(run) >= 1
    ensures Concat(r.placed)
            == DiscBytes(Ending(run, disc, jit, r.k - 1), Bytes(run.startLba) + jit(0), Length(run, |r.placed|))
  {
    r := SteadyLastFits(run, disc, jit, bound, s, n);
    GoodIsEnding(run, disc, jit, bound, s, n, r);
    EndingJoins(run, disc, jit, r, r.placed);
  }

  lemma {:induction false} SteadyLastFits(run: Run, disc: Disc, jit: Jit, bound: nat, s: ReadState, n: nat)
    returns (r: ReadState)
    requires Setting(run, disc, jit, bound) && 2 * bound < 1176 && Fresh(run, s) && n >= run.endLba - run.startLba
    requires Tiling.Total(run) > 1 ==> Alignable(run, disc, jit, Tiling.Total(run) - 1)
    ensures WholeRun(run, s, n) == Some(r) && r.done && |r.placed| == r.k == Tiling.Total(run) >= 1
    ensures LastFits(run, disc, jit, r.k - 1)
  {
    r := RunCoversSegment(run, disc, jit, bound, s, n);
    EndFits(run, disc, jit, bound, r.k);
  }

  lemma {:induction false} EndFits(run: Run, disc: Disc, jit: Jit, bound: nat, k: nat)
    requires ValidRun(run) && Bounded(jit, bound) && 2 * bound < 1176 && Ends(run, jit, k, true)
    requires Tiling.Total(run) > 1 ==> Alignable(run, disc, jit, Tiling.Total(run) - 1)
    ensures k == Tiling.Total(run) && LastFits(run, disc, jit, k - 1)
  {
    SteadyEnd(run, jit, bound, k);
  }

  /** Chunk i is the disc as the run delivers it in the end. */
  ghost predicate IsEnding(run: Run, disc: Disc, jit: Jit, r: ReadState, i: nat)
    requires i < |r.placed| == r.k
  {
    r.placed[i] == DiscBytes(Ending(run, disc, jit, r.k - 1), Due(run, jit, i), run.z.chunkBytes)
  }

  lemma {:induction false} GoodIsEnding(run: Run, disc: Disc, jit: Jit, bound: nat, s: ReadState, n: nat, r: ReadState)
    requires Setting(run, disc, jit, bound) && 2 * bound < 1176 && Fresh(run, s) && WholeRun(run, s, n) == Some(r)
    requires r.done && |r.placed| == r.k >= 1 && LastFits(run, disc, jit, r.k - 1)
    ensures forall i :: 0 <= i < r.k ==> IsEnding(run, disc, jit, r, i)
  {
    var u := RunKeepsGood(run, disc, jit, bound, s, n);
    AllAreEnding(run, disc, jit, bound, r);
  }

  lemma {:induction false} EndingJoins(run: Run, disc: Disc, jit: Jit, r: ReadState, chunks: seq<Chunk>)
    requires |r.placed| == r.k >= 1 && chunks <= r.placed && forall i :: 0 <= i < r.k ==> IsEnding(run, disc, jit, r, i)
    ensures Concat(chunks)
            == DiscBytes(Ending(run, disc, jit, r.k - 1), Bytes(run.startLba) + jit(0), Length(run, |chunks|))
  {
    var end := Ending(run, disc, jit, r.k - 1);
    forall i | 0 <= i < |chunks| ensures chunks[i] == DiscBytes(end, Due(run, jit, i), run.z.chunkBytes) {
      assert IsEnding(run, disc, jit, r, i);
    }
    ConcatFromStart(run, end, jit, chunks);
  }

  lemma {:induction false} AllAreEnding(run: Run, disc: Disc, jit: Jit, bound: nat, r: ReadState)
    requires ValidRun(run) && Bounded(jit, bound) && 2 * bound < 1176 && ValidState(run, r)
    requires Good(run, disc, jit, true, r) && r.done && r.k >= 1 && LastFits(run, disc, jit, r.k - 1)
    ensures forall i :: 0 <= i < r.k ==> IsEnding(run, disc, jit, r, i)
  {
    EndIsBehind(run, jit, bound, r.k - 1);
    forall i | 0 <= i < r.k ensures IsEnding(run, disc, jit, r, i) {
      if i < r.k - 1 {
        FullIsEnding(run, disc, jit, r.k - 1, i);
      }
    }
  }

  // ---- from the drive to the writer ----

  /** The protocol carries the chunks of this run. */
  ghost predicate Carries(c: Protocol.Config, run: Run, r: ReadState) {
    Protocol.ValidConfig(c) && c.bufferChunks == run.z.bufferChunks && c.plan == r.placed
  }

  lemma {:induction false} FullAreDisc(run: Run, disc: Disc, jit: Jit, r: ReadState, written: seq<Chunk>, w: nat)
    requires ValidRun(run) && ValidState(run, r) && Good(run, disc, jit, true, r)
    requires written <= r.placed && w <= |written| && w <= |FullChunks(r)|
    ensures Concat(written[..w]) == DiscBytes(disc, Bytes(run.startLba) + jit(0), Length(run, w))
  {
    assert forall i :: 0 <= i < w ==> written[..w][i] == r.placed[i];
    ConcatFromStart(run, disc, jit, written[..w]);
  }

  /** At every moment of every schedule, what the writer has written is one
      contiguous run of disc bytes, up to the chunk that reaches the end. */
  lemma {:induction false} WriterGetsDisc(c: Protocol.Config, run: Run, disc: Disc, jit: Jit, bound: nat, s: ReadState,
                                          n: nat, r: ReadState, t: Protocol.State, w: nat)
    requires Setting(run, disc, jit, bound) && Fresh(run, s) && WholeRun(run, s, n) == Some(r) && Carries(c, run, r)
    requires |r.placed| == r.k && Protocol.Reachable(c, t) && w == Min(|t.written|, |FullChunks(r)|)
    ensures Concat(t.written[..w]) == DiscBytes(disc, Bytes(run.startLba) + jit(0), Length(run, w))
  {
    var u := RunKeepsGood(run, disc, jit, bound, s, n);
    assert u == r;
    FifoRefinement.IndicesAgree(c, t);
    FullAreDisc(run, disc, jit, r, t.written, w);
  }

  /** A run that the writer ended by draining has written all full chunks, even if
      it lost the last chunk. */
  lemma {:induction false} DrainedRunWritesDisc(c: Protocol.Config, run: Run, disc: Disc, jit: Jit, bound: nat,
                                                s: ReadState, n: nat, r: ReadState, t: Protocol.State)
    requires Setting(run, disc, jit, bound) && Fresh(run, s) && n >= run.endLba - run.startLba
    requires WholeRun(run, s, n) == Some(r) && Carries(c, run, r)
    requires Protocol.Reachable(c, t) && t.cause == Protocol.Drained
    ensures |r.placed| == r.k && Covers(run, bound, |FullChunks(r)|)
    ensures |FullChunks(r)| <= |t.written| <= |FullChunks(r)| + 1
    ensures Concat(t.written[..|FullChunks(r)|])
            == DiscBytes(disc, Bytes(run.startLba) + jit(0), Length(run, |FullChunks(r)|))
    ensures var full := |FullChunks(r)|;
            |t.written| == full + 1 && LastFits(run, disc, jit, full) ==>
              t.written[full] == LastChunk(run, disc, jit, full)
  {
    var u := RunCoversSegment(run, disc, jit, bound, s, n);
    Completion.DrainedRun(c, t);
    FifoRefinement.IndicesAgree(c, t);
    WriterGetsDisc(c, run, disc, jit, bound, s, n, r, t, |FullChunks(r)|);
  }
  /** The same with such a drive: all that the writer has written is the disc up to
      the end of the segment with silence behind, only the last chunk can be missing. */
  lemma {:induction false} DrainedSteadyRun(c: Protocol.Config, run: Run, disc: Disc, jit: Jit, bound: nat,
                                            s: ReadState, n: nat, r: ReadState, t: Protocol.State)
    requires Setting(run, disc, jit, bound) && 2 * bound < 1176 && Fresh(run, s) && n >= run.endLba - run.startLba
    requires Tiling.Total(run) > 1 ==> Alignable(run, disc, jit, Tiling.Total(run) - 1)
    requires WholeRun(run, s, n) == Some(r) && Carries(c, run, r)
    requires Protocol.Reachable(c, t) && t.cause == Protocol.Drained
    ensures |r.placed| == r.k == Tiling.Total(run) >= 1 && Tiling.Total(run) - 1 <= |t.written| <= Tiling.Total(run)
    ensures Concat(t.written)
            == DiscBytes(Ending(run, disc, jit, r.k - 1), Bytes(run.startLba) + jit(0), Length(run, |t.written|))
  {
    Completion.DrainedRun(c, t);
    FifoRefinement.IndicesAgree(c, t);
    var v := SteadyLastFits(run, disc, jit, bound, s, n);
    GoodIsEnding(run, disc, jit, bound, s, n, r);
    EndingJoins(run, disc, jit, r, t.written);
  }
}

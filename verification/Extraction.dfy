/** From the drive to the track files: reader, ring, writer and files together. */
module Extraction {
  import opened Basics
  import opened ReaderSpec
  import opened Jitter
  import opened Drift
  import opened AudioFormats
  import opened Samples
  import opened Outgoing
  import opened Stdio
  import opened GenFile
  import opened Shelves
  import opened ReadBack
  import Seamless
  import Tiling
  import Coverage
  import Protocol
  import FifoRefinement
  import Tracks
  import TrackWriter

  /** Where volume and routing stand while each chunk goes out. */
  type Controls = nat -> Control

  predicate WholeFrames(chunks: seq<Chunk>) {
    forall k :: 0 <= k < |chunks| ==> |chunks[k]| % 4 == 0
  }

  function Outputs(fmt: Format, controls: Controls, chunks: seq<Chunk>): (r: seq<seq<Byte>>)
    requires WholeFrames(chunks)
    ensures |r| == |chunks|
    ensures forall k :: 0 <= k < |chunks| ==> r[k] == Output(controls(k), BigEndian(fmt), chunks[k])
  {
    seq(|chunks|, k requires 0 <= k < |chunks| => Output(controls(k), BigEndian(fmt), chunks[k]))
  }

  /** How the writer is set up; `stale` and `earlier` are the track index and the
      files that are there before the run. */
  datatype Setup = Setup(fmt: Format, controls: Controls, play: Tracks.Play, stale: nat, earlier: map<nat, seq<Byte>>)

  predicate ValidSetup(u: Setup, run: Run) {
    && Tracks.ValidPlay(u.play) && u.play.startLba == run.startLba && u.play.chunkBlocks == run.z.chunkBlocks
    && u.stale < Tracks.TrackCount(u.play) && Tracks.Settled(u.play, u.stale)
    && HeaderLen(u.fmt) < WORD32
  }

  /** The track files on the disk after the writer's run, all closed, over these
      chunks; `well` says that every close succeeded and can be relied on.  This is
      what TrackWriter.Splitter.Record ensures for a run without a write error. */
  ghost predicate Recorded(u: Setup, chunks: seq<Chunk>, well: bool, disk: map<nat, seq<Byte>>)
    requires Tracks.ValidPlay(u.play) && WholeFrames(chunks)
  {
    OnDisk(u.fmt, well, u.earlier, Tracks.Indices(u.play, u.stale, |chunks|, false),
           Outputs(u.fmt, u.controls, chunks), disk)
  }

  /** A reader of the track files, each in the byte order of its format, finds every
      processed frame of every chunk in its place. */
  ghost predicate FilesRead(u: Setup, chunks: seq<Chunk>, idx: seq<nat>, pieces: seq<seq<Byte>>,
                            disk: map<nat, seq<Byte>>)
    requires |idx| == |pieces| == |chunks| && WholeFrames(chunks)
  {
    forall k, i :: 0 <= k < |chunks| && 0 <= i < |chunks[k]| / 4 && idx[k] in disk ==>
      FrameFound(Read(u.fmt, disk[idx[k]]), u.fmt, u.controls(k), chunks[k], i, idx, pieces, k)
  }

  /** The files on the disk hold these chunks: that of each track its part behind the
      header, whole and readable if all went well, and then frame by frame with the
      processed frames of its chunks; other files as before; the parts in the order
      of the tracks are the processed chunks one after the other. */
  ghost predicate FilesHold(u: Setup, run: Run, chunks: seq<Chunk>, well: bool, disk: map<nat, seq<Byte>>)
    requires ValidSetup(u, run) && WholeFrames(chunks)
  {
    var idx := Tracks.Indices(u.play, u.stale, |chunks|, false);
    var pieces := Outputs(u.fmt, u.controls, chunks);
    && Tracks.Joined(idx, pieces, Tracks.TrackCount(u.play)) == Concat(pieces)
    && (forall k, i {:trigger FrameOf(chunks[k], i)} :: 0 <= k < |chunks| && 0 <= i < |chunks[k]| / 4 ==>
          Frame(SampleAt(pieces[k], 2 * i, BigEndian(u.fmt)), SampleAt(pieces[k], 2 * i + 1, BigEndian(u.fmt)))
          == Process(u.controls(k).routing, u.controls(k).att, FrameOf(chunks[k], i)))
    && (forall f :: f in idx ==>
          && f in disk && Tail(u.fmt, disk[f]) <= Tracks.Part(idx, pieces, f)
          && (well ==> ReadsAs(u.fmt, disk[f], Tracks.Part(idx, pieces, f))))
    && (well ==> FilesRead(u, chunks, idx, pieces, disk))
    && (forall f :: f !in idx ==> Untouched(u.earlier, disk, f))
  }

  lemma {:induction false} FilesHoldChunks(u: Setup, run: Run, chunks: seq<Chunk>, well: bool,
                                           disk: map<nat, seq<Byte>>)
    requires ValidSetup(u, run) && WholeFrames(chunks) && Recorded(u, chunks, well, disk)
    ensures FilesHold(u, run, chunks, well, disk)
  {
    var idx := Tracks.Indices(u.play, u.stale, |chunks|, false);
    var pieces := Outputs(u.fmt, u.controls, chunks);
    TrackWriter.FilesAreTheStream(u.play, u.stale, map[], pieces, pieces, true, false);
    Tracks.SettledRises(u.play, u.stale, |chunks|, false);
    Tracks.RisingNeverReturns(idx);
    forall k, i | 0 <= k < |chunks| && 0 <= i < |chunks[k]| / 4
      ensures Frame(SampleAt(pieces[k], 2 * i, BigEndian(u.fmt)), SampleAt(pieces[k], 2 * i + 1, BigEndian(u.fmt)))
              == Process(u.controls(k).routing, u.controls(k).att, FrameOf(chunks[k], i))
    {
      OutputFrame(u.controls(k), BigEndian(u.fmt), chunks[k], i);
    }
    forall f | f in idx ensures well ==> ReadsAs(u.fmt, disk[f], Tracks.Part(idx, pieces, f)) {
      FinishedReadsIff(u.fmt, Tracks.Part(idx, pieces, f));
    }
    if well {
      AllAreRead(u, chunks, idx, disk);
    }
  }

  lemma {:induction false} AllAreRead(u: Setup, chunks: seq<Chunk>, idx: seq<nat>, disk: map<nat, seq<Byte>>)
    requires |idx| == |chunks| && WholeFrames(chunks) && HeaderLen(u.fmt) < WORD32
    requires forall f :: f in idx ==>
               f in disk && ReadsAs(u.fmt, disk[f], Tracks.Part(idx, Outputs(u.fmt, u.controls, chunks), f))
    ensures FilesRead(u, chunks, idx, Outputs(u.fmt, u.controls, chunks), disk)
  {
    var pieces := Outputs(u.fmt, u.controls, chunks);
    forall k, i | 0 <= k < |chunks| && 0 <= i < |chunks[k]| / 4 && idx[k] in disk
      ensures FrameFound(Read(u.fmt, disk[idx[k]]), u.fmt, u.controls(k), chunks[k], i, idx, pieces, k)
    {
      assert idx[k] in idx;
      FrameIsFound(Read(u.fmt, disk[idx[k]]), u.fmt, u.controls(k), chunks[k], i, idx, pieces, k);
    }
  }

  /** The writer's run from the first open to the last close, without a stop, on the
      systems of its files: without errors all is recorded, and success is to be
      believed where every close can be relied on. */
  method RecordChunks(u: Setup, run: Run, systems: nat -> System, chunks: seq<Chunk>)
    returns (done: bool, disk: map<nat, seq<Byte>>)
    requires ValidRun(run) && ValidSetup(u, run) && OneLength(run, chunks) && forall k :: GoodSystem(systems(k))
    ensures WholeFrames(chunks) && ((forall k :: NeverFails(systems(k))) ==> done)
    ensures done ==> FilesHold(u, run, chunks, forall k :: Honest(u.fmt, systems(k)), disk)
  {
    var pieces := Outputs(u.fmt, u.controls, chunks);
    var w := new TrackWriter.Splitter(u.play, u.fmt, systems, u.stale, u.earlier);
    ghost var accepted;
    done, accepted := w.Record(pieces, false);
    disk := w.disk;
    if done {
      assert Recorded(u, chunks, w.AllHonest(), disk);
      FilesHoldChunks(u, run, chunks, w.AllHonest(), disk);
    }
  }

  /** With the volume up, no routing and WAV files, the chunks go out as they are. */
  lemma {:induction false} PlainFiles(u: Setup, chunks: seq<Chunk>)
    requires WholeFrames(chunks) && u.fmt.Wav?
    requires forall k :: u.controls(k).routing == Normal && u.controls(k).att >= 100
    ensures Outputs(u.fmt, u.controls, chunks) == chunks
  {
    forall k | 0 <= k < |chunks| ensures Outputs(u.fmt, u.controls, chunks)[k] == chunks[k] {
      PlainOutput(u.controls(k), chunks[k]);
    }
  }

  // ---- chunks are of one length ----

  predicate OneLength(run: Run, chunks: seq<Chunk>) {
    forall k :: 0 <= k < |chunks| ==> |chunks[k]| == run.z.chunkBytes
  }

  predicate EndsInOneLength(run: Run, r: Option<ReadState>) {
    r.Some? ==> OneLength(run, r.value.placed)
  }

  lemma {:induction false} ReadLength(run: Run, cont: bool, s: ReadState)
    requires ValidRun(run) && ValidState(run, s) && OneLength(run, s.placed)
    ensures EndsInOneLength(run, ReadChunk(run, cont, s))
  {
    var r := ReadChunk(run, cont, s);
    if r.Some? {
      var k := |s.placed|;
      assert r.value.placed == s.placed + [r.value.placed[k]] && |r.value.placed[k]| == run.z.chunkBytes;
    }
  }

  lemma {:induction false} FillPassLength(run: Run, s: ReadState, i: nat) returns (r: Option<ReadState>)
    requires ValidRun(run) && ValidState(run, s) && i < run.z.bufferChunks && OneLength(run, s.placed) && !s.done
    ensures EndsInOneLength(run, r) && (r.Some? ==> ValidState(run, r.value))
    ensures FillBuf(run, s, i) == if r.None? then None else FillBuf(run, r.value, i + 1)
  {
    r := ReadChunk(run, false, s);
    FillOnce(run, s, i, r);
    ReadLength(run, false, s);
  }

  lemma {:induction false} FillLengths(run: Run, s: ReadState, i: nat) returns (r: Option<ReadState>)
    requires ValidRun(run) && ValidState(run, s) && i <= run.z.bufferChunks && OneLength(run, s.placed)
    ensures r == FillBuf(run, s, i) && EndsInOneLength(run, r)
    decreases run.z.bufferChunks - i
  {
    if i < run.z.bufferChunks && !s.done {
      r := FillPassLength(run, s, i);
      if r.Some? {
        r := FillLengths(run, r.value, i + 1);
      }
    } else {
      FillEnds(run, s, i);
      r := Some(s);
    }
  }

  lemma {:induction false} ContLengths(run: Run, s: ReadState, n: nat) returns (r: Option<ReadState>)
    requires ValidRun(run) && ValidState(run, s) && OneLength(run, s.placed)
    ensures r == ReadCont(run, s, n) && EndsInOneLength(run, r)
    decreases n
  {
    if n > 0 && !s.done {
      r := ReadChunk(run, true, s);
      ContOnce(run, s, n, r);
      ReadLength(run, true, s);
      if r.Some? {
        r := ContLengths(run, r.value, n - 1);
      }
    } else {
      r := Some(s);
    }
  }

  lemma {:induction false} RunLengths(run: Run, s: ReadState, n: nat)
    requires ValidRun(run) && Fresh(run, s)
    ensures EndsInOneLength(run, WholeRun(run, s, n))
  {
    var t := FillLengths(run, s, 0);
    if t.Some? {
      var r := ContLengths(run, HandOver(run, t.value), n);
    }
  }

  /** What the writer has written consists of whole frames. */
  lemma {:induction false} WrittenFrames(c: Protocol.Config, run: Run, s: ReadState, n: nat, t: Protocol.State)
    requires ValidRun(run) && Fresh(run, s) && WholeRun(run, s, n).Some? && c.plan == WholeRun(run, s, n).value.placed
    requires t.written <= c.plan
    ensures WholeFrames(t.written)
  {
    RunLengths(run, s, n);
    assert forall k :: 0 <= k < |t.written| ==> t.written[k] == c.plan[k];
  }

  // ---- whole runs ----

  /** Without jitter correction: whatever the schedule, a run that the writer ended
      by draining has put the requested sectors, padded with zeros, into the track
      files, unless the last chunk was lost, which needs more chunks than slots. */
  lemma {:induction false} TrackFilesHoldTheSegment(c: Protocol.Config, run: Run, disc: Disc, s: ReadState, n: nat,
                                                    t: Protocol.State, u: Setup, well: bool, disk: map<nat, seq<Byte>>)
    requires Tiling.ExactSetting(run, disc) && Fresh(run, s) && Tiling.Carries(c, run, s, n)
    requires Protocol.Reachable(c, t) && t.cause == Protocol.Drained && ValidSetup(u, run)
    requires WholeFrames(t.written) ==> Recorded(u, t.written, well, disk)
    ensures WholeFrames(t.written) && FilesHold(u, run, t.written, well, disk)
    ensures var total := Tiling.Total(run);
            && (|t.written| == total || (|t.written| == total - 1 && total > run.z.bufferChunks))
            && Concat(t.written)
               == if |t.written| == total then Tiling.Segment(run, disc) + Tiling.Zeros(Tiling.Padding(run))
                  else DiscBytes(disc, Bytes(run.startLba), Length(run, |t.written|))
  {
    Tiling.DrainedRunWritesSegment(c, run, disc, s, n, t);
    FifoRefinement.IndicesAgree(c, t);
    WrittenFrames(c, run, s, n, t);
    FilesHoldChunks(u, run, t.written, well, disk);
  }

  /** With jitter correction: the track files begin with one contiguous run of disc
      bytes that covers the segment but for the jitter and a chunk at its end,
      processed, even if the last chunk was lost. */
  lemma {:induction false} TrackFilesHoldTheDisc(c: Protocol.Config, run: Run, disc: Disc, jit: Jit, bound: nat,
                                                 s: ReadState, n: nat, r: ReadState, t: Protocol.State, u: Setup,
                                                 well: bool, disk: map<nat, seq<Byte>>)
    requires Seamless.Setting(run, disc, jit, bound) && Fresh(run, s) && n >= run.endLba - run.startLba
    requires WholeRun(run, s, n) == Some(r) && Coverage.Carries(c, run, r)
    requires Protocol.Reachable(c, t) && t.cause == Protocol.Drained && ValidSetup(u, run)
    requires WholeFrames(t.written) ==> Recorded(u, t.written, well, disk)
    ensures WholeFrames(t.written) && FilesHold(u, run, t.written, well, disk)
    ensures |r.placed| == r.k && |Seamless.FullChunks(r)| <= |t.written| <= |Seamless.FullChunks(r)| + 1
    ensures var full := |Seamless.FullChunks(r)|;
            && Coverage.Covers(run, bound, full)
            && Concat(t.written[..full]) == DiscBytes(disc, Bytes(run.startLba) + jit(0), Length(run, full))
            && (|t.written| == full + 1 && Seamless.LastFits(run, disc, jit, full) ==>
                  t.written[full] == Seamless.LastChunk(run, disc, jit, full))
  {
    Coverage.DrainedRunWritesDisc(c, run, disc, jit, bound, s, n, r, t);
    FifoRefinement.IndicesAgree(c, t);
    WrittenFrames(c, run, s, n, t);
    FilesHoldChunks(u, run, t.written, well, disk);
  }
}

/** A disc and drives to which the theorem about seamless runs applies. */
module Example {
  import opened Basics
  import opened Layout
  import opened Jitter
  import opened ReaderSpec
  import opened Drift
  import opened Seamless
  import opened AudioFormats
  import Semaphores
  import Protocol
  import Completion
  import Coverage
  import Tiling
  import Tracks
  import Extraction
  import Shelves

  /** Every sample carries its own number, in the range of a window. */
  function Numbered(): Disc {
    x => (if x % 2 == 0 then x / 2 % 251 else x / 2 / 251 % 256) as Byte
  }

  /** A drive that starts read k `jit(k)` bytes away from where it should. */
  function Drive(disc: Disc, jit: Jit): Device {
    (k: nat, lba: int, n: int, attempt: nat) => Some(Delivered(disc, jit, k, lba, n))
  }

  lemma {:induction false} NumbersDiffer(a: int, b: int)
    requires a < b <= a + 6000
    ensures a % 251 != b % 251 || a / 251 % 256 != b / 251 % 256
  {
    if a % 251 == b % 251 {
      var m := b / 251 - a / 251;
      assert b - a == 251 * m;
      assert 1 <= m <= 23;
      WrapsOnce(a / 251, m);
    }
  }

  lemma WrapsOnce(q: int, m: int)
    requires 1 <= m <= 23
    ensures q % 256 != (q + m) % 256
  {
  }

  /** Different even places of a window show different bytes. */
  lemma {:induction false} NoLookAlike(x: int, y: int, n: nat)
    requires x % 2 == 0 && y % 2 == 0 && x < y <= x + 12000 && n >= 2
    ensures DiscBytes(Numbered(), x, n) != DiscBytes(Numbered(), y, n)
  {
    NumbersDiffer(x / 2, y / 2);
    var a, b := DiscBytes(Numbered(), x, n), DiscBytes(Numbered(), y, n);
    assert a[0] == (x / 2 % 251) as Byte && a[1] == (x / 2 / 251 % 256) as Byte;
    assert b[0] == (y / 2 % 251) as Byte && b[1] == (y / 2 / 251 % 256) as Byte;
  }

  lemma {:induction false} NoneEarlier(z: Sizes, due: int, got: int)
    requires due % 2 == 0 && (got - due) % 2 == 0 && got - due <= 6000 && z.searchBytes <= 6000 && z.strLength >= 2
    ensures NoEarlierMatch(z, Numbered(), due, got)
  {
    forall x | due - z.searchBytes <= x < got && (x - due) % 2 == 0
      ensures DiscBytes(Numbered(), x, z.strLength) != DiscBytes(Numbered(), got, z.strLength)
    {
      NoLookAlike(x, got, z.strLength);
    }
  }

  lemma {:induction false} NumberedIsAlignable(run: Run, jit: Jit, bound: nat, k: nat)
    requires ValidRun(run) && run.jitter && Bounded(jit, bound) && WholeSamples(jit)
    requires 2 * bound + 1176 <= run.z.chunkBytes && 2 * bound + 1176 <= run.z.searchBytes - run.z.strLength
    ensures Alignable(run, Numbered(), jit, k)
  {
    DriftIsBounded(run, jit, bound, k);
    DisplacementIsEven(run, jit, k);
    DueIsEven(run, jit, k);
    NoneEarlier(run.z, Due(run, jit, k), Due(run, jit, k) + Idx(run, jit, k));
  }

  /** The conditions of the theorem can all be met: for all sizes with chunks of at
      least two blocks, every segment and every jitter within the bound. */
  lemma {:induction false} NumberedDiscMeetsSetting(run: Run, jit: Jit, bound: nat)
    requires Consistent(run.z, true) && run.jitter && run.z.chunkBlocks >= 2 && run.startLba < run.endLba
    requires run.dev == Drive(Numbered(), jit) && Bounded(jit, bound) && WholeSamples(jit)
    requires 2 * bound + 1176 <= run.z.chunkBytes && 2 * bound + 1176 <= run.z.searchBytes - run.z.strLength
    ensures Setting(run, Numbered(), jit, bound)
  {
    assert GoodDevice(run.dev);
    assert Displaced(run.dev, Numbered(), jit);
    forall k | k >= 1 && !LastRead(run, LbaAt(run, jit, k)) ensures Alignable(run, Numbered(), jit, k) {
      NumberedIsAlignable(run, jit, bound, k);
    }
  }

  // ---- whole runs to which the theorems about the track files apply ----

  function FreshState(z: Sizes, startLba: int): ReadState {
    ReadState(seq(MemLen(z), _ => 0), seq(z.bufferChunks, _ => []), 0, startLba, false, Errors(0, -1), 0, [])
  }

  /** Any plan longer than the ring has a schedule that ends by draining. */
  lemma {:induction false} DrainedStateExists(c: Protocol.Config) returns (t: Protocol.State)
    requires Protocol.ValidConfig(c) && |c.plan| > c.bufferChunks
    ensures Protocol.Reachable(c, t) && t.cause == Protocol.Drained
  {
    var s := Protocol.Start(c, 1, seq(c.bufferChunks, _ => []), []);
    t := Completion.LastChunkCanBeLost(c, s);
  }

  /** One track from the start to the end of the segment. */
  lemma {:induction false} SetupExists(run: Run, fmt: Format, controls: Extraction.Controls)
    returns (u: Extraction.Setup)
    requires ValidRun(run) && HeaderLen(fmt) < WORD32
    ensures Extraction.ValidSetup(u, run) && u.fmt == fmt && u.controls == controls
  {
    u := Extraction.Setup(fmt, controls, Tracks.Play([run.startLba, run.endLba], run.startLba, run.z.chunkBlocks),
                          0, map[]);
  }

  /** Files on the disk as a writer that meets no error leaves them. */
  lemma {:induction false} RecordedExists(u: Extraction.Setup, run: Run, chunks: seq<Chunk>)
    returns (disk: map<nat, seq<Byte>>)
    requires Extraction.ValidSetup(u, run) && Extraction.WholeFrames(chunks)
    ensures Extraction.Recorded(u, chunks, true, disk)
  {
    var idx := Tracks.Indices(u.play, u.stale, |chunks|, false);
    var pieces := Extraction.Outputs(u.fmt, u.controls, chunks);
    disk := WithFinished(u.fmt, u.earlier, idx, pieces);
  }

  lemma {:induction false} WithFinished(fmt: Format, before: map<nat, seq<Byte>>, idx: seq<nat>, pieces: seq<seq<Byte>>)
    returns (disk: map<nat, seq<Byte>>)
    requires |idx| == |pieces|
    ensures Shelves.OnDisk(fmt, true, before, idx, pieces, disk)
  {
    disk := before + map f | f in idx :: Finished(fmt, Tracks.Part(idx, pieces, f));
    forall f | f in idx ensures Shelves.Saved(fmt, true, disk[f], Tracks.Part(idx, pieces, f)) {
      assert Finished(fmt, Tracks.Part(idx, pieces, f))[HeaderLen(fmt)..] == Tracks.Part(idx, pieces, f);
    }
  }

  /** Without jitter correction: any disc, sizes and segment longer than the ring. */
  lemma {:induction false} SegmentRunExists(z: Sizes, disc: Disc, startLba: int, endLba: int, b: Semaphores.Backend)
    returns (c: Protocol.Config, run: Run, s: ReadState, n: nat, t: Protocol.State)
    requires Consistent(z, false) && startLba < endLba && endLba - startLba > z.bufferBlocks
    requires Semaphores.ValidBackend(b)
    ensures run.z == z && Tiling.ExactSetting(run, disc) && Fresh(run, s) && Tiling.Carries(c, run, s, n)
    ensures Protocol.Reachable(c, t) && t.cause == Protocol.Drained
  {
    run := StillRun(z, disc, startLba, endLba);
    s := FreshState(z, startLba);
    n := Tiling.Total(run);
    var r := Tiling.WholeRunIsSegment(run, disc, s, n);
    Tiling.DivUp(endLba - startLba, z.chunkBlocks, z.bufferChunks);
    c := Protocol.Config(b, z.bufferChunks, r.placed);
    t := DrainedStateExists(c);
  }

  lemma {:induction false} StillRun(z: Sizes, disc: Disc, startLba: int, endLba: int) returns (run: Run)
    requires Consistent(z, false) && startLba < endLba
    ensures run.z == z && run.startLba == startLba && run.endLba == endLba && Tiling.ExactSetting(run, disc)
  {
    run := Run(z, false, startLba, endLba, Drive(disc, Still()));
    assert GoodDevice(run.dev);
    assert Displaced(run.dev, disc, Still());
  }

  /** With jitter correction: the disc of numbered samples, and a segment that is
      longer than the ring by at least two chunks and the slack. */
  lemma {:induction false} DiscRunExists(run: Run, jit: Jit, bound: nat, b: Semaphores.Backend)
    returns (c: Protocol.Config, s: ReadState, n: nat, r: ReadState, t: Protocol.State)
    requires Consistent(run.z, true) && run.jitter && run.z.chunkBlocks >= 2 && run.startLba < run.endLba
    requires run.dev == Drive(Numbered(), jit) && Bounded(jit, bound) && WholeSamples(jit)
    requires 2 * bound + 1176 <= run.z.chunkBytes && 2 * bound + 1176 <= run.z.searchBytes - run.z.strLength
    requires Semaphores.ValidBackend(b)
    requires Coverage.SegmentLen(run) >= run.z.bufferBytes + 2 * run.z.chunkBytes + Coverage.Slack(bound)
    ensures Setting(run, Numbered(), jit, bound) && Fresh(run, s) && n >= run.endLba - run.startLba
    ensures WholeRun(run, s, n) == Some(r) && Coverage.Carries(c, run, r)
    ensures Protocol.Reachable(c, t) && t.cause == Protocol.Drained
  {
    NumberedDiscMeetsSetting(run, jit, bound);
    s, n := FreshState(run.z, run.startLba), run.endLba - run.startLba;
    r := Coverage.RunCoversSegment(run, Numbered(), jit, bound, s, n);
    MoreThanRing(run, bound, |FullChunks(r)|);
    c := Protocol.Config(b, run.z.bufferChunks, r.placed);
    t := DrainedStateExists(c);
  }

  lemma {:induction false} MoreThanRing(run: Run, bound: nat, full: nat)
    requires ValidRun(run) && Coverage.Covers(run, bound, full)
    requires Coverage.SegmentLen(run) >= run.z.bufferBytes + 2 * run.z.chunkBytes + Coverage.Slack(bound)
    ensures full > run.z.bufferChunks
  {
    var d := full - run.z.bufferChunks;
    assert Length(run, full) == run.z.bufferBytes + d * run.z.chunkBytes;
    Tiling.Times(d, run.z.chunkBytes, d * run.z.chunkBytes);
  }
}

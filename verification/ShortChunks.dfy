/** Which sizes of chunks make every run seamless: those of at least two blocks. */
module ShortChunks {
  import opened Basics
  import opened Layout
  import opened Jitter
  import opened ReaderSpec
  import opened Drift
  import opened Seamless
  import opened Example

  /** All chunks before the one that reaches the end join to a run of disc bytes. */
  ghost predicate SeamlessRun(run: Run, disc: Disc, jit: Jit, s: ReadState, n: nat)
    requires ValidRun(run) && Fresh(run, s)
  {
    match WholeRun(run, s, n)
    case None => false
    case Some(r) =>
      Concat(FullChunks(r)) == DiscBytes(disc, Bytes(run.startLba) + jit(0), Length(run, |FullChunks(r)|))
  }

  /** Every run with these sizes under the conditions of the theorem is seamless:
      whatever the fresh memory, the disc, the drive and the segment. */
  ghost predicate AlwaysSeamless(z: Sizes) {
    forall run: Run, disc, jit, bound, s, n ::
      run.z == z && Conditions(run, disc, jit, bound) && Fresh(run, s) ==> SeamlessRun(run, disc, jit, s, n)
  }

  // ---- a run with chunks of one block that fails ----

  /** Silence in the first block, two blocks of ones, twos from there on. */
  function Steps(): Disc {
    x => if x < 2352 then 0 else if x < 7056 then 1 else 2
  }

  function FailingRun(z: Sizes): Run {
    Run(z, true, 0, 3, Drive(Steps(), Still()))
  }

  /** The memory is full of ones when the run starts. */
  function OnesState(z: Sizes): ReadState {
    ReadState(seq(MemLen(z), _ => 1), seq(z.bufferChunks, _ => []), 0, 0, false, Errors(0, -1), 0, [])
  }

  lemma {:induction false} FailingRunMeetsConditions(z: Sizes)
    requires Consistent(z, true) && z.chunkBlocks == 1
    ensures Conditions(FailingRun(z), Steps(), Still(), 0)
  {
    var run := FailingRun(z);
    assert GoodDevice(run.dev);
    assert Displaced(run.dev, Steps(), Still());
    forall k | k >= 1 && !LastRead(run, LbaAt(run, Still(), k))
      ensures Alignable(run, Steps(), Still(), k)
    {
      SteadyLba(run, Still(), 0, k);
      assert k == 1 && Due(run, Still(), 1) == 2352 && Idx(run, Still(), 1) == 0;
      forall x | 2352 - z.searchBytes <= x < 2352 && (x - 2352) % 2 == 0
        ensures DiscBytes(Steps(), x, z.strLength) != DiscBytes(Steps(), 2352, z.strLength)
      {
        assert DiscBytes(Steps(), x, z.strLength)[0] == 0 && DiscBytes(Steps(), 2352, z.strLength)[0] == 1;
      }
    }
  }

  /** Read 0 leaves the ones in front of it in the overlap. */
  lemma {:induction false} FirstRead(z: Sizes) returns (s: ReadState)
    requires Consistent(z, true) && z.chunkBlocks == 1 && ValidRun(FailingRun(z))
    ensures ReadChunk(FailingRun(z), false, OnesState(z)) == Some(s) && ValidState(FailingRun(z), s)
    ensures s.k == 1 && s.lba == 1 && !s.done && |s.placed| == 1 && |s.placed[0]| == 2352
    ensures forall x :: 0 <= x < 2352 ==> s.mem[x] == 1
  {
    var run, s0 := FailingRun(z), OnesState(z);
    assert Displaced(run.dev, Steps(), Still());
    TransfersDeliver(run.dev, false, 0, 0, ReadAt(z), 5, s0.mem, s0.errors, Steps(), Still());
    var t := ReadFrames(run, false, s0);
    assert t.mem == Put(s0.mem, ReadAt(z), Delivered(Steps(), Still(), 0, 0, 5));
    var from := ReadAt(z) + z.chunkBytes - z.searchBytes;
    assert from + 2352 == ReadAt(z);
    s := Place(run, s0.(errors := t.errors), Aligned(ReadAt(z), t.mem));
    forall x | 0 <= x < 2352 ensures s.mem[x] == 1 {
      assert s.mem[x] == t.mem[from + x];
    }
  }

  /** Read 1 matches them, and skips the two blocks that are due. */
  lemma {:induction false} SecondRead(z: Sizes, cont: bool, s: ReadState) returns (t: ReadState)
    requires Consistent(z, true) && z.chunkBlocks == 1 && ValidRun(FailingRun(z)) && ValidState(FailingRun(z), s)
    requires s.k == 1 && s.lba == 1 && !s.done && forall x :: 0 <= x < 2352 ==> s.mem[x] == 1
    ensures ReadChunk(FailingRun(z), cont, s) == Some(t) && ValidState(FailingRun(z), t)
    ensures t.k == 2 && !t.done && t.placed == s.placed + [t.placed[1]] && |t.placed[1]| == 2352 && t.placed[1][0] == 2
  {
    var run := FailingRun(z);
    assert Displaced(run.dev, Steps(), Still());
    TransfersDeliver(run.dev, cont, 1, 1, ReadAt(z), 5, s.mem, s.errors, Steps(), Still());
    var u := ReadFrames(run, cont, s);
    var m := u.mem;
    assert m == Put(s.mem, ReadAt(z), Delivered(Steps(), Still(), 1, 1, 5));
    SkipsTwoBlocks(z, m, s.mem);
    t := Place(run, s.(errors := u.errors), Aligned(ReadAt(z) + z.searchBytes, m));
    assert t.placed[1][0] == m[ReadAt(z) + z.searchBytes];
  }

  lemma {:induction false} SkipsTwoBlocks(z: Sizes, m: seq<Byte>, before: seq<Byte>)
    requires Consistent(z, true) && z.chunkBlocks == 1 && |before| == MemLen(z)
    requires forall x :: 0 <= x < 2352 ==> before[x] == 1
    requires m == Put(before, ReadAt(z), DiscBytes(Steps(), 2352, 5 * 2352))
    ensures Correct(m, z, true) == Aligned(ReadAt(z) + z.searchBytes, m)
    ensures m[ReadAt(z) + z.searchBytes] == 2
  {
    assert m[0..z.strLength] == m[ReadAt(z)..ReadAt(z) + z.strLength];
    assert Hit(m, z, 0);
    assert NaiveScan(m, z, 0, 2 * z.searchBytes - 1) == Some(0);
  }

  // ---- what comes later changes nothing of what was placed ----

  /** `r` comes from `s` by more reads. */
  predicate Later(s: ReadState, r: ReadState) {
    s.placed <= r.placed && (r.done && !s.done ==> r.k > s.k)
  }

  lemma {:induction false} FillExtends(run: Run, s: ReadState, i: nat)
    requires ValidRun(run) && ValidState(run, s) && i <= run.z.bufferChunks
    ensures FillBuf(run, s, i).Some? ==> Later(s, FillBuf(run, s, i).value)
    decreases run.z.bufferChunks - i
  {
    if i < run.z.bufferChunks && !s.done {
      var t := ReadChunk(run, false, s);
      FillOnce(run, s, i, t);
      if t.Some? {
        FillExtends(run, t.value, i + 1);
      }
    }
  }

  lemma {:induction false} ContExtends(run: Run, s: ReadState, n: nat)
    requires ValidRun(run) && ValidState(run, s)
    ensures ReadCont(run, s, n).Some? ==> Later(s, ReadCont(run, s, n).value)
    decreases n
  {
    if n > 0 && !s.done {
      var t := ReadChunk(run, true, s);
      ContOnce(run, s, n, t);
      if t.Some? {
        ContExtends(run, t.value, n - 1);
      }
    }
  }

  lemma {:induction false} TwoReads(z: Sizes) returns (t: ReadState)
    requires Consistent(z, true) && z.chunkBlocks == 1 && ValidRun(FailingRun(z)) && Fresh(FailingRun(z), OnesState(z))
    ensures t.k == 2 && !t.done && |t.placed| == 2
    ensures |t.placed[0]| == 2352 && |t.placed[1]| == 2352 && t.placed[1][0] == 2
    ensures WholeRun(FailingRun(z), OnesState(z), 1).Some? ==>
              Later(t, WholeRun(FailingRun(z), OnesState(z), 1).value)
  {
    var run, s0 := FailingRun(z), OnesState(z);
    var s := FirstRead(z);
    FillOnce(run, s0, 0, Some(s));
    if z.bufferChunks == 1 {
      assert FillBuf(run, s, 1) == Some(s) && HandOver(run, s) == s;
      t := SecondRead(z, true, s);
      ContOnce(run, s, 1, Some(t));
      ContExtends(run, t, 0);
    } else {
      t := SecondRead(z, false, s);
      FillOnce(run, s, 1, Some(t));
      FillExtends(run, t, 2);
      var filled := FillBuf(run, t, 2);
      if filled.Some? {
        ContExtends(run, HandOver(run, filled.value), 1);
      }
    }
  }

  lemma {:induction false} SecondChunk(chunks: seq<Chunk>)
    requires |chunks| >= 2 && |chunks[1]| >= 1
    ensures |Concat(chunks)| > |chunks[0]| && Concat(chunks)[|chunks[0]|] == chunks[1][0]
  {
    ConcatUpTo(chunks, 1);
    ConcatUpTo(chunks, 2);
    assert chunks[..0] == [];
  }

  lemma {:induction false} OneBlockFails(z: Sizes)
    requires Consistent(z, true) && z.chunkBlocks == 1
    ensures !AlwaysSeamless(z)
  {
    FailingRunMeetsConditions(z);
    var run, s0 := FailingRun(z), OnesState(z);
    assert Fresh(run, s0);
    var t := TwoReads(z);
    var w := WholeRun(run, s0, 1);
    if w.Some? {
      var full := FullChunks(w.value);
      assert full[0] == t.placed[0] && full[1] == t.placed[1];
      SecondChunk(full);
      var n := Length(run, |full|);
      if n > 2352 {
        assert DiscBytes(Steps(), 0, n)[2352] == 1;
      }
    }
    assert !SeamlessRun(run, Steps(), Still(), s0, 1);
  }

  /** Every run under the conditions of the theorem is seamless exactly when chunks
      have at least two blocks: with one block, memory in front of the read is
      taken for the disc. */
  lemma {:induction false} AlwaysSeamlessIff(z: Sizes)
    requires Consistent(z, true)
    ensures AlwaysSeamless(z) <==> z.chunkBlocks >= 2
  {
    if z.chunkBlocks >= 2 {
      forall run: Run, disc, jit, bound, s, n | run.z == z && Conditions(run, disc, jit, bound) && Fresh(run, s)
        ensures SeamlessRun(run, disc, jit, s, n)
      {
        var r := RunIsSeamless(run, disc, jit, bound, s, n);
      }
    } else {
      OneBlockFails(z);
    }
  }
}

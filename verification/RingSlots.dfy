/** The ring as the reader leaves it: each slot holds the last chunk that is due there. */
module RingSlots {
  import opened Basics
  import opened ModArith
  import opened ReaderSpec

  /** After k chunks, nextin is k modulo the size of the ring, and the chunks that have
      not been overwritten lie in the slots that their numbers give. */
  predicate RingHolds(run: Run, s: ReadState) {
    && run.z.bufferChunks >= 1 && |s.ring| == run.z.bufferChunks && |s.placed| == s.k
    && s.nextin == s.k % run.z.bufferChunks
    && forall i :: 0 <= i < s.k <= i + run.z.bufferChunks ==> s.ring[i % run.z.bufferChunks] == s.placed[i]
  }

  /** One more chunk in its slot leaves those of the ring's size before it. */
  lemma {:induction false} SlotStays(ring: seq<Chunk>, placed: seq<Chunk>, chunk: Chunk, i: nat)
    requires |ring| >= 1 && i <= |placed| < i + |ring|
    requires i < |placed| ==> ring[i % |ring|] == placed[i]
    ensures ring[|placed| % |ring| := chunk][i % |ring|] == (placed + [chunk])[i]
  {
    if i < |placed| {
      ModDistinct(i, |placed|, |ring|);
    }
  }

  lemma {:induction false} NextHolds(run: Run, s: ReadState, t: ReadState, chunk: Chunk)
    requires RingHolds(run, s) && t.k == s.k + 1 && t.nextin == (s.nextin + 1) % run.z.bufferChunks
    requires t.ring == s.ring[s.nextin := chunk] && t.placed == s.placed + [chunk]
    ensures RingHolds(run, t)
  {
    ModStep(s.k, run.z.bufferChunks);
    forall i | 0 <= i < t.k <= i + run.z.bufferChunks ensures t.ring[i % run.z.bufferChunks] == t.placed[i] {
      SlotStays(s.ring, s.placed, chunk, i);
    }
  }

  lemma {:induction false} ReadKeepsRing(run: Run, cont: bool, s: ReadState)
    requires ValidRun(run) && ValidState(run, s) && RingHolds(run, s) && ReadChunk(run, cont, s).Some?
    ensures RingHolds(run, ReadChunk(run, cont, s).value)
  {
    var t := ReadChunk(run, cont, s).value;
    NextHolds(run, s, t, t.placed[s.k]);
  }

  /** Every state that fillbuf reaches. */
  lemma {:induction false} FillKeepsRing(run: Run, s: ReadState, i: nat) returns (r: Option<ReadState>)
    requires ValidRun(run) && ValidState(run, s) && i <= run.z.bufferChunks && RingHolds(run, s)
    ensures r == FillBuf(run, s, i) && (r.Some? ==> RingHolds(run, r.value))
    decreases run.z.bufferChunks - i
  {
    if i < run.z.bufferChunks && !s.done {
      r := ReadChunk(run, false, s);
      FillOnce(run, s, i, r);
      if r.Some? {
        ReadKeepsRing(run, false, s);
        r := FillKeepsRing(run, r.value, i + 1);
      }
    } else {
      FillEnds(run, s, i);
      r := Some(s);
    }
  }

  /** Every state that cont reaches. */
  lemma {:induction false} ContKeepsRing(run: Run, s: ReadState, n: nat) returns (r: Option<ReadState>)
    requires ValidRun(run) && ValidState(run, s) && RingHolds(run, s)
    ensures r == ReadCont(run, s, n) && (r.Some? ==> RingHolds(run, r.value))
    decreases n
  {
    if n > 0 && !s.done {
      r := ReadChunk(run, true, s);
      ContOnce(run, s, n, r);
      if r.Some? {
        ReadKeepsRing(run, true, s);
        r := ContKeepsRing(run, r.value, n - 1);
      }
    } else {
      ContEnds(run, s, n);
      r := Some(s);
    }
  }

  /** The chunk lies at this place of the ring's bytes. */
  predicate LiesAt(bytes: seq<Byte>, at: nat, chunk: Chunk) {
    at + |chunk| <= |bytes| && bytes[at..at + |chunk|] == chunk
  }

  lemma {:induction false} SlotLies(run: Run, bytes: seq<Byte>, j: nat)
    requires |bytes| == run.z.bufferChunks * run.z.chunkBytes && j < run.z.bufferChunks
    ensures LiesAt(bytes, run.z.chunkBytes * j, SlotsOf(run.z, bytes)[j])
  {
    SlotsApart(run.z, j, j);
  }

  /** Of the chunks placed, the last ones, as many as the ring has slots, lie in its bytes:
      chunk i in slot i modulo their number. */
  predicate RingHasLast(run: Run, bytes: seq<Byte>, placed: seq<Chunk>)
    requires run.z.bufferChunks >= 1
  {
    forall i :: 0 <= i < |placed| <= i + run.z.bufferChunks ==>
      LiesAt(bytes, run.z.chunkBytes * (i % run.z.bufferChunks), placed[i])
  }

  lemma {:induction false} ChunksLie(run: Run, s: ReadState, bytes: seq<Byte>)
    requires RingHolds(run, s) && |bytes| == run.z.bufferChunks * run.z.chunkBytes && s.ring == SlotsOf(run.z, bytes)
    ensures RingHasLast(run, bytes, s.placed)
  {
    forall i | 0 <= i < s.k <= i + run.z.bufferChunks
      ensures LiesAt(bytes, run.z.chunkBytes * (i % run.z.bufferChunks), s.placed[i])
    {
      SlotLies(run, bytes, i % run.z.bufferChunks);
    }
  }

  /** In a run stopped anywhere, nextin and the slots are those that counting gives. */
  lemma {:induction false} RunFillsRing(run: Run, s: ReadState, n: nat)
    requires ValidRun(run) && Fresh(run, s)
    ensures WholeRun(run, s, n).Some? ==> RingHolds(run, WholeRun(run, s, n).value)
  {
    ModUnique(0, run.z.bufferChunks, 0, 0);
    var t := FillKeepsRing(run, s, 0);
    if t.Some? {
      var r := ContKeepsRing(run, HandOver(run, t.value), n);
    }
  }
}

/**
  What one read of the reader thread does to the shared memory, and what a whole
  run of fillbuf followed by cont places into the ring.
 */
module ReaderSpec {
  import opened Basics
  import opened Layout
  import opened Jitter

  const MAX_TRANSFER := 32768
  const MAX_READ_RETRIES := 3
  const MAX_RECOVER_ERRORS := 20
  const ERROR_CLEAR_THRESHOLD := 1500

  // ---- C arithmetic ----

  /** Whole blocks in `len` bytes; C divides towards zero. */
  function Blocks(len: int): int {
    if len >= 0 then len / 2352 else -((-len) / 2352)
  }

  function BlockRest(len: int): int {
    len - Bytes(Blocks(len))
  }

  /** Blocks by which lba moves for `len` bytes from the start of the read to the
      end of the chunk, rounded to the nearest block. */
  function Advance(len: int): int {
    Blocks(len) + (if BlockRest(len) >= 1176 then 1 else 0)
  }

  // ---- the device ----

  /** Bytes for (read number, block address, frames, attempt), or a failure. */
  type Device = (nat, int, int, nat) -> Option<seq<Byte>>

  /** A successful request fills as many bytes as it asked for. */
  ghost predicate GoodDevice(dev: Device) {
    forall k, lba, n, j ::
      dev(k, lba, n, j).Some? ==> |dev(k, lba, n, j).value| == (if n < 0 then 0 else Bytes(n))
  }

  /** A request is tried up to four times. */
  function Answer(dev: Device, k: nat, lba: int, n: int, j: nat): (r: Option<seq<Byte>>)
    requires j <= MAX_READ_RETRIES
    ensures r.Some? ==> exists i: nat :: dev(k, lba, n, i) == r
    decreases MAX_READ_RETRIES - j
  {
    if dev(k, lba, n, j).Some? || j == MAX_READ_RETRIES then dev(k, lba, n, j)
    else Answer(dev, k, lba, n, j + 1)
  }

  /** Four attempts, the last one at number 3: the first that succeeds counts, and
      there is no answer if none does. */
  ghost predicate FirstOfFour(dev: Device, k: nat, lba: int, n: int, answer: Option<seq<Byte>>) {
    match answer
    case None => forall i :: 0 <= i <= 3 ==> dev(k, lba, n, i).None?
    case Some(_) =>
      exists i :: 0 <= i <= 3 && dev(k, lba, n, i) == answer && forall j :: 0 <= j < i ==> dev(k, lba, n, j).None?
  }

  lemma AnswerIsFirst(dev: Device, k: nat, lba: int, n: int)
    ensures FirstOfFour(dev, k, lba, n, Answer(dev, k, lba, n, 0))
  {
    assert Answer(dev, k, lba, n, 3) == dev(k, lba, n, 3);
    assert Answer(dev, k, lba, n, 2) == if dev(k, lba, n, 2).Some? then dev(k, lba, n, 2) else dev(k, lba, n, 3);
    assert Answer(dev, k, lba, n, 1)
        == if dev(k, lba, n, 1).Some? then dev(k, lba, n, 1) else Answer(dev, k, lba, n, 2);
  }

  /** Frames of the next request when `remain` are left. */
  function Frames(remain: int): int {
    Min(remain, 13)
  }

  /** What the source computes from the limit of a request in bytes. */
  lemma FramesInBytes(remain: int)
    ensures var nbytes := Bytes(remain);
            Blocks(if nbytes < 32768 then nbytes else 32768) == Frames(remain)
  {
    if remain < 0 {
      assert (-Bytes(remain)) / 2352 == -remain;
    }
  }

  /** lx_errcnt and lx_errblk. */
  datatype Errors = Errors(count: int, block: int)

  /** What the transfers of one read leave behind; not `ok` if the reader gives up. */
  datatype Transferred = Transferred(ok: bool, mem: seq<Byte>, errors: Errors)

  function Put(m: seq<Byte>, at: nat, bytes: seq<Byte>): (r: seq<Byte>)
    requires at + |bytes| <= |m|
    ensures |r| == |m|
  {
    m[..at] + bytes + m[at + |bytes|..]
  }

  /** One request.  If it fails for good its part of the buffer stays as it was,
      and the reader gives up when the error count reaches its limit;
      lxcd_read_cont forgets old errors. */
  function Transfer(dev: Device, cont: bool, k: nat, lba: int, at: nat, n: int,
                    m: seq<Byte>, errors: Errors): (r: Transferred)
    requires GoodDevice(dev) && at <= |m| && (n >= 0 ==> at + Bytes(n) <= |m|)
    ensures |r.mem| == |m|
  {
    var answer := Answer(dev, k, lba, n, 0);
    if answer.None? && errors.count + 1 >= MAX_RECOVER_ERRORS then
      Transferred(false, m, Errors(errors.count + 1, errors.block))
    else
      var e := if answer.None? then Errors(errors.count + 1, lba) else errors;
      var forget := cont && dev(k, lba, n, 0).Some? && e.count > 0 && lba - e.block > ERROR_CLEAR_THRESHOLD;
      Transferred(true, if answer.Some? then Put(m, at, answer.value) else m,
                  if forget then Errors(0, e.block) else e)
  }

  /** One request after the other until no frames remain. */
  function Transfers(dev: Device, cont: bool, k: nat, lba: int, at: nat, remain: int,
                     m: seq<Byte>, errors: Errors): (r: Transferred)
    requires GoodDevice(dev) && at <= |m| && (remain >= 0 ==> at + Bytes(remain) <= |m|)
    ensures |r.mem| == |m|
    decreases if remain > 0 then remain else 0
  {
    var n := Frames(remain);
    var t := Transfer(dev, cont, k, lba, at, n, m, errors);
    if t.ok && remain - n > 0
    then Transfers(dev, cont, k, lba + n, at + Bytes(n), remain - n, t.mem, t.errors)
    else t
  }

  /** Transfers, unfolded once. */
  lemma OneTransfer(dev: Device, cont: bool, k: nat, lba: int, at: nat, remain: int,
                    m: seq<Byte>, e: Errors, t: Transferred)
    requires GoodDevice(dev) && at <= |m| && (remain >= 0 ==> at + Bytes(remain) <= |m|)
    requires Frames(remain) <= remain && (remain >= 1 ==> Frames(remain) >= 1)
    requires t == Transfer(dev, cont, k, lba, at, Frames(remain), m, e)
    ensures var n := Frames(remain);
            Transfers(dev, cont, k, lba, at, remain, m, e)
            == if t.ok && remain - n > 0
               then Transfers(dev, cont, k, lba + n, at + Bytes(n), remain - n, t.mem, t.errors)
               else t
  {
  }

  // ---- one read ----

  /** What stays the same during a run. */
  datatype Run = Run(z: Sizes, jitter: bool, startLba: int, endLba: int, dev: Device)

  ghost predicate ValidRun(run: Run) {
    Consistent(run.z, run.jitter) && GoodDevice(run.dev) && run.startLba < run.endLba
  }

  /** The reader between two reads; `k` counts them, `placed` lists the chunks
      put into the ring so far. */
  datatype ReadState = ReadState(
    mem: seq<Byte>, ring: seq<Chunk>, nextin: nat, lba: int, done: bool, errors: Errors,
    k: nat, placed: seq<Chunk>)

  predicate ValidState(run: Run, s: ReadState) {
    && |s.mem| == MemLen(run.z) && |s.ring| == run.z.bufferChunks
    && s.nextin < run.z.bufferChunks && |s.placed| == s.k
  }

  predicate LastRead(run: Run, lba: int) {
    lba + run.z.chunkBlocks >= run.endLba
  }

  function FramesToRead(run: Run, lba: int): int {
    if LastRead(run, lba) then run.endLba - lba else run.z.chunkBlocks + run.z.olapBlocks
  }

  /** Before the last read the read buffer is cleared. */
  function Prepare(run: Run, s: ReadState): (m: seq<Byte>)
    requires ValidState(run, s)
    ensures |m| == |s.mem|
  {
    if LastRead(run, s.lba)
    then s.mem[..DataAt(run.z)] + seq(|s.mem| - DataAt(run.z), _ => 0 as Byte)
    else s.mem
  }

  lemma ReadFits(run: Run, lba: int)
    requires ValidRun(run)
    ensures var n := FramesToRead(run, lba);
            n >= 0 ==> ReadAt(run.z) + Bytes(n) <= MemLen(run.z)
  {
  }

  function ReadFrames(run: Run, cont: bool, s: ReadState): (r: Transferred)
    requires ValidRun(run) && ValidState(run, s)
    ensures |r.mem| == |s.mem|
  {
    ReadFits(run, s.lba);
    Transfers(run.dev, cont, s.k, s.lba, ReadAt(run.z), FramesToRead(run, s.lba), Prepare(run, s), s.errors)
  }

  /** The first chunk of a run is taken as it was read. */
  function Align(run: Run, k: nat, m: seq<Byte>): (r: Aligned)
    requires ValidRun(run) && |m| == MemLen(run.z)
    ensures |r.mem| == |m| && r.p + run.z.chunkBytes + run.z.searchBytes <= |m|
    ensures run.z.searchBytes <= r.p + run.z.chunkBytes && DataAt(run.z) <= r.p
  {
    if k == 0 then Aligned(ReadAt(run.z), m) else Correct(m, run.z, run.jitter)
  }

  /** The overlap for the next read: the surroundings of the end of the chunk. */
  function Refill(run: Run, r: Aligned): (m: seq<Byte>)
    requires ValidRun(run) && |r.mem| == MemLen(run.z)
    requires r.p + run.z.chunkBytes + run.z.searchBytes <= |r.mem|
    requires run.z.searchBytes <= r.p + run.z.chunkBytes
    ensures |m| == |r.mem|
  {
    var from := r.p + run.z.chunkBytes - run.z.searchBytes;
    if run.jitter then Put(r.mem, 0, r.mem[from..from + 2 * run.z.searchBytes]) else r.mem
  }

  /** The aligned chunk goes into the next slot, its surroundings into the
      overlap, and lba moves on by its length. */
  function Place(run: Run, s: ReadState, a: Aligned): (r: ReadState)
    requires ValidRun(run) && ValidState(run, s) && |a.mem| == MemLen(run.z)
    requires a.p + run.z.chunkBytes + run.z.searchBytes <= |a.mem|
    requires run.z.searchBytes <= a.p + run.z.chunkBytes
    ensures ValidState(run, r) && r.k == s.k + 1
  {
    var chunk := a.mem[a.p..a.p + run.z.chunkBytes];
    ReadState(
      Refill(run, a), s.ring[s.nextin := chunk], (s.nextin + 1) % run.z.bufferChunks,
      s.lba + Advance(a.p + run.z.chunkBytes - ReadAt(run.z)),
      s.done, s.errors, s.k + 1, s.placed + [chunk])
  }

  /** One pass of the loop body of fillbuf or cont; None if the reader gives up. */
  function ReadChunk(run: Run, cont: bool, s: ReadState): (r: Option<ReadState>)
    requires ValidRun(run) && ValidState(run, s)
    ensures r.Some? ==> ValidState(run, r.value) && r.value.k == s.k + 1
  {
    var t := ReadFrames(run, cont, s);
    if !t.ok then None
    else Some(Place(run, s.(done := s.done || LastRead(run, s.lba), errors := t.errors),
                    Align(run, s.k, t.mem)))
  }

  // ---- a run ----

  /** lxcd_read_fillbuf from its i-th pass on. */
  function FillBuf(run: Run, s: ReadState, i: nat): (r: Option<ReadState>)
    requires ValidRun(run) && ValidState(run, s) && i <= run.z.bufferChunks
    ensures r.Some? ==> ValidState(run, r.value)
    decreases run.z.bufferChunks - i
  {
    if i < run.z.bufferChunks && !s.done then
      var t := ReadChunk(run, false, s);
      if t.None? then None else FillBuf(run, t.value, i + 1)
    else Some(s)
  }

  /** lxcd_read_cont, stopped at its n-th loop test at the latest. */
  function ReadCont(run: Run, s: ReadState, n: nat): (r: Option<ReadState>)
    requires ValidRun(run) && ValidState(run, s)
    ensures r.Some? ==> ValidState(run, r.value)
    decreases n
  {
    if n > 0 && !s.done then
      var t := ReadChunk(run, true, s);
      if t.None? then None else ReadCont(run, t.value, n - 1)
    else Some(s)
  }

  // ---- the ring in memory ----

  function SlotAt(z: Sizes, i: nat): nat {
    z.chunkBytes * i
  }

  /** Slots lie in the ring, and apart from each other. */
  lemma {:induction false} SlotsApart(z: Sizes, i: nat, j: nat)
    requires i < z.bufferChunks && j < z.bufferChunks
    ensures SlotAt(z, i) + z.chunkBytes <= z.bufferChunks * z.chunkBytes
    ensures SlotAt(z, j) + z.chunkBytes <= z.bufferChunks * z.chunkBytes
    ensures i < j ==> SlotAt(z, i) + z.chunkBytes <= SlotAt(z, j)
    ensures j < i ==> SlotAt(z, j) + z.chunkBytes <= SlotAt(z, i)
  {
    MultiplesFit(z.chunkBytes, i, z.bufferChunks);
    MultiplesFit(z.chunkBytes, j, z.bufferChunks);
    if i < j {
      MultiplesFit(z.chunkBytes, i, j);
    } else if j < i {
      MultiplesFit(z.chunkBytes, j, i);
    }
  }

  function SlotOf(z: Sizes, bytes: seq<Byte>, i: nat): Chunk
    requires |bytes| == z.bufferChunks * z.chunkBytes && i < z.bufferChunks
  {
    SlotsApart(z, i, i);
    bytes[SlotAt(z, i)..SlotAt(z, i) + z.chunkBytes]
  }

  /** The chunks in the slots of the ring's bytes. */
  function SlotsOf(z: Sizes, bytes: seq<Byte>): (r: seq<Chunk>)
    requires |bytes| == z.bufferChunks * z.chunkBytes
    ensures |r| == z.bufferChunks
  {
    seq(z.bufferChunks, i requires 0 <= i < z.bufferChunks => SlotOf(z, bytes, i))
  }

  lemma {:induction false} OtherSlot(z: Sizes, bytes: seq<Byte>, i: nat, chunk: Chunk, j: nat,
                                     after: seq<Byte>, at: nat)
    requires |bytes| == z.bufferChunks * z.chunkBytes && |chunk| == z.chunkBytes
    requires i < z.bufferChunks && j < z.bufferChunks
    requires at == SlotAt(z, i) && at + |chunk| <= |bytes| && after == Put(bytes, at, chunk)
    ensures SlotOf(z, after, j) == if j == i then chunk else SlotOf(z, bytes, j)
  {
    var p := SlotAt(z, j);
    SlotsApart(z, i, j);
    PutApart(bytes, at, chunk, p);
    assert SlotOf(z, after, j) == after[p..p + |chunk|];
  }

  /** Copying a chunk to its place changes its slot and no other. */
  lemma {:induction false} PutSlot(z: Sizes, bytes: seq<Byte>, i: nat, chunk: Chunk, after: seq<Byte>)
    requires |bytes| == z.bufferChunks * z.chunkBytes && i < z.bufferChunks && |chunk| == z.chunkBytes
    requires SlotAt(z, i) + z.chunkBytes <= |bytes| && after == Put(bytes, SlotAt(z, i), chunk)
    ensures SlotsOf(z, after) == SlotsOf(z, bytes)[i := chunk]
  {
    forall j | 0 <= j < z.bufferChunks
      ensures SlotOf(z, after, j) == if j == i then chunk else SlotOf(z, bytes, j)
    {
      OtherSlot(z, bytes, i, chunk, j, after, SlotAt(z, i));
    }
  }

  lemma PutApart(m: seq<Byte>, at: nat, bytes: seq<Byte>, p: nat)
    requires at + |bytes| <= |m| && p + |bytes| <= |m|
    requires p == at || p + |bytes| <= at || at + |bytes| <= p
    ensures Put(m, at, bytes)[p..p + |bytes|] == if p == at then bytes else m[p..p + |bytes|]
  {
  }

  /** One pass of fillbuf. */
  lemma FillOnce(run: Run, s: ReadState, i: nat, r: Option<ReadState>)
    requires ValidRun(run) && ValidState(run, s) && i < run.z.bufferChunks && !s.done
    requires r == ReadChunk(run, false, s)
    ensures FillBuf(run, s, i) == if r.None? then None else FillBuf(run, r.value, i + 1)
  {
  }

  lemma FillEnds(run: Run, s: ReadState, i: nat)
    requires ValidRun(run) && ValidState(run, s) && i <= run.z.bufferChunks && (i == run.z.bufferChunks || s.done)
    ensures FillBuf(run, s, i) == Some(s)
  {
  }

  lemma ContEnds(run: Run, s: ReadState, n: nat)
    requires ValidRun(run) && ValidState(run, s) && (n == 0 || s.done)
    ensures ReadCont(run, s, n) == Some(s)
  {
  }

  /** One pass of cont. */
  lemma ContOnce(run: Run, s: ReadState, n: nat, r: Option<ReadState>)
    requires ValidRun(run) && ValidState(run, s) && n > 0 && !s.done
    requires r == ReadChunk(run, true, s)
    ensures ReadCont(run, s, n) == if r.None? then None else ReadCont(run, r.value, n - 1)
  {
  }

  /** cont starts from a block address of its own. */
  function HandOver(run: Run, s: ReadState): ReadState {
    s.(lba := run.startLba + run.z.bufferBlocks)
  }

  predicate Fresh(run: Run, s: ReadState) {
    ValidState(run, s) && s.k == 0 && s.nextin == 0 && !s.done && s.lba == run.startLba
  }

  function WholeRun(run: Run, s: ReadState, n: nat): (r: Option<ReadState>)
    requires ValidRun(run) && Fresh(run, s)
    ensures r.Some? ==> ValidState(run, r.value)
  {
    var t := FillBuf(run, s, 0);
    if t.None? then None else ReadCont(run, HandOver(run, t.value), n)
  }
}

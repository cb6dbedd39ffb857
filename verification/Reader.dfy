/** The reader thread's loops over the shared buffers, proved against ReaderSpec. */
module Reader {
  import opened Basics
  import opened Jitter
  import opened ReaderSpec
  import opened RingSlots

  class CdReader {
    const run: Run
    const mem: array<Byte>      // overlap and read buffer
    const ring: array<Byte>     // the ring, slot after slot
    var nextin: nat
    var cddaDone: bool
    var errcnt: int
    var errblk: int
    var served: nat             // reads so far; tells the device oracle which read this is
    ghost var placed: seq<Chunk>

    ghost predicate Valid()
      reads this, mem, ring
    {
      && ValidRun(run)
      && mem.Length == MemLen(run.z) && ring.Length == run.z.bufferBytes && mem != ring
      && nextin < run.z.bufferChunks && served == |placed|
    }

    /** The shared fields together with lba, a local of the two loops. */
    ghost function View(lba: int): ReadState
      reads this, mem, ring
      requires Valid()
    {
      ReadState(mem[..], SlotsOf(run.z, ring[..]), nextin, lba, cddaDone, Errors(errcnt, errblk), served, placed)
    }

    /** The start of a run: nothing read yet.  The error count and block are static
        variables, so they are what the last run of the session left; 0 and -1 at first. */
    constructor (run: Run, mem: array<Byte>, ring: array<Byte>, errors: Errors)
      requires ValidRun(run) && mem.Length == MemLen(run.z) && ring.Length == run.z.bufferBytes && mem != ring
      ensures Valid() && this.run == run && this.mem == mem && this.ring == ring
      ensures Fresh(run, View(run.startLba)) && View(run.startLba).errors == errors
    {
      this.run, this.mem, this.ring := run, mem, ring;
      nextin, cddaDone, errcnt, errblk, served, placed := 0, false, errors.count, errors.block, 0, [];
    }

    /** One request, tried again up to three times. */
    method Request(k: nat, lba: int, n: int) returns (answer: Option<seq<Byte>>, attempts: nat)
      ensures FirstOfFour(run.dev, k, lba, n, answer) && answer == Answer(run.dev, k, lba, n, 0)
      ensures attempts == 0 <==> run.dev(k, lba, n, 0).Some?
    {
      AnswerIsFirst(run.dev, k, lba, n);
      attempts := 0;
      answer := run.dev(k, lba, n, 0);
      while answer.None? && attempts < MAX_READ_RETRIES
        invariant attempts <= MAX_READ_RETRIES && answer == run.dev(k, lba, n, attempts)
        invariant Answer(run.dev, k, lba, n, 0) == Answer(run.dev, k, lba, n, attempts)
        invariant attempts > 0 ==> run.dev(k, lba, n, 0).None?
        decreases MAX_READ_RETRIES - attempts
      {
        attempts := attempts + 1;
        answer := run.dev(k, lba, n, attempts);
      }
      if answer.None? {
        attempts := attempts + 1;
      }
    }

    method CopyIn(at: nat, bytes: seq<Byte>)
      requires at + |bytes| <= mem.Length
      modifies mem
      ensures mem[..] == Put(old(mem[..]), at, bytes)
    {
      forall i | 0 <= i < |bytes| {
        mem[at + i] := bytes[i];
      }
      assert mem[at..at + |bytes|] == bytes;
      assert mem[..] == mem[..at] + mem[at..at + |bytes|] + mem[at + |bytes|..];
    }

    /** One request and what its failure leads to. */
    method TransferOne(cont: bool, k: nat, lba: int, at: nat, n: int) returns (ok: bool)
      requires Valid() && at <= mem.Length && (n >= 0 ==> at + Bytes(n) <= mem.Length)
      modifies mem, this`errcnt, this`errblk
      ensures Valid()
      ensures Transferred(ok, mem[..], Errors(errcnt, errblk))
              == Transfer(run.dev, cont, k, lba, at, n, old(mem[..]), Errors(old(errcnt), old(errblk)))
    {
      var answer, j := Request(k, lba, n);
      if answer.None? {
        errcnt := errcnt + 1;
        if errcnt >= MAX_RECOVER_ERRORS { return false; }
        errblk := lba;
      } else {
        CopyIn(at, answer.value);
      }
      if cont && j == 0 && errcnt > 0 && lba - errblk > ERROR_CLEAR_THRESHOLD {
        errcnt := 0;
      }
      ok := true;
    }

    /** Frames to ask for: what is left, within the limit of one request. */
    method FramesNow(remain: int) returns (n: int)
      ensures n == Frames(remain) <= remain
      ensures remain >= 1 ==> n >= 1
      ensures remain <= 0 ==> n == remain
    {
      FramesInBytes(remain);
      var nbytes := Bytes(remain);
      n := Blocks(if nbytes < MAX_TRANSFER then nbytes else MAX_TRANSFER);
    }

    /** One pass of the loop. */
    method TransferNext(cont: bool, k: nat, lba: int, at: nat, remain: int) returns (ok: bool, n: int)
      requires Valid() && at <= mem.Length && (remain >= 0 ==> at + Bytes(remain) <= mem.Length)
      modifies mem, this`errcnt, this`errblk
      ensures Valid() && n == Frames(remain)
      ensures Transfers(run.dev, cont, k, lba, at, remain, old(mem[..]), Errors(old(errcnt), old(errblk)))
              == if ok && remain - n > 0
                 then Transfers(run.dev, cont, k, lba + n, at + Bytes(n), remain - n, mem[..], Errors(errcnt, errblk))
                 else Transferred(ok, mem[..], Errors(errcnt, errblk))
    {
      n := FramesNow(remain);
      ghost var m, e := mem[..], Errors(errcnt, errblk);
      ok := TransferOne(cont, k, lba, at, n);
      OneTransfer(run.dev, cont, k, lba, at, remain, m, e, Transferred(ok, mem[..], Errors(errcnt, errblk)));
    }

    /** The do-while loop of one read. */
    method TransferAll(cont: bool, k: nat, lba0: int, remain0: int) returns (ok: bool)
      requires Valid() && (remain0 >= 0 ==> ReadAt(run.z) + Bytes(remain0) <= mem.Length)
      modifies mem, this`errcnt, this`errblk
      ensures Valid()
      ensures Transferred(ok, mem[..], Errors(errcnt, errblk))
              == Transfers(run.dev, cont, k, lba0, ReadAt(run.z), remain0,
                           old(mem[..]), Errors(old(errcnt), old(errblk)))
    {
      var lba, remain := lba0, remain0;
      var at: nat := ReadAt(run.z);
      ghost var all := Transfers(run.dev, cont, k, lba0, at, remain0, mem[..], Errors(errcnt, errblk));
      while true
        invariant Valid() && at <= mem.Length && (remain >= 0 ==> at + Bytes(remain) <= mem.Length)
        invariant all == Transfers(run.dev, cont, k, lba, at, remain, mem[..], Errors(errcnt, errblk))
        decreases if remain > 0 then remain else 0
      {
        var n;
        ok, n := TransferNext(cont, k, lba, at, remain);
        if !ok || remain - n <= 0 { return; }
        lba, at, remain := lba + n, at + Bytes(n), remain - n;
      }
    }

    /** memset of the read buffer. */
    method ClearData()
      requires Valid()
      modifies mem
      ensures mem[..] == old(mem[..DataAt(run.z)]) + seq(mem.Length - DataAt(run.z), _ => 0 as Byte)
    {
      forall i | DataAt(run.z) <= i < mem.Length {
        mem[i] := 0;
      }
      assert mem[..] == mem[..DataAt(run.z)] + mem[DataAt(run.z)..];
    }

    /** memcpy of the new overlap from around the end of the chunk. */
    method KeepOverlap(p: nat)
      requires Valid() && p + run.z.chunkBytes + run.z.searchBytes <= mem.Length
      requires run.z.searchBytes <= p + run.z.chunkBytes
      modifies mem
      ensures mem[..] == Refill(run, Aligned(p, old(mem[..])))
    {
      if run.jitter {
        var from := p + run.z.chunkBytes - run.z.searchBytes;
        var bytes := mem[from..from + 2 * run.z.searchBytes];
        CopyIn(0, bytes);
      }
    }

    /** Only the first read of fillbuf is not aligned. */
    method AlignOne(first: bool) returns (p: nat)
      requires Valid() && first == (served == 0)
      modifies mem
      ensures Aligned(p, mem[..]) == Align(run, served, old(mem[..]))
    {
      if first { p := ReadAt(run.z); } else { p := CorrJitter(mem, run.z, run.jitter); }
    }

    /** memcpy of the chunk into slot nextin. */
    method CopyToRing(p: nat)
      requires Valid() && p + run.z.chunkBytes <= mem.Length
      modifies ring
      ensures Valid()
      ensures SlotsOf(run.z, ring[..]) == old(SlotsOf(run.z, ring[..]))[nextin := mem[p..p + run.z.chunkBytes]]
    {
      ghost var was, chunk := ring[..], mem[p..p + run.z.chunkBytes];
      SlotsApart(run.z, nextin, nextin);
      var at: nat := run.z.chunkBytes * nextin;
      CopyBytes(at, p, run.z.chunkBytes);
      PutSlot(run.z, was, nextin, chunk, ring[..]);
    }

    method CopyBytes(at: nat, p: nat, n: nat)
      requires mem != ring && at + n <= ring.Length && p + n <= mem.Length
      modifies ring
      ensures ring[..] == Put(old(ring[..]), at, mem[p..p + n])
    {
      forall i | 0 <= i < n {
        ring[at + i] := mem[p + i];
      }
      assert ring[at..at + n] == mem[p..p + n];
      assert ring[..] == ring[..at] + ring[at..at + n] + ring[at + n..];
    }

    /** lba moves on to the block nearest to the end of the chunk. */
    method AdvanceBy(lba: int, len: int) returns (next: int)
      ensures next == lba + Advance(len)
    {
      next := lba + Blocks(len);
      if BlockRest(len) >= 1176 { next := next + 1; }
    }

    /** The second half of a pass: keep the overlap, deposit and move on. */
    method PlaceOne(p: nat, lba: int) returns (next: int)
      requires Valid() && DataAt(run.z) <= p && p + run.z.chunkBytes + run.z.searchBytes <= mem.Length
      requires run.z.searchBytes <= p + run.z.chunkBytes
      modifies mem, ring, this`nextin, this`served, this`placed
      ensures Valid()
      ensures View(next) == Place(run, old(View(lba)), Aligned(p, old(mem[..])))
    {
      ghost var chunk := mem[p..p + run.z.chunkBytes];
      KeepOverlap(p);
      assert mem[p..p + run.z.chunkBytes] == chunk;
      CopyToRing(p);
      nextin := (nextin + 1) % run.z.bufferChunks;
      next := AdvanceBy(lba, p + run.z.chunkBytes - ReadAt(run.z));
      served, placed := served + 1, placed + [chunk];
    }

    /** One pass of either loop. */
    method ReadOne(cont: bool, first: bool, lba: int) returns (ok: bool, next: int)
      requires Valid() && first == (served == 0)
      modifies mem, ring, this`nextin, this`cddaDone, this`errcnt, this`errblk, this`served, this`placed
      ensures Valid()
      ensures ReadChunk(run, cont, old(View(lba))) == if ok then Some(View(next)) else None
    {
      next := lba;
      ok := FetchOne(cont, lba);
      if ok {
        ghost var t := mem[..];
        var p := AlignOne(first);
        next := PlaceOne(p, lba);
      }
    }

    /** The first half of a pass: decide how much to read, and read it. */
    method FetchOne(cont: bool, lba: int) returns (ok: bool)
      requires Valid()
      modifies mem, this`cddaDone, this`errcnt, this`errblk
      ensures Valid()
      ensures var s := old(View(lba));
              var r := ReadFrames(run, cont, s);
              && ok == r.ok
              && View(lba) == s.(mem := r.mem, done := s.done || LastRead(run, lba), errors := r.errors)
    {
      ghost var s := View(lba);
      var remain := run.z.chunkBlocks + run.z.olapBlocks;
      if lba + run.z.chunkBlocks >= run.endLba {
        remain := run.endLba - lba;
        ClearData();
        cddaDone := true;
      }
      assert mem[..] == Prepare(run, s);
      ReadFits(run, lba);
      ok := TransferAll(cont, served, lba, remain);
    }

    /** One pass of the loop of fillbuf. */
    method FillPass(i: nat, lba: int) returns (ok: bool, next: int)
      requires Valid() && i == served < run.z.bufferChunks && !cddaDone
      modifies mem, ring, this`nextin, this`cddaDone, this`errcnt, this`errblk, this`served, this`placed
      ensures Valid() && (ok ==> served == i + 1)
      ensures FillBuf(run, old(View(lba)), i) == if ok then FillBuf(run, View(next), i + 1) else None
    {
      ghost var before := View(lba);
      ok, next := ReadOne(false, i == 0, lba);
      FillOnce(run, before, i, if ok then Some(View(next)) else None);
    }

    /** lxcd_read_fillbuf: fill the ring before playing starts. */
    method ReadFillBuf() returns (ok: bool, ghost lba: int)
      requires Valid() && Fresh(run, View(run.startLba))
      modifies mem, ring, this`nextin, this`cddaDone, this`errcnt, this`errblk, this`served, this`placed
      ensures Valid()
      ensures FillBuf(run, old(View(run.startLba)), 0) == if ok then Some(View(lba)) else None
    {
      ghost var all := FillBuf(run, View(run.startLba), 0);
      var at := run.startLba;
      var i := 0;
      while i < run.z.bufferChunks && !cddaDone
        invariant Valid() && i == served <= run.z.bufferChunks
        invariant FillBuf(run, View(at), i) == all
        decreases run.z.bufferChunks - i
      {
        ok, at := FillPass(i, at);
        if !ok { lba := at; return; }
        i := i + 1;
      }
      FillEnds(run, View(at), i);
      ok, lba := true, at;
    }

    /** lxcd_read_cont from here on, with `n` tests of its loop to go. */
    ghost function ContFrom(lba: int, n: nat): Option<ReadState>
      reads this, mem, ring
      requires Valid()
    {
      ReadCont(run, View(lba), n)
    }

    /** One pass of the loop of cont. */
    method ContPass(ghost tests: nat, lba: int) returns (ok: bool, next: int)
      requires Valid() && served > 0 && tests > 0 && !cddaDone
      modifies mem, ring, this`nextin, this`cddaDone, this`errcnt, this`errblk, this`served, this`placed
      ensures Valid() && (ok ==> served > 0)
      ensures old(ContFrom(lba, tests)) == if ok then ContFrom(next, tests - 1) else None
    {
      ghost var before := View(lba);
      ok, next := ReadOne(true, false, lba);
      ContOnce(run, before, tests, if ok then Some(View(next)) else None);
    }

    /** lxcd_read_cont: keep the ring filled, until the end or until the n-th loop
        test sees a stop.  Waiting for room in the ring is left to Protocol. */
    method ReadOn(n: nat) returns (ok: bool, ghost lba: int)
      requires Valid() && served > 0
      modifies mem, ring, this`nextin, this`cddaDone, this`errcnt, this`errblk, this`served, this`placed
      ensures Valid()
      ensures old(ContFrom(run.startLba + run.z.bufferBlocks, n)) == if ok then Some(View(lba)) else None
    {
      var at := run.startLba + run.z.bufferBlocks;
      ghost var all := ContFrom(at, n);
      var tests := n;
      while tests > 0 && !cddaDone
        invariant Valid() && served > 0
        invariant ContFrom(at, tests) == all
        decreases tests
      {
        ok, at := ContPass(tests, at);
        if !ok { lba := at; return; }
        tests := tests - 1;
      }
      ok, lba := true, at;
      ContEnds(run, View(lba), tests);
      assert all == Some(View(lba));
    }

    /** linux_read: fill the ring, then keep it filled. */
    method Read(n: nat) returns (ok: bool, ghost lba: int)
      requires Valid() && Fresh(run, View(run.startLba))
      modifies mem, ring, this`nextin, this`cddaDone, this`errcnt, this`errblk, this`served, this`placed
      ensures Valid()
      ensures WholeRun(run, old(View(run.startLba)), n) == if ok then Some(View(lba)) else None
      ensures ok ==> nextin == |placed| % run.z.bufferChunks && RingHasLast(run, ring[..], placed)
    {
      ghost var s := View(run.startLba);
      ok, lba := ReadFillBuf();
      if !ok { return; }
      FilledSome(run, s, 0);
      ghost var filled := View(lba);
      assert View(run.startLba + run.z.bufferBlocks) == HandOver(run, filled);
      ok, lba := ReadOn(n);
      if ok {
        RunFillsRing(run, s, n);
        ChunksLie(run, View(lba), ring[..]);
      }
    }
  }

  /** The fill loop makes at least one pass. */
  lemma {:induction false} FilledSome(run: Run, s: ReadState, i: nat)
    requires ValidRun(run) && ValidState(run, s) && i <= run.z.bufferChunks
    requires s.k > 0 || (i == 0 && !s.done)
    requires FillBuf(run, s, i).Some?
    ensures FillBuf(run, s, i).value.k > 0
    decreases run.z.bufferChunks - i
  {
    if i < run.z.bufferChunks && !s.done {
      FilledSome(run, ReadChunk(run, false, s).value, i + 1);
    }
  }
}

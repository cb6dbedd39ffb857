/** The ring with its two indices is a first-in first-out queue. */
module FifoRefinement {
  import opened Basics
  import opened ModArith
  import opened Protocol
  import opened ProtocolInv

  /** The queue the ring stands for: what is still to come, what is queued, what was delivered. */
  datatype Fifo = Fifo(source: seq<Chunk>, items: seq<Chunk>, sink: seq<Chunk>)

  predicate Put(capacity: nat, f: Fifo, g: Fifo) {
    && |f.items| < capacity && f.source != []
    && g == Fifo(f.source[1..], f.items + [f.source[0]], f.sink)
  }

  predicate Get(f: Fifo, g: Fifo) {
    && f.items != []
    && g == Fifo(f.source, f.items[1..], f.sink + [f.items[0]])
  }

  predicate FifoStep(capacity: nat, f: Fifo, g: Fifo) {
    f == g || Put(capacity, f, g) || Get(f, g)
  }

  /** The slot of the oldest chunk; between its two updates the writer's index is one ahead. */
  function First(c: Config, s: State): nat
    requires ValidConfig(c)
  {
    if s.wpc.WOccupied? then (s.nextout + c.bufferChunks - 1) % c.bufferChunks else s.nextout
  }

  /** The occupied slots in ring order. */
  function Contents(c: Config, s: State): seq<Chunk>
    requires ValidConfig(c) && |s.ring| == c.bufferChunks && s.occupied >= 0
  {
    seq(s.occupied, i requires 0 <= i => s.ring[(First(c, s) + i) % c.bufferChunks])
  }

  /** Chunks that left the ring: those written, and the one the writer still holds. */
  function Delivered(s: State): seq<Chunk> {
    if HoldsUnwritten(s.wpc, s.failed) then s.written + [s.inData] else s.written
  }

  function Abs(c: Config, s: State): Fifo
    requires ValidConfig(c) && |s.ring| == c.bufferChunks && s.occupied >= 0 && s.deposited <= |c.plan|
  {
    Fifo(c.plan[s.deposited..], Contents(c, s), Delivered(s))
  }

  lemma {:induction false} FirstIsOldest(c: Config, s: State)
    requires ValidConfig(c)
    requires s.nextout == Slot(s.taken + (if s.wpc.WOccupied? then 1 else 0), c.bufferChunks)
    ensures First(c, s) == s.taken % c.bufferChunks
  {
    var n := c.bufferChunks;
    SlotIsMod(s.taken, n);
    if s.wpc.WOccupied? {
      SlotIsMod(s.taken + 1, n);
      ModAdd(s.taken + 1, n - 1, n);
      assert s.taken + n == (s.taken / n + 1) * n + s.taken % n;
      ModUnique(s.taken + n, n, s.taken / n + 1, s.taken % n);
    }
  }

  /** The ring holds exactly the deposited chunks that were not taken, oldest first. */
  lemma {:induction false} ContentsAre(c: Config, s: State)
    requires ValidConfig(c) && RingInv(c, s)
    ensures Contents(c, s) == c.plan[s.taken..s.deposited]
  {
    var n := c.bufferChunks;
    FirstIsOldest(c, s);
    forall i | 0 <= i < s.occupied
      ensures Contents(c, s)[i] == c.plan[s.taken + i]
    {
      ModAdd(s.taken, i, n);
      SlotIsMod(s.taken + i, n);
      assert s.ring[Slot(s.taken + i, n)] == c.plan[s.taken + i];
    }
  }

  lemma DeliveredAre(c: Config, s: State)
    requires ValidConfig(c) && WriterInv(c, s)
    ensures Delivered(s) == c.plan[..s.taken]
  {
    if HoldsUnwritten(s.wpc, s.failed) {
      assert c.plan[..s.taken] == c.plan[..s.taken - 1] + [c.plan[s.taken - 1]];
    }
  }

  /** The abstraction, in terms of the two history counters. */
  lemma AbsIs(c: Config, s: State)
    requires ValidConfig(c) && RingInv(c, s) && WriterInv(c, s)
    ensures Abs(c, s) == Fifo(c.plan[s.deposited..], c.plan[s.taken..s.deposited], c.plan[..s.taken])
  {
    ContentsAre(c, s);
    DeliveredAre(c, s);
  }

  lemma {:induction false} CountersMakeFifoStep(plan: seq<Chunk>, capacity: nat, taken: nat, deposited: nat,
                                                taken': nat, deposited': nat)
    requires taken <= deposited <= |plan| && taken' <= deposited' <= |plan|
    requires deposited' - taken' <= capacity
    requires || (deposited' == deposited && taken' == taken)
             || (deposited' == deposited + 1 && taken' == taken)
             || (deposited' == deposited && taken' == taken + 1)
    ensures FifoStep(capacity, Fifo(plan[deposited..], plan[taken..deposited], plan[..taken]),
                     Fifo(plan[deposited'..], plan[taken'..deposited'], plan[..taken']))
  {
    if deposited' == deposited + 1 {
      assert plan[deposited..][1..] == plan[deposited'..];
      assert plan[taken..deposited] + [plan[deposited]] == plan[taken..deposited'];
    } else if taken' == taken + 1 {
      assert plan[taken..deposited][1..] == plan[taken'..deposited];
      assert plan[..taken] + [plan[taken]] == plan[..taken'];
    }
  }

  predicate MovesByOne(s: State, t: State) {
    || (t.deposited == s.deposited && t.taken == s.taken)
    || (t.deposited == s.deposited + 1 && t.taken == s.taken)
    || (t.deposited == s.deposited && t.taken == s.taken + 1)
  }

  lemma ReaderMoves(c: Config, s: State)
    requires ValidConfig(c)
    ensures MovesByOne(s, FillNext(c, s)) && MovesByOne(s, DepositNext(c, s))
  {
  }

  lemma WriterMoves(c: Config, s: State)
    requires ValidConfig(c)
    ensures MovesByOne(s, CheckEndNext(c, s)) && MovesByOne(s, DrainNext(c, s))
  {
  }

  lemma SeekMoves(c: Config, s: State)
    requires ValidConfig(c)
    ensures MovesByOne(s, SeekRoomNext(c, s)) && MovesByOne(s, SeekDataNext(c, s))
  {
  }

  lemma CountersMoveByOne(c: Config, s: State, a: Action)
    requires ValidConfig(c)
    ensures MovesByOne(s, Step(c, s, a))
  {
    ReaderMoves(c, s);
    WriterMoves(c, s);
    SeekMoves(c, s);
  }

  /** Every step of every thread leaves the queue alone, puts the next chunk at
      its end while it is not full, or takes its first chunk to the writer. */
  lemma {:induction false} RefinesFifo(c: Config, s: State, a: Action)
    requires ValidConfig(c) && Reachable(c, s) && Enabled(s, a)
    ensures |s.ring| == |Step(c, s, a).ring| == c.bufferChunks
    ensures s.occupied >= 0 && Step(c, s, a).occupied >= 0
    ensures s.deposited <= |c.plan| && Step(c, s, a).deposited <= |c.plan|
    ensures FifoStep(c.bufferChunks, Abs(c, s), Abs(c, Step(c, s, a)))
  {
    var t := Step(c, s, a);
    ReachableInv(c, s);
    StepKeepsInv(c, s, a);
    AbsIs(c, s);
    AbsIs(c, t);
    CountersMoveByOne(c, s, a);
    CountersMakeFifoStep(c.plan, c.bufferChunks, s.taken, s.deposited, t.taken, t.deposited);
  }

  /** The ring starts empty with everything still to come. */
  lemma StartsEmpty(c: Config, s: State)
    requires ValidConfig(c) && IsStart(c, 1, s)
    ensures Abs(c, s) == Fifo(c.plan, [], [])
  {
  }

  /** The fill count stays within the ring, outside the two update sections the
      indices differ by it, and what was written is a prefix of the plan. */
  lemma {:induction false} IndicesAgree(c: Config, s: State)
    requires ValidConfig(c) && Reachable(c, s)
    ensures 0 <= s.occupied <= c.bufferChunks
    ensures !NextinAhead(s.rpc) && !s.wpc.WOccupied? ==>
              s.nextin == (s.nextout + s.occupied) % c.bufferChunks
    ensures s.written <= c.plan && |s.written| <= s.taken <= s.deposited <= |c.plan|
  {
    ReachableInv(c, s);
    SlotIsMod(s.deposited, c.bufferChunks);
    SlotIsMod(s.taken, c.bufferChunks);
    ModAdd(s.taken, s.occupied, c.bufferChunks);
  }
}

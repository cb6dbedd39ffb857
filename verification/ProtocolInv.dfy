/** What every reachable state of the reader/writer protocol satisfies. */
module ProtocolInv {
  import opened Basics
  import opened Semaphores
  import opened Protocol
  import opened ModArith

  // ---- who is inside a LOCK section ----

  predicate ReaderHolds(pc: ReaderPc) {
    match pc
    case FLock | CTest | CMark | CLock | CWaitRoom | CRelock | CWake | RDone => false
    case _ => true
  }

  predicate WriterHolds(pc: WriterPc) {
    match pc
    case WTest | WLock | WWaitData | WRelock | WWrite | WErrorSet | WErrorPost | WPause | WWake | WDone => false
    case _ => true
  }

  predicate WriterLeft(pc: WriterPc) {
    pc.WWake? || pc.WDone?
  }

  /** The writer has posted LOCK on an error exit, without holding it. */
  predicate ExtraPost(s: State) {
    s.failed && WriterLeft(s.wpc)
  }

  predicate LockOk(b: Backend, lock: nat, reader: bool, writer: bool, extra: bool) {
    && !(reader && writer)
    && (!extra ==> lock == (if reader || writer then 0 else 1))
    && (extra && b.Binary? ==> lock <= 1 && (!reader ==> lock == 1))
    && (extra && b.Counting? ==> lock == (if reader then 1 else 2))
  }

  predicate LockInv(c: Config, s: State) {
    && LockOk(c.backend, s.lock, ReaderHolds(s.rpc), WriterHolds(s.wpc), ExtraPost(s))
    && (s.rErange ==> c.backend.Counting? && (s.rpc.FData? || s.rpc.CData? || s.rpc.CWake?))
    && (s.wErange ==> c.backend.Counting? && (s.wpc.WRoom? || s.wpc.WWake?))
  }

  // ---- the ring ----

  /** The slots between the two indices hold exactly the chunks taken..deposited of the plan. */
  ghost predicate Slots(c: Config, ring: seq<Chunk>, taken: nat, deposited: nat)
    requires ValidConfig(c) && |ring| == c.bufferChunks && deposited <= |c.plan|
  {
    forall k :: taken <= k < deposited ==> ring[Slot(k, c.bufferChunks)] == c.plan[k]
  }

  ghost predicate RingOk(c: Config, ring: seq<Chunk>, taken: nat, deposited: nat, occupied: int)
    requires ValidConfig(c)
  {
    && |ring| == c.bufferChunks
    && taken <= deposited <= |c.plan|
    && occupied == deposited - taken <= c.bufferChunks
    && Slots(c, ring, taken, deposited)
  }

  /** The next chunk is in its slot but not counted yet. */
  predicate CopiedIn(pc: ReaderPc) {
    pc.FNext? || pc.FOccupied? || pc.CNext? || pc.COccupied?
  }

  predicate NextinAhead(pc: ReaderPc) {
    pc.FOccupied? || pc.COccupied?
  }

  ghost predicate ContentInv(c: Config, s: State)
    requires ValidConfig(c)
  {
    && RingOk(c, s.ring, s.taken, s.deposited, s.occupied)
    && (CopiedIn(s.rpc) ==>
          s.deposited < |c.plan| && s.ring[Slot(s.deposited, c.bufferChunks)] == c.plan[s.deposited])
  }

  predicate IndexInv(c: Config, s: State)
    requires ValidConfig(c)
  {
    && s.nextin == Slot(s.deposited + (if NextinAhead(s.rpc) then 1 else 0), c.bufferChunks)
    && s.nextout == Slot(s.taken + (if s.wpc.WOccupied? then 1 else 0), c.bufferChunks)
  }

  ghost predicate RingInv(c: Config, s: State)
    requires ValidConfig(c)
  {
    ContentInv(c, s) && IndexInv(c, s)
  }

  predicate BetweenReads(pc: ReaderPc) {
    match pc
    case FLock | FTest | FRoom | FData | FUnlock | CTest | CData | CUnlock => true
    case _ => false
  }

  /** The reader has a chunk in hand that is not in the ring yet. */
  predicate HasRead(pc: ReaderPc) {
    match pc
    case FCopy | FNext | FOccupied | CLock | CTestRoom | CRelease | CWaitRoom | CRelock
      | CCheck | CQuit | CCopy | CNext | COccupied => true
    case _ => false
  }

  /** Where the reader is, how far it has read and what cdda_done says. */
  predicate ReaderOk(pc: ReaderPc, deposited: nat, taken: nat, filled: nat, total: nat,
                     cddaDone: bool, roomLeft: bool, completed: bool)
  {
    && (Filling(pc) ==> taken == 0 && deposited <= filled)
    && (!Filling(pc) ==> deposited >= filled)
    && (pc.FLock? ==> deposited == 0)
    && (pc.FRoom? || pc.FData? || pc.FUnlock? ==> deposited == filled)
    && (pc.FMark? || pc.FCopy? || pc.FNext? || pc.FOccupied? ==> deposited < filled)
    && (cddaDone ==> deposited >= total - 1)
    && (BetweenReads(pc) ==> (cddaDone <==> deposited == total))
    && (pc.FMark? || pc.CMark? ==> !cddaDone && deposited < total)
    && (HasRead(pc) ==> deposited < total && (cddaDone <==> deposited == total - 1))
    && (pc.CCheck? ==> roomLeft || completed)
    && (pc.CCopy? || pc.CNext? || pc.COccupied? ==> roomLeft)
    && (pc.CQuit? ==> completed)
    && (pc.CWake? || pc.RDone? ==> completed || (deposited == total && cddaDone))
  }

  predicate ReaderInv(c: Config, s: State)
    requires ValidConfig(c)
  {
    ReaderOk(s.rpc, s.deposited, s.taken, Min(c.bufferChunks, |c.plan|), |c.plan|,
             s.cddaDone, s.occupied < c.bufferChunks, s.play == Completed)
  }

  // ---- tokens: nobody sleeps through a wakeup ----

  predicate RoomInv(c: Config, s: State) {
    && (Filling(s.rpc) && !s.rpc.FData? && !s.rpc.FUnlock? ==>
          s.room >= 1 && (!s.wpc.WDone? ==> s.room == 1 && !s.wErange))
    && (s.rpc.CRelease? || s.rpc.CWaitRoom? ==>
          && (s.occupied == c.bufferChunks || s.room >= 1 || s.wpc.WRoom? || s.wpc.WWake?)
          && (s.wpc.WDone? ==> s.room >= 1))
  }

  predicate ReaderAboutToPost(pc: ReaderPc) {
    match pc
    case FTest | FMark | FCopy | FNext | FOccupied | FRoom | FData | CData | CWake => true
    case _ => false
  }

  predicate DataInv(c: Config, s: State) {
    && (s.wpc.WRelease? || s.wpc.WWaitData? ==>
          && (s.occupied == 0 || s.data >= 1 || ReaderAboutToPost(s.rpc))
          && (s.rpc.RDone? ==> s.data >= 1))
    && (s.wpc.WTestData? || s.wpc.WRelease? || s.wpc.WWaitData? || s.wpc.WRelock? ==>
          s.play == Completed || s.occupied > 0 || s.deposited < |c.plan|)
  }

  // ---- the writer and the end of the run ----

  /** The writer has taken a chunk out of the ring that it has not written. */
  predicate HoldsUnwritten(pc: WriterPc, failed: bool) {
    pc.WRoom? || pc.WUnlock? || pc.WWrite? || failed
  }

  ghost predicate WriterOk(plan: seq<Chunk>, pc: WriterPc, inData: Chunk, taken: nat, written: seq<Chunk>,
                           failed: bool, nonempty: bool, completed: bool)
  {
    && taken <= |plan|
    && (pc.WCheck? ==> nonempty || completed)
    && (pc.WCopy? || pc.WNext? || pc.WOccupied? ==> nonempty)
    && (pc.WNext? || pc.WOccupied? ==> taken < |plan| && inData == plan[taken])
    && (HoldsUnwritten(pc, failed) ==>
          taken >= 1 && inData == plan[taken - 1] && written == plan[..taken - 1])
    && (!HoldsUnwritten(pc, failed) ==> written == plan[..taken])
    && (failed ==> pc.WErrorSet? || pc.WErrorPost? || WriterLeft(pc))
    && (pc.WErrorSet? || pc.WErrorPost? ==> failed)
  }

  ghost predicate WriterInv(c: Config, s: State) {
    WriterOk(c.plan, s.wpc, s.inData, s.taken, s.written, s.failed, s.occupied > 0, s.play == Completed)
  }

  predicate EndInv(c: Config, s: State) {
    && (s.play == Completed <==> s.cause != Running)
    && (s.wpc.WEndUnlock? || s.wpc.WQuit? || s.wpc.WErrorPost? || WriterLeft(s.wpc) ==> s.play == Completed)
    && (s.wpc.WEndSet? ==> s.occupied == 0 && s.cddaDone)
    && (s.cause == Drained ==>
          && s.occupied == 0 && s.cddaDone && !s.failed
          && (s.wpc.WEndUnlock? || WriterLeft(s.wpc))
          && !Filling(s.rpc) && !s.rpc.CMark?
          && !s.rpc.CCopy? && !s.rpc.CNext? && !s.rpc.COccupied?)
  }

  ghost predicate Inv(c: Config, s: State)
    requires ValidConfig(c)
  {
    && LockInv(c, s) && RingInv(c, s) && ReaderInv(c, s) && RoomInv(c, s) && DataInv(c, s)
    && WriterInv(c, s) && EndInv(c, s)
  }

  lemma StartInv(c: Config, s: State)
    requires ValidConfig(c) && IsStart(c, 1, s)
    ensures Inv(c, s)
  {
  }

  // ---- one reader step, by section and by part of the invariant ----

  lemma CopyKeepsSlots(c: Config, s: State)
    requires ValidConfig(c) && RingInv(c, s)
    requires s.deposited < |c.plan| && s.occupied < c.bufferChunks
    ensures var ring := s.ring[Slot(s.deposited, c.bufferChunks) := c.plan[s.deposited]];
            Slots(c, ring, s.taken, s.deposited) && ring[Slot(s.deposited, c.bufferChunks)] == c.plan[s.deposited]
  {
    forall k | s.taken <= k < s.deposited
      ensures Slot(k, c.bufferChunks) != Slot(s.deposited, c.bufferChunks)
    {
      SlotDistinct(k, s.deposited, c.bufferChunks);
    }
  }

  /** The fields of the ring are untouched, and nothing more of it is half done. */
  predicate RingUntouched(s: State, t: State) {
    && t.ring == s.ring && t.taken == s.taken && t.deposited == s.deposited && t.occupied == s.occupied
    && t.nextin == s.nextin && t.nextout == s.nextout
    && (CopiedIn(t.rpc) ==> CopiedIn(s.rpc)) && (NextinAhead(t.rpc) <==> NextinAhead(s.rpc))
    && (t.wpc.WOccupied? <==> s.wpc.WOccupied?)
  }

  lemma SameRing(c: Config, s: State, t: State)
    requires ValidConfig(c) && RingInv(c, s) && RingUntouched(s, t)
    ensures RingInv(c, t)
  {
  }

  /** The copy of the next chunk to its slot. */
  lemma CopyKeepsContent(c: Config, s: State, next: ReaderPc)
    requires ValidConfig(c) && RingInv(c, s) && !NextinAhead(s.rpc)
    requires s.deposited < |c.plan| && s.occupied < c.bufferChunks
    ensures ContentInv(c, ReaderCopy(c, s, next))
  {
    CopyKeepsSlots(c, s);
  }

  /** The chunk that was copied is counted. */
  lemma CountKeepsContent(c: Config, s: State, t: State)
    requires ValidConfig(c) && ContentInv(c, s) && CopiedIn(s.rpc) && s.occupied < c.bufferChunks && !CopiedIn(t.rpc)
    requires t.ring == s.ring && t.taken == s.taken && t.deposited == s.deposited + 1 && t.occupied == s.occupied + 1
    ensures ContentInv(c, t)
  {
  }

  /** The reader is at an operation on a semaphore. */
  predicate ReaderAtSemaphore(pc: ReaderPc) {
    match pc
    case FLock | FRoom | FData | FUnlock | CLock | CRelease | CWaitRoom | CRelock
      | CQuit | CData | CUnlock | CWake => true
    case _ => false
  }

  predicate WriterAtSemaphore(pc: WriterPc) {
    match pc
    case WLock | WEndUnlock | WRelease | WWaitData | WRelock | WQuit | WRoom | WUnlock | WErrorPost | WWake => true
    case _ => false
  }

  /** The bounds on the counters that every part below relies on. */
  predicate CountersInv(c: Config, s: State) {
    s.taken <= s.deposited <= |c.plan| && s.occupied == s.deposited - s.taken <= c.bufferChunks
  }

  lemma FillKeepsLock(c: Config, s: State)
    requires ValidConfig(c) && CountersInv(c, s) && ReaderEnabled(s) && Filling(s.rpc)
    requires LockInv(c, s)
    ensures LockInv(c, FillNext(c, s))
  {
  }

  lemma FillKeepsContent(c: Config, s: State)
    requires ValidConfig(c) && CountersInv(c, s) && RingInv(c, s) && ReaderInv(c, s)
    requires s.rpc.FCopy? || s.rpc.FNext? || s.rpc.FOccupied?
    ensures ContentInv(c, FillNext(c, s))
  {
    match s.rpc
    case FCopy => CopyKeepsContent(c, s, FNext);
    case FOccupied => CountKeepsContent(c, s, FillNext(c, s));
    case _ =>
  }

  lemma FillKeepsIndices(c: Config, s: State)
    requires ValidConfig(c) && IndexInv(c, s) && (s.rpc.FCopy? || s.rpc.FNext? || s.rpc.FOccupied?)
    ensures IndexInv(c, FillNext(c, s))
  {
    SlotStep(s.deposited, c.bufferChunks);
  }

  lemma FillKeepsFields(c: Config, s: State)
    requires ValidConfig(c) && Filling(s.rpc) && !s.rpc.FCopy? && !s.rpc.FNext? && !s.rpc.FOccupied?
    ensures RingUntouched(s, FillNext(c, s))
  {
  }

  lemma FillKeepsReader(c: Config, s: State)
    requires ValidConfig(c) && CountersInv(c, s) && ReaderEnabled(s) && Filling(s.rpc)
    requires ReaderInv(c, s)
    ensures ReaderInv(c, FillNext(c, s))
  {
  }

  lemma FillKeepsTokens(c: Config, s: State)
    requires ValidConfig(c) && CountersInv(c, s) && ReaderEnabled(s) && Filling(s.rpc)
    requires RoomInv(c, s) && DataInv(c, s) && ReaderInv(c, s) && LockInv(c, s) && EndInv(c, s)
    ensures RoomInv(c, FillNext(c, s)) && DataInv(c, FillNext(c, s))
  {
  }

  lemma FillKeepsEnd(c: Config, s: State)
    requires ValidConfig(c) && CountersInv(c, s) && ReaderEnabled(s) && Filling(s.rpc)
    requires WriterInv(c, s) && EndInv(c, s) && ReaderInv(c, s) && LockInv(c, s)
    ensures WriterInv(c, FillNext(c, s)) && EndInv(c, FillNext(c, s))
  {
  }

  lemma FillKeepsInv(c: Config, s: State)
    requires ValidConfig(c) && Inv(c, s) && ReaderEnabled(s) && Filling(s.rpc)
    ensures Inv(c, FillNext(c, s))
  {
    FillKeepsLock(c, s);
    if s.rpc.FCopy? || s.rpc.FNext? || s.rpc.FOccupied? {
      FillKeepsContent(c, s);
      FillKeepsIndices(c, s);
    } else {
      FillKeepsFields(c, s);
      SameRing(c, s, FillNext(c, s));
    }
    FillKeepsReader(c, s);
    FillKeepsTokens(c, s);
    FillKeepsEnd(c, s);
  }

  lemma SeekKeepsLock(c: Config, s: State)
    requires ValidConfig(c) && CountersInv(c, s) && ReaderEnabled(s) && Seeking(s.rpc)
    requires LockInv(c, s)
    ensures LockInv(c, SeekRoomNext(c, s))
  {
  }

  lemma SeekKeepsFields(c: Config, s: State)
    requires ValidConfig(c) && Seeking(s.rpc)
    ensures RingUntouched(s, SeekRoomNext(c, s))
  {
  }

  lemma SeekSemaphoreKeepsReader(c: Config, s: State)
    requires ValidConfig(c) && CountersInv(c, s) && ReaderEnabled(s) && Seeking(s.rpc)
    requires ReaderInv(c, s) && ReaderAtSemaphore(s.rpc)
    ensures ReaderInv(c, SeekRoomNext(c, s))
  {
  }

  lemma SeekFieldKeepsReader(c: Config, s: State)
    requires ValidConfig(c) && CountersInv(c, s) && ReaderEnabled(s) && Seeking(s.rpc)
    requires ReaderInv(c, s) && !ReaderAtSemaphore(s.rpc)
    ensures ReaderInv(c, SeekRoomNext(c, s))
  {
  }

  lemma SeekKeepsRoom(c: Config, s: State)
    requires ValidConfig(c) && CountersInv(c, s) && ReaderEnabled(s) && Seeking(s.rpc)
    requires RoomInv(c, s) && LockInv(c, s) && EndInv(c, s)
    ensures RoomInv(c, SeekRoomNext(c, s))
  {
  }

  lemma SeekKeepsData(c: Config, s: State)
    requires ValidConfig(c) && CountersInv(c, s) && ReaderEnabled(s) && Seeking(s.rpc)
    requires DataInv(c, s) && ReaderInv(c, s) && LockInv(c, s)
    ensures DataInv(c, SeekRoomNext(c, s))
  {
  }

  lemma SeekKeepsEnd(c: Config, s: State)
    requires ValidConfig(c) && CountersInv(c, s) && ReaderEnabled(s) && Seeking(s.rpc)
    requires WriterInv(c, s) && EndInv(c, s) && ReaderInv(c, s) && LockInv(c, s)
    ensures WriterInv(c, SeekRoomNext(c, s)) && EndInv(c, SeekRoomNext(c, s))
  {
  }

  lemma SeekKeepsInv(c: Config, s: State)
    requires ValidConfig(c) && Inv(c, s) && ReaderEnabled(s) && Seeking(s.rpc)
    ensures Inv(c, SeekRoomNext(c, s))
  {
    SeekKeepsLock(c, s);
    SeekKeepsFields(c, s);
    SameRing(c, s, SeekRoomNext(c, s));
    if ReaderAtSemaphore(s.rpc) { SeekSemaphoreKeepsReader(c, s); } else { SeekFieldKeepsReader(c, s); }
    SeekKeepsRoom(c, s);
    SeekKeepsData(c, s);
    SeekKeepsEnd(c, s);
  }

  lemma DepositKeepsLock(c: Config, s: State)
    requires ValidConfig(c) && CountersInv(c, s) && ReaderEnabled(s) && !Filling(s.rpc) && !Seeking(s.rpc)
    requires LockInv(c, s)
    ensures LockInv(c, DepositNext(c, s))
  {
  }

  lemma DepositKeepsContent(c: Config, s: State)
    requires ValidConfig(c) && CountersInv(c, s) && RingInv(c, s) && ReaderInv(c, s)
    requires s.rpc.CCopy? || s.rpc.CNext? || s.rpc.COccupied?
    ensures ContentInv(c, DepositNext(c, s))
  {
    match s.rpc
    case CCopy => CopyKeepsContent(c, s, CNext);
    case COccupied => CountKeepsContent(c, s, DepositNext(c, s));
    case _ =>
  }

  lemma DepositKeepsIndices(c: Config, s: State)
    requires ValidConfig(c) && IndexInv(c, s) && (s.rpc.CCopy? || s.rpc.CNext? || s.rpc.COccupied?)
    ensures IndexInv(c, DepositNext(c, s))
  {
    SlotStep(s.deposited, c.bufferChunks);
  }

  lemma DepositKeepsFields(c: Config, s: State)
    requires ValidConfig(c) && !Filling(s.rpc) && !Seeking(s.rpc)
    requires !s.rpc.CCopy? && !s.rpc.CNext? && !s.rpc.COccupied?
    ensures RingUntouched(s, DepositNext(c, s))
  {
  }

  lemma DepositSemaphoreKeepsReader(c: Config, s: State)
    requires ValidConfig(c) && CountersInv(c, s) && ReaderEnabled(s) && !Filling(s.rpc) && !Seeking(s.rpc)
    requires ReaderInv(c, s) && ReaderAtSemaphore(s.rpc)
    ensures ReaderInv(c, DepositNext(c, s))
  {
  }

  lemma DepositFieldKeepsReader(c: Config, s: State)
    requires ValidConfig(c) && CountersInv(c, s) && ReaderEnabled(s) && !Filling(s.rpc) && !Seeking(s.rpc)
    requires ReaderInv(c, s) && !ReaderAtSemaphore(s.rpc)
    ensures ReaderInv(c, DepositNext(c, s))
  {
  }

  lemma DepositKeepsRoom(c: Config, s: State)
    requires ValidConfig(c) && CountersInv(c, s) && ReaderEnabled(s) && !Filling(s.rpc) && !Seeking(s.rpc)
    requires RoomInv(c, s) && LockInv(c, s) && EndInv(c, s)
    ensures RoomInv(c, DepositNext(c, s))
  {
  }

  lemma DepositKeepsData(c: Config, s: State)
    requires ValidConfig(c) && CountersInv(c, s) && ReaderEnabled(s) && !Filling(s.rpc) && !Seeking(s.rpc)
    requires DataInv(c, s) && ReaderInv(c, s) && LockInv(c, s)
    ensures DataInv(c, DepositNext(c, s))
  {
  }

  lemma DepositKeepsEnd(c: Config, s: State)
    requires ValidConfig(c) && CountersInv(c, s) && ReaderEnabled(s) && !Filling(s.rpc) && !Seeking(s.rpc)
    requires WriterInv(c, s) && EndInv(c, s) && ReaderInv(c, s) && LockInv(c, s)
    ensures WriterInv(c, DepositNext(c, s)) && EndInv(c, DepositNext(c, s))
  {
  }

  lemma DepositKeepsInv(c: Config, s: State)
    requires ValidConfig(c) && Inv(c, s) && ReaderEnabled(s) && !Filling(s.rpc) && !Seeking(s.rpc)
    ensures Inv(c, DepositNext(c, s))
  {
    DepositKeepsLock(c, s);
    if s.rpc.CCopy? || s.rpc.CNext? || s.rpc.COccupied? {
      DepositKeepsContent(c, s);
      DepositKeepsIndices(c, s);
    } else {
      DepositKeepsFields(c, s);
      SameRing(c, s, DepositNext(c, s));
    }
    if ReaderAtSemaphore(s.rpc) { DepositSemaphoreKeepsReader(c, s); } else { DepositFieldKeepsReader(c, s); }
    DepositKeepsRoom(c, s);
    DepositKeepsData(c, s);
    DepositKeepsEnd(c, s);
  }

  // ---- one writer step ----

  lemma CheckEndKeepsLock(c: Config, s: State)
    requires ValidConfig(c) && CountersInv(c, s) && WriterEnabled(s) && CheckingEnd(s.wpc)
    requires LockInv(c, s) && WriterInv(c, s)
    ensures LockInv(c, CheckEndNext(c, s)) && RingUntouched(s, CheckEndNext(c, s))
  {
  }

  lemma CheckEndKeepsTokens(c: Config, s: State)
    requires ValidConfig(c) && CountersInv(c, s) && WriterEnabled(s) && CheckingEnd(s.wpc)
    requires ReaderInv(c, s) && RoomInv(c, s) && DataInv(c, s) && WriterInv(c, s) && LockInv(c, s) && EndInv(c, s)
    ensures ReaderInv(c, CheckEndNext(c, s)) && RoomInv(c, CheckEndNext(c, s)) && DataInv(c, CheckEndNext(c, s))
  {
  }

  lemma CheckEndKeepsWriter(c: Config, s: State)
    requires ValidConfig(c) && CountersInv(c, s) && WriterEnabled(s) && CheckingEnd(s.wpc)
    requires WriterInv(c, s) && RingInv(c, s)
    ensures WriterInv(c, CheckEndNext(c, s))
  {
  }

  lemma CheckEndKeepsEnd(c: Config, s: State)
    requires ValidConfig(c) && CountersInv(c, s) && WriterEnabled(s) && CheckingEnd(s.wpc)
    requires EndInv(c, s) && ReaderInv(c, s) && LockInv(c, s) && WriterInv(c, s)
    ensures EndInv(c, CheckEndNext(c, s))
  {
  }

  lemma CheckEndKeepsInv(c: Config, s: State)
    requires ValidConfig(c) && Inv(c, s) && WriterEnabled(s) && CheckingEnd(s.wpc)
    ensures Inv(c, CheckEndNext(c, s))
  {
    CheckEndKeepsLock(c, s);
    SameRing(c, s, CheckEndNext(c, s));
    CheckEndKeepsTokens(c, s);
    CheckEndKeepsWriter(c, s);
    CheckEndKeepsEnd(c, s);
  }

  lemma SeekDataKeepsLock(c: Config, s: State)
    requires ValidConfig(c) && CountersInv(c, s) && WriterEnabled(s) && SeekingData(s.wpc)
    requires LockInv(c, s) && WriterInv(c, s)
    ensures LockInv(c, SeekDataNext(c, s)) && RingUntouched(s, SeekDataNext(c, s))
  {
  }

  lemma SeekDataKeepsTokens(c: Config, s: State)
    requires ValidConfig(c) && CountersInv(c, s) && WriterEnabled(s) && SeekingData(s.wpc)
    requires ReaderInv(c, s) && RoomInv(c, s) && DataInv(c, s) && WriterInv(c, s) && LockInv(c, s) && EndInv(c, s)
    ensures ReaderInv(c, SeekDataNext(c, s)) && RoomInv(c, SeekDataNext(c, s)) && DataInv(c, SeekDataNext(c, s))
  {
  }

  lemma SeekDataKeepsWriter(c: Config, s: State)
    requires ValidConfig(c) && CountersInv(c, s) && WriterEnabled(s) && SeekingData(s.wpc)
    requires WriterInv(c, s) && RingInv(c, s)
    ensures WriterInv(c, SeekDataNext(c, s))
  {
  }

  lemma SeekDataKeepsEnd(c: Config, s: State)
    requires ValidConfig(c) && CountersInv(c, s) && WriterEnabled(s) && SeekingData(s.wpc)
    requires EndInv(c, s) && ReaderInv(c, s) && LockInv(c, s) && WriterInv(c, s)
    ensures EndInv(c, SeekDataNext(c, s))
  {
  }

  lemma SeekDataKeepsInv(c: Config, s: State)
    requires ValidConfig(c) && Inv(c, s) && WriterEnabled(s) && SeekingData(s.wpc)
    ensures Inv(c, SeekDataNext(c, s))
  {
    SeekDataKeepsLock(c, s);
    SameRing(c, s, SeekDataNext(c, s));
    SeekDataKeepsTokens(c, s);
    SeekDataKeepsWriter(c, s);
    SeekDataKeepsEnd(c, s);
  }

  lemma DrainKeepsLock(c: Config, s: State)
    requires ValidConfig(c) && CountersInv(c, s) && WriterEnabled(s) && !CheckingEnd(s.wpc) && !SeekingData(s.wpc)
    requires LockInv(c, s) && WriterInv(c, s)
    ensures LockInv(c, DrainNext(c, s))
  {
  }

  lemma DrainKeepsContent(c: Config, s: State)
    requires ValidConfig(c) && CountersInv(c, s) && (s.wpc.WNext? || s.wpc.WOccupied?)
    requires ContentInv(c, s) && WriterInv(c, s)
    ensures ContentInv(c, DrainNext(c, s))
  {
  }

  lemma DrainKeepsIndices(c: Config, s: State)
    requires ValidConfig(c) && IndexInv(c, s) && (s.wpc.WNext? || s.wpc.WOccupied?)
    ensures IndexInv(c, DrainNext(c, s))
  {
    SlotStep(s.taken, c.bufferChunks);
  }

  lemma DrainKeepsFields(c: Config, s: State)
    requires ValidConfig(c) && !CheckingEnd(s.wpc) && !SeekingData(s.wpc) && !s.wpc.WNext? && !s.wpc.WOccupied?
    ensures RingUntouched(s, DrainNext(c, s))
  {
    if WriterAtSemaphore(s.wpc) { PostsKeepFields(c, s); }
  }

  lemma PostsKeepFields(c: Config, s: State)
    requires ValidConfig(c) && (s.wpc.WRoom? || s.wpc.WUnlock? || s.wpc.WErrorPost? || s.wpc.WWake?)
    ensures RingUntouched(s, DrainNext(c, s))
  {
  }

  lemma DrainKeepsReader(c: Config, s: State)
    requires ValidConfig(c) && CountersInv(c, s) && WriterEnabled(s) && !CheckingEnd(s.wpc) && !SeekingData(s.wpc)
    requires ReaderInv(c, s) && LockInv(c, s) && WriterInv(c, s)
    ensures ReaderInv(c, DrainNext(c, s))
  {
  }

  lemma DrainKeepsRoom(c: Config, s: State)
    requires ValidConfig(c) && CountersInv(c, s) && WriterEnabled(s) && !CheckingEnd(s.wpc) && !SeekingData(s.wpc)
    requires RoomInv(c, s) && WriterInv(c, s) && ReaderInv(c, s) && LockInv(c, s) && EndInv(c, s)
    ensures RoomInv(c, DrainNext(c, s))
  {
  }

  lemma DrainSemaphoreKeepsData(c: Config, s: State)
    requires ValidConfig(c) && CountersInv(c, s) && WriterEnabled(s) && !CheckingEnd(s.wpc) && !SeekingData(s.wpc)
    requires DataInv(c, s) && ReaderInv(c, s) && LockInv(c, s) && WriterAtSemaphore(s.wpc)
    ensures DataInv(c, DrainNext(c, s))
  {
  }

  lemma DrainFieldKeepsData(c: Config, s: State)
    requires ValidConfig(c) && CountersInv(c, s) && WriterEnabled(s) && !CheckingEnd(s.wpc) && !SeekingData(s.wpc)
    requires DataInv(c, s) && ReaderInv(c, s) && LockInv(c, s) && !WriterAtSemaphore(s.wpc)
    ensures DataInv(c, DrainNext(c, s))
  {
  }

  /** A chunk is taken out of its slot. */
  lemma CopyOutKeepsWriter(c: Config, s: State)
    requires ValidConfig(c) && s.wpc.WCopy? && WriterInv(c, s) && RingInv(c, s)
    ensures WriterInv(c, DrainNext(c, s))
  {
  }

  lemma WriteKeepsWriter(c: Config, s: State)
    requires ValidConfig(c) && s.wpc.WWrite? && WriterInv(c, s)
    ensures WriterInv(c, DrainNext(c, s))
  {
    assert c.plan[..s.taken] == c.plan[..s.taken - 1] + [c.plan[s.taken - 1]];
  }

  lemma DrainKeepsWriter(c: Config, s: State)
    requires ValidConfig(c) && CountersInv(c, s) && WriterEnabled(s) && !CheckingEnd(s.wpc) && !SeekingData(s.wpc)
    requires WriterInv(c, s) && RingInv(c, s)
    ensures WriterInv(c, DrainNext(c, s))
  {
    match s.wpc
    case WCopy => CopyOutKeepsWriter(c, s);
    case WWrite => WriteKeepsWriter(c, s);
    case _ => RestKeepsWriter(c, s);
  }

  lemma RestKeepsWriter(c: Config, s: State)
    requires ValidConfig(c) && CountersInv(c, s) && WriterEnabled(s) && !CheckingEnd(s.wpc) && !SeekingData(s.wpc)
    requires WriterInv(c, s) && !s.wpc.WCopy? && !s.wpc.WWrite?
    ensures WriterInv(c, DrainNext(c, s))
  {
  }

  lemma DrainKeepsEnd(c: Config, s: State)
    requires ValidConfig(c) && CountersInv(c, s) && WriterEnabled(s) && !CheckingEnd(s.wpc) && !SeekingData(s.wpc)
    requires EndInv(c, s) && ReaderInv(c, s) && LockInv(c, s) && WriterInv(c, s)
    ensures EndInv(c, DrainNext(c, s))
  {
  }

  lemma DrainKeepsRing(c: Config, s: State)
    requires ValidConfig(c) && CountersInv(c, s) && WriterEnabled(s) && !CheckingEnd(s.wpc) && !SeekingData(s.wpc)
    requires RingInv(c, s) && WriterInv(c, s)
    ensures RingInv(c, DrainNext(c, s))
  {
    if s.wpc.WNext? || s.wpc.WOccupied? {
      DrainKeepsContent(c, s);
      DrainKeepsIndices(c, s);
    } else {
      DrainKeepsFields(c, s);
      SameRing(c, s, DrainNext(c, s));
    }
  }

  lemma DrainKeepsInv(c: Config, s: State)
    requires ValidConfig(c) && Inv(c, s) && WriterEnabled(s) && !CheckingEnd(s.wpc) && !SeekingData(s.wpc)
    ensures Inv(c, DrainNext(c, s))
  {
    DrainKeepsLock(c, s);
    DrainKeepsRing(c, s);
    DrainKeepsReader(c, s);
    DrainKeepsRoom(c, s);
    if WriterAtSemaphore(s.wpc) { DrainSemaphoreKeepsData(c, s); } else { DrainFieldKeepsData(c, s); }
    DrainKeepsWriter(c, s);
    DrainKeepsEnd(c, s);
  }

  // ---- every action ----

  lemma WriteErrorKeepsInv(c: Config, s: State)
    requires ValidConfig(c) && Inv(c, s) && Enabled(s, WriteFails)
    ensures Inv(c, Step(c, s, WriteFails))
  {
    SameRing(c, s, Step(c, s, WriteFails));
  }

  /** The parts in which the state of play has no say. */
  lemma PlayKeepsRest(c: Config, s: State, play: PlayState, cause: Cause)
    requires ValidConfig(c) && LockInv(c, s) && RingInv(c, s) && RoomInv(c, s)
    ensures var t := s.(play := play, cause := cause);
            LockInv(c, t) && RingInv(c, t) && RoomInv(c, t)
  {
    SameRing(c, s, s.(play := play, cause := cause));
  }

  lemma StopKeepsInv(c: Config, s: State)
    requires ValidConfig(c) && Inv(c, s) && Enabled(s, Stop)
    ensures Inv(c, Step(c, s, Stop))
  {
    PlayKeepsRest(c, s, Completed, Stopped);
  }

  lemma PauseKeepsInv(c: Config, s: State)
    requires ValidConfig(c) && Inv(c, s) && Enabled(s, Pause)
    ensures Inv(c, Step(c, s, Pause))
  {
    PlayKeepsRest(c, s, Paused, s.cause);
  }

  lemma ResumeKeepsInv(c: Config, s: State)
    requires ValidConfig(c) && Inv(c, s) && Enabled(s, Resume)
    ensures Inv(c, Step(c, s, Resume))
  {
    PlayKeepsRest(c, s, Playing, s.cause);
  }

  lemma StepKeepsInv(c: Config, s: State, a: Action)
    requires ValidConfig(c) && Inv(c, s) && Enabled(s, a)
    ensures Inv(c, Step(c, s, a))
  {
    match a
    case ReaderStep =>
      if Filling(s.rpc) { FillKeepsInv(c, s); }
      else if Seeking(s.rpc) { SeekKeepsInv(c, s); }
      else { DepositKeepsInv(c, s); }
    case WriterStep =>
      if CheckingEnd(s.wpc) { CheckEndKeepsInv(c, s); }
      else if SeekingData(s.wpc) { SeekDataKeepsInv(c, s); }
      else { DrainKeepsInv(c, s); }
    case WriteFails => WriteErrorKeepsInv(c, s);
    case Stop => StopKeepsInv(c, s);
    case Pause => PauseKeepsInv(c, s);
    case Resume => ResumeKeepsInv(c, s);
  }

  lemma {:induction false} RunKeepsInv(c: Config, s: State, actions: seq<Action>, t: State)
    requires ValidConfig(c) && Inv(c, s) && Leads(c, s, actions, t)
    ensures Inv(c, t)
    decreases |actions|
  {
    if actions != [] {
      StepKeepsInv(c, s, actions[0]);
      RunKeepsInv(c, Step(c, s, actions[0]), actions[1..], t);
    }
  }

  lemma {:induction false} ReachableInv(c: Config, t: State)
    requires ValidConfig(c) && Reachable(c, t)
    ensures Inv(c, t)
  {
    var s, actions :| IsStart(c, 1, s) && Leads(c, s, actions, t);
    StartInv(c, s);
    RunKeepsInv(c, s, actions, t);
  }
}

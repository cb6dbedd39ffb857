/**
  Every run of the two loops is finite, no state is stuck, and a stop is obeyed
  within a bounded number of steps of each loop.
 */
module Progress {
  import opened Basics
  import opened Semaphores
  import opened Protocol
  import opened ProtocolInv

  // ---- one measure for the whole machine ----

  /** Extra steps a post may need because of ERANGE. */
  function RetrySteps(b: Backend, v: nat, erange: bool): nat {
    PostStepsLeft(b, v, erange) - 1
  }

  function ReaderRank(b: Backend, pc: ReaderPc, data: nat, erange: bool): nat {
    match pc
    case FLock => 61 case FTest => 60 case FMark => 59 case FCopy => 58 case FNext => 57
    case FOccupied => 56 case FRoom => 55 case FData => 50 + RetrySteps(b, data, erange) case FUnlock => 40
    case CTest => 30 case CMark => 29 case CLock => 28
    case CRelock => 21 case CTestRoom => 20 case CRelease => 19 case CWaitRoom => 18
    case CCheck => 17 case CQuit => 16
    case CCopy => 15 case CNext => 14 case COccupied => 13
    case CData => 44 + RetrySteps(b, data, erange) case CUnlock => 36
    case CWake => 8 + RetrySteps(b, data, erange) case RDone => 0
  }

  function WriterRank(b: Backend, pc: WriterPc, room: nat, erange: bool): nat {
    match pc
    case WTest => 30 case WLock => 29 case WCheckEnd => 28 case WEndSet => 27 case WEndUnlock => 26
    case WRelock => 21 case WTestData => 20 case WRelease => 19 case WWaitData => 18
    case WCheck => 17 case WQuit => 16
    case WCopy => 15 case WNext => 14 case WOccupied => 13
    case WRoom => 50 + RetrySteps(b, room, erange) case WUnlock => 42
    case WWrite => 41 case WErrorSet => 40 case WErrorPost => 39 case WPause => 38
    case WWake => 8 + RetrySteps(b, room, erange) case WDone => 0
  }

  /** Chunks still to deposit, chunks still to take, tokens, and the two program counters. */
  function Measure(c: Config, s: State): int {
    40 * (|c.plan| - s.deposited) + 40 * (|c.plan| - s.taken) + 5 * s.room + 5 * s.data
    + ReaderRank(c.backend, s.rpc, s.data, s.rErange) + WriterRank(c.backend, s.wpc, s.room, s.wErange)
  }

  lemma FillSemaphoreCounts(c: Config, s: State)
    requires ValidConfig(c) && LockInv(c, s) && ReaderEnabled(s) && Filling(s.rpc) && ReaderAtSemaphore(s.rpc)
    ensures Measure(c, FillNext(c, s)) < Measure(c, s)
  {
  }

  lemma FillFieldCounts(c: Config, s: State)
    requires ValidConfig(c) && LockInv(c, s) && ReaderEnabled(s) && Filling(s.rpc) && !ReaderAtSemaphore(s.rpc)
    ensures Measure(c, FillNext(c, s)) < Measure(c, s)
  {
  }

  lemma SeekSemaphoreCounts(c: Config, s: State)
    requires ValidConfig(c) && LockInv(c, s) && ReaderEnabled(s) && Seeking(s.rpc) && ReaderAtSemaphore(s.rpc)
    ensures Measure(c, SeekRoomNext(c, s)) < Measure(c, s)
  {
  }

  lemma SeekFieldCounts(c: Config, s: State)
    requires ValidConfig(c) && LockInv(c, s) && ReaderEnabled(s) && Seeking(s.rpc) && !ReaderAtSemaphore(s.rpc)
    ensures Measure(c, SeekRoomNext(c, s)) < Measure(c, s)
  {
  }

  lemma PostDataCounts(c: Config, s: State)
    requires ValidConfig(c) && LockInv(c, s) && (s.rpc.CData? || s.rpc.CWake?)
    ensures Measure(c, DepositNext(c, s)) < Measure(c, s)
  {
  }

  lemma UnlockCounts(c: Config, s: State)
    requires ValidConfig(c) && LockInv(c, s) && s.rpc.CUnlock?
    ensures Measure(c, DepositNext(c, s)) < Measure(c, s)
  {
  }

  lemma DepositFieldCounts(c: Config, s: State)
    requires ValidConfig(c) && LockInv(c, s) && ReaderEnabled(s)
    requires !Filling(s.rpc) && !Seeking(s.rpc) && !ReaderAtSemaphore(s.rpc)
    ensures Measure(c, DepositNext(c, s)) < Measure(c, s)
  {
  }

  lemma CheckEndCounts(c: Config, s: State)
    requires ValidConfig(c) && LockInv(c, s) && WriterEnabled(s) && CheckingEnd(s.wpc)
    ensures Measure(c, CheckEndNext(c, s)) < Measure(c, s)
  {
  }

  lemma SeekDataPostCounts(c: Config, s: State)
    requires ValidConfig(c) && LockInv(c, s) && (s.wpc.WRelease? || s.wpc.WQuit?)
    ensures Measure(c, SeekDataNext(c, s)) < Measure(c, s)
  {
  }

  lemma SeekDataWaitCounts(c: Config, s: State)
    requires ValidConfig(c) && LockInv(c, s) && WriterEnabled(s) && (s.wpc.WWaitData? || s.wpc.WRelock?)
    ensures Measure(c, SeekDataNext(c, s)) < Measure(c, s)
  {
  }

  lemma SeekDataFieldCounts(c: Config, s: State)
    requires ValidConfig(c) && LockInv(c, s) && WriterEnabled(s) && SeekingData(s.wpc) && !WriterAtSemaphore(s.wpc)
    ensures Measure(c, SeekDataNext(c, s)) < Measure(c, s)
  {
  }

  lemma PostRoomCounts(c: Config, s: State)
    requires ValidConfig(c) && LockInv(c, s) && (s.wpc.WRoom? || s.wpc.WWake?)
    ensures Measure(c, DrainNext(c, s)) < Measure(c, s)
  {
  }

  lemma DrainFieldCounts(c: Config, s: State)
    requires ValidConfig(c) && LockInv(c, s) && WriterEnabled(s) && !CheckingEnd(s.wpc) && !SeekingData(s.wpc)
    requires !s.wpc.WRoom? && !s.wpc.WWake?
    ensures Measure(c, DrainNext(c, s)) < Measure(c, s)
  {
  }

  /** Steps of the two threads, as opposed to calls of the control thread. */
  predicate ThreadAction(a: Action) {
    a.ReaderStep? || a.WriterStep? || a.WriteFails?
  }

  function ThreadSteps(actions: seq<Action>): nat {
    if actions == [] then 0
    else (if ThreadAction(actions[0]) then 1 else 0) + ThreadSteps(actions[1..])
  }

  lemma StepCounts(c: Config, s: State, a: Action)
    requires ValidConfig(c) && LockInv(c, s) && Enabled(s, a)
    ensures Measure(c, Step(c, s, a)) <= Measure(c, s) - (if ThreadAction(a) then 1 else 0)
  {
    match a
    case ReaderStep =>
      if Filling(s.rpc) {
        if ReaderAtSemaphore(s.rpc) { FillSemaphoreCounts(c, s); } else { FillFieldCounts(c, s); }
      } else if Seeking(s.rpc) {
        if ReaderAtSemaphore(s.rpc) { SeekSemaphoreCounts(c, s); } else { SeekFieldCounts(c, s); }
      } else {
        if s.rpc.CUnlock? { UnlockCounts(c, s); }
        else if s.rpc.CData? || s.rpc.CWake? { PostDataCounts(c, s); }
        else { DepositFieldCounts(c, s); }
      }
    case WriterStep =>
      if CheckingEnd(s.wpc) { CheckEndCounts(c, s); }
      else if SeekingData(s.wpc) {
        if s.wpc.WRelease? || s.wpc.WQuit? { SeekDataPostCounts(c, s); }
        else if s.wpc.WWaitData? || s.wpc.WRelock? { SeekDataWaitCounts(c, s); }
        else { SeekDataFieldCounts(c, s); }
      } else {
        if s.wpc.WRoom? || s.wpc.WWake? { PostRoomCounts(c, s); } else { DrainFieldCounts(c, s); }
      }
    case _ =>
  }

  lemma {:induction false} RunCounts(c: Config, s: State, actions: seq<Action>, t: State)
    requires ValidConfig(c) && Inv(c, s) && Leads(c, s, actions, t)
    ensures ThreadSteps(actions) + Measure(c, t) <= Measure(c, s)
    decreases |actions|
  {
    if actions != [] {
      StepCounts(c, s, actions[0]);
      StepKeepsInv(c, s, actions[0]);
      RunCounts(c, Step(c, s, actions[0]), actions[1..], t);
    }
  }

  /** Whatever the schedule, and however often playback is paused, stopped or a
      write fails, the two threads take at most 80 * |plan| + 96 steps. */
  lemma {:induction false} RunsAreFinite(c: Config, s: State, actions: seq<Action>, t: State)
    requires ValidConfig(c) && IsStart(c, 1, s) && Leads(c, s, actions, t)
    ensures ThreadSteps(actions) <= 80 * |c.plan| + 96
  {
    StartInv(c, s);
    RunCounts(c, s, actions, t);
    RunKeepsInv(c, s, actions, t);
  }

  // ---- nobody is stuck ----

  predicate BothLeft(s: State) {
    s.rpc.RDone? && s.wpc.WDone?
  }

  /** In a reachable state that is not paused a thread can move, unless both have left. */
  lemma {:induction false} NeverStuck(c: Config, s: State)
    requires ValidConfig(c) && Reachable(c, s) && s.play != Paused
    ensures BothLeft(s) || ReaderEnabled(s) || WriterEnabled(s)
  {
    ReachableInv(c, s);
    SomeoneMoves(c, s);
  }

  lemma SomeoneMoves(c: Config, s: State)
    requires ValidConfig(c) && Inv(c, s) && s.play != Paused
    ensures BothLeft(s) || ReaderEnabled(s) || WriterEnabled(s)
  {
  }

  /** A reader asleep on ROOM faces a full ring, a writer asleep on DATA an empty
      one, unless the token is there or the other thread is on its way to post it. */
  lemma {:induction false} NoLostWakeup(c: Config, s: State)
    requires ValidConfig(c) && Reachable(c, s)
    ensures s.rpc.CWaitRoom? && s.occupied < c.bufferChunks ==>
              s.room >= 1 || s.wpc.WRoom? || s.wpc.WWake?
    ensures s.wpc.WWaitData? && s.occupied > 0 ==>
              s.data >= 1 || ReaderAboutToPost(s.rpc)
    ensures s.rpc.CWaitRoom? && s.wpc.WDone? ==> s.room >= 1
    ensures s.wpc.WWaitData? && s.rpc.RDone? ==> s.data >= 1
  {
    ReachableInv(c, s);
  }

  // ---- pause takes effect ----

  /** Chunks the writer can still write without getting past its pause. */
  function WritesLeft(pc: WriterPc): nat {
    match pc
    case WPause | WEndSet | WEndUnlock | WQuit | WErrorSet | WErrorPost | WWake | WDone => 0
    case _ => 1
  }

  /** The run is paused, or the writer has ended it by itself since. */
  predicate PausedOrEnded(s: State) {
    s.play == Paused || (s.play == Completed && (s.wpc.WEndUnlock? || s.wpc.WErrorPost? || WriterLeft(s.wpc)))
  }

  /** A step that writes no more than it may. */
  predicate WritesWithin(s: State, t: State) {
    PausedOrEnded(t) && |t.written| + WritesLeft(t.wpc) <= |s.written| + WritesLeft(s.wpc)
  }

  /** The reader leaves the writer alone. */
  predicate SameWriter(s: State, t: State) {
    t.play == s.play && t.wpc == s.wpc && t.written == s.written
  }

  lemma FillLetsWrite(c: Config, s: State)
    requires ValidConfig(c)
    ensures SameWriter(s, FillNext(c, s))
  {
  }

  lemma SeekLetsWrite(c: Config, s: State)
    requires ValidConfig(c)
    ensures SameWriter(s, SeekRoomNext(c, s))
  {
  }

  lemma DepositLetsWrite(c: Config, s: State)
    requires ValidConfig(c)
    ensures SameWriter(s, DepositNext(c, s))
  {
  }

  lemma PausedCheckEnd(c: Config, s: State)
    requires ValidConfig(c) && PausedOrEnded(s) && WriterEnabled(s) && CheckingEnd(s.wpc)
    ensures WritesWithin(s, CheckEndNext(c, s))
  {
  }

  lemma PausedSeekData(c: Config, s: State)
    requires ValidConfig(c) && PausedOrEnded(s) && WriterEnabled(s) && SeekingData(s.wpc)
    ensures WritesWithin(s, SeekDataNext(c, s))
  {
  }

  lemma PausedDrain(c: Config, s: State)
    requires ValidConfig(c) && PausedOrEnded(s) && WriterEnabled(s) && !CheckingEnd(s.wpc) && !SeekingData(s.wpc)
    ensures WritesWithin(s, DrainNext(c, s))
  {
  }

  lemma PausedStep(c: Config, s: State, a: Action)
    requires ValidConfig(c) && PausedOrEnded(s) && Enabled(s, a) && !a.Stop? && !a.Resume?
    ensures WritesWithin(s, Step(c, s, a))
  {
    match a
    case ReaderStep =>
      FillLetsWrite(c, s);
      SeekLetsWrite(c, s);
      DepositLetsWrite(c, s);
    case WriterStep =>
      if CheckingEnd(s.wpc) { PausedCheckEnd(c, s); }
      else if SeekingData(s.wpc) { PausedSeekData(c, s); }
      else { PausedDrain(c, s); }
    case _ =>
  }

  lemma {:induction false} PausedRun(c: Config, s: State, actions: seq<Action>, t: State)
    requires ValidConfig(c) && PausedOrEnded(s) && Leads(c, s, actions, t)
    requires Stop !in actions && Resume !in actions
    ensures WritesWithin(s, t)
    decreases |actions|
  {
    if actions != [] {
      PausedStep(c, s, actions[0]);
      PausedRun(c, Step(c, s, actions[0]), actions[1..], t);
    }
  }

  /** From a pause to the next resume or stop the writer writes at most the chunk it is
      about to write, and none once it waits in its delay loop. */
  lemma {:induction false} PauseTakesEffect(c: Config, s: State, actions: seq<Action>, t: State)
    requires ValidConfig(c) && s.play == Paused && Leads(c, s, actions, t)
    requires Stop !in actions && Resume !in actions
    ensures |t.written| <= |s.written| + if s.wpc.WPause? then 0 else 1
  {
    PausedRun(c, s, actions, t);
  }

  // ---- stop takes effect ----

  /** Deposits the reader can still make once COMPLETED is set. */
  function DepositsLeft(pc: ReaderPc, filled: int, deposited: nat): int {
    if Filling(pc) then filled - deposited
    else if pc.CCopy? || pc.CNext? || pc.COccupied? then 1
    else 0
  }

  function DepositsAfterStop(c: Config, s: State): int {
    DepositsLeft(s.rpc, Min(c.bufferChunks, |c.plan|), s.deposited)
  }

  /** Own steps from a program point to the end of the reader, with `k` chunks to
      deposit and `post` steps in the post under way. */
  function ReaderDistance(pc: ReaderPc, k: int, post: nat): int {
    match pc
    case FLock => 12 + 5 * k case FTest => 11 + 5 * k case FMark => 10 + 5 * k case FCopy => 9 + 5 * k
    case FNext => 8 + 5 * k case FOccupied => 7 + 5 * k
    case FRoom => 10 case FData => 6 + post case FUnlock => 5
    case CTest => 4 case CMark => 8 case CLock => 7
    case CRelock => 7 case CTestRoom => 6 case CRelease => 9 case CWaitRoom => 8
    case CCheck => 5 case CQuit => 4
    case CCopy => 12 case CNext => 11 case COccupied => 10 case CData => 6 + post case CUnlock => 5
    case CWake => post case RDone => 0
  }

  function WriterDistance(pc: WriterPc, post: nat): nat {
    match pc
    case WTest => 4 case WLock => 9 case WCheckEnd => 8 case WEndSet => 5 case WEndUnlock => 4
    case WRelock => 7 case WTestData => 6 case WRelease => 9 case WWaitData => 8
    case WCheck => 5 case WQuit => 4
    case WCopy => 14 case WNext => 13 case WOccupied => 12 case WRoom => 8 + post
    case WUnlock => 8 case WWrite => 7 case WErrorSet => 5 case WErrorPost => 4 case WPause => 5
    case WWake => post case WDone => 0
  }

  /** Own steps the reader needs to leave once COMPLETED is set. */
  function ReaderExit(c: Config, s: State): int {
    ReaderDistance(s.rpc, DepositsAfterStop(c, s), PostStepsLeft(c.backend, s.data, s.rErange))
  }

  /** Own steps the writer needs to leave once COMPLETED is set. */
  function WriterExit(c: Config, s: State): int {
    WriterDistance(s.wpc, PostStepsLeft(c.backend, s.room, s.wErange))
  }

  /** One step of a thread after COMPLETED: both loops get no further from their exits. */
  predicate CloserToExit(c: Config, s: State, t: State, reader: int, writer: int) {
    && t.play == Completed
    && ReaderExit(c, t) <= ReaderExit(c, s) - reader
    && WriterExit(c, t) <= WriterExit(c, s) - writer
    && t.deposited + DepositsAfterStop(c, t) == s.deposited + DepositsAfterStop(c, s)
  }

  lemma StoppedAtFillSemaphore(c: Config, s: State)
    requires ValidConfig(c) && LockInv(c, s) && ReaderInv(c, s) && s.play == Completed
    requires ReaderEnabled(s) && Filling(s.rpc) && ReaderAtSemaphore(s.rpc)
    ensures CloserToExit(c, s, FillNext(c, s), 1, 0)
  {
  }

  lemma StoppedAtFillField(c: Config, s: State)
    requires ValidConfig(c) && LockInv(c, s) && ReaderInv(c, s) && s.play == Completed
    requires ReaderEnabled(s) && Filling(s.rpc) && !ReaderAtSemaphore(s.rpc)
    ensures CloserToExit(c, s, FillNext(c, s), 1, 0)
  {
  }

  lemma StoppedAtSeekSemaphore(c: Config, s: State)
    requires ValidConfig(c) && LockInv(c, s) && s.play == Completed
    requires ReaderEnabled(s) && Seeking(s.rpc) && ReaderAtSemaphore(s.rpc)
    ensures CloserToExit(c, s, SeekRoomNext(c, s), 1, 0)
  {
  }

  lemma StoppedAtSeekField(c: Config, s: State)
    requires ValidConfig(c) && LockInv(c, s) && s.play == Completed
    requires ReaderEnabled(s) && Seeking(s.rpc) && !ReaderAtSemaphore(s.rpc)
    ensures CloserToExit(c, s, SeekRoomNext(c, s), 1, 0)
  {
  }

  lemma StoppedAtDepositSemaphore(c: Config, s: State)
    requires ValidConfig(c) && LockInv(c, s) && s.play == Completed
    requires ReaderEnabled(s) && !Filling(s.rpc) && !Seeking(s.rpc) && ReaderAtSemaphore(s.rpc)
    ensures CloserToExit(c, s, DepositNext(c, s), 1, 0)
  {
  }

  lemma StoppedAtDepositField(c: Config, s: State)
    requires ValidConfig(c) && LockInv(c, s) && s.play == Completed
    requires ReaderEnabled(s)
    requires !Filling(s.rpc) && !Seeking(s.rpc) && !ReaderAtSemaphore(s.rpc)
    ensures CloserToExit(c, s, DepositNext(c, s), 1, 0)
  {
  }

  lemma StoppedCheckEnd(c: Config, s: State)
    requires ValidConfig(c) && LockInv(c, s) && s.play == Completed
    requires WriterEnabled(s) && CheckingEnd(s.wpc)
    ensures CloserToExit(c, s, CheckEndNext(c, s), 0, 1)
  {
  }

  lemma StoppedAtSeekDataSemaphore(c: Config, s: State)
    requires ValidConfig(c) && LockInv(c, s) && s.play == Completed
    requires WriterEnabled(s) && SeekingData(s.wpc) && WriterAtSemaphore(s.wpc)
    ensures CloserToExit(c, s, SeekDataNext(c, s), 0, 1)
  {
  }

  lemma StoppedAtSeekDataField(c: Config, s: State)
    requires ValidConfig(c) && LockInv(c, s) && s.play == Completed
    requires WriterEnabled(s) && SeekingData(s.wpc) && !WriterAtSemaphore(s.wpc)
    ensures CloserToExit(c, s, SeekDataNext(c, s), 0, 1)
  {
  }

  lemma StoppedAtDrainSemaphore(c: Config, s: State)
    requires ValidConfig(c) && LockInv(c, s) && s.play == Completed
    requires WriterEnabled(s) && !CheckingEnd(s.wpc) && !SeekingData(s.wpc) && WriterAtSemaphore(s.wpc)
    ensures CloserToExit(c, s, DrainNext(c, s), 0, 1)
  {
  }

  lemma StoppedAtDrainField(c: Config, s: State)
    requires ValidConfig(c) && LockInv(c, s) && s.play == Completed
    requires WriterEnabled(s) && !CheckingEnd(s.wpc) && !SeekingData(s.wpc) && !WriterAtSemaphore(s.wpc)
    ensures CloserToExit(c, s, DrainNext(c, s), 0, 1)
  {
  }

  lemma StoppedStep(c: Config, s: State, a: Action)
    requires ValidConfig(c) && LockInv(c, s) && ReaderInv(c, s) && s.play == Completed && Enabled(s, a)
    ensures CloserToExit(c, s, Step(c, s, a), if a.ReaderStep? then 1 else 0,
                         if a.WriterStep? || a.WriteFails? then 1 else 0)
  {
    match a
    case ReaderStep =>
      if Filling(s.rpc) {
        if ReaderAtSemaphore(s.rpc) { StoppedAtFillSemaphore(c, s); } else { StoppedAtFillField(c, s); }
      } else if Seeking(s.rpc) {
        if ReaderAtSemaphore(s.rpc) { StoppedAtSeekSemaphore(c, s); } else { StoppedAtSeekField(c, s); }
      } else {
        if ReaderAtSemaphore(s.rpc) { StoppedAtDepositSemaphore(c, s); } else { StoppedAtDepositField(c, s); }
      }
    case WriterStep =>
      if CheckingEnd(s.wpc) { StoppedCheckEnd(c, s); }
      else if SeekingData(s.wpc) {
        if WriterAtSemaphore(s.wpc) { StoppedAtSeekDataSemaphore(c, s); } else { StoppedAtSeekDataField(c, s); }
      } else {
        if WriterAtSemaphore(s.wpc) { StoppedAtDrainSemaphore(c, s); } else { StoppedAtDrainField(c, s); }
      }
    case _ =>
  }

  function StepsOf(who: Action, actions: seq<Action>): nat {
    if actions == [] then 0
    else (if actions[0] == who || (who.WriterStep? && actions[0].WriteFails?) then 1 else 0)
         + StepsOf(who, actions[1..])
  }

  lemma {:induction false} StoppedRun(c: Config, s: State, actions: seq<Action>, t: State)
    requires ValidConfig(c) && Inv(c, s) && s.play == Completed && Leads(c, s, actions, t)
    ensures t.play == Completed
    ensures StepsOf(ReaderStep, actions) + ReaderExit(c, t) <= ReaderExit(c, s)
    ensures StepsOf(WriterStep, actions) + WriterExit(c, t) <= WriterExit(c, s)
    ensures t.deposited + DepositsAfterStop(c, t) == s.deposited + DepositsAfterStop(c, s)
    decreases |actions|
  {
    if actions != [] {
      StoppedStep(c, s, actions[0]);
      StepKeepsInv(c, s, actions[0]);
      StoppedRun(c, Step(c, s, actions[0]), actions[1..], t);
    }
  }

  lemma ExitBounds(c: Config, s: State)
    requires ValidConfig(c) && Inv(c, s)
    ensures 0 <= ReaderExit(c, s) <= 12 + 5 * c.bufferChunks
    ensures 0 <= WriterExit(c, s) <= 14
    ensures 0 <= DepositsAfterStop(c, s) <= c.bufferChunks
    ensures !Filling(s.rpc) ==> ReaderExit(c, s) <= 12 && DepositsAfterStop(c, s) <= 1
    ensures ReaderExit(c, s) <= 12 + 5 * DepositsAfterStop(c, s)
    ensures s.rpc.CQuit? || s.rpc.CWake? || s.rpc.RDone? ==> DepositsAfterStop(c, s) == 0
  {
  }

  /** Once COMPLETED is set it stays set; the reader takes at most 12 more steps
      (plus 5 for each chunk left to fill), the writer at most 14, whatever the
      other does; when neither can move both have left; and the only chunks still
      deposited are those of an unfinished fill or the one being copied. */
  lemma {:induction false} StopTakesEffect(c: Config, s: State, actions: seq<Action>, t: State)
    requires ValidConfig(c) && Reachable(c, s) && s.play == Completed && Leads(c, s, actions, t)
    ensures t.play == Completed
    ensures StepsOf(ReaderStep, actions) <= 12 + 5 * DepositsAfterStop(c, s)
    ensures StepsOf(WriterStep, actions) <= 14
    ensures !ReaderEnabled(t) && !WriterEnabled(t) ==> BothLeft(t)
    ensures t.deposited <= s.deposited + DepositsAfterStop(c, s)
    ensures !Filling(s.rpc) ==> DepositsAfterStop(c, s) <= 1
    ensures t.rpc.RDone? ==> t.deposited == s.deposited + DepositsAfterStop(c, s)
    ensures s.rpc.CQuit? || s.rpc.CWake? ==> t.deposited <= s.deposited
  {
    ReachableInv(c, s);
    ExitBounds(c, s);
    StoppedRun(c, s, actions, t);
    RunKeepsInv(c, s, actions, t);
    ExitBounds(c, t);
    SomeoneMoves(c, t);
  }
}

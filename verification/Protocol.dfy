/**
  The reader thread, the writer thread and the control calls that share one ring
  of chunks under the semaphores LOCK, ROOM and DATA.

  Every semaphore operation, every access to the shared fields and every update
  of a ring index is a step of its own, so all interleavings of the two loops are
  runs of this machine.  What a read delivers is fixed by `plan`, the chunks the
  reader would place if nobody stopped it.
 */
module Protocol {
  import opened Basics
  import opened Semaphores

  datatype Config = Config(backend: Backend, bufferChunks: nat, plan: seq<Chunk>)

  predicate ValidConfig(c: Config) {
    ValidBackend(c.backend) && c.bufferChunks >= 1 && |c.plan| >= 1
  }

  /** Program points of the reader: F.. is lxcd_read_fillbuf, C.. is lxcd_read_cont. */
  datatype ReaderPc =
    | FLock | FTest | FMark | FCopy | FNext | FOccupied | FRoom | FData | FUnlock
    | CTest | CMark | CLock | CTestRoom | CRelease | CWaitRoom | CRelock | CCheck | CQuit
    | CCopy | CNext | COccupied | CData | CUnlock | CWake | RDone

  /** Program points of the writer, fpaud_write. */
  datatype WriterPc =
    | WTest | WLock | WCheckEnd | WEndSet | WEndUnlock
    | WTestData | WRelease | WWaitData | WRelock | WCheck | WQuit
    | WCopy | WNext | WOccupied | WRoom | WUnlock
    | WWrite | WErrorSet | WErrorPost | WPause | WWake | WDone

  datatype PlayState = Playing | Paused | Completed

  /** Who wrote COMPLETED first. */
  datatype Cause = Running | Drained | Stopped | WriteError

  datatype State = State(
    lock: nat, room: nat, data: nat,
    rpc: ReaderPc, rErange: bool,
    wpc: WriterPc, wErange: bool,
    play: PlayState, cddaDone: bool,
    occupied: int, nextin: nat, nextout: nat, ring: seq<Chunk>,
    inData: Chunk,
    // history: chunks deposited, chunks taken out, chunks written, a write failed, why the run ended
    deposited: nat, taken: nat, written: seq<Chunk>, failed: bool, cause: Cause)

  datatype Action = ReaderStep | WriterStep | WriteFails | Stop | Pause | Resume

  /** What play leaves behind for the two loops; `lock` is the one semaphore it
      does not reset. */
  function Start(c: Config, lock: nat, ring: seq<Chunk>, inData: Chunk): State {
    State(lock, 1, 0, FLock, false, WTest, false, Playing, false,
          0, 0, 0, ring, inData, 0, 0, [], false, Running)
  }

  ghost predicate IsStart(c: Config, lock: nat, s: State) {
    s == Start(c, lock, s.ring, s.inData) && |s.ring| == c.bufferChunks
  }

  // ---- the reader ----

  predicate ReaderEnabled(s: State) {
    match s.rpc
    case FLock | CLock | CRelock => s.lock > 0
    case FRoom | CWaitRoom => s.room > 0
    case RDone => false
    case _ => true
  }

  function ReaderPostData(c: Config, s: State, next: ReaderPc): State {
    var p := PostStep(c.backend, s.data, s.rErange);
    s.(data := p.v, rErange := p.erange, rpc := if p.returned then next else s.rpc)
  }

  function ReaderPostLock(c: Config, s: State, next: ReaderPc): State {
    var p := PostStep(c.backend, s.lock, s.rErange);
    s.(lock := p.v, rErange := p.erange, rpc := if p.returned then next else s.rpc)
  }

  function ReaderWaitLock(c: Config, s: State, next: ReaderPc): State {
    s.(lock := WaitValue(c.backend, s.lock), rpc := next)
  }

  function ReaderWaitRoom(c: Config, s: State, next: ReaderPc): State {
    s.(room := WaitValue(c.backend, s.room), rpc := next)
  }

  /** cdda_done is set before the read that reaches the end of the segment. */
  function ReaderMark(c: Config, s: State, next: ReaderPc): State {
    s.(cddaDone := s.cddaDone || s.deposited + 1 >= |c.plan|, rpc := next)
  }

  function ReaderCopy(c: Config, s: State, next: ReaderPc): State {
    s.(ring := if s.nextin < |s.ring| && s.deposited < |c.plan|
               then s.ring[s.nextin := c.plan[s.deposited]] else s.ring,
       rpc := next)
  }

  /** lxcd_read_fillbuf: fill the ring while holding LOCK. */
  function FillNext(c: Config, s: State): State
    requires ValidConfig(c)
  {
    match s.rpc
    case FLock => ReaderWaitLock(c, s, FTest)
    case FTest =>
      s.(rpc := if s.deposited < c.bufferChunks && !s.cddaDone then FMark else FRoom)
    case FMark => ReaderMark(c, s, FCopy)
    case FCopy => ReaderCopy(c, s, FNext)
    case FNext => s.(nextin := (s.nextin + 1) % c.bufferChunks, rpc := FOccupied)
    case FOccupied => s.(occupied := s.occupied + 1, deposited := s.deposited + 1, rpc := FTest)
    case FRoom => ReaderWaitRoom(c, s, FData)
    case FData => ReaderPostData(c, s, FUnlock)
    case FUnlock => ReaderPostLock(c, s, CTest)
    case _ => s
  }

  /** lxcd_read_cont from the loop test to the check for a stop: read one chunk
      and wait until there is room for it. */
  function SeekRoomNext(c: Config, s: State): State
    requires ValidConfig(c)
  {
    match s.rpc
    case CTest => s.(rpc := if s.play != Completed && !s.cddaDone then CMark else CWake)
    case CMark => ReaderMark(c, s, CLock)
    case CLock => ReaderWaitLock(c, s, CTestRoom)
    case CTestRoom =>
      s.(rpc := if s.occupied >= c.bufferChunks && s.play != Completed then CRelease else CCheck)
    case CRelease => ReaderPostLock(c, s, CWaitRoom)
    case CWaitRoom => ReaderWaitRoom(c, s, CRelock)
    case CRelock => ReaderWaitLock(c, s, CTestRoom)
    case CCheck => s.(rpc := if s.play == Completed then CQuit else CCopy)
    case CQuit => ReaderPostLock(c, s, CWake)
    case _ => s
  }

  /** lxcd_read_cont from the copy into the ring to the end of the loop body, and
      the wakeup of the writer after the loop. */
  function DepositNext(c: Config, s: State): State
    requires ValidConfig(c)
  {
    match s.rpc
    case CCopy => ReaderCopy(c, s, CNext)
    case CNext => s.(nextin := (s.nextin + 1) % c.bufferChunks, rpc := COccupied)
    case COccupied => s.(occupied := s.occupied + 1, deposited := s.deposited + 1, rpc := CData)
    case CData => ReaderPostData(c, s, CUnlock)
    case CUnlock => ReaderPostLock(c, s, CTest)
    case CWake => ReaderPostData(c, s, RDone)
    case _ => s
  }

  predicate Filling(pc: ReaderPc) {
    match pc
    case FLock | FTest | FMark | FCopy | FNext | FOccupied | FRoom | FData | FUnlock => true
    case _ => false
  }

  predicate Seeking(pc: ReaderPc) {
    match pc
    case CTest | CMark | CLock | CTestRoom | CRelease | CWaitRoom | CRelock | CCheck | CQuit => true
    case _ => false
  }

  function ReaderNext(c: Config, s: State): State
    requires ValidConfig(c)
  {
    if Filling(s.rpc) then FillNext(c, s)
    else if Seeking(s.rpc) then SeekRoomNext(c, s)
    else DepositNext(c, s)
  }

  // ---- the writer ----

  /** A paused writer waits in a delay loop until the state changes. */
  predicate WriterEnabled(s: State) {
    match s.wpc
    case WLock | WRelock => s.lock > 0
    case WWaitData => s.data > 0
    case WPause => s.play != Paused
    case WDone => false
    case _ => true
  }

  function WriterPostRoom(c: Config, s: State, next: WriterPc): State {
    var p := PostStep(c.backend, s.room, s.wErange);
    s.(room := p.v, wErange := p.erange, wpc := if p.returned then next else s.wpc)
  }

  function WriterPostLock(c: Config, s: State, next: WriterPc): State {
    var p := PostStep(c.backend, s.lock, s.wErange);
    s.(lock := p.v, wErange := p.erange, wpc := if p.returned then next else s.wpc)
  }

  function Complete(s: State, why: Cause, next: WriterPc): State {
    s.(play := Completed, cause := if s.play == Completed then s.cause else why, wpc := next)
  }

  /** fpaud_write from the loop test to the check for the end of the run. */
  function CheckEndNext(c: Config, s: State): State
    requires ValidConfig(c)
  {
    match s.wpc
    case WTest => s.(wpc := if s.play != Completed then WLock else WWake)
    case WLock => s.(lock := WaitValue(c.backend, s.lock), wpc := WCheckEnd)
    case WCheckEnd => s.(wpc := if s.occupied == 0 && s.cddaDone then WEndSet else WTestData)
    case WEndSet => Complete(s, Drained, WEndUnlock)
    case WEndUnlock => WriterPostLock(c, s, WWake)
    case _ => s
  }

  /** fpaud_write: wait until there is a chunk or the run is stopped. */
  function SeekDataNext(c: Config, s: State): State
    requires ValidConfig(c)
  {
    match s.wpc
    case WTestData => s.(wpc := if s.occupied <= 0 && s.play != Completed then WRelease else WCheck)
    case WRelease => WriterPostLock(c, s, WWaitData)
    case WWaitData => s.(data := WaitValue(c.backend, s.data), wpc := WRelock)
    case WRelock => s.(lock := WaitValue(c.backend, s.lock), wpc := WTestData)
    case WCheck => s.(wpc := if s.play == Completed then WQuit else WCopy)
    case WQuit => WriterPostLock(c, s, WWake)
    case _ => s
  }

  /** fpaud_write from the copy out of the ring to the end of the loop body, and
      the wakeup of the reader after the loop. */
  function DrainNext(c: Config, s: State): State
    requires ValidConfig(c)
  {
    match s.wpc
    case WCopy => s.(inData := if s.nextout < |s.ring| then s.ring[s.nextout] else [], wpc := WNext)
    case WNext => s.(nextout := (s.nextout + 1) % c.bufferChunks, wpc := WOccupied)
    case WOccupied => s.(occupied := s.occupied - 1, taken := s.taken + 1, wpc := WRoom)
    case WRoom => WriterPostRoom(c, s, WUnlock)
    case WUnlock => WriterPostLock(c, s, WWrite)
    case WWrite => s.(written := s.written + [s.inData], wpc := WPause)
    case WErrorSet => Complete(s, WriteError, WErrorPost)
    case WErrorPost => WriterPostLock(c, s, WWake)
    case WPause => s.(wpc := WTest)
    case WWake => WriterPostRoom(c, s, WDone)
    case _ => s
  }

  predicate CheckingEnd(pc: WriterPc) {
    pc.WTest? || pc.WLock? || pc.WCheckEnd? || pc.WEndSet? || pc.WEndUnlock?
  }

  predicate SeekingData(pc: WriterPc) {
    pc.WTestData? || pc.WRelease? || pc.WWaitData? || pc.WRelock? || pc.WCheck? || pc.WQuit?
  }

  function WriterNext(c: Config, s: State): State
    requires ValidConfig(c)
  {
    if CheckingEnd(s.wpc) then CheckEndNext(c, s)
    else if SeekingData(s.wpc) then SeekDataNext(c, s)
    else DrainNext(c, s)
  }

  // ---- runs ----

  predicate Enabled(s: State, a: Action) {
    match a
    case ReaderStep => ReaderEnabled(s)
    case WriterStep => WriterEnabled(s)
    case WriteFails => s.wpc == WWrite
    case Stop => s.play != Completed
    case Pause => s.play == Playing
    case Resume => s.play == Paused
  }

  function Step(c: Config, s: State, a: Action): State
    requires ValidConfig(c)
  {
    match a
    case ReaderStep => ReaderNext(c, s)
    case WriterStep => WriterNext(c, s)
    case WriteFails => s.(failed := true, wpc := WErrorSet)
    case Stop => s.(play := Completed, cause := Stopped)
    case Pause => s.(play := Paused)
    case Resume => s.(play := Playing)
  }

  /** `actions`, taken one after the other, lead from `s` to `t`. */
  ghost predicate Leads(c: Config, s: State, actions: seq<Action>, t: State)
    requires ValidConfig(c)
    decreases |actions|
  {
    if actions == [] then s == t
    else Enabled(s, actions[0]) && Leads(c, Step(c, s, actions[0]), actions[1..], t)
  }

  ghost predicate Reachable(c: Config, t: State)
    requires ValidConfig(c)
  {
    exists s, actions :: IsStart(c, 1, s) && Leads(c, s, actions, t)
  }

  lemma {:induction false} LeadsTrans(c: Config, s: State, a: seq<Action>, t: State, b: seq<Action>, u: State)
    requires ValidConfig(c)
    requires Leads(c, s, a, t) && Leads(c, t, b, u)
    ensures Leads(c, s, a + b, u)
    decreases |a|
  {
    if a == [] {
      assert a + b == b;
    } else {
      LeadsTrans(c, Step(c, s, a[0]), a[1..], t, b, u);
      assert (a + b)[1..] == a[1..] + b;
    }
  }
}

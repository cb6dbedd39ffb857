/**
  How a run ends: what has been written when the writer drains the ring, which
  chunk can be missing, and what is left for the next run.
 */
module Completion {
  import opened Protocol
  import opened ProtocolInv
  import opened Progress

  // ---- what a drained run has written ----

  /** When the writer ended the run itself, every deposited chunk is written, at
      most the last chunk of the plan is not among them, and none is missing if
      the whole plan fitted into the ring. */
  lemma {:induction false} DrainedRun(c: Config, s: State)
    requires ValidConfig(c) && Reachable(c, s) && s.cause == Drained
    ensures s.deposited <= |c.plan| && s.written == c.plan[..s.deposited]
    ensures |s.written| >= |c.plan| - 1
    ensures |c.plan| <= c.bufferChunks ==> s.written == c.plan
  {
    ReachableInv(c, s);
  }

  // ---- building runs ----

  ghost predicate Reaches(c: Config, s: State, t: State)
    requires ValidConfig(c)
  {
    exists actions :: Leads(c, s, actions, t)
  }

  lemma Here(c: Config, s: State)
    requires ValidConfig(c)
    ensures Reaches(c, s, s)
  {
    assert Leads(c, s, [], s);
  }

  lemma {:induction false} Then(c: Config, s: State, t: State, u: State)
    requires ValidConfig(c) && Reaches(c, s, t) && Reaches(c, t, u)
    ensures Reaches(c, s, u)
  {
    var a :| Leads(c, s, a, t);
    var b :| Leads(c, t, b, u);
    LeadsTrans(c, s, a, t, b, u);
  }

  lemma {:induction false} By(c: Config, s: State, t: State, a: Action)
    requires ValidConfig(c) && Reaches(c, s, t) && Enabled(t, a)
    ensures Reaches(c, s, Step(c, t, a))
  {
    var u := Step(c, t, a);
    assert Leads(c, u, [], u);
    assert [a][1..] == [];
    assert Leads(c, t, [a], u);
    Then(c, s, t, u);
  }

  /** A post of DATA by the reader runs to its end. */
  lemma {:induction false} ReaderPosts(c: Config, s: State, t: State, next: ReaderPc) returns (u: State)
    requires ValidConfig(c) && Reaches(c, s, t) && !t.rErange
    requires (t.rpc.CData? && next.CUnlock?) || (t.rpc.FData? && next.FUnlock?) || (t.rpc.CWake? && next.RDone?)
    ensures Reaches(c, s, u) && u == t.(data := u.data, rpc := next)
  {
    u := ReaderNext(c, t);
    By(c, s, t, ReaderStep);
    if u.rErange {
      var v := ReaderNext(c, u);
      By(c, s, u, ReaderStep);
      u := ReaderNext(c, v);
      By(c, s, v, ReaderStep);
    }
  }

  /** A post of ROOM by the writer runs to its end. */
  lemma {:induction false} WriterPosts(c: Config, s: State, t: State, next: WriterPc) returns (u: State)
    requires ValidConfig(c) && Reaches(c, s, t) && !t.wErange
    requires (t.wpc.WRoom? && next.WUnlock?) || (t.wpc.WWake? && next.WDone?)
    ensures Reaches(c, s, u) && u == t.(room := u.room, wpc := next)
  {
    u := WriterNext(c, t);
    By(c, s, t, WriterStep);
    if u.wErange {
      var v := WriterNext(c, u);
      By(c, s, u, WriterStep);
      u := WriterNext(c, v);
      By(c, s, v, WriterStep);
    }
  }

  /** Playing, nobody inside LOCK and no post under way. */
  predicate Calm(s: State) {
    s.lock == 1 && s.play == Playing && s.cause == Running && !s.failed && !s.rErange && !s.wErange
  }

  /** `t` is `s` but for the tokens, the ring and the counters. */
  predicate SameRun(s: State, t: State) {
    t.lock == s.lock && t.play == s.play && t.cause == s.cause && t.failed == s.failed
    && t.rErange == s.rErange && t.wErange == s.wErange && t.cddaDone == s.cddaDone
  }

  lemma {:induction false} DepositOne(c: Config, s: State, t: State) returns (u: State)
    requires ValidConfig(c) && Reaches(c, s, t) && Calm(t) && t.rpc.CTest? && !t.cddaDone
    requires t.occupied < c.bufferChunks && t.deposited + 1 < |c.plan|
    ensures Reaches(c, s, u) && SameRun(t, u) && u.rpc.CTest? && u.wpc == t.wpc
    ensures u.occupied == t.occupied + 1 && u.deposited == t.deposited + 1 && u.taken == t.taken
  {
    var v := StartDeposit(c, s, t);
    u := FinishDeposit(c, s, v);
  }

  lemma {:induction false} StartDeposit(c: Config, s: State, t: State) returns (u: State)
    requires ValidConfig(c) && Reaches(c, s, t) && Calm(t) && t.rpc.CTest? && !t.cddaDone
    requires t.occupied < c.bufferChunks && t.deposited + 1 < |c.plan|
    ensures Reaches(c, s, u) && u == t.(rpc := CCopy, lock := 0)
  {
    var t1 := t.(rpc := CMark);
    By(c, s, t, ReaderStep);
    var t2 := t.(rpc := CLock);
    By(c, s, t1, ReaderStep);
    var t3 := t.(rpc := CTestRoom, lock := 0);
    By(c, s, t2, ReaderStep);
    var t4 := t3.(rpc := CCheck);
    By(c, s, t3, ReaderStep);
    u := t3.(rpc := CCopy);
    By(c, s, t4, ReaderStep);
  }

  lemma {:induction false} FinishDeposit(c: Config, s: State, t: State) returns (u: State)
    requires ValidConfig(c) && Reaches(c, s, t) && t.rpc.CCopy? && t.lock == 0 && !t.rErange
    ensures Reaches(c, s, u) && u.rpc.CTest? && u.wpc == t.wpc && u.lock == 1 && SameRun(t.(lock := 1), u)
    ensures u.occupied == t.occupied + 1 && u.deposited == t.deposited + 1 && u.taken == t.taken
  {
    var v := CopyAndCount(c, s, t);
    var w := ReaderPosts(c, s, v, CUnlock);
    u := w.(lock := 1, rpc := CTest);
    By(c, s, w, ReaderStep);
  }

  lemma {:induction false} CopyAndCount(c: Config, s: State, t: State) returns (u: State)
    requires ValidConfig(c) && Reaches(c, s, t) && t.rpc.CCopy?
    ensures Reaches(c, s, u)
    ensures u == t.(rpc := CData, ring := u.ring, nextin := u.nextin,
                    occupied := t.occupied + 1, deposited := t.deposited + 1)
  {
    var t1 := ReaderCopy(c, t, CNext);
    assert t1 == t.(ring := t1.ring, rpc := CNext);
    By(c, s, t, ReaderStep);
    var t2 := t1.(nextin := (t1.nextin + 1) % c.bufferChunks, rpc := COccupied);
    By(c, s, t1, ReaderStep);
    u := t2.(occupied := t2.occupied + 1, deposited := t2.deposited + 1, rpc := CData);
    By(c, s, t2, ReaderStep);
  }

  lemma {:induction false} TakeOne(c: Config, s: State, t: State) returns (u: State)
    requires ValidConfig(c) && Reaches(c, s, t) && Calm(t) && t.wpc.WTest? && t.occupied > 0
    ensures Reaches(c, s, u) && SameRun(t, u) && u.wpc.WTest? && u.rpc == t.rpc
    ensures u.occupied == t.occupied - 1 && u.deposited == t.deposited && u.taken == t.taken + 1
  {
    var t1 := t.(wpc := WLock);
    By(c, s, t, WriterStep);
    var t2 := t.(wpc := WCheckEnd, lock := 0);
    By(c, s, t1, WriterStep);
    var t3 := t2.(wpc := WTestData);
    By(c, s, t2, WriterStep);
    var t4 := t2.(wpc := WCheck);
    By(c, s, t3, WriterStep);
    var t5 := t2.(wpc := WCopy);
    By(c, s, t4, WriterStep);
    u := FinishTake(c, s, t5);
  }

  lemma {:induction false} FinishTake(c: Config, s: State, t: State) returns (u: State)
    requires ValidConfig(c) && Reaches(c, s, t) && t.wpc.WCopy? && t.lock == 0 && !t.wErange && t.play == Playing
    ensures Reaches(c, s, u) && u.wpc.WTest? && u.rpc == t.rpc && u.lock == 1 && SameRun(t.(lock := 1), u)
    ensures u.occupied == t.occupied - 1 && u.deposited == t.deposited && u.taken == t.taken + 1
  {
    var v := CopyOutAndCount(c, s, t);
    var w := WriterPosts(c, s, v, WUnlock);
    u := UnlockAndWrite(c, s, w);
  }

  lemma {:induction false} CopyOutAndCount(c: Config, s: State, t: State) returns (u: State)
    requires ValidConfig(c) && Reaches(c, s, t) && t.wpc.WCopy?
    ensures Reaches(c, s, u)
    ensures u == t.(wpc := WRoom, inData := u.inData, nextout := u.nextout,
                    occupied := t.occupied - 1, taken := t.taken + 1)
  {
    var t1 := WriterNext(c, t);
    By(c, s, t, WriterStep);
    var t2 := t1.(nextout := (t1.nextout + 1) % c.bufferChunks, wpc := WOccupied);
    By(c, s, t1, WriterStep);
    u := t2.(occupied := t2.occupied - 1, taken := t2.taken + 1, wpc := WRoom);
    By(c, s, t2, WriterStep);
  }

  lemma {:induction false} UnlockAndWrite(c: Config, s: State, t: State) returns (u: State)
    requires ValidConfig(c) && Reaches(c, s, t) && t.wpc.WUnlock? && t.lock == 0 && !t.wErange && t.play == Playing
    ensures Reaches(c, s, u) && u == t.(wpc := WTest, lock := 1, written := u.written)
  {
    var t1 := t.(lock := 1, wpc := WWrite);
    By(c, s, t, WriterStep);
    var t2 := t1.(written := t1.written + [t1.inData], wpc := WPause);
    By(c, s, t1, WriterStep);
    u := t2.(wpc := WTest);
    By(c, s, t2, WriterStep);
  }

  lemma {:induction false} FillOne(c: Config, s: State, t: State) returns (u: State)
    requires ValidConfig(c) && Reaches(c, s, t) && t.rpc.FTest? && !t.cddaDone
    requires t.deposited < c.bufferChunks && t.deposited + 1 < |c.plan|
    ensures Reaches(c, s, u)
    ensures u == t.(ring := u.ring, nextin := u.nextin,
                    occupied := t.occupied + 1, deposited := t.deposited + 1)
  {
    var t1 := t.(rpc := FMark);
    By(c, s, t, ReaderStep);
    var t2 := t.(rpc := FCopy);
    By(c, s, t1, ReaderStep);
    var t3 := ReaderCopy(c, t2, FNext);
    assert t3 == t2.(ring := t3.ring, rpc := FNext);
    By(c, s, t2, ReaderStep);
    var t4 := t3.(nextin := (t3.nextin + 1) % c.bufferChunks, rpc := FOccupied);
    By(c, s, t3, ReaderStep);
    u := t4.(occupied := t4.occupied + 1, deposited := t4.deposited + 1, rpc := FTest);
    By(c, s, t4, ReaderStep);
  }

  /** The fill loop runs until the ring is full. */
  lemma {:induction false} FillRing(c: Config, s: State, t: State) returns (u: State)
    requires ValidConfig(c) && |c.plan| > c.bufferChunks && Reaches(c, s, t)
    requires t.rpc.FTest? && !t.cddaDone && t.occupied == t.deposited <= c.bufferChunks && t.lock == 0
    ensures Reaches(c, s, u) && u.rpc.FTest? && u.wpc == t.wpc && SameRun(t, u) && u.room == t.room
    ensures u.occupied == u.deposited == c.bufferChunks && u.taken == t.taken
    decreases c.bufferChunks - t.deposited
  {
    if t.deposited == c.bufferChunks {
      u := t;
    } else {
      var v := FillOne(c, s, t);
      u := FillRing(c, s, v);
    }
  }

  lemma {:induction false} FillAndUnlock(c: Config, s: State) returns (u: State)
    requires ValidConfig(c) && |c.plan| > c.bufferChunks && IsStart(c, 1, s)
    ensures Reaches(c, s, u) && Calm(u) && u.rpc.CTest? && u.wpc.WTest? && !u.cddaDone
    ensures u.occupied == u.deposited == c.bufferChunks && u.taken == 0
  {
    Here(c, s);
    var t1 := s.(rpc := FTest, lock := 0);
    By(c, s, s, ReaderStep);
    var t2 := FillRing(c, s, t1);
    var t3 := t2.(rpc := FRoom);
    By(c, s, t2, ReaderStep);
    var t4 := t2.(rpc := FData, room := 0);
    By(c, s, t3, ReaderStep);
    var t5 := ReaderPosts(c, s, t4, FUnlock);
    u := t5.(lock := 1, rpc := CTest);
    By(c, s, t5, ReaderStep);
  }

  /** Writer and reader alternate until only the last chunk is to be read. */
  lemma {:induction false} Alternate(c: Config, s: State, t: State) returns (u: State)
    requires ValidConfig(c) && Reaches(c, s, t) && Calm(t) && t.rpc.CTest? && t.wpc.WTest? && !t.cddaDone
    requires t.occupied == c.bufferChunks == t.deposited - t.taken && t.deposited < |c.plan|
    ensures Reaches(c, s, u) && Calm(u) && u.rpc.CTest? && u.wpc.WTest? && !u.cddaDone
    ensures u.occupied == c.bufferChunks && u.deposited == |c.plan| - 1
    decreases |c.plan| - t.deposited
  {
    if t.deposited == |c.plan| - 1 {
      u := t;
    } else {
      var t1 := TakeOne(c, s, t);
      var t2 := DepositOne(c, s, t1);
      u := Alternate(c, s, t2);
    }
  }

  lemma {:induction false} TakeAll(c: Config, s: State, t: State) returns (u: State)
    requires ValidConfig(c) && Reaches(c, s, t) && Calm(t) && t.wpc.WTest? && t.occupied >= 0
    ensures Reaches(c, s, u) && SameRun(t, u) && u.wpc.WTest? && u.rpc == t.rpc
    ensures u.occupied == 0 && u.deposited == t.deposited
    decreases t.occupied
  {
    if t.occupied == 0 {
      u := t;
    } else {
      var v := TakeOne(c, s, t);
      u := TakeAll(c, s, v);
    }
  }

  /** The writer finds the ring empty and cdda_done set, and ends the run. */
  lemma {:induction false} WriterEndsRun(c: Config, s: State, t: State) returns (u: State)
    requires ValidConfig(c) && Reaches(c, s, t) && Calm(t) && t.wpc.WTest? && t.occupied == 0 && t.cddaDone
    ensures Reaches(c, s, u)
    ensures u == t.(wpc := WDone, play := Completed, cause := Drained, room := u.room)
  {
    var t1 := t.(wpc := WLock);
    By(c, s, t, WriterStep);
    var t2 := t.(wpc := WCheckEnd, lock := 0);
    By(c, s, t1, WriterStep);
    var t3 := t2.(wpc := WEndSet);
    By(c, s, t2, WriterStep);
    var t4 := t2.(wpc := WEndUnlock, play := Completed, cause := Drained);
    By(c, s, t3, WriterStep);
    var t5 := t4.(wpc := WWake, lock := 1);
    By(c, s, t4, WriterStep);
    u := WriterPosts(c, s, t5, WDone);
  }

  /** The reader, asking for LOCK with the last chunk in hand, finds the run ended. */
  lemma {:induction false} ReaderGivesUp(c: Config, s: State, t: State) returns (u: State)
    requires ValidConfig(c) && Reaches(c, s, t) && t.rpc.CLock? && t.lock == 1 && !t.rErange
    requires t.play == Completed
    ensures Reaches(c, s, u) && u == t.(rpc := RDone, data := u.data)
  {
    var t1 := t.(rpc := CTestRoom, lock := 0);
    By(c, s, t, ReaderStep);
    var t2 := t1.(rpc := CCheck);
    By(c, s, t1, ReaderStep);
    var t3 := t1.(rpc := CQuit);
    By(c, s, t2, ReaderStep);
    var t4 := t.(rpc := CWake);
    By(c, s, t3, ReaderStep);
    u := ReaderPosts(c, s, t4, RDone);
  }

  /** If the plan is longer than the ring, some schedule without stop or error
      ends by draining and never writes the last chunk. */
  lemma {:induction false} LastChunkCanBeLost(c: Config, s: State) returns (t: State)
    requires ValidConfig(c) && |c.plan| > c.bufferChunks && IsStart(c, 1, s)
    ensures Reachable(c, t) && BothLeft(t) && t.cause == Drained
    ensures t.written == c.plan[..|c.plan| - 1]
  {
    var t1 := FillAndUnlock(c, s);
    var t2 := Alternate(c, s, t1);
    var t3 := t2.(rpc := CMark);
    By(c, s, t2, ReaderStep);
    var t4 := t2.(rpc := CLock, cddaDone := true);
    By(c, s, t3, ReaderStep);
    var t5 := TakeAll(c, s, t4);
    var t6 := WriterEndsRun(c, s, t5);
    t := ReaderGivesUp(c, s, t6);
    assert Reachable(c, t);
    DrainedRun(c, t);
  }

  /** Every drained run writes the whole plan. */
  ghost predicate DrainingIsComplete(c: Config)
    requires ValidConfig(c)
  {
    forall t :: Reachable(c, t) && t.cause == Drained ==> t.written == c.plan
  }

  /** Draining never loses a chunk exactly when the whole plan fits into the ring. */
  lemma {:induction false} DrainingIsCompleteIff(c: Config)
    requires ValidConfig(c)
    ensures DrainingIsComplete(c) <==> |c.plan| <= c.bufferChunks
  {
    if |c.plan| <= c.bufferChunks {
      forall t | Reachable(c, t) && t.cause == Drained
        ensures t.written == c.plan
      {
        DrainedRun(c, t);
      }
    } else {
      var s := Start(c, 1, seq(c.bufferChunks, _ => []), []);
      var t := LastChunkCanBeLost(c, s);
    }
  }

  // ---- a run that nobody disturbs ----

  /** No stop and no write error among these actions. */
  predicate Undisturbed(actions: seq<Action>) {
    forall i :: 0 <= i < |actions| ==> !actions[i].Stop? && !actions[i].WriteFails?
  }

  /** Nobody stopped the run and nothing failed so far. */
  predicate Faultless(s: State) {
    (s.cause == Running || s.cause == Drained) && !s.failed
  }

  lemma ReaderStaysFaultless(c: Config, s: State)
    requires ValidConfig(c) && Faultless(s)
    ensures Faultless(FillNext(c, s)) && Faultless(SeekRoomNext(c, s)) && Faultless(DepositNext(c, s))
  {
  }

  lemma WriterStaysFaultless(c: Config, s: State)
    requires ValidConfig(c) && Faultless(s) && !s.wpc.WErrorSet?
    ensures Faultless(CheckEndNext(c, s)) && Faultless(SeekDataNext(c, s)) && Faultless(DrainNext(c, s))
  {
  }

  lemma {:induction false} StepStaysFaultless(c: Config, s: State, a: Action)
    requires ValidConfig(c) && Faultless(s) && WriterInv(c, s) && !a.Stop? && !a.WriteFails?
    ensures Faultless(Step(c, s, a))
  {
    ReaderStaysFaultless(c, s);
    WriterStaysFaultless(c, s);
  }

  lemma {:induction false} UndisturbedCause(c: Config, s: State, actions: seq<Action>, t: State)
    requires ValidConfig(c) && Inv(c, s) && Leads(c, s, actions, t) && Undisturbed(actions)
    requires Faultless(s)
    ensures Faultless(t)
    decreases |actions|
  {
    if actions != [] {
      var u := Step(c, s, actions[0]);
      StepKeepsInv(c, s, actions[0]);
      StepStaysFaultless(c, s, actions[0]);
      assert forall i :: 0 <= i < |actions| - 1 ==> actions[1..][i] == actions[i + 1];
      UndisturbedCause(c, u, actions[1..], t);
    }
  }

  /** A run without stop and write error, taken until neither thread can move and
      not left paused: both loops have left, the writer ended the run by draining,
      everything deposited is written, and that is the plan or all of it but its
      last chunk, the latter only if the plan is longer than the ring.  Such a
      run is finite, as RunsAreFinite says. */
  lemma {:induction false} UndisturbedRunEnds(c: Config, s: State, actions: seq<Action>, t: State)
    requires ValidConfig(c) && IsStart(c, 1, s) && Leads(c, s, actions, t) && Undisturbed(actions)
    requires t.play != Paused && !ReaderEnabled(t) && !WriterEnabled(t)
    ensures BothLeft(t) && t.cause == Drained && ThreadSteps(actions) <= 80 * |c.plan| + 96
    ensures t.written == c.plan || (t.written == c.plan[..|c.plan| - 1] && |c.plan| > c.bufferChunks)
  {
    assert Reachable(c, t);
    NeverStuck(c, t);
    StartInv(c, s);
    UndisturbedCause(c, s, actions, t);
    ReachableInv(c, t);
    DrainedRun(c, t);
    RunsAreFinite(c, s, actions, t);
    assert c.plan[..|c.plan|] == c.plan;
  }

  // ---- LOCK: exclusion, and the state the next run starts from ----

  lemma {:induction false} MutualExclusion(c: Config, s: State)
    requires ValidConfig(c) && Reachable(c, s)
    ensures !(ReaderHolds(s.rpc) && WriterHolds(s.wpc))
  {
    ReachableInv(c, s);
  }

  /** LOCK after a run: free, except that with counting semaphores an error exit
      of the writer leaves it at 2. */
  lemma {:induction false} LockAfterRun(c: Config, s: State)
    requires ValidConfig(c) && Reachable(c, s) && BothLeft(s)
    ensures s.lock == if c.backend.Counting? && s.failed then 2 else 1
  {
    ReachableInv(c, s);
  }

  /** In no run that starts with this value of LOCK are both loops inside it. */
  ghost predicate ExclusiveFrom(c: Config, lock: nat)
    requires ValidConfig(c)
  {
    forall s, actions, t :: IsStart(c, lock, s) && Leads(c, s, actions, t) ==>
      !(ReaderHolds(t.rpc) && WriterHolds(t.wpc))
  }

  lemma {:induction false} TwoTokensBreakExclusion(c: Config)
    requires ValidConfig(c) && c.backend.Counting?
    ensures !ExclusiveFrom(c, 2)
  {
    var s := Start(c, 2, seq(c.bufferChunks, _ => []), []);
    Here(c, s);
    var t1 := s.(rpc := FTest, lock := 1);
    By(c, s, s, ReaderStep);
    var t2 := t1.(wpc := WLock);
    By(c, s, t1, WriterStep);
    var t3 := t2.(wpc := WCheckEnd, lock := 0);
    By(c, s, t2, WriterStep);
    var actions :| Leads(c, s, actions, t3);
    assert IsStart(c, 2, s);
  }

  /** The next run, of any plan, keeps mutual exclusion exactly when the semaphores
      are binary or this run had no write error: play resets ROOM and DATA, not LOCK. */
  lemma {:induction false} NextRunIsExclusiveIff(c: Config, s: State, next: Config)
    requires ValidConfig(c) && Reachable(c, s) && BothLeft(s)
    requires ValidConfig(next) && next.backend == c.backend
    ensures ExclusiveFrom(next, s.lock) <==> c.backend.Binary? || !s.failed
  {
    LockAfterRun(c, s);
    if s.lock == 2 {
      TwoTokensBreakExclusion(next);
    } else {
      forall u, actions, t | IsStart(next, s.lock, u) && Leads(next, u, actions, t)
        ensures !(ReaderHolds(t.rpc) && WriterHolds(t.wpc))
      {
        assert Reachable(next, t);
        MutualExclusion(next, t);
      }
    }
  }
}

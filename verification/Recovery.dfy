/** Error recovery of the reader: when it gives up, and what a skipped request leaves. */
module Recovery {
  import opened Basics
  import opened ReaderSpec
  import opened Tiling
  import opened Jitter

  /** One request: answered at all, and answered at once within lxcd_read_cont. */
  datatype Event = Event(lba: int, answered: bool, clean: bool)

  function EventOf(dev: Device, cont: bool, k: nat, r: Request): Event {
    Event(r.lba, Answer(dev, k, r.lba, r.frames, 0).Some?, cont && dev(k, r.lba, r.frames, 0).Some?)
  }

  // ---- errors, as the reader counts them ----

  datatype Tallied = Tallied(ok: bool, errors: Errors)

  function Note(event: Event, e: Errors): Tallied {
    if !event.answered then
      if e.count + 1 >= MAX_RECOVER_ERRORS then Tallied(false, Errors(e.count + 1, e.block))
      else Tallied(true, Errors(e.count + 1, event.lba))
    else if event.clean && e.count > 0 && event.lba - e.block > ERROR_CLEAR_THRESHOLD
    then Tallied(true, Errors(0, e.block))
    else Tallied(true, e)
  }

  /** After the first n events. */
  function Tally(events: seq<Event>, n: nat, e: Errors): Tallied
    requires n <= |events|
  {
    if n == 0 then Tallied(true, e)
    else
      var t := Tally(events, n - 1, e);
      if t.ok then Note(events[n - 1], t.errors) else t
  }

  lemma {:induction false} TallyPrefix(a: seq<Event>, b: seq<Event>, n: nat, e: Errors)
    requires n <= |a|
    ensures Tally(a + b, n, e) == Tally(a, n, e)
  {
    if n > 0 {
      TallyPrefix(a, b, n - 1, e);
      assert (a + b)[n - 1] == a[n - 1];
    }
  }

  lemma {:induction false} TallyAppend(a: seq<Event>, b: seq<Event>, n: nat, e: Errors)
    requires n <= |b|
    ensures var t := Tally(a, |a|, e);
            Tally(a + b, |a| + n, e) == if t.ok then Tally(b, n, t.errors) else t
  {
    if n == 0 {
      TallyPrefix(a, b, |a|, e);
    } else {
      TallyAppend(a, b, n - 1, e);
      assert (a + b)[|a| + n - 1] == b[n - 1];
    }
  }

  function TallyAll(events: seq<Event>, e: Errors): Tallied {
    Tally(events, |events|, e)
  }

  lemma {:induction false} TallyBoth(a: seq<Event>, b: seq<Event>, e: Errors)
    ensures TallyAll(a + b, e) == if TallyAll(a, e).ok then TallyAll(b, TallyAll(a, e).errors) else TallyAll(a, e)
  {
    TallyAppend(a, b, |b|, e);
  }

  // ---- errors, as one would state it ----

  /** The last request before x that failed. */
  function LastFailure(events: seq<Event>, x: nat): (r: Option<nat>)
    requires x <= |events|
    ensures r.Some? ==> r.value < x && !events[r.value].answered
    ensures forall y :: (if r.Some? then r.value + 1 else 0) <= y < x ==> events[y].answered
  {
    if x == 0 then None
    else if !events[x - 1].answered then Some(x - 1)
    else LastFailure(events, x - 1)
  }

  /** Request x forgives the errors before it: it is answered at once, more than
      1500 blocks behind the last one that failed, in this run or, as `e` recalls,
      in an earlier one. */
  predicate Forgives(events: seq<Event>, x: nat, e: Errors)
    requires x < |events|
  {
    var last := match LastFailure(events, x) case None => e.block case Some(f) => events[f].lba;
    events[x].answered && events[x].clean && events[x].lba - last > 1500
  }

  /** Failed requests from i on, before j. */
  function Failures(events: seq<Event>, i: nat, j: nat): nat
    requires i <= j <= |events|
  {
    if i == j then 0 else Failures(events, i, j - 1) + if events[j - 1].answered then 0 else 1
  }

  predicate Unforgiven(events: seq<Event>, i: nat, j: nat, e: Errors)
    requires i <= j <= |events|
  {
    forall x :: i <= x < j ==> !Forgives(events, x, e)
  }

  /** Errors that count when request i follows: all that an earlier run of the
      session left, or none. */
  function Inherited(i: nat, e: Errors): int {
    if i == 0 then e.count else 0
  }

  /** Some request fails, and twenty have failed with nothing between them that
      forgives, those of earlier runs among them. */
  predicate TooManyErrors(events: seq<Event>, e: Errors) {
    exists i, j :: 0 <= i <= j <= |events| && Unforgiven(events, i, j, e) && Failures(events, i, j) >= 1
                   && Failures(events, i, j) + Inherited(i, e) >= 20
  }

  // ---- the two agree ----

  /** Errors since the last request that forgave. */
  function Pending(events: seq<Event>, n: nat, e: Errors): int
    requires n <= |events|
  {
    if n == 0 then e.count
    else if !events[n - 1].answered then Pending(events, n - 1, e) + 1
    else if Forgives(events, n - 1, e) then 0
    else Pending(events, n - 1, e)
  }

  lemma {:induction false} PendingIsMost(events: seq<Event>, i: nat, n: nat, e: Errors)
    requires i <= n <= |events| && Unforgiven(events, i, n, e) && e.count >= 0
    ensures Failures(events, i, n) + Inherited(i, e) <= Pending(events, n, e)
    decreases n
  {
    if i < n {
      assert !Forgives(events, n - 1, e);
      PendingIsMost(events, i, n - 1, e);
    } else {
      PendingIsNatural(events, n, e);
    }
  }

  lemma {:induction false} PendingIsNatural(events: seq<Event>, n: nat, e: Errors)
    requires n <= |events| && e.count >= 0
    ensures Pending(events, n, e) >= 0
  {
    if n > 0 {
      PendingIsNatural(events, n - 1, e);
    }
  }

  lemma {:induction false} PendingIsReached(events: seq<Event>, n: nat, e: Errors) returns (i: nat)
    requires n <= |events|
    ensures i <= n && Unforgiven(events, i, n, e)
    ensures Failures(events, i, n) + Inherited(i, e) == Pending(events, n, e)
    ensures n > 0 && !events[n - 1].answered ==> i < n
  {
    if n == 0 || Forgives(events, n - 1, e) {
      i := n;
    } else {
      i := PendingIsReached(events, n - 1, e);
    }
  }

  /** Failure n is one too many. */
  predicate Fatal(events: seq<Event>, n: nat, e: Errors)
    requires n <= |events|
  {
    n > 0 && !events[n - 1].answered && Pending(events, n, e) >= MAX_RECOVER_ERRORS
  }

  lemma {:induction false} TallyIsPending(events: seq<Event>, n: nat, e: Errors)
    requires n <= |events| && e.count >= 0
    ensures var t := Tally(events, n, e);
            var f := LastFailure(events, n);
            && (t.ok ==> t.errors == Errors(Pending(events, n, e), if f.None? then e.block else events[f.value].lba))
            && (t.ok <==> forall m :: 0 <= m <= n ==> !Fatal(events, m, e))
  {
    if n > 0 {
      TallyIsPending(events, n - 1, e);
      PendingIsNatural(events, n - 1, e);
      assert Fatal(events, n, e) <==> !events[n - 1].answered && Pending(events, n, e) >= MAX_RECOVER_ERRORS;
    }
  }

  /** The last failure of a stretch with one. */
  lemma {:induction false} LastOf(events: seq<Event>, i: nat, j: nat) returns (m: nat)
    requires i <= j <= |events| && Failures(events, i, j) >= 1
    ensures i < m <= j && !events[m - 1].answered && Failures(events, i, m) == Failures(events, i, j)
    decreases j
  {
    if events[j - 1].answered {
      m := LastOf(events, i, j - 1);
    } else {
      m := j;
    }
  }

  /** Counting as the reader does, from any count and block that earlier runs left,
      it gives up exactly at the twentieth error that nothing has forgiven. */
  lemma {:induction false} GivesUpIff(events: seq<Event>, e: Errors)
    requires e.count >= 0
    ensures !TallyAll(events, e).ok <==> TooManyErrors(events, e)
  {
    TallyIsPending(events, |events|, e);
    if !TallyAll(events, e).ok {
      var m :| 0 <= m <= |events| && Fatal(events, m, e);
      FatalIsTooMany(events, m, e);
    }
    if TooManyErrors(events, e) {
      var i, j :| 0 <= i <= j <= |events| && Unforgiven(events, i, j, e) && Failures(events, i, j) >= 1
                  && Failures(events, i, j) + Inherited(i, e) >= MAX_RECOVER_ERRORS;
      var m := LastOf(events, i, j);
      PendingIsMost(events, i, m, e);
      assert Fatal(events, m, e);
    }
  }

  lemma {:induction false} FatalIsTooMany(events: seq<Event>, m: nat, e: Errors)
    requires m <= |events| && Fatal(events, m, e)
    ensures TooManyErrors(events, e)
  {
    var i := PendingIsReached(events, m, e);
    FailuresGrow(events, i, m);
  }

  lemma {:induction false} FailuresGrow(events: seq<Event>, i: nat, m: nat)
    requires i < m <= |events| && !events[m - 1].answered
    ensures Failures(events, i, m) >= 1
  {
  }

  /** After a run that gave up, with twenty errors counted, the next one gives up at
      its first failure, unless some request before it forgives. */
  lemma {:induction false} GivesUpAtOnceIff(events: seq<Event>, e: Errors)
    requires e.count >= 19 && (forall x :: 0 <= x < |events| ==> !Forgives(events, x, e))
    ensures !TallyAll(events, e).ok <==> exists x :: 0 <= x < |events| && !events[x].answered
  {
    GivesUpIff(events, e);
    if x :| 0 <= x < |events| && !events[x].answered {
      FailuresGrow(events, 0, x + 1);
      assert Unforgiven(events, 0, x + 1, e);
    }
    if TooManyErrors(events, e) {
      var i, j :| 0 <= i <= j <= |events| && Failures(events, i, j) >= 1;
      var m := LastOf(events, i, j);
    }
  }

  /** What a run leaves for the next one: the errors since the last request that
      forgave, and the block of the last failure, the one that ended the run apart. */
  lemma {:induction false} LeavesErrors(events: seq<Event>, n: nat, e: Errors)
    requires n <= |events| && e.count >= 0
    ensures var t := Tally(events, n, e);
            exists m :: 0 <= m <= n
              && (t.ok ==> m == n) && (!t.ok ==> m < n && !events[m].answered && t.errors.count >= 20)
              && t.errors.block == match LastFailure(events, m) case None => e.block case Some(f) => events[f].lba
  {
    TallyIsPending(events, n, e);
    if n > 0 {
      LeavesErrors(events, n - 1, e);
      TallyIsPending(events, n - 1, e);
      PendingIsNatural(events, n - 1, e);
    }
  }

  // ---- the requests of a run ----

  function EventsOf(dev: Device, cont: bool, k: nat, rs: seq<Request>): (r: seq<Event>)
    ensures |r| == |rs|
  {
    if rs == [] then [] else [EventOf(dev, cont, k, rs[0])] + EventsOf(dev, cont, k, rs[1..])
  }

  lemma {:induction false} TransferNotes(dev: Device, cont: bool, k: nat, lba: int, at: nat, n: int,
                                         m: seq<Byte>, e: Errors)
    requires GoodDevice(dev) && at <= |m| && (n >= 0 ==> at + Bytes(n) <= |m|)
    ensures var t := Transfer(dev, cont, k, lba, at, n, m, e);
            Tallied(t.ok, t.errors) == Note(EventOf(dev, cont, k, Request(lba, n)), e)
  {
  }

  lemma {:induction false} TransfersTally(dev: Device, cont: bool, k: nat, lba: int, at: nat, remain: int,
                                          m: seq<Byte>, e: Errors)
    requires GoodDevice(dev) && at <= |m| && (remain >= 0 ==> at + Bytes(remain) <= |m|)
    ensures var t := Transfers(dev, cont, k, lba, at, remain, m, e);
            var events := EventsOf(dev, cont, k, Requests(lba, remain));
            Tallied(t.ok, t.errors) == TallyAll(events, e)
    decreases if remain > 0 then remain else 0
  {
    var n := Frames(remain);
    var t := Transfer(dev, cont, k, lba, at, n, m, e);
    var rest := if remain - n > 0 then Requests(lba + n, remain - n) else [];
    assert Requests(lba, remain) == [Request(lba, n)] + rest;
    var event := EventOf(dev, cont, k, Request(lba, n));
    var more := EventsOf(dev, cont, k, rest);
    assert EventsOf(dev, cont, k, Requests(lba, remain)) == [event] + more;
    TransferNotes(dev, cont, k, lba, at, n, m, e);
    OneEvent(event, e);
    TallyBoth([event], more, e);
    if remain - n > 0 {
      TransfersTally(dev, cont, k, lba + n, at + Bytes(n), remain - n, t.mem, t.errors);
    }
  }

  lemma OneEvent(event: Event, e: Errors)
    ensures TallyAll([event], e) == Note(event, e)
  {
    assert Tally([event], 0, e) == Tallied(true, e);
  }

  /** The requests of one read. */
  function ReadEvents(run: Run, cont: bool, s: ReadState): seq<Event> {
    EventsOf(run.dev, cont, s.k, Requests(s.lba, FramesToRead(run, s.lba)))
  }

  predicate Agrees(r: Option<ReadState>, t: Tallied) {
    (r.Some? <==> t.ok) && (r.Some? ==> r.value.errors == t.errors)
  }

  lemma {:induction false} ReadTally(run: Run, cont: bool, s: ReadState)
    requires ValidRun(run) && ValidState(run, s)
    ensures Agrees(ReadChunk(run, cont, s), TallyAll(ReadEvents(run, cont, s), s.errors))
  {
    ReadFits(run, s.lba);
    TransfersTally(run.dev, cont, s.k, s.lba, ReadAt(run.z), FramesToRead(run, s.lba), Prepare(run, s), s.errors);
  }

  /** The requests of fillbuf from its i-th pass on, and of cont. */
  function FillEvents(run: Run, s: ReadState, i: nat): seq<Event>
    requires ValidRun(run) && ValidState(run, s) && i <= run.z.bufferChunks
    decreases run.z.bufferChunks - i
  {
    if i == run.z.bufferChunks || s.done then []
    else
      var r := ReadChunk(run, false, s);
      ReadEvents(run, false, s) + if r.None? then [] else FillEvents(run, r.value, i + 1)
  }

  function ContEvents(run: Run, s: ReadState, n: nat): seq<Event>
    requires ValidRun(run) && ValidState(run, s)
    decreases n
  {
    if n == 0 || s.done then []
    else
      var r := ReadChunk(run, true, s);
      ReadEvents(run, true, s) + if r.None? then [] else ContEvents(run, r.value, n - 1)
  }

  lemma {:induction false} FillTally(run: Run, s: ReadState, i: nat)
    requires ValidRun(run) && ValidState(run, s) && i <= run.z.bufferChunks
    ensures Agrees(FillBuf(run, s, i), TallyAll(FillEvents(run, s, i), s.errors))
    decreases run.z.bufferChunks - i
  {
    if i < run.z.bufferChunks && !s.done {
      var r := ReadChunk(run, false, s);
      FillOnce(run, s, i, r);
      ReadTally(run, false, s);
      var first, more := ReadEvents(run, false, s), if r.None? then [] else FillEvents(run, r.value, i + 1);
      assert FillEvents(run, s, i) == first + more;
      TallyBoth(first, more, s.errors);
      if r.Some? {
        FillTally(run, r.value, i + 1);
      }
    }
  }

  lemma {:induction false} ContTally(run: Run, s: ReadState, n: nat)
    requires ValidRun(run) && ValidState(run, s)
    ensures Agrees(ReadCont(run, s, n), TallyAll(ContEvents(run, s, n), s.errors))
    decreases n
  {
    if n > 0 && !s.done {
      var r := ReadChunk(run, true, s);
      ContOnce(run, s, n, r);
      ReadTally(run, true, s);
      var first, more := ReadEvents(run, true, s), if r.None? then [] else ContEvents(run, r.value, n - 1);
      assert ContEvents(run, s, n) == first + more;
      TallyBoth(first, more, s.errors);
      if r.Some? {
        ContTally(run, r.value, n - 1);
      }
    }
  }

  predicate NoneClean(events: seq<Event>) {
    forall x :: 0 <= x < |events| ==> !events[x].clean
  }

  lemma {:induction false} ReadIsUnclean(dev: Device, k: nat, rs: seq<Request>)
    ensures NoneClean(EventsOf(dev, false, k, rs))
    decreases |rs|
  {
    if rs != [] {
      ReadIsUnclean(dev, k, rs[1..]);
    }
  }

  lemma BothUnclean(a: seq<Event>, b: seq<Event>)
    requires NoneClean(a) && NoneClean(b)
    ensures NoneClean(a + b)
  {
  }

  /** The requests that fillbuf still makes after a pass that left `r`. */
  function EventsAfter(run: Run, r: Option<ReadState>, i: nat): seq<Event>
    requires ValidRun(run) && (r.Some? ==> ValidState(run, r.value)) && i <= run.z.bufferChunks
  {
    if r.None? then [] else FillEvents(run, r.value, i)
  }

  lemma {:induction false} PassEvents(run: Run, s: ReadState, i: nat) returns (t: Option<ReadState>, first: seq<Event>)
    requires ValidRun(run) && ValidState(run, s) && i < run.z.bufferChunks && !s.done
    ensures NoneClean(first) && (t.Some? ==> ValidState(run, t.value))
    ensures EventsAfter(run, Some(s), i) == first + EventsAfter(run, t, i + 1)
  {
    t := ReadChunk(run, false, s);
    first := ReadEvents(run, false, s);
    ReadIsUnclean(run.dev, s.k, Requests(s.lba, FramesToRead(run, s.lba)));
  }

  lemma {:induction false} RestIsUnclean(run: Run, r: Option<ReadState>, i: nat) returns (events: seq<Event>)
    requires ValidRun(run) && (r.Some? ==> ValidState(run, r.value)) && i <= run.z.bufferChunks
    ensures events == EventsAfter(run, r, i) && NoneClean(events)
    decreases run.z.bufferChunks - i
  {
    if r.Some? && i < run.z.bufferChunks && !r.value.done {
      var t, first := PassEvents(run, r.value, i);
      var more := RestIsUnclean(run, t, i + 1);
      BothUnclean(first, more);
      events := first + more;
    } else {
      events := [];
    }
  }

  /** Requests of fillbuf never forgive. */
  lemma {:induction false} FillNeverForgives(run: Run, s: ReadState, i: nat)
    requires ValidRun(run) && ValidState(run, s) && i <= run.z.bufferChunks
    ensures NoneClean(FillEvents(run, s, i))
  {
    var events := RestIsUnclean(run, Some(s), i);
  }

  /** All requests of a run, in order. */
  function RunEvents(run: Run, s: ReadState, n: nat): seq<Event>
    requires ValidRun(run) && Fresh(run, s)
  {
    var t := FillBuf(run, s, 0);
    FillEvents(run, s, 0) + if t.None? then [] else ContEvents(run, HandOver(run, t.value), n)
  }

  /** A run gives up, in fillbuf or in cont, exactly when some request fails for
      good and twenty have, with nothing between them that forgives: those of the
      run, and those counted by earlier runs of the session if nothing has
      forgiven them.  In fillbuf nothing forgives. */
  lemma {:induction false} RunGivesUpIff(run: Run, s: ReadState, n: nat)
    requires ValidRun(run) && Fresh(run, s) && s.errors.count >= 0
    ensures WholeRun(run, s, n).None? <==> TooManyErrors(RunEvents(run, s, n), s.errors)
  {
    var t := FillBuf(run, s, 0);
    var more := if t.None? then [] else ContEvents(run, HandOver(run, t.value), n);
    FillTally(run, s, 0);
    TallyBoth(FillEvents(run, s, 0), more, s.errors);
    if t.Some? {
      ContTally(run, HandOver(run, t.value), n);
    }
    GivesUpIff(RunEvents(run, s, n), s.errors);
  }

  // ---- what a request leaves in the buffer ----

  /** The place of a request in the buffer, when the first one of the read goes to `at`. */
  function PlaceOf(at: nat, lba: int, r: Request): int {
    at + Bytes(r.lba - lba)
  }

  /** What a read leaves at the place of a request. */
  function Left(dev: Device, k: nat, r: Request, m: seq<Byte>, p: int): (b: seq<Byte>)
    requires 0 <= p <= |m| && r.frames >= 0 && p + Bytes(r.frames) <= |m|
  {
    match Answer(dev, k, r.lba, r.frames, 0)
    case Some(bytes) => bytes
    case None => m[p..p + Bytes(r.frames)]
  }

  lemma {:induction false} OneLeft(dev: Device, cont: bool, k: nat, lba: int, at: nat, n: nat,
                                   m: seq<Byte>, e: Errors)
    requires GoodDevice(dev) && at + Bytes(n) <= |m| && Transfer(dev, cont, k, lba, at, n, m, e).ok
    ensures var t := Transfer(dev, cont, k, lba, at, n, m, e).mem;
            && t[at..at + Bytes(n)] == Left(dev, k, Request(lba, n), m, at)
            && t[at + Bytes(n)..] == m[at + Bytes(n)..]
  {
  }

  lemma OneKeepsFront(dev: Device, cont: bool, k: nat, lba: int, at: nat, n: int, m: seq<Byte>, e: Errors)
    requires GoodDevice(dev) && at <= |m| && (n >= 0 ==> at + Bytes(n) <= |m|)
    ensures Transfer(dev, cont, k, lba, at, n, m, e).mem[..at] == m[..at]
  {
  }

  /** Transfers write nothing in front of their first place. */
  lemma {:induction false} KeepsFront(dev: Device, cont: bool, k: nat, lba: int, at: nat, remain: int,
                                      m: seq<Byte>, e: Errors)
    requires GoodDevice(dev) && at <= |m| && (remain >= 0 ==> at + Bytes(remain) <= |m|)
    ensures Transfers(dev, cont, k, lba, at, remain, m, e).mem[..at] == m[..at]
    decreases if remain > 0 then remain else 0
  {
    var n := Frames(remain);
    var t := Transfer(dev, cont, k, lba, at, n, m, e);
    OneTransfer(dev, cont, k, lba, at, remain, m, e, t);
    OneKeepsFront(dev, cont, k, lba, at, n, m, e);
    if remain - n > 0 {
      var u, end := Transfers(dev, cont, k, lba + n, at + Bytes(n), remain - n, t.mem, t.errors), at + Bytes(n);
      assert u.mem[..end] == t.mem[..end] by {
        KeepsFront(dev, cont, k, lba + n, end, remain - n, t.mem, t.errors);
      }
      FrontOf(u.mem, t.mem, at, end);
    }
  }

  /** Buffers that agree up to `end` agree on every part before it. */
  lemma FrontOf(a: seq<Byte>, b: seq<Byte>, at: nat, end: nat)
    requires at <= end <= |a| == |b| && a[..end] == b[..end]
    ensures a[..at] == b[..at] && a[at..end] == b[at..end]
  {
    assert a[..at] == a[..end][..at] && b[..at] == b[..end][..at];
    assert a[at..end] == a[..end][at..] && b[at..end] == b[..end][at..];
  }

  lemma BehindOf(a: seq<Byte>, b: seq<Byte>, start: nat, p: nat, q: nat)
    requires start <= p <= q <= |a| == |b| && a[start..] == b[start..]
    ensures a[p..q] == b[p..q]
  {
    forall x | p <= x < q ensures a[x] == b[x] {
      assert a[start..][x - start] == b[start..][x - start];
    }
  }

  lemma LeftBehind(dev: Device, k: nat, r: Request, a: seq<Byte>, b: seq<Byte>, start: nat, p: nat)
    requires start <= p && r.frames >= 0 && p + Bytes(r.frames) <= |a| == |b| && a[start..] == b[start..]
    ensures Left(dev, k, r, a, p) == Left(dev, k, r, b, p)
  {
    BehindOf(a, b, start, p, p + Bytes(r.frames));
  }

  lemma {:induction false} RequestLies(lba: int, remain: int, i: nat)
    requires remain >= 1 && i < |Requests(lba, remain)|
    ensures var r := Requests(lba, remain)[i];
            r.frames >= 1 && lba <= r.lba && r.lba + r.frames <= lba + remain
    ensures i > 0 ==> remain - Frames(remain) > 0 && i - 1 < |Requests(lba + Frames(remain), remain - Frames(remain))|
                      && Requests(lba, remain)[i] == Requests(lba + Frames(remain), remain - Frames(remain))[i - 1]
    decreases remain
  {
    if i > 0 {
      RequestLies(lba + Frames(remain), remain - Frames(remain), i - 1);
    }
  }

  lemma {:induction false} FirstLeft(dev: Device, cont: bool, k: nat, lba: int, at: nat, remain: nat,
                                     m: seq<Byte>, e: Errors)
    requires GoodDevice(dev) && at + Bytes(remain) <= |m| && Transfers(dev, cont, k, lba, at, remain, m, e).ok
    ensures var n := Frames(remain);
            Transfers(dev, cont, k, lba, at, remain, m, e).mem[at..at + Bytes(n)]
            == Left(dev, k, Request(lba, n), m, at)
  {
    var n := Frames(remain);
    var t := Transfer(dev, cont, k, lba, at, n, m, e);
    OneTransfer(dev, cont, k, lba, at, remain, m, e, t);
    OneLeft(dev, cont, k, lba, at, n, m, e);
    if remain - n > 0 {
      var u, end := Transfers(dev, cont, k, lba + n, at + Bytes(n), remain - n, t.mem, t.errors), at + Bytes(n);
      assert u.mem[..end] == t.mem[..end] by {
        KeepsFront(dev, cont, k, lba + n, end, remain - n, t.mem, t.errors);
      }
      FrontOf(u.mem, t.mem, at, end);
    }
  }

  /** After a read that did not give up, the place of each request holds its answer,
      or, if it was skipped, what was there before the read. */
  lemma {:induction false} SkippedStays(dev: Device, cont: bool, k: nat, lba: int, at: nat, remain: int,
                                        m: seq<Byte>, e: Errors, i: nat, r: Request, p: int)
    requires GoodDevice(dev) && remain >= 1 && at + Bytes(remain) <= |m|
    requires i < |Requests(lba, remain)| && r == Requests(lba, remain)[i] && p == PlaceOf(at, lba, r)
    requires Transfers(dev, cont, k, lba, at, remain, m, e).ok
    ensures at <= p && r.frames >= 1 && p + Bytes(r.frames) <= at + Bytes(remain)
    ensures Transfers(dev, cont, k, lba, at, remain, m, e).mem[p..p + Bytes(r.frames)] == Left(dev, k, r, m, p)
    decreases remain
  {
    RequestLies(lba, remain, i);
    if i == 0 {
      FirstLeft(dev, cont, k, lba, at, remain, m, e);
    } else {
      var n := Frames(remain);
      var t := Transfer(dev, cont, k, lba, at, n, m, e);
      OneTransfer(dev, cont, k, lba, at, remain, m, e, t);
      OneLeft(dev, cont, k, lba, at, n, m, e);
      SkippedStays(dev, cont, k, lba + n, at + Bytes(n), remain - n, t.mem, t.errors, i - 1, r, p);
      LeftBehind(dev, k, r, t.mem, m, at + Bytes(n), p);
    }
  }
}

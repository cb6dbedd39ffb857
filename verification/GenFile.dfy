/**
  Writing an audio file in chunks, with a header that is written again at close:
  what is on the disk in the end.
 */
module GenFile {
  import opened Basics
  import opened AudioFormats
  import opened Stdio

  // ---- headers ----

  /** An AU header goes out in two parts, the comment second; the others in one. */
  function FirstPart(fmt: Format): (r: nat)
    ensures r <= HeaderLen(fmt)
  {
    if fmt.Au? then 24 else HeaderLen(fmt)
  }

  function EmitHeader(fmt: Format, sys: System, s: Stream, hdr: seq<Byte>): (r: Emission)
    requires GoodSystem(sys) && ValidStream(sys, s) && |hdr| == HeaderLen(fmt)
    ensures ValidStream(sys, r.s) && r.n <= |hdr|
    ensures fmt.Au? && Emit(sys, s, hdr[..24]).n < 24 ==> r == Emit(sys, s, hdr[..24])
  {
    var k := FirstPart(fmt);
    var a := Emit(sys, s, hdr[..k]);
    if a.n < k then a
    else
      var b := Emit(sys, a.s, hdr[k..]);
      Emission(b.s, k + b.n)
  }

  /** The outcome of a header writer: the stream, the length it announced, and
      whether all of the header was accepted. */
  datatype HeaderDone = HeaderDone(s: Stream, datalen: int, ok: bool)

  datatype Rewound = Rewound(s: Stream, ok: bool)

  /** fseek to the beginning, which flushes first. */
  function SeekBack(sys: System, s: Stream): (r: Rewound)
    requires ValidStream(sys, s)
    ensures ValidStream(sys, r.s)
  {
    var f := Flush(sys, s);
    if f.ok && sys.seeks(s.calls) then Rewound(f.s.(pos := 0), true) else Rewound(f.s, false)
  }

  /** With no length known it is taken from the size of the file on the disk, and the
      header goes to its beginning. */
  function PutHeader(fmt: Format, sys: System, s: Stream, datalen: int): (r: HeaderDone)
    requires GoodSystem(sys) && ValidStream(sys, s)
    ensures ValidStream(sys, r.s)
  {
    if datalen != 0 then
      var e := EmitHeader(fmt, sys, s, Header(fmt, datalen));
      HeaderDone(e.s, datalen, e.n == HeaderLen(fmt))
    else if !sys.stats(s.calls) then HeaderDone(s, datalen, false)
    else
      var len := |s.disk| - HeaderLen(fmt);
      var f := SeekBack(sys, s);
      if !f.ok then HeaderDone(f.s, len, false)
      else
        var e := EmitHeader(fmt, sys, f.s, Header(fmt, len));
        HeaderDone(e.s, len, e.n == HeaderLen(fmt))
  }

  /** Once the length and the place are known, the header itself. */
  lemma PutHeaderEnds(fmt: Format, sys: System, s: Stream, estimate: int, u: Stream, len: int)
    requires GoodSystem(sys) && ValidStream(sys, s) && ValidStream(sys, u)
    requires if estimate != 0 then u == s && len == estimate
             else sys.stats(s.calls) && SeekBack(sys, s) == Rewound(u, true) && len == |s.disk| - HeaderLen(fmt)
    ensures var e := EmitHeader(fmt, sys, u, Header(fmt, len));
            PutHeader(fmt, sys, s, estimate) == HeaderDone(e.s, len, e.n == HeaderLen(fmt))
  {
  }

  // ---- closing ----

  datatype Closing = Closing(disk: seq<Byte>, ok: bool)

  /** The end of gen_close_file: fclose flushes; without a buffer it is close. */
  function LastFlush(sys: System, s: Stream): Closing
    requires ValidStream(sys, s)
  {
    var f := Flush(sys, s);
    Closing(f.s.disk, sys.closes && f.ok)
  }

  /** gen_close_file: flush, write the header anew, close.  Neither a failed flush nor
      a failed header is looked at. */
  function CloseFile(fmt: Format, sys: System, s: Stream): Closing
    requires GoodSystem(sys) && ValidStream(sys, s)
  {
    LastFlush(sys, PutHeader(fmt, sys, Flush(sys, s).s, 0).s)
  }

  /** What a file holds behind its header. */
  function Tail(fmt: Format, file: seq<Byte>): seq<Byte> {
    if |file| < HeaderLen(fmt) then [] else file[HeaderLen(fmt)..]
  }

  /** A file of which a beginning of `hdr` was written over a beginning of `content`. */
  ghost predicate Rewritten(file: seq<Byte>, content: seq<Byte>, hdr: seq<Byte>) {
    exists base, n :: base <= content && 0 <= n <= |hdr| && file == Overwrite(base, 0, hdr[..n])
  }

  lemma {:induction false} EmitHeaderOver(fmt: Format, sys: System, s: Stream, hdr: seq<Byte>)
    requires GoodSystem(sys) && ValidStream(sys, s) && |hdr| == HeaderLen(fmt) && s.pos == 0 && s.pending == []
    ensures var r := EmitHeader(fmt, sys, s, hdr);
            Over(r.s, s.disk, hdr) && (r.n == |hdr| ==> End(r.s) == |hdr|)
  {
    var k := FirstPart(fmt);
    assert Overwrite(s.disk, 0, []) == s.disk && hdr[0..0] == [] && hdr[..0] == [];
    assert hdr[..k] == hdr[End(s)..k];
    EmitOver(sys, s, s.disk, hdr, k, hdr[..k]);
    var a := Emit(sys, s, hdr[..k]);
    if a.n == k {
      assert hdr[k..] == hdr[End(a.s)..|hdr|];
      EmitOver(sys, a.s, s.disk, hdr, |hdr|, hdr[k..]);
    }
  }

  lemma {:induction false} LastFlushOver(sys: System, s: Stream, file: seq<Byte>, content: seq<Byte>, hdr: seq<Byte>)
    requires ValidStream(sys, s) && Over(s, file, hdr) && file <= content
    ensures Rewritten(LastFlush(sys, s).disk, content, hdr)
  {
    FlushOver(sys, s, file, hdr);
    var t := Flush(sys, s).s;
    assert t.disk == Overwrite(file, 0, hdr[..t.pos]);
  }

  lemma {:induction false} LastFlushAppends(sys: System, s: Stream, content: seq<Byte>, hdr: seq<Byte>)
    requires ValidStream(sys, s) && Appending(s) && Content(s) <= content
    ensures Rewritten(LastFlush(sys, s).disk, content, hdr)
  {
    FlushExtends(sys, s);
    var d := LastFlush(sys, s).disk;
    assert Content(s) + [] == Content(s);
    assert d <= content && d == Overwrite(d, 0, hdr[..0]);
  }

  /** Whatever is answered, what a close leaves on the disk is a beginning of what was
      there or pending, with a beginning of some header written over it. */
  lemma {:induction false} CloseRewrites(fmt: Format, sys: System, s: Stream) returns (hdr: seq<Byte>)
    requires GoodSystem(sys) && ValidStream(sys, s) && Appending(s)
    ensures |hdr| == HeaderLen(fmt) && Rewritten(CloseFile(fmt, sys, s).disk, Content(s), hdr)
  {
    FlushExtends(sys, s);
    assert Content(s) + [] == Content(s);
    var t := Flush(sys, s).s;
    hdr := Header(fmt, |t.disk| - HeaderLen(fmt));
    FlushedRewrites(fmt, sys, t, Content(s), hdr);
  }

  lemma {:induction false} FlushedRewrites(fmt: Format, sys: System, t: Stream, content: seq<Byte>, hdr: seq<Byte>)
    requires GoodSystem(sys) && ValidStream(sys, t) && Appending(t) && Content(t) <= content
    requires hdr == Header(fmt, |t.disk| - HeaderLen(fmt))
    ensures Rewritten(LastFlush(sys, PutHeader(fmt, sys, t, 0).s).disk, content, hdr)
  {
    FlushKeepsBelow(sys, t, content);
    PutHeaderIs(fmt, sys, t, hdr);
    var u := SeekBack(sys, t);
    if !sys.stats(t.calls) {
      LastFlushAppends(sys, t, content, hdr);
    } else if !u.ok {
      LastFlushAppends(sys, u.s, content, hdr);
    } else {
      HeaderRewrites(fmt, sys, u.s, content, hdr);
    }
  }

  lemma PutHeaderIs(fmt: Format, sys: System, t: Stream, hdr: seq<Byte>)
    requires GoodSystem(sys) && ValidStream(sys, t) && hdr == Header(fmt, |t.disk| - HeaderLen(fmt))
    ensures PutHeader(fmt, sys, t, 0).s
            == if !sys.stats(t.calls) then t
               else if SeekBack(sys, t).ok then EmitHeader(fmt, sys, SeekBack(sys, t).s, hdr).s
               else SeekBack(sys, t).s
  {
  }

  lemma {:induction false} FlushKeepsBelow(sys: System, t: Stream, content: seq<Byte>)
    requires ValidStream(sys, t) && Appending(t) && Content(t) <= content
    ensures var f := Flush(sys, t);
            Appending(f.s) && Content(f.s) <= content
  {
    FlushExtends(sys, t);
    assert Content(t) + [] == Content(t);
  }

  lemma {:induction false} HeaderRewrites(fmt: Format, sys: System, u: Stream, content: seq<Byte>, hdr: seq<Byte>)
    requires GoodSystem(sys) && ValidStream(sys, u) && u.pos == 0 && u.pending == [] && u.disk <= content
    requires |hdr| == HeaderLen(fmt)
    ensures Rewritten(LastFlush(sys, EmitHeader(fmt, sys, u, hdr).s).disk, content, hdr)
  {
    EmitHeaderOver(fmt, sys, u, hdr);
    LastFlushOver(sys, EmitHeader(fmt, sys, u, hdr).s, u.disk, content, hdr);
  }

  /** Whatever fails, closing alters no byte of the audio and adds none; it can lose
      the end of it, if a flush fails. */
  lemma {:induction false} CloseKeepsAudio(fmt: Format, sys: System, s: Stream)
    requires GoodSystem(sys) && ValidStream(sys, s) && Appending(s)
    ensures Tail(fmt, CloseFile(fmt, sys, s).disk) <= Tail(fmt, Content(s))
  {
    var hdr := CloseRewrites(fmt, sys, s);
    var file := CloseFile(fmt, sys, s).disk;
    var base, n :| base <= Content(s) && 0 <= n <= |hdr| && file == Overwrite(base, 0, hdr[..n]);
    TailOfRewritten(fmt, base, Content(s), hdr[..n]);
  }

  lemma {:induction false} TailOfRewritten(fmt: Format, base: seq<Byte>, content: seq<Byte>, part: seq<Byte>)
    requires base <= content && |part| <= HeaderLen(fmt)
    ensures Tail(fmt, Overwrite(base, 0, part)) <= Tail(fmt, content)
  {
    var h := HeaderLen(fmt);
    var r := Overwrite(base, 0, part);
    if |r| > h {
      assert |r| == |base| && r[h..] == base[h..];
      assert base[h..] == content[h..][..|base| - h];
    }
  }

  /** A stream that holds a header and audio behind it. */
  predicate AudioStream(fmt: Format, sys: System, s: Stream) {
    ValidStream(sys, s) && Appending(s) && |Content(s)| >= HeaderLen(fmt)
  }

  /** With nothing pending, the header goes over the beginning of what is on the disk. */
  lemma PutHeaderThen(fmt: Format, sys: System, t: Stream)
    requires GoodSystem(sys) && ValidStream(sys, t) && t.pending == [] && sys.stats(t.calls) && sys.seeks(t.calls)
    ensures var e := EmitHeader(fmt, sys, t.(pos := 0), Header(fmt, |t.disk| - HeaderLen(fmt)));
            PutHeader(fmt, sys, t, 0) == HeaderDone(e.s, |t.disk| - HeaderLen(fmt), e.n == HeaderLen(fmt))
  {
  }

  /** A pending header reaches the disk if the last flush succeeds. */
  lemma {:induction false} HeaderOut(sys: System, v: Stream, hdr: seq<Byte>)
    requires ValidStream(sys, v) && v.pos == 0 && v.pending == hdr && |hdr| <= |v.disk| && LastFlush(sys, v).ok
    ensures LastFlush(sys, v).disk == hdr + v.disk[|hdr|..]
  {
    assert hdr[..|hdr|] == hdr;
    assert v.disk[..0] == [];
  }

  /** If the flush at the beginning is complete and fstat and seek succeed, a stream
      whose buffer takes the whole header is finished whenever close succeeds. */
  lemma {:induction false} BufferedCloseFinishes(fmt: Format, sys: System, s: Stream)
    requires GoodSystem(sys) && AudioStream(fmt, sys, s) && sys.capacity > HeaderLen(fmt) && Complete(sys, s)
    requires (forall c :: sys.stats(c)) && (forall c :: sys.seeks(c)) && CloseFile(fmt, sys, s).ok
    ensures CloseFile(fmt, sys, s).disk == Finished(fmt, Content(s)[HeaderLen(fmt)..])
  {
    FlushExtends(sys, s);
    PendingCloses(fmt, sys, Flush(sys, s).s);
  }

  lemma {:induction false} PendingCloses(fmt: Format, sys: System, t: Stream)
    requires GoodSystem(sys) && ValidStream(sys, t) && t.pending == [] && sys.capacity > HeaderLen(fmt)
    requires |t.disk| >= HeaderLen(fmt) && sys.stats(t.calls) && sys.seeks(t.calls)
    ensures var r := LastFlush(sys, PutHeader(fmt, sys, t, 0).s);
            r.ok ==> r.disk == Finished(fmt, t.disk[HeaderLen(fmt)..])
  {
    var hdr := Header(fmt, |t.disk| - HeaderLen(fmt));
    PutHeaderThen(fmt, sys, t);
    HeaderIsPending(fmt, sys, t.(pos := 0), hdr);
    var v := PutHeader(fmt, sys, t, 0).s;
    if LastFlush(sys, v).ok {
      HeaderOut(sys, v, hdr);
    }
  }

  lemma {:induction false} HeaderIsPending(fmt: Format, sys: System, s: Stream, hdr: seq<Byte>)
    requires GoodSystem(sys) && ValidStream(sys, s) && s.pending == [] && |hdr| == HeaderLen(fmt) < sys.capacity
    ensures var r := EmitHeader(fmt, sys, s, hdr);
            r.n == |hdr| && r.s.disk == s.disk && r.s.pos == s.pos && r.s.pending == hdr
  {
    var k := FirstPart(fmt);
    FitsIsKept(sys, s, hdr[..k]);
    FitsIsKept(sys, Emit(sys, s, hdr[..k]).s, hdr[k..]);
    assert [] + hdr[..k] + hdr[k..] == hdr;
  }

  // ---- when success means a finished file ----

  /** For every stream with this buffer whose flush at close, fstat and seek succeed,
      as far as demanded: a close that reports success leaves a finished file with
      all that was accepted. */
  ghost predicate SuccessMeansFinished(fmt: Format, capacity: nat, flush: bool, stat: bool, seek: bool) {
    forall sys, s ::
      && GoodSystem(sys) && sys.capacity == capacity && AudioStream(fmt, sys, s)
      && (flush ==> Complete(sys, s)) && (stat ==> forall c :: sys.stats(c)) && (seek ==> forall c :: sys.seeks(c))
      && CloseFile(fmt, sys, s).ok
      ==> CloseFile(fmt, sys, s).disk == Finished(fmt, Content(s)[HeaderLen(fmt)..])
  }

  /** A system that answers as told, for a buffer of this capacity: what does not fit
      is refused and the buffer dropped; flushes succeed but perhaps the first. */
  function Told(fmt: Format, capacity: nat, first: bool, stat: bool, seek: bool): (sys: System)
    ensures GoodSystem(sys)
  {
    System(capacity,
           (c: nat, p: nat, req: nat) => if p + req < capacity then Accepted(req, 0) else Failed(0, 0, false),
           (c: nat) => if c == 0 && !first then Drain(0, false) else Drain(HeaderLen(fmt) + 1, true),
           true, (c: nat) => stat, (c: nat) => seek, true)
  }

  /** The header announces five bytes; one is there. */
  function Short(fmt: Format): Stream {
    Stream(Header(fmt, 5) + [0], HeaderLen(fmt) + 1, [], 0)
  }

  lemma {:induction false} LengthsDiffer(fmt: Format)
    ensures Header(fmt, 5) != Header(fmt, 1)
  {
    match fmt
    case Au(comment) => AuLengthsDiffer(comment);
    case Wav => WavLengthsDiffer();
    case Aiff => AiffLengthsDiffer();
  }

  lemma {:induction false} AuLengthsDiffer(comment: seq<Byte>)
    ensures Header(Au(comment), 5) != Header(Au(comment), 1)
  {
    assert Header(Au(comment), 5)[8..12] == Be4(5);
    assert Header(Au(comment), 1)[8..12] == Be4(1);
    Be4Back(5);
    Be4Back(1);
  }

  lemma {:induction false} WavLengthsDiffer()
    ensures Header(Wav, 5) != Header(Wav, 1)
  {
    assert Header(Wav, 5)[40..44] == Le4(5);
    assert Header(Wav, 1)[40..44] == Le4(1);
    Le4Back(5);
    Le4Back(1);
  }

  lemma {:induction false} AiffLengthsDiffer()
    ensures Header(Aiff, 5) != Header(Aiff, 1)
  {
    assert Header(Aiff, 5)[4..8] == Be4(51);
    assert Header(Aiff, 1)[4..8] == Be4(47);
    Be4Back(51);
    Be4Back(47);
  }

  lemma {:induction false} ShortIsUnfinished(fmt: Format)
    ensures var s := Short(fmt);
            Content(s) == s.disk && s.disk[HeaderLen(fmt)..] == [0] && s.disk != Finished(fmt, [0])
  {
    var s := Short(fmt);
    LengthsDiffer(fmt);
    assert s.disk[..HeaderLen(fmt)] == Header(fmt, 5);
    assert Finished(fmt, [0])[..HeaderLen(fmt)] == Header(fmt, 1);
  }

  /** Without fstat or seek the old header stays, and close reports success. */
  lemma {:induction false} NoStatOrSeek(fmt: Format, capacity: nat, stat: bool, seek: bool, s: Stream)
    requires (!stat || !seek) && s.pos <= |s.disk| && s.pending == []
    ensures CloseFile(fmt, Told(fmt, capacity, true, stat, seek), s) == Closing(s.disk, true)
  {
  }

  /** Nor is it written if the buffer is too small for it, or there is none. */
  lemma {:induction false} NoRoom(fmt: Format, capacity: nat, s: Stream)
    requires capacity <= HeaderLen(fmt) && s.pos <= |s.disk| && s.pending == []
    ensures CloseFile(fmt, Told(fmt, capacity, true, true, true), s) == Closing(s.disk, true)
  {
    var sys := Told(fmt, capacity, true, true, true);
    var u := s.(pos := 0);
    var hdr := Header(fmt, |s.disk| - HeaderLen(fmt));
    var k := FirstPart(fmt);
    if k < capacity {
      FitsIsKept(sys, u, hdr[..k]);
      Refused(sys, Emit(sys, u, hdr[..k]).s, hdr[k..]);
    } else {
      Refused(sys, u, hdr[..k]);
    }
    PutHeaderThen(fmt, sys, s);
  }

  lemma {:induction false} Refused(sys: System, s: Stream, data: seq<Byte>)
    requires GoodSystem(sys) && ValidStream(sys, s) && data != []
    requires sys.writes(s.calls, |s.pending|, |data|) == Failed(0, 0, false)
    ensures var r := Emit(sys, s, data);
            r.n == 0 && r.s.disk == s.disk && r.s.pending == []
  {
    EmitOnce(sys, s, data, Failed(0, 0, false));
    assert (s.pending + data[..0])[..0] == [] && Overwrite(s.disk, s.pos, []) == s.disk;
  }

  /** A byte is pending, the flush drops it, and the header agrees with what is left. */
  lemma {:induction false} LostEnd(fmt: Format, capacity: nat)
    requires capacity > HeaderLen(fmt)
    ensures var s := Stream(Header(fmt, 5), HeaderLen(fmt), [0], 0);
            var sys := Told(fmt, capacity, false, true, true);
            AudioStream(fmt, sys, s) && CloseFile(fmt, sys, s) == Closing(Finished(fmt, []), true)
            && Content(s)[HeaderLen(fmt)..] == [0]
  {
    var s := Stream(Header(fmt, 5), HeaderLen(fmt), [0], 0);
    var sys := Told(fmt, capacity, false, true, true);
    var t := Stream(s.disk, s.pos, [], 1);
    assert Flush(sys, s).s == t by {
      assert Overwrite(s.disk, s.pos, []) == s.disk && s.pending[..0] == [];
    }
    NoneLeft(fmt, sys, t);
  }

  lemma {:induction false} NoneLeft(fmt: Format, sys: System, t: Stream)
    requires sys.capacity > HeaderLen(fmt) && sys == Told(fmt, sys.capacity, false, true, true)
    requires t == Stream(Header(fmt, 5), HeaderLen(fmt), [], 1)
    ensures LastFlush(sys, PutHeader(fmt, sys, t, 0).s) == Closing(Finished(fmt, []), true)
  {
    PutHeaderThen(fmt, sys, t);
    HeaderIsPending(fmt, sys, t.(pos := 0), Header(fmt, 0));
    CallsGrow(fmt, sys, t.(pos := 0), Header(fmt, 0));
    PendingCloses(fmt, sys, t);
    assert t.disk[HeaderLen(fmt)..] == [];
  }

  lemma {:induction false} CallsGrow(fmt: Format, sys: System, s: Stream, hdr: seq<Byte>)
    requires GoodSystem(sys) && ValidStream(sys, s) && |hdr| == HeaderLen(fmt)
    ensures EmitHeader(fmt, sys, s, hdr).s.calls >= s.calls
  {
    var k := FirstPart(fmt);
    EmitCalls(sys, s, hdr[..k]);
    EmitCalls(sys, Emit(sys, s, hdr[..k]).s, hdr[k..]);
  }

  lemma {:induction false} EmitCalls(sys: System, s: Stream, data: seq<Byte>)
    requires GoodSystem(sys) && ValidStream(sys, s)
    ensures Emit(sys, s, data).s.calls >= s.calls
    decreases |data|
  {
    if data != [] {
      var a := sys.writes(s.calls, |s.pending|, |data|);
      EmitOnce(sys, s, data, a);
      if a.Accepted? {
        EmitCalls(sys, Take(sys, s, data), data[a.n..]);
      }
    }
  }

  /** What close reports is what fclose says: that the close itself went well, and that
      everything pending behind the header reached the disk. */
  lemma CloseReportsIff(fmt: Format, sys: System, s: Stream)
    requires GoodSystem(sys) && ValidStream(sys, s)
    ensures CloseFile(fmt, sys, s).ok <==> sys.closes && Complete(sys, PutHeader(fmt, sys, Flush(sys, s).s, 0).s)
  {
  }

  /** That close reports success means a finished file, whatever the writes answer,
      exactly if the file is buffered with room for its header, and the flush at
      close, fstat and seek are known to succeed. */
  lemma {:induction false} SuccessMeansFinishedIff(fmt: Format, capacity: nat, flush: bool, stat: bool, seek: bool)
    ensures SuccessMeansFinished(fmt, capacity, flush, stat, seek)
            <==> capacity > HeaderLen(fmt) && flush && stat && seek
  {
    ShortIsUnfinished(fmt);
    if capacity <= HeaderLen(fmt) {
      NoRoom(fmt, capacity, Short(fmt));
      Refute(fmt, capacity, flush, stat, seek, Told(fmt, capacity, true, true, true), Short(fmt));
    } else if !stat || !seek {
      NoStatOrSeek(fmt, capacity, stat, seek, Short(fmt));
      Refute(fmt, capacity, flush, stat, seek, Told(fmt, capacity, true, stat, seek), Short(fmt));
    } else if !flush {
      LostEnd(fmt, capacity);
      var s := Stream(Header(fmt, 5), HeaderLen(fmt), [0], 0);
      assert |Finished(fmt, [])| != |Finished(fmt, [0])|;
      Refute(fmt, capacity, flush, stat, seek, Told(fmt, capacity, false, true, true), s);
    } else {
      forall sys, s |
        && GoodSystem(sys) && sys.capacity == capacity && AudioStream(fmt, sys, s) && Complete(sys, s)
        && (forall c :: sys.stats(c)) && (forall c :: sys.seeks(c)) && CloseFile(fmt, sys, s).ok
        ensures CloseFile(fmt, sys, s).disk == Finished(fmt, Content(s)[HeaderLen(fmt)..])
      {
        BufferedCloseFinishes(fmt, sys, s);
      }
    }
  }

  lemma Refute(fmt: Format, capacity: nat, flush: bool, stat: bool, seek: bool, sys: System, s: Stream)
    requires GoodSystem(sys) && sys.capacity == capacity && AudioStream(fmt, sys, s)
    requires (flush ==> Complete(sys, s)) && (stat ==> forall c :: sys.stats(c)) && (seek ==> forall c :: sys.seeks(c))
    requires CloseFile(fmt, sys, s).ok
    requires CloseFile(fmt, sys, s).disk != Finished(fmt, Content(s)[HeaderLen(fmt)..])
    ensures !SuccessMeansFinished(fmt, capacity, flush, stat, seek)
  {
  }

  /** Without a buffer, as for devices: the disk is full, close reports success, and
      the header still announces the estimate, so that no reader that goes by the
      lengths accepts the file. */
  lemma {:induction false} StaleHeader(audio: seq<Byte>, estimate: nat)
    requires estimate < WORD32 - 36 && estimate != |audio|
    ensures var file := Header(Wav, estimate) + audio;
            && CloseFile(Wav, Told(Wav, 0, true, true, true), Stream(file, |file|, [], 0)) == Closing(file, true)
            && Read(Wav, file) == None
  {
    var file := Header(Wav, estimate) + audio;
    NoRoom(Wav, 0, Stream(file, |file|, [], 0));
    EstimateRefused(audio, estimate);
  }

  // ---- a whole file ----

  /** gen_open_file: the file is emptied unless the open itself fails. */
  function OpenFile(fmt: Format, sys: System, estimate: int, file: seq<Byte>): (r: HeaderDone)
    requires GoodSystem(sys)
    ensures ValidStream(sys, r.s)
  {
    if sys.opens then PutHeader(fmt, sys, Stream([], 0, [], 0), estimate)
    else HeaderDone(Stream(file, 0, [], 0), estimate, false)
  }

  /** What an opened file announces. */
  function Announced(fmt: Format, estimate: int): int {
    if estimate == 0 then 0 - HeaderLen(fmt) as int else estimate
  }

  lemma {:induction false} HeaderExtends(fmt: Format, sys: System, s: Stream, hdr: seq<Byte>)
    requires GoodSystem(sys) && ValidStream(sys, s) && Appending(s) && |hdr| == HeaderLen(fmt)
    ensures var r := EmitHeader(fmt, sys, s, hdr);
            Extends(s, r.s, hdr[..r.n]) && (r.n == |hdr| ==> Content(r.s) == Content(s) + hdr)
  {
    var k := FirstPart(fmt);
    EmitExtends(sys, s, hdr[..k]);
    var a := Emit(sys, s, hdr[..k]);
    if a.n < k {
      assert hdr[..k][..a.n] == hdr[..a.n];
    } else {
      assert hdr[..k][..k] == hdr[..k];
      EmitExtends(sys, a.s, hdr[k..]);
      var b := Emit(sys, a.s, hdr[k..]);
      JoinExtends(s, a.s, b.s, hdr, k, b.n);
    }
  }

  /** A header for an empty file is written at its beginning, or not at all. */
  lemma {:induction false} FreshHeader(fmt: Format, sys: System, estimate: int)
    requires GoodSystem(sys)
    ensures var s := Stream([], 0, [], 0);
            var r := PutHeader(fmt, sys, s, estimate);
            var e := EmitHeader(fmt, sys, s, Header(fmt, Announced(fmt, estimate)));
            || (r.s == e.s && (r.ok <==> e.n == HeaderLen(fmt)))
            || (r.s == s && !r.ok && estimate == 0 && !(sys.stats(0) && sys.seeks(0)))
  {
    if estimate == 0 {
      FreshRewind(fmt, sys);
    }
  }

  lemma {:induction false} FreshRewind(fmt: Format, sys: System)
    requires GoodSystem(sys)
    ensures var s := Stream([], 0, [], 0);
            var r := PutHeader(fmt, sys, s, 0);
            var e := EmitHeader(fmt, sys, s, Header(fmt, Announced(fmt, 0)));
            || (r.s == e.s && (r.ok <==> e.n == HeaderLen(fmt)))
            || (r.s == s && !r.ok && !(sys.stats(0) && sys.seeks(0)))
  {
    var s := Stream([], 0, [], 0);
    if sys.stats(0) && sys.seeks(0) {
      assert SeekBack(sys, s) == Rewound(s, true);
      PutHeaderEnds(fmt, sys, s, 0, s, Announced(fmt, 0));
    } else {
      PutHeaderFails(fmt, sys, s);
    }
  }

  lemma PutHeaderFails(fmt: Format, sys: System, s: Stream)
    requires GoodSystem(sys) && ValidStream(sys, s) && Flush(sys, s) == Flushed(s, true)
    requires !(sys.stats(s.calls) && sys.seeks(s.calls))
    ensures PutHeader(fmt, sys, s, 0).s == s && !PutHeader(fmt, sys, s, 0).ok
  {
  }

  /** After an open that succeeded there is the header for the estimate and nothing
      else; after one that failed behind the truncation, a beginning of it. */
  lemma {:induction false} OpenedIsHeader(fmt: Format, sys: System, estimate: int, file: seq<Byte>)
    requires GoodSystem(sys) && sys.opens
    ensures var r := OpenFile(fmt, sys, estimate, file);
            var hdr := Header(fmt, Announced(fmt, estimate));
            Appending(r.s) && Content(r.s) <= hdr && (r.ok ==> Content(r.s) == hdr)
  {
    FreshHeader(fmt, sys, estimate);
    EmissionIsHeader(fmt, sys, Header(fmt, Announced(fmt, estimate)));
  }

  lemma {:induction false} EmissionIsHeader(fmt: Format, sys: System, hdr: seq<Byte>)
    requires GoodSystem(sys) && |hdr| == HeaderLen(fmt)
    ensures var e := EmitHeader(fmt, sys, Stream([], 0, [], 0), hdr);
            Appending(e.s) && Content(e.s) <= hdr && (e.n == |hdr| ==> Content(e.s) == hdr)
  {
    var s := Stream([], 0, [], 0);
    HeaderExtends(fmt, sys, s, hdr);
    var e := EmitHeader(fmt, sys, s, hdr);
    assert Content(s) == [] && [] + hdr == hdr && [] + hdr[..e.n] == hdr[..e.n];
  }

  /** Nothing fails, whatever short writes there are. */
  ghost predicate NeverFails(sys: System) {
    && (forall c: nat, p: nat, req: nat :: req >= 1 ==> sys.writes(c, p, req).Accepted?)
    && (forall c :: sys.flushes(c).out >= sys.capacity)
    && sys.opens && sys.closes && (forall c :: sys.stats(c)) && (forall c :: sys.seeks(c))
  }

  /** The flushes at close, fstat and seek are sure to succeed, and the header fits
      into the buffer: then close can be trusted. */
  ghost predicate Trusted(fmt: Format, sys: System) {
    && sys.capacity > HeaderLen(fmt) && (forall c :: sys.flushes(c).out >= sys.capacity)
    && (forall c :: sys.stats(c)) && (forall c :: sys.seeks(c))
  }

  /** Success of a close means a finished file: it can be trusted, or nothing fails. */
  ghost predicate Honest(fmt: Format, sys: System) {
    Trusted(fmt, sys) || NeverFails(sys)
  }

  lemma {:induction false} NoErrorEmitsAll(sys: System, s: Stream, data: seq<Byte>)
    requires GoodSystem(sys) && ValidStream(sys, s) && NeverFails(sys)
    ensures Emit(sys, s, data).n == |data|
    decreases |data|
  {
    if data != [] {
      var a := sys.writes(s.calls, |s.pending|, |data|);
      EmitOnce(sys, s, data, a);
      NoErrorEmitsAll(sys, Take(sys, s, data), data[a.n..]);
    }
  }

  lemma {:induction false} NoErrorEmitsHeader(fmt: Format, sys: System, s: Stream, hdr: seq<Byte>)
    requires GoodSystem(sys) && ValidStream(sys, s) && NeverFails(sys) && |hdr| == HeaderLen(fmt)
    ensures EmitHeader(fmt, sys, s, hdr).n == |hdr|
  {
    NoErrorEmitsAll(sys, s, hdr[..FirstPart(fmt)]);
    NoErrorEmitsAll(sys, Emit(sys, s, hdr[..FirstPart(fmt)]).s, hdr[FirstPart(fmt)..]);
  }

  /** A header written over the beginning reaches the disk with the last flush. */
  lemma {:induction false} OverIsFinished(sys: System, v: Stream, file: seq<Byte>, hdr: seq<Byte>)
    requires ValidStream(sys, v) && Over(v, file, hdr) && End(v) == |hdr| <= |file| && LastFlush(sys, v).ok
    ensures LastFlush(sys, v).disk == hdr + file[|hdr|..]
  {
    FlushOver(sys, v, file, hdr);
    assert hdr[..|hdr|] == hdr && file[..0] == [];
  }

  lemma {:induction false} NoErrorOver(fmt: Format, sys: System, u: Stream, hdr: seq<Byte>)
    requires GoodSystem(sys) && ValidStream(sys, u) && NeverFails(sys) && |hdr| == HeaderLen(fmt)
    requires u.pos == 0 && u.pending == []
    ensures var v := EmitHeader(fmt, sys, u, hdr).s;
            Over(v, u.disk, hdr) && End(v) == |hdr| && LastFlush(sys, v).ok
  {
    NoErrorEmitsHeader(fmt, sys, u, hdr);
    EmitHeaderOver(fmt, sys, u, hdr);
  }

  lemma {:induction false} NoErrorRewrites(fmt: Format, sys: System, t: Stream)
    requires GoodSystem(sys) && ValidStream(sys, t) && NeverFails(sys)
    requires t.pending == [] && |t.disk| >= HeaderLen(fmt)
    ensures LastFlush(sys, PutHeader(fmt, sys, t, 0).s) == Closing(Finished(fmt, t.disk[HeaderLen(fmt)..]), true)
  {
    var u, hdr := t.(pos := 0), Header(fmt, |t.disk| - HeaderLen(fmt));
    var v := PutHeader(fmt, sys, t, 0).s;
    assert v == EmitHeader(fmt, sys, u, hdr).s by {
      PutHeaderThen(fmt, sys, t);
    }
    NoErrorOver(fmt, sys, u, hdr);
    OverIsFinished(sys, v, t.disk, hdr);
  }

  lemma {:induction false} NoErrorFinishes(fmt: Format, sys: System, s: Stream)
    requires GoodSystem(sys) && AudioStream(fmt, sys, s) && NeverFails(sys)
    ensures CloseFile(fmt, sys, s) == Closing(Finished(fmt, Content(s)[HeaderLen(fmt)..]), true)
  {
    FlushExtends(sys, s);
    NoErrorRewrites(fmt, sys, Flush(sys, s).s);
  }

  /** Closing a stream on a system that never fails succeeds. */
  lemma {:induction false} NoErrorCloses(fmt: Format, sys: System, s: Stream)
    requires GoodSystem(sys) && ValidStream(sys, s) && NeverFails(sys)
    ensures CloseFile(fmt, sys, s).ok
  {
    var t := PutHeader(fmt, sys, Flush(sys, s).s, 0).s;
    assert Complete(sys, t);
  }

  /** Writing a chunk of audio behind what is there. */
  lemma {:induction false} ChunkExtends(sys: System, s: Stream, audio: seq<Byte>, before: seq<Byte>, chunk: Chunk)
    requires GoodSystem(sys) && ValidStream(sys, s) && Appending(s) && Content(s) == before + audio
    ensures var e := Emit(sys, s, chunk);
            && Appending(e.s) && Content(e.s) <= before + (audio + chunk[..e.n])
            && (e.n == |chunk| ==> Content(e.s) == before + (audio + chunk))
  {
    EmitExtends(sys, s, chunk);
    Associates(before, audio, chunk[..Emit(sys, s, chunk).n]);
    Associates(before, audio, chunk);
  }

  lemma Associates(a: seq<Byte>, b: seq<Byte>, c: seq<Byte>)
    ensures a + b + c == a + (b + c)
  {
  }

  class GenDesc {
    const fmt: Format
    const sys: System
    var disk: seq<Byte>
    var pos: nat
    var pending: seq<Byte>      // in the stdio buffer
    var calls: nat              // calls to the system so far
    var datalen: int

    ghost predicate Valid()
      reads this
    {
      GoodSystem(sys) && ValidStream(sys, View())
    }

    ghost function View(): Stream
      reads this
    {
      Stream(disk, pos, pending, calls)
    }

    /** A file of that name may exist. */
    constructor (fmt: Format, sys: System, estimate: int, file: seq<Byte>)
      requires GoodSystem(sys)
      ensures Valid() && this.fmt == fmt && this.sys == sys
      ensures View() == Stream(file, 0, [], 0) && datalen == estimate
    {
      this.fmt, this.sys, disk, datalen := fmt, sys, file, estimate;
      pos, pending, calls := 0, [], 0;
    }

    /** `out` bytes of `all` go to the disk. */
    method Move(all: seq<Byte>, out: nat, keeps: bool)
      requires pos <= |disk| && out <= |all|
      modifies this`disk, this`pos, this`pending, this`calls
      ensures View() == Moved(old(View()), all, out, keeps)
    {
      disk := Overwrite(disk, pos, all[..out]);
      pos, pending, calls := pos + out, if keeps then all[out..] else [], calls + 1;
    }

    /** One write or fwrite. */
    method WriteSome(data: seq<Byte>) returns (a: Answer)
      requires Valid() && data != []
      modifies this`disk, this`pos, this`pending, this`calls
      ensures a == sys.writes(old(calls), |old(pending)|, |data|)
      ensures Valid() && View() == Take(sys, old(View()), data)
    {
      a := sys.writes(calls, |pending|, |data|);
      assert GoodAnswer(sys.capacity, |pending|, |data|, a);
      Move(pending + data[..a.n], a.out, a.Accepted? || a.keeps);
    }

    /** gen_write_chunk: write the buffer piece by piece; true exactly if all of it
        was accepted. */
    method WriteChunk(data: seq<Byte>) returns (ok: bool, ghost n: nat)
      requires Valid()
      modifies this`disk, this`pos, this`pending, this`calls
      ensures Valid() && Emission(View(), n) == Emit(sys, old(View()), data) && (ok <==> n == |data|)
    {
      ghost var all := Emit(sys, View(), data);
      var rest := data;
      ok, n := true, 0;
      while rest != [] && ok
        invariant Valid() && n <= |data| && rest == data[n..]
        invariant if ok then all == Emission(Emit(sys, View(), rest).s, n + Emit(sys, View(), rest).n)
                  else all == Emission(View(), n) && n < |data|
        decreases |rest|, ok
      {
        ghost var s := View();
        var a := WriteSome(rest);
        EmitOnce(sys, s, rest, a);
        rest, n, ok := rest[a.n..], n + a.n, a.Accepted?;
      }
    }

    /** fflush */
    method FlushOut() returns (ok: bool)
      requires Valid()
      modifies this`disk, this`pos, this`pending, this`calls
      ensures Valid() && Flushed(View(), ok) == Flush(sys, old(View()))
    {
      if pending == [] { return true; }
      var d := sys.flushes(calls);
      ok := d.out >= |pending|;
      Move(pending, if ok then |pending| else d.out, d.keeps);
    }

    method WriteParts(hdr: seq<Byte>) returns (ok: bool)
      requires Valid() && |hdr| == HeaderLen(fmt)
      modifies this`disk, this`pos, this`pending, this`calls
      ensures Valid()
      ensures var e := EmitHeader(fmt, sys, old(View()), hdr);
              View() == e.s && (ok <==> e.n == |hdr|)
    {
      ghost var n, m;
      if fmt.Au? {
        ok, n := WriteChunk(hdr[..24]);
        if ok {
          ok, m := WriteChunk(hdr[24..]);
        }
      } else {
        assert hdr[..HeaderLen(fmt)] == hdr && hdr[HeaderLen(fmt)..] == [];
        ok, n := WriteChunk(hdr);
      }
    }

    /** The three header writers. */
    method WriteHeader() returns (ok: bool)
      requires Valid()
      modifies this`disk, this`pos, this`pending, this`calls, this`datalen
      ensures Valid()
      ensures var r := PutHeader(fmt, sys, old(View()), old(datalen));
              View() == r.s && datalen == r.datalen && ok == r.ok
    {
      ghost var s, estimate := View(), datalen;
      if datalen == 0 {
        if !sys.stats(calls) { return false; }
        datalen := |disk| - HeaderLen(fmt);
        ok := Rewind();
        if !ok { return; }
      }
      PutHeaderEnds(fmt, sys, s, estimate, View(), datalen);
      ok := WriteParts(Header(fmt, datalen));
    }

    /** fseek to the beginning, which flushes first. */
    method Rewind() returns (ok: bool)
      requires Valid()
      modifies this`disk, this`pos, this`pending, this`calls
      ensures Valid() && Rewound(View(), ok) == SeekBack(sys, old(View()))
    {
      var before := calls;
      var flushed := FlushOut();
      ok := flushed && sys.seeks(before);
      if ok { pos := 0; }
    }

    /** gen_open_file */
    method Open() returns (ok: bool)
      requires Valid() && View() == Stream(disk, 0, [], 0)
      modifies this`disk, this`pos, this`pending, this`calls, this`datalen
      ensures Valid() && HeaderDone(View(), datalen, ok) == OpenFile(fmt, sys, old(datalen), old(disk))
      ensures !sys.opens ==> !ok && View() == old(View())
    {
      if !sys.opens { return false; }
      disk := [];
      ok := WriteHeader();
    }

    /** gen_close_file */
    method Close() returns (ok: bool)
      requires Valid()
      modifies this`disk, this`pos, this`pending, this`calls, this`datalen
      ensures Valid() && Closing(disk, ok) == CloseFile(fmt, sys, old(View()))
    {
      datalen := 0;
      var flushed := FlushOut();
      var written := WriteHeader();
      flushed := FlushOut();
      ok := sys.closes && flushed;
    }

    /** The next chunk of the audio; `more` is what was accepted so far. */
    method WriteNext(chunk: Chunk, ghost before: seq<Byte>, ghost audio: seq<Byte>)
      returns (ok: bool, ghost more: seq<Byte>)
      requires Valid() && Appending(View()) && Content(View()) == before + audio
      modifies this`disk, this`pos, this`pending, this`calls
      ensures Valid() && Appending(View()) && Content(View()) <= before + more
      ensures audio <= more <= audio + chunk && (ok <==> more == audio + chunk)
      ensures ok ==> Content(View()) == before + more
      ensures NeverFails(sys) ==> ok
    {
      ghost var n;
      if NeverFails(sys) { NoErrorEmitsAll(sys, View(), chunk); }
      ChunkExtends(sys, View(), audio, before, chunk);
      ok, n := WriteChunk(chunk);
      more := audio + chunk[..n];
      assert chunk[..|chunk|] == chunk;
    }

    /** The audio of one file, chunk after chunk until one fails; `audio` is what was
        accepted of it. */
    method WriteAudio(chunks: seq<Chunk>) returns (ok: bool, ghost audio: seq<Byte>)
      requires Valid() && Appending(View())
      modifies this`disk, this`pos, this`pending, this`calls
      ensures Valid() && Appending(View()) && audio <= Concat(chunks) && (ok <==> audio == Concat(chunks))
      ensures Content(View()) <= old(Content(View())) + audio
      ensures ok ==> Content(View()) == old(Content(View())) + audio
      ensures NeverFails(sys) ==> ok
    {
      ghost var before := Content(View());
      ok, audio := true, [];
      assert before + [] == before;
      var k := 0;
      while k < |chunks|
        invariant 0 <= k <= |chunks| && Valid() && Appending(View())
        invariant audio == Concat(chunks[..k]) && Content(View()) == before + audio
      {
        ConcatUpTo(chunks, k + 1);
        ok, audio := WriteNext(chunks[k], before, audio);
        if !ok { return; }
        k := k + 1;
      }
      assert chunks[..k] == chunks;
      ok := true;
    }

    /** One file from open to close.  What is on the disk in the end is a beginning of
        the audio that was accepted; all of it, behind a header that says so, if no
        write failed, close reports success and can be trusted. */
    method WriteFile(chunks: seq<Chunk>) returns (started: bool, ok: bool, closed: bool, ghost audio: seq<Byte>)
      requires Valid() && View() == Stream(disk, 0, [], 0)
      modifies this`disk, this`pos, this`pending, this`calls, this`datalen
      ensures Valid()
      ensures started ==> audio <= Concat(chunks) && (ok <==> audio == Concat(chunks)) && Tail(fmt, disk) <= audio
      ensures started && ok && closed && Trusted(fmt, sys) ==> disk == Finished(fmt, audio)
      ensures NeverFails(sys) ==> started && ok && closed && disk == Finished(fmt, Concat(chunks))
    {
      ok, closed, audio := false, false, [];
      ghost var hdr := Header(fmt, Announced(fmt, datalen));
      if sys.opens { OpenedIsHeader(fmt, sys, datalen, disk); }
      if NeverFails(sys) { NoErrorOpens(fmt, sys, datalen, disk); }
      started := Open();
      if !started { return; }
      ok, audio := WriteAudio(chunks);
      ghost var s := View();
      CloseKeepsAudio(fmt, sys, s);
      TailOfContent(fmt, Content(s), hdr, audio);
      if ok {
        assert (hdr + audio)[HeaderLen(fmt)..] == audio;
        TrustedCloses(fmt, sys, s);
      }
      closed := Close();
    }
  }

  lemma TailOfContent(fmt: Format, content: seq<Byte>, hdr: seq<Byte>, audio: seq<Byte>)
    requires |hdr| == HeaderLen(fmt) && content <= hdr + audio
    ensures Tail(fmt, content) <= audio
  {
    if |content| >= |hdr| {
      assert content[|hdr|..] == (hdr + audio)[|hdr|..|content|];
    }
  }

  lemma {:induction false} NoErrorOpens(fmt: Format, sys: System, estimate: int, file: seq<Byte>)
    requires GoodSystem(sys) && NeverFails(sys)
    ensures OpenFile(fmt, sys, estimate, file).ok
  {
    NoErrorEmitsHeader(fmt, sys, Stream([], 0, [], 0), Header(fmt, Announced(fmt, estimate)));
    FreshHeader(fmt, sys, estimate);
  }

  lemma {:induction false} TrustedCloses(fmt: Format, sys: System, s: Stream)
    requires GoodSystem(sys) && AudioStream(fmt, sys, s)
    ensures Honest(fmt, sys) && CloseFile(fmt, sys, s).ok ==>
              CloseFile(fmt, sys, s).disk == Finished(fmt, Content(s)[HeaderLen(fmt)..])
    ensures NeverFails(sys) ==>
              CloseFile(fmt, sys, s) == Closing(Finished(fmt, Content(s)[HeaderLen(fmt)..]), true)
  {
    if Trusted(fmt, sys) && CloseFile(fmt, sys, s).ok { BufferedCloseFinishes(fmt, sys, s); }
    if NeverFails(sys) { NoErrorFinishes(fmt, sys, s); }
  }
}

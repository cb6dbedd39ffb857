/**
  A file behind the stdio buffer, or without one: what is on the disk, and what was
  accepted but is not there yet.
 */
module Stdio {
  import opened Basics

  /** What one write or fwrite does: it accepts `n` bytes, and the first `out` of
      all that is pending then reach the disk.  An error ends the chunk; what did
      not reach the disk may stay in the buffer or be gone. */
  datatype Answer = Accepted(n: nat, out: nat) | Failed(n: nat, out: nat, keeps: bool)

  /** What a flush does: `out` bytes reach the disk; the rest, if any, stays or is gone. */
  datatype Drain = Drain(out: nat, keeps: bool)

  /** What the system answers, by the number of calls before: writes (with the bytes
      pending and asked for), flushes, fstat and seek; and whether the open and the
      close itself succeed.  Capacity 0 is a file without a buffer. */
  datatype System = System(
    capacity: nat, writes: (nat, nat, nat) -> Answer, flushes: nat -> Drain,
    opens: bool, stats: nat -> bool, seeks: nat -> bool, closes: bool)

  /** What fits into the buffer goes there without any input or output; short writes
      accept something; a write that fails does not accept everything. */
  predicate GoodAnswer(capacity: nat, pending: nat, req: nat, a: Answer) {
    && (pending + req < capacity ==> a == Accepted(req, 0))
    && a.out <= pending + a.n <= a.out + capacity
    && (if a.Accepted? then 1 <= a.n <= req else a.n < req)
  }

  ghost predicate GoodSystem(sys: System) {
    forall c: nat, p: nat, req: nat :: p <= sys.capacity && req >= 1 ==>
      GoodAnswer(sys.capacity, p, req, sys.writes(c, p, req))
  }

  /** The bytes on the disk, where the pending ones go, and those. */
  datatype Stream = Stream(disk: seq<Byte>, pos: nat, pending: seq<Byte>, calls: nat)

  predicate ValidStream(sys: System, s: Stream) {
    s.pos <= |s.disk| && |s.pending| <= sys.capacity
  }

  /** Writing at a position that lies within the file or at its end. */
  function Overwrite(file: seq<Byte>, pos: nat, bytes: seq<Byte>): (r: seq<Byte>)
    requires pos <= |file|
    ensures |r| == if pos + |bytes| <= |file| then |file| else pos + |bytes|
  {
    file[..pos] + bytes + if pos + |bytes| <= |file| then file[pos + |bytes|..] else []
  }

  /** The first `out` bytes of `all` reach the disk, the others are pending if kept. */
  function Moved(s: Stream, all: seq<Byte>, out: nat, keeps: bool): (r: Stream)
    requires s.pos <= |s.disk| && out <= |all|
    ensures r.pos <= |r.disk|
  {
    Stream(Overwrite(s.disk, s.pos, all[..out]), s.pos + out, if keeps then all[out..] else [], s.calls + 1)
  }

  /** One call. */
  function Take(sys: System, s: Stream, data: seq<Byte>): (r: Stream)
    requires GoodSystem(sys) && ValidStream(sys, s) && data != []
    ensures ValidStream(sys, r)
  {
    var a := sys.writes(s.calls, |s.pending|, |data|);
    assert GoodAnswer(sys.capacity, |s.pending|, |data|, a);
    Moved(s, s.pending + data[..a.n], a.out, a.Accepted? || a.keeps)
  }

  /** What becomes of a buffer that is written with as many calls as it needs:
      the stream behind it, and the bytes accepted. */
  datatype Emission = Emission(s: Stream, n: nat)

  function Emit(sys: System, s: Stream, data: seq<Byte>): (r: Emission)
    requires GoodSystem(sys) && ValidStream(sys, s)
    ensures ValidStream(sys, r.s) && r.n <= |data|
    decreases |data|
  {
    if data == [] then Emission(s, 0)
    else
      var a := sys.writes(s.calls, |s.pending|, |data|);
      assert GoodAnswer(sys.capacity, |s.pending|, |data|, a);
      var t := Take(sys, s, data);
      if a.Failed? then Emission(t, a.n)
      else
        var rest := Emit(sys, t, data[a.n..]);
        Emission(rest.s, a.n + rest.n)
  }

  /** None of the calls for the buffer fails. */
  predicate AllAccepted(sys: System, s: Stream, data: seq<Byte>)
    requires GoodSystem(sys) && ValidStream(sys, s)
    decreases |data|
  {
    data == [] ||
    var a := sys.writes(s.calls, |s.pending|, |data|);
    assert GoodAnswer(sys.capacity, |s.pending|, |data|, a);
    a.Accepted? && AllAccepted(sys, Take(sys, s, data), data[a.n..])
  }

  lemma {:induction false} AllEmittedIff(sys: System, s: Stream, data: seq<Byte>)
    requires GoodSystem(sys) && ValidStream(sys, s)
    ensures Emit(sys, s, data).n == |data| <==> AllAccepted(sys, s, data)
    decreases |data|
  {
    if data != [] {
      var a := sys.writes(s.calls, |s.pending|, |data|);
      assert GoodAnswer(sys.capacity, |s.pending|, |data|, a);
      if a.Accepted? {
        AllEmittedIff(sys, Take(sys, s, data), data[a.n..]);
      }
    }
  }

  /** fflush, also within fseek and fclose. */
  datatype Flushed = Flushed(s: Stream, ok: bool)

  predicate Complete(sys: System, s: Stream) {
    s.pending == [] || sys.flushes(s.calls).out >= |s.pending|
  }

  function Flush(sys: System, s: Stream): (r: Flushed)
    requires ValidStream(sys, s)
    ensures ValidStream(sys, r.s) && (r.ok <==> Complete(sys, s)) && (r.ok ==> r.s.pending == [])
  {
    if s.pending == [] then Flushed(s, true)
    else
      var d := sys.flushes(s.calls);
      var out := if d.out < |s.pending| then d.out else |s.pending|;
      Flushed(Moved(s, s.pending, out, d.keeps), d.out >= |s.pending|)
  }

  // ---- writing at the end ----

  /** Everything accepted that is not gone. */
  function Content(s: Stream): seq<Byte> {
    s.disk + s.pending
  }

  predicate Appending(s: Stream) {
    s.pos == |s.disk|
  }

  /** `t` comes from `s` by writes at the end that were to add `more`: nothing on the
      disk changes, and what there is is a beginning of what was accepted. */
  predicate Extends(s: Stream, t: Stream, more: seq<Byte>) {
    Appending(t) && s.disk <= t.disk && Content(t) <= Content(s) + more
  }

  lemma {:induction false} MovedExtends(s: Stream, more: seq<Byte>, out: nat, keeps: bool)
    requires Appending(s) && out <= |s.pending + more|
    ensures var t := Moved(s, s.pending + more, out, keeps);
            Extends(s, t, more) && (keeps ==> Content(t) == Content(s) + more)
  {
    var all := s.pending + more;
    var t := Moved(s, all, out, keeps);
    assert t.disk == s.disk + all[..out];
    assert s.disk + all == s.disk + all[..out] + all[out..];
    assert Content(s) + more == s.disk + all;
  }

  lemma {:induction false} ExtendsOn(s: Stream, t: Stream, u: Stream, a: seq<Byte>, b: seq<Byte>)
    requires Extends(s, t, a) && Content(t) == Content(s) + a && Extends(t, u, b)
    ensures Extends(s, u, a + b)
  {
    assert Content(s) + a + b == Content(s) + (a + b);
  }

  lemma {:induction false} EmitOnce(sys: System, s: Stream, data: seq<Byte>, a: Answer)
    requires GoodSystem(sys) && ValidStream(sys, s) && data != []
    requires a == sys.writes(s.calls, |s.pending|, |data|)
    ensures GoodAnswer(sys.capacity, |s.pending|, |data|, a)
    ensures Take(sys, s, data) == Moved(s, s.pending + data[..a.n], a.out, a.Accepted? || a.keeps)
    ensures a.Failed? ==> Emit(sys, s, data) == Emission(Take(sys, s, data), a.n)
    ensures a.Accepted? ==>
              var rest := Emit(sys, Take(sys, s, data), data[a.n..]);
              Emit(sys, s, data) == Emission(rest.s, a.n + rest.n)
  {
  }

  /** Appending a buffer: all that is there afterwards is a beginning of what was
      accepted, and everything is there if the whole buffer was. */
  lemma {:induction false} EmitExtends(sys: System, s: Stream, data: seq<Byte>)
    requires GoodSystem(sys) && ValidStream(sys, s) && Appending(s)
    ensures var r := Emit(sys, s, data);
            Extends(s, r.s, data[..r.n]) && (r.n == |data| ==> Content(r.s) == Content(s) + data)
    decreases |data|
  {
    if data == [] {
      assert Content(s) + [] == Content(s);
    } else {
      var a := sys.writes(s.calls, |s.pending|, |data|);
      EmitOnce(sys, s, data, a);
      MovedExtends(s, data[..a.n], a.out, a.Accepted? || a.keeps);
      if a.Accepted? {
        var t := Take(sys, s, data);
        EmitExtends(sys, t, data[a.n..]);
        var rest := Emit(sys, t, data[a.n..]);
        JoinExtends(s, t, rest.s, data, a.n, rest.n);
      }
    }
  }

  lemma {:induction false} JoinExtends(s: Stream, t: Stream, u: Stream, data: seq<Byte>, n: nat, m: nat)
    requires n + m <= |data| && Extends(s, t, data[..n]) && Content(t) == Content(s) + data[..n]
    requires Extends(t, u, data[n..][..m])
    requires m == |data| - n ==> Content(u) == Content(t) + data[n..]
    ensures Extends(s, u, data[..n + m])
    ensures m == |data| - n ==> Content(u) == Content(s) + data
  {
    ExtendsOn(s, t, u, data[..n], data[n..][..m]);
    assert data[..n] + data[n..][..m] == data[..n + m];
    assert data[..n] + data[n..] == data;
    assert Content(s) + data[..n] + data[n..] == Content(s) + (data[..n] + data[n..]);
  }

  lemma {:induction false} FlushExtends(sys: System, s: Stream)
    requires ValidStream(sys, s) && Appending(s)
    ensures var r := Flush(sys, s);
            Extends(s, r.s, []) && (r.ok ==> r.s.disk == Content(s))
  {
    assert Content(s) + [] == Content(s);
    if s.pending != [] {
      var d := sys.flushes(s.calls);
      var out := if d.out < |s.pending| then d.out else |s.pending|;
      assert s.pending + [] == s.pending;
      MovedExtends(s, [], out, d.keeps);
    }
  }

  // ---- writing over the beginning ----

  /** The beginning of `hdr` has been written over the beginning of `file`, and more
      of it may be pending. */
  predicate Over(s: Stream, file: seq<Byte>, hdr: seq<Byte>) {
    && s.pos + |s.pending| <= |hdr| && s.pending == hdr[s.pos..s.pos + |s.pending|]
    && s.disk == Overwrite(file, 0, hdr[..s.pos])
  }

  lemma {:induction false} OverwriteMore(file: seq<Byte>, data: seq<Byte>, p: nat, q: nat)
    requires p <= q <= |data|
    ensures Overwrite(Overwrite(file, 0, data[..p]), p, data[p..q]) == Overwrite(file, 0, data[..q])
  {
    assert data[..q] == data[..p] + data[p..q];
  }

  lemma {:induction false} MovedOver(s: Stream, file: seq<Byte>, hdr: seq<Byte>, n: nat, out: nat, keeps: bool)
    requires Over(s, file, hdr) && s.pos <= |s.disk|
    requires s.pos + |s.pending| + n <= |hdr| && out <= |s.pending| + n
    ensures var e := s.pos + |s.pending|;
            var t := Moved(s, s.pending + hdr[e..e + n], out, keeps);
            Over(t, file, hdr) && t.pos + |t.pending| <= e + n && (keeps ==> t.pos + |t.pending| == e + n)
  {
    var e := s.pos + |s.pending|;
    Pieces(hdr, s.pos, e, e + n, out);
    OverwriteMore(file, hdr, s.pos, s.pos + out);
  }

  lemma Pieces(s: seq<Byte>, p: nat, e: nat, q: nat, out: nat)
    requires p <= e <= q <= |s| && p + out <= q
    ensures s[p..e] + s[e..q] == s[p..q]
    ensures s[p..q][..out] == s[p..p + out] && s[p..q][out..] == s[p + out..q]
  {
  }

  /** Where the next byte goes. */
  function End(s: Stream): nat {
    s.pos + |s.pending|
  }

  lemma {:induction false} TakeOver(sys: System, s: Stream, file: seq<Byte>, hdr: seq<Byte>, k: nat, a: Answer)
    requires GoodSystem(sys) && ValidStream(sys, s) && Over(s, file, hdr) && End(s) < k <= |hdr|
    requires a == sys.writes(s.calls, |s.pending|, k - End(s))
    ensures GoodAnswer(sys.capacity, |s.pending|, k - End(s), a)
    ensures var t := Take(sys, s, hdr[End(s)..k]);
            Over(t, file, hdr) && End(t) <= End(s) + a.n && (a.Accepted? ==> End(t) == End(s) + a.n)
  {
    var data := hdr[End(s)..k];
    EmitOnce(sys, s, data, a);
    NextPart(s, file, hdr, k, data, a.n, a.out, a.Accepted? || a.keeps);
  }

  lemma {:induction false} NextPart(s: Stream, file: seq<Byte>, hdr: seq<Byte>, k: nat, data: seq<Byte>, n: nat,
                                    out: nat, keeps: bool)
    requires Over(s, file, hdr) && s.pos <= |s.disk| && End(s) <= k <= |hdr| && data == hdr[End(s)..k]
    requires n <= |data| && out <= |s.pending| + n
    ensures var t := Moved(s, s.pending + data[..n], out, keeps);
            Over(t, file, hdr) && End(t) <= End(s) + n && (keeps ==> End(t) == End(s) + n)
  {
    assert data[..n] == hdr[End(s)..End(s) + n];
    MovedOver(s, file, hdr, n, out, keeps);
  }

  /** Writing the next part of the header, up to byte k. */
  lemma {:induction false} EmitOver(sys: System, s: Stream, file: seq<Byte>, hdr: seq<Byte>, k: nat, data: seq<Byte>)
    requires GoodSystem(sys) && ValidStream(sys, s) && Over(s, file, hdr)
    requires End(s) <= k <= |hdr| && data == hdr[End(s)..k]
    ensures var r := Emit(sys, s, data);
            Over(r.s, file, hdr) && End(r.s) <= k && (r.n == |data| ==> End(r.s) == k)
    decreases |data|
  {
    if data != [] {
      var a := sys.writes(s.calls, |s.pending|, |data|);
      TakeOver(sys, s, file, hdr, k, a);
      EmitOnce(sys, s, data, a);
      if a.Accepted? {
        var t := Take(sys, s, data);
        assert data[a.n..] == hdr[End(t)..k];
        EmitOver(sys, t, file, hdr, k, data[a.n..]);
      }
    }
  }

  lemma {:induction false} FlushOver(sys: System, s: Stream, file: seq<Byte>, hdr: seq<Byte>)
    requires ValidStream(sys, s) && Over(s, file, hdr)
    ensures var r := Flush(sys, s);
            && Over(r.s, file, hdr)
            && (r.ok ==> r.s.pending == [] && r.s.pos == End(s))
  {
    if s.pending != [] {
      var d := sys.flushes(s.calls);
      var out := if d.out < |s.pending| then d.out else |s.pending|;
      var e := s.pos + |s.pending|;
      assert s.pending + hdr[e..e] == s.pending;
      MovedOver(s, file, hdr, 0, out, d.keeps);
    }
  }

  /** What fits into the buffer is accepted without input or output. */
  lemma FitsIsKept(sys: System, s: Stream, data: seq<Byte>)
    requires GoodSystem(sys) && ValidStream(sys, s) && |s.pending| + |data| < sys.capacity
    ensures var r := Emit(sys, s, data);
            && r.n == |data| && r.s.disk == s.disk && r.s.pos == s.pos && r.s.pending == s.pending + data
  {
    if data != [] {
      var a := sys.writes(s.calls, |s.pending|, |data|);
      EmitOnce(sys, s, data, a);
      assert a == Accepted(|data|, 0) && data[|data|..] == [] && data[..|data|] == data;
      NothingMoved(s, s.pending + data);
    }
  }

  lemma NothingMoved(s: Stream, all: seq<Byte>)
    requires s.pos <= |s.disk|
    ensures Moved(s, all, 0, true) == Stream(s.disk, s.pos, all, s.calls + 1)
  {
    assert all[..0] == [] && all[0..] == all;
    assert Overwrite(s.disk, s.pos, []) == s.disk;
  }
}

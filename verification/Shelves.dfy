/**
  The track files of one run of the writer as a value: the open one, those on the
  disk, and what was accepted for each.
 */
module Shelves {
  import opened Basics
  import opened AudioFormats
  import opened Stdio
  import opened GenFile
  import opened Tracks

  datatype Handle = Handle(sys: System, s: Stream)

  /** `trk` is the local trk_idx of fpaud_write; `dangling` says that the
      descriptor is still set, but freed by a close; `disk` are the
      files on the disk, the open one as it was before; `files` is what was accepted
      for each track, `opens` the tracks opened, `fine` that nothing has failed. */
  datatype Shelf = Shelf(
    trk: int, open: Option<Handle>, dangling: bool, disk: map<nat, seq<Byte>>,
    files: map<nat, seq<Byte>>, opens: seq<nat>, fine: bool)

  function Accepts(h: Shelf): Out {
    Out(h.files, h.trk, h.opens)
  }

  /** A file of a track on the disk: behind the header a beginning of the audio that
      was accepted for it, or, if all went well, the finished file with all of it. */
  predicate Saved(fmt: Format, well: bool, file: seq<Byte>, audio: seq<Byte>) {
    Tail(fmt, file) <= audio && (well ==> file == Finished(fmt, audio))
  }

  /** The open file holds a header and what was accepted, perhaps not its end if a
      write has failed. */
  predicate OpenOk(fmt: Format, h: Shelf) {
    h.open.Some? ==>
      var s := h.open.value.s;
      && ValidStream(h.open.value.sys, s) && Appending(s)
      && h.trk >= 0 && h.trk in h.files && h.trk in h.opens
      && Tail(fmt, Content(s)) <= h.files[h.trk]
      && (h.fine ==> |Content(s)| >= HeaderLen(fmt) && Tail(fmt, Content(s)) == h.files[h.trk])
  }

  predicate IsOpen(h: Shelf, f: nat) {
    h.open.Some? && f == h.trk
  }

  predicate FileOk(fmt: Format, honest: bool, h: Shelf, f: nat) {
    f in h.files && (IsOpen(h, f) || (f in h.disk && Saved(fmt, h.fine && honest, h.disk[f], h.files[f])))
  }

  predicate Untouched(before: map<nat, seq<Byte>>, disk: map<nat, seq<Byte>>, f: nat) {
    (f in disk <==> f in before) && (f in disk ==> disk[f] == before[f])
  }

  ghost predicate DiskOk(fmt: Format, honest: bool, before: map<nat, seq<Byte>>, h: Shelf) {
    && (forall f :: f in h.opens ==> FileOk(fmt, honest, h, f))
    && (forall f :: f !in h.opens ==> Untouched(before, h.disk, f))
  }

  ghost predicate SystemOk(fmt: Format, honest: bool, h: Shelf) {
    h.open.Some? ==> GoodSystem(h.open.value.sys) && (honest ==> Honest(fmt, h.open.value.sys))
  }

  ghost predicate ShelfOk(fmt: Format, honest: bool, before: map<nat, seq<Byte>>, h: Shelf) {
    OpenOk(fmt, h) && DiskOk(fmt, honest, before, h) && SystemOk(fmt, honest, h)
  }

  /** Between two chunks the file of the current index is open. */
  ghost predicate Between(fmt: Format, honest: bool, before: map<nat, seq<Byte>>, h: Shelf) {
    && ShelfOk(fmt, honest, before, h) && h.fine && !h.dangling && ValidOut(Accepts(h))
    && (h.trk >= 0 <==> h.open.Some?)
  }

  // ---- close ----

  /** gen_close_file for the open file. */
  function CloseIt(fmt: Format, h: Shelf): Shelf
    requires h.open.Some? && h.trk >= 0
    requires GoodSystem(h.open.value.sys) && ValidStream(h.open.value.sys, h.open.value.s)
  {
    var c := CloseFile(fmt, h.open.value.sys, h.open.value.s);
    h.(disk := h.disk[h.trk as nat := c.disk], open := None, dangling := true, fine := h.fine && c.ok)
  }

  lemma {:induction false} ClosedIsSaved(fmt: Format, honest: bool, h: Shelf)
    requires OpenOk(fmt, h) && SystemOk(fmt, honest, h) && h.open.Some?
    ensures var c := CloseFile(fmt, h.open.value.sys, h.open.value.s);
            Saved(fmt, h.fine && c.ok && honest, c.disk, h.files[h.trk])
  {
    var sys, s := h.open.value.sys, h.open.value.s;
    CloseKeepsAudio(fmt, sys, s);
    if h.fine {
      TrustedCloses(fmt, sys, s);
    }
  }

  lemma {:induction false} CloseKeepsOk(fmt: Format, honest: bool, before: map<nat, seq<Byte>>, h: Shelf)
    requires ShelfOk(fmt, honest, before, h) && h.open.Some?
    ensures ShelfOk(fmt, honest, before, CloseIt(fmt, h))
  {
    ClosedIsSaved(fmt, honest, h);
    var t := CloseIt(fmt, h);
    forall f | f in t.opens ensures FileOk(fmt, honest, t, f) {
      assert FileOk(fmt, honest, h, f);
    }
    forall f | f !in t.opens ensures Untouched(before, t.disk, f) {
      assert Untouched(before, h.disk, f);
    }
  }

  /** The descriptor is reset. */
  function Forget(h: Shelf): Shelf {
    h.(dangling := false)
  }

  lemma ForgetKeepsOk(fmt: Format, honest: bool, before: map<nat, seq<Byte>>, h: Shelf)
    requires ShelfOk(fmt, honest, before, h)
    ensures ShelfOk(fmt, honest, before, Forget(h))
  {
    forall f | f in h.opens ensures FileOk(fmt, honest, Forget(h), f) {
      assert FileOk(fmt, honest, h, f);
    }
  }

  // ---- open ----

  /** gen_open_file for track t, with the estimate; if it fails behind the truncation
      the file counts as opened, with nothing accepted. */
  function OpenIt(fmt: Format, sys: System, estimate: int, t: nat, h: Shelf): Shelf
    requires GoodSystem(sys) && h.open.None?
  {
    OpenedAs(h, t, sys, OpenFile(fmt, sys, estimate, if t in h.disk then h.disk[t] else []))
  }

  /** What an open that ended like this leaves. */
  function OpenedAs(h: Shelf, t: nat, sys: System, r: HeaderDone): Shelf
    requires h.open.None?
  {
    if r.ok then h.(trk := t, open := Some(Handle(sys, r.s)), files := h.files[t := []], opens := h.opens + [t])
    else if sys.opens then
      h.(trk := t, disk := h.disk[t := r.s.disk], files := h.files[t := []], opens := h.opens + [t], fine := false)
    else h.(trk := t, fine := false)
  }

  lemma {:induction false} OpenedTail(fmt: Format, sys: System, estimate: int, file: seq<Byte>)
    requires GoodSystem(sys) && sys.opens
    ensures var r := OpenFile(fmt, sys, estimate, file);
            && Appending(r.s) && Tail(fmt, r.s.disk) == [] && Tail(fmt, Content(r.s)) == []
            && (r.ok ==> |Content(r.s)| >= HeaderLen(fmt))
  {
    OpenedIsHeader(fmt, sys, estimate, file);
    var r := OpenFile(fmt, sys, estimate, file);
    assert |Content(r.s)| <= HeaderLen(fmt) && |r.s.disk| <= HeaderLen(fmt);
  }

  lemma {:induction false} OpenedKeepsFile(fmt: Format, honest: bool, h: Shelf, t: nat, sys: System,
                                           r: HeaderDone, f: nat)
    requires h.open.None? && (f in h.opens ==> FileOk(fmt, honest, h, f))
    requires sys.opens && !r.ok ==> Tail(fmt, r.s.disk) == []
    ensures var u := OpenedAs(h, t, sys, r);
            f in u.opens ==> FileOk(fmt, honest, u, f)
  {
    var u := OpenedAs(h, t, sys, r);
    if f in h.opens && f != t {
      assert f in u.files && (f in u.disk && u.disk[f] == h.disk[f] && u.files[f] == h.files[f]);
    }
  }

  lemma {:induction false} OpenKeepsFile(fmt: Format, honest: bool, sys: System, estimate: int, t: nat,
                                         h: Shelf, f: nat)
    requires GoodSystem(sys) && h.open.None? && (f in h.opens ==> FileOk(fmt, honest, h, f))
    ensures var u := OpenIt(fmt, sys, estimate, t, h);
            f in u.opens ==> FileOk(fmt, honest, u, f)
  {
    var file := if t in h.disk then h.disk[t] else [];
    if sys.opens {
      OpenedTail(fmt, sys, estimate, file);
    }
    OpenedKeepsFile(fmt, honest, h, t, sys, OpenFile(fmt, sys, estimate, file), f);
  }

  lemma OpenKeepsOthers(fmt: Format, before: map<nat, seq<Byte>>, sys: System, estimate: int, t: nat, h: Shelf, f: nat)
    requires GoodSystem(sys) && h.open.None? && (f !in h.opens ==> Untouched(before, h.disk, f))
    ensures var u := OpenIt(fmt, sys, estimate, t, h);
            f !in u.opens ==> Untouched(before, u.disk, f)
  {
  }

  lemma {:induction false} OpenKeepsOk(fmt: Format, honest: bool, before: map<nat, seq<Byte>>, sys: System,
                                       estimate: int, t: nat, h: Shelf)
    requires ShelfOk(fmt, honest, before, h) && h.open.None?
    requires GoodSystem(sys) && (honest ==> Honest(fmt, sys))
    ensures ShelfOk(fmt, honest, before, OpenIt(fmt, sys, estimate, t, h))
  {
    var u := OpenIt(fmt, sys, estimate, t, h);
    if sys.opens {
      OpenedTail(fmt, sys, estimate, if t in h.disk then h.disk[t] else []);
    }
    forall f | f in u.opens ensures FileOk(fmt, honest, u, f) {
      OpenKeepsFile(fmt, honest, sys, estimate, t, h, f);
    }
    forall f | f !in u.opens ensures Untouched(before, u.disk, f) {
      OpenKeepsOthers(fmt, before, sys, estimate, t, h, f);
    }
  }

  // ---- switch ----

  /** Close the file of the last track and open that of track t, if that is another one. */
  function SwitchTo(fmt: Format, sys: System, estimate: int, t: nat, h: Shelf): Shelf
    requires GoodSystem(sys) && (h.open.Some? ==> h.trk >= 0 && GoodSystem(h.open.value.sys))
    requires h.open.Some? ==> ValidStream(h.open.value.sys, h.open.value.s)
  {
    if h.trk == t then h
    else
      var c := if h.open.Some? then CloseIt(fmt, h) else h;
      if !c.fine then c.(trk := t) else OpenIt(fmt, sys, estimate, t, Forget(c))
  }

  lemma {:induction false} SwitchKeepsOk(fmt: Format, honest: bool, before: map<nat, seq<Byte>>, sys: System,
                                         estimate: int, t: nat, h: Shelf)
    requires Between(fmt, honest, before, h) && GoodSystem(sys) && (honest ==> Honest(fmt, sys))
    ensures ShelfOk(fmt, honest, before, SwitchTo(fmt, sys, estimate, t, h))
  {
    if h.trk != t {
      var c := if h.open.Some? then CloseIt(fmt, h) else h;
      if h.open.Some? {
        CloseKeepsOk(fmt, honest, before, h);
      }
      if c.fine {
        ForgetKeepsOk(fmt, honest, before, c);
        OpenKeepsOk(fmt, honest, before, sys, estimate, t, Forget(c));
      } else {
        RenamedKeepsOk(fmt, honest, before, c, t);
      }
    }
  }

  lemma {:induction false} SwitchedIsOpen(fmt: Format, sys: System, estimate: int, t: nat, h: Shelf)
    requires GoodSystem(sys) && (h.open.Some? ==> h.trk >= 0 && GoodSystem(h.open.value.sys))
    requires h.open.Some? ==> ValidStream(h.open.value.sys, h.open.value.s)
    requires ValidOut(Accepts(h)) && !h.dangling && (h.trk >= 0 <==> h.open.Some?)
    ensures var u := SwitchTo(fmt, sys, estimate, t, h);
            u.fine ==> !u.dangling && u.open.Some? && u.trk == t && ValidOut(Accepts(u))
  {
  }

  lemma RenamedKeepsOk(fmt: Format, honest: bool, before: map<nat, seq<Byte>>, c: Shelf, t: nat)
    requires ShelfOk(fmt, honest, before, c) && c.open.None?
    ensures ShelfOk(fmt, honest, before, c.(trk := t))
  {
    forall f | f in c.opens ensures FileOk(fmt, honest, c.(trk := t), f) {
      assert FileOk(fmt, honest, c, f);
    }
  }

  /** In terms of what was accepted: the file of track t is opened and emptied, unless
      it was open or the switch failed before that. */
  lemma {:induction false} SwitchAccepts(fmt: Format, sys: System, estimate: int, t: nat, h: Shelf)
    requires GoodSystem(sys) && (h.open.Some? ==> h.trk >= 0 && GoodSystem(h.open.value.sys)) && h.fine
    requires (h.open.Some? ==> ValidStream(h.open.value.sys, h.open.value.s)) && ValidOut(Accepts(h))
    ensures var u := SwitchTo(fmt, sys, estimate, t, h);
            || Accepts(u) == Switch(Accepts(h), t)
            || (!u.fine && u.files == h.files && u.opens == h.opens)
    ensures SwitchTo(fmt, sys, estimate, t, h).fine ==>
              Accepts(SwitchTo(fmt, sys, estimate, t, h)) == Switch(Accepts(h), t)
  {
  }

  // ---- write ----

  /** gen_write_chunk for the open file. */
  function WriteIt(h: Shelf, chunk: Chunk): Shelf
    requires h.open.Some? && GoodSystem(h.open.value.sys) && ValidStream(h.open.value.sys, h.open.value.s)
    requires h.trk >= 0 && h.trk in h.files
  {
    var e := Emit(h.open.value.sys, h.open.value.s, chunk);
    h.(open := Some(Handle(h.open.value.sys, e.s)),
       files := h.files[h.trk as nat := h.files[h.trk as nat] + chunk[..e.n]],
       fine := h.fine && e.n == |chunk|)
  }

  lemma {:induction false} TailExtends(fmt: Format, c: seq<Byte>, d: seq<Byte>, more: seq<Byte>)
    requires |c| >= HeaderLen(fmt) && d <= c + more
    ensures Tail(fmt, d) <= Tail(fmt, c) + more
    ensures d == c + more ==> |d| >= HeaderLen(fmt) && Tail(fmt, d) == Tail(fmt, c) + more
  {
    var k := HeaderLen(fmt);
    assert (c + more)[k..] == c[k..] + more;
    if |d| >= k {
      assert d[k..] == (c + more)[k..][..|d| - k];
    }
  }

  lemma {:induction false} WriteKeepsOk(fmt: Format, honest: bool, before: map<nat, seq<Byte>>, h: Shelf, chunk: Chunk)
    requires Between(fmt, honest, before, h) && h.open.Some?
    ensures var u := WriteIt(h, chunk);
            && ShelfOk(fmt, honest, before, u) && u.trk == h.trk && !u.dangling
            && (u.fine ==> Between(fmt, honest, before, u))
  {
    var sys, s := h.open.value.sys, h.open.value.s;
    var e := Emit(sys, s, chunk);
    EmitExtends(sys, s, chunk);
    TailExtends(fmt, Content(s), Content(e.s), chunk[..e.n]);
    assert chunk[..|chunk|] == chunk;
    var u := WriteIt(h, chunk);
    forall f | f in u.opens ensures FileOk(fmt, honest, u, f) {
      assert FileOk(fmt, honest, h, f);
    }
  }

  // ---- one chunk ----

  /** The open file, if any, can be used. */
  ghost predicate Usable(h: Shelf) {
    h.open.Some? ==> h.trk >= 0 && GoodSystem(h.open.value.sys) && ValidStream(h.open.value.sys, h.open.value.s)
  }

  ghost predicate CanPass(fmt: Format, sys: System, estimate: int, t: nat, h: Shelf) {
    && GoodSystem(sys) && Usable(h)
    && var u := SwitchTo(fmt, sys, estimate, t, h);
       Usable(u) && (u.fine ==> u.open.Some? && u.trk in u.files)
  }

  /** Switch files if need be, and write. */
  ghost function PassIt(fmt: Format, sys: System, estimate: int, t: nat, h: Shelf, chunk: Chunk): Shelf
    requires CanPass(fmt, sys, estimate, t, h)
  {
    var u := SwitchTo(fmt, sys, estimate, t, h);
    if u.fine then WriteIt(u, chunk) else u
  }

  lemma {:induction false} SwitchedCanWrite(fmt: Format, honest: bool, before: map<nat, seq<Byte>>, sys: System,
                                            estimate: int, t: nat, h: Shelf)
    requires Between(fmt, honest, before, h) && GoodSystem(sys) && (honest ==> Honest(fmt, sys))
    ensures var u := SwitchTo(fmt, sys, estimate, t, h);
            u.fine ==> Between(fmt, honest, before, u) && u.open.Some? && u.trk == t
  {
    SwitchKeepsOk(fmt, honest, before, sys, estimate, t, h);
    SwitchedIsOpen(fmt, sys, estimate, t, h);
  }

  /** The system of the open file never fails. */
  ghost predicate NoErrors(h: Shelf) {
    h.open.Some? ==> NeverFails(h.open.value.sys)
  }

  /** On systems that never fail a pass succeeds. */
  lemma {:induction false} NoErrorPass(fmt: Format, sys: System, estimate: int, t: nat, h: Shelf, chunk: Chunk)
    requires CanPass(fmt, sys, estimate, t, h) && h.fine && !h.dangling && NeverFails(sys)
    requires h.open.Some? ==> NeverFails(h.open.value.sys)
    requires h.trk >= 0 <==> h.open.Some?
    ensures var u := PassIt(fmt, sys, estimate, t, h, chunk);
            u.fine && u.open.Some? && NeverFails(u.open.value.sys)
  {
    if h.trk != t {
      if h.open.Some? {
        NoErrorCloses(fmt, h.open.value.sys, h.open.value.s);
      }
      var c := if h.open.Some? then CloseIt(fmt, h) else h;
      NoErrorOpens(fmt, sys, estimate, if t in c.disk then c.disk[t] else []);
    }
    var u := SwitchTo(fmt, sys, estimate, t, h);
    NoErrorEmitsAll(u.open.value.sys, u.open.value.s, chunk);
  }

  lemma {:induction false} PassAdds(fmt: Format, honest: bool, before: map<nat, seq<Byte>>, sys: System,
                                    estimate: int, t: nat, h: Shelf, chunk: Chunk)
    returns (wrote: bool, piece: seq<Byte>)
    requires Between(fmt, honest, before, h) && GoodSystem(sys) && (honest ==> Honest(fmt, sys)) && chunk != []
    ensures CanPass(fmt, sys, estimate, t, h) && piece <= chunk
    ensures var u := PassIt(fmt, sys, estimate, t, h, chunk);
            && ShelfOk(fmt, honest, before, u) && (u.fine ==> Between(fmt, honest, before, u))
            && (wrote ==> Accepts(u) == Append(Switch(Accepts(h), t), piece) && (u.fine <==> piece == chunk))
            && (!wrote ==> !u.fine && u.files == h.files && u.opens == h.opens)
  {
    SwitchKeepsOk(fmt, honest, before, sys, estimate, t, h);
    SwitchedCanWrite(fmt, honest, before, sys, estimate, t, h);
    SwitchAccepts(fmt, sys, estimate, t, h);
    var u := SwitchTo(fmt, sys, estimate, t, h);
    if u.fine {
      WriteKeepsOk(fmt, honest, before, u, chunk);
      var n := Emit(u.open.value.sys, u.open.value.s, chunk).n;
      wrote, piece := true, chunk[..n];
    } else {
      wrote, piece := Accepts(u) == Switch(Accepts(h), t), [];
      assert Switch(Accepts(h), t).files[t] + [] == Switch(Accepts(h), t).files[t];
    }
  }

  /** What a pass keeps, and what it adds: a piece of the chunk for track t, all of it
      exactly if nothing failed, or nothing at all. */
  lemma {:induction false} PassKeepsOk(fmt: Format, honest: bool, before: map<nat, seq<Byte>>, sys: System,
                                       estimate: int, t: nat, h: Shelf, chunk: Chunk)
    returns (wrote: bool, piece: seq<Byte>)
    requires Between(fmt, honest, before, h) && GoodSystem(sys) && (honest ==> Honest(fmt, sys)) && chunk != []
    ensures CanPass(fmt, sys, estimate, t, h)
    ensures var u := PassIt(fmt, sys, estimate, t, h, chunk);
            && ShelfOk(fmt, honest, before, u) && (u.fine ==> Between(fmt, honest, before, u))
            && (wrote ==> Accepts(u) == Append(Switch(Accepts(h), t), piece) && (u.fine <==> piece == chunk))
            && (!wrote ==> !u.fine && u.files == h.files && u.opens == h.opens)
    ensures piece <= chunk
    ensures NeverFails(sys) && NoErrors(h) ==>
              PassIt(fmt, sys, estimate, t, h, chunk).fine && NoErrors(PassIt(fmt, sys, estimate, t, h, chunk))
  {
    wrote, piece := PassAdds(fmt, honest, before, sys, estimate, t, h, chunk);
    if NeverFails(sys) && NoErrors(h) {
      NoErrorPass(fmt, sys, estimate, t, h, chunk);
    }
  }

  // ---- the end ----

  /** fp_wdone: close the last file and reset the descriptor. */
  function FinishIt(fmt: Format, h: Shelf): Shelf
    requires h.open.Some? ==> h.trk >= 0 && GoodSystem(h.open.value.sys)
    requires h.open.Some? ==> ValidStream(h.open.value.sys, h.open.value.s)
  {
    if h.open.Some? then Forget(CloseIt(fmt, h)) else h
  }

  lemma {:induction false} FinishKeepsOk(fmt: Format, honest: bool, before: map<nat, seq<Byte>>, h: Shelf)
    requires ShelfOk(fmt, honest, before, h)
    ensures var u := FinishIt(fmt, h);
            ShelfOk(fmt, honest, before, u) && u.open.None? && u.files == h.files && u.opens == h.opens
  {
    if h.open.Some? {
      CloseKeepsOk(fmt, honest, before, h);
      ForgetKeepsOk(fmt, honest, before, CloseIt(fmt, h));
    }
  }

  /** The files on the disk after a run: those of tracks that were opened hold their
      parts, all others are as before. */
  ghost predicate OnDisk(fmt: Format, well: bool, before: map<nat, seq<Byte>>, idx: seq<nat>, pieces: seq<seq<Byte>>,
                         disk: map<nat, seq<Byte>>)
    requires |idx| == |pieces|
  {
    && (forall f :: f !in idx ==> Untouched(before, disk, f))
    && (NoReturn(idx) ==> forall f :: f in idx ==> f in disk && Saved(fmt, well, disk[f], Part(idx, pieces, f)))
  }

  lemma {:induction false} OnDiskIs(fmt: Format, honest: bool, before: map<nat, seq<Byte>>, idx: seq<nat>,
                                    pieces: seq<seq<Byte>>, h: Shelf)
    requires |idx| == |pieces| && ShelfOk(fmt, honest, before, h) && h.open.None?
    requires h.files == Written(map[], idx, pieces).files && h.opens == Written(map[], idx, pieces).opens
    ensures OnDisk(fmt, h.fine && honest, before, idx, pieces, h.disk)
  {
    OpensAreIndices(idx, pieces);
    forall f | f !in idx ensures Untouched(before, h.disk, f) {
      assert f !in h.opens;
    }
    if NoReturn(idx) {
      FilesHoldParts(map[], idx, pieces);
      forall f | f in idx ensures f in h.disk && Saved(fmt, h.fine && honest, h.disk[f], Part(idx, pieces, f)) {
        assert f in h.opens && FileOk(fmt, honest, h, f);
      }
    }
  }

  lemma {:induction false} OpensAreIndices(idx: seq<nat>, pieces: seq<seq<Byte>>)
    requires |idx| == |pieces|
    ensures forall f :: f in Written(map[], idx, pieces).opens <==> f in idx
    decreases |idx|
  {
    if idx != [] {
      var n := |idx| - 1;
      OpensAreIndices(idx[..n], pieces[..n]);
      var o := Written(map[], idx[..n], pieces[..n]);
      forall f ensures f in Written(map[], idx, pieces).opens <==> f in idx {
        InPrefix(idx, f);
        if o.current == idx[n] {
          assert idx[..n][n - 1] in idx[..n];
        }
      }
    }
  }
}

/** The track part of the writer's loop, with the fields it updates and the files it writes. */
module TrackWriter {
  import opened Basics
  import opened AudioFormats
  import opened Stdio
  import opened GenFile
  import opened Tracks
  import opened Shelves

  class Splitter {
    const play: Play
    const fmt: Format
    const systems: nat -> System        // for the file opened at chunk k
    const before: map<nat, seq<Byte>>   // the files of tracks on the disk before the run
    var trkIdx: nat
    var trkLen: int
    var frmPlayed: int
    var current: int                    // the local trk_idx of fpaud_write
    var desc: GenDesc?
    var dangling: bool
    var disk: map<nat, seq<Byte>>
    ghost var files: map<nat, seq<Byte>>
    ghost var opens: seq<nat>
    ghost var fine: bool

    ghost predicate Valid()
      reads this, desc
    {
      && ValidPlay(play) && trkIdx < TrackCount(play) && (forall k :: GoodSystem(systems(k)))
      && (desc == null ==> !dangling) && (desc != null && !dangling ==> desc.fmt == fmt && desc.Valid())
    }

    /** For every file, success of its close means that it is finished. */
    ghost predicate AllHonest() {
      forall k :: Honest(fmt, systems(k))
    }

    /** Nothing fails on any file. */
    ghost predicate Reliable() {
      forall k :: NeverFails(systems(k))
    }

    ghost function View(): Shelf
      reads this, desc
    {
      Shelf(current, if desc == null || dangling then None else Some(Handle(desc.sys, desc.View())),
            dangling, disk, files, opens, fine)
    }

    /** What was accepted and what is on the disk fit together. */
    ghost predicate Ok()
      reads this, desc
    {
      Valid() && ShelfOk(fmt, AllHonest(), before, View())
    }

    /** Between two chunks nothing has failed, and the file of the last one is open. */
    ghost predicate Ready()
      reads this, desc
    {
      Valid() && Between(fmt, AllHonest(), before, View())
    }

    /** The state after fp_winit: no file is open; trk_idx is what the last run left. */
    constructor (play: Play, fmt: Format, systems: nat -> System, trkIdx: nat, disk: map<nat, seq<Byte>>)
      requires ValidPlay(play) && trkIdx < TrackCount(play) && forall k :: GoodSystem(systems(k))
      ensures Ready() && this.play == play && this.fmt == fmt && this.systems == systems && this.trkIdx == trkIdx
      ensures frmPlayed == 0 && View() == Shelf(-1, None, false, disk, map[], [], true) && before == disk
    {
      this.play, this.fmt, this.systems, this.trkIdx, this.disk, before := play, fmt, systems, trkIdx, disk, disk;
      trkLen, frmPlayed, current, desc, dangling := 0, 0, -1, null, false;
      files, opens, fine := map[], [], true;
    }

    /** cdda_wr_setcurtrk: the index of the last call is tried before the search,
        and the outcome is that of the plain search. */
    method SetCurTrk(active: bool)
      requires ValidPlay(play) && trkIdx < TrackCount(play)
      modifies this`trkIdx, this`trkLen
      ensures trkIdx < TrackCount(play)
      ensures var t := TrackOf(play, play.startLba + frmPlayed, 0);
              && trkIdx == (if active && t.Some? then t.value else old(trkIdx))
              && trkLen == if active && t.Some? then 2352 * (play.addrs[t.value + 1] - play.addrs[t.value] + 1)
                           else old(trkLen)
    {
      if !active { return; }
      var lba := play.startLba + frmPlayed;
      var i := trkIdx;
      if lba >= play.addrs[i] && lba < play.addrs[i + 1] {
        OnlyTrack(play, lba, i);
        trkLen := Bytes(play.addrs[i + 1] - play.addrs[i] + 1);
        return;
      }
      i := 0;
      while i < TrackCount(play)
        invariant i <= TrackCount(play) && trkIdx == old(trkIdx) && trkLen == old(trkLen)
        invariant TrackOf(play, lba, 0) == TrackOf(play, lba, i)
      {
        if lba >= play.addrs[i] && lba < play.addrs[i + 1] {
          trkIdx := i;
          trkLen := Bytes(play.addrs[i + 1] - play.addrs[i] + 1);
          return;
        }
        i := i + 1;
      }
    }

    /** The lookup for chunk k, which is left out when the run is stopped. */
    method LookUp(last: bool, k: nat, ghost stale: nat)
      requires Valid() && trkIdx == IndexLeft(play, stale, k, false) && play.startLba + frmPlayed == ChunkLba(play, k)
      modifies this`trkIdx, this`trkLen
      ensures Valid() && View() == old(View()) && trkIdx == IndexUsed(play, stale, k, last)
    {
      SetCurTrk(!last);
    }

    /** gen_close_file for the open file, which frees the descriptor. */
    method CloseCurrent() returns (closed: bool)
      requires desc != null && !dangling && desc.fmt == fmt && desc.Valid() && current >= 0
      modifies this`disk, this`dangling, this`fine, desc
      ensures View() == CloseIt(fmt, old(View())) && fine == (old(fine) && closed) && dangling
      ensures closed == CloseFile(fmt, old(desc.sys), old(desc.View())).ok
    {
      closed := desc.Close();
      disk := disk[current as nat := desc.disk];
      dangling, fine := true, fine && closed;
    }

    /** gen_open_file for the current index, with the track length as estimate. */
    method OpenCurrent(k: nat) returns (ok: bool)
      requires GoodSystem(systems(k)) && desc == null && !dangling
      modifies this`current, this`disk, this`desc, this`files, this`opens, this`fine
      ensures desc != null ==> fresh(desc) && desc.fmt == fmt && desc.Valid()
      ensures View() == OpenIt(fmt, systems(k), trkLen, trkIdx, old(View())) && fine == (old(fine) && ok)
      ensures ok ==> desc != null && Content(desc.View()) == Header(fmt, Announced(fmt, trkLen))
    {
      if systems(k).opens {
        OpenedIsHeader(fmt, systems(k), trkLen, if trkIdx in disk then disk[trkIdx] else []);
      }
      var d := new GenDesc(fmt, systems(k), trkLen, if trkIdx in disk then disk[trkIdx] else []);
      ok := d.Open();
      current := trkIdx;
      if ok {
        desc := d;
      } else {
        fine := false;
        if systems(k).opens { disk := disk[trkIdx := d.disk]; }
      }
      if ok || systems(k).opens { files, opens := files[trkIdx := []], opens + [trkIdx]; }
    }

    /** Close the file of the last track and open that of the current one, if the
        index has changed.  After a failed close the descriptor stays set. */
    method SwitchFile(k: nat) returns (ok: bool)
      requires GoodSystem(systems(k)) && (desc != null ==> desc.fmt == fmt && desc.Valid() && current >= 0)
      requires fine && !dangling
      modifies this`current, this`desc, this`dangling, this`disk, this`files, this`opens, this`fine, desc
      ensures desc != null && desc != old(desc) ==> fresh(desc)
      ensures (desc == null ==> !dangling) && (desc != null && !dangling ==> desc.fmt == fmt && desc.Valid())
      ensures View() == SwitchTo(fmt, systems(k), trkLen, trkIdx, old(View())) && fine == ok
      ensures ok && old(current) != trkIdx ==>
                desc != null && Content(desc.View()) == Header(fmt, if trkLen == 0 then 0 - HeaderLen(fmt) else trkLen)
    {
      ok := true;
      if current != trkIdx {
        if desc != null {
          ok := CloseCurrent();
          if !ok {
            current := trkIdx;
            return;
          }
        }
        desc, dangling := null, false;
        ok := OpenCurrent(k);
      }
    }

    /** Write a chunk to the open file. */
    method WriteChunk(chunk: Chunk) returns (ok: bool, ghost n: nat)
      requires desc != null && !dangling && desc.Valid() && current >= 0 && current in files
      modifies this`files, this`fine, desc`disk, desc`pos, desc`pending, desc`calls
      ensures desc.Valid() && View() == WriteIt(old(View()), chunk)
      ensures n == Emit(desc.sys, old(desc.View()), chunk).n && (ok <==> n == |chunk|)
    {
      ok, n := desc.WriteChunk(chunk);
      files := files[current as nat := files[current as nat] + chunk[..n]];
      fine := fine && ok;
    }

    /** One pass of fpaud_write, once a chunk is out of the ring and the track is
        looked up: switch files, write. */
    method Pass(k: nat, chunk: Chunk) returns (ok: bool)
      requires Valid() && CanPass(fmt, systems(k), trkLen, trkIdx, View()) && fine && !dangling
      modifies this`current, this`desc, this`dangling, this`disk, this`files, this`opens, this`fine, desc
      ensures desc != null && desc != old(desc) ==> fresh(desc)
      ensures Valid() && View() == PassIt(fmt, systems(k), trkLen, trkIdx, old(View()), chunk) && fine == ok
    {
      ok := SwitchFile(k);
      if ok {
        ghost var n;
        ok, n := WriteChunk(chunk);
      }
    }

    /** The same with the frames played. */
    method PassAndCount(k: nat, chunk: Chunk) returns (ok: bool)
      requires Valid() && CanPass(fmt, systems(k), trkLen, trkIdx, View()) && fine && !dangling
      modifies this`current, this`desc, this`dangling, this`disk, this`files, this`opens, this`fine, this`frmPlayed
      modifies desc
      ensures desc != null && desc != old(desc) ==> fresh(desc)
      ensures Valid() && View() == PassIt(fmt, systems(k), trkLen, trkIdx, old(View()), chunk) && fine == ok
      ensures frmPlayed == old(frmPlayed) + if ok then play.chunkBlocks else 0
    {
      ok := Pass(k, chunk);
      if ok { frmPlayed := frmPlayed + play.chunkBlocks; }
    }

    /** Before chunk k, with the first k chunks written: `h` are the files, `trk` is
        trk_idx; `quiet` says that the system of the file open at first never fails. */
    ghost predicate AtChunk(chunks: seq<Chunk>, stopped: bool, stale: nat, quiet: bool, k: nat, h: Shelf, trk: nat)
      requires k <= |chunks| && ValidPlay(play)
    {
      && Between(fmt, AllHonest(), before, h) && (quiet && Reliable() ==> NoErrors(h))
      && SoFar(play, stale, map[], chunks[..k], stopped && k == |chunks|, Accepts(h), trk)
    }

    /** What is left when the run ends with these pieces. */
    ghost predicate AtEnd(chunks: seq<Chunk>, stopped: bool, stale: nat, quiet: bool, pieces: seq<seq<Byte>>, h: Shelf)
      requires ValidPlay(play)
    {
      && ShelfOk(fmt, AllHonest(), before, h) && (quiet && Reliable() ==> h.fine && NoErrors(h))
      && AcceptedPieces(chunks, pieces, h.fine)
      && var idx := Indices(play, stale, |pieces|, stopped && |pieces| == |chunks|);
         var o := Written(map[], idx, pieces);
         h.files == o.files && h.opens == o.opens
    }

    lemma {:induction false} PassStep(chunks: seq<Chunk>, stopped: bool, stale: nat, quiet: bool, k: nat, h: Shelf,
                                      trk: nat, trk': nat, estimate: int) returns (pieces: seq<seq<Byte>>)
      requires ValidPlay(play) && k < |chunks| && chunks[k] != [] && (forall c :: GoodSystem(systems(c)))
      requires AtChunk(chunks, stopped, stale, quiet, k, h, trk)
      requires trk' == IndexUsed(play, stale, k, stopped && k == |chunks| - 1)
      ensures CanPass(fmt, systems(k), estimate, trk', h)
      ensures var u := PassIt(fmt, systems(k), estimate, trk', h, chunks[k]);
              if u.fine then AtChunk(chunks, stopped, stale, quiet, k + 1, u, trk')
              else AtEnd(chunks, stopped, stale, quiet, pieces, u)
    {
      var wrote, piece := PassKeepsOk(fmt, AllHonest(), before, systems(k), estimate, trk', h, chunks[k]);
      var u := PassIt(fmt, systems(k), estimate, trk', h, chunks[k]);
      pieces := NextPieces(play, stale, chunks, k, stopped && k == |chunks| - 1, wrote, u.fine, piece,
                           Accepts(h), Accepts(u), trk');
    }

    lemma {:induction false} AllDone(chunks: seq<Chunk>, stopped: bool, stale: nat, quiet: bool, h: Shelf, trk: nat)
      requires ValidPlay(play) && AtChunk(chunks, stopped, stale, quiet, |chunks|, h, trk)
      ensures AtEnd(chunks, stopped, stale, quiet, chunks, h)
    {
      AcceptedWhole(chunks, |chunks|);
      assert chunks[..|chunks|] == chunks;
    }

    /** One turn of the loop of fpaud_write. */
    method OneChunk(chunks: seq<Chunk>, stopped: bool, k: nat, ghost stale: nat, ghost quiet: bool)
      returns (ok: bool, ghost pieces: seq<seq<Byte>>)
      requires Valid() && fine && !dangling && k < |chunks| && chunks[k] != []
      requires AtChunk(chunks, stopped, stale, quiet, k, View(), trkIdx)
      requires play.startLba + frmPlayed == ChunkLba(play, k)
      modifies this, desc
      ensures Valid() && fine == ok && (ok ==> !dangling && play.startLba + frmPlayed == ChunkLba(play, k + 1))
      ensures desc != null && desc != old(desc) ==> fresh(desc)
      ensures if ok then AtChunk(chunks, stopped, stale, quiet, k + 1, View(), trkIdx)
              else AtEnd(chunks, stopped, stale, quiet, pieces, View())
    {
      ghost var h, trk := View(), trkIdx;
      LookUp(stopped && k == |chunks| - 1, k, stale);
      pieces := PassStep(chunks, stopped, stale, quiet, k, h, trk, trkIdx, trkLen);
      ok := PassAndCount(k, chunks[k]);
      NextLba(play, k);
    }

    /** fpaud_write without the ring: `stopped` says that the run was stopped
        while the last chunk was in the writer's hands. */
    method WriteAll(chunks: seq<Chunk>, stopped: bool) returns (ok: bool, ghost pieces: seq<seq<Byte>>)
      requires Ready() && Accepts(View()) == Out(map[], -1, []) && frmPlayed == 0
      requires forall i :: 0 <= i < |chunks| ==> |chunks[i]| == Bytes(play.chunkBlocks)
      modifies this, desc
      ensures desc != null && desc != old(desc) ==> fresh(desc)
      ensures Valid() && fine == ok
      ensures AtEnd(chunks, stopped, old(trkIdx), old(NoErrors(View())), pieces, View())
    {
      ghost var stale, quiet := trkIdx, NoErrors(View());
      var k := 0;
      ok := true;
      assert chunks[..0] == [];
      while k < |chunks|
        invariant k <= |chunks| && ok && fine && !dangling && (desc != null && desc != old(desc) ==> fresh(desc))
        invariant Valid() && AtChunk(chunks, stopped, stale, quiet, k, View(), trkIdx)
        invariant play.startLba + frmPlayed == ChunkLba(play, k)
      {
        ok, pieces := OneChunk(chunks, stopped, k, stale, quiet);
        if !ok { return; }
        k := k + 1;
      }
      AllDone(chunks, stopped, stale, quiet, View(), trkIdx);
      pieces := chunks;
    }

    /** fp_wdone: close the last file.  After a close that failed the source closes
        the freed descriptor again; here nothing more happens. */
    method Finish() returns (closed: bool)
      requires Ok()
      modifies this`disk, this`desc, this`dangling, this`fine, desc
      ensures Ok() && View() == Forget(FinishIt(fmt, old(View()))) && desc == null
      ensures fine == (old(fine) && closed) && (old(NoErrors(View())) ==> closed)
    {
      closed := true;
      if View().open.Some? && NoErrors(View()) { NoErrorCloses(fmt, desc.sys, desc.View()); }
      FinishKeepsOk(fmt, AllHonest(), before, View());
      ForgetKeepsOk(fmt, AllHonest(), before, FinishIt(fmt, View()));
      if desc != null && !dangling {
        closed := CloseCurrent();
      }
      desc, dangling := null, false;
    }

    /** A run of the writer with the close of the last file: `done` says that all
        chunks were accepted and every close reported success. */
    method Record(chunks: seq<Chunk>, stopped: bool) returns (done: bool, ghost pieces: seq<seq<Byte>>)
      requires Ready() && Accepts(View()) == Out(map[], -1, []) && frmPlayed == 0
      requires forall i :: 0 <= i < |chunks| ==> |chunks[i]| == Bytes(play.chunkBlocks)
      modifies this, desc
      ensures Ok() && AcceptedPieces(chunks, pieces, pieces == chunks) && (done ==> pieces == chunks)
      ensures old(NoErrors(View())) && Reliable() ==> done
      ensures var idx := Indices(play, old(trkIdx), |pieces|, stopped && |pieces| == |chunks|);
              OnDisk(fmt, done && AllHonest(), before, idx, pieces, disk)
    {
      ghost var stale := trkIdx;
      var ok;
      ok, pieces := WriteAll(chunks, stopped);
      var closed := Finish();
      done := ok && closed;
      ghost var idx := Indices(play, stale, |pieces|, stopped && |pieces| == |chunks|);
      OnDiskIs(fmt, AllHonest(), before, idx, pieces, View());
    }
  }

  /** The pieces are the chunks up to the first failure: whole chunks, the last
      piece possibly cut short. */
  predicate AcceptedPieces(chunks: seq<Chunk>, pieces: seq<seq<Byte>>, ok: bool) {
    && (ok <==> pieces == chunks) && |pieces| <= |chunks|
    && (forall i :: 0 <= i < |pieces| - 1 ==> pieces[i] == chunks[i])
    && (pieces != [] ==> pieces[|pieces| - 1] <= chunks[|pieces| - 1])
  }

  /** trk_idx after k chunks. */
  function IndexLeft(p: Play, stale: nat, k: nat, stopped: bool): nat
    requires ValidPlay(p)
  {
    if k == 0 then stale else IndexUsed(p, stale, k - 1, stopped)
  }

  /** The writer after these pieces. */
  ghost predicate SoFar(p: Play, stale: nat, earlier: map<nat, seq<Byte>>, pieces: seq<seq<Byte>>, stopped: bool,
                        o: Out, trkIdx: nat)
    requires ValidPlay(p)
  {
    && trkIdx == IndexLeft(p, stale, |pieces|, stopped)
    && o == Written(earlier, Indices(p, stale, |pieces|, stopped), pieces)
  }

  lemma {:induction false} OneMore(p: Play, stale: nat, earlier: map<nat, seq<Byte>>, pieces: seq<seq<Byte>>,
                                   piece: seq<Byte>, stopped: bool, o: Out, trkIdx: nat)
    requires ValidPlay(p) && ValidOut(o)
    requires o == Written(earlier, Indices(p, stale, |pieces|, false), pieces)
    requires trkIdx == IndexUsed(p, stale, |pieces|, stopped)
    ensures SoFar(p, stale, earlier, pieces + [piece], stopped, Append(Switch(o, trkIdx), piece), trkIdx)
  {
    MoreIndices(p, stale, |pieces|, stopped);
    WrittenMore(earlier, Indices(p, stale, |pieces|, false), pieces, trkIdx, piece);
  }

  lemma {:induction false} MoreIndices(p: Play, stale: nat, n: nat, stopped: bool)
    requires ValidPlay(p)
    ensures Indices(p, stale, n + 1, stopped) == Indices(p, stale, n, false) + [IndexUsed(p, stale, n, stopped)]
  {
  }

  lemma {:induction false} WrittenMore(earlier: map<nat, seq<Byte>>, idx: seq<nat>, pieces: seq<seq<Byte>>,
                                       i: nat, piece: seq<Byte>)
    requires |idx| == |pieces|
    ensures Written(earlier, idx + [i], pieces + [piece])
            == Append(Switch(Written(earlier, idx, pieces), i), piece)
  {
    assert (idx + [i])[..|idx|] == idx && (pieces + [piece])[..|idx|] == pieces;
  }

  /** What a pass adds to the pieces. */
  lemma {:induction false} NextPieces(p: Play, stale: nat, chunks: seq<Chunk>, k: nat, last: bool, wrote: bool,
                                      ok: bool, piece: seq<Byte>, o: Out, u: Out, trkIdx: nat)
    returns (pieces: seq<seq<Byte>>)
    requires ValidPlay(p) && k < |chunks| && piece <= chunks[k] && ValidOut(o) && trkIdx == IndexUsed(p, stale, k, last)
    requires o == Written(map[], Indices(p, stale, k, false), chunks[..k])
    requires wrote ==> u == Append(Switch(o, trkIdx), piece) && (ok <==> piece == chunks[k])
    requires !wrote ==> !ok && u.files == o.files && u.opens == o.opens
    ensures AcceptedPieces(chunks, pieces, ok && k + 1 == |chunks|)
    ensures |pieces| == (if wrote then k + 1 else k) && (ok ==> pieces == chunks[..k + 1])
    ensures wrote ==> SoFar(p, stale, map[], pieces, last, u, trkIdx)
    ensures !wrote ==> pieces == chunks[..k]
  {
    if wrote {
      OneMore(p, stale, map[], chunks[..k], piece, last, o, trkIdx);
      AcceptedMore(chunks, k, piece);
      pieces := chunks[..k] + [piece];
    } else {
      AcceptedWhole(chunks, k);
      pieces := chunks[..k];
    }
  }

  lemma AcceptedWhole(chunks: seq<Chunk>, k: nat)
    requires k <= |chunks|
    ensures AcceptedPieces(chunks, chunks[..k], k == |chunks|)
  {
    assert k == |chunks| ==> chunks[..k] == chunks;
  }

  lemma AcceptedMore(chunks: seq<Chunk>, k: nat, piece: seq<Byte>)
    requires k < |chunks| && piece <= chunks[k]
    ensures AcceptedPieces(chunks, chunks[..k] + [piece], k + 1 == |chunks| && piece == chunks[k])
    ensures piece == chunks[k] ==> chunks[..k] + [piece] == chunks[..k + 1]
  {
    var ps := chunks[..k] + [piece];
    assert ps[k] == piece;
  }

  lemma {:induction false} AcceptedJoin(chunks: seq<Chunk>, pieces: seq<seq<Byte>>, ok: bool)
    requires AcceptedPieces(chunks, pieces, ok)
    ensures Concat(pieces) <= Concat(chunks) && (ok ==> Concat(pieces) == Concat(chunks))
  {
    if pieces != [] {
      var n := |pieces| - 1;
      assert pieces[..n] == chunks[..n];
      assert chunks[..n + 1][..n] == chunks[..n];
      assert Concat(chunks[..n + 1]) == Concat(chunks[..n]) + chunks[n];
      ConcatUpTo(chunks, n + 1);
    } else {
      ConcatUpTo(chunks, 0);
    }
  }

  /** Splitting loses nothing: with a settled index, whatever fails and whenever
      the run is stopped, no file is opened twice, and the files in the order of
      the tracks are the stream as far as it was written. */
  lemma {:induction false} FilesAreTheStream(p: Play, stale: nat, earlier: map<nat, seq<Byte>>, chunks: seq<Chunk>,
                                             pieces: seq<seq<Byte>>, ok: bool, stopped: bool)
    requires ValidPlay(p) && stale < TrackCount(p) && Settled(p, stale) && AcceptedPieces(chunks, pieces, ok)
    ensures var idx := Indices(p, stale, |pieces|, stopped);
            && FilesAre(earlier, idx, pieces, Written(earlier, idx, pieces))
            && Joined(idx, pieces, TrackCount(p)) == Concat(pieces) <= Concat(chunks)
            && (ok ==> Concat(pieces) == Concat(chunks))
  {
    var idx := Indices(p, stale, |pieces|, stopped);
    SettledRises(p, stale, |pieces|, stopped);
    RisingNeverReturns(idx);
    FilesHoldParts(earlier, idx, pieces);
    forall k | 0 <= k < |idx| ensures idx[k] < TrackCount(p) {
      IndexWithin(p, stale, k);
      IndexWithin(p, stale, if k == 0 then 0 else k - 1);
    }
    PartsJoin(idx, pieces, TrackCount(p));
    AcceptedJoin(chunks, pieces, ok);
  }

  lemma {:induction false} IndexWithin(p: Play, stale: nat, k: nat)
    requires ValidPlay(p) && stale < TrackCount(p)
    ensures IndexAt(p, stale, k) < TrackCount(p)
  {
    if TrackOf(p, ChunkLba(p, k), 0).None? && k > 0 {
      IndexWithin(p, stale, k - 1);
    }
  }
}

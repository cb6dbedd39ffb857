/**
  The writer's stream is split into one file per track: which track a chunk
  belongs to, when a file is opened, and what the files hold together.
 */
module Tracks {
  import opened Basics

  /** Addresses of the tracks, the last one that of the lead-out; where the run
      starts; how many blocks a chunk has. */
  datatype Play = Play(addrs: seq<int>, startLba: int, chunkBlocks: nat)

  predicate ValidPlay(p: Play) {
    && |p.addrs| >= 2 && p.chunkBlocks >= 1
    && (forall i, j :: 0 <= i < j < |p.addrs| ==> p.addrs[i] <= p.addrs[j])
  }

  function TrackCount(p: Play): nat
    requires ValidPlay(p)
  {
    |p.addrs| - 1
  }

  predicate InTrack(p: Play, lba: int, i: nat)
    requires i + 1 < |p.addrs|
  {
    p.addrs[i] <= lba < p.addrs[i + 1]
  }

  /** The plain search. */
  function TrackOf(p: Play, lba: int, from: nat): (r: Option<nat>)
    requires ValidPlay(p) && from <= TrackCount(p)
    ensures r.Some? ==> from <= r.value < TrackCount(p) && InTrack(p, lba, r.value)
    ensures forall i :: from <= i < (if r.Some? then r.value else TrackCount(p)) ==> !InTrack(p, lba, i)
    decreases TrackCount(p) - from
  {
    if from == TrackCount(p) then None
    else if InTrack(p, lba, from) then Some(from)
    else TrackOf(p, lba, from + 1)
  }

  /** Tracks in front of track i end no later than it starts. */
  lemma EndsBefore(p: Play, j: nat, i: nat)
    requires ValidPlay(p) && i < TrackCount(p) && j < TrackCount(p)
    ensures j < i ==> p.addrs[j + 1] <= p.addrs[i]
  {
  }

  /** With sorted addresses at most one track contains a block. */
  lemma {:induction false} OnlyTrack(p: Play, lba: int, i: nat)
    requires ValidPlay(p) && i < TrackCount(p) && InTrack(p, lba, i)
    ensures TrackOf(p, lba, 0) == Some(i)
  {
    var r := TrackOf(p, lba, 0);
    assert r.Some? && r.value <= i;
    EndsBefore(p, r.value, i);
  }

  /** A block belongs to a track exactly when it lies between the first track and
      the lead-out. */
  lemma {:induction false} InsideIff(p: Play, lba: int)
    requires ValidPlay(p)
    ensures TrackOf(p, lba, 0).Some? <==> p.addrs[0] <= lba < p.addrs[TrackCount(p)]
  {
    if p.addrs[0] <= lba < p.addrs[TrackCount(p)] {
      var i := LastStart(p, lba, TrackCount(p));
      assert InTrack(p, lba, i);
    }
  }

  lemma {:induction false} LastStart(p: Play, lba: int, n: nat) returns (i: nat)
    requires ValidPlay(p) && 1 <= n <= TrackCount(p) && p.addrs[0] <= lba < p.addrs[n]
    ensures i < n && InTrack(p, lba, i)
    decreases n
  {
    if p.addrs[n - 1] <= lba {
      i := n - 1;
    } else {
      i := LastStart(p, lba, n - 1);
    }
  }

  // ---- the index used for each chunk ----

  function ChunkLba(p: Play, k: nat): int {
    p.startLba + k * p.chunkBlocks
  }

  /** trk_idx after the lookup for chunk k: it stays as it was where no track is
      found, and `stale` is what the run found there. */
  function IndexAt(p: Play, stale: nat, k: nat): nat
    requires ValidPlay(p)
  {
    match TrackOf(p, ChunkLba(p, k), 0)
    case Some(i) => i
    case None => if k == 0 then stale else IndexAt(p, stale, k - 1)
  }

  /** The index used for chunk k: the lookup is left out once the run is stopped,
      which the last chunk may meet. */
  function IndexUsed(p: Play, stale: nat, k: nat, stopped: bool): nat
    requires ValidPlay(p)
  {
    if !stopped then IndexAt(p, stale, k) else if k == 0 then stale else IndexAt(p, stale, k - 1)
  }

  /** The indices used in a run of n chunks. */
  function Indices(p: Play, stale: nat, n: nat, stopped: bool): (r: seq<nat>)
    requires ValidPlay(p)
    ensures |r| == n
    ensures forall k :: 0 <= k < n ==> r[k] == IndexUsed(p, stale, k, stopped && k == n - 1)
  {
    seq<nat>(n, k requires 0 <= k < n => IndexUsed(p, stale, k, stopped && k == n - 1))
  }

  predicate Nondecreasing(idx: seq<nat>) {
    forall i, j :: 0 <= i < j < |idx| ==> idx[i] <= idx[j]
  }

  /** The first chunk at or behind the first track. */
  function FirstInside(p: Play): nat
    requires ValidPlay(p)
  {
    if p.addrs[0] <= p.startLba then 0 else (p.addrs[0] - p.startLba + p.chunkBlocks - 1) / p.chunkBlocks
  }

  /** A run that starts before the first track does not find the index of a later
      track left over. */
  predicate Settled(p: Play, stale: nat)
    requires ValidPlay(p)
  {
    var k := FirstInside(p);
    var t := TrackOf(p, ChunkLba(p, k), 0);
    k > 0 && t.Some? ==> stale <= t.value
  }

  lemma {:induction false} FirstInsideIs(p: Play, k: nat)
    requires ValidPlay(p)
    ensures k < FirstInside(p) <==> ChunkLba(p, k) < p.addrs[0]
  {
    var a := p.addrs[0] - p.startLba;
    var b := p.chunkBlocks;
    if a > 0 {
      var t := (a + b - 1) / b;
      assert t * b == a + b - 1 - (a + b - 1) % b;
      assert (t - k) * b == t * b - k * b;
      Sign(t - k, b);
    } else {
      assert k * b >= 0;
    }
  }

  lemma Sign(n: int, b: nat)
    requires b >= 1
    ensures if n >= 1 then n * b >= b else n * b <= 0
  {
  }

  lemma {:induction false} NextLba(p: Play, k: nat)
    ensures ChunkLba(p, k + 1) == ChunkLba(p, k) + p.chunkBlocks
  {
    assert (k + 1) * p.chunkBlocks == k * p.chunkBlocks + p.chunkBlocks;
  }

  /** Before the first track the index is the stale one; behind it, it is that of
      the last track that starts no later. */
  lemma {:induction false} IndexBefore(p: Play, stale: nat, k: nat)
    requires ValidPlay(p) && k < FirstInside(p)
    ensures IndexAt(p, stale, k) == stale
  {
    FirstInsideIs(p, k);
    InsideIff(p, ChunkLba(p, k));
    if k > 0 {
      IndexBefore(p, stale, k - 1);
    }
  }

  /** An index whose track does not start behind `lba`. */
  predicate StartsBy(p: Play, i: nat, lba: int)
    requires ValidPlay(p)
  {
    i < TrackCount(p) && p.addrs[i] <= lba
  }

  /** Once inside, the index never falls. */
  lemma {:induction false} IndexInside(p: Play, stale: nat, k: nat)
    requires ValidPlay(p) && k >= FirstInside(p)
    requires TrackOf(p, ChunkLba(p, FirstInside(p)), 0).Some?
    ensures StartsBy(p, IndexAt(p, stale, k), ChunkLba(p, k))
    ensures k > FirstInside(p) ==> IndexAt(p, stale, k - 1) <= IndexAt(p, stale, k)
  {
    if k > FirstInside(p) {
      IndexInside(p, stale, k - 1);
      NextLba(p, k - 1);
      var i := IndexAt(p, stale, k - 1);
      match TrackOf(p, ChunkLba(p, k), 0)
      case None =>
      case Some(j) =>
        EndsBefore(p, j, i);
    }
  }

  /** A run that starts behind the lead-out, or jumps over the whole disc, keeps
      the stale index. */
  lemma {:induction false} IndexBeyond(p: Play, stale: nat, k: nat)
    requires ValidPlay(p) && TrackOf(p, ChunkLba(p, FirstInside(p)), 0).None?
    ensures IndexAt(p, stale, k) == stale
  {
    var f := FirstInside(p);
    FirstInsideIs(p, f);
    InsideIff(p, ChunkLba(p, f));
    FirstInsideIs(p, k);
    if k >= f {
      assert (k - f) * p.chunkBlocks >= 0;
      assert ChunkLba(p, k) == ChunkLba(p, f) + (k - f) * p.chunkBlocks;
    }
    InsideIff(p, ChunkLba(p, k));
    if k > 0 {
      IndexBeyond(p, stale, k - 1);
    }
  }

  lemma {:induction false} IndexStep(p: Play, stale: nat, k: nat)
    requires ValidPlay(p) && Settled(p, stale) && k >= 1
    ensures IndexAt(p, stale, k - 1) <= IndexAt(p, stale, k)
  {
    var f := FirstInside(p);
    if TrackOf(p, ChunkLba(p, f), 0).None? {
      IndexBeyond(p, stale, k - 1);
      IndexBeyond(p, stale, k);
    } else if k > f {
      IndexInside(p, stale, k);
    } else {
      IndexBefore(p, stale, k - 1);
      if k < f {
        IndexBefore(p, stale, k);
      }
    }
  }

  lemma {:induction false} IndexRises(p: Play, stale: nat, j: nat, k: nat)
    requires ValidPlay(p) && Settled(p, stale) && j <= k
    ensures IndexAt(p, stale, j) <= IndexAt(p, stale, k)
    decreases k
  {
    if j < k {
      IndexStep(p, stale, k);
      IndexRises(p, stale, j, k - 1);
    }
  }

  lemma {:induction false} SettledRises(p: Play, stale: nat, n: nat, stopped: bool)
    requires ValidPlay(p) && Settled(p, stale)
    ensures Nondecreasing(Indices(p, stale, n, stopped))
  {
    var idx := Indices(p, stale, n, stopped);
    forall i, j | 0 <= i < j < n
      ensures idx[i] <= idx[j]
    {
      IndexRises(p, stale, i, j);
      IndexRises(p, stale, i, j - 1);
    }
  }

  /** In no run, however long and however it ends, does the index fall. */
  ghost predicate NeverFalls(p: Play, stale: nat)
    requires ValidPlay(p)
  {
    forall n, stopped :: Nondecreasing(Indices(p, stale, n, stopped))
  }

  lemma {:induction false} NeverFallsIff(p: Play, stale: nat)
    requires ValidPlay(p)
    ensures NeverFalls(p, stale) <==> Settled(p, stale)
  {
    if Settled(p, stale) {
      forall n, stopped ensures Nondecreasing(Indices(p, stale, n, stopped)) {
        SettledRises(p, stale, n, stopped);
      }
    } else {
      var k := FirstInside(p);
      var idx := Indices(p, stale, k + 1, false);
      IndexBefore(p, stale, k - 1);
      assert idx[k - 1] == IndexAt(p, stale, k - 1) == stale;
      assert idx[k] == IndexAt(p, stale, k);
    }
  }

  /** The chunk in hand when the run is stopped is filed under the track of the one
      before it: that is its own track unless it is the first to start in it. */
  lemma {:induction false} OwnTrackIff(p: Play, stale: nat, k: nat, stopped: bool, t: nat)
    requires ValidPlay(p) && k >= 1 && TrackOf(p, ChunkLba(p, k), 0) == Some(t)
    requires p.addrs[0] <= ChunkLba(p, k - 1)
    ensures IndexUsed(p, stale, k, stopped) == t <==> !stopped || p.addrs[t] <= ChunkLba(p, k - 1)
  {
    NextLba(p, k - 1);
    assert p.addrs[t + 1] <= p.addrs[TrackCount(p)] || t + 1 == TrackCount(p);
    InsideIff(p, ChunkLba(p, k - 1));
    if p.addrs[t] <= ChunkLba(p, k - 1) {
      OnlyTrack(p, ChunkLba(p, k - 1), t);
    }
  }

  // ---- the files ----

  /** Contents of the files by index, the index of the open one (-1 for none), and
      the indices opened so far. */
  datatype Out = Out(files: map<nat, seq<Byte>>, current: int, opens: seq<nat>)

  predicate ValidOut(o: Out) {
    o.current >= 0 ==> o.current in o.files
  }

  /** Opening truncates. */
  function Switch(o: Out, i: nat): (r: Out)
    requires ValidOut(o)
    ensures ValidOut(r) && r.current == i
  {
    if o.current == i then o else Out(o.files[i := []], i, o.opens + [i])
  }

  function Append(o: Out, piece: seq<Byte>): (r: Out)
    requires ValidOut(o) && o.current >= 0
    ensures ValidOut(r)
  {
    o.(files := o.files[o.current := o.files[o.current] + piece])
  }

  /** Pieces written one after the other, each with the index used for it. */
  function Written(earlier: map<nat, seq<Byte>>, idx: seq<nat>, pieces: seq<seq<Byte>>): (r: Out)
    requires |idx| == |pieces|
    ensures ValidOut(r) && r.current == (if idx == [] then -1 else idx[|idx| - 1])
    decreases |idx|
  {
    if idx == [] then Out(earlier, -1, [])
    else
      var n := |idx| - 1;
      Append(Switch(Written(earlier, idx[..n], pieces[..n]), idx[n]), pieces[n])
  }

  /** The pieces of one track. */
  function Part(idx: seq<nat>, pieces: seq<seq<Byte>>, t: nat): seq<Byte>
    requires |idx| == |pieces|
    decreases |idx|
  {
    if idx == [] then []
    else
      var n := |idx| - 1;
      Part(idx[..n], pieces[..n], t) + if idx[n] == t then pieces[n] else []
  }

  /** The parts of tracks 0..n-1, in the order of the tracks. */
  function Joined(idx: seq<nat>, pieces: seq<seq<Byte>>, n: nat): seq<Byte>
    requires |idx| == |pieces|
  {
    if n == 0 then [] else Joined(idx, pieces, n - 1) + Part(idx, pieces, n - 1)
  }

  /** No index comes back after another one. */
  predicate NoReturn(idx: seq<nat>) {
    forall i, k :: 0 <= i < k < |idx| && idx[k - 1] != idx[k] ==> idx[i] != idx[k]
  }

  lemma RisingNeverReturns(idx: seq<nat>)
    requires Nondecreasing(idx)
    ensures NoReturn(idx)
  {
    forall i, k | 0 <= i < k < |idx| && idx[k - 1] != idx[k] ensures idx[i] != idx[k] {
      assert idx[i] <= idx[k - 1] <= idx[k];
    }
  }

  lemma {:induction false} NoPart(idx: seq<nat>, pieces: seq<seq<Byte>>, t: nat)
    requires |idx| == |pieces| && t !in idx
    ensures Part(idx, pieces, t) == []
    decreases |idx|
  {
    if idx != [] {
      var n := |idx| - 1;
      assert idx[n] in idx;
      NoPart(idx[..n], pieces[..n], t);
    }
  }

  predicate Distinct(s: seq<nat>) {
    forall i, j :: 0 <= i < j < |s| ==> s[i] != s[j]
  }

  /** What every file holds: its part if its track was met, what it held before
      otherwise; and which files were opened. */
  ghost predicate FilesAre(earlier: map<nat, seq<Byte>>, idx: seq<nat>, pieces: seq<seq<Byte>>, o: Out)
    requires |idx| == |pieces|
  {
    && (forall t :: t in o.files <==> t in earlier || t in idx)
    && (forall t :: t in o.files ==> o.files[t] == if t in idx then Part(idx, pieces, t) else earlier[t])
    && Distinct(o.opens) && (forall t :: t in o.opens <==> t in idx)
  }

  lemma {:induction false} InPrefix(idx: seq<nat>, t: nat)
    requires idx != []
    ensures t in idx <==> t in idx[..|idx| - 1] || t == idx[|idx| - 1]
    ensures NoReturn(idx) ==> NoReturn(idx[..|idx| - 1])
    ensures NoReturn(idx) && |idx| >= 2 && idx[|idx| - 2] != idx[|idx| - 1] ==> idx[|idx| - 1] !in idx[..|idx| - 1]
  {
    assert idx == idx[..|idx| - 1] + [idx[|idx| - 1]];
  }

  lemma {:induction false} FileHoldsPart(earlier: map<nat, seq<Byte>>, idx: seq<nat>, pieces: seq<seq<Byte>>, t: nat)
    requires |idx| == |pieces| && NoReturn(idx)
    ensures var files := Written(earlier, idx, pieces).files;
            && (t in files <==> t in earlier || t in idx)
            && (t in files ==> files[t] == if t in idx then Part(idx, pieces, t) else earlier[t])
    decreases |idx|
  {
    if idx != [] {
      var n := |idx| - 1;
      InPrefix(idx, t);
      FileHoldsPart(earlier, idx[..n], pieces[..n], t);
      if t !in idx[..n] {
        NoPart(idx[..n], pieces[..n], t);
      }
    }
  }

  lemma {:induction false} OpensOnce(earlier: map<nat, seq<Byte>>, idx: seq<nat>, pieces: seq<seq<Byte>>)
    requires |idx| == |pieces| && NoReturn(idx)
    ensures var o := Written(earlier, idx, pieces);
            Distinct(o.opens) && forall t :: t in o.opens <==> t in idx
    decreases |idx|
  {
    if idx != [] {
      var n := |idx| - 1;
      OpensOnce(earlier, idx[..n], pieces[..n]);
      var o := Written(earlier, idx[..n], pieces[..n]);
      InPrefix(idx, idx[n]);
      forall t ensures t in Written(earlier, idx, pieces).opens <==> t in idx {
        InPrefix(idx, t);
        if o.current == idx[n] {
          assert idx[..n][n - 1] in idx[..n];
        }
      }
    }
  }

  /** If no index returns, no file is opened twice, so opening truncates nothing
      that was written before. */
  lemma {:induction false} FilesHoldParts(earlier: map<nat, seq<Byte>>, idx: seq<nat>, pieces: seq<seq<Byte>>)
    requires |idx| == |pieces| && NoReturn(idx)
    ensures FilesAre(earlier, idx, pieces, Written(earlier, idx, pieces))
  {
    OpensOnce(earlier, idx, pieces);
    forall t: nat
      ensures var files := Written(earlier, idx, pieces).files;
              && (t in files <==> t in earlier || t in idx)
              && (t in files ==> files[t] == if t in idx then Part(idx, pieces, t) else earlier[t])
    {
      FileHoldsPart(earlier, idx, pieces, t);
    }
  }

  lemma {:induction false} NothingBehind(idx: seq<nat>, pieces: seq<seq<Byte>>, n: nat, m: nat)
    requires |idx| == |pieces| && n <= m && (forall k :: 0 <= k < |idx| ==> idx[k] < n)
    ensures Joined(idx, pieces, m) == Joined(idx, pieces, n)
    decreases m
  {
    if n < m {
      NothingBehind(idx, pieces, n, m - 1);
      NoPart(idx, pieces, m - 1);
    }
  }

  lemma {:induction false} SameInFront(idx: seq<nat>, pieces: seq<seq<Byte>>, n: nat)
    requires |idx| == |pieces| >= 1 && n <= idx[|idx| - 1]
    ensures Joined(idx, pieces, n) == Joined(idx[..|idx| - 1], pieces[..|idx| - 1], n)
  {
    if n > 0 {
      SameInFront(idx, pieces, n - 1);
    }
  }

  lemma {:induction false} LastJoins(idx: seq<nat>, pieces: seq<seq<Byte>>, t: nat)
    requires |idx| == |pieces| >= 1 && t == idx[|idx| - 1]
    ensures Joined(idx, pieces, t + 1)
            == Joined(idx[..|idx| - 1], pieces[..|idx| - 1], t + 1) + pieces[|idx| - 1]
  {
    SameInFront(idx, pieces, t);
  }

  /** With indices that never fall, the parts in the order of the tracks are the stream. */
  lemma {:induction false} PartsJoin(idx: seq<nat>, pieces: seq<seq<Byte>>, n: nat)
    requires |idx| == |pieces| && Nondecreasing(idx) && (forall k :: 0 <= k < |idx| ==> idx[k] < n)
    ensures Joined(idx, pieces, n) == Concat(pieces)
    decreases |idx|
  {
    if idx == [] {
      NothingBehind(idx, pieces, 0, n);
    } else {
      var l := |idx| - 1;
      assert Joined(idx[..l], pieces[..l], idx[l] + 1) == Concat(pieces[..l]) by {
        assert forall k :: 0 <= k < l ==> idx[k] <= idx[l];
        PartsJoin(idx[..l], pieces[..l], idx[l] + 1);
      }
      LastJoins(idx, pieces, idx[l]);
      NothingBehind(idx, pieces, idx[l] + 1, n);
    }
  }

  // ---- when something is lost ----

  /** Every file holds all that was written for its track. */
  ghost predicate NothingLost(idx: seq<nat>, pieces: seq<seq<Byte>>)
    requires |idx| == |pieces|
  {
    forall t :: t in idx ==>
      t in Written(map[], idx, pieces).files && Written(map[], idx, pieces).files[t] == Part(idx, pieces, t)
  }

  lemma {:induction false} PartNotEmpty(idx: seq<nat>, pieces: seq<seq<Byte>>, i: nat)
    requires |idx| == |pieces| && i < |idx| && pieces[i] != []
    ensures Part(idx, pieces, idx[i]) != []
    decreases |idx|
  {
    var n := |idx| - 1;
    if i < n {
      PartNotEmpty(idx[..n], pieces[..n], i);
      assert idx[..n][i] == idx[i];
    }
  }

  /** Once a track is opened a second time, its file stays too short. */
  lemma {:induction false} ReturnLoses(idx: seq<nat>, pieces: seq<seq<Byte>>, i: nat, k: nat)
    requires |idx| == |pieces| && (forall j :: 0 <= j < |pieces| ==> pieces[j] != [])
    requires i < k < |idx| && idx[k - 1] != idx[k] == idx[i]
    ensures idx[k] in Written(map[], idx, pieces).files
    ensures |Written(map[], idx, pieces).files[idx[k]]| < |Part(idx, pieces, idx[k])|
    decreases |idx|
  {
    var n := |idx| - 1;
    if k < n {
      ReturnLoses(idx[..n], pieces[..n], i, k);
      var o := Written(map[], idx[..n], pieces[..n]);
      assert idx[..n][k] == idx[k];
    } else {
      PartNotEmpty(idx[..n], pieces[..n], i);
      assert idx[..n][i] == idx[i] && idx[..n][n - 1] == idx[n - 1];
    }
  }

  lemma {:induction false} NothingLostIff(idx: seq<nat>, pieces: seq<seq<Byte>>)
    requires |idx| == |pieces| && (forall j :: 0 <= j < |pieces| ==> pieces[j] != [])
    ensures NothingLost(idx, pieces) <==> NoReturn(idx)
  {
    if NoReturn(idx) {
      FilesHoldParts(map[], idx, pieces);
    } else {
      var i, k :| 0 <= i < k < |idx| && idx[k - 1] != idx[k] && idx[i] == idx[k];
      ReturnLoses(idx, pieces, i, k);
      assert idx[k] in idx;
    }
  }
}

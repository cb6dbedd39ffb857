/** The program command of the daemon, and the play order table it keeps. */
module Program {
  import opened Basics
  import opened ProgramText

  const NARGS := 101
  const WORD: nat := 0x1_0000_0000
  const MINUS_ONE: nat := 0xffff_ffff

  datatype Mode = NoDisc | Busy | Stopped | Playing | Paused
  datatype Retcode = Done | Invalid | ParmErr

  /** A 32-bit word as C reads it after a cast to int. */
  function Signed(w: nat): int {
    if w < 0x8000_0000 then w else w - WORD
  }

  /** The number of tracks that a negative first argument asks for: prog_tot is a byte. */
  function Count(w: nat): nat {
    (WORD - w) % 256
  }

  /** The tracks in the packet; the arguments end behind the 100th. */
  function Wanted(arg: seq<nat>): (list: seq<nat>)
    requires |arg| == NARGS
    ensures |list| == if Count(arg[0]) <= MAXTRACK then Count(arg[0]) else MAXTRACK
  {
    arg[1..1 + if Count(arg[0]) <= MAXTRACK then Count(arg[0]) else MAXTRACK]
  }

  /** The cast to word32_t: the same number modulo 2^32. */
  function Word(x: int): (r: nat)
    ensures r < WORD && (r - x) % WORD == 0
    ensures 0 <= x < WORD ==> r == x
  {
    x % WORD
  }

  /** The program: the play order table, how many entries are in use, whether
      program mode is on, and the text kept for the disc. */
  datatype Prog = Prog(table: seq<nat>, tot: nat, on: bool, text: Option<string>)

  /** Tracks of the list in front of the first one the disc does not have. */
  function Known(trkno: seq<int>, tracks: nat, list: seq<nat>): (m: nat)
    requires tracks <= |trkno|
    ensures m <= |list| && (m < |list| ==> IndexIn(trkno, tracks, list[m]) == tracks)
    ensures forall k :: 0 <= k < m ==> IndexIn(trkno, tracks, list[k]) < tracks
  {
    if list == [] || IndexIn(trkno, tracks, list[0]) == tracks then 0
    else
      var r := Known(trkno, tracks, list[1..]);
      assert forall k :: 1 <= k < 1 + r ==> list[k] == list[1..][k - 1];
      1 + r
  }

  function TextOf(list: seq<nat>): Option<string> {
    if list == [] then None else Some(Join(list))
  }

  function Overlay(table: seq<nat>, entries: seq<nat>): (r: seq<nat>)
    requires |entries| <= |table|
    ensures |r| == |table|
  {
    entries + table[|entries|..]
  }

  /** Define: the whole list, or what was entered of it before it was refused. */
  function Defined(trkno: seq<int>, tracks: nat, v: Prog, list: seq<nat>): (Retcode, Prog)
    requires |trkno| == |v.table| == MAXTRACK && tracks <= MAXTRACK && |list| <= MAXTRACK
  {
    var m := Known(trkno, tracks, list);
    var entered := Overlay(v.table, Indices(trkno, list[..m]));
    if m < |list| then (ParmErr, Prog(entered, 0, false, TextOf(list[..m])))
    else (Done, Prog(entered, |list|, true, TextOf(list)))
  }

  /** Track j is the first of the disc with this number. */
  predicate IsTrack(trkno: seq<int>, tracks: nat, x: nat, j: nat)
    requires tracks <= |trkno|
  {
    j < tracks && trkno[j] == x && forall i :: 0 <= i < j ==> trkno[i] != x
  }

  predicate OnDisc(trkno: seq<int>, tracks: nat, x: nat)
    requires tracks <= |trkno|
  {
    exists j :: 0 <= j < tracks && trkno[j] == x
  }

  /** The first m entries are the tracks of the list, the others as before. */
  predicate Holds(trkno: seq<int>, tracks: nat, was: seq<nat>, table: seq<nat>, list: seq<nat>, m: nat)
    requires tracks <= |trkno| && m <= |list| && m <= |was| == |table|
  {
    && (forall k :: 0 <= k < m ==> IsTrack(trkno, tracks, list[k], table[k]))
    && (forall k :: m <= k < |table| ==> table[k] == was[k])
  }

  lemma {:induction false} EnteredHold(trkno: seq<int>, tracks: nat, table: seq<nat>, list: seq<nat>, m: nat)
    requires |trkno| == |table| == MAXTRACK && tracks <= MAXTRACK && m <= |list| <= MAXTRACK
    requires forall k :: 0 <= k < m ==> IndexIn(trkno, tracks, list[k]) < tracks
    ensures Holds(trkno, tracks, table, Overlay(table, Indices(trkno, list[..m])), list, m)
    ensures forall k :: 0 <= k < m ==> OnDisc(trkno, tracks, list[k])
  {
    forall k | 0 <= k < m
      ensures IsTrack(trkno, tracks, list[k], IndexIn(trkno, |trkno|, list[k])) && OnDisc(trkno, tracks, list[k])
    {
      KnownIsFound(trkno, tracks, list[k]);
    }
  }

  /** A program is defined exactly if the disc has all its tracks; otherwise it is off,
      and table and text hold the tracks in front of the first one it does not have. */
  lemma {:induction false} DefinedIff(trkno: seq<int>, tracks: nat, v: Prog, list: seq<nat>)
    requires |trkno| == |v.table| == MAXTRACK && tracks <= MAXTRACK && |list| <= MAXTRACK
    ensures var (ret, d) := Defined(trkno, tracks, v, list);
            var m := Known(trkno, tracks, list);
            && (ret == Done <==> forall k :: 0 <= k < |list| ==> OnDisc(trkno, tracks, list[k]))
            && (ret != Done ==> ret == ParmErr && m < |list| && !OnDisc(trkno, tracks, list[m]))
            && d.tot == (if ret == Done then |list| else 0) && (d.on <==> ret == Done)
            && Holds(trkno, tracks, v.table, d.table, list, m)
            && d.text == if m == 0 then None else Some(Join(list[..m]))
  {
    var m := Known(trkno, tracks, list);
    assert m == |list| ==> list[..m] == list;
    EnteredHold(trkno, tracks, v.table, list, m);
  }

  /** A word as a number in two's complement, and the count: the number of tracks in the
      packet, as a byte. */
  lemma SignedIs(w: nat)
    requires w < WORD
    ensures -0x8000_0000 <= Signed(w) < 0x8000_0000 && (Signed(w) == w || Signed(w) == w - 0x1_0000_0000)
    ensures Signed(w) < 0 ==> Count(w) == (-Signed(w)) % 256
  {
  }

  /** cda_pgm_parse: enter the tracks of the text into the table. */
  function Reparsed(trkno: seq<int>, v: Prog): (bool, Prog)
    requires |trkno| == |v.table| == MAXTRACK
  {
    match v.text
    case None => (true, v)
    case Some(s) =>
      var r := Parse(trkno, s, |trkno|);
      (r.ok, v.(table := Overlay(v.table, r.indices), tot := |r.indices|))
  }

  lemma {:induction false} KnownIsFound(trkno: seq<int>, tracks: nat, x: nat)
    requires tracks <= |trkno| && IndexIn(trkno, tracks, x) < tracks
    ensures IndexIn(trkno, |trkno|, x) == IndexIn(trkno, tracks, x)
  {
  }

  lemma {:induction false} KnownAreTracks(trkno: seq<int>, tracks: nat, list: seq<nat>)
    requires |trkno| == MAXTRACK && tracks <= MAXTRACK
    ensures AllTracks(trkno, list[..Known(trkno, tracks, list)])
  {
    var m := Known(trkno, tracks, list);
    forall k | 0 <= k < m ensures IndexIn(trkno, |trkno|, list[..m][k]) < |trkno| {
      KnownIsFound(trkno, tracks, list[k]);
    }
  }

  /** Parsing the text that Define printed changes nothing: same table, same length. */
  lemma {:induction false} ParseUndoesPrint(trkno: seq<int>, tracks: nat, v: Prog, list: seq<nat>)
    requires |trkno| == |v.table| == MAXTRACK && tracks <= MAXTRACK && |list| <= MAXTRACK
    requires Defined(trkno, tracks, v, list).0 == Done && list != []
    ensures var d := Defined(trkno, tracks, v, list).1;
            Reparsed(trkno, d) == (true, d)
  {
    KnownAreTracks(trkno, tracks, list);
    DefinedAll(trkno, tracks, v, list);
    var idx := Indices(trkno, list);
    ParseJoin(trkno, list, |trkno|);
    OverlayTwice(v.table, idx);
    ReparsedIs(trkno, Defined(trkno, tracks, v, list).1, Join(list), idx);
  }

  lemma ReparsedIs(trkno: seq<int>, v: Prog, s: string, idx: seq<nat>)
    requires |trkno| == |v.table| == MAXTRACK && v.text == Some(s)
    requires Parse(trkno, s, |trkno|) == Parsed(idx, true)
    ensures |idx| <= MAXTRACK
    ensures Reparsed(trkno, v) == (true, v.(table := Overlay(v.table, idx), tot := |idx|))
  {
  }

  lemma OverlayTwice(table: seq<nat>, entries: seq<nat>)
    requires |entries| <= |table|
    ensures Overlay(Overlay(table, entries), entries) == Overlay(table, entries)
  {
  }

  /** A list that is refused leaves its beginning behind as text: parsed later, it
      is a program of the tracks in front of the unknown one. */
  lemma {:induction false} RefusedLeavesText(trkno: seq<int>, tracks: nat, v: Prog, list: seq<nat>)
    requires |trkno| == |v.table| == MAXTRACK && tracks <= MAXTRACK && |list| <= MAXTRACK
    requires Defined(trkno, tracks, v, list).0 == ParmErr
    ensures var m := Known(trkno, tracks, list);
            var (ok, r) := Reparsed(trkno, Defined(trkno, tracks, v, list).1);
            && ok && r.tot == m < |list|
            && forall k :: 0 <= k < m ==> r.table[k] == IndexIn(trkno, |trkno|, list[k])
  {
    var m := Known(trkno, tracks, list);
    KnownAreTracks(trkno, tracks, list);
    if m > 0 {
      ParseJoin(trkno, list[..m], |trkno|);
    }
  }

  /** The track numbers of table entries. */
  function Listed(trkno: seq<int>, entries: seq<nat>): (r: seq<nat>)
    ensures |r| == |entries|
  {
    seq<nat>(|entries|, k requires 0 <= k < |entries| =>
      if entries[k] < |trkno| && trkno[entries[k]] >= 0 then trkno[entries[k]] else 0)
  }

  lemma {:induction false} ListedBack(trkno: seq<int>, list: seq<nat>)
    requires |trkno| == MAXTRACK && AllTracks(trkno, list)
    ensures Listed(trkno, Indices(trkno, list)) == list
  {
  }

  /** The parser prints the tracks it entered into a buffer and throws it away:
      the text it leaves is that list exactly when it was printed from a list of
      tracks of the disc that fit into the table. */
  lemma {:induction false} TextIsTableIff(trkno: seq<int>, v: Prog, s: string)
    requires |trkno| == |v.table| == MAXTRACK && v.text == Some(s)
    ensures var r := Reparsed(trkno, v).1;
            && r.text == Some(s) && r.tot <= |r.table|
            && (s == Join(Listed(trkno, r.table[..r.tot]))
                <==> s == Join(Numbers(s)) && AllTracks(trkno, Numbers(s)) && |Numbers(s)| <= MAXTRACK)
  {
    var list := Numbers(s);
    var found := Found(trkno, list, |trkno|);
    ParseFinds(trkno, s, |trkno|);
    ListedBack(trkno, found);
    FoundAllIff(trkno, list, |trkno|);
    NumbersOfJoin(found);
    var r := Reparsed(trkno, v).1;
    assert r.table[..r.tot] == Indices(trkno, found);
  }

  /** A single number of no track: nothing is entered, and the text stays. */
  lemma {:induction false} SkippedStays(trkno: seq<int>, v: Prog, x: nat)
    requires |trkno| == |v.table| == MAXTRACK && v.text == Some(Decimal(x)) && IndexIn(trkno, |trkno|, x) == MAXTRACK
    ensures Reparsed(trkno, v) == (true, v.(tot := 0))
    ensures Decimal(x) != Join(Listed(trkno, []))
  {
    PrintedFirst(x, "");
    assert Overlay(v.table, []) == v.table;
  }

  class Daemon {
    const trkno: seq<int>           // trkinfo[].trkno
    const totTrks: nat
    const playorder: array<nat>     // trkinfo[].playorder
    var mode: Mode
    var progTot: nat
    var progCnt: nat
    var program: bool
    var shuffle: bool
    var text: Option<string>        // dbp->playorder

    ghost predicate Valid()
      reads this, playorder
    {
      && |trkno| == playorder.Length == MAXTRACK && totTrks < MAXTRACK && progTot <= MAXTRACK
      && (forall k :: 0 <= k < totTrks ==> trkno[k] >= 0)
      && (forall k :: 0 <= k < progTot ==> playorder[k] < MAXTRACK)
    }

    ghost function View(): Prog
      reads this, playorder
    {
      Prog(playorder[..], progTot, program, text)
    }

    predicate Ready()
      reads this
    {
      mode != NoDisc && mode != Busy
    }

    /** The source goes through more than 100 tracks only if one of the first 100 is
        unknown; otherwise it reads behind the arguments and writes behind the table. */
    ghost predicate StaysInBounds(arg: seq<nat>)
      requires |arg| == NARGS && |trkno| == MAXTRACK && totTrks < MAXTRACK
    {
      Count(arg[0]) <= MAXTRACK || Known(trkno, totTrks, Wanted(arg)) < MAXTRACK
    }

    constructor (trkno: seq<int>, totTrks: nat, mode: Mode)
      requires |trkno| == MAXTRACK && totTrks < MAXTRACK && forall k :: 0 <= k < totTrks ==> trkno[k] >= 0
      ensures Valid() && fresh(playorder) && this.trkno == trkno && this.totTrks == totTrks
      ensures progTot == 0 && !program && !shuffle && text == None && this.mode == mode
    {
      this.trkno, this.totTrks, this.mode := trkno, totTrks, mode;
      playorder := new nat[MAXTRACK](_ => 0);
      progTot, progCnt, program, shuffle, text := 0, 0, false, false, None;
    }

    /** The first of `limit` tracks with this number. */
    method Lookup(x: nat, limit: nat) returns (j: nat)
      requires limit <= |trkno|
      ensures j == IndexIn(trkno, limit, x)
    {
      j := 0;
      while j < limit
        invariant j <= limit && forall i :: 0 <= i < j ==> trkno[i] != x
      {
        if trkno[j] == x { break; }
        j := j + 1;
      }
      IndexUnique(trkno, limit, x, j);
    }

    /** Query: the tracks of the program, unless there are too many for a packet. */
    method Query(arg: seq<nat>) returns (ret: Retcode, out: seq<nat>)
      requires Valid() && |arg| == NARGS
      ensures |out| == NARGS && (ret == Done <==> progTot <= NARGS - 2)
      ensures ret != Done ==> ret == Invalid && out == arg
      ensures ret == Done ==>
                && out[0] == progTot && out[1] == progCnt && (progTot == 0 ==> out[2] == MINUS_ONE)
                && (forall i :: 0 <= i < progTot ==> out[i + 2] == Word(trkno[playorder[i]]))
                && (forall k :: 3 <= k < NARGS && progTot + 2 <= k ==> out[k] == arg[k])
    {
      if progTot > NARGS - 2 { return Invalid, arg; }
      out := arg[0 := progTot];
      out := out[1 := progCnt];
      out := out[2 := MINUS_ONE];
      var i := 0;
      while i < progTot
        invariant 0 <= i <= progTot && |out| == NARGS
        invariant out[0] == progTot && out[1] == progCnt && (i == 0 ==> out[2] == MINUS_ONE)
        invariant forall k :: 0 <= k < i ==> out[k + 2] == Word(trkno[playorder[k]])
        invariant forall k :: i + 2 <= k < NARGS && 3 <= k ==> out[k] == arg[k]
      {
        out := out[i + 2 := Word(trkno[playorder[i]])];
        i := i + 1;
      }
      ret := Done;
    }

    /** Clear, without the removal of the stored program. */
    method Clear(arg: seq<nat>) returns (ret: Retcode, out: seq<nat>)
      requires Valid() && |arg| == NARGS
      modifies this`progTot, this`program, this`text
      ensures Valid()
      ensures if shuffle then ret == Invalid && out == arg && View() == old(View())
              else ret == Done && out == arg[1 := 0][2 := WORD - 3] && View() == Prog(old(View()).table, 0, false, None)
    {
      if shuffle { return Invalid, arg; }
      progTot, program, text := 0, false, None;
      ret, out := Done, arg[1 := 0][2 := WORD - 3];
    }

    /** Save, without the storing. */
    method Save(arg: seq<nat>) returns (ret: Retcode, out: seq<nat>)
      requires |arg| == NARGS
      ensures if shuffle then ret == Invalid && out == arg
              else ret == Done && out == arg[0 := 0][2 := if program then WORD - 2 else WORD - 1]
    {
      if shuffle { return Invalid, arg; }
      out := arg[0 := 0][2 := WORD - 2];
      if !program { out := out[2 := WORD - 1]; }
      ret := Done;
    }

    /** Track j becomes entry i, and its number goes to the end of the text. */
    method Enter(i: nat, j: nat)
      requires i < playorder.Length && j < |trkno| && trkno[j] >= 0
      modifies playorder, this`text
      ensures playorder[..] == old(playorder[..])[i := j]
      ensures text == More(old(text), trkno[j])
    {
      playorder[i] := j;
      var num := Decimal(trkno[j]);
      text := if text.None? then Some(num) else Some(text.value + "," + num);
    }

    /** The first `i` tracks of the list are in the table and in the text. */
    ghost predicate EnteredSoFar(table: seq<nat>, list: seq<nat>, i: nat)
      reads this, playorder
    {
      && |trkno| == playorder.Length == |table| == MAXTRACK && totTrks < MAXTRACK
      && (forall k :: 0 <= k < totTrks ==> trkno[k] >= 0)
      && i <= |list| <= MAXTRACK && i <= Known(trkno, totTrks, list)
      && text == TextOf(list[..i]) && playorder[..] == Overlay(table, Indices(trkno, list[..i]))
    }

    /** Enter track i of the list, if the disc has it. */
    method DefineOne(x: nat, i: nat, ghost table: seq<nat>, ghost list: seq<nat>) returns (found: bool)
      requires EnteredSoFar(table, list, i) && i < |list| && x == list[i]
      modifies playorder, this`text
      ensures found ==> EnteredSoFar(table, list, i + 1)
      ensures !found ==> Known(trkno, totTrks, list) == i && EnteredSoFar(table, list, i)
    {
      var j := Lookup(x, totTrks);
      found := j < totTrks;
      if found {
        KnownGoesOn(trkno, totTrks, list, i);
        NextEntry(trkno, totTrks, table, list, i);
        Enter(i, j);
      } else {
        KnownEnds(trkno, totTrks, list, i);
      }
    }

    /** Define: table, count and text as Defined says. */
    method Define(arg: seq<nat>) returns (ret: Retcode)
      requires Valid() && |arg| == NARGS && Signed(arg[0]) < 0 && (!shuffle ==> StaysInBounds(arg))
      modifies this`progTot, this`program, this`text, playorder
      ensures Valid()
      ensures if shuffle then ret == Invalid && View() == old(View())
              else (ret, View()) == Defined(trkno, totTrks, old(View()), Wanted(arg))
    {
      if shuffle { return Invalid; }
      ghost var v := View();
      var n := Count(arg[0]);
      ghost var list := Wanted(arg);
      progTot, program, text := n, true, None;
      assert playorder[..] == Overlay(v.table, Indices(trkno, list[..0]));
      var i := 0;
      while i < n
        invariant 0 <= i <= n && EnteredSoFar(v.table, list, i) && progTot == n && program
      {
        var found := DefineOne(arg[i + 1], i, v.table, list);
        if !found {
          progTot, program := 0, false;
          return ParmErr;
        }
        i := i + 1;
      }
      DefinedAll(trkno, totTrks, v, list);
      EntriesAreTracks(trkno, totTrks, v.table, list);
      ret := Done;
    }

    /** A track that was found becomes the next entry. */
    method EnterFound(j: nat)
      requires |trkno| == playorder.Length == MAXTRACK && progTot < MAXTRACK
      modifies this`progTot, playorder
      ensures progTot == old(progTot) + if j < MAXTRACK then 1 else 0
      ensures playorder[..] == Entered(old(playorder[..]), old(progTot), j)
    {
      if j < MAXTRACK {
        playorder[progTot] := j;
        progTot := progTot + 1;
      }
    }

    /** One pass of the loop of cda_pgm_parse, with the entries `done` made before. */
    method ParseOne(s: string, ghost table: seq<nat>, ghost done: seq<nat>) returns (next: Cut, ghost more: seq<nat>)
      requires |trkno| == playorder.Length == |table| == MAXTRACK && |done| == progTot < MAXTRACK
      requires playorder[..] == Overlay(table, done)
      modifies this`progTot, playorder
      ensures next == NextNumber(s) && |more| == progTot <= MAXTRACK && playorder[..] == Overlay(table, more)
      ensures Behind(done, Parse(trkno, s, |trkno| - |done|))
              == if next.Number? then Behind(more, ParseRest(trkno, next.rest, |trkno| - |more|))
                 else Parsed(more, next.NoMore?)
    {
      next := CutNumber(s);
      more := done;
      if next.Number? {
        var j := Lookup(next.value, |trkno|);
        ParseOnce(trkno, s, |trkno| - |done|, next, j, done);
        OverlayMore(table, done, j);
        EnterFound(j);
        more := Grown(done, j);
      } else {
        ParseEnds(trkno, s, done, |trkno| - |done|);
      }
    }

    /** The loop of cda_pgm_parse: fill the table from its beginning. */
    method FillFrom(text: string) returns (ok: bool)
      requires Valid() && progTot == 0
      modifies this`progTot, playorder
      ensures var r := Parse(trkno, text, |trkno|);
              ok == r.ok && progTot == |r.indices| && playorder[..] == Overlay(old(playorder[..]), r.indices)
    {
      ghost var table, all := playorder[..], Parse(trkno, text, |trkno|);
      ghost var done: seq<nat> := [];
      var rest := Some(text);         // None after the last number
      while progTot < MAXTRACK && rest.Some?
        invariant |done| == progTot <= MAXTRACK && playorder[..] == Overlay(table, done)
        invariant all == Behind(done, ParseRest(trkno, rest, |trkno| - |done|))
        decreases if rest.Some? then |rest.value| + 1 else 0
      {
        var next;
        next, done := ParseOne(rest.value, table, done);
        if !next.Number? { return next.NoMore?; }
        rest := next.rest;
      }
      ParseStops(trkno, rest, done, |trkno| - |done|);
      ok := true;
    }

    /** cda_pgm_parse: the table and its length as Reparsed says.  When numbers of
        no track were skipped the source prints the list anew into a buffer that
        it then frees, so nothing of that remains. */
    method PgmParse() returns (ok: bool)
      requires Valid()
      modifies this`progTot, playorder
      ensures Valid()
      ensures (ok, View()) == Reparsed(trkno, old(View()))
    {
      if text.None? { return true; }
      progTot := 0;
      ok := FillFrom(text.value);
    }

    /** cda_do_program: the sign and value of the first argument choose. */
    method DoProgram(arg: seq<nat>) returns (ret: Retcode, out: seq<nat>)
      requires Valid() && |arg| == NARGS
      requires Signed(arg[0]) < 0 && Ready() && !shuffle ==> StaysInBounds(arg)
      modifies this`progTot, this`program, this`text, playorder
      ensures Valid() && |out| == NARGS
      ensures ret == Invalid <==>
                mode.NoDisc? || mode.Busy? || (Signed(arg[0]) == 1 && old(progTot) > 99)
                || ((Signed(arg[0]) == 2 || Signed(arg[0]) <= 0) && shuffle)
      ensures ret == Invalid ==> View() == old(View()) && out == arg
      ensures Signed(arg[0]) >= 1 ==> View() == old(View())
      ensures Ready() && Signed(arg[0]) > 2 ==> ret == ParmErr && out == arg
      ensures Ready() && Signed(arg[0]) == 2 && !shuffle ==>
                ret == Done && out == arg[0 := 0][2 := if program then WORD - 2 else MINUS_ONE]
      ensures Ready() && Signed(arg[0]) == 1 && progTot <= NARGS - 2 ==>
                && ret == Done && out[0] == progTot && out[1] == progCnt && (progTot == 0 ==> out[2] == MINUS_ONE)
                && forall i :: 0 <= i < progTot ==> out[i + 2] == Word(trkno[playorder[i]])
      ensures Ready() && Signed(arg[0]) == 0 && !shuffle ==>
                ret == Done && out == arg[1 := 0][2 := WORD - 3] && View() == Prog(old(View()).table, 0, false, None)
      ensures Ready() && Signed(arg[0]) < 0 && !shuffle ==>
                out == arg && (ret, View()) == Defined(trkno, totTrks, old(View()), Wanted(arg))
    {
      out := arg;
      if mode.NoDisc? || mode.Busy? {
        ret := Invalid;
      } else if Signed(arg[0]) == 1 {
        ret, out := Query(arg);
      } else if Signed(arg[0]) == 2 {
        ret, out := Save(arg);
      } else if Signed(arg[0]) == 0 {
        ret, out := Clear(arg);
      } else if Signed(arg[0]) < 0 {
        ret := Define(arg);
      } else {
        ret := ParmErr;
      }
    }

    /** Define a program and read its text again, as when the disc comes back. */
    method DefineAndParse(list: seq<nat>, arg: seq<nat>)
      requires Valid() && Ready() && !shuffle
      requires 1 <= |list| <= NARGS - 2 && Known(trkno, totTrks, list) == |list|
      requires |arg| == NARGS && arg[0] == WORD - |list| && arg[1..1 + |list|] == list
      modifies this`progTot, this`program, this`text, playorder
      ensures Valid()
      ensures View() == Prog(Overlay(old(playorder[..]), Indices(trkno, list)), |list|, true, Some(Join(list)))
    {
      ghost var v := View();
      assert Count(arg[0]) == |list| && Wanted(arg) == list;
      DefinedAll(trkno, totTrks, v, list);
      ParseUndoesPrint(trkno, totTrks, v, list);
      var ret, out := DoProgram(arg);
      assert View() == Defined(trkno, totTrks, v, list).1;
      var ok := PgmParse();
    }

    /** Of up to 99 tracks of the disc, a query returns the list that was defined. */
    method DefineParseQuery(list: seq<nat>, arg: seq<nat>) returns (out: seq<nat>)
      requires Valid() && Ready() && !shuffle
      requires 1 <= |list| <= NARGS - 2 && Known(trkno, totTrks, list) == |list|
      requires |arg| == NARGS && arg[0] == WORD - |list| && arg[1..1 + |list|] == list
      requires forall k :: 0 <= k < |list| ==> list[k] < WORD
      modifies this`progTot, this`program, this`text, playorder
      ensures Valid() && progTot == |list| && program && text == Some(Join(list))
      ensures |out| == NARGS && out[0] == |list| && out[2..2 + |list|] == list
    {
      ghost var table := playorder[..];
      DefineAndParse(list, arg);
      QueriedIs(trkno, totTrks, table, list);
      ghost var t := playorder[..];
      assert t == Overlay(table, Indices(trkno, list));
      out := QueryOnly(arg);
      assert playorder[..] == t;
      forall k | 0 <= k < |list| ensures out[k + 2] == list[k] {
        assert playorder[k] == t[k] && trkno[t[k]] == list[k];
        assert Word(list[k]) == list[k];
      }
      SliceIs(out, list);
    }

    /** The query command alone. */
    method QueryOnly(arg: seq<nat>) returns (out: seq<nat>)
      requires Valid() && Ready() && progTot <= NARGS - 2 && |arg| == NARGS
      modifies this`progTot, this`program, this`text, playorder
      ensures Valid() && View() == old(View()) && |out| == NARGS && out[0] == progTot
      ensures forall i :: 0 <= i < progTot ==> out[i + 2] == Word(trkno[playorder[i]])
    {
      var ret;
      ret, out := DoProgram(arg[0 := 1]);
    }
  }

  lemma SliceIs(out: seq<nat>, list: seq<nat>)
    requires |out| == NARGS && |list| <= NARGS - 2 && forall k :: 0 <= k < |list| ==> out[k + 2] == list[k]
    ensures out[2..2 + |list|] == list
  {
  }

  lemma {:induction false} QueriedIs(trkno: seq<int>, tracks: nat, table: seq<nat>, list: seq<nat>)
    requires |trkno| == |table| == MAXTRACK && tracks <= MAXTRACK && |list| <= MAXTRACK
    requires Known(trkno, tracks, list) == |list|
    ensures var t := Overlay(table, Indices(trkno, list));
            forall k :: 0 <= k < |list| ==> t[k] < MAXTRACK && trkno[t[k]] == list[k]
  {
    KnownAreTracks(trkno, tracks, list);
    assert list[..|list|] == list;
  }

  /** Skip p to the next digit. */
  method SkipToDigit(s: string) returns (p: nat)
    ensures p == FirstDigit(s, 0)
  {
    p := 0;
    while p < |s| && !IsDigit(s[p])
      invariant p <= |s| && FirstDigit(s, 0) == FirstDigit(s, p)
    {
      p := p + 1;
    }
  }

  /** Skip q to the next character that is no digit. */
  method SkipDigits(s: string, p: nat) returns (q: nat)
    requires p <= |s|
    ensures q == DigitsEnd(s, p)
  {
    q := p;
    while q < |s| && IsDigit(s[q])
      invariant p <= q <= |s| && DigitsEnd(s, p) == DigitsEnd(s, q)
    {
      q := q + 1;
    }
  }

  /** Find the next number and what follows it. */
  method CutNumber(s: string) returns (r: Cut)
    ensures r == NextNumber(s)
  {
    var p := SkipToDigit(s);
    if p == |s| { return NoMore; }
    var q := SkipDigits(s, p);
    r := CutAt(s, p, q);
  }

  /** The entries made so far, in front of those still to come. */
  function Behind(done: seq<nat>, r: Parsed): Parsed {
    Parsed(done + r.indices, r.ok)
  }

  /** What is still to be parsed; nothing after the last number. */
  function ParseRest(trkno: seq<int>, rest: Option<string>, room: nat): Parsed
    requires |trkno| == MAXTRACK
  {
    match rest
    case None => Parsed([], true)
    case Some(s) => Parse(trkno, s, room)
  }

  /** Only a track that was found is entered. */
  function Grown(done: seq<nat>, j: nat): seq<nat> {
    if j < MAXTRACK then done + [j] else done
  }

  function Entered(table: seq<nat>, at: nat, j: nat): seq<nat>
    requires at < |table|
  {
    if j < MAXTRACK then table[at := j] else table
  }

  lemma {:induction false} ParseOnce(trkno: seq<int>, s: string, room: nat, next: Cut, j: nat, done: seq<nat>)
    requires |trkno| == MAXTRACK && room > 0 && next == NextNumber(s) && next.Number?
    requires j == IndexIn(trkno, |trkno|, next.value)
    ensures Behind(done, Parse(trkno, s, room))
            == Behind(Grown(done, j), ParseRest(trkno, next.rest, if j < MAXTRACK then room - 1 else room))
  {
    var rest := ParseRest(trkno, next.rest, if j < MAXTRACK then room - 1 else room);
    assert Parse(trkno, s, room) == ProgramText.Enter(j, rest);
    assert done + ([j] + rest.indices) == done + [j] + rest.indices;
  }

  lemma {:induction false} ParseEnds(trkno: seq<int>, s: string, done: seq<nat>, room: nat)
    requires |trkno| == MAXTRACK && room > 0 && !NextNumber(s).Number?
    ensures Behind(done, Parse(trkno, s, room)) == Parsed(done, NextNumber(s).NoMore?)
  {
  }

  lemma ParseStops(trkno: seq<int>, rest: Option<string>, done: seq<nat>, room: nat)
    requires |trkno| == MAXTRACK && (room == 0 || rest.None?)
    ensures Behind(done, ParseRest(trkno, rest, room)) == Parsed(done, true)
  {
  }

  lemma {:induction false} OverlayMore(table: seq<nat>, done: seq<nat>, j: nat)
    requires |done| < |table|
    ensures Overlay(table, Grown(done, j)) == Entered(Overlay(table, done), |done|, j)
  {
  }

  /** The text with one more number. */
  function More(text: Option<string>, x: nat): Option<string> {
    match text
    case None => Some(Decimal(x))
    case Some(s) => Some(s + "," + Decimal(x))
  }

  lemma {:induction false} DefinedAll(trkno: seq<int>, tracks: nat, v: Prog, list: seq<nat>)
    requires |trkno| == |v.table| == MAXTRACK && tracks <= MAXTRACK && |list| <= MAXTRACK
    requires Known(trkno, tracks, list) == |list|
    ensures list[..|list|] == list
    ensures Defined(trkno, tracks, v, list)
            == (Done, Prog(Overlay(v.table, Indices(trkno, list)), |list|, true, TextOf(list)))
  {
    assert list[..|list|] == list;
  }

  lemma {:induction false} EntriesAreTracks(trkno: seq<int>, tracks: nat, table: seq<nat>, list: seq<nat>)
    requires |trkno| == |table| == MAXTRACK && tracks <= MAXTRACK && |list| <= MAXTRACK
    requires Known(trkno, tracks, list) == |list|
    ensures forall k :: 0 <= k < |list| ==> Overlay(table, Indices(trkno, list))[k] < MAXTRACK
  {
    KnownAreTracks(trkno, tracks, list);
    assert list[..|list|] == list;
  }

  lemma {:induction false} IndexUnique(trkno: seq<int>, limit: nat, x: int, j: nat)
    requires j <= limit <= |trkno| && (j < limit ==> trkno[j] == x) && forall i :: 0 <= i < j ==> trkno[i] != x
    ensures IndexIn(trkno, limit, x) == j
  {
  }

  lemma {:induction false} KnownEnds(trkno: seq<int>, tracks: nat, list: seq<nat>, i: nat)
    requires tracks <= |trkno| && i < |list| && i <= Known(trkno, tracks, list)
    requires IndexIn(trkno, tracks, list[i]) == tracks
    ensures Known(trkno, tracks, list) == i
  {
  }

  lemma {:induction false} KnownGoesOn(trkno: seq<int>, tracks: nat, list: seq<nat>, i: nat)
    requires tracks <= |trkno| && i < |list| && i <= Known(trkno, tracks, list)
    requires IndexIn(trkno, tracks, list[i]) < tracks
    ensures i + 1 <= Known(trkno, tracks, list)
  {
  }

  /** Entering track i of the list. */
  lemma {:induction false} NextEntry(trkno: seq<int>, tracks: nat, table: seq<nat>, list: seq<nat>, i: nat)
    requires |trkno| == |table| == MAXTRACK && tracks <= MAXTRACK && i < |list| <= MAXTRACK
    requires IndexIn(trkno, tracks, list[i]) < tracks
    ensures var j := IndexIn(trkno, tracks, list[i]);
            && trkno[j] == list[i]
            && Overlay(table, Indices(trkno, list[..i]))[i := j] == Overlay(table, Indices(trkno, list[..i + 1]))
    ensures TextOf(list[..i + 1])
            == More(TextOf(list[..i]), list[i])
  {
    KnownIsFound(trkno, tracks, list[i]);
    assert list[..i + 1][..i] == list[..i];
    assert Indices(trkno, list[..i + 1]) == Indices(trkno, list[..i]) + [IndexIn(trkno, |trkno|, list[i])];
  }
}

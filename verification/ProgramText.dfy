/** The text of a track program: printing a list of tracks and parsing it back. */
module ProgramText {
  import opened Basics

  const MAXTRACK := 100

  predicate IsDigit(c: char) {
    '0' <= c <= '9'
  }

  function Digit(n: nat): char
    requires n < 10
  {
    (n + '0' as int) as char
  }

  /** "%d" of a number that is not negative. */
  function Decimal(n: nat): (r: string)
    ensures r != "" && forall i :: 0 <= i < |r| ==> IsDigit(r[i])
  {
    if n < 10 then [Digit(n)] else Decimal(n / 10) + [Digit(n % 10)]
  }

  function DigitValue(c: char): nat
    requires IsDigit(c)
  {
    c as int - '0' as int
  }

  /** atoi of a run of digits. */
  function Value(s: string): nat
    requires forall i :: 0 <= i < |s| ==> IsDigit(s[i])
  {
    if s == "" then 0 else 10 * Value(s[..|s| - 1]) + DigitValue(s[|s| - 1])
  }

  lemma {:induction false} DecimalBack(n: nat)
    ensures Value(Decimal(n)) == n
  {
    if n >= 10 {
      DecimalBack(n / 10);
      assert Decimal(n)[..|Decimal(n)| - 1] == Decimal(n / 10);
    }
  }

  function Pow10(n: nat): nat {
    if n == 0 then 1 else 10 * Pow10(n - 1)
  }

  /** Digits count by their places. */
  lemma {:induction false} PlaceValue(a: string, b: string)
    requires forall i :: 0 <= i < |a| ==> IsDigit(a[i])
    requires forall i :: 0 <= i < |b| ==> IsDigit(b[i])
    ensures Value(a + b) == Value(a) * Pow10(|b|) + Value(b)
    ensures |b| == 1 ==> Value(b) == b[0] as int - '0' as int
    decreases |b|
  {
    if b == "" {
      assert a + b == a;
    } else {
      var n := |b| - 1;
      PlaceValue(a, b[..n]);
      assert Value(a + b) == 10 * Value(a + b[..n]) + DigitValue(b[n]) by {
        assert (a + b)[..|a + b| - 1] == a + b[..n];
      }
      TenTimes(Value(a), Pow10(n));
    }
  }

  lemma TenTimes(x: int, y: int)
    ensures x * (10 * y) == 10 * (x * y)
  {
  }

  // ---- the parser ----

  /** The first digit at or behind `from`, or the end. */
  function FirstDigit(s: string, from: nat): (r: nat)
    requires from <= |s|
    ensures from <= r <= |s| && (r < |s| ==> IsDigit(s[r]))
    ensures forall i :: from <= i < r ==> !IsDigit(s[i])
    decreases |s| - from
  {
    if from == |s| || IsDigit(s[from]) then from else FirstDigit(s, from + 1)
  }

  /** The end of the run of digits at `from`. */
  function DigitsEnd(s: string, from: nat): (r: nat)
    requires from <= |s|
    ensures from <= r <= |s| && (r < |s| ==> !IsDigit(s[r]))
    ensures forall i :: from <= i < r ==> IsDigit(s[i])
    decreases |s| - from
  {
    if from == |s| || !IsDigit(s[from]) then from else DigitsEnd(s, from + 1)
  }

  /** The first of `limit` tracks with this number, or `limit`. */
  function IndexIn(trkno: seq<int>, limit: nat, x: int): (r: nat)
    requires limit <= |trkno|
    ensures r <= limit && (r < limit ==> trkno[r] == x)
    ensures forall i :: 0 <= i < r ==> trkno[i] != x
    decreases limit
  {
    if limit == 0 then 0
    else
      var r := IndexIn(trkno, limit - 1, x);
      if r < limit - 1 || trkno[limit - 1] == x then r else limit
  }

  /** The next number of a text, and the text behind the comma that ends it. */
  datatype Cut = NoMore | Bad | Number(value: nat, rest: Option<string>)

  function CutAt(s: string, a: nat, b: nat): Cut
    requires a <= b <= |s| && forall i :: a <= i < b ==> IsDigit(s[i])
  {
    if b == |s| then Number(Value(s[a..b]), None)
    else if s[b] == ',' then Number(Value(s[a..b]), Some(s[b + 1..]))
    else Bad
  }

  function NextNumber(s: string): (r: Cut)
    ensures r.Number? && r.rest.Some? ==> |r.rest.value| < |s|
  {
    var a := FirstDigit(s, 0);
    if a == |s| then NoMore else CutAt(s, a, DigitsEnd(s, a))
  }

  /** The table entries a text leads to, and whether it was read to its end. */
  datatype Parsed = Parsed(indices: seq<nat>, ok: bool)

  /** Numbers end at a comma or the end; numbers of no track are skipped; the
      table has room for `room` more entries. */
  function Parse(trkno: seq<int>, s: string, room: nat): (r: Parsed)
    requires |trkno| == MAXTRACK
    ensures |r.indices| <= room && forall i :: 0 <= i < |r.indices| ==> r.indices[i] < MAXTRACK
    decreases |s|
  {
    if room == 0 then Parsed([], true)
    else
      match NextNumber(s)
      case NoMore => Parsed([], true)
      case Bad => Parsed([], false)
      case Number(value, None) => Enter(IndexIn(trkno, |trkno|, value), Parsed([], true))
      case Number(value, Some(t)) =>
        var j := IndexIn(trkno, |trkno|, value);
        Enter(j, Parse(trkno, t, if j < MAXTRACK then room - 1 else room))
  }

  /** A track that was found goes into the table. */
  function Enter(j: nat, rest: Parsed): Parsed {
    if j < MAXTRACK then Parsed([j] + rest.indices, rest.ok) else rest
  }

  /** No digit is followed by anything but a digit or a comma. */
  predicate WellFormed(s: string) {
    forall i :: 0 <= i < |s| - 1 && IsDigit(s[i]) ==> IsDigit(s[i + 1]) || s[i + 1] == ','
  }

  /** A text is refused only if some number runs into another character; and, while
      the table has room, whenever one does. */
  lemma {:induction false} RefusedIff(trkno: seq<int>, s: string, room: nat)
    requires |trkno| == MAXTRACK
    ensures var r := Parse(trkno, s, room);
            && (!r.ok ==> !WellFormed(s))
            && (|r.indices| < room ==> (r.ok <==> WellFormed(s)))
    decreases |s|
  {
    CutTells(s);
    if room > 0 {
      match NextNumber(s) {
        case Number(value, Some(t)) =>
          var j := IndexIn(trkno, |trkno|, value);
          RefusedIff(trkno, t, if j < MAXTRACK then room - 1 else room);
        case _ =>
      }
    }
  }

  lemma {:induction false} CutTells(s: string)
    ensures match NextNumber(s)
            case NoMore => WellFormed(s)
            case Bad => !WellFormed(s)
            case Number(_, None) => WellFormed(s)
            case Number(_, Some(t)) => WellFormed(s) <==> WellFormed(t)
  {
    var a := FirstDigit(s, 0);
    if a < |s| {
      RunEnds(s, a, DigitsEnd(s, a));
    }
  }

  lemma {:induction false} RunEnds(s: string, a: nat, b: nat)
    requires a < b <= |s| && (forall i :: 0 <= i < a ==> !IsDigit(s[i])) && (forall i :: a <= i < b ==> IsDigit(s[i]))
    ensures b == |s| ==> WellFormed(s)
    ensures b < |s| && !IsDigit(s[b]) && s[b] != ',' ==> !WellFormed(s)
    ensures b < |s| && s[b] == ',' ==> (WellFormed(s) <==> WellFormed(s[b + 1..]))
  {
    if b < |s| {
      assert IsDigit(s[b - 1]);
      var t := s[b + 1..];
      assert forall i :: 0 <= i < |t| ==> t[i] == s[i + b + 1];
      if s[b] == ',' && WellFormed(t) {
        forall i | 0 <= i < |s| - 1 && IsDigit(s[i]) ensures IsDigit(s[i + 1]) || s[i + 1] == ',' {
          if i > b { assert IsDigit(t[i - b - 1]); }
        }
      }
    }
  }

  // ---- printing and parsing back ----

  /** Numbers with commas between them. */
  function Join(list: seq<nat>): string {
    if list == [] then ""
    else if |list| == 1 then Decimal(list[0])
    else Join(list[..|list| - 1]) + "," + Decimal(list[|list| - 1])
  }

  lemma {:induction false} JoinCons(x: nat, rest: seq<nat>)
    requires rest != []
    ensures Join([x] + rest) == Decimal(x) + "," + Join(rest)
    decreases |rest|
  {
    var n := |rest|;
    assert ([x] + rest)[..n] == [x] + rest[..n - 1];
    if n == 1 {
      assert [x] + rest[..0] == [x];
    } else {
      JoinCons(x, rest[..n - 1]);
    }
  }

  lemma {:induction false} RunIs(digits: string, rest: string)
    requires digits != "" && (forall i :: 0 <= i < |digits| ==> IsDigit(digits[i]))
    requires rest == "" || rest[0] == ','
    ensures FirstDigit(digits + rest, 0) == 0 && DigitsEnd(digits + rest, 0) == |digits|
  {
    var s := digits + rest;
    assert forall i :: 0 <= i < |digits| ==> s[i] == digits[i];
    assert rest != "" ==> s[|digits|] == rest[0];
    assert IsDigit(s[0]);
  }

  /** The next number of a printed list is its first. */
  lemma {:induction false} PrintedFirst(x: nat, rest: string)
    ensures NextNumber(Decimal(x)) == Number(x, None)
    ensures NextNumber(Decimal(x) + "," + rest) == Number(x, Some(rest))
  {
    var d := Decimal(x);
    DecimalBack(x);
    RunIs(d, "");
    assert d + "" == d && d[0..|d|] == d;
    var s := d + "," + rest;
    RunIs(d, "," + rest);
    assert s == d + ("," + rest) && s[0..|d|] == d && s[|d| + 1..] == rest;
  }

  function Indices(trkno: seq<int>, list: seq<nat>): (r: seq<nat>)
    requires |trkno| == MAXTRACK
    ensures |r| == |list|
  {
    seq<nat>(|list|, k requires 0 <= k < |list| => IndexIn(trkno, |trkno|, list[k]))
  }

  predicate AllTracks(trkno: seq<int>, list: seq<nat>)
    requires |trkno| == MAXTRACK
  {
    forall k :: 0 <= k < |list| ==> IndexIn(trkno, |trkno|, list[k]) < MAXTRACK
  }

  lemma IndicesCons(trkno: seq<int>, x: nat, rest: seq<nat>)
    requires |trkno| == MAXTRACK
    ensures Indices(trkno, [x] + rest) == [IndexIn(trkno, |trkno|, x)] + Indices(trkno, rest)
    ensures AllTracks(trkno, [x] + rest) ==> IndexIn(trkno, |trkno|, x) < MAXTRACK && AllTracks(trkno, rest)
  {
    var list := [x] + rest;
    assert list[0] == x && forall k :: 0 <= k < |rest| ==> list[k + 1] == rest[k];
  }

  /** What the parser makes of the text of a list. */
  function Reread(trkno: seq<int>, list: seq<nat>, room: nat): Parsed
    requires |trkno| == MAXTRACK
  {
    Parse(trkno, Join(list), room)
  }

  lemma {:induction false} ParseOne(trkno: seq<int>, list: seq<nat>, room: nat)
    requires |trkno| == MAXTRACK && AllTracks(trkno, list) && 1 == |list| <= room
    ensures Reread(trkno, list, room) == Parsed(Indices(trkno, list), true)
  {
    assert list == [list[0]] + [] && Join(list) == Decimal(list[0]);
    IndicesCons(trkno, list[0], []);
    PrintedFirst(list[0], "");
  }

  lemma {:induction false} ParseCons(trkno: seq<int>, list: seq<nat>, room: nat)
    requires |trkno| == MAXTRACK && AllTracks(trkno, list) && 1 < |list| <= room
    requires Reread(trkno, list[1..], room - 1) == Parsed(Indices(trkno, list[1..]), true)
    ensures Reread(trkno, list, room) == Parsed(Indices(trkno, list), true)
  {
    var x, rest := list[0], list[1..];
    assert list == [x] + rest;
    IndicesCons(trkno, x, rest);
    PrintedFirst(x, Join(rest));
    JoinCons(x, rest);
  }

  lemma LaterAreTracks(trkno: seq<int>, list: seq<nat>)
    requires |trkno| == MAXTRACK && |list| >= 1 && AllTracks(trkno, list)
    ensures AllTracks(trkno, list[1..])
  {
  }

  /** What Define prints, the parser turns back into the same table. */
  lemma {:induction false} ParseJoin(trkno: seq<int>, list: seq<nat>, room: nat)
    requires |trkno| == MAXTRACK && AllTracks(trkno, list) && 1 <= |list| <= room
    ensures Reread(trkno, list, room) == Parsed(Indices(trkno, list), true)
    decreases |list|
  {
    if |list| == 1 {
      ParseOne(trkno, list, room);
    } else {
      LaterAreTracks(trkno, list);
      ParseJoin(trkno, list[1..], room - 1);
      ParseCons(trkno, list, room);
    }
  }

  // ---- which numbers of a text get into the table ----

  /** The numbers of a text up to its end or to the place where it is refused. */
  function Numbers(s: string): seq<nat>
    decreases |s|
  {
    match NextNumber(s)
    case Number(value, None) => [value]
    case Number(value, Some(t)) => [value] + Numbers(t)
    case _ => []
  }

  lemma {:induction false} NumbersOfJoin(list: seq<nat>)
    ensures Numbers(Join(list)) == list
    decreases |list|
  {
    if |list| > 0 {
      var x, rest := list[0], list[1..];
      assert list == [x] + rest;
      PrintedFirst(x, Join(rest));
      if |rest| == 0 {
        assert Join(list) == Decimal(x);
      } else {
        JoinCons(x, rest);
        NumbersOfJoin(rest);
      }
    }
  }

  /** Those that are tracks, as far as there is room. */
  function Found(trkno: seq<int>, list: seq<nat>, room: nat): (r: seq<nat>)
    requires |trkno| == MAXTRACK
    ensures |r| <= |list| && |r| <= room
    ensures forall k :: 0 <= k < |r| ==> IndexIn(trkno, |trkno|, r[k]) < MAXTRACK
  {
    if list == [] || room == 0 then []
    else if IndexIn(trkno, |trkno|, list[0]) < MAXTRACK then [list[0]] + Found(trkno, list[1..], room - 1)
    else Found(trkno, list[1..], room)
  }

  lemma {:induction false} FoundAllIff(trkno: seq<int>, list: seq<nat>, room: nat)
    requires |trkno| == MAXTRACK
    ensures Found(trkno, list, room) == list <==> AllTracks(trkno, list) && |list| <= room
    decreases |list|
  {
    if list != [] && room > 0 {
      var x, rest := list[0], list[1..];
      assert list == [x] + rest;
      if IndexIn(trkno, |trkno|, x) < MAXTRACK {
        FoundAllIff(trkno, rest, room - 1);
        var f := Found(trkno, rest, room - 1);
        assert Found(trkno, list, room) == [x] + f;
        assert ([x] + f)[1..] == f;
        assert AllTracks(trkno, list) <==> AllTracks(trkno, rest) by {
          assert forall k :: 0 <= k < |rest| ==> rest[k] == list[k + 1];
        }
      } else {
        assert !AllTracks(trkno, list);
      }
    }
  }

  lemma {:induction false} ParseFinds(trkno: seq<int>, s: string, room: nat)
    requires |trkno| == MAXTRACK
    ensures Parse(trkno, s, room).indices == Indices(trkno, Found(trkno, Numbers(s), room))
    decreases |s|
  {
    if room > 0 {
      match NextNumber(s) {
        case Number(value, rest) =>
          var j := IndexIn(trkno, |trkno|, value);
          var more := if j < MAXTRACK then room - 1 else room;
          var behind := if rest.None? then [] else Numbers(rest.value);
          if rest.Some? { ParseFinds(trkno, rest.value, more); }
          FoundCons(trkno, value, behind, room);
        case _ =>
      }
    }
  }

  lemma {:induction false} FoundCons(trkno: seq<int>, x: nat, rest: seq<nat>, room: nat)
    requires |trkno| == MAXTRACK && room > 0
    ensures var j := IndexIn(trkno, |trkno|, x);
            Indices(trkno, Found(trkno, [x] + rest, room))
            == if j < MAXTRACK then [j] + Indices(trkno, Found(trkno, rest, room - 1))
               else Indices(trkno, Found(trkno, rest, room))
  {
    assert ([x] + rest)[1..] == rest;
    IndicesCons(trkno, x, Found(trkno, rest, room - 1));
  }
}

/** Channel routing, attenuation and byte order of the samples on their way out. */
module Samples {
  import opened Basics

  newtype Sample = x: int | -0x8000 <= x < 0x8000

  datatype Routing = Normal | Reverse | LeftMono | RightMono | Mono | Unknown

  datatype Frame = Frame(left: Sample, right: Sample)

  // ---- C arithmetic ----

  /** Division rounds towards zero. */
  function CDiv(a: int, b: int): int
    requires b > 0
  {
    if a >= 0 then a / b else -((-a) / b)
  }

  /** The cast to 16 bits keeps the low bits. */
  function Cast16(x: int): Sample {
    var low := x % 0x1_0000;
    (if low < 0x8000 then low else low - 0x1_0000) as Sample
  }

  /** An arithmetic shift rounds down. */
  function HalfDown(x: int): int {
    x / 2
  }

  // ---- what the routine means ----

  function Attenuate(x: Sample, att: int): Sample {
    if att >= 100 then x else Cast16(CDiv(x as int * att, 100))
  }

  function Average(f: Frame): Sample {
    HalfDown(f.left as int + f.right as int) as Sample
  }

  function Route(routing: Routing, f: Frame): Frame {
    match routing
    case Normal | Unknown => f
    case Reverse => Frame(f.right, f.left)
    case LeftMono => Frame(f.left, f.left)
    case RightMono => Frame(f.right, f.right)
    case Mono => Frame(Average(f), Average(f))
  }

  /** One function of each frame: attenuate both channels, then route them. */
  function Process(routing: Routing, att: int, f: Frame): Frame {
    if routing == Unknown then f
    else Route(routing, Frame(Attenuate(f.left, att), Attenuate(f.right, att)))
  }

  function FrameAt(data: seq<Sample>, i: nat): Frame
    requires 2 * i + 1 < |data|
  {
    Frame(data[2 * i], data[2 * i + 1])
  }

  /** What each routing makes of two attenuated channels. */
  predicate Heard(routing: Routing, l: Sample, r: Sample, l': Sample, r': Sample) {
    match routing
    case Normal | Unknown => l' == l && r' == r
    case Reverse => l' == r && r' == l
    case LeftMono => l' == l && r' == l
    case RightMono => l' == r && r' == r
    case Mono => l' == r' && 2 * (l' as int) <= l as int + r as int < 2 * (l' as int) + 2
  }

  /** gen_chroute_att, in place; samples behind the last whole frame stay. */
  method ChrouteAtt(routing: Routing, att: int, data: array<Sample>)
    modifies data
    ensures routing == Unknown ==> data[..] == old(data[..])
    ensures routing != Unknown ==> forall i :: 0 <= i < data.Length / 2 ==>
              Heard(routing, Attenuate(old(data[2 * i]), att), Attenuate(old(data[2 * i + 1]), att),
                    data[2 * i], data[2 * i + 1])
    ensures forall i :: 0 <= i < data.Length / 2 ==>
              FrameAt(data[..], i) == Process(routing, att, FrameAt(old(data[..]), i))
    ensures data.Length % 2 == 1 ==> data[data.Length - 1] == old(data[data.Length - 1])
  {
    var samples := data.Length / 2;
    if routing == Unknown || (routing == Normal && att >= 100) { return; }
    var i := 0;
    while i < samples
      invariant 0 <= i <= samples
      invariant forall k :: 0 <= k < i ==>
                  FrameAt(data[..], k) == Process(routing, att, FrameAt(old(data[..]), k))
      invariant forall k :: 2 * i <= k < data.Length ==> data[k] == old(data[k])
    {
      var l := 2 * i;
      var r := l + 1;
      data[l], data[r] := OneFrame(routing, att, data[l], data[r]);
      i := i + 1;
    }
    forall k | 0 <= k < samples && routing != Unknown
      ensures Heard(routing, Attenuate(old(data[2 * k]), att), Attenuate(old(data[2 * k + 1]), att),
                    data[2 * k], data[2 * k + 1])
    {
      assert FrameAt(data[..], k) == Process(routing, att, FrameAt(old(data[..]), k));
      RoutedIs(routing, att, FrameAt(old(data[..]), k));
    }
  }

  lemma RoutedIs(routing: Routing, att: int, f: Frame)
    requires routing != Unknown
    ensures var g := Process(routing, att, f);
            Heard(routing, Attenuate(f.left, att), Attenuate(f.right, att), g.left, g.right)
  {
  }

  /** The body of the loops: each routing fetches only the channels it needs. */
  method OneFrame(routing: Routing, att: int, l: Sample, r: Sample) returns (l': Sample, r': Sample)
    requires routing != Unknown
    ensures Frame(l', r') == Process(routing, att, Frame(l, r))
  {
    match routing {
      case Normal =>
        l' := ScaleDown(l, att);
        r' := ScaleDown(r, att);
      case Reverse =>
        r' := ScaleDown(l, att);
        l' := ScaleDown(r, att);
      case LeftMono =>
        l' := ScaleDown(l, att);
        r' := l';
      case RightMono =>
        r' := ScaleDown(r, att);
        l' := r';
      case Mono =>
        var temp1 := ScaleDown(l, att);
        var temp2 := ScaleDown(r, att);
        l' := HalfDown(temp1 as int + temp2 as int) as Sample;
        r' := l';
    }
  }

  method ScaleDown(x: Sample, att: int) returns (y: Sample)
    ensures y == Attenuate(x, att)
  {
    if att == 0 {
      y := 0;
    } else if att < 100 {
      y := Cast16(CDiv(x as int * att, 100));
    } else {
      y := x;
    }
  }

  // ---- what it keeps ----

  function Size(x: Sample): nat {
    Abs(x as int)
  }

  function Loudest(f: Frame): nat {
    if Size(f.left) >= Size(f.right) then Size(f.left) else Size(f.right)
  }

  /** Within the range of the control no cast cuts anything off: the size is
      exactly the share of the old size, rounded down, with the sign kept. */
  lemma {:induction false} AttenuateIs(x: Sample, att: int)
    requires 0 <= att <= 100
    ensures var y := Attenuate(x, att);
            && 100 * Size(y) <= Size(x) * att < 100 * Size(y) + 100
            && (x >= 0 ==> y >= 0) && (x <= 0 ==> y <= 0)
  {
    ShareBounds(Size(x), att);
    var product := x as int * att;
    if x < 0 {
      assert -product == Size(x) * att;
    }
  }

  lemma {:induction false} ShareBounds(size: nat, att: int)
    requires 0 <= att <= 100
    ensures 0 <= size * att <= 100 * size
  {
    assert size * (100 - att) >= 0;
  }

  /** No output is larger in size than the larger input channel. */
  lemma {:induction false} NeverLouder(routing: Routing, att: int, f: Frame)
    requires 0 <= att <= 100
    ensures Loudest(Process(routing, att, f)) <= Loudest(f)
  {
    AttenuateIs(f.left, att);
    AttenuateIs(f.right, att);
    ShareBounds(Size(f.left), att);
    ShareBounds(Size(f.right), att);
  }

  /** A lower setting is never louder, channel by channel of the same sample. */
  lemma {:induction false} AttenuateMonotone(x: Sample, a: int, b: int)
    requires 0 <= a <= b <= 100
    ensures Size(Attenuate(x, a)) <= Size(Attenuate(x, b))
  {
    AttenuateIs(x, a);
    AttenuateIs(x, b);
    ProductGrows(Size(x), a, b);
    SharesGrow(Size(x) * a, Size(x) * b, Size(Attenuate(x, a)), Size(Attenuate(x, b)));
  }

  lemma ProductGrows(size: nat, a: int, b: int)
    requires a <= b
    ensures size * a <= size * b
  {
    assert size * (b - a) >= 0;
  }

  lemma SharesGrow(p: int, q: int, i: int, j: int)
    requires p <= q && 100 * i <= p && q < 100 * j + 100
    ensures i <= j
  {
  }

  // ---- byte order ----

  function Swapped(s: seq<Byte>): (r: seq<Byte>)
    requires |s| % 2 == 0
    ensures |r| == |s|
  {
    seq(|s|, i requires 0 <= i < |s| => if i % 2 == 0 then s[i + 1] else s[i - 1])
  }

  /** gen_byteswap */
  method ByteSwap(src: array<Byte>, tgt: array<Byte>, len: nat)
    requires src != tgt && len % 2 == 0 && len <= src.Length && len <= tgt.Length
    modifies tgt
    ensures tgt[..len] == Swapped(src[..len]) && tgt[len..] == old(tgt[len..])
  {
    var i := 0;
    while i < len
      invariant 0 <= i <= len && i % 2 == 0
      invariant forall k :: 0 <= k < i ==> tgt[k] == Swapped(src[..len])[k]
      invariant tgt[len..] == old(tgt[len..])
    {
      tgt[i] := src[i + 1];
      tgt[i + 1] := src[i];
      i := i + 2;
    }
  }

  function LittleAt(s: seq<Byte>, i: nat): Sample
    requires 2 * i + 1 < |s|
  {
    Cast16(s[2 * i] as int + 256 * s[2 * i + 1] as int)
  }

  function BigAt(s: seq<Byte>, i: nat): Sample
    requires 2 * i + 1 < |s|
  {
    Cast16(256 * s[2 * i] as int + s[2 * i + 1] as int)
  }

  /** A big-endian reader finds in the swapped bytes the samples a little-endian
      reader finds in the original, and swapping again gives the original back. */
  lemma {:induction false} SwapKeepsSamples(s: seq<Byte>)
    requires |s| % 2 == 0
    ensures forall i :: 0 <= i < |s| / 2 ==> BigAt(Swapped(s), i) == LittleAt(s, i)
    ensures Swapped(Swapped(s)) == s
  {
    forall i | 0 <= i < |s| / 2 ensures BigAt(Swapped(s), i) == LittleAt(s, i) {
      assert Swapped(s)[2 * i] == s[2 * i + 1] && Swapped(s)[2 * i + 1] == s[2 * i];
    }
  }
}

/** What a chunk becomes on its way to a file: processed samples in the file's byte order. */
module Outgoing {
  import opened Basics
  import opened Samples

  function Low(x: Sample): Byte {
    (x as int % 256) as Byte
  }

  function High(x: Sample): Byte {
    (x as int / 256 % 256) as Byte
  }

  lemma BytesBack(x: Sample)
    ensures Cast16(Low(x) as int + 256 * High(x) as int) == x
  {
  }

  lemma ValueBack(low: Byte, high: Byte)
    ensures Low(Cast16(low as int + 256 * high as int)) == low
    ensures High(Cast16(low as int + 256 * high as int)) == high
  {
  }

  /** Frame i of a chunk, whose samples are little-endian. */
  function FrameOf(chunk: Chunk, i: nat): Frame
    requires 4 * i + 3 < |chunk|
  {
    Frame(LittleAt(chunk, 2 * i), LittleAt(chunk, 2 * i + 1))
  }

  function ByteOf(f: Frame, q: nat): Byte
    requires q < 4
  {
    match q
    case 0 => Low(f.left)
    case 1 => High(f.left)
    case 2 => Low(f.right)
    case 3 => High(f.right)
  }

  /** Where the volume and the routing stand while a chunk is processed. */
  datatype Control = Control(routing: Routing, att: int)

  /** gen_chroute_att on a chunk as bytes. */
  function Processed(control: Control, chunk: Chunk): (r: seq<Byte>)
    requires |chunk| % 4 == 0
    ensures |r| == |chunk|
  {
    seq(|chunk|, x requires 0 <= x < |chunk| =>
      ByteOf(Process(control.routing, control.att, FrameOf(chunk, x / 4)), x % 4))
  }

  /** What goes to the file. */
  function Output(control: Control, big: bool, chunk: Chunk): (r: seq<Byte>)
    requires |chunk| % 4 == 0
    ensures |r| == |chunk|
  {
    if big then Swapped(Processed(control, chunk)) else Processed(control, chunk)
  }

  function SampleAt(s: seq<Byte>, i: nat, big: bool): Sample
    requires 2 * i + 1 < |s|
  {
    if big then BigAt(s, i) else LittleAt(s, i)
  }

  lemma {:induction false} ProcessedByte(control: Control, chunk: Chunk, i: nat, q: nat)
    requires |chunk| % 4 == 0 && 4 * i + 3 < |chunk| && q < 4
    ensures Processed(control, chunk)[4 * i + q]
            == ByteOf(Process(control.routing, control.att, FrameOf(chunk, i)), q)
  {
    assert (4 * i + q) / 4 == i && (4 * i + q) % 4 == q;
  }

  lemma {:induction false} ProcessedFrame(control: Control, chunk: Chunk, i: nat)
    requires |chunk| % 4 == 0 && 4 * i + 3 < |chunk|
    ensures FrameOf(Processed(control, chunk), i) == Process(control.routing, control.att, FrameOf(chunk, i))
  {
    var r := Processed(control, chunk);
    var f := Process(control.routing, control.att, FrameOf(chunk, i));
    ProcessedByte(control, chunk, i, 0);
    ProcessedByte(control, chunk, i, 1);
    ProcessedByte(control, chunk, i, 2);
    ProcessedByte(control, chunk, i, 3);
    FrameOfBytes(r, i, f);
  }

  /** Four bytes of a frame, read back. */
  lemma FrameOfBytes(r: seq<Byte>, i: nat, f: Frame)
    requires 4 * i + 3 < |r| && r[4 * i + 0] == Low(f.left) && r[4 * i + 1] == High(f.left)
    requires r[4 * i + 2] == Low(f.right) && r[4 * i + 3] == High(f.right)
    ensures FrameOf(r, i) == f
  {
    BytesBack(f.left);
    BytesBack(f.right);
  }

  /** A reader of the file's byte order finds in every frame the processed frame of
      the chunk. */
  lemma {:induction false} OutputFrame(control: Control, big: bool, chunk: Chunk, i: nat)
    requires |chunk| % 4 == 0 && 4 * i + 3 < |chunk|
    ensures var out := Output(control, big, chunk);
            Frame(SampleAt(out, 2 * i, big), SampleAt(out, 2 * i + 1, big))
            == Process(control.routing, control.att, FrameOf(chunk, i))
  {
    var p, left, right := Processed(control, chunk), 2 * i, 2 * i + 1;
    SameSample(p, big, left);
    SameSample(p, big, right);
    var out := if big then Swapped(p) else p;
    assert Output(control, big, chunk) == out;
    assert FrameOf(p, i) == Frame(LittleAt(p, left), LittleAt(p, right));
    ProcessedFrame(control, chunk, i);
  }

  lemma {:induction false} SameSample(s: seq<Byte>, big: bool, i: nat)
    requires |s| % 2 == 0 && 2 * i + 1 < |s|
    ensures SampleAt(if big then Swapped(s) else s, i, big) == LittleAt(s, i)
  {
    if big {
      SwapKeepsSamples(s);
    }
  }

  /** At full volume, without routing and without swapping, a chunk goes out as it is. */
  lemma {:induction false} PlainOutput(control: Control, chunk: Chunk)
    requires |chunk| % 4 == 0 && control.routing == Normal && control.att >= 100
    ensures Output(control, false, chunk) == chunk
  {
    forall x | 0 <= x < |chunk| ensures Processed(control, chunk)[x] == chunk[x] {
      var i := x / 4;
      ValueBack(chunk[4 * i], chunk[4 * i + 1]);
      ValueBack(chunk[4 * i + 2], chunk[4 * i + 3]);
      assert x == 4 * i + x % 4;
    }
  }
}

/** What a reader finds in a track file: the processed frames of its chunks, one behind the other. */
module ReadBack {
  import opened Basics
  import opened AudioFormats
  import opened Samples
  import opened Outgoing
  import opened Tracks

  /** A finished file with this audio, which reads back if it fits into 32 bits. */
  predicate ReadsAs(fmt: Format, file: seq<Byte>, audio: seq<Byte>) {
    && file == Finished(fmt, audio)
    && Read(fmt, file) == if |audio| + Counted(fmt) < WORD32 then Some(CdSound(audio, BigEndian(fmt))) else None
  }

  /** Where the samples of piece k begin in the file of its track. */
  function StartsAt(idx: seq<nat>, pieces: seq<seq<Byte>>, k: nat): nat
    requires |idx| == |pieces| && k < |idx|
  {
    |Part(idx[..k], pieces[..k], idx[k])| / 2
  }

  /** Frame i of the chunk, processed, are the two samples from `at` on. */
  predicate FrameReads(control: Control, chunk: Chunk, i: nat, samples: seq<Sample>, at: nat)
    requires 4 * i + 3 < |chunk|
  {
    && at + 1 < |samples|
    && Frame(samples[at], samples[at + 1]) == Process(control.routing, control.att, FrameOf(chunk, i))
  }

  /** What a reader got out of the file holds it there, unless the file is too long
      for its lengths. */
  predicate FrameFound(sound: Option<Sound>, fmt: Format, control: Control, chunk: Chunk, i: nat,
                       idx: seq<nat>, pieces: seq<seq<Byte>>, k: nat)
    requires |idx| == |pieces| && k < |idx| && 4 * i + 3 < |chunk|
  {
    |Part(idx, pieces, idx[k])| + Counted(fmt) < WORD32 ==>
      sound.Some? && FrameReads(control, chunk, i, sound.value.samples, StartsAt(idx, pieces, k) + 2 * i)
  }

  /** The pieces of a track lie in its part one behind the other. */
  lemma {:induction false} PieceInPart(idx: seq<nat>, pieces: seq<seq<Byte>>, k: nat)
    requires |idx| == |pieces| && k < |idx|
    ensures var at, part := |Part(idx[..k], pieces[..k], idx[k])|, Part(idx, pieces, idx[k]);
            at + |pieces[k]| <= |part| && part[at..at + |pieces[k]|] == pieces[k]
    decreases |idx|
  {
    var n := |idx| - 1;
    if k < n {
      PieceInPart(idx[..n], pieces[..n], k);
      assert idx[..n][..k] == idx[..k] && pieces[..n][..k] == pieces[..k];
    }
  }

  lemma {:induction false} PartLength(idx: seq<nat>, pieces: seq<seq<Byte>>, f: nat) returns (frames: nat)
    requires |idx| == |pieces| && forall k :: 0 <= k < |pieces| ==> |pieces[k]| % 4 == 0
    ensures |Part(idx, pieces, f)| == 4 * frames
    decreases |idx|
  {
    if idx == [] {
      frames := 0;
    } else {
      var n := |idx| - 1;
      frames := PartLength(idx[..n], pieces[..n], f);
      if idx[n] == f { frames := frames + |pieces[n]| / 4; }
    }
  }

  lemma {:induction false} DecodedAt(s: seq<Byte>, big: bool, i: nat)
    requires 2 * i + 1 < |s|
    ensures Decoded(s, big)[i] == SampleAt(s, i, big)
  {
    var two := s[2 * i..2 * i + 2];
    assert two == [s[2 * i], s[2 * i + 1]];
    TwoBytes(s[2 * i], s[2 * i + 1]);
  }

  /** A sample of a piece, read in the whole part. */
  lemma {:induction false} SampleInPart(part: seq<Byte>, piece: seq<Byte>, at: nat, big: bool, i: nat)
    requires 2 * at + |piece| <= |part| && part[2 * at..2 * at + |piece|] == piece && 2 * i + 1 < |piece|
    ensures at + i < |Decoded(part, big)| && Decoded(part, big)[at + i] == SampleAt(piece, i, big)
  {
    DecodedAt(part, big, at + i);
    assert part[2 * (at + i)] == part[2 * at..2 * at + |piece|][2 * i];
    assert part[2 * (at + i) + 1] == part[2 * at..2 * at + |piece|][2 * i + 1];
  }

  lemma {:induction false} FrameInPart(control: Control, chunk: Chunk, i: nat, part: seq<Byte>, piece: seq<Byte>,
                                       at: nat, big: bool)
    requires |chunk| % 4 == 0 && 4 * i + 3 < |chunk| && piece == Output(control, big, chunk)
    requires 2 * at + |piece| <= |part| && part[2 * at..2 * at + |piece|] == piece
    ensures FrameReads(control, chunk, i, Decoded(part, big), at + 2 * i)
  {
    SampleInPart(part, piece, at, big, 2 * i);
    SampleInPart(part, piece, at, big, 2 * i + 1);
    OutputFrame(control, big, chunk, i);
  }

  /** Pieces of whole frames start at whole samples. */
  lemma {:induction false} PieceStarts(idx: seq<nat>, pieces: seq<seq<Byte>>, k: nat)
    requires |idx| == |pieces| && k < |idx| && (forall j :: 0 <= j < |pieces| ==> |pieces[j]| % 4 == 0)
    ensures var at, part := StartsAt(idx, pieces, k), Part(idx, pieces, idx[k]);
            2 * at + |pieces[k]| <= |part| && part[2 * at..2 * at + |pieces[k]|] == pieces[k]
  {
    assert 2 * StartsAt(idx, pieces, k) == |Part(idx[..k], pieces[..k], idx[k])| by {
      var frames := PartLength(idx[..k], pieces[..k], idx[k]);
    }
    PieceInPart(idx, pieces, k);
  }

  lemma {:induction false} FrameIsFound(sound: Option<Sound>, fmt: Format, control: Control, chunk: Chunk, i: nat,
                                        idx: seq<nat>, pieces: seq<seq<Byte>>, k: nat)
    requires |idx| == |pieces| && k < |idx| && (forall j :: 0 <= j < |pieces| ==> |pieces[j]| % 4 == 0)
    requires |chunk| % 4 == 0 && 4 * i + 3 < |chunk| && pieces[k] == Output(control, BigEndian(fmt), chunk)
    requires var part := Part(idx, pieces, idx[k]);
             |part| + Counted(fmt) < WORD32 ==> sound == Some(CdSound(part, BigEndian(fmt)))
    ensures FrameFound(sound, fmt, control, chunk, i, idx, pieces, k)
  {
    var part, at := Part(idx, pieces, idx[k]), StartsAt(idx, pieces, k);
    assert 2 * at + |pieces[k]| <= |part| && part[2 * at..2 * at + |pieces[k]|] == pieces[k] by {
      PieceStarts(idx, pieces, k);
    }
    FoundInPart(sound, fmt, control, chunk, i, part, pieces[k], at);
  }

  lemma {:induction false} FoundInPart(sound: Option<Sound>, fmt: Format, control: Control, chunk: Chunk, i: nat,
                                       part: seq<Byte>, piece: seq<Byte>, at: nat)
    requires |chunk| % 4 == 0 && 4 * i + 3 < |chunk| && piece == Output(control, BigEndian(fmt), chunk)
    requires 2 * at + |piece| <= |part| && part[2 * at..2 * at + |piece|] == piece
    requires |part| + Counted(fmt) < WORD32 ==> sound == Some(CdSound(part, BigEndian(fmt)))
    ensures |part| + Counted(fmt) < WORD32 ==>
              sound.Some? && FrameReads(control, chunk, i, sound.value.samples, at + 2 * i)
  {
    FrameInPart(control, chunk, i, part, piece, at, BigEndian(fmt));
  }
}

/** The headers of AU, WAV and AIFF files, and readers that go by the lengths in a file. */
module AudioFormats {
  import opened Basics
  import opened Samples

  /** The formats whose header is written again at close; an AU header ends in a comment. */
  datatype Format = Au(comment: seq<Byte>) | Wav | Aiff

  const WORD32 := 0x1_0000_0000

  /** The cast to word32_t; also of a size that has wrapped below zero. */
  function Word32(x: int): (r: nat)
    ensures r < WORD32 && (r - x) % WORD32 == 0
    ensures 0 <= x < WORD32 ==> r == x
  {
    x % WORD32
  }

  function Le4(x: nat): (r: seq<Byte>)
    requires x < WORD32
    ensures |r| == 4
  {
    [(x % 256) as Byte, (x / 0x100 % 256) as Byte, (x / 0x1_0000 % 256) as Byte, (x / 0x100_0000) as Byte]
  }

  function Be4(x: nat): (r: seq<Byte>)
    requires x < WORD32
    ensures |r| == 4
  {
    [(x / 0x100_0000) as Byte, (x / 0x1_0000 % 256) as Byte, (x / 0x100 % 256) as Byte, (x % 256) as Byte]
  }

  function FromLe(s: seq<Byte>): nat {
    if s == [] then 0 else s[0] as nat + 256 * FromLe(s[1..])
  }

  function FromBe(s: seq<Byte>): nat {
    if s == [] then 0 else 256 * FromBe(s[..|s| - 1]) + s[|s| - 1] as nat
  }

  lemma {:induction false} FromLe4(a: Byte, b: Byte, c: Byte, d: Byte)
    ensures FromLe([a, b, c, d]) == a as nat + 256 * (b as nat + 256 * (c as nat + 256 * d as nat))
  {
    assert [d][1..] == [] && [c, d][1..] == [d] && [b, c, d][1..] == [c, d] && [a, b, c, d][1..] == [b, c, d];
    assert FromLe([d]) == d as nat;
    assert FromLe([c, d]) == c as nat + 256 * FromLe([d]);
    assert FromLe([b, c, d]) == b as nat + 256 * FromLe([c, d]);
  }

  lemma {:induction false} FromBe4(a: Byte, b: Byte, c: Byte, d: Byte)
    ensures FromBe([a, b, c, d]) == d as nat + 256 * (c as nat + 256 * (b as nat + 256 * a as nat))
  {
    assert [a][..0] == [] && [a, b][..1] == [a] && [a, b, c][..2] == [a, b] && [a, b, c, d][..3] == [a, b, c];
    assert FromBe([a]) == a as nat;
    assert FromBe([a, b]) == 256 * FromBe([a]) + b as nat;
    assert FromBe([a, b, c]) == 256 * FromBe([a, b]) + c as nat;
  }

  lemma {:induction false} Le4Back(x: nat)
    requires x < WORD32
    ensures FromLe(Le4(x)) == x
  {
    var s := Le4(x);
    FromLe4(s[0], s[1], s[2], s[3]);
    FourDigits(x);
  }

  lemma {:induction false} Be4Back(x: nat)
    requires x < WORD32
    ensures FromBe(Be4(x)) == x
  {
    var s := Be4(x);
    FromBe4(s[0], s[1], s[2], s[3]);
    FourDigits(x);
  }

  lemma FourDigits(x: nat)
    ensures x == x % 256 + 256 * (x / 0x100 % 256 + 256 * (x / 0x1_0000 % 256 + 256 * (x / 0x100_0000)))
  {
  }

  // ---- headers ----

  const RIFF: seq<Byte> := [0x52, 0x49, 0x46, 0x46]
  const WAVE: seq<Byte> := [0x57, 0x41, 0x56, 0x45]
  const FMT: seq<Byte> := [0x66, 0x6d, 0x74, 0x20]
  const DATA: seq<Byte> := [0x64, 0x61, 0x74, 0x61]
  const FORM: seq<Byte> := [0x46, 0x4f, 0x52, 0x4d]
  const AIFF: seq<Byte> := [0x41, 0x49, 0x46, 0x46]
  const COMM: seq<Byte> := [0x43, 0x4f, 0x4d, 0x4d]
  const SSND: seq<Byte> := [0x53, 0x53, 0x4e, 0x44]
  const AU_MAGIC := 0x2e736e64
  const AU_LINEAR_16 := 3

  /** 44100 as an 80-bit floating point number. */
  const RATE80: seq<Byte> := [0x40, 0x0e, 0xac, 0x44, 0, 0, 0, 0, 0, 0]

  /** Format 1, 2 channels, 44100 samples and 176400 bytes a second, 4 bytes a
      frame, 16 bits a sample. */
  function WavFormat(): (r: seq<Byte>)
    ensures |r| == 16
  {
    [1, 0, 2, 0] + Le4(44100) + Le4(44100 * 2 * 2) + [4, 0, 16, 0]
  }

  function AiffCommon(datalen: int): (r: seq<Byte>)
    ensures |r| == 18
  {
    [0, 2] + Be4(Word32(datalen) / 4) + [0, 16] + RATE80
  }

  /** gen_filefmt_be: the byte order of the samples. */
  function BigEndian(fmt: Format): bool {
    !fmt.Wav?
  }

  function HeaderLen(fmt: Format): nat {
    match fmt
    case Au(comment) => 24 + |comment|
    case Wav => 44
    case Aiff => 54
  }

  /** What the three header writers write for `datalen` bytes of audio. */
  function Header(fmt: Format, datalen: int): (r: seq<Byte>)
    ensures |r| == HeaderLen(fmt)
  {
    match fmt
    case Au(comment) =>
      Be4(AU_MAGIC) + Be4(Word32(24 + |comment|)) + Be4(Word32(datalen))
      + Be4(AU_LINEAR_16) + Be4(44100) + Be4(2) + comment
    case Wav =>
      RIFF + Le4(Word32(Word32(datalen) + 36)) + WAVE
      + FMT + Le4(16) + WavFormat()
      + DATA + Le4(Word32(datalen))
    case Aiff =>
      FORM + Be4(Word32(Word32(datalen) + 54 - 8)) + AIFF
      + COMM + Be4(18) + AiffCommon(datalen)
      + SSND + Be4(Word32(Word32(datalen) + 8)) + [0, 0, 0, 0] + [0, 0, 0, 0]
  }

  /** The bytes of a text. */
  function Ascii(text: string): (r: seq<Byte>)
    requires forall i :: 0 <= i < |text| ==> text[i] < 128 as char
    ensures |r| == |text|
  {
    seq(|text|, i requires 0 <= i < |text| => text[i] as int as Byte)
  }

  /** The names of files and chunks as they are spelled. */
  lemma NamesSpell()
    ensures RIFF == Ascii("RIFF") && WAVE == Ascii("WAVE") && FMT == Ascii("fmt ") && DATA == Ascii("data")
    ensures FORM == Ascii("FORM") && AIFF == Ascii("AIFF") && COMM == Ascii("COMM") && SSND == Ascii("SSND")
    ensures Be4(AU_MAGIC) == Ascii(".snd")
  {
  }

  // ---- readers ----

  /** What a reader gets out of a file; `frames` as the file states it; the audio as
      bytes, and as the samples they stand for in the byte order of the format. */
  datatype Sound = Sound(channels: nat, rate: nat, bits: nat, frames: nat, data: seq<Byte>, samples: seq<Sample>)

  /** Samples of 16 bits in two's complement. */
  function Decoded(data: seq<Byte>, big: bool): (r: seq<Sample>)
    ensures |r| == |data| / 2
  {
    seq(|data| / 2, i requires 0 <= i < |data| / 2 => Cast16(Number(data[2 * i..2 * i + 2], big)))
  }

  function Quotient(a: nat, b: nat): nat
    requires b > 0
  {
    a / b
  }

  function Number(s: seq<Byte>, big: bool): nat {
    if big then FromBe(s) else FromLe(s)
  }

  /** The body of the first chunk with this name, stepping from chunk to chunk by
      their lengths; chunks start at even offsets. */
  function FindChunk(s: seq<Byte>, id: seq<Byte>, big: bool): (r: Option<seq<Byte>>)
    decreases |s|
  {
    if |s| < 8 then None
    else
      var n := Number(s[4..8], big);
      if 8 + n > |s| then None
      else if s[..4] == id then Some(s[8..8 + n])
      else if 8 + n + n % 2 > |s| then None
      else FindChunk(s[8 + n + n % 2..], id, big)
  }

  /** The chunks of a file of this kind whose stated length is its length. */
  function Outer(s: seq<Byte>, id: seq<Byte>, kind: seq<Byte>, big: bool): Option<seq<Byte>> {
    if |s| < 12 || s[..4] != id || s[8..12] != kind || Number(s[4..8], big) != |s| - 8 then None
    else Some(s[12..])
  }

  function ReadWav(s: seq<Byte>): Option<Sound> {
    match Outer(s, RIFF, WAVE, false)
    case None => None
    case Some(chunks) =>
      var f, d := FindChunk(chunks, FMT, false), FindChunk(chunks, DATA, false);
      if f.None? || d.None? then None else FormattedAs(f.value, d.value)
  }

  /** The fields of the format have to agree: bytes a second are samples a second
      times bytes a frame, and these are channels times bytes a sample. */
  function FormattedAs(f: seq<Byte>, d: seq<Byte>): Option<Sound> {
    if |f| < 16 || FromLe(f[0..2]) != 1 || FromLe(f[12..14]) == 0
       || FromLe(f[8..12]) != FromLe(f[4..8]) * FromLe(f[12..14])
       || 8 * FromLe(f[12..14]) != FromLe(f[2..4]) * FromLe(f[14..16]) then None
    else Some(Sound(FromLe(f[2..4]), FromLe(f[4..8]), FromLe(f[14..16]), Quotient(|d|, FromLe(f[12..14])),
                    d, Decoded(d, false)))
  }

  function Pow2(n: nat): (r: nat)
    ensures r >= 1
  {
    if n == 0 then 1 else 2 * Pow2(n - 1)
  }

  function Shifted(mantissa: nat, e: int): Option<nat> {
    if 0 <= e <= 31 then Some(Quotient(mantissa, Pow2(31 - e))) else None
  }

  /** A whole number below 2^32 in 80-bit floating point: sign and exponent, then
      a mantissa whose lower half has to be zero. */
  function FromFloat80(s: seq<Byte>): Option<nat>
    requires |s| == 10
  {
    if FromBe(s[6..10]) == 0 then Shifted(FromBe(s[2..6]), FromBe(s[0..2]) - 16383) else None
  }

  /** The samples lie behind the offset, in blocks of no fixed size. */
  function SoundOf(common: seq<Byte>, sound: seq<Byte>): Option<Sound> {
    if |common| < 18 || |sound| < 8 || 8 + FromBe(sound[0..4]) > |sound| || FromBe(sound[4..8]) != 0 then None
    else
      match FromFloat80(common[8..18])
      case None => None
      case Some(rate) =>
        var data := sound[8 + FromBe(sound[0..4])..];
        Some(Sound(FromBe(common[0..2]), rate, FromBe(common[6..8]), FromBe(common[2..6]), data, Decoded(data, true)))
  }

  function ReadAiff(s: seq<Byte>): Option<Sound> {
    match Outer(s, FORM, AIFF, true)
    case None => None
    case Some(chunks) =>
      var c, d := FindChunk(chunks, COMM, true), FindChunk(chunks, SSND, true);
      if c.None? || d.None? then None else SoundOf(c.value, d.value)
  }

  /** Encoding 3 is 16 bits linear. */
  function ReadAu(s: seq<Byte>): Option<Sound> {
    if |s| < 24 || FromBe(s[0..4]) != AU_MAGIC || FromBe(s[12..16]) != 3 then None
    else
      var offset := FromBe(s[4..8]);
      if !(24 <= offset <= |s|) || FromBe(s[8..12]) != |s| - offset then None
      else Some(Sound(FromBe(s[20..24]), FromBe(s[16..20]), 16, (|s| - offset) / 4,
                      s[offset..], Decoded(s[offset..], true)))
  }

  function Read(fmt: Format, s: seq<Byte>): Option<Sound> {
    match fmt
    case Au(_) => ReadAu(s)
    case Wav => ReadWav(s)
    case Aiff => ReadAiff(s)
  }

  // ---- what a finished file reads as ----

  /** The length fields of the header count this many bytes beside the audio. */
  function Counted(fmt: Format): nat {
    match fmt
    case Au(_) => 0
    case Wav => 36
    case Aiff => 46
  }

  /** Stereo, 44100 samples a second, 16 bits, in this byte order. */
  function CdSound(audio: seq<Byte>, big: bool): Sound {
    Sound(2, 44100, 16, |audio| / 4, audio, Decoded(audio, big))
  }

  function Finished(fmt: Format, audio: seq<Byte>): seq<Byte> {
    Header(fmt, |audio|) + audio
  }

  /** One chunk. */
  function Piece(id: seq<Byte>, body: seq<Byte>, big: bool): (r: seq<Byte>)
    requires |id| == 4 && |body| < WORD32
    ensures |r| == 8 + |body|
  {
    id + (if big then Be4(|body|) else Le4(|body|)) + body
  }

  lemma {:induction false} PieceParts(id: seq<Byte>, body: seq<Byte>, big: bool, rest: seq<Byte>)
    requires |id| == 4 && |body| < WORD32
    ensures var s := Piece(id, body, big) + rest;
            s[..4] == id && Number(s[4..8], big) == |body| && s[8..8 + |body|] == body && s[8 + |body|..] == rest
  {
    var s := Piece(id, body, big) + rest;
    assert s[4..8] == if big then Be4(|body|) else Le4(|body|);
    if big { Be4Back(|body|); } else { Le4Back(|body|); }
  }

  lemma {:induction false} FindHere(id: seq<Byte>, body: seq<Byte>, big: bool, rest: seq<Byte>)
    requires |id| == 4 && |body| < WORD32
    ensures FindChunk(Piece(id, body, big) + rest, id, big) == Some(body)
  {
    PieceParts(id, body, big, rest);
  }

  lemma {:induction false} FindBehind(first: seq<Byte>, body: seq<Byte>, big: bool, rest: seq<Byte>, id: seq<Byte>)
    requires |first| == 4 && |body| < WORD32 && |body| % 2 == 0 && first != id
    ensures FindChunk(Piece(first, body, big) + rest, id, big) == FindChunk(rest, id, big)
  {
    PieceParts(first, body, big, rest);
  }

  /** Two chunks behind a header whose length field says `n`. */
  lemma {:induction false} TwoChunks(id: seq<Byte>, n: nat, kind: seq<Byte>, big: bool,
                                     id1: seq<Byte>, b1: seq<Byte>, id2: seq<Byte>, b2: seq<Byte>)
    requires |id| == |kind| == |id1| == |id2| == 4 && id1 != id2 && n < WORD32
    requires |b1| < WORD32 && |b1| % 2 == 0 && |b2| < WORD32
    ensures var chunks := Piece(id1, b1, big) + Piece(id2, b2, big);
            var s := id + (if big then Be4(n) else Le4(n)) + kind + chunks;
            && Outer(s, id, kind, big) == (if n == 4 + |chunks| then Some(chunks) else None)
            && FindChunk(chunks, id1, big) == Some(b1) && FindChunk(chunks, id2, big) == Some(b2)
  {
    var two := Piece(id2, b2, big);
    var chunks := Piece(id1, b1, big) + two;
    var s := id + (if big then Be4(n) else Le4(n)) + kind + chunks;
    assert s[4..8] == if big then Be4(n) else Le4(n);
    if big { Be4Back(n); } else { Le4Back(n); }
    assert s[..4] == id && s[8..12] == kind && s[12..] == chunks;
    FindHere(id1, b1, big, two);
    FindBehind(id1, b1, big, two, id2);
    assert two == two + [];
    FindHere(id2, b2, big, []);
  }

  lemma {:induction false} TwoBytes(a: Byte, b: Byte)
    ensures FromLe([a, b]) == a as nat + 256 * b as nat
    ensures FromBe([a, b]) == 256 * a as nat + b as nat
  {
    assert [a, b][1..] == [b] && [b][1..] == [] && [a, b][..1] == [a] && [a][..0] == [];
    assert FromLe([b]) == b as nat && FromBe([a]) == a as nat;
  }

  lemma {:induction false} WavFields(f: seq<Byte>)
    requires f == WavFormat()
    ensures FromLe(f[0..2]) == 1 && FromLe(f[2..4]) == 2 && FromLe(f[12..14]) == 4 && FromLe(f[14..16]) == 16
  {
    assert f[0..2] == [1, 0] && f[2..4] == [2, 0] && f[12..14] == [4, 0] && f[14..16] == [16, 0];
    TwoBytes(1, 0);
    TwoBytes(2, 0);
    TwoBytes(4, 0);
    TwoBytes(16, 0);
  }

  lemma {:induction false} WavRates(f: seq<Byte>)
    requires f == WavFormat()
    ensures FromLe(f[4..8]) == 44100 && FromLe(f[8..12]) == 176400
  {
    assert f[4..8] == Le4(44100) && f[8..12] == Le4(176400);
    Le4Back(44100);
    Le4Back(176400);
  }

  lemma {:induction false} WavFormatReads(d: seq<Byte>)
    ensures FormattedAs(WavFormat(), d) == Some(CdSound(d, false))
  {
    WavFields(WavFormat());
    WavRates(WavFormat());
  }

  /** A header whose length field is not the length of the rest is refused. */
  lemma {:induction false} LengthRefused(id: seq<Byte>, n: nat, kind: seq<Byte>, big: bool, rest: seq<Byte>)
    requires |id| == |kind| == 4 && n < WORD32 && n != 4 + |rest|
    ensures Outer(id + (if big then Be4(n) else Le4(n)) + kind + rest, id, kind, big).None?
  {
    var s := id + (if big then Be4(n) else Le4(n)) + kind + rest;
    assert s[4..8] == if big then Be4(n) else Le4(n);
    if big { Be4Back(n); } else { Le4Back(n); }
  }

  /** The length field of the whole file, as it is written. */
  function WavLength(audio: seq<Byte>): (n: nat)
    ensures n < WORD32 && (n == 36 + |audio| <==> |audio| + 36 < WORD32)
  {
    Word32(Word32(|audio|) + 36)
  }

  lemma {:induction false} WavLayout(audio: seq<Byte>)
    ensures Finished(Wav, audio)
            == RIFF + Le4(WavLength(audio)) + WAVE
               + (FMT + Le4(16) + WavFormat() + (DATA + Le4(Word32(|audio|)) + audio))
  {
  }

  lemma {:induction false} FinishedWavReads(audio: seq<Byte>)
    ensures Read(Wav, Finished(Wav, audio))
            == if |audio| + 36 < WORD32 then Some(CdSound(audio, false)) else None
  {
    var n := WavLength(audio);
    var data := DATA + Le4(Word32(|audio|)) + audio;
    WavLayout(audio);
    if |audio| + 36 < WORD32 {
      TwoChunks(RIFF, n, WAVE, false, FMT, WavFormat(), DATA, audio);
      WavFormatReads(audio);
    } else {
      LengthRefused(RIFF, n, WAVE, false, FMT + Le4(16) + WavFormat() + data);
    }
  }

  /** With a header for another length the file is refused. */
  lemma {:induction false} EstimateRefused(audio: seq<Byte>, estimate: nat)
    requires estimate < WORD32 - 36 && estimate != |audio|
    ensures Read(Wav, Header(Wav, estimate) + audio) == None
  {
    var rest := FMT + Le4(16) + WavFormat() + (DATA + Le4(estimate) + audio);
    assert Header(Wav, estimate) + audio == RIFF + Le4(estimate + 36) + WAVE + rest;
    LengthRefused(RIFF, estimate + 36, WAVE, false, rest);
  }

  lemma {:induction false} Rate80Reads()
    ensures FromFloat80(RATE80) == Some(44100)
  {
    assert RATE80[6..10] == [0, 0, 0, 0] && RATE80[2..6] == [0xac, 0x44, 0, 0] && RATE80[0..2] == [0x40, 0x0e];
    FromBe4(0, 0, 0, 0);
    FromBe4(0xac, 0x44, 0, 0);
    TwoBytes(0x40, 0x0e);
    assert Pow2(16) == 65536 by {
      assert Pow2(4) == 16;
      assert Pow2(8) == 256;
      assert Pow2(12) == 4096;
    }
  }

  /** The body of the sound chunk: offset and block size are zero. */
  function SoundBody(audio: seq<Byte>): (r: seq<Byte>)
    ensures |r| == 8 + |audio|
  {
    [0, 0, 0, 0, 0, 0, 0, 0] + audio
  }

  lemma {:induction false} AiffFields(c: seq<Byte>, len: nat)
    requires len < WORD32 && c == AiffCommon(len)
    ensures FromBe(c[0..2]) == 2 && FromBe(c[2..6]) == len / 4 && FromBe(c[6..8]) == 16 && c[8..18] == RATE80
  {
    assert c[0..2] == [0, 2] && c[2..6] == Be4(len / 4) && c[6..8] == [0, 16];
    TwoBytes(0, 2);
    TwoBytes(0, 16);
    Be4Back(len / 4);
  }

  lemma {:induction false} AiffSoundReads(audio: seq<Byte>)
    requires |audio| < WORD32
    ensures SoundOf(AiffCommon(|audio|), SoundBody(audio)) == Some(CdSound(audio, true))
  {
    var d := SoundBody(audio);
    AiffFields(AiffCommon(|audio|), |audio|);
    Rate80Reads();
    assert d[0..4] == [0, 0, 0, 0] && d[4..8] == [0, 0, 0, 0];
    FromBe4(0, 0, 0, 0);
    assert d[8..] == audio;
  }

  function AiffLength(audio: seq<Byte>): (n: nat)
    ensures n < WORD32 && (n == 46 + |audio| <==> |audio| + 46 < WORD32)
  {
    Word32(Word32(|audio|) + 54 - 8)
  }

  lemma {:induction false} AiffLayout(audio: seq<Byte>)
    ensures Finished(Aiff, audio)
            == FORM + Be4(AiffLength(audio)) + AIFF
               + (COMM + Be4(18) + AiffCommon(|audio|)
                  + (SSND + Be4(Word32(Word32(|audio|) + 8)) + SoundBody(audio)))
  {
  }

  lemma {:induction false} FinishedAiffReads(audio: seq<Byte>)
    ensures Read(Aiff, Finished(Aiff, audio))
            == if |audio| + 46 < WORD32 then Some(CdSound(audio, true)) else None
  {
    var n := AiffLength(audio);
    var sound := SSND + Be4(Word32(Word32(|audio|) + 8)) + SoundBody(audio);
    AiffLayout(audio);
    if |audio| + 46 < WORD32 {
      TwoChunks(FORM, n, AIFF, true, COMM, AiffCommon(|audio|), SSND, SoundBody(audio));
      AiffSoundReads(audio);
    } else {
      LengthRefused(FORM, n, AIFF, true, COMM + Be4(18) + AiffCommon(|audio|) + sound);
    }
  }

  lemma {:induction false} FinishedAuReads(comment: seq<Byte>, audio: seq<Byte>)
    requires 24 + |comment| < WORD32
    ensures Read(Au(comment), Finished(Au(comment), audio))
            == if |audio| < WORD32 then Some(CdSound(audio, true)) else None
    ensures Finished(Au(comment), audio)[24..24 + |comment|] == comment
  {
    var s := Finished(Au(comment), audio);
    var offset := 24 + |comment|;
    assert s[0..4] == Be4(AU_MAGIC) && s[4..8] == Be4(offset) && s[8..12] == Be4(Word32(|audio|));
    assert s[12..16] == Be4(AU_LINEAR_16) && s[16..20] == Be4(44100) && s[20..24] == Be4(2);
    Be4Back(AU_MAGIC);
    Be4Back(offset);
    Be4Back(Word32(|audio|));
    Be4Back(AU_LINEAR_16);
    Be4Back(44100);
    Be4Back(2);
    assert s[offset..] == audio;
  }

  /** A finished file reads, by its own lengths and in the byte order of its format,
      as exactly the audio in it when all its lengths fit into 32 bits, and is
      refused otherwise. */
  lemma {:induction false} FinishedReadsIff(fmt: Format, audio: seq<Byte>)
    requires fmt.Au? ==> HeaderLen(fmt) < WORD32
    ensures Read(fmt, Finished(fmt, audio))
            == if |audio| + Counted(fmt) < WORD32 then Some(CdSound(audio, BigEndian(fmt))) else None
  {
    match fmt
    case Au(comment) => FinishedAuReads(comment, audio);
    case Wav => FinishedWavReads(audio);
    case Aiff => FinishedAiffReads(audio);
  }
}

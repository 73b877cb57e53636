/**
 The RIFF "Waveform Audio File Format (WAVE)" container of Multimedia
 Programming Interface and Data Specifications 1.0: a reader that follows the
 chunk structure, and the byte layout the recorder writes. The reader knows
 nothing of the writer.
 */
module Riff {
  import opened Bytes
  import opened Options
  import opened Pcm

  /** Little-endian fields; a value too wide for its field loses its high part, as DataView has it. */
  function LE16(v: nat): (b: seq<byte>)
    ensures |b| == 2
  {
    var w := v % 0x1_0000;
    [w % 256, w / 256]
  }

  function LE32(v: nat): (b: seq<byte>)
    ensures |b| == 4
  {
    var w := v % 0x1_0000_0000;
    LE16(w % 0x1_0000) + LE16(w / 0x1_0000)
  }

  function FromLE16(b: seq<byte>): nat
    requires |b| == 2
  {
    b[0] as nat + 256 * b[1] as nat
  }

  function FromLE32(b: seq<byte>): nat
    requires |b| == 4
  {
    FromLE16(b[..2]) + 0x1_0000 * FromLE16(b[2..])
  }

  lemma LE16RoundTrip(v: nat)
    ensures FromLE16(LE16(v)) == v % 0x1_0000
  {
  }

  lemma LE32RoundTrip(v: nat)
    ensures FromLE32(LE32(v)) == v % 0x1_0000_0000
  {
    var w := v % 0x1_0000_0000;
    LE16RoundTrip(w % 0x1_0000);
    LE16RoundTrip(w / 0x1_0000);
    Cut(LE16(w % 0x1_0000), LE16(w / 0x1_0000));
  }

  lemma Cut<T>(a: seq<T>, b: seq<T>)
    ensures (a + b)[..|a|] == a && (a + b)[|a|..] == b
  {
  }

  /** Cutting a piece out from the middle. */
  lemma CutMiddle<T>(s: seq<T>, a: seq<T>, b: seq<T>, c: seq<T>)
    requires s == a + b + c
    ensures s[..|a|] == a && s[|a|..|a| + |b|] == b && s[|a| + |b|..] == c
  {
  }

  function Signed16(v: nat): int16
    requires v < 0x1_0000
  {
    if v < 0x8000 then v else v - 0x1_0000
  }

  function Unsigned16(x: int16): (v: nat)
    ensures v < 0x1_0000
  {
    if x < 0 then x + 0x1_0000 else x
  }

  // ---------- Reading ----------

  datatype Chunk = Chunk(id: seq<byte>, body: seq<byte>)

  /** A list of chunks: four bytes of name, four of length, the body, and a pad byte after an odd body. */
  function ReadChunks(b: seq<byte>): Option<seq<Chunk>>
    decreases |b|
  {
    if b == [] then Some([])
    else if |b| < 8 then None
    else
      var n := FromLE32(b[4..8]);
      var end := 8 + n + n % 2;
      if end > |b| then None
      else match ReadChunks(b[end..])
        case None => None
        case Some(rest) => Some([Chunk(b[..4], b[8..8 + n])] + rest)
  }

  function Find(chunks: seq<Chunk>, id: seq<byte>): Option<seq<byte>> {
    if chunks == [] then None
    else if chunks[0].id == id then Some(chunks[0].body)
    else Find(chunks[1..], id)
  }

  function ReadSamples(b: seq<byte>): seq<int16> {
    if |b| < 2 then [] else [Signed16(FromLE16(b[..2]))] + ReadSamples(b[2..])
  }

  datatype Wav = Wav(channels: nat, rate: nat, byteRate: nat, blockAlign: nat, samples: seq<int16>)

  const RIFF: seq<byte> := [0x52, 0x49, 0x46, 0x46]
  const WAVE: seq<byte> := [0x57, 0x41, 0x56, 0x45]
  const FMT: seq<byte> := [0x66, 0x6D, 0x74, 0x20]
  const DATA: seq<byte> := [0x64, 0x61, 0x74, 0x61]

  /** A WAVE file of 16-bit PCM. */
  function ReadWav(b: seq<byte>): Option<Wav> {
    if |b| < 12 || b[..4] != RIFF || b[8..12] != WAVE || FromLE32(b[4..8]) != |b| - 8 then None
    else ReadBody(ReadChunks(b[12..]))
  }

  function ReadBody(chunks: Option<seq<Chunk>>): Option<Wav> {
    match chunks
    case None => None
    case Some(cs) => ReadFormat(Find(cs, FMT), Find(cs, DATA))
  }

  function ReadFormat(format: Option<seq<byte>>, data: Option<seq<byte>>): Option<Wav> {
    if format.None? || data.None? || |format.value| < 16 || |data.value| % 2 == 1 then None
    else
      var f := format.value;
      if FromLE16(f[..2]) != 1 || FromLE16(f[14..16]) != 16 then None
      else Some(Wav(FromLE16(f[2..4]), FromLE32(f[4..8]), FromLE32(f[8..12]), FromLE16(f[12..14]),
                    ReadSamples(data.value)))
  }

  // ---------- Writing ----------

  function SampleBytes(samples: seq<int16>): (b: seq<byte>)
    ensures |b| == 2 * |samples| && |b| % 2 == 0
  {
    if samples == [] then []
    else SampleBytes(samples[..|samples| - 1]) + LE16(Unsigned16(samples[|samples| - 1]))
  }

  function FormatBytes(channels: nat, rate: nat): (b: seq<byte>)
    ensures |b| == 16
  {
    LE16(1) + LE16(channels) + LE32(rate) + LE32(rate * 4) + LE16(channels * 2) + LE16(16)
  }

  function ChunkBytes(id: seq<byte>, body: seq<byte>): (b: seq<byte>)
    ensures |b| == |id| + 4 + |body|
  {
    id + LE32(|body|) + body
  }

  /** The bytes encodeWAV lays down. */
  function WavBytes(channels: nat, rate: nat, samples: seq<int16>): (b: seq<byte>)
    ensures |b| == 44 + 2 * |samples|
  {
    var n := 2 * |samples|;
    RIFF + LE32(36 + n) + WAVE
    + (ChunkBytes(FMT, FormatBytes(channels, rate)) + ChunkBytes(DATA, SampleBytes(samples)))
  }

  // ---------- What is written is read back ----------

  lemma ReadChunkBytes(id: seq<byte>, body: seq<byte>, rest: seq<byte>)
    requires |id| == 4 && |body| % 2 == 0 && |body| < 0x1_0000_0000
    ensures ReadChunks(ChunkBytes(id, body) + rest) ==
            match ReadChunks(rest) case None => None case Some(chunks) => Some([Chunk(id, body)] + chunks)
  {
    var b, n := ChunkBytes(id, body) + rest, |body|;
    LE32RoundTrip(n);
    CutMiddle(b, id, LE32(n), body + rest);
    CutMiddle(b, id + LE32(n), body, rest);
    assert n % 2 == 0 && FromLE32(b[4..8]) == n;
  }

  lemma {:induction false} ReadSamplesOfConcat(a: seq<byte>, b: seq<byte>)
    requires |a| % 2 == 0
    ensures ReadSamples(a + b) == ReadSamples(a) + ReadSamples(b)
    decreases |a|
  {
    if a == [] {
      assert a + b == b;
    } else {
      assert (a + b)[2..] == a[2..] + b && (a + b)[..2] == a[..2];
      ReadSamplesOfConcat(a[2..], b);
    }
  }

  lemma ReadOneSample(x: int16)
    ensures ReadSamples(LE16(Unsigned16(x))) == [x]
  {
    var b := LE16(Unsigned16(x));
    LE16RoundTrip(Unsigned16(x));
    assert b[..2] == b && b[2..] == [];
    assert ReadSamples([]) == [];
  }

  lemma {:induction false} SamplesRoundTrip(samples: seq<int16>)
    ensures ReadSamples(SampleBytes(samples)) == samples
  {
    if samples == [] {
    } else {
      var init, x := samples[..|samples| - 1], samples[|samples| - 1];
      SamplesRoundTrip(init);
      ReadOneSample(x);
      ReadSamplesOfConcat(SampleBytes(init), LE16(Unsigned16(x)));
      assert samples == init + [x];
    }
  }

  /** What the fields can hold of a channel count and a rate. */
  function WavOf(channels: nat, rate: nat, samples: seq<int16>): Wav {
    Wav(channels % 0x1_0000, rate % 0x1_0000_0000, rate * 4 % 0x1_0000_0000, channels * 2 % 0x1_0000, samples)
  }

  lemma FormatFields(channels: nat, rate: nat)
    ensures var f := FormatBytes(channels, rate);
            && FromLE16(f[..2]) == 1 && FromLE16(f[14..16]) == 16
            && FromLE16(f[2..4]) == channels % 0x1_0000 && FromLE16(f[12..14]) == channels * 2 % 0x1_0000
            && FromLE32(f[4..8]) == rate % 0x1_0000_0000 && FromLE32(f[8..12]) == rate * 4 % 0x1_0000_0000
  {
    LE16RoundTrip(1);
    LE16RoundTrip(16);
    LE16RoundTrip(channels);
    LE16RoundTrip(channels * 2);
    LE32RoundTrip(rate);
    LE32RoundTrip(rate * 4);
    ReadFields(LE16(1), LE16(channels), LE32(rate), LE32(rate * 4), LE16(channels * 2), LE16(16));
  }

  lemma FormatRoundTrip(channels: nat, rate: nat, data: seq<byte>)
    requires |data| % 2 == 0
    ensures ReadFormat(Some(FormatBytes(channels, rate)), Some(data)) == Some(WavOf(channels, rate, ReadSamples(data)))
  {
    FormatFields(channels, rate);
  }

  lemma ReadFields(tag: seq<byte>, channels: seq<byte>, rate: seq<byte>,
                   byteRate: seq<byte>, align: seq<byte>, bits: seq<byte>)
    requires |tag| == |channels| == |align| == |bits| == 2 && |rate| == |byteRate| == 4
    ensures var f := tag + channels + rate + byteRate + align + bits;
            && f[..2] == tag && f[2..4] == channels && f[4..8] == rate
            && f[8..12] == byteRate && f[12..14] == align && f[14..16] == bits
  {
  }

  lemma ReadTwoChunks(id1: seq<byte>, body1: seq<byte>, id2: seq<byte>, body2: seq<byte>)
    requires |id1| == 4 && |body1| % 2 == 0 && |body1| < 0x1_0000_0000
    requires |id2| == 4 && |body2| % 2 == 0 && |body2| < 0x1_0000_0000
    ensures ReadChunks(ChunkBytes(id1, body1) + ChunkBytes(id2, body2)) ==
            Some([Chunk(id1, body1)] + ([Chunk(id2, body2)] + []))
  {
    var rest := ChunkBytes(id2, body2);
    assert ReadChunks(rest) == Some([Chunk(id2, body2)] + []) by {
      ReadChunkBytes(id2, body2, []);
      assert rest + [] == rest;
    }
    ReadChunkBytes(id1, body1, rest);
  }

  lemma FindBoth(format: seq<byte>, data: seq<byte>)
    ensures var chunks := [Chunk(FMT, format)] + ([Chunk(DATA, data)] + []);
            Find(chunks, FMT) == Some(format) && Find(chunks, DATA) == Some(data)
  {
    var chunks := [Chunk(FMT, format)] + ([Chunk(DATA, data)] + []);
    assert chunks[1..] == [Chunk(DATA, data)] + [];
    assert FMT[0] != DATA[0];
  }

  lemma ReadFoundChunks(format: seq<byte>, data: seq<byte>)
    requires |format| == 16 && |data| % 2 == 0 && |data| < 0x1_0000_0000
    ensures ReadBody(ReadChunks(ChunkBytes(FMT, format) + ChunkBytes(DATA, data))) ==
            ReadFormat(Some(format), Some(data))
  {
    ReadTwoChunks(FMT, format, DATA, data);
    FindBoth(format, data);
  }

  lemma ReadContainer(field: seq<byte>, chunks: seq<byte>)
    requires |field| == 4
    ensures ReadWav(RIFF + field + WAVE + chunks) ==
            if FromLE32(field) == 4 + |chunks| then ReadBody(ReadChunks(chunks)) else None
  {
    var b := RIFF + field + WAVE + chunks;
    CutMiddle(b, RIFF, field, WAVE + chunks);
    CutMiddle(b, RIFF + field, WAVE, chunks);
  }

  lemma FitsField(v: nat, m: nat)
    requires m > 0
    ensures v % m == v <==> v < m
  {
  }

  lemma ReadWavOf(field: seq<byte>, chunks: seq<byte>, wav: Option<Wav>)
    requires |field| == 4 && FromLE32(field) == (4 + |chunks|) % 0x1_0000_0000
    requires 4 + |chunks| < 0x1_0000_0000 ==> ReadBody(ReadChunks(chunks)) == wav
    ensures ReadWav(RIFF + field + WAVE + chunks) == if 4 + |chunks| < 0x1_0000_0000 then wav else None
  {
    FitsField(4 + |chunks|, 0x1_0000_0000);
    ReadContainer(field, chunks);
  }

  lemma ReadWritten(channels: nat, rate: nat, samples: seq<int16>)
    requires 36 + 2 * |samples| < 0x1_0000_0000
    ensures var chunks := ChunkBytes(FMT, FormatBytes(channels, rate)) + ChunkBytes(DATA, SampleBytes(samples));
            ReadBody(ReadChunks(chunks)) ==
            Some(WavOf(channels, rate, samples))
  {
    ReadFoundChunks(FormatBytes(channels, rate), SampleBytes(samples));
    FormatRoundTrip(channels, rate, SampleBytes(samples));
    SamplesRoundTrip(samples);
  }

  lemma WavThatFits(channels: nat, rate: nat, samples: seq<int16>)
    requires 36 + 2 * |samples| < 0x1_0000_0000
    ensures ReadWav(WavBytes(channels, rate, samples)) == Some(WavOf(channels, rate, samples))
  {
    var chunks := ChunkBytes(FMT, FormatBytes(channels, rate)) + ChunkBytes(DATA, SampleBytes(samples));
    LE32RoundTrip(36 + 2 * |samples|);
    ReadWritten(channels, rate, samples);
    ReadWavOf(LE32(36 + 2 * |samples|), chunks, Some(WavOf(channels, rate, samples)));
  }

  lemma WavTooLong(channels: nat, rate: nat, samples: seq<int16>)
    requires 36 + 2 * |samples| >= 0x1_0000_0000
    ensures ReadWav(WavBytes(channels, rate, samples)) == None
  {
    var chunks := ChunkBytes(FMT, FormatBytes(channels, rate)) + ChunkBytes(DATA, SampleBytes(samples));
    LE32RoundTrip(36 + 2 * |samples|);
    ReadWavOf(LE32(36 + 2 * |samples|), chunks, None);
  }

  /** The reader returns what the writer was given exactly while the file length fits its 32-bit field. */
  lemma WavRoundTrip(channels: nat, rate: nat, samples: seq<int16>)
    ensures ReadWav(WavBytes(channels, rate, samples)) ==
            if 36 + 2 * |samples| < 0x1_0000_0000 then Some(WavOf(channels, rate, samples)) else None
  {
    if 36 + 2 * |samples| < 0x1_0000_0000 {
      WavThatFits(channels, rate, samples);
    } else {
      WavTooLong(channels, rate, samples);
    }
  }

  lemma WavInRange(channels: nat, rate: nat, samples: seq<int16>)
    requires channels < 0x8000 && rate < 0x1_0000_0000 && 36 + 2 * |samples| < 0x1_0000_0000
    ensures ReadWav(WavBytes(channels, rate, samples)) ==
            Some(Wav(channels, rate, rate * 4 % 0x1_0000_0000, channels * 2, samples))
  {
    WavThatFits(channels, rate, samples);
    FitsField(channels, 0x1_0000);
    FitsField(channels * 2, 0x1_0000);
    FitsField(rate, 0x1_0000_0000);
  }

  lemma ProductsDiffer(rate: nat, channels: nat)
    requires rate > 0
    ensures rate * 4 == rate * (channels * 2) <==> channels == 2
  {
    if channels < 2 {
      assert rate * (channels * 2) <= rate * 2;
    } else if channels > 2 {
      assert rate * (channels * 2) >= rate * 6;
    }
  }

  /** The byte rate is meant to be the rate times the block align. The writer's rate * 4 is that for stereo only. */
  lemma ByteRateIsRightForStereoOnly(channels: nat, rate: nat, samples: seq<int16>)
    requires 0 < channels < 0x8000 && 0 < rate < 0x4000_0000 && 36 + 2 * |samples| < 0x1_0000_0000
    ensures ReadWav(WavBytes(channels, rate, samples)).Some?
    ensures var wav := ReadWav(WavBytes(channels, rate, samples)).value;
            wav.byteRate == wav.rate * wav.blockAlign <==> channels == 2
  {
    WavInRange(channels, rate, samples);
    FitsField(rate * 4, 0x1_0000_0000);
    ProductsDiffer(rate, channels);
  }

  /** Every mono file claims twice the bytes a second that it has. */
  lemma MonoByteRateIsDoubled(rate: nat, samples: seq<int16>)
    requires rate < 0x4000_0000 && 36 + 2 * |samples| < 0x1_0000_0000
    ensures ReadWav(WavBytes(1, rate, samples)).Some?
    ensures var wav := ReadWav(WavBytes(1, rate, samples)).value; wav.byteRate == 2 * (wav.rate * wav.blockAlign)
  {
    WavInRange(1, rate, samples);
    FitsField(rate * 4, 0x1_0000_0000);
  }

  // ---------- The file byte by byte ----------

  ghost predicate Spells(b: seq<byte>, at: nat, text: string) {
    at + |text| <= |b| && forall i :: 0 <= i < |text| ==> b[at + i] as int == text[i] as int
  }

  /** Low byte first. */
  ghost predicate Holds16(b: seq<byte>, at: nat, v: nat) {
    at + 2 <= |b| && b[at] == v % 256 && b[at + 1] == v / 256 % 256
  }

  ghost predicate Holds32(b: seq<byte>, at: nat, v: nat) {
    && at + 4 <= |b| && b[at] == v % 256 && b[at + 1] == v / 256 % 256
    && b[at + 2] == v / 0x1_0000 % 256 && b[at + 3] == v / 0x100_0000 % 256
  }

  /** The file in plain terms: every field by its position, every sample in two's complement. */
  ghost predicate IsWavFile(b: seq<byte>, channels: nat, rate: nat, samples: seq<int16>) {
    && |b| == 44 + 2 * |samples|
    && Spells(b, 0, "RIFF") && Holds32(b, 4, 36 + 2 * |samples|) && Spells(b, 8, "WAVE")
    && Spells(b, 12, "fmt ") && Holds32(b, 16, 16) && Holds16(b, 20, 1) && Holds16(b, 22, channels)
    && Holds32(b, 24, rate) && Holds32(b, 28, rate * 4) && Holds16(b, 32, channels * 2) && Holds16(b, 34, 16)
    && Spells(b, 36, "data") && Holds32(b, 40, 2 * |samples|)
    && forall i :: 0 <= i < |samples| ==>
         Holds16(b, 44 + 2 * i, (samples[i] as int) % 0x1_0000)
  }

  /** A piece of a sequence that is the bytes of a number. */
  lemma LE16At(b: seq<byte>, at: nat, v: nat)
    requires at + 2 <= |b| && b[at..at + 2] == LE16(v)
    ensures Holds16(b, at, v)
  {
    assert b[at] == b[at..at + 2][0] && b[at + 1] == b[at..at + 2][1];
  }

  lemma LE32At(b: seq<byte>, at: nat, v: nat)
    requires at + 4 <= |b| && b[at..at + 4] == LE32(v)
    ensures Holds32(b, at, v)
  {
    var p := b[at..at + 4];
    assert b[at] == p[0] && b[at + 1] == p[1] && b[at + 2] == p[2] && b[at + 3] == p[3];
    LE32Bytes(v);
  }

  lemma Byte0(v: nat, high: nat, low: nat)
    requires v == 0x100 * high + low && low < 0x100
    ensures v / 0x100 == high && v % 0x100 == low
  {
  }

  lemma Byte1(v: nat, high: nat, low: nat)
    requires v == 0x1_0000 * high + low && low < 0x1_0000
    ensures v / 0x1_0000 == high && v % 0x1_0000 == low
  {
  }

  lemma Byte2(v: nat, high: nat, low: nat)
    requires v == 0x100_0000 * high + low && low < 0x100_0000
    ensures v / 0x100_0000 == high
  {
  }

  /** The four bytes of a number. */
  lemma BytesOf(v: nat, q: nat, d: nat, c: nat, b: nat, a: nat)
    requires v == 0x1_0000_0000 * q + 0x100_0000 * d + 0x1_0000 * c + 0x100 * b + a
    requires a < 256 && b < 256 && c < 256 && d < 256
    ensures v % 256 == a && v / 256 % 256 == b && v / 0x1_0000 % 256 == c && v / 0x100_0000 % 256 == d
  {
    Byte0(v, 0x100_0000 * q + 0x1_0000 * d + 0x100 * c + b, a);
    Byte0(0x100_0000 * q + 0x1_0000 * d + 0x100 * c + b, 0x1_0000 * q + 0x100 * d + c, b);
    Byte1(v, 0x1_0000 * q + 0x100 * d + c, 0x100 * b + a);
    Byte0(0x1_0000 * q + 0x100 * d + c, 0x100 * q + d, c);
    Byte2(v, 0x100 * q + d, 0x1_0000 * c + 0x100 * b + a);
    Byte0(0x100 * q + d, q, d);
  }

  lemma LE16Bytes(v: nat)
    requires v < 0x1_0000
    ensures LE16(v) == [v % 256, v / 256]
  {
    Byte1(v, 0, v);
  }

  lemma LE32Bytes(v: nat)
    ensures Holds32(LE32(v), 0, v)
  {
    var w := v % 0x1_0000_0000;
    var lo, hi := w % 0x1_0000, w / 0x1_0000;
    LE16Bytes(lo);
    LE16Bytes(hi);
    assert LE32(v) == [lo % 256, lo / 256] + [hi % 256, hi / 256];
    BytesOf(v, v / 0x1_0000_0000, hi / 256, hi % 256, lo / 256, lo % 256);
  }

  lemma SpellsAt(b: seq<byte>, at: nat, id: seq<byte>, text: string)
    requires |id| == |text| && at + |id| <= |b| && b[at..at + |id|] == id && Spells(id, 0, text)
    ensures Spells(b, at, text)
  {
    forall i | 0 <= i < |text|
      ensures b[at + i] as int == text[i] as int
    {
      assert b[at + i] == b[at..at + |id|][i] == id[0 + i];
    }
  }

  lemma NamesAreSpelled()
    ensures Spells(RIFF, 0, "RIFF") && Spells(WAVE, 0, "WAVE") && Spells(FMT, 0, "fmt ") && Spells(DATA, 0, "data")
  {
  }

  lemma {:induction false} SampleBytesAt(samples: seq<int16>, i: nat)
    requires i < |samples|
    ensures SampleBytes(samples)[2 * i..2 * i + 2] == LE16(Unsigned16(samples[i]))
  {
    var last := |samples| - 1;
    if i == last {
      Cut(SampleBytes(samples[..last]), LE16(Unsigned16(samples[last])));
    } else {
      SampleBytesAt(samples[..last], i);
      assert SampleBytes(samples)[2 * i..2 * i + 2] == SampleBytes(samples[..last])[2 * i..2 * i + 2];
    }
  }

  /** Where the pieces of the file lie. */
  lemma PiecesOf(size: seq<byte>, n: seq<byte>, format: seq<byte>, m: seq<byte>, data: seq<byte>)
    requires |size| == |n| == |m| == 4 && |format| == 16
    ensures var b := RIFF + size + WAVE + (FMT + n + format + (DATA + m + data));
            && |b| == 44 + |data|
            && b[0..4] == RIFF && b[4..8] == size && b[8..12] == WAVE && b[12..16] == FMT && b[16..20] == n
            && b[20..36] == format && b[36..40] == DATA && b[40..44] == m && b[44..] == data
  {
  }

  lemma {:induction false} Within(b: seq<byte>, from: nat, to: nat, i: nat, j: nat)
    requires from <= to <= |b| && i <= j <= to - from
    ensures b[from..to][i..j] == b[from + i..from + j]
  {
    forall k | 0 <= k < j - i
      ensures b[from..to][i..j][k] == b[from + i..from + j][k]
    {
    }
  }

  lemma {:induction false} FormatIsPlain(b: seq<byte>, channels: nat, rate: nat)
    requires |b| >= 36 && b[20..36] == FormatBytes(channels, rate)
    ensures Holds16(b, 20, 1) && Holds16(b, 22, channels) && Holds32(b, 24, rate) && Holds32(b, 28, rate * 4)
    ensures Holds16(b, 32, channels * 2) && Holds16(b, 34, 16)
  {
    var f := b[20..36];
    ReadFields(LE16(1), LE16(channels), LE32(rate), LE32(rate * 4), LE16(channels * 2), LE16(16));
    Within(b, 20, 36, 0, 2);
    Within(b, 20, 36, 2, 4);
    Within(b, 20, 36, 4, 8);
    Within(b, 20, 36, 8, 12);
    Within(b, 20, 36, 12, 14);
    Within(b, 20, 36, 14, 16);
    LE16At(b, 20, 1);
    LE16At(b, 22, channels);
    LE32At(b, 24, rate);
    LE32At(b, 28, rate * 4);
    LE16At(b, 32, channels * 2);
    LE16At(b, 34, 16);
  }

  lemma {:induction false} SamplesArePlain(b: seq<byte>, samples: seq<int16>)
    requires |b| == 44 + 2 * |samples| && b[44..] == SampleBytes(samples)
    ensures forall i :: 0 <= i < |samples| ==>
              Holds16(b, 44 + 2 * i, (samples[i] as int) % 0x1_0000)
  {
    forall i | 0 <= i < |samples|
      ensures Holds16(b, 44 + 2 * i, (samples[i] as int) % 0x1_0000)
    {
      SampleIsPlain(b, samples, i);
    }
  }

  lemma {:induction false} WithinRest(b: seq<byte>, from: nat, i: nat, j: nat)
    requires from <= |b| && i <= j <= |b| - from
    ensures b[from..][i..j] == b[from + i..from + j]
  {
    forall k | 0 <= k < j - i
      ensures b[from..][i..j][k] == b[from + i..from + j][k]
    {
    }
  }

  lemma {:induction false} SampleIsPlain(b: seq<byte>, samples: seq<int16>, i: nat)
    requires |b| == 44 + 2 * |samples| && b[44..] == SampleBytes(samples) && i < |samples|
    ensures Holds16(b, 44 + 2 * i, (samples[i] as int) % 0x1_0000)
  {
    SampleBytesAt(samples, i);
    WithinRest(b, 44, 2 * i, 2 * i + 2);
    LE16At(b, 44 + 2 * i, Unsigned16(samples[i]));
  }

  /** What the writer lays down is such a file. */
  lemma {:induction false} WavIsPlain(channels: nat, rate: nat, samples: seq<int16>)
    ensures IsWavFile(WavBytes(channels, rate, samples), channels, rate, samples)
  {
    var b, n := WavBytes(channels, rate, samples), 2 * |samples|;
    PiecesOf(LE32(36 + n), LE32(16), FormatBytes(channels, rate), LE32(n), SampleBytes(samples));
    NamesAreSpelled();
    SpellsAt(b, 0, RIFF, "RIFF");
    SpellsAt(b, 8, WAVE, "WAVE");
    SpellsAt(b, 12, FMT, "fmt ");
    SpellsAt(b, 36, DATA, "data");
    LE32At(b, 4, 36 + n);
    LE32At(b, 16, 16);
    LE32At(b, 40, n);
    FormatIsPlain(b, channels, rate);
    SamplesArePlain(b, samples);
  }
}

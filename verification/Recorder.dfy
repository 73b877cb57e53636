/**
 The recorder worker: keeps one list of sample chunks per channel, and on
 request merges, interleaves, quantises and serialises them as a WAV file.
 */
module Recorder {
  import opened Bytes
  import opened Pcm
  import opened Riff
  import opened Sequences

  type Sample = real

  /** What the page posts to the worker after the one `init`. */
  datatype Message =
    | Record(buffer: seq<seq<Sample>>)
    | Clear
    | ExportWav
    | GetBuffer

  /** A recording message carries one array per channel, all of one length, as the audio node delivers them. */
  ghost predicate Fits(m: Message, channels: nat) {
    m.Record? ==>
      && |m.buffer| == channels
      && (forall c :: 0 <= c < channels ==> |m.buffer[c]| == |m.buffer[0]|)
  }

  function Flatten(chunks: seq<seq<Sample>>): seq<Sample> {
    if chunks == [] then []
    else Flatten(chunks[..|chunks| - 1]) + chunks[|chunks| - 1]
  }

  lemma FlattenOfPush(chunks: seq<seq<Sample>>, x: seq<Sample>)
    ensures Flatten(chunks + [x]) == Flatten(chunks) + x
  {
    assert (chunks + [x])[..|chunks|] == chunks;
  }

  lemma {:induction false} FlattenOfConcat(a: seq<seq<Sample>>, b: seq<seq<Sample>>)
    ensures Flatten(a + b) == Flatten(a) + Flatten(b)
  {
    if b == [] {
      assert a + b == a;
    } else {
      var last := |b| - 1;
      assert (a + b)[..|a| + last] == a + b[..last];
      FlattenOfConcat(a, b[..last]);
    }
  }

  /** One chunk more, and still within the whole. */
  lemma FlattenOfPrefix(chunks: seq<seq<Sample>>, i: nat)
    requires i < |chunks|
    ensures Flatten(chunks[..i + 1]) == Flatten(chunks[..i]) + chunks[i]
    ensures |Flatten(chunks[..i + 1])| <= |Flatten(chunks)|
  {
    FlattenOfPush(chunks[..i], chunks[i]);
    FlattenOfConcat(chunks[..i + 1], chunks[i + 1..]);
    assert chunks[..i] + [chunks[i]] == chunks[..i + 1];
    assert chunks[..i + 1] + chunks[i + 1..] == chunks;
  }

  // ---------- Interleaving ----------

  function Interleaved<T>(l: seq<T>, r: seq<T>): (s: seq<T>)
    requires |l| == |r|
    ensures |s| == 2 * |l|
  {
    if l == [] then []
    else
      var last := |l| - 1;
      Interleaved(l[..last], r[..last]) + [l[last], r[last]]
  }

  function Lefts<T>(s: seq<T>): seq<T> {
    seq(|s| / 2, i requires 0 <= i < |s| / 2 => s[2 * i])
  }

  function Rights<T>(s: seq<T>): seq<T> {
    seq(|s| / 2, i requires 0 <= i < |s| / 2 => s[2 * i + 1])
  }

  lemma {:induction false} InterleavedAt<T>(l: seq<T>, r: seq<T>, i: nat)
    requires |l| == |r| && i < |l|
    ensures Interleaved(l, r)[2 * i] == l[i] && Interleaved(l, r)[2 * i + 1] == r[i]
  {
    if i < |l| - 1 {
      InterleavedAt(l[..|l| - 1], r[..|l| - 1], i);
    }
  }

  lemma {:induction false} SplitOfInterleaved<T>(l: seq<T>, r: seq<T>)
    requires |l| == |r|
    ensures Lefts(Interleaved(l, r)) == l && Rights(Interleaved(l, r)) == r
  {
    forall i: nat | i < |l|
      ensures Lefts(Interleaved(l, r))[i] == l[i] && Rights(Interleaved(l, r))[i] == r[i]
    {
      InterleavedAt(l, r, i);
    }
  }

  lemma {:induction false} InterleavedOfSplit<T>(s: seq<T>)
    requires |s| % 2 == 0
    ensures Interleaved(Lefts(s), Rights(s)) == s
  {
    var whole := Interleaved(Lefts(s), Rights(s));
    forall k: nat | k < |s|
      ensures whole[k] == s[k]
    {
      InterleavedAt(Lefts(s), Rights(s), k / 2);
      assert k == 2 * (k / 2) + k % 2;
    }
  }

  /** Interleaving and taking every other sample undo each other, both ways. */
  lemma InterleaveRoundTrip<T>(l: seq<T>, r: seq<T>, s: seq<T>)
    requires |l| == |r| && |s| % 2 == 0
    ensures Lefts(Interleaved(l, r)) == l && Rights(Interleaved(l, r)) == r
    ensures Interleaved(Lefts(s), Rights(s)) == s
  {
    SplitOfInterleaved(l, r);
    InterleavedOfSplit(s);
  }

  function Quantised(s: seq<Sample>): (q: seq<int16>)
    ensures |q| == |s|
    ensures forall i :: 0 <= i < |s| ==> q[i] == Quantise(s[i])
  {
    seq(|s|, i requires 0 <= i < |s| => Quantise(s[i]))
  }

  lemma {:induction false} BytesOfNext(head: seq<byte>, s: seq<Sample>, x: Sample)
    ensures head + SampleBytes(Quantised(s + [x]))
         == head + SampleBytes(Quantised(s)) + LE16(Unsigned16(Quantise(x)))
  {
    var q := Quantised(s + [x]);
    assert q[..|s|] == Quantised(s) && q[|s|] == Quantise(x);
    Associate(head, SampleBytes(Quantised(s)), LE16(Unsigned16(Quantise(x))));
  }

  // ---------- Writing into a byte view ----------

  method SetUint16(view: array<byte>, offset: nat, v: nat)
    requires offset + 2 <= view.Length
    modifies view
    ensures view[..offset + 2] == old(view[..offset]) + LE16(v)
  {
    var b := LE16(v);
    view[offset] := b[0];
    view[offset + 1] := b[1];
    assert view[..offset] == old(view[..offset]);
  }

  method SetUint32(view: array<byte>, offset: nat, v: nat)
    requires offset + 4 <= view.Length
    modifies view
    ensures view[..offset + 4] == old(view[..offset]) + LE32(v)
  {
    WriteBytes(view, offset, LE32(v));
  }

  /** writeString: one byte per character. */
  method WriteBytes(view: array<byte>, offset: nat, s: seq<byte>)
    requires offset + |s| <= view.Length
    modifies view
    ensures view[..offset + |s|] == old(view[..offset]) + s
  {
    var i := 0;
    while i < |s|
      invariant 0 <= i <= |s|
      invariant view[..offset + i] == old(view[..offset]) + s[..i]
    {
      view[offset + i] := s[i];
      assert view[..offset + i + 1] == view[..offset + i] + [s[i]];
      i := i + 1;
    }
    assert s[..i] == s;
  }

  /** One round of floatTo16BitPCM. */
  method SetSample(view: array<byte>, offset: nat, x: Sample)
    requires offset + 2 <= view.Length
    modifies view
    ensures view[..offset + 2] == old(view[..offset]) + LE16(Unsigned16(Quantise(x)))
  {
    var s := Max(-1.0, Min(1.0, x));
    var v := ToInt16(if s < 0.0 then s * 32768.0 else s * 32767.0);
    SetUint16(view, offset, Unsigned16(v));
  }

  /** Sample i goes behind the ones before it. */
  method SetNext(view: array<byte>, offset: nat, input: array<Sample>, i: nat, ghost head: seq<byte>)
    requires i < input.Length && offset + 2 * i + 2 <= view.Length
    requires view[..offset + 2 * i] == head + SampleBytes(Quantised(input[..i]))
    modifies view
    ensures view[..offset + 2 * i + 2] == head + SampleBytes(Quantised(input[..i + 1]))
  {
    BytesOfNext(head, input[..i], input[i]);
    assert input[..i + 1] == input[..i] + [input[i]];
    SetSample(view, offset + 2 * i, input[i]);
  }

  method FloatTo16BitPCM(view: array<byte>, offset: nat, input: array<Sample>)
    requires offset + 2 * input.Length <= view.Length
    modifies view
    ensures view[..offset + 2 * input.Length] == old(view[..offset]) + SampleBytes(Quantised(input[..]))
  {
    ghost var head := view[..offset];
    var i := 0;
    assert SampleBytes(Quantised(input[..0])) == [];
    while i < input.Length
      invariant 0 <= i <= input.Length
      invariant view[..offset + 2 * i] == head + SampleBytes(Quantised(input[..i]))
    {
      SetNext(view, offset, input, i, head);
      i := i + 1;
    }
    assert input[..i] == input[..];
  }

  lemma FormatLayout(head: seq<byte>, id: seq<byte>, n: seq<byte>, tag: seq<byte>, ch: seq<byte>, rate: seq<byte>,
                     byteRate: seq<byte>, align: seq<byte>, bits: seq<byte>)
    ensures head + id + n + tag + ch + rate + byteRate + align + bits
         == head + (id + n + (tag + ch + rate + byteRate + align + bits))
  {
  }

  /** The format chunk, from its name at 12 to the bits per sample at 34. */
  method WriteFormat(view: array<byte>, numChannels: nat, sampleRate: nat)
    requires view.Length >= 36
    modifies view
    ensures view[..36] == old(view[..12]) + ChunkBytes(FMT, FormatBytes(numChannels, sampleRate))
  {
    WriteBytes(view, 12, FMT);
    SetUint32(view, 16, 16);
    SetUint16(view, 20, 1);
    SetUint16(view, 22, numChannels);
    SetUint32(view, 24, sampleRate);
    SetUint32(view, 28, sampleRate * 4);
    SetUint16(view, 32, numChannels * 2);
    SetUint16(view, 34, 16);
    FormatLayout(old(view[..12]), FMT, LE32(16), LE16(1), LE16(numChannels), LE32(sampleRate), LE32(sampleRate * 4),
                 LE16(numChannels * 2), LE16(16));
  }

  method WriteRiffHeader(view: array<byte>, size: nat)
    requires view.Length >= 12
    modifies view
    ensures view[..12] == RIFF + LE32(size) + WAVE
  {
    WriteBytes(view, 0, RIFF);
    SetUint32(view, 4, size);
    WriteBytes(view, 8, WAVE);
  }

  method WriteData(view: array<byte>, samples: array<Sample>)
    requires view.Length == 44 + 2 * samples.Length
    modifies view
    ensures view[..] == old(view[..36]) + ChunkBytes(DATA, SampleBytes(Quantised(samples[..])))
  {
    WriteBytes(view, 36, DATA);
    SetUint32(view, 40, samples.Length * 2);
    FloatTo16BitPCM(view, 44, samples);
    assert view[..] == view[..44 + 2 * samples.Length];
  }

  lemma {:induction false} FileLayout(numChannels: nat, sampleRate: nat, samples: seq<Sample>)
    ensures WavBytes(numChannels, sampleRate, Quantised(samples)) ==
            RIFF + LE32(36 + |samples| * 2) + WAVE + ChunkBytes(FMT, FormatBytes(numChannels, sampleRate))
            + ChunkBytes(DATA, SampleBytes(Quantised(samples)))
  {
    Associate(RIFF + LE32(36 + |samples| * 2) + WAVE, ChunkBytes(FMT, FormatBytes(numChannels, sampleRate)),
              ChunkBytes(DATA, SampleBytes(Quantised(samples))));
  }

  method LayDown(view: array<byte>, samples: array<Sample>, numChannels: nat, sampleRate: nat)
    requires view.Length == 44 + samples.Length * 2
    modifies view
    ensures view[..] == WavBytes(numChannels, sampleRate, Quantised(samples[..]))
  {
    WriteRiffHeader(view, 36 + samples.Length * 2);
    WriteFormat(view, numChannels, sampleRate);
    WriteData(view, samples);
    FileLayout(numChannels, sampleRate, samples[..]);
  }

  method EncodeWav(samples: array<Sample>, numChannels: nat, sampleRate: nat) returns (view: array<byte>)
    ensures fresh(view) && view[..] == WavBytes(numChannels, sampleRate, Quantised(samples[..]))
    ensures IsWavFile(view[..], numChannels, sampleRate, Quantised(samples[..]))
  {
    view := new byte[44 + samples.Length * 2](_ => 0);
    LayDown(view, samples, numChannels, sampleRate);
    WavIsPlain(numChannels, sampleRate, Quantised(samples[..]));
  }
}

/**
 The worker's state and its message handlers, and what a whole history of
 messages makes it export.
 */
module Worker {
  import opened Bytes
  import opened Options
  import opened Pcm
  import opened Recorder
  import opened Riff
  import opened Sequences

  /** What one message does to the samples held for channel c. */
  function Heard(tape: seq<Sample>, m: Message, c: nat): seq<Sample> {
    if m.Clear? then []
    else if m.Record? && c < |m.buffer| then tape + m.buffer[c]
    else tape
  }

  /** Samples of channel c recorded by a history since its last Clear. */
  function Since(history: seq<Message>, c: nat): seq<Sample> {
    if history == [] then []
    else Heard(Since(history[..|history| - 1], c), history[|history| - 1], c)
  }

  ghost predicate AllFit(history: seq<Message>, channels: nat) {
    forall i :: 0 <= i < |history| ==> Fits(history[i], channels)
  }

  /** All samples of channel c in a history, clears or not. */
  function RecordedIn(history: seq<Message>, c: nat): seq<Sample> {
    if history == [] then []
    else RecordedIn(history[..|history| - 1], c) + Heard([], history[|history| - 1], c)
  }

  lemma SinceOfNext(history: seq<Message>, m: Message, c: nat)
    ensures Since(history + [m], c) == Heard(Since(history, c), m, c)
  {
    assert (history + [m])[..|history|] == history;
  }

  lemma HeardAppends(tape: seq<Sample>, m: Message, c: nat)
    requires !m.Clear?
    ensures Heard(tape, m, c) == tape + Heard([], m, c)
  {
  }

  lemma {:induction false} SinceOfSuffix(before: seq<Message>, after: seq<Message>, c: nat)
    requires forall i :: 0 <= i < |after| ==> !after[i].Clear?
    ensures Since(before + after, c) == Since(before, c) + RecordedIn(after, c)
    decreases |after|
  {
    if after == [] {
      assert before + after == before;
    } else {
      var init, last := after[..|after| - 1], after[|after| - 1];
      assert before + after == before + init + [last];
      SinceOfSuffix(before, init, c);
      SinceOfNext(before + init, last, c);
      HeardAppends(Since(before + init, c), last, c);
      Associate(Since(before, c), RecordedIn(init, c), Heard([], last, c));
    }
  }

  /** Since is what it says: the records after the last Clear, in order, and nothing before it. */
  lemma SinceLastClear(before: seq<Message>, after: seq<Message>, c: nat)
    requires forall i :: 0 <= i < |after| ==> !after[i].Clear?
    ensures Since(before + [Clear] + after, c) == RecordedIn(after, c)
    ensures Since(after, c) == RecordedIn(after, c)
  {
    SinceOfNext(before, Clear, c);
    SinceOfSuffix(before + [Clear], after, c);
    SinceOfSuffix([], after, c);
    assert [] + after == after;
  }

  /** The records of a history, message by message: each its own samples of the channel, all others nothing. */
  lemma {:induction false} RecordedIsConcatenation(a: seq<Message>, b: seq<Message>, buffer: seq<seq<Sample>>, c: nat)
    requires c < |buffer|
    ensures RecordedIn(a + b, c) == RecordedIn(a, c) + RecordedIn(b, c)
    ensures RecordedIn([Record(buffer)], c) == buffer[c]
    ensures RecordedIn([], c) == RecordedIn([Clear], c) == []
    ensures RecordedIn([ExportWav], c) == RecordedIn([GetBuffer], c) == []
  {
    if b == [] {
      assert a + b == a;
    } else {
      var init, last := b[..|b| - 1], b[|b| - 1];
      assert (a + b)[..|a + b| - 1] == a + init && (a + b)[|a + b| - 1] == last;
      RecordedIsConcatenation(a, init, buffer, c);
      Associate(RecordedIn(a, c), RecordedIn(init, c), Heard([], last, c));
    }
  }

  class RecorderWorker {
    var recLength: nat
    var recBuffers: seq<seq<seq<Sample>>> // per channel, the chunks recorded
    var sampleRate: nat
    var numChannels: nat

    /** recLength is the summed length of each channel's chunks. */
    ghost predicate Valid()
      reads this
    {
      && |recBuffers| == numChannels > 0
      && forall c :: 0 <= c < numChannels ==> |Flatten(recBuffers[c])| == recLength
    }

    /** The worker holds exactly what the history recorded since its last Clear. */
    ghost predicate Reflects(history: seq<Message>)
      requires Valid()
      reads this
    {
      forall c :: 0 <= c < numChannels ==> Flatten(recBuffers[c]) == Since(history, c)
    }

    /** The init message. */
    constructor (sampleRate: nat, numChannels: nat)
      requires numChannels > 0
      ensures Valid() && Reflects([])
      ensures this.sampleRate == sampleRate && this.numChannels == numChannels
    {
      this.sampleRate, this.numChannels := sampleRate, numChannels;
      recLength, recBuffers := 0, [];
      new;
      InitBuffers();
    }

    method InitBuffers()
      requires recBuffers == []
      modifies this`recBuffers
      ensures |recBuffers| == numChannels && forall c :: 0 <= c < numChannels ==> recBuffers[c] == []
    {
      var channel := 0;
      while channel < numChannels
        invariant 0 <= channel == |recBuffers| <= numChannels
        invariant forall c :: 0 <= c < channel ==> recBuffers[c] == []
      {
        recBuffers := recBuffers + [[]];
        channel := channel + 1;
      }
    }

    method HandleRecord(buffer: seq<seq<Sample>>)
      requires Valid() && Fits(Record(buffer), numChannels)
      modifies this`recLength, this`recBuffers
      ensures Valid()
      ensures forall c :: 0 <= c < numChannels ==> Flatten(recBuffers[c]) == old(Flatten(recBuffers[c])) + buffer[c]
    {
      var channel := 0;
      while channel < numChannels
        invariant 0 <= channel <= numChannels == |recBuffers| && recLength == old(recLength)
        invariant forall c :: 0 <= c < channel ==> recBuffers[c] == old(recBuffers[c]) + [buffer[c]]
        invariant forall c :: channel <= c < numChannels ==> recBuffers[c] == old(recBuffers[c])
      {
        recBuffers := recBuffers[channel := recBuffers[channel] + [buffer[channel]]];
        channel := channel + 1;
      }
      recLength := recLength + |buffer[0]|;
      forall c | 0 <= c < numChannels
        ensures Flatten(recBuffers[c]) == old(Flatten(recBuffers[c])) + buffer[c]
        ensures |Flatten(recBuffers[c])| == recLength
      {
        assert old(|Flatten(recBuffers[c])| == recLength) && |buffer[c]| == |buffer[0]|;
        FlattenOfPush(old(recBuffers[c]), buffer[c]);
      }
    }

    method HandleClear()
      requires Valid()
      modifies this`recLength, this`recBuffers
      ensures Valid()
      ensures forall c :: 0 <= c < numChannels ==> Flatten(recBuffers[c]) == []
    {
      recLength := 0;
      recBuffers := [];
      InitBuffers();
    }

    /** result.set(chunk, offset), which throws unless the chunk fits. */
    static method Set(result: array<Sample>, chunk: seq<Sample>, offset: nat)
      requires offset + |chunk| <= result.Length
      modifies result
      ensures result[..offset + |chunk|] == old(result[..offset]) + chunk
    {
      var i := 0;
      while i < |chunk|
        invariant 0 <= i <= |chunk|
        invariant result[..offset + i] == old(result[..offset]) + chunk[..i]
      {
        result[offset + i] := chunk[i];
        assert result[..offset + i + 1] == result[..offset + i] + [chunk[i]];
        i := i + 1;
      }
      assert chunk[..i] == chunk;
    }

    /** With the length the worker keeps, every chunk fits and the merge is plain concatenation. */
    static method MergeBuffers(chunks: seq<seq<Sample>>, length: nat) returns (result: array<Sample>)
      requires |Flatten(chunks)| == length
      ensures fresh(result) && result[..] == Flatten(chunks)
    {
      result := new Sample[length](_ => 0.0);
      var offset, i := 0, 0;
      assert chunks[..0] == [];
      while i < |chunks|
        invariant 0 <= i <= |chunks|
        invariant offset == |Flatten(chunks[..i])| <= length
        invariant result[..offset] == Flatten(chunks[..i])
      {
        FlattenOfPrefix(chunks, i);
        Set(result, chunks[i], offset);
        offset := offset + |chunks[i]|;
        i := i + 1;
      }
      assert chunks[..i] == chunks;
      assert result[..] == result[..offset];
    }

    static method Interleave(inputL: array<Sample>, inputR: array<Sample>) returns (result: array<Sample>)
      requires inputL.Length == inputR.Length
      ensures fresh(result) && result[..] == Interleaved(inputL[..], inputR[..])
    {
      var length := inputL.Length + inputR.Length;
      result := new Sample[length](_ => 0.0);
      var index, inputIndex := 0, 0;
      while index < length
        invariant index == 2 * inputIndex <= length
        invariant result[..index] == Interleaved(inputL[..inputIndex], inputR[..inputIndex])
      {
        InterleavedOfNext(inputL[..inputIndex], inputR[..inputIndex], inputL[inputIndex], inputR[inputIndex]);
        assert inputL[..inputIndex + 1] == inputL[..inputIndex] + [inputL[inputIndex]];
        assert inputR[..inputIndex + 1] == inputR[..inputIndex] + [inputR[inputIndex]];
        ghost var done := result[..index];
        result[index] := inputL[inputIndex];
        index := index + 1;
        result[index] := inputR[inputIndex];
        index := index + 1;
        assert result[..index] == done + [inputL[inputIndex], inputR[inputIndex]];
        inputIndex := inputIndex + 1;
      }
      assert inputL[..inputIndex] == inputL[..] && inputR[..inputIndex] == inputR[..];
      assert result[..] == result[..index];
    }

    static lemma InterleavedOfNext(l: seq<Sample>, r: seq<Sample>, x: Sample, y: Sample)
      requires |l| == |r|
      ensures Interleaved(l + [x], r + [y]) == Interleaved(l, r) + [x, y]
    {
      assert (l + [x])[..|l|] == l && (r + [y])[..|r|] == r;
    }

    /** What the exported file is made of: both channels of two, otherwise the first channel alone. */
    ghost function Exported(): seq<Sample>
      requires Valid()
      reads this
    {
      if numChannels == 2 then Interleaved(Flatten(recBuffers[0]), Flatten(recBuffers[1]))
      else Flatten(recBuffers[0])
    }

    method HandleExportWav() returns (view: array<byte>)
      requires Valid()
      ensures fresh(view) && view[..] == WavBytes(numChannels, sampleRate, Quantised(Exported()))
      ensures IsWavFile(view[..], numChannels, sampleRate, Quantised(Exported()))
    {
      var buffers: seq<array<Sample>> := HandleGetBuffer();
      var interleaved := buffers[0];
      if numChannels == 2 {
        interleaved := Interleave(buffers[0], buffers[1]);
      }
      view := EncodeWav(interleaved, numChannels, sampleRate);
    }

    method HandleGetBuffer() returns (buffers: seq<array<Sample>>)
      requires Valid()
      ensures |buffers| == numChannels
      ensures forall c :: 0 <= c < numChannels ==> fresh(buffers[c]) && buffers[c][..] == Flatten(recBuffers[c])
    {
      buffers := [];
      var channel := 0;
      while channel < numChannels
        invariant 0 <= channel == |buffers| <= numChannels
        invariant forall c :: 0 <= c < channel ==> fresh(buffers[c]) && buffers[c][..] == Flatten(recBuffers[c])
      {
        var merged := MergeBuffers(recBuffers[channel], recLength);
        buffers := buffers + [merged];
        channel := channel + 1;
      }
    }

    /** onmessage: keeps the worker in step with the history. */
    method Handle(m: Message, ghost history: seq<Message>)
      requires Valid() && Fits(m, numChannels) && Reflects(history)
      modifies this`recLength, this`recBuffers
      ensures Valid() && Reflects(history + [m])
    {
      forall c: nat | c < numChannels {
        SinceOfNext(history, m, c);
      }
      match m {
        case Record(buffer) => HandleRecord(buffer);
        case Clear => HandleClear();
        case ExportWav => var view := HandleExportWav();
        case GetBuffer => var buffers := HandleGetBuffer();
      }
    }

    method HandleAll(history: seq<Message>)
      requires Valid() && AllFit(history, numChannels) && Reflects([])
      modifies this`recLength, this`recBuffers
      ensures Valid() && Reflects(history)
    {
      var i := 0;
      while i < |history|
        invariant 0 <= i <= |history|
        invariant Valid() && Reflects(history[..i])
      {
        assert history[..i + 1] == history[..i] + [history[i]];
        Handle(history[i], history[..i]);
        i := i + 1;
      }
      assert history[..i] == history;
    }
  }

  lemma {:induction false} QuantisedInterleaved(l: seq<Sample>, r: seq<Sample>)
    requires |l| == |r|
    ensures Quantised(Interleaved(l, r)) == Interleaved(Quantised(l), Quantised(r))
  {
    if l == [] {
    } else {
      var last := |l| - 1;
      QuantisedInterleaved(l[..last], r[..last]);
      assert Quantised(l)[..last] == Quantised(l[..last]) && Quantised(r)[..last] == Quantised(r[..last]);
      assert Quantised(Interleaved(l, r))
          == Quantised(Interleaved(l[..last], r[..last])) + [Quantise(l[last]), Quantise(r[last])];
    }
  }

  /** Left, right, left, right. */
  ghost predicate Alternate(samples: seq<int16>, left: seq<int16>, right: seq<int16>) {
    && |samples| == 2 * |left| && |left| == |right|
    && forall i :: 0 <= i < |left| ==> samples[2 * i] == left[i] && samples[2 * i + 1] == right[i]
  }

  lemma {:induction false} InterleavedAlternate(left: seq<int16>, right: seq<int16>)
    requires |left| == |right|
    ensures Alternate(Interleaved(left, right), left, right)
  {
    forall i | 0 <= i < |left|
      ensures Interleaved(left, right)[2 * i] == left[i] && Interleaved(left, right)[2 * i + 1] == right[i]
    {
      InterleavedAt(left, right, i);
    }
  }

  /** The bytes say how many channels, at what rate, and hold the quantised samples of each. */
  ghost predicate Tells(view: seq<byte>, rate: nat, channels: seq<seq<Sample>>) {
    && ReadWav(view).Some?
    && var wav := ReadWav(view).value;
       && wav.channels == |channels| && wav.rate == rate && wav.blockAlign == 2 * |channels|
       && (|channels| == 1 ==> wav.samples == Quantised(channels[0]))
       && (|channels| == 2 ==> Alternate(wav.samples, Quantised(channels[0]), Quantised(channels[1])))
  }

  lemma MonoIsReadBack(rate: nat, l: seq<Sample>)
    requires rate < 0x1_0000_0000 && 36 + 2 * |l| < 0x1_0000_0000
    ensures Tells(WavBytes(1, rate, Quantised(l)), rate, [l])
  {
    WavInRange(1, rate, Quantised(l));
  }

  lemma StereoIsReadBack(rate: nat, l: seq<Sample>, r: seq<Sample>)
    requires |l| == |r| && rate < 0x1_0000_0000 && 36 + 4 * |l| < 0x1_0000_0000
    ensures Tells(WavBytes(2, rate, Quantised(Interleaved(l, r))), rate, [l, r])
  {
    WavInRange(2, rate, Quantised(Interleaved(l, r)));
    SidesAlternate(l, r);
  }

  /**
   From microphone to file and back: whatever was recorded and cleared before,
   reading the exported bytes gives the channel count, the rate and the
   quantised samples of everything recorded since the last Clear.
   */
  method ExportMono(sampleRate: nat, history: seq<Message>) returns (view: array<byte>)
    requires sampleRate < 0x1_0000_0000 && AllFit(history, 1)
    ensures IsWavFile(view[..], 1, sampleRate, Quantised(Since(history, 0)))
    ensures 36 + 2 * |Since(history, 0)| < 0x1_0000_0000 ==> Tells(view[..], sampleRate, [Since(history, 0)])
  {
    var worker := new RecorderWorker(sampleRate, 1);
    worker.HandleAll(history);
    view := worker.HandleExportWav();
    assert worker.numChannels == 1 && worker.Exported() == Since(history, 0);
    if 36 + 2 * |Since(history, 0)| < 0x1_0000_0000 {
      MonoIsReadBack(sampleRate, Since(history, 0));
    }
  }

  method ExportStereo(sampleRate: nat, history: seq<Message>) returns (view: array<byte>)
    requires sampleRate < 0x1_0000_0000 && AllFit(history, 2)
    ensures |Since(history, 0)| == |Since(history, 1)|
    ensures IsWavFile(view[..], 2, sampleRate, Quantised(Interleaved(Since(history, 0), Since(history, 1))))
    ensures Alternate(Quantised(Interleaved(Since(history, 0), Since(history, 1))),
                      Quantised(Since(history, 0)), Quantised(Since(history, 1)))
    ensures 36 + 4 * |Since(history, 0)| < 0x1_0000_0000 ==>
              Tells(view[..], sampleRate, [Since(history, 0), Since(history, 1)])
  {
    var worker := new RecorderWorker(sampleRate, 2);
    worker.HandleAll(history);
    view := worker.HandleExportWav();
    assert |worker.recBuffers| == 2 && |Flatten(worker.recBuffers[0])| == |Flatten(worker.recBuffers[1])|;
    SidesAlternate(Since(history, 0), Since(history, 1));
    if 36 + 4 * |Since(history, 0)| < 0x1_0000_0000 {
      StereoIsReadBack(sampleRate, Since(history, 0), Since(history, 1));
    }
  }

  lemma SidesAlternate(l: seq<Sample>, r: seq<Sample>)
    requires |l| == |r|
    ensures Alternate(Quantised(Interleaved(l, r)), Quantised(l), Quantised(r))
  {
    QuantisedInterleaved(l, r);
    InterleavedAlternate(Quantised(l), Quantised(r));
  }

  ghost predicate TellsFirst(view: seq<byte>, channels: nat, first: seq<Sample>) {
    && ReadWav(view).Some?
    && ReadWav(view).value.channels == channels % 0x1_0000
    && ReadWav(view).value.samples == Quantised(first)
  }

  /**
   With more than two channels too: the file then says how many there are and
   yet holds the first one only.
   */
  method ExportMany(sampleRate: nat, channels: nat, history: seq<Message>) returns (view: array<byte>)
    requires channels > 2 && AllFit(history, channels)
    ensures 36 + 2 * |Since(history, 0)| < 0x1_0000_0000 ==> TellsFirst(view[..], channels, Since(history, 0))
  {
    var worker := new RecorderWorker(sampleRate, channels);
    worker.HandleAll(history);
    view := worker.HandleExportWav();
    WavRoundTrip(channels, sampleRate, Quantised(Since(history, 0)));
  }

  lemma ExportedCount(worker: RecorderWorker)
    requires worker.Valid()
    ensures |worker.Exported()| == worker.numChannels * worker.recLength <==>
            worker.numChannels <= 2 || worker.recLength == 0
  {
    if worker.numChannels > 2 && worker.recLength > 0 {
      assert worker.numChannels * worker.recLength >= 3 * worker.recLength;
    }
  }

  lemma SamplesAreReadBack(channels: nat, rate: nat, samples: seq<int16>)
    requires 36 + 2 * |samples| < 0x1_0000_0000
    ensures ReadWav(WavBytes(channels, rate, samples)).Some?
    ensures ReadWav(WavBytes(channels, rate, samples)).value.samples == samples
  {
    WavRoundTrip(channels, rate, samples);
  }

  /**
   A file of more than two channels lacks samples unless it is empty: reading it
   back gives as many as were recorded exactly for one or two channels.
   */
  lemma OnlyTwoChannelsFit(worker: RecorderWorker, view: seq<byte>)
    requires worker.Valid() && 36 + 2 * |worker.Exported()| < 0x1_0000_0000
    ensures view == WavBytes(worker.numChannels, worker.sampleRate, Quantised(worker.Exported())) ==>
              && ReadWav(view).Some?
              && (|ReadWav(view).value.samples| == worker.numChannels * worker.recLength
                  <==> worker.numChannels <= 2 || worker.recLength == 0)
  {
    SamplesAreReadBack(worker.numChannels, worker.sampleRate, Quantised(worker.Exported()));
    ExportedCount(worker);
  }
}

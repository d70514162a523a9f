/**
 The framing loop of RunWavDecoder (internal/util/audio_utils.go) for PCM output
 without resampling: 16-bit little-endian samples are averaged over the channels and
 cut into frames.  The reader is the list of byte chunks its Read calls returned.
 */
module WavFraming {
  import opened Basics

  type int16 = x: int | -0x8000 <= x < 0x8000

  const MIN_INT32 := -0x8000_0000
  const MAX_INT32 := 0x7fff_ffff

  /** The two's complement value of the low 32 bits. */
  function Wrap32(x: int): int {
    (x + 0x8000_0000) % 0x1_0000_0000 - 0x8000_0000
  }

  /** int16(uint16(lo) | uint16(hi)<<8) */
  function Sample(lo: byte, hi: byte): int16 {
    var u := lo + 256 * hi as int;
    if u < 0x8000 then u else u - 0x1_0000
  }

  /** Go's quotient, rounded toward zero. */
  function Quotient(a: int, b: int): int
    requires b > 0
  {
    if a >= 0 then a / b else -((-a) / b)
  }

  /** The samples of one point, one per channel. */
  function PointSamples(bytes: seq<byte>, channels: nat): (ss: seq<int16>)
    requires |bytes| >= 2 * channels
    ensures |ss| == channels
  {
    seq(channels, c requires 0 <= c < channels => Sample(bytes[2 * c], bytes[2 * c + 1]))
  }

  function Total(ss: seq<int16>): int {
    if ss == [] then 0 else Total(ss[..|ss| - 1]) + ss[|ss| - 1]
  }

  lemma {:induction false} TotalBounds(ss: seq<int16>)
    ensures -0x8000 * |ss| <= Total(ss) <= 0x7fff * |ss|
  {
    if ss != [] { TotalBounds(ss[..|ss| - 1]); }
  }

  ghost predicate FitsInt32(x: int) {
    MIN_INT32 <= x <= MAX_INT32
  }

  lemma {:induction false} TotalOfLowest(n: nat)
    ensures Total(seq(n, _ => -0x8000)) == -0x8000 * n
  {
    if n > 0 {
      TotalOfLowest(n - 1);
      var ss: seq<int16> := seq(n, _ => -0x8000);
      assert ss[..n - 1] == seq(n - 1, _ => -0x8000);
    }
  }

  /** The 32-bit channel sum is exact for every input if and only if there are at
      most 65536 channels; a WAV header can name no more than 65535. */
  lemma ChannelSumFits(n: nat)
    ensures (forall ss: seq<int16> :: |ss| == n ==> FitsInt32(Total(ss))) <==> n <= 65536
  {
    if n <= 65536 {
      forall ss: seq<int16> | |ss| == n
        ensures FitsInt32(Total(ss))
      {
        TotalBounds(ss);
      }
    } else {
      var worst: seq<int16> := seq(n, _ => -0x8000);
      TotalOfLowest(n);
      assert |worst| == n && !FitsInt32(Total(worst));
    }
  }

  /** The average lies between the extreme samples, so it is a 16-bit sample. */
  function Average(ss: seq<int16>): (avg: int16)
    requires ss != []
  {
    TotalBounds(ss);
    QuotientBounds(Total(ss), |ss|);
    Quotient(Total(ss), |ss|)
  }

  lemma QuotientBounds(a: int, n: nat)
    requires n > 0 && -0x8000 * n <= a <= 0x7fff * n
    ensures -0x8000 <= Quotient(a, n) <= 0x7fff
  {
    if a >= 0 {
      DivBound(a, n, 0x7fff);
    } else {
      DivBound(-a, n, 0x8000);
    }
  }

  lemma DivBound(a: nat, n: nat, k: nat)
    requires n > 0 && a <= k * n
    ensures a / n <= k
  {
  }

  // ---------- The frames of a byte stream ----------

  function Samples(bytes: seq<byte>, channels: nat): seq<int16>
    requires channels > 0
  {
    if |bytes| < 2 * channels then []
    else [Average(PointSamples(bytes, channels))] + Samples(bytes[2 * channels..], channels)
  }

  function Zeros(n: nat): seq<int16> {
    seq(n, _ => 0)
  }

  /** Cut into frames, the last one padded with zeros. */
  function Frames(samples: seq<int16>, size: nat): seq<seq<int16>>
    requires size > 0
  {
    if samples == [] then []
    else if |samples| < size then [samples + Zeros(size - |samples|)]
    else [samples[..size]] + Frames(samples[size..], size)
  }

  function Concat(chunks: seq<seq<byte>>): seq<byte> {
    if chunks == [] then [] else chunks[0] + Concat(chunks[1..])
  }

  // ---------- What the samples mean ----------

  /** A sample as a writer stores it, low byte first. */
  function SampleBytes(v: int16): (b: seq<byte>)
    ensures |b| == 2
  {
    var u := v % 0x1_0000;
    [u % 256, u / 256]
  }

  lemma SampleRoundTrip(v: int16)
    ensures Sample(SampleBytes(v)[0], SampleBytes(v)[1]) == v
  {
  }

  function WriteAll(ss: seq<int16>): (b: seq<byte>)
    ensures |b| == 2 * |ss|
  {
    if ss == [] then [] else SampleBytes(ss[0]) + WriteAll(ss[1..])
  }

  lemma {:induction false} WriteAt(ss: seq<int16>, k: nat)
    requires k < |ss|
    ensures WriteAll(ss)[2 * k] == SampleBytes(ss[k])[0] && WriteAll(ss)[2 * k + 1] == SampleBytes(ss[k])[1]
  {
    if k > 0 { WriteAt(ss[1..], k - 1); }
  }

  /** The samples of one point, written one after the other, are read back. */
  lemma PointRoundTrip(ss: seq<int16>, later: seq<byte>)
    ensures PointSamples(WriteAll(ss) + later, |ss|) == ss
  {
    var bytes := WriteAll(ss) + later;
    forall k | 0 <= k < |ss| ensures Sample(bytes[2 * k], bytes[2 * k + 1]) == ss[k] {
      PointAt(ss, later, k);
    }
    PointOf(bytes, ss);
  }

  lemma PointOf(bytes: seq<byte>, ss: seq<int16>)
    requires |bytes| >= 2 * |ss| && forall k :: 0 <= k < |ss| ==> Sample(bytes[2 * k], bytes[2 * k + 1]) == ss[k]
    ensures PointSamples(bytes, |ss|) == ss
  {
  }

  lemma PointAt(ss: seq<int16>, later: seq<byte>, k: nat)
    requires k < |ss|
    ensures var b := WriteAll(ss) + later; 2 * k + 1 < |b| && Sample(b[2 * k], b[2 * k + 1]) == ss[k]
  {
    WriteAt(ss, k);
    SampleRoundTrip(ss[k]);
    var b := WriteAll(ss) + later;
    assert b[2 * k] == WriteAll(ss)[2 * k] && b[2 * k + 1] == WriteAll(ss)[2 * k + 1];
  }

  function WritePoints(points: seq<seq<int16>>): seq<byte> {
    if points == [] then [] else WriteAll(points[0]) + WritePoints(points[1..])
  }

  function Averages(points: seq<seq<int16>>): seq<int16>
    requires forall k :: 0 <= k < |points| ==> points[k] != []
  {
    if points == [] then [] else [Average(points[0])] + Averages(points[1..])
  }

  /** A written stream decodes to the averages of its points. */
  lemma {:induction false} PointsDecoded(points: seq<seq<int16>>, channels: nat)
    requires channels > 0 && forall k :: 0 <= k < |points| ==> |points[k]| == channels
    ensures Samples(WritePoints(points), channels) == Averages(points)
  {
    if points != [] {
      var bytes := WritePoints(points);
      PointRoundTrip(points[0], WritePoints(points[1..]));
      assert bytes[2 * channels..] == WritePoints(points[1..]);
      PointsDecoded(points[1..], channels);
    }
  }

  function Magnitude(x: int): nat {
    if x >= 0 then x else -x
  }

  /** The average is the mean of the samples, rounded toward zero. */
  lemma AverageIsMean(ss: seq<int16>)
    requires ss != []
    ensures var a, t, n := Average(ss), Total(ss), |ss|;
            && (t >= 0 ==> a >= 0) && (t <= 0 ==> a <= 0)
            && Magnitude(a) * n <= Magnitude(t) < Magnitude(a) * n + n
  {
    Truncated(Total(ss), |ss|);
    Divides(Magnitude(Total(ss)), |ss|);
  }

  lemma Truncated(t: int, n: nat)
    requires n > 0
    ensures Magnitude(Quotient(t, n)) == Magnitude(t) / n && (t >= 0 ==> Quotient(t, n) >= 0) && (t <= 0 ==> Quotient(t, n) <= 0)
  {
    Divides(Magnitude(t), n);
  }

  lemma Divides(a: nat, n: nat)
    requires n > 0
    ensures (a / n) * n <= a < (a / n) * n + n && a / n >= 0
  {
    assert a == (a / n) * n + a % n;
  }

  /** Of one channel the average is the sample itself. */
  lemma MonoAverage(ss: seq<int16>)
    requires |ss| == 1
    ensures Average(ss) == ss[0]
  {
    assert ss[..0] == [];
    assert Total(ss) == ss[0];
  }

  /** The low 32 bits are the number itself exactly within their range. */
  lemma WrapsIff(x: int)
    ensures FitsInt32(Wrap32(x)) && (Wrap32(x) - x) % 0x1_0000_0000 == 0
    ensures Wrap32(x) == x <==> FitsInt32(x)
  {
  }

  // ---------- The loop ----------

  lemma TotalNext(ss: seq<int16>, n: nat)
    requires n < |ss| <= 65536
    ensures Total(ss[..n + 1]) == Total(ss[..n]) + ss[n] && FitsInt32(Total(ss[..n + 1]))
  {
    assert ss[..n + 1][..n] == ss[..n];
    TotalBounds(ss[..n + 1]);
  }

  /** The inner loop over the channels of one point. */
  method Downmix(chunk: seq<byte>, at: nat, channels: nat) returns (avg: int16)
    requires 0 < channels <= 65536 && at + 2 * channels <= |chunk|
    ensures avg == Average(PointSamples(chunk[at..], channels))
  {
    ghost var ss := PointSamples(chunk[at..], channels);
    var sampleSum := 0;
    for ch := 0 to channels
      invariant sampleSum == Total(ss[..ch])
    {
      var pos := at + 2 * ch;
      var sample := Sample(chunk[pos], chunk[pos + 1]);
      assert ss[ch] == sample;
      TotalNext(ss, ch);
      sampleSum := Wrap32(sampleSum + sample);
    }
    assert ss[..channels] == ss;
    TotalBounds(ss);
    QuotientBounds(Total(ss), channels);
    avg := Quotient(sampleSum, channels);
  }

  class Framer {
    const channels: nat
    const pcmBuffer: array<int16>
    var currentFramePos: nat
    var remainderBytes: seq<byte>
    var out: seq<seq<int16>>

    ghost predicate Valid()
      reads this, pcmBuffer
    {
      0 < channels <= 65536 && currentFramePos < pcmBuffer.Length && |remainderBytes| < 2 * channels
    }

    /** What the loop will have sent once `later` samples have come. */
    ghost function SentWith(later: seq<int16>): seq<seq<int16>>
      requires Valid()
      reads this, pcmBuffer
    {
      out + Frames(pcmBuffer[..currentFramePos] + later, pcmBuffer.Length)
    }

    constructor (channels: nat, frameSize: nat)
      requires 0 < channels <= 65536 && frameSize > 0
      ensures Valid() && fresh(pcmBuffer) && this.channels == channels && pcmBuffer.Length == frameSize
      ensures currentFramePos == 0 && remainderBytes == [] && out == []
    {
      this.channels := channels;
      pcmBuffer := new int16[frameSize](_ => 0);
      currentFramePos, remainderBytes, out := 0, [], [];
    }

    /** One averaged sample goes into the buffer; a full buffer is sent. */
    method PutSample(avg: int16, ghost later: seq<int16>)
      requires Valid()
      modifies this`currentFramePos, this`out, pcmBuffer
      ensures Valid()
      ensures SentWith(later) == old(SentWith([avg] + later))
    {
      ghost var before := pcmBuffer[..currentFramePos];
      pcmBuffer[currentFramePos] := avg;
      currentFramePos := currentFramePos + 1;
      ghost var filled := pcmBuffer[..currentFramePos];
      assert filled == before + [avg];
      assert before + ([avg] + later) == filled + later;
      if currentFramePos == pcmBuffer.Length {
        FrameOff(filled, later, pcmBuffer.Length);
        ConcatAssoc(out, [filled], Frames(later, pcmBuffer.Length));
        assert pcmBuffer[..] == filled;
        out := out + [pcmBuffer[..]];
        currentFramePos := 0;
        assert pcmBuffer[..0] + later == later;
      }
    }

    /** The loop over the whole points of an aligned chunk. */
    method PutChunk(chunk: seq<byte>, samplesRead: nat, ghost later: seq<byte>)
      requires Valid() && |chunk| == samplesRead * (2 * channels)
      modifies this`currentFramePos, this`out, pcmBuffer
      ensures Valid()
      ensures SentWith(Samples(later, channels)) == old(SentWith(Samples(chunk + later, channels)))
    {
      var bytesPerPoint := 2 * channels;
      ghost var goal := SentWith(Samples(chunk + later, channels));
      assert chunk[0..] == chunk;
      for i := 0 to samplesRead
        invariant Valid() && i * bytesPerPoint <= |chunk|
        invariant SentWith(Samples(chunk[i * bytesPerPoint..] + later, channels)) == goal
      {
        var at := i * bytesPerPoint;
        NextPoint(i, samplesRead, bytesPerPoint);
        SplitPoint(chunk, at, later, channels);
        var avg := Downmix(chunk, at, channels);
        PutSample(avg, Samples(chunk[at + bytesPerPoint..] + later, channels));
      }
      assert chunk[|chunk|..] + later == later;
    }

    /** One Read: bytes left over from the last one come first, and bytes beyond
        the last whole point are kept for the next one. */
    method PutRead(read: seq<byte>, ghost later: seq<byte>)
      requires Valid()
      modifies this, pcmBuffer
      ensures Valid()
      ensures SentWith(Samples(remainderBytes + later, channels))
           == old(SentWith(Samples(remainderBytes + read + later, channels)))
    {
      if |read| <= 0 {
        assert remainderBytes + read + later == remainderBytes + later;
        return;
      }
      var chunk := remainderBytes + read;
      var bytesPerPoint := 2 * channels;
      var samplesRead := |chunk| / bytesPerPoint;
      var alignedBytes := samplesRead * bytesPerPoint;
      Aligned(|chunk|, bytesPerPoint);
      remainderBytes := chunk[alignedBytes..];
      ConcatAssoc(chunk[..alignedBytes], remainderBytes, later);
      assert chunk[..alignedBytes] + remainderBytes == chunk;
      PutChunk(chunk[..alignedBytes], samplesRead, remainderBytes + later);
    }

    /** flushLastFrame: a partial frame is sent, padded with zeros. */
    method FlushLastFrame()
      requires Valid()
      modifies this`out
      ensures out == old(SentWith([]))
    {
      ghost var rest := pcmBuffer[..currentFramePos];
      assert rest + [] == rest;
      if currentFramePos <= 0 {
        assert out + [] == out;
        return;
      }
      var padded := pcmBuffer[..currentFramePos] + Zeros(pcmBuffer.Length - currentFramePos);
      out := out + [padded];
    }
  }

  lemma FrameOff(frame: seq<int16>, later: seq<int16>, size: nat)
    requires |frame| == size > 0
    ensures Frames(frame + later, size) == [frame] + Frames(later, size)
  {
    assert (frame + later)[..size] == frame && (frame + later)[size..] == later;
  }

  lemma SplitPoint(chunk: seq<byte>, at: nat, later: seq<byte>, channels: nat)
    requires channels > 0 && at + 2 * channels <= |chunk|
    ensures Samples(chunk[at..] + later, channels)
         == [Average(PointSamples(chunk[at..], channels))] + Samples(chunk[at + 2 * channels..] + later, channels)
  {
    var bytes := chunk[at..] + later;
    assert bytes[2 * channels..] == chunk[at + 2 * channels..] + later;
    assert PointSamples(bytes, channels) == PointSamples(chunk[at..], channels);
  }

  lemma {:induction false} NextPoint(i: nat, n: nat, b: nat)
    requires i < n
    ensures i * b + b == (i + 1) * b <= n * b
  {
    if i + 1 < n {
      NextPoint(i, n - 1, b);
      assert n * b == (n - 1) * b + b;
    }
  }

  lemma Aligned(n: nat, b: nat)
    requires b > 0
    ensures 0 <= (n / b) * b <= n && n - (n / b) * b < b
  {
  }

  /** RunWavDecoder to the end of the stream: the frames sent are those of the
      whole byte stream, however its bytes were spread over the reads. */
  method RunWavDecoder(chunks: seq<seq<byte>>, channels: nat, frameSize: nat) returns (out: seq<seq<int16>>)
    requires 0 < channels <= 65536 && frameSize > 0
    ensures out == Frames(Samples(Concat(chunks), channels), frameSize)
  {
    var f := new Framer(channels, frameSize);
    ghost var goal := Frames(Samples(Concat(chunks), channels), frameSize);
    StartOfStream(f, Concat(chunks));
    for i := 0 to |chunks|
      invariant f.Valid() && fresh(f) && fresh(f.pcmBuffer) && f.channels == channels
      invariant f.SentWith(Samples(f.remainderBytes + Concat(chunks[i..]), channels)) == goal
    {
      assert chunks[i..][1..] == chunks[i + 1..];
      ConcatAssoc(f.remainderBytes, chunks[i], Concat(chunks[i + 1..]));
      f.PutRead(chunks[i], Concat(chunks[i + 1..]));
    }
    assert chunks[|chunks|..] == [] && f.remainderBytes + [] == f.remainderBytes;
    f.FlushLastFrame();
    out := f.out;
  }

  lemma StartOfStream(f: Framer, bytes: seq<byte>)
    requires f.Valid() && f.currentFramePos == 0 && f.remainderBytes == [] && f.out == []
    ensures f.SentWith(Samples(f.remainderBytes + bytes, f.channels))
         == Frames(Samples(bytes, f.channels), f.pcmBuffer.Length)
  {
    assert f.remainderBytes + bytes == bytes;
    var samples := Samples(bytes, f.channels);
    assert f.pcmBuffer[..0] + samples == samples;
    assert [] + Frames(samples, f.pcmBuffer.Length) == Frames(samples, f.pcmBuffer.Length);
  }

  function Join(frames: seq<seq<int16>>): seq<int16> {
    if frames == [] then [] else frames[0] + Join(frames[1..])
  }

  ghost predicate Spells(frames: seq<seq<int16>>, samples: seq<int16>, size: nat) {
    && (forall k :: 0 <= k < |frames| ==> |frames[k]| == size)
    && |samples| <= |Join(frames)| < |samples| + size
    && samples <= Join(frames) && forall k :: |samples| <= k < |Join(frames)| ==> Join(frames)[k] == 0
  }

  lemma SpellsCons(frame: seq<int16>, frames: seq<seq<int16>>, rest: seq<int16>, size: nat)
    requires |frame| == size && Spells(frames, rest, size)
    ensures Spells([frame] + frames, frame + rest, size)
  {
    assert ([frame] + frames)[1..] == frames;
    var all := frame + Join(frames);
    forall k | |frame + rest| <= k < |all| ensures all[k] == 0 {
      assert all[k] == Join(frames)[k - |frame|];
    }
  }

  /** The frames are all of the frame size and spell out the samples, followed by
      fewer than one frame of zeros. */
  lemma {:induction false} FramesSpellSamples(samples: seq<int16>, size: nat)
    requires size > 0
    ensures Spells(Frames(samples, size), samples, size)
    decreases |samples|
  {
    if samples == [] {
      assert Join([]) == samples;
    } else if |samples| < size {
      var pad := size - |samples|;
      assert [samples + Zeros(pad)][1..] == [];
      assert Join([samples + Zeros(pad)]) == samples + Zeros(pad);
    } else {
      var rest := samples[size..];
      FramesSpellSamples(rest, size);
      SpellsCons(samples[..size], Frames(rest, size), rest, size);
      assert samples == samples[..size] + rest;
    }
  }
}

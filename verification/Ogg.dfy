/**
 The Ogg/Opus container: the writer of internal/util/ogg_opus.go and the packet
 reader of internal/util/audio_utils.go.  A stream is a finite sequence of bytes;
 checksums, granule positions and serial numbers are carried but not interpreted.
 */
module OggOpus {
  import opened Basics

  type uint32 = x: int | 0 <= x < 0x1_0000_0000
  type uint64 = x: int | 0 <= x < 0x1_0000_0000_0000_0000
  type Packet = seq<byte>

  // ---------- Sample rates ----------

  const SUPPORTED_RATES: seq<int> := [8000, 12000, 16000, 24000, 48000]

  function Abs(v: int): nat {
    if v < 0 then -v else v
  }

  function NearestFrom(rate: int, best: int, candidates: seq<int>): int
    decreases |candidates|
  {
    if candidates == [] then best
    else
      NearestFrom(rate, if Abs(rate - candidates[0]) < Abs(rate - best) then candidates[0] else best,
                  candidates[1..])
  }

  function NormalizeRate(rate: int): int {
    if rate <= 0 then 16000 else NearestFrom(rate, 8000, SUPPORTED_RATES[1..])
  }

  method NormalizeOpusSampleRate(rate: int) returns (best: int)
    ensures best == NormalizeRate(rate)
  {
    if rate <= 0 { return 16000; }
    best := SUPPORTED_RATES[0];
    var bestDistance := Abs(rate - best);
    for i := 1 to |SUPPORTED_RATES|
      invariant bestDistance == Abs(rate - best)
      invariant NearestFrom(rate, best, SUPPORTED_RATES[i..]) == NormalizeRate(rate)
    {
      var candidate := SUPPORTED_RATES[i];
      var distance := Abs(rate - candidate);
      assert SUPPORTED_RATES[i..][1..] == SUPPORTED_RATES[i + 1..];
      if distance < bestDistance {
        best, bestDistance := candidate, distance;
      }
    }
  }

  ghost predicate NearestOf(rate: int, best: int, c: int) {
    Abs(rate - best) <= Abs(rate - c) && (Abs(rate - best) == Abs(rate - c) ==> best <= c)
  }

  lemma {:induction false} NearestFromIsNearest(rate: int, best: int, candidates: seq<int>)
    requires forall k :: 0 <= k < |candidates| ==> best < candidates[k]
    requires forall k, l :: 0 <= k < l < |candidates| ==> candidates[k] < candidates[l]
    ensures var r := NearestFrom(rate, best, candidates);
            && r in [best] + candidates && NearestOf(rate, r, best)
            && forall k :: 0 <= k < |candidates| ==> NearestOf(rate, r, candidates[k])
    decreases |candidates|
  {
    if candidates != [] {
      var c := candidates[0];
      var next := if Abs(rate - c) < Abs(rate - best) then c else best;
      NearestFromIsNearest(rate, next, candidates[1..]);
      forall k | 0 <= k < |candidates|
        ensures NearestOf(rate, NearestFrom(rate, best, candidates), candidates[k])
      {
        if k > 0 { assert candidates[k] == candidates[1..][k - 1]; }
      }
    }
  }

  /** NormalizeOpusSampleRate picks the nearest supported rate, the lower of two
      equally near ones, and so leaves a supported rate alone. */
  lemma NormalizeRateIsNearest(rate: int)
    requires rate > 0
    ensures NormalizeRate(rate) in SUPPORTED_RATES
    ensures forall c :: c in SUPPORTED_RATES ==> NearestOf(rate, NormalizeRate(rate), c)
    ensures rate in SUPPORTED_RATES ==> NormalizeRate(rate) == rate
  {
    var rest := SUPPORTED_RATES[1..];
    NearestFromIsNearest(rate, 8000, rest);
    assert SUPPORTED_RATES == [8000] + rest;
    forall c | c in SUPPORTED_RATES
      ensures NearestOf(rate, NormalizeRate(rate), c)
    {
      if c != 8000 {
        var k :| 0 <= k < |rest| && rest[k] == c;
      }
    }
  }

  // ---------- Bytes on the wire ----------

  function LittleEndian(n: nat, width: nat): (bs: seq<byte>)
    ensures |bs| == width
  {
    if width == 0 then [] else [n % 256] + LittleEndian(n / 256, width - 1)
  }

  function ReadUint32(bs: seq<byte>): nat
    requires |bs| == 4
  {
    bs[0] as int + 256 * bs[1] as int + 65536 * bs[2] as int + 16777216 * bs[3] as int
  }

  lemma Uint32RoundTrip(n: uint32)
    ensures ReadUint32(LittleEndian(n, 4)) == n
  {
    var n1, n2, n3 := n / 256, n / 256 / 256, n / 256 / 256 / 256;
    assert LittleEndian(n3, 1) == [n3 % 256] + LittleEndian(n3 / 256, 0);
    assert LittleEndian(n2, 2) == [n2 % 256] + LittleEndian(n3, 1);
    assert LittleEndian(n1, 3) == [n1 % 256] + LittleEndian(n2, 2);
    assert LittleEndian(n, 4) == [n % 256] + LittleEndian(n1, 3);
  }

  const OGGS: seq<byte> := [79, 103, 103, 83]
  const OPUS_HEAD: seq<byte> := [79, 112, 117, 115, 72, 101, 97, 100]
  const OPUS_TAGS: seq<byte> := [79, 112, 117, 115, 84, 97, 103, 115]
  const VENDOR: seq<byte> :=
    [100, 105, 108, 105, 45, 109, 111, 99, 107, 45, 97, 105, 45, 115, 101, 114, 118, 101, 114]

  /** A page as the reader sees it. */
  datatype Page = Page(headerType: byte, segments: seq<byte>, body: seq<byte>)

  /** The header fields the reader skips. */
  datatype Stamp = Stamp(granule: uint64, serial: uint32, sequence: uint32, checksum: uint32)

  datatype Framed = Framed(page: Page, stamp: Stamp)

  function Sum(segments: seq<byte>): nat {
    if segments == [] then 0 else segments[0] + Sum(segments[1..])
  }

  ghost predicate WellFormed(p: Page) {
    |p.segments| <= 255 && |p.body| == Sum(p.segments)
  }

  /** The header up to the checksum. */
  function Preamble(headerType: byte, granule: uint64, serial: uint32, sequence: uint32): (h: seq<byte>)
    ensures |h| == 22 && h[..4] == OGGS && h[4] == 0 && h[5] == headerType
  {
    OGGS + [0, headerType] + LittleEndian(granule, 8) + LittleEndian(serial, 4) + LittleEndian(sequence, 4)
  }

  function Header(p: Page, s: Stamp): (h: seq<byte>)
    ensures |h| == 27 && h[..4] == OGGS && h[4] == 0 && h[5] == p.headerType
    ensures h[26] == |p.segments| % 256
  {
    Preamble(p.headerType, s.granule, s.serial, s.sequence) + LittleEndian(s.checksum, 4) + [|p.segments| % 256]
  }

  function PageBytes(f: Framed): seq<byte> {
    Header(f.page, f.stamp) + f.page.segments + f.page.body
  }

  function StreamBytes(fs: seq<Framed>): seq<byte> {
    if fs == [] then [] else PageBytes(fs[0]) + StreamBytes(fs[1..])
  }

  // ---------- The writer ----------

  /** Lacing values of a packet: 255 for each full 255 bytes, then the rest. */
  function Lacing(n: nat): (segments: seq<byte>)
    ensures |segments| == n / 255 + 1
    ensures Sum(segments) == n
  {
    if n < 255 then [n] else
      assert [255] + Lacing(n - 255) != [] && ([255] + Lacing(n - 255))[1..] == Lacing(n - 255);
      [255] + Lacing(n - 255)
  }

  lemma LacingEnds(n: nat)
    ensures Lacing(n)[|Lacing(n)| - 1] == n % 255
    ensures forall k :: 0 <= k < |Lacing(n)| - 1 ==> Lacing(n)[k] == 255
  {
  }

  method BuildOggSegments(packetLen: int) returns (segments: seq<byte>)
    ensures segments == Lacing(if packetLen <= 0 then 0 else packetLen)
  {
    if packetLen <= 0 { return [0]; }
    segments := [];
    var remaining := packetLen;
    while remaining >= 255
      invariant remaining >= 0
      invariant segments + Lacing(remaining) == Lacing(packetLen)
    {
      assert Lacing(remaining) == [255] + Lacing(remaining - 255);
      assert segments + Lacing(remaining) == (segments + [255]) + Lacing(remaining - 255);
      segments := segments + [255];
      remaining := remaining - 255;
    }
    segments := segments + [remaining];
  }

  /** The one-byte segment count is right exactly up to 65024 bytes. */
  lemma SegmentCountFits(n: nat)
    ensures |Lacing(n)| % 256 == |Lacing(n)| <==> n <= 65024
  {
  }

  /** copy(dst[at:], src) */
  method CopyInto(dst: array<byte>, at: nat, src: seq<byte>)
    requires at + |src| <= dst.Length
    modifies dst
    ensures forall k :: at <= k < at + |src| ==> dst[k] == src[k - at]
    ensures dst[at..at + |src|] == src
    ensures forall k :: 0 <= k < dst.Length && !(at <= k < at + |src|) ==> dst[k] == old(dst[k])
  {
    for i := 0 to |src|
      invariant forall k :: at <= k < at + i ==> dst[k] == src[k - at]
      invariant forall k :: 0 <= k < dst.Length && !(at <= k < at + i) ==> dst[k] == old(dst[k])
    {
      dst[at + i] := src[i];
    }
  }

  /** The page with its checksum field still zero, which is what is summed. */
  function Unsummed(p: Page, granule: uint64, serial: uint32, sequence: uint32): seq<byte> {
    PageBytes(Framed(p, Stamp(granule, serial, sequence, 0)))
  }

  function PacketPage(headerType: byte, packet: Packet): Page {
    Page(headerType, Lacing(|packet|), packet)
  }

  function FramedPacket(crc: seq<byte> -> uint32, serial: uint32, sequence: uint32, headerType: byte,
                        granule: uint64, packet: Packet): Framed
  {
    var p := PacketPage(headerType, packet);
    Framed(p, Stamp(granule, serial, sequence, crc(Unsummed(p, granule, serial, sequence))))
  }

  method FillPreamble(page: array<byte>, headerType: byte, granule: uint64, serial: uint32, sequence: uint32)
    requires page.Length >= 22
    modifies page
    ensures page[..22] == Preamble(headerType, granule, serial, sequence)
    ensures forall k :: 22 <= k < page.Length ==> page[k] == old(page[k])
  {
    CopyInto(page, 0, OGGS);
    CopyInto(page, 4, [0, headerType]);
    assert page[..6] == OGGS + [0, headerType];
    CopyInto(page, 6, LittleEndian(granule, 8));
    assert page[..14] == OGGS + [0, headerType] + LittleEndian(granule, 8);
    CopyInto(page, 14, LittleEndian(serial, 4));
    assert page[..18] == OGGS + [0, headerType] + LittleEndian(granule, 8) + LittleEndian(serial, 4);
    CopyInto(page, 18, LittleEndian(sequence, 4));
  }

  function Tail(segments: seq<byte>, packet: Packet): seq<byte> {
    [|segments| % 256] + segments + packet
  }

  method FillTail(page: array<byte>, segments: seq<byte>, packet: Packet)
    requires page.Length == 27 + |segments| + |packet|
    modifies page
    ensures page[26..] == Tail(segments, packet)
    ensures forall k :: 0 <= k < 26 ==> page[k] == old(page[k])
  {
    CopyInto(page, 26, [|segments| % 256]);
    CopyInto(page, 27, segments);
    CopyInto(page, 27 + |segments|, packet);
    assert page[27..27 + |segments|] == segments;
    assert page[26..] == [page[26]] + page[27..27 + |segments|] + page[27 + |segments|..];
  }

  /** Overwrite the four bytes between the preamble and the tail. */
  method StampChecksum(page: array<byte>, checksum: seq<byte>, ghost preamble: seq<byte>, ghost zeros: seq<byte>,
                       ghost tail: seq<byte>)
    requires |preamble| == 22 && |zeros| == 4 && |checksum| == 4
    requires page[..] == preamble + zeros + tail
    modifies page
    ensures page[..] == preamble + checksum + tail
  {
    CopyInto(page, 22, checksum);
    assert page[..22] == preamble;
    assert page[26..] == tail;
    assert page[..] == page[..22] + page[22..26] + page[26..];
  }

  method FillPage(page: array<byte>, headerType: byte, granule: uint64, serial: uint32, sequence: uint32,
                  segments: seq<byte>, packet: Packet)
    requires page.Length == 27 + |segments| + |packet|
    requires forall k :: 0 <= k < page.Length ==> page[k] == 0
    modifies page
    ensures page[..] == Preamble(headerType, granule, serial, sequence) + [0, 0, 0, 0] + Tail(segments, packet)
  {
    FillPreamble(page, headerType, granule, serial, sequence);
    FillTail(page, segments, packet);
    assert page[..22] == Preamble(headerType, granule, serial, sequence);
    assert page[22..26] == [0, 0, 0, 0];
    assert page[..] == page[..22] + page[22..26] + page[26..];
  }

  method BuildOggPage(crc: seq<byte> -> uint32, serial: uint32, sequence: uint32, headerType: byte,
                      granule: uint64, packet: Packet) returns (bytes: seq<byte>)
    ensures bytes == PageBytes(FramedPacket(crc, serial, sequence, headerType, granule, packet))
  {
    var segments := BuildOggSegments(|packet|);
    var page := new byte[27 + |segments| + |packet|](_ => 0);
    FillPage(page, headerType, granule, serial, sequence, segments, packet);
    ZeroBytes();
    PageLayout(PacketPage(headerType, packet), Stamp(granule, serial, sequence, 0));
    var checksum := crc(page[..]);
    StampChecksum(page, LittleEndian(checksum, 4), Preamble(headerType, granule, serial, sequence), [0, 0, 0, 0],
                  Tail(segments, packet));
    PageLayout(PacketPage(headerType, packet), Stamp(granule, serial, sequence, checksum));
    bytes := page[..];
  }

  lemma ZeroBytes()
    ensures LittleEndian(0, 4) == [0, 0, 0, 0]
  {
    assert LittleEndian(0, 1) == [0] + LittleEndian(0, 0);
    assert LittleEndian(0, 2) == [0] + LittleEndian(0, 1);
    assert LittleEndian(0, 3) == [0] + LittleEndian(0, 2);
  }

  lemma PageLayout(p: Page, s: Stamp)
    ensures PageBytes(Framed(p, s))
         == Preamble(p.headerType, s.granule, s.serial, s.sequence) + LittleEndian(s.checksum, 4)
            + Tail(p.segments, p.body)
  {
  }

  function HeadPacket(rate: int, channels: int): (p: Packet)
    ensures |p| == 19 && p[..8] == OPUS_HEAD && p[9] == channels % 256
    ensures p[12..16] == LittleEndian(rate % 0x1_0000_0000, 4)
  {
    OPUS_HEAD + [1, channels % 256] + LittleEndian(0, 2) + LittleEndian(rate % 0x1_0000_0000, 4)
    + LittleEndian(0, 2) + [0]
  }

  function TagsPacket(): Packet {
    OPUS_TAGS + LittleEndian(|VENDOR|, 4) + VENDOR + LittleEndian(0, 4)
  }

  const SERIAL: uint32 := 0x58495a48

  function Granule(frameSize: int, n: nat): uint64 {
    if n == 0 then 0
    else (Granule(frameSize, n - 1) + frameSize % 0x1_0000_0000_0000_0000) % 0x1_0000_0000_0000_0000
  }

  function DataFrame(crc: seq<byte> -> uint32, packets: seq<Packet>, frameSize: int, i: nat): Framed
    requires i < |packets|
  {
    FramedPacket(crc, SERIAL, (i + 2) % 0x1_0000_0000, if i == |packets| - 1 then 4 else 0,
                 Granule(frameSize, i + 1), packets[i])
  }

  function HeaderFrames(crc: seq<byte> -> uint32, rate: int, channels: int): seq<Framed> {
    [FramedPacket(crc, SERIAL, 0, 2, 0, HeadPacket(rate, channels)),
     FramedPacket(crc, SERIAL, 1, 0, 0, TagsPacket())]
  }

  function DataFrames(crc: seq<byte> -> uint32, packets: seq<Packet>, frameSize: int, n: nat): (fs: seq<Framed>)
    requires n <= |packets|
    ensures |fs| == n
  {
    if n == 0 then []
    else DataFrames(crc, packets, frameSize, n - 1) + [DataFrame(crc, packets, frameSize, n - 1)]
  }

  lemma {:induction false} StreamBytesSnoc(fs: seq<Framed>, f: Framed)
    ensures StreamBytes(fs + [f]) == StreamBytes(fs) + PageBytes(f)
  {
    if fs == [] {
      assert (fs + [f])[1..] == [];
    } else {
      StreamBytesSnoc(fs[1..], f);
      assert (fs + [f])[1..] == fs[1..] + [f];
      ConcatAssoc(PageBytes(fs[0]), StreamBytes(fs[1..]), PageBytes(f));
    }
  }

  method WriteHeaders(crc: seq<byte> -> uint32, rate: int, channels: int) returns (out: seq<byte>)
    ensures out == StreamBytes(HeaderFrames(crc, rate, channels))
  {
    var head := BuildOggPage(crc, SERIAL, 0, 2, 0, HeadPacket(rate, channels));
    var tags := BuildOggPage(crc, SERIAL, 1, 0, 0, TagsPacket());
    out := head + tags;
    ghost var frames := HeaderFrames(crc, rate, channels);
    StreamBytesSnoc([], frames[0]);
    StreamBytesSnoc([frames[0]], frames[1]);
    assert [] + [frames[0]] == [frames[0]] && [frames[0]] + [frames[1]] == frames;
    assert StreamBytes([]) + head == head;
  }

  method WriteDataPage(crc: seq<byte> -> uint32, packets: seq<Packet>, frameSize: int, i: nat, granule: uint64)
    returns (page: seq<byte>)
    requires i < |packets| && granule == Granule(frameSize, i + 1)
    ensures page == PageBytes(DataFrame(crc, packets, frameSize, i))
  {
    var headerType: byte := 0;
    if i == |packets| - 1 { headerType := 4; }
    page := BuildOggPage(crc, SERIAL, (i + 2) % 0x1_0000_0000, headerType, granule, packets[i]);
  }

  /** WrapOggOpusPackets: one page per packet after the two header pages. */
  method WrapOggOpusPackets(crc: seq<byte> -> uint32, packets: seq<Packet>, rate: int, channels: int, frameSize: int)
    returns (out: seq<byte>)
    ensures out == StreamBytes(HeaderFrames(crc, rate, channels) + DataFrames(crc, packets, frameSize, |packets|))
  {
    out := WriteHeaders(crc, rate, channels);
    ghost var headers := HeaderFrames(crc, rate, channels);
    ghost var frames := headers;
    var granule: uint64 := 0;
    for i := 0 to |packets|
      invariant granule == Granule(frameSize, i)
      invariant frames == headers + DataFrames(crc, packets, frameSize, i)
      invariant out == StreamBytes(frames)
    {
      granule := AddSamples(granule, frameSize, i);
      var page := WriteDataPage(crc, packets, frameSize, i, granule);
      out := out + page;
      ghost var frame := DataFrame(crc, packets, frameSize, i);
      StreamBytesSnoc(frames, frame);
      NextDataFrame(headers, crc, packets, frameSize, i);
      frames := frames + [frame];
    }
  }

  /** The granule position after one more packet, in 64 bits. */
  method AddSamples(granule: uint64, frameSize: int, ghost i: nat) returns (next: uint64)
    requires granule == Granule(frameSize, i)
    ensures next == Granule(frameSize, i + 1)
  {
    next := (granule + frameSize % 0x1_0000_0000_0000_0000) % 0x1_0000_0000_0000_0000;
  }

  lemma NextDataFrame(headers: seq<Framed>, crc: seq<byte> -> uint32, packets: seq<Packet>, frameSize: int, i: nat)
    requires i < |packets|
    ensures (headers + DataFrames(crc, packets, frameSize, i)) + [DataFrame(crc, packets, frameSize, i)]
         == headers + DataFrames(crc, packets, frameSize, i + 1)
  {
    ConcatAssoc(headers, DataFrames(crc, packets, frameSize, i), [DataFrame(crc, packets, frameSize, i)]);
  }

  // ---------- The reader, as functions of its state ----------

  datatype Error =
    | Eof | UnexpectedEof | BadMagic | BadVersion | OrphanContinuation | ShortBody | LongBody
    | HeadTooShort | NotOpusHead | NotOpusTags | MissingHeaders

  datatype Info = Info(sampleRate: int, channels: int)

  datatype PageRead = PageOk(page: Page, rest: seq<byte>) | PageError(error: Error, rest: seq<byte>)

  /** readOggPage */
  function ParsePage(input: seq<byte>): (r: PageRead)
    ensures r.PageOk? ==> WellFormed(r.page) && |r.rest| < |input|
  {
    if input == [] then PageError(Eof, [])
    else if |input| < 27 then PageError(UnexpectedEof, [])
    else
      var rest := input[27..];
      if input[..4] != OGGS then PageError(BadMagic, rest)
      else if input[4] != 0 then PageError(BadVersion, rest)
      else if |rest| < input[26] then PageError(UnexpectedEof, [])
      else
        var segments := rest[..input[26]];
        var body := rest[input[26]..];
        if |body| < Sum(segments) then PageError(UnexpectedEof, [])
        else PageOk(Page(input[5], segments, body[..Sum(segments)]), body[Sum(segments)..])
  }

  /** What the packets handled so far have led to. */
  datatype Stage = Stage(queue: seq<Packet>, info: Info, headSeen: bool, tagsSeen: bool)

  datatype Reader = Reader(input: seq<byte>, carry: Packet, stage: Stage)

  const NEW_STAGE := Stage([], Info(0, 0), false, false)

  function NewReader(input: seq<byte>): Reader {
    Reader(input, [], NEW_STAGE)
  }

  /** parseOpusHeadPacket */
  function ParseHead(packet: Packet): (Info, Option<Error>) {
    if |packet| < 19 then (Info(0, 0), Some(HeadTooShort))
    else if packet[..8] != OPUS_HEAD then (Info(0, 0), Some(NotOpusHead))
    else
      var channels := if packet[9] < 1 then 1 else packet[9];
      var rate := ReadUint32(packet[12..16]);
      (Info(NormalizeRate(if rate <= 0 then 48000 else rate), channels), None)
  }

  /** handlePacket */
  function Handle(s: Stage, packet: Packet): (Stage, Option<Error>) {
    if !s.headSeen then
      var (info, err) := ParseHead(packet);
      if err.Some? then (s, err) else (s.(info := info, headSeen := true), None)
    else if !s.tagsSeen then
      if OPUS_TAGS <= packet then (s.(tagsSeen := true), None) else (s, Some(NotOpusTags))
    else if |packet| > 0 then (s.(queue := s.queue + [packet]), None)
    else (s, None)
  }

  /** The loop of readNextPage over the lacing values that are left; the packet
      it returns is what the next page continues. */
  function Consume(s: Stage, packet: Packet, segments: seq<byte>, body: seq<byte>): (Stage, Packet, Option<Error>)
    decreases |segments|
  {
    if segments == [] then (s, packet, if body != [] then Some(LongBody) else None)
    else if segments[0] > |body| then (s, packet, Some(ShortBody))
    else
      var grown := packet + body[..segments[0]];
      if segments[0] < 255 then
        var (s', err) := Handle(s, grown);
        if err.Some? then (s', grown, err) else Consume(s', [], segments[1..], body[segments[0]..])
      else Consume(s, grown, segments[1..], body[segments[0]..])
  }

  /** readNextPage: an error keeps the packets handled before it, not the carry. */
  function PageStep(r: Reader): (Reader, Option<Error>) {
    var read := ParsePage(r.input);
    var r' := r.(input := read.rest);
    if read.PageError? then (r', Some(read.error))
    else if r.carry == [] && read.page.headerType % 2 == 1 then (r', Some(OrphanContinuation))
    else
      var (stage, packet, err) := Consume(r.stage, r.carry, read.page.segments, read.page.body);
      (r'.(stage := stage, carry := if err.Some? then r.carry else packet), err)
  }

  function Fallback(info: Info): Info {
    Info(if info.sampleRate <= 0 then 48000 else info.sampleRate,
         if info.channels <= 0 then 1 else info.channels)
  }

  datatype Prepared = Ready(info: Info) | Refused(error: Error)

  /** Prepare */
  function PrepareStep(r: Reader): (Reader, Prepared)
    decreases |r.input|
  {
    var s := r.stage;
    if s.headSeen && s.tagsSeen then
      (r.(stage := s.(info := Fallback(s.info))), Ready(Fallback(s.info)))
    else
      var (r', err) := PageStep(r);
      if err.Some? then (r', Refused(if err.value == Eof then MissingHeaders else err.value))
      else PrepareStep(r')
  }

  datatype Next = Delivered(packet: Packet) | Stopped(error: Error)

  /** NextPacket */
  function NextStep(r: Reader): (Reader, Next)
    decreases |r.input|
  {
    var queue := r.stage.queue;
    if queue != [] then (r.(stage := r.stage.(queue := queue[1..])), Delivered(queue[0]))
    else
      var (r', err) := PageStep(r);
      if err.Some? then
        (r', Stopped(if err.value == Eof && |r'.carry| > 0 then UnexpectedEof else err.value))
      else NextStep(r')
  }

  // ---------- The reader object ----------

  class PacketReader {
    var input: seq<byte>
    var queue: seq<Packet>
    var carry: Packet
    var info: Info
    var headSeen: bool
    var tagsSeen: bool

    function Staged(): Stage
      reads this
    {
      Stage(queue, info, headSeen, tagsSeen)
    }

    function View(): Reader
      reads this
    {
      Reader(input, carry, Staged())
    }

    constructor (input: seq<byte>)
      ensures View() == NewReader(input)
    {
      this.input := input;
      queue, carry, info, headSeen, tagsSeen := [], [], Info(0, 0), false, false;
    }

    method HandlePacket(packet: Packet) returns (err: Option<Error>)
      modifies this`queue, this`info, this`headSeen, this`tagsSeen
      ensures (Staged(), err) == Handle(old(Staged()), packet)
    {
      err := None;
      if !headSeen {
        var parsed := ParseHead(packet);
        if parsed.1.Some? { return parsed.1; }
        info := parsed.0;
        headSeen := true;
      } else if !tagsSeen {
        if !(OPUS_TAGS <= packet) { return Some(NotOpusTags); }
        tagsSeen := true;
      } else if |packet| > 0 {
        queue := queue + [packet];
      }
    }

    method ReadNextPage() returns (err: Option<Error>)
      modifies this
      ensures (View(), err) == PageStep(old(View()))
    {
      var read := ParsePage(input);
      input := read.rest;
      if read.PageError? { return Some(read.error); }
      var page := read.page;
      if |carry| == 0 && page.headerType % 2 == 1 { return Some(OrphanContinuation); }
      err := ConsumePage(page.segments, page.body);
    }

    method ConsumePage(segments: seq<byte>, body: seq<byte>) returns (err: Option<Error>)
      modifies this`queue, this`info, this`headSeen, this`tagsSeen, this`carry
      ensures var (stage, packet, e) := Consume(old(Staged()), old(carry), segments, body);
              Staged() == stage && err == e && carry == if e.Some? then old(carry) else packet
    {
      var packet := carry;
      var offset := 0;
      for i := 0 to |segments|
        invariant offset <= |body|
        invariant carry == old(carry)
        invariant Consume(Staged(), packet, segments[i..], body[offset..])
               == Consume(old(Staged()), old(carry), segments, body)
      {
        var end := offset + segments[i];
        assert segments[i..][1..] == segments[i + 1..];
        if end > |body| { return Some(ShortBody); }
        assert body[offset..][segments[i]..] == body[end..];
        assert body[offset..][..segments[i]] == body[offset..end];
        packet := packet + body[offset..end];
        offset := end;
        if segments[i] < 255 {
          var e := HandlePacket(packet);
          if e.Some? { return e; }
          packet := [];
        }
      }
      if offset != |body| { return Some(LongBody); }
      carry := packet;
      err := None;
    }

    method Prepare() returns (result: Prepared)
      modifies this
      ensures (View(), result) == PrepareStep(old(View()))
    {
      while !headSeen || !tagsSeen
        invariant PrepareStep(View()) == PrepareStep(old(View()))
        decreases |input|
      {
        var err := ReadNextPage();
        if err.Some? {
          return Refused(if err.value == Eof then MissingHeaders else err.value);
        }
      }
      if info.sampleRate <= 0 { info := info.(sampleRate := 48000); }
      if info.channels <= 0 { info := info.(channels := 1); }
      result := Ready(info);
    }

    method NextPacket() returns (result: Next)
      modifies this
      ensures (View(), result) == NextStep(old(View()))
    {
      while |queue| == 0
        invariant NextStep(View()) == NextStep(old(View()))
        decreases |input|
      {
        var err := ReadNextPage();
        if err.Some? {
          if err.value == Eof {
            if |carry| > 0 { return Stopped(UnexpectedEof); }
            return Stopped(Eof);
          }
          return Stopped(err.value);
        }
      }
      result := Delivered(queue[0]);
      queue := queue[1..];
    }
  }
}

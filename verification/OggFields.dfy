/**
 The bytes of the written pages, field by field at their offsets, for
 internal/util/ogg_opus.go.
 */
module OggFields {
  import opened Basics
  import opened OggOpus
  import opened OggRoundTrip

  const MODULUS_64 := 0x1_0000_0000_0000_0000

  /** The bytes of an ASCII text. */
  function Ascii(s: string): seq<byte>
    requires forall k :: 0 <= k < |s| ==> s[k] < 128 as char
  {
    seq(|s|, k requires 0 <= k < |s| => s[k] as int)
  }

  /** The page with its checksum bytes zero. */
  function Zeroed(b: seq<byte>): seq<byte>
    requires |b| >= 27
  {
    b[..22] + [0, 0, 0, 0] + b[26..]
  }

  /** What the fields of a page say: flags, granule position, number, and the packet it holds. */
  datatype Fields = Fields(flags: byte, granule: nat, sequence: nat, packet: Packet)

  /** The layout of section 6 of RFC 3533, read at byte offsets. */
  ghost predicate Reads(b: seq<byte>, f: Fields, crc: seq<byte> -> uint32) {
    var count := |f.packet| / 255 + 1;
    && |b| == 27 + count + |f.packet|
    && b[..4] == Ascii("OggS") && b[4] == 0 && b[5] == f.flags
    && ReadLittle(b[6..14]) == f.granule
    && ReadLittle(b[14..18]) == 0x58495a48
    && ReadLittle(b[18..22]) == f.sequence
    && ReadLittle(b[22..26]) == crc(Zeroed(b))
    && b[26] == count % 256
    && (forall k :: 27 <= k < 27 + count ==> b[k] == if k < 26 + count then 255 else |f.packet| % 255)
    && b[27 + count..] == f.packet
  }

  lemma {:induction false} WriteThenRead(n: nat, width: nat)
    requires n < Power256(width)
    ensures ReadLittle(LittleEndian(n, width)) == n
  {
    if width > 0 { WriteThenRead(n / 256, width - 1); }
  }

  /** The granule position counts the samples so far, in 64 bits. */
  lemma {:induction false} GranuleCounts(frameSize: int, n: nat)
    ensures Granule(frameSize, n) == (n * frameSize) % MODULUS_64
  {
    if n > 0 {
      GranuleCounts(frameSize, n - 1);
      AddWrapped((n - 1) * frameSize, frameSize);
      assert n * frameSize == (n - 1) * frameSize + frameSize;
    }
  }

  lemma AddWrapped(a: int, b: int)
    ensures (a % MODULUS_64 + b % MODULUS_64) % MODULUS_64 == (a + b) % MODULUS_64
  {
    var m := MODULUS_64;
    Wrap(a % m + b % m, a / m + b / m);
    assert a + b == a % m + b % m + m * (a / m + b / m);
  }

  lemma Wrap(x: int, k: int)
    ensures (x + MODULUS_64 * k) % MODULUS_64 == x % MODULUS_64
  {
  }

  /** Where the fields of a header are. */
  lemma HeaderOffsets(p: Page, s: Stamp)
    ensures var h := Header(p, s);
            && h[..4] == [79, 103, 103, 83] && h[4] == 0 && h[5] == p.headerType
            && h[6..14] == LittleEndian(s.granule, 8) && h[14..18] == LittleEndian(s.serial, 4)
            && h[18..22] == LittleEndian(s.sequence, 4) && h[22..26] == LittleEndian(s.checksum, 4)
            && h[26] == |p.segments| % 256
            && h[..22] + [0, 0, 0, 0] + h[26..] == Header(p, s.(checksum := 0))
  {
    ZeroBytes();
    var a, b, c := LittleEndian(s.granule, 8), LittleEndian(s.serial, 4), LittleEndian(s.sequence, 4);
    var q := Preamble(p.headerType, s.granule, s.serial, s.sequence);
    assert q == OGGS + [0, p.headerType] + a + b + c;
    assert q[6..14] == a && q[14..18] == b && q[18..22] == c;
    var h := Header(p, s);
    assert h == q + LittleEndian(s.checksum, 4) + [|p.segments| % 256];
    assert h[..22] == q && h[22..26] == LittleEndian(s.checksum, 4);
    assert h[6..14] == q[6..14] && h[14..18] == q[14..18] && h[18..22] == q[18..22];
  }

  lemma PageOffsets(f: Framed)
    ensures var b, h := PageBytes(f), Header(f.page, f.stamp);
            && |b| == 27 + |f.page.segments| + |f.page.body|
            && b[..4] == h[..4] && b[4] == h[4] && b[5] == h[5] && b[6..14] == h[6..14] && b[14..18] == h[14..18]
            && b[18..22] == h[18..22] && b[22..26] == h[22..26] && b[26] == h[26]
            && b[27..27 + |f.page.segments|] == f.page.segments && b[27 + |f.page.segments|..] == f.page.body
  {
  }

  lemma PageZeroed(f: Framed)
    ensures |PageBytes(f)| >= 27
    ensures Zeroed(PageBytes(f)) == PageBytes(Framed(f.page, f.stamp.(checksum := 0)))
  {
    var h, rest := Header(f.page, f.stamp), f.page.segments + f.page.body;
    HeaderOffsets(f.page, f.stamp);
    ConcatAssoc(h, f.page.segments, f.page.body);
    ConcatAssoc(Header(f.page, f.stamp.(checksum := 0)), f.page.segments, f.page.body);
    ZeroedFront(h, rest);
  }

  lemma ZeroedFront(h: seq<byte>, rest: seq<byte>)
    requires |h| == 27
    ensures Zeroed(h + rest) == (h[..22] + [0, 0, 0, 0] + h[26..]) + rest
  {
    assert (h + rest)[..22] == h[..22] && (h + rest)[26..] == h[26..] + rest;
  }

  /** A built page reads back, field by field. */
  lemma BuiltPage(crc: seq<byte> -> uint32, sequence: uint32, flags: byte, granule: uint64, packet: Packet)
    ensures Reads(PageBytes(FramedPacket(crc, SERIAL, sequence, flags, granule, packet)), Fields(flags, granule, sequence, packet), crc)
  {
    var f := FramedPacket(crc, SERIAL, sequence, flags, granule, packet);
    HeaderReads(f.page, f.stamp);
    PageOffsets(f);
    PageZeroed(f);
    ConstantTexts();
    LacingAt(PageBytes(f), packet);
  }

  /** The numbers of a header read back. */
  lemma HeaderReads(p: Page, s: Stamp)
    ensures var h := Header(p, s);
            && h[..4] == OGGS && h[4] == 0 && h[5] == p.headerType && h[26] == |p.segments| % 256
            && ReadLittle(h[6..14]) == s.granule && ReadLittle(h[14..18]) == s.serial
            && ReadLittle(h[18..22]) == s.sequence && ReadLittle(h[22..26]) == s.checksum
  {
    HeaderOffsets(p, s);
    Widths();
    WriteThenRead(s.granule, 8);
    WriteThenRead(s.serial, 4);
    WriteThenRead(s.sequence, 4);
    WriteThenRead(s.checksum, 4);
  }

  lemma LacingAt(b: seq<byte>, packet: Packet)
    requires var n := |Lacing(|packet|)|; 27 + n <= |b| && b[27..27 + n] == Lacing(|packet|)
    ensures var n := |packet| / 255 + 1; forall k :: 27 <= k < 27 + n ==> b[k] == if k < 26 + n then 255 else |packet| % 255
  {
    LacingEnds(|packet|);
    assert forall k :: 27 <= k < 27 + |Lacing(|packet|)| ==> b[k] == b[27..27 + |Lacing(|packet|)|][k - 27];
  }

  function WrittenFrames(crc: seq<byte> -> uint32, packets: seq<Packet>, rate: int, channels: int, frameSize: int): seq<Framed> {
    HeaderFrames(crc, rate, channels) + DataFrames(crc, packets, frameSize, |packets|)
  }

  lemma {:induction false} DataFrameAt(crc: seq<byte> -> uint32, packets: seq<Packet>, frameSize: int, n: nat, i: nat)
    requires i < n <= |packets|
    ensures DataFrames(crc, packets, frameSize, n)[i] == DataFrame(crc, packets, frameSize, i)
  {
    if i < n - 1 { DataFrameAt(crc, packets, frameSize, n - 1, i); }
  }

  /** What page `k` of the stream says: the first one has flag 2, the last data page flag 4; pages are numbered
      from 0 in 32 bits, the header pages are at granule 0 and data page i at (i + 1) frames, in 64 bits. */
  function Expected(packets: seq<Packet>, rate: int, channels: int, frameSize: int, k: nat): Fields
    requires k < |packets| + 2
  {
    Fields(if k == 0 then 2 else if k >= 2 && k == |packets| + 1 then 4 else 0,
           if k < 2 then 0 else ((k - 1) * frameSize) % MODULUS_64,
           k % 0x1_0000_0000,
           if k == 0 then HeadPacket(rate, channels) else if k == 1 then TagsPacket() else packets[k - 2])
  }

  lemma FirstHeader(crc: seq<byte> -> uint32, rate: int, channels: int)
    ensures Reads(PageBytes(HeaderFrames(crc, rate, channels)[0]), Fields(2, 0, 0, HeadPacket(rate, channels)), crc)
  {
    var head := HeadPacket(rate, channels);
    HeaderFrameIs(crc, rate, channels, head);
    BuiltPage(crc, 0, 2, 0, head);
  }

  lemma HeaderFrameIs(crc: seq<byte> -> uint32, rate: int, channels: int, head: Packet)
    requires head == HeadPacket(rate, channels)
    ensures HeaderFrames(crc, rate, channels)[0] == FramedPacket(crc, SERIAL, 0, 2, 0, head)
  {
  }

  lemma SecondHeader(crc: seq<byte> -> uint32, rate: int, channels: int)
    ensures Reads(PageBytes(HeaderFrames(crc, rate, channels)[1]), Fields(0, 0, 1, TagsPacket()), crc)
  {
    var tags := TagsPacket();
    CommentFrameIs(crc, rate, channels, tags);
    BuiltPage(crc, 1, 0, 0, tags);
  }

  lemma CommentFrameIs(crc: seq<byte> -> uint32, rate: int, channels: int, tags: Packet)
    requires tags == TagsPacket()
    ensures HeaderFrames(crc, rate, channels)[1] == FramedPacket(crc, SERIAL, 1, 0, 0, tags)
  {
  }

  lemma WrittenData(crc: seq<byte> -> uint32, packets: seq<Packet>, rate: int, channels: int, frameSize: int, i: nat)
    requires i < |packets|
    ensures Reads(PageBytes(DataFrame(crc, packets, frameSize, i)), Expected(packets, rate, channels, frameSize, i + 2), crc)
  {
    GranuleCounts(frameSize, i + 1);
    BuiltPage(crc, (i + 2) % 0x1_0000_0000, if i == |packets| - 1 then 4 else 0, Granule(frameSize, i + 1), packets[i]);
  }

  lemma FrameAt(crc: seq<byte> -> uint32, packets: seq<Packet>, rate: int, channels: int, frameSize: int, k: nat)
    requires k < |packets| + 2
    ensures var all := WrittenFrames(crc, packets, rate, channels, frameSize);
            && |all| == |packets| + 2
            && all[k] == if k < 2 then HeaderFrames(crc, rate, channels)[k] else DataFrame(crc, packets, frameSize, k - 2)
  {
    if k >= 2 { DataFrameAt(crc, packets, frameSize, |packets|, k - 2); }
  }

  lemma FirstTwo(crc: seq<byte> -> uint32, packets: seq<Packet>, rate: int, channels: int, frameSize: int)
    ensures Reads(PageBytes(HeaderFrames(crc, rate, channels)[0]), Expected(packets, rate, channels, frameSize, 0), crc)
    ensures Reads(PageBytes(HeaderFrames(crc, rate, channels)[1]), Expected(packets, rate, channels, frameSize, 1), crc)
  {
    FirstHeader(crc, rate, channels);
    SecondHeader(crc, rate, channels);
    FirstExpected(packets, rate, channels, frameSize);
  }

  lemma FirstExpected(packets: seq<Packet>, rate: int, channels: int, frameSize: int)
    ensures Expected(packets, rate, channels, frameSize, 0) == Fields(2, 0, 0, HeadPacket(rate, channels))
    ensures Expected(packets, rate, channels, frameSize, 1) == Fields(0, 0, 1, TagsPacket())
  {
  }

  lemma FrameReads(crc: seq<byte> -> uint32, packets: seq<Packet>, rate: int, channels: int, frameSize: int, k: nat)
    requires k < |packets| + 2
    ensures var frame := if k < 2 then HeaderFrames(crc, rate, channels)[k] else DataFrame(crc, packets, frameSize, k - 2);
            Reads(PageBytes(frame), Expected(packets, rate, channels, frameSize, k), crc)
  {
    if k < 2 {
      FirstTwo(crc, packets, rate, channels, frameSize);
    } else {
      WrittenData(crc, packets, rate, channels, frameSize, k - 2);
    }
  }

  /** Every page reads as expected; the serial number is the same throughout and the checksum is that of the page
      itself with zero in its place. */
  lemma WrittenPage(crc: seq<byte> -> uint32, packets: seq<Packet>, rate: int, channels: int, frameSize: int, k: nat)
    requires k < |packets| + 2
    ensures |WrittenFrames(crc, packets, rate, channels, frameSize)| == |packets| + 2
    ensures Reads(PageBytes(WrittenFrames(crc, packets, rate, channels, frameSize)[k]), Expected(packets, rate, channels, frameSize, k), crc)
  {
    FrameAt(crc, packets, rate, channels, frameSize, k);
    FrameReads(crc, packets, rate, channels, frameSize, k);
  }

  lemma HeadLayout(name: seq<byte>, channels: byte, skip: seq<byte>, rate: seq<byte>, gain: seq<byte>)
    requires |name| == 8 && |skip| == 2 && |rate| == 4 && |gain| == 2
    ensures var p := name + [1, channels] + skip + rate + gain + [0];
            && |p| == 19 && p[..8] == name && p[8] == 1 && p[9] == channels && p[10..12] == skip
            && p[12..16] == rate && p[16..18] == gain && p[18] == 0 && p[16..19] == gain + [0]
  {
  }

  lemma TwoZeros()
    ensures LittleEndian(0, 2) == [0, 0]
  {
    assert LittleEndian(0, 1) == [0] + LittleEndian(0, 0);
  }

  /** The identification header of section 5.1 of RFC 7845, with no pre-skip and no gain. */
  lemma HeadBytes(rate: int, channels: int)
    ensures var p := HeadPacket(rate, channels);
            && |p| == 19 && p[..8] == Ascii("OpusHead") && p[8] == 1 && p[9] == channels % 256
            && p[10..12] == [0, 0] && ReadLittle(p[12..16]) == rate % 0x1_0000_0000 && p[16..19] == [0, 0, 0]
  {
    HeadLayout(OPUS_HEAD, channels % 256, LittleEndian(0, 2), LittleEndian(rate % 0x1_0000_0000, 4), LittleEndian(0, 2));
    Widths();
    WriteThenRead(rate % 0x1_0000_0000, 4);
    ConstantTexts();
    TwoZeros();
    assert [0, 0] + [0] == [0, 0, 0];
  }

  lemma ConstantTexts()
    ensures Ascii("OggS") == OGGS && Ascii("OpusHead") == OPUS_HEAD && Ascii("OpusTags") == OPUS_TAGS
    ensures Ascii("dili-mock-ai-server") == VENDOR
  {
  }

  lemma SmallNumbers()
    ensures LittleEndian(0, 4) == [0, 0, 0, 0] && LittleEndian(19, 4) == [19, 0, 0, 0]
  {
    ZeroBytes();
    assert LittleEndian(19, 4) == [19] + LittleEndian(0, 3);
    assert LittleEndian(0, 4) == [0] + LittleEndian(0, 3);
  }

  /** The comment header of section 5.2 of RFC 7845: the vendor's name and no comments. */
  lemma TagsBytes()
    ensures TagsPacket() == Ascii("OpusTags") + [19, 0, 0, 0] + Ascii("dili-mock-ai-server") + [0, 0, 0, 0]
  {
    ConstantTexts();
    SmallNumbers();
    TagsParts();
  }

  lemma TagsParts()
    ensures TagsPacket() == OPUS_TAGS + LittleEndian(19, 4) + VENDOR + LittleEndian(0, 4)
  {
    assert |VENDOR| == 19;
  }
}

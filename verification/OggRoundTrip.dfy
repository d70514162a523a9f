/**
 What the Ogg/Opus reader delivers, whatever the page cuts, and the round trip
 through the writer.
 */
module OggRoundTrip {
  import opened Basics
  import opened OggOpus

  // ---------- Whole streams ----------

  datatype Outcome = Outcome(prepared: Prepared, packets: seq<Packet>, last: Error)

  lemma NextStepShrinks(r: Reader)
    ensures var (r', next) := NextStep(r);
            next.Delivered? ==>
              (|r'.input| < |r.input| || (r'.input == r.input && |r'.stage.queue| < |r.stage.queue|))
    decreases |r.input|
  {
    if r.stage.queue == [] && PageStep(r).1.None? {
      NextStepShrinks(PageStep(r).0);
    }
  }

  /** NextPacket until it reports an error. */
  function Drain(r: Reader): (seq<Packet>, Error)
    decreases |r.input|, |r.stage.queue|
  {
    NextStepShrinks(r);
    var (r', next) := NextStep(r);
    match next
    case Stopped(e) => ([], e)
    case Delivered(p) =>
      var (ps, e) := Drain(r');
      ([p] + ps, e)
  }

  lemma DrainStep(r: Reader)
    ensures var (r', next) := NextStep(r);
            && (next.Stopped? ==> Drain(r) == ([], next.error))
            && (next.Delivered? ==>
                  && Drain(r) == ([next.packet] + Drain(r').0, Drain(r').1)
                  && (|r'.input| < |r.input|
                      || (r'.input == r.input && |r'.stage.queue| < |r.stage.queue|)))
  {
    NextStepShrinks(r);
  }

  function Finish(r: Reader): Outcome {
    var (r', prepared) := PrepareStep(r);
    match prepared
    case Refused(e) => Outcome(prepared, [], e)
    case Ready(_) => var (ps, e) := Drain(r'); Outcome(prepared, ps, e)
  }

  /** Prepare, then NextPacket until it reports an error, on the reader object. */
  method ReadAll(input: seq<byte>) returns (prepared: Prepared, packets: seq<Packet>, last: Error)
    ensures Outcome(prepared, packets, last) == Finish(NewReader(input))
  {
    var reader := new PacketReader(input);
    prepared := reader.Prepare();
    packets := [];
    if prepared.Refused? { return prepared, [], prepared.error; }
    packets, last := ReadPackets(reader);
  }

  /** NextPacket until it reports an error. */
  method ReadPackets(reader: PacketReader) returns (packets: seq<Packet>, last: Error)
    modifies reader
    ensures (packets, last) == Drain(old(reader.View()))
  {
    packets := [];
    ghost var start := reader.View();
    assert [] + Drain(start).0 == Drain(start).0;
    while true
      invariant ReadSoFar(start, packets, reader.View())
      decreases |reader.input|, |reader.queue|
    {
      ghost var before := reader.View();
      ReadStep(start, packets, before);
      var next := reader.NextPacket();
      if next.Stopped? { return packets, next.error; }
      packets := packets + [next.packet];
    }
  }

  ghost predicate ReadSoFar(start: Reader, packets: seq<Packet>, r: Reader) {
    Drain(start) == (packets + Drain(r).0, Drain(r).1)
  }

  lemma ReadStep(start: Reader, packets: seq<Packet>, r: Reader)
    requires ReadSoFar(start, packets, r)
    ensures var (r', next) := NextStep(r);
            && (next.Stopped? ==> Drain(start) == (packets, next.error))
            && (next.Delivered? ==> ReadSoFar(start, packets + [next.packet], r'))
            && (next.Delivered? ==> |r'.input| < |r.input| || (r'.input == r.input && |r'.stage.queue| < |r.stage.queue|))
  {
    var (r', next) := NextStep(r);
    DrainStep(r);
    if next.Delivered? {
      ConcatAssoc(packets, [next.packet], Drain(r').0);
    } else {
      assert packets + [] == packets;
    }
  }

  // ---------- Lacing, without pages ----------

  /** The packets that lacing values cut out of a byte string, and what is left
      over for a continuation. */
  function Laced(segments: seq<byte>, body: seq<byte>, carry: Packet): (seq<Packet>, Packet)
    requires |body| == Sum(segments)
    decreases |segments|
  {
    if segments == [] then ([], carry)
    else
      var grown := carry + body[..segments[0]];
      if segments[0] == 255 then Laced(segments[1..], body[segments[0]..], grown)
      else
        var (ps, c) := Laced(segments[1..], body[segments[0]..], []);
        ([grown] + ps, c)
  }

  function Feed(s: Stage, ps: seq<Packet>): (Stage, Option<Error>)
    decreases |ps|
  {
    if ps == [] then (s, None)
    else
      var (s', err) := Handle(s, ps[0]);
      if err.Some? then (s', err) else Feed(s', ps[1..])
  }

  lemma {:induction false} ConsumeIsFeed(s: Stage, packet: Packet, segments: seq<byte>, body: seq<byte>)
    requires |body| == Sum(segments)
    ensures var (ps, carry) := Laced(segments, body, packet);
            var (s', c, err) := Consume(s, packet, segments, body);
            (s', err) == Feed(s, ps) && (err.None? ==> c == carry)
    decreases |segments|
  {
    if segments != [] {
      var grown := packet + body[..segments[0]];
      if segments[0] == 255 {
        ConsumeIsFeed(s, grown, segments[1..], body[segments[0]..]);
      } else {
        var (ps, c) := Laced(segments[1..], body[segments[0]..], []);
        assert ([grown] + ps)[1..] == ps;
        ConsumeIsFeed(Handle(s, grown).0, [], segments[1..], body[segments[0]..]);
      }
    }
  }

  lemma {:induction false} SumAppend(a: seq<byte>, b: seq<byte>)
    ensures Sum(a + b) == Sum(a) + Sum(b)
  {
    if a == [] {
      assert a + b == b;
    } else {
      assert (a + b)[1..] == a[1..] + b;
      SumAppend(a[1..], b);
    }
  }

  lemma {:induction false} LacedAppend(s1: seq<byte>, b1: seq<byte>, s2: seq<byte>, b2: seq<byte>, carry: Packet)
    requires |b1| == Sum(s1) && |b2| == Sum(s2) && |b1 + b2| == Sum(s1 + s2)
    ensures var (p1, c1) := Laced(s1, b1, carry);
            var (p2, c2) := Laced(s2, b2, c1);
            Laced(s1 + s2, b1 + b2, carry) == (p1 + p2, c2)
    decreases |s1|
  {
    if s1 == [] {
      assert s1 + s2 == s2 && b1 + b2 == b2;
      assert [] + Laced(s2, b2, carry).0 == Laced(s2, b2, carry).0;
    } else {
      var k := s1[0];
      assert (s1 + s2)[1..] == s1[1..] + s2;
      assert (b1 + b2)[..k] == b1[..k] && (b1 + b2)[k..] == b1[k..] + b2;
      SumAppend(s1[1..], s2);
      LacedAppend(s1[1..], b1[k..], s2, b2, if k == 255 then carry + b1[..k] else []);
      if k != 255 {
        var (p1, c1) := Laced(s1[1..], b1[k..], []);
        ConcatAssoc([carry + b1[..k]], p1, Laced(s2, b2, c1).0);
      }
    }
  }

  lemma {:induction false} FeedAppend(s: Stage, a: seq<Packet>, b: seq<Packet>)
    ensures Feed(s, a + b) == var (s', err) := Feed(s, a); if err.Some? then (s', err) else Feed(s', b)
    decreases |a|
  {
    if a == [] {
      assert a + b == b;
    } else {
      assert (a + b)[1..] == a[1..] + b;
      FeedAppend(Handle(s, a[0]).0, a[1..], b);
    }
  }

  function NonEmpty(ps: seq<Packet>): seq<Packet> {
    if ps == [] then [] else (if |ps[0]| > 0 then [ps[0]] else []) + NonEmpty(ps[1..])
  }

  lemma HandleData(s: Stage, p: Packet)
    requires s.headSeen && s.tagsSeen
    ensures Handle(s, p) == (s.(queue := s.queue + if |p| > 0 then [p] else []), None)
  {
    assert s.queue + [] == s.queue;
  }

  /** Once both header packets are in, every non-empty packet is queued. */
  lemma {:induction false} FeedData(s: Stage, ps: seq<Packet>)
    requires s.headSeen && s.tagsSeen
    ensures Feed(s, ps) == (s.(queue := s.queue + NonEmpty(ps)), None)
    decreases |ps|
  {
    if ps == [] {
      assert s.queue + [] == s.queue;
    } else {
      HandleData(s, ps[0]);
      FeedData(Handle(s, ps[0]).0, ps[1..]);
      ConcatAssoc(s.queue, if |ps[0]| > 0 then [ps[0]] else [], NonEmpty(ps[1..]));
    }
  }

  // ---------- Any page cuts ----------

  function AllSegments(fs: seq<Framed>): seq<byte> {
    if fs == [] then [] else fs[0].page.segments + AllSegments(fs[1..])
  }

  function AllBytes(fs: seq<Framed>): seq<byte> {
    if fs == [] then [] else fs[0].page.body + AllBytes(fs[1..])
  }

  /** Whether lacing ends in the middle of a packet. */
  predicate OpenAfter(open: bool, segments: seq<byte>) {
    if segments == [] then open else segments[|segments| - 1] == 255
  }

  /** Well-formed pages whose continuation flag is set only where the lacing so
      far ended on 255. */
  ghost predicate GoodPages(fs: seq<Framed>, open: bool) {
    fs == [] ||
    (&& WellFormed(fs[0].page)
     && (fs[0].page.headerType % 2 == 1 ==> open)
     && GoodPages(fs[1..], OpenAfter(open, fs[0].page.segments)))
  }

  lemma {:induction false} AllBytesSum(fs: seq<Framed>, open: bool)
    requires GoodPages(fs, open)
    ensures |AllBytes(fs)| == Sum(AllSegments(fs))
  {
    if fs != [] {
      AllBytesSum(fs[1..], OpenAfter(open, fs[0].page.segments));
      SumAppend(fs[0].page.segments, AllSegments(fs[1..]));
    }
  }

  lemma {:induction false} LacedCarry(segments: seq<byte>, body: seq<byte>, carry: Packet)
    requires |body| == Sum(segments)
    ensures Laced(segments, body, carry).1 != [] <==> OpenAfter(carry != [], segments)
    decreases |segments|
  {
    if segments != [] {
      LacedCarry(segments[1..], body[segments[0]..],
                 if segments[0] == 255 then carry + body[..segments[0]] else []);
    }
  }

  lemma ParseFramed(f: Framed, rest: seq<byte>)
    requires WellFormed(f.page)
    ensures ParsePage(PageBytes(f) + rest) == PageOk(f.page, rest)
  {
    var h, p := Header(f.page, f.stamp), f.page;
    PageParts(h, p.segments, p.body, rest);
    ParseParts(h, p, rest);
  }

  lemma PageParts(h: seq<byte>, segments: seq<byte>, body: seq<byte>, rest: seq<byte>)
    ensures h + segments + body + rest == h + (segments + (body + rest))
  {
  }

  lemma ParseParts(h: seq<byte>, p: Page, rest: seq<byte>)
    requires |h| == 27 && h[..4] == OGGS && h[4] == 0 && h[5] == p.headerType && h[26] == |p.segments| && WellFormed(p)
    ensures ParsePage(h + (p.segments + (p.body + rest))) == PageOk(p, rest)
  {
    var after := p.segments + (p.body + rest);
    var input := h + after;
    assert input[..4] == h[..4] && input[27..] == after;
    assert after[..|p.segments|] == p.segments && after[|p.segments|..] == p.body + rest;
    assert (p.body + rest)[..|p.body|] == p.body && (p.body + rest)[|p.body|..] == rest;
  }

  // ---------- Which inputs begin with a page ----------

  function ReadLittle(bs: seq<byte>): nat {
    if bs == [] then 0 else bs[0] + 256 * ReadLittle(bs[1..])
  }

  lemma {:induction false} ReadThenWrite(bs: seq<byte>)
    ensures LittleEndian(ReadLittle(bs), |bs|) == bs
  {
    if bs != [] {
      ReadThenWrite(bs[1..]);
      ByteAndRest(bs[0], ReadLittle(bs[1..]));
      assert bs == [bs[0]] + bs[1..];
    }
  }

  lemma ByteAndRest(b: byte, m: nat)
    ensures (b + 256 * m) % 256 == b && (b + 256 * m) / 256 == m
  {
  }

  function Power256(n: nat): nat {
    if n == 0 then 1 else 256 * Power256(n - 1)
  }

  lemma {:induction false} ReadBound(bs: seq<byte>)
    ensures ReadLittle(bs) < Power256(|bs|)
  {
    if bs != [] { ReadBound(bs[1..]); }
  }

  lemma Widths()
    ensures Power256(4) == 0x1_0000_0000 && Power256(8) == 0x1_0000_0000_0000_0000
  {
    assert Power256(2) == 65536;
    assert Power256(4) == 256 * (256 * Power256(2));
    assert Power256(6) == 256 * (256 * Power256(4));
    assert Power256(8) == 256 * (256 * Power256(6));
  }

  /** The fields the reader skips, read from a header. */
  ghost function StampOf(h: seq<byte>): Stamp
    requires |h| == 27
  {
    Widths();
    ReadBound(h[6..14]);
    ReadBound(h[14..18]);
    ReadBound(h[18..22]);
    ReadBound(h[22..26]);
    Stamp(ReadLittle(h[6..14]), ReadLittle(h[14..18]), ReadLittle(h[18..22]), ReadLittle(h[22..26]))
  }

  lemma HeaderOf(h: seq<byte>, p: Page)
    requires |h| == 27 && h[..4] == OGGS && h[4] == 0 && h[5] == p.headerType && h[26] == |p.segments|
    ensures Header(p, StampOf(h)) == h
  {
    ReadThenWrite(h[6..14]);
    ReadThenWrite(h[14..18]);
    ReadThenWrite(h[18..22]);
    ReadThenWrite(h[22..26]);
    HeaderParts(h);
  }

  lemma HeaderParts(h: seq<byte>)
    requires |h| == 27
    ensures h == h[..4] + [h[4], h[5]] + h[6..14] + h[14..18] + h[18..22] + h[22..26] + [h[26]]
  {
  }

  /** The reader accepts exactly the inputs that begin with a page of version 0 of at most
      255 lacing values whose body is complete, whatever the other header fields are. */
  lemma AcceptedInputs(input: seq<byte>)
    ensures ParsePage(input).PageOk? <==> exists f: Framed, rest: seq<byte> :: WellFormed(f.page) && input == PageBytes(f) + rest
  {
    if ParsePage(input).PageOk? {
      var read, h := ParsePage(input), input[..27];
      assert input[..4] == h[..4];
      HeaderOf(h, read.page);
      InputParts(input, |read.page.segments|, |read.page.body|);
      assert input == PageBytes(Framed(read.page, StampOf(h))) + read.rest;
    }
    forall f: Framed, rest: seq<byte> | WellFormed(f.page) && input == PageBytes(f) + rest
      ensures ParsePage(input).PageOk?
    {
      ParseFramed(f, rest);
    }
  }

  lemma InputParts(input: seq<byte>, m: nat, n: nat)
    requires |input| >= 27 + m + n
    ensures input == input[..27] + input[27..][..m] + input[27..][m..][..n] + input[27..][m..][n..]
  {
  }

  /** A stream cut off inside a page. */
  ghost predicate CutOff(tail: seq<byte>) {
    tail == [] || ParsePage(tail) == PageError(UnexpectedEof, [])
  }

  /** What a reader must make of the lacing values and bytes still to come. */
  ghost function Ideal(s: Stage, carry: Packet, segments: seq<byte>, bytes: seq<byte>, clean: bool): Outcome
    requires |bytes| == Sum(segments)
  {
    var (ps, c) := Laced(segments, bytes, carry);
    var (s', err) := Feed(s, ps);
    var missing := if clean then MissingHeaders else UnexpectedEof;
    if err.Some? then Outcome(Refused(err.value), [], err.value)
    else if !s'.headSeen || !s'.tagsSeen then Outcome(Refused(missing), [], missing)
    else Outcome(Ready(Fallback(s'.info)), s'.queue, if clean && c == [] then Eof else UnexpectedEof)
  }

  /** One page, in terms of lacing. */
  lemma StepOverPage(r: Reader, f: Framed, rest: seq<byte>)
    requires WellFormed(f.page) && r.input == PageBytes(f) + rest
    requires f.page.headerType % 2 == 1 ==> r.carry != []
    ensures var (ps, c) := Laced(f.page.segments, f.page.body, r.carry);
            var (s, err) := Feed(r.stage, ps);
            PageStep(r) == (Reader(rest, if err.Some? then r.carry else c, s), err)
  {
    ParseFramed(f, rest);
    ConsumeIsFeed(r.stage, r.carry, f.page.segments, f.page.body);
  }

  lemma DrainOverPage(r: Reader)
    requires r.stage.queue == [] && PageStep(r).1.None?
    ensures Drain(r) == Drain(PageStep(r).0)
  {
  }

  lemma SplitOff(fs: seq<Framed>, open: bool, carry: Packet)
    requires fs != [] && GoodPages(fs, open)
    ensures |AllBytes(fs)| == Sum(AllSegments(fs)) && |AllBytes(fs[1..])| == Sum(AllSegments(fs[1..]))
    ensures var (p1, c1) := Laced(fs[0].page.segments, fs[0].page.body, carry);
            var (p2, c2) := Laced(AllSegments(fs[1..]), AllBytes(fs[1..]), c1);
            Laced(AllSegments(fs), AllBytes(fs), carry) == (p1 + p2, c2)
  {
    AllBytesSum(fs, open);
    AllBytesSum(fs[1..], OpenAfter(open, fs[0].page.segments));
    LacedAppend(fs[0].page.segments, fs[0].page.body, AllSegments(fs[1..]), AllBytes(fs[1..]), carry);
  }

  lemma DrainPop(r: Reader)
    requires r.stage.queue != []
    ensures var q := r.stage.queue;
            var (ps, e) := Drain(r.(stage := r.stage.(queue := q[1..])));
            Drain(r) == ([q[0]] + ps, e)
  {
  }

  lemma DrainStop(r: Reader)
    requires r.stage.queue == [] && CutOff(r.input)
    ensures Drain(r) == ([], if r.input == [] && r.carry == [] then Eof else UnexpectedEof)
  {
  }

  /** After the headers: the queued packets, then those of the pages to come. */
  lemma {:induction false} DrainPages(r: Reader, fs: seq<Framed>, tail: seq<byte>)
    requires r.stage.headSeen && r.stage.tagsSeen && CutOff(tail)
    requires GoodPages(fs, r.carry != []) && |AllBytes(fs)| == Sum(AllSegments(fs))
    requires r.input == StreamBytes(fs) + tail
    ensures var (ps, c) := Laced(AllSegments(fs), AllBytes(fs), r.carry);
            Drain(r) == (r.stage.queue + NonEmpty(ps), if tail == [] && c == [] then Eof else UnexpectedEof)
    decreases |fs|, |r.stage.queue|
  {
    var q := r.stage.queue;
    if q != [] {
      DrainPop(r);
      DrainPages(r.(stage := r.stage.(queue := q[1..])), fs, tail);
      assert q == [q[0]] + q[1..];
      ConcatAssoc([q[0]], q[1..], NonEmpty(Laced(AllSegments(fs), AllBytes(fs), r.carry).0));
    } else if fs == [] {
      assert r.input == tail;
      DrainStop(r);
      NoQueue(q, []);
    } else {
      DrainFirstPage(r, fs, tail);
      DrainPages(PageStep(r).0, fs[1..], tail);
      NoQueue(q, NonEmpty(Laced(AllSegments(fs), AllBytes(fs), r.carry).0));
    }
  }

  lemma NoQueue(q: seq<Packet>, packets: seq<Packet>)
    requires q == []
    ensures q + packets == packets
  {
  }

  /** The first page moves its packets to the queue. */
  lemma DrainFirstPage(r: Reader, fs: seq<Framed>, tail: seq<byte>)
    requires r.stage.headSeen && r.stage.tagsSeen && r.stage.queue == [] && fs != []
    requires GoodPages(fs, r.carry != []) && r.input == StreamBytes(fs) + tail
    ensures |AllBytes(fs)| == Sum(AllSegments(fs)) && |AllBytes(fs[1..])| == Sum(AllSegments(fs[1..]))
    ensures var r' := PageStep(r).0;
            var (ps, c) := Laced(AllSegments(fs), AllBytes(fs), r.carry);
            var (ps', c') := Laced(AllSegments(fs[1..]), AllBytes(fs[1..]), r'.carry);
            && Drain(r) == Drain(r')
            && r'.stage.headSeen && r'.stage.tagsSeen
            && GoodPages(fs[1..], r'.carry != []) && r'.input == StreamBytes(fs[1..]) + tail
            && NonEmpty(ps) == r'.stage.queue + NonEmpty(ps') && c == c'
  {
    var f := fs[0];
    var p1 := Laced(f.page.segments, f.page.body, r.carry).0;
    ConcatAssoc(PageBytes(f), StreamBytes(fs[1..]), tail);
    StepOverPage(r, f, StreamBytes(fs[1..]) + tail);
    FeedData(r.stage, p1);
    LacedCarry(f.page.segments, f.page.body, r.carry);
    DrainOverPage(r);
    SplitOff(fs, r.carry != [], r.carry);
    NonEmptyAppend(p1, Laced(AllSegments(fs[1..]), AllBytes(fs[1..]), PageStep(r).0.carry).0);
    assert [] + NonEmpty(p1) == NonEmpty(p1);
  }

  lemma {:induction false} NonEmptyAppend(a: seq<Packet>, b: seq<Packet>)
    ensures NonEmpty(a + b) == NonEmpty(a) + NonEmpty(b)
  {
    if a == [] {
      assert a + b == b;
    } else {
      assert (a + b)[1..] == a[1..] + b;
      NonEmptyAppend(a[1..], b);
    }
  }

  lemma FinishOverPage(r: Reader)
    requires !r.stage.headSeen || !r.stage.tagsSeen
    ensures var (r', err) := PageStep(r);
            Finish(r) == match err
                         case None => Finish(r')
                         case Some(e) =>
                           var e' := if e == Eof then MissingHeaders else e;
                           Outcome(Refused(e'), [], e')
  {
  }

  lemma FinishData(r: Reader, fs: seq<Framed>, tail: seq<byte>)
    requires r.stage.headSeen && r.stage.tagsSeen
    requires CutOff(tail) && r.input == StreamBytes(fs) + tail
    requires GoodPages(fs, r.carry != []) && |AllBytes(fs)| == Sum(AllSegments(fs))
    ensures Finish(r) == Ideal(r.stage, r.carry, AllSegments(fs), AllBytes(fs), tail == [])
  {
    DrainPages(r.(stage := r.stage.(info := Fallback(r.stage.info))), fs, tail);
    FeedData(r.stage, Laced(AllSegments(fs), AllBytes(fs), r.carry).0);
  }

  /** The ideal of a stream, split after its first page. */
  lemma IdealSplit(s: Stage, carry: Packet, fs: seq<Framed>, open: bool, clean: bool)
    requires fs != [] && GoodPages(fs, open)
    ensures |AllBytes(fs)| == Sum(AllSegments(fs)) && |AllBytes(fs[1..])| == Sum(AllSegments(fs[1..]))
    ensures var (p1, c1) := Laced(fs[0].page.segments, fs[0].page.body, carry);
            var (s', err) := Feed(s, p1);
            Ideal(s, carry, AllSegments(fs), AllBytes(fs), clean)
            == if err.Some? then Outcome(Refused(err.value), [], err.value)
               else Ideal(s', c1, AllSegments(fs[1..]), AllBytes(fs[1..]), clean)
  {
    SplitOff(fs, open, carry);
    var (p1, c1) := Laced(fs[0].page.segments, fs[0].page.body, carry);
    FeedAppend(s, p1, Laced(AllSegments(fs[1..]), AllBytes(fs[1..]), c1).0);
  }

  /** The reader's step over the first page. */
  lemma FirstPageStep(r: Reader, fs: seq<Framed>, tail: seq<byte>)
    requires fs != [] && GoodPages(fs, r.carry != []) && r.input == StreamBytes(fs) + tail
    ensures var (p1, c1) := Laced(fs[0].page.segments, fs[0].page.body, r.carry);
            var (s', err) := Feed(r.stage, p1);
            && PageStep(r) == (Reader(StreamBytes(fs[1..]) + tail, if err.Some? then r.carry else c1, s'), err)
            && err != Some(Eof)
            && GoodPages(fs[1..], c1 != [])
  {
    var f := fs[0];
    ConcatAssoc(PageBytes(f), StreamBytes(fs[1..]), tail);
    StepOverPage(r, f, StreamBytes(fs[1..]) + tail);
    LacedCarry(f.page.segments, f.page.body, r.carry);
    FeedErrors(r.stage, Laced(f.page.segments, f.page.body, r.carry).0);
  }

  /** The reader meets its ideal on every stream of good pages, from any state. */
  lemma {:induction false} FinishPages(r: Reader, fs: seq<Framed>, tail: seq<byte>)
    requires CutOff(tail) && r.input == StreamBytes(fs) + tail
    requires GoodPages(fs, r.carry != []) && |AllBytes(fs)| == Sum(AllSegments(fs))
    ensures Finish(r) == Ideal(r.stage, r.carry, AllSegments(fs), AllBytes(fs), tail == [])
    decreases |fs|
  {
    if r.stage.headSeen && r.stage.tagsSeen {
      FinishData(r, fs, tail);
    } else {
      FinishOverPage(r);
      if fs == [] {
        assert r.input == tail;
      } else {
        FirstPageStep(r, fs, tail);
        IdealSplit(r.stage, r.carry, fs, r.carry != [], tail == []);
        if PageStep(r).1.None? { FinishPages(PageStep(r).0, fs[1..], tail); }
      }
    }
  }

  lemma {:induction false} FeedErrors(s: Stage, ps: seq<Packet>)
    ensures Feed(s, ps).1 != Some(Eof)
    decreases |ps|
  {
    if ps != [] { FeedErrors(Handle(s, ps[0]).0, ps[1..]); }
  }

  /** The reader does not see page cuts: however one string of lacing values and
      bytes is cut into pages, with a continuation flag only where a packet is
      continued, the outcome is the same; and if the stream stops inside a packet
      or inside a page, the last word is an unexpected end of file. */
  lemma PageCutsDoNotMatter(fs: seq<Framed>, tail: seq<byte>, gs: seq<Framed>, tail': seq<byte>)
    requires GoodPages(fs, false) && GoodPages(gs, false)
    requires AllSegments(fs) == AllSegments(gs) && AllBytes(fs) == AllBytes(gs)
    requires CutOff(tail) && CutOff(tail') && (tail == [] <==> tail' == [])
    ensures Finish(NewReader(StreamBytes(fs) + tail)) == Finish(NewReader(StreamBytes(gs) + tail'))
    ensures var o := Finish(NewReader(StreamBytes(fs) + tail));
            o.prepared.Ready? ==>
              (o.last == Eof <==> tail == [] && !OpenAfter(false, AllSegments(fs)))
  {
    AllBytesSum(fs, false);
    FinishPages(NewReader(StreamBytes(fs) + tail), fs, tail);
    FinishPages(NewReader(StreamBytes(gs) + tail'), gs, tail');
    LacedCarry(AllSegments(fs), AllBytes(fs), []);
  }

  /** A page cut off after its first byte and before its last one is reported as
      an unexpected end of file, wherever the cut is. */
  lemma TruncatedPageIsCutOff(f: Framed, k: nat)
    requires WellFormed(f.page) && 0 < k < |PageBytes(f)|
    ensures CutOff(PageBytes(f)[..k])
  {
    if k >= 27 { CutParts(Header(f.page, f.stamp), f.page, k); }
  }

  lemma CutParts(h: seq<byte>, p: Page, k: nat)
    requires |h| == 27 && h[..4] == OGGS && h[4] == 0 && h[26] == |p.segments| && WellFormed(p)
    requires 27 <= k < |h + p.segments + p.body|
    ensures ParsePage((h + p.segments + p.body)[..k]) == PageError(UnexpectedEof, [])
  {
    var all := h + p.segments + p.body;
    var input := all[..k];
    assert input[..4] == h[..4] && input[4] == 0 && input[26] == |p.segments|;
    if k >= 27 + |p.segments| {
      assert input[27..][..|p.segments|] == p.segments;
    }
  }

  // ---------- Writer, then reader ----------

  lemma {:induction false} LacedOnePacket(packet: Packet, carry: Packet)
    ensures Laced(Lacing(|packet|), packet, carry) == ([carry + packet], [])
    decreases |packet|
  {
    var n := |packet|;
    if n < 255 {
      assert packet[..n] == packet;
      assert Laced([], packet[n..], []) == ([], []);
      assert Lacing(n)[1..] == [];
      assert [carry + packet] + [] == [carry + packet];
    } else {
      var rest := packet[255..];
      assert Lacing(n) == [255] + Lacing(n - 255);
      assert Lacing(n)[1..] == Lacing(n - 255);
      LacedOnePacket(rest, carry + packet[..255]);
      assert carry + packet[..255] + rest == carry + packet;
    }
  }

  /** Page i holds packet i and nothing else. */
  ghost predicate OnePacketPages(fs: seq<Framed>, ps: seq<Packet>) {
    && |fs| == |ps|
    && forall i :: 0 <= i < |fs| ==>
         && fs[i].page == PacketPage(fs[i].page.headerType, ps[i])
         && fs[i].page.headerType % 2 == 0 && |ps[i]| <= 65024
  }

  lemma {:induction false} OnePacketPagesLaced(fs: seq<Framed>, ps: seq<Packet>)
    requires OnePacketPages(fs, ps)
    ensures GoodPages(fs, false) && |AllBytes(fs)| == Sum(AllSegments(fs))
    ensures Laced(AllSegments(fs), AllBytes(fs), []) == (ps, [])
    decreases |fs|
  {
    if fs != [] {
      OnePacketPagesLaced(fs[1..], ps[1..]);
      LacingEnds(|ps[0]|);
      LacedOnePacket(ps[0], []);
      assert [] + ps[0] == ps[0];
      SplitOff(fs, false, []);
      assert ps == [ps[0]] + ps[1..];
    }
  }

  lemma {:induction false} DataFramesHoldPackets(crc: seq<byte> -> uint32, packets: seq<Packet>, frameSize: int, n: nat)
    requires n <= |packets| && forall i :: 0 <= i < n ==> |packets[i]| <= 65024
    ensures OnePacketPages(DataFrames(crc, packets, frameSize, n), packets[..n])
  {
    if n > 0 {
      DataFramesHoldPackets(crc, packets, frameSize, n - 1);
      DataFrameHoldsPacket(crc, packets, frameSize, n - 1);
      OnePacketPagesSnoc(DataFrames(crc, packets, frameSize, n - 1), packets, n - 1, DataFrame(crc, packets, frameSize, n - 1));
    }
  }

  lemma OnePacketPagesSnoc(fs: seq<Framed>, packets: seq<Packet>, n: nat, f: Framed)
    requires n < |packets| && OnePacketPages(fs, packets[..n]) && OnePacketPages([f], [packets[n]])
    ensures OnePacketPages(fs + [f], packets[..n + 1])
  {
    OnePacketPagesAppend(fs, packets[..n], [f], [packets[n]]);
    assert packets[..n + 1] == packets[..n] + [packets[n]];
  }

  lemma DataFrameHoldsPacket(crc: seq<byte> -> uint32, packets: seq<Packet>, frameSize: int, i: nat)
    requires i < |packets| && |packets[i]| <= 65024
    ensures OnePacketPages([DataFrame(crc, packets, frameSize, i)], [packets[i]])
  {
  }

  lemma HandleHeaders(rate: int, channels: int)
    requires 1 <= channels <= 255
    ensures var info := Info(StoredRate(rate), channels);
            && Handle(NEW_STAGE, HeadPacket(rate, channels)) == (Stage([], info, true, false), None)
            && Handle(Stage([], info, true, false), TagsPacket()) == (Stage([], info, true, true), None)
  {
    Uint32RoundTrip(rate % 0x1_0000_0000);
    assert TagsPacket()[..8] == OPUS_TAGS;
  }

  lemma FeedHeaders(rate: int, channels: int, packets: seq<Packet>)
    requires 1 <= channels <= 255
    ensures Feed(NEW_STAGE, [HeadPacket(rate, channels), TagsPacket()] + packets)
         == (Stage(NonEmpty(packets), Info(StoredRate(rate), channels), true, true), None)
  {
    var head, tags := HeadPacket(rate, channels), TagsPacket();
    var all := [head, tags] + packets;
    HandleHeaders(rate, channels);
    assert all[1..] == [tags] + packets && all[1..][1..] == packets;
    FeedData(Stage([], Info(StoredRate(rate), channels), true, true), packets);
    assert [] + NonEmpty(packets) == NonEmpty(packets);
  }

  /** The sample rate a reader makes of the 32-bit field in the head packet. */
  function StoredRate(rate: int): int {
    var field := rate % 0x1_0000_0000;
    NormalizeRate(if field == 0 then 48000 else field)
  }

  lemma OnePacketPagesAppend(fs: seq<Framed>, ps: seq<Packet>, gs: seq<Framed>, qs: seq<Packet>)
    requires OnePacketPages(fs, ps) && OnePacketPages(gs, qs)
    ensures OnePacketPages(fs + gs, ps + qs)
  {
  }

  lemma HeaderPages(crc: seq<byte> -> uint32, rate: int, channels: int)
    ensures OnePacketPages(HeaderFrames(crc, rate, channels), [HeadPacket(rate, channels), TagsPacket()])
  {
    HeaderPage(crc, 0, 2, HeadPacket(rate, channels));
    HeaderPage(crc, 1, 0, TagsPacket());
    OnePacketPagesAppend([FramedPacket(crc, SERIAL, 0, 2, 0, HeadPacket(rate, channels))], [HeadPacket(rate, channels)],
                         [FramedPacket(crc, SERIAL, 1, 0, 0, TagsPacket())], [TagsPacket()]);
    assert |TagsPacket()| <= 65024;
  }

  lemma HeaderPage(crc: seq<byte> -> uint32, sequence: uint32, headerType: byte, packet: Packet)
    requires |packet| <= 65024 && headerType % 2 == 0
    ensures OnePacketPages([FramedPacket(crc, SERIAL, sequence, headerType, 0, packet)], [packet])
  {
  }

  lemma WrittenPages(crc: seq<byte> -> uint32, packets: seq<Packet>, rate: int, channels: int, frameSize: int)
    requires forall i :: 0 <= i < |packets| ==> |packets[i]| <= 65024
    ensures OnePacketPages(HeaderFrames(crc, rate, channels) + DataFrames(crc, packets, frameSize, |packets|),
                           [HeadPacket(rate, channels), TagsPacket()] + packets)
  {
    DataFramesHoldPackets(crc, packets, frameSize, |packets|);
    assert packets[..|packets|] == packets;
    HeaderPages(crc, rate, channels);
    OnePacketPagesAppend(HeaderFrames(crc, rate, channels), [HeadPacket(rate, channels), TagsPacket()],
                         DataFrames(crc, packets, frameSize, |packets|), packets);
  }

  /** One page per packet, headers first, reads back as the packets. */
  lemma OnePacketPagesReadBack(fs: seq<Framed>, packets: seq<Packet>, rate: int, channels: int)
    requires 1 <= channels <= 255
    requires OnePacketPages(fs, [HeadPacket(rate, channels), TagsPacket()] + packets)
    ensures Finish(NewReader(StreamBytes(fs)))
         == Outcome(Ready(Info(StoredRate(rate), channels)), NonEmpty(packets), Eof)
  {
    OnePacketPagesLaced(fs, [HeadPacket(rate, channels), TagsPacket()] + packets);
    FeedHeaders(rate, channels, packets);
    StoredRateIsSupported(rate);
    assert StreamBytes(fs) + [] == StreamBytes(fs);
    FinishPages(NewReader(StreamBytes(fs)), fs, []);
  }

  /** Reading back what WrapOggOpusPackets wrote yields exactly the non-empty
      packets in order, then a clean end of file, with the same channel count and,
      for a supported rate, the same sample rate. */
  lemma WriterReaderRoundTrip(crc: seq<byte> -> uint32, packets: seq<Packet>, rate: int, channels: int, frameSize: int)
    requires 1 <= channels <= 255
    requires forall i :: 0 <= i < |packets| ==> |packets[i]| <= 65024
    ensures Finish(NewReader(StreamBytes(
              HeaderFrames(crc, rate, channels) + DataFrames(crc, packets, frameSize, |packets|))))
         == Outcome(Ready(Info(StoredRate(rate), channels)), NonEmpty(packets), Eof)
    ensures rate in SUPPORTED_RATES ==> StoredRate(rate) == rate
  {
    WrittenPages(crc, packets, rate, channels, frameSize);
    OnePacketPagesReadBack(HeaderFrames(crc, rate, channels) + DataFrames(crc, packets, frameSize, |packets|),
                           packets, rate, channels);
    StoredRateIsSupported(rate);
  }

  lemma StoredRateIsSupported(rate: int)
    ensures StoredRate(rate) in SUPPORTED_RATES && StoredRate(rate) > 0
    ensures rate in SUPPORTED_RATES ==> StoredRate(rate) == rate
  {
    var field := rate % 0x1_0000_0000;
    NormalizeRateIsNearest(if field == 0 then 48000 else field);
  }

  /** The round trip on the code itself. */
  method WrapThenRead(crc: seq<byte> -> uint32, packets: seq<Packet>, rate: int, channels: int, frameSize: int)
    returns (prepared: Prepared, received: seq<Packet>, last: Error)
    requires 1 <= channels <= 255 && rate in SUPPORTED_RATES
    requires forall i :: 0 <= i < |packets| ==> |packets[i]| <= 65024
    ensures prepared == Ready(Info(rate, channels)) && received == NonEmpty(packets) && last == Eof
  {
    var bytes := WrapOggOpusPackets(crc, packets, rate, channels, frameSize);
    prepared, received, last := ReadAll(bytes);
    WriterReaderRoundTrip(crc, packets, rate, channels, frameSize);
  }
}

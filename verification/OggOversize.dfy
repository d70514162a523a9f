/**
 Packets too long for one Ogg page: what the writer of internal/util/ogg_opus.go makes of
 them and why the reader of internal/util/audio_utils.go does not give them back.
 */
module OggOversize {
  import opened Basics
  import opened OggOpus
  import opened OggRoundTrip

  // ---------- One page ----------

  ghost predicate AllFull(segments: seq<byte>) {
    forall k :: 0 <= k < |segments| ==> segments[k] == 255
  }

  lemma {:induction false} FullSum(segments: seq<byte>)
    requires AllFull(segments)
    ensures Sum(segments) == 255 * |segments|
  {
    if segments != [] { FullSum(segments[1..]); }
  }

  /** Full lacing values end no packet. */
  lemma {:induction false} FullLaced(segments: seq<byte>, body: seq<byte>, carry: Packet)
    requires AllFull(segments) && |body| == Sum(segments)
    ensures Laced(segments, body, carry) == ([], carry + body)
    decreases |segments|
  {
    if segments == [] {
      assert carry + body == carry;
    } else {
      FullLaced(segments[1..], body[255..], carry + body[..255]);
      assert carry + body[..255] + body[255..] == carry + body;
    }
  }

  /** How many lacing values the reader sees, and that there are bytes for them. */
  lemma SeenSegments(n: nat)
    requires n > 65024
    ensures var all, seen := Lacing(n), Lacing(n)[..|Lacing(n)| % 256];
            && |seen| < |all| && AllFull(seen) && 255 * |seen| <= |all| - |seen| + n
  {
    LacingEnds(n);
  }

  lemma ReadHeader(h: seq<byte>, after: seq<byte>, m: nat)
    requires |h| == 27 && h[..4] == OGGS && h[4] == 0 && h[26] == m <= |after|
    requires Sum(after[..m]) <= |after| - m
    ensures var read := ParsePage(h + after);
            read.PageOk? && read.page.segments == after[..m] && read.page.headerType == h[5]
  {
    var input := h + after;
    assert input[..4] == h[..4] && input[27..] == after && input[26] == m;
  }

  /** What the reader sees of the page of an oversized packet: full lacing values and as many
      of the bytes behind them, the other lacing values first. */
  lemma OversizedPage(f: Framed, packet: Packet, rest: seq<byte>)
    requires f.page == PacketPage(f.page.headerType, packet) && |packet| > 65024
    ensures var all, read := Lacing(|packet|), ParsePage(PageBytes(f) + rest);
            var m := |all| % 256;
            var bytes := all[m..] + packet;
            && read.PageOk? && read.page.headerType == f.page.headerType && 255 * m + 27 <= |bytes|
            && AllFull(read.page.segments) && read.page.body == bytes[..255 * m] && read.rest == bytes[255 * m..] + rest
  {
    var all, h := Lacing(|packet|), Header(f.page, f.stamp);
    var m := |all| % 256;
    var after := all + (packet + rest);
    SeenSegments(|packet|);
    FullSum(all[..m]);
    assert after[..m] == all[..m];
    ReadHeader(h, after, m);
    assert PageBytes(f) + rest == h + after by { Regroup(h, all, packet, rest); }
    SeenBytes(h, all, m, packet, rest);
  }

  lemma SeenBytes(h: seq<byte>, all: seq<byte>, m: nat, packet: Packet, rest: seq<byte>)
    requires |h| == 27 && h[..4] == OGGS && h[4] == 0 && h[26] == m <= |all| && Sum(all[..m]) <= |all| - m + |packet|
    ensures var bytes, read := all[m..] + packet, ParsePage(h + (all + (packet + rest)));
            && read.PageOk? && read.page.segments == all[..m]
            && read.page.body == bytes[..Sum(all[..m])] && read.rest == bytes[Sum(all[..m])..] + rest
  {
    var after, input, bytes := all + (packet + rest), h + (all + (packet + rest)), all[m..] + packet;
    assert input[..4] == h[..4] && input[27..] == after && input[26] == m;
    assert after[..m] == all[..m] && after[m..] == bytes + rest;
    assert (bytes + rest)[..Sum(all[..m])] == bytes[..Sum(all[..m])];
    assert (bytes + rest)[Sum(all[..m])..] == bytes[Sum(all[..m])..] + rest;
  }

  /** The reader takes the page of a packet of more than 65024 bytes for one that ends no
      packet, whatever came before and whatever follows. */
  lemma OversizedPageEndsNothing(f: Framed, packet: Packet, rest: seq<byte>, carry: Packet)
    requires f.page == PacketPage(f.page.headerType, packet) && |packet| > 65024
    ensures var read := ParsePage(PageBytes(f) + rest);
            read.PageOk? && Laced(read.page.segments, read.page.body, carry).0 == []
  {
    OversizedPage(f, packet, rest);
    var read := ParsePage(PageBytes(f) + rest);
    FullLaced(read.page.segments, read.page.body, carry);
  }

  lemma Regroup(h: seq<byte>, segments: seq<byte>, packet: Packet, rest: seq<byte>)
    ensures h + segments + packet + rest == h + (segments + (packet + rest))
  {
  }

  /** A page gives its packet back if and only if the packet has at most 65024 bytes. */
  lemma PageReadsBackIff(f: Framed, packet: Packet, rest: seq<byte>)
    requires f.page == PacketPage(f.page.headerType, packet)
    ensures var read := ParsePage(PageBytes(f) + rest);
            read.PageOk? && (Laced(read.page.segments, read.page.body, []).0 == [packet] <==> |packet| <= 65024)
  {
    if |packet| <= 65024 {
      ParseFramed(f, rest);
      LacedOnePacket(packet, []);
      assert [] + packet == packet;
    } else {
      OversizedPageEndsNothing(f, packet, rest, []);
    }
  }

  // ---------- What delivered packets cost ----------

  /** The lacing values a packet takes. */
  function Values(p: Packet): nat {
    |p| / 255 + 1
  }

  function AllValues(ps: seq<Packet>): nat {
    if ps == [] then 0 else Values(ps[0]) + AllValues(ps[1..])
  }

  function AllLengths(ps: seq<Packet>): nat {
    if ps == [] then 0 else |ps[0]| + AllLengths(ps[1..])
  }

  lemma {:induction false} CostAppend(a: seq<Packet>, b: seq<Packet>)
    ensures AllValues(a + b) == AllValues(a) + AllValues(b)
    ensures AllLengths(a + b) == AllLengths(a) + AllLengths(b)
  {
    if a == [] {
      assert a + b == b;
    } else {
      CostAppend(a[1..], b);
      assert (a + b)[1..] == a[1..] + b;
    }
  }

  lemma {:induction false} CostNonEmpty(ps: seq<Packet>)
    ensures AllValues(NonEmpty(ps)) <= AllValues(ps) && AllLengths(NonEmpty(ps)) == AllLengths(ps)
    decreases |ps|
  {
    if ps != [] {
      CostNonEmpty(ps[1..]);
      var first := if |ps[0]| > 0 then [ps[0]] else [];
      NonEmptyAppend([ps[0]], ps[1..]);
      assert ps == [ps[0]] + ps[1..];
      CostAppend(NonEmpty([ps[0]]), NonEmpty(ps[1..]));
      CostOne(ps[0]);
    }
  }

  lemma CostOne(p: Packet)
    ensures AllValues([p]) == Values(p) && AllLengths([p]) == |p|
    ensures AllValues(NonEmpty([p])) <= Values(p) && AllLengths(NonEmpty([p])) == |p|
  {
    assert [p][1..] == [];
  }

  /** An unfinished packet consists of full stretches. */
  ghost predicate Full(carry: Packet) {
    |carry| % 255 == 0
  }

  /** Lacing values are spent on the packets they end and on the unfinished one. */
  lemma {:induction false} LacedCost(segments: seq<byte>, body: seq<byte>, carry: Packet)
    requires |body| == Sum(segments) && Full(carry)
    ensures var (ps, c) := Laced(segments, body, carry);
            && Full(c)
            && AllValues(ps) + |c| / 255 == |carry| / 255 + |segments|
            && AllLengths(ps) + |c| == |carry| + |body|
    decreases |segments|
  {
    if segments != [] {
      var x, tail := segments[0], body[segments[0]..];
      var grown := carry + body[..x];
      if x == 255 {
        LacedCost(segments[1..], tail, grown);
      } else {
        LacedCost(segments[1..], tail, []);
        GrownValues(carry, grown, x);
        var ps := Laced(segments[1..], tail, []).0;
        assert ([grown] + ps)[1..] == ps;
      }
    }
  }

  lemma GrownValues(carry: Packet, grown: Packet, x: nat)
    requires Full(carry) && |grown| == |carry| + x && x < 255
    ensures Values(grown) == |carry| / 255 + 1
  {
  }

  /** The pages that so many lacing values need. */
  function Pages(values: int): nat {
    if values <= 0 then 0 else (values + 254) / 255
  }

  lemma OnePageMore(values: int, spent: int, rest: int)
    requires spent <= 255 && values <= spent + rest
    ensures Pages(values) <= 1 + Pages(rest)
  {
  }

  lemma ParseLengths(input: seq<byte>)
    requires ParsePage(input).PageOk?
    ensures var read := ParsePage(input);
            |input| == 27 + |read.page.segments| + |read.page.body| + |read.rest|
  {
  }

  lemma DrainError(r: Reader)
    requires r.stage.queue == [] && PageStep(r).1.Some?
    ensures Drain(r).0 == []
  {
  }

  /** What is queued comes first. */
  lemma {:induction false} DrainQueue(r: Reader)
    ensures Drain(r).0 == r.stage.queue + Drain(r.(stage := r.stage.(queue := []))).0
    decreases |r.stage.queue|
  {
    var q := r.stage.queue;
    if q == [] {
      assert r.(stage := r.stage.(queue := [])) == r;
      assert [] + Drain(r).0 == Drain(r).0;
    } else {
      var r' := r.(stage := r.stage.(queue := q[1..]));
      DrainPop(r);
      DrainQueue(r');
      assert r'.(stage := r'.stage.(queue := [])) == r.(stage := r.stage.(queue := []));
      assert q == [q[0]] + q[1..];
      ConcatAssoc([q[0]], q[1..], Drain(r.(stage := r.stage.(queue := []))).0);
    }
  }

  /** One page after the headers, in terms of lacing. */
  lemma DataStep(r: Reader)
    requires r.stage.headSeen && r.stage.tagsSeen && r.stage.queue == [] && PageStep(r).1.None?
    ensures ParsePage(r.input).PageOk?
    ensures var page, r' := ParsePage(r.input).page, PageStep(r).0;
            var (ps, c) := Laced(page.segments, page.body, r.carry);
            r' == Reader(ParsePage(r.input).rest, c, r.stage.(queue := NonEmpty(ps)))
  {
    var page := ParsePage(r.input).page;
    var (ps, c) := Laced(page.segments, page.body, r.carry);
    ConsumeIsFeed(r.stage, r.carry, page.segments, page.body);
    FeedData(r.stage, ps);
    assert [] + NonEmpty(ps) == NonEmpty(ps);
  }

  /** The input pays for the bytes of the delivered packets, their lacing values and the page
      headers those need, as far as the unfinished packet has not paid. */
  ghost predicate Paid(input: nat, carry: nat, lengths: nat, values: nat) {
    input + carry >= lengths + (values - carry / 255) + 27 * Pages(values - carry / 255)
  }

  lemma PaidStep(input: nat, carry: nat, input': nat, carry': nat, lengths: nat, values: nat, lengths': nat, values': nat)
    requires Paid(input', carry', lengths', values')
    requires values + carry' / 255 - carry / 255 <= 255
    requires input + carry >= input' + carry' + lengths + 27 + values + carry' / 255 - carry / 255
    ensures Paid(input, carry, lengths + lengths', values + values')
  {
    OnePageMore(values + values' - carry / 255, values + carry' / 255 - carry / 255, values' - carry' / 255);
  }

  lemma {:induction false} DrainCost(r: Reader)
    requires r.stage.headSeen && r.stage.tagsSeen && r.stage.queue == [] && Full(r.carry)
    ensures Paid(|r.input|, |r.carry|, AllLengths(Drain(r).0), AllValues(Drain(r).0))
    decreases |r.input|
  {
    var ended, bare, before := DrainOnePage(r);
    if !ended {
      DrainCost(bare);
      CostStep(r, bare, before, Drain(bare).0);
    }
  }

  lemma CostStep(r: Reader, bare: Reader, before: seq<Packet>, later: seq<Packet>)
    requires OnePage(r, bare, before) && Paid(|bare.input|, |bare.carry|, AllLengths(later), AllValues(later))
    ensures Paid(|r.input|, |r.carry|, AllLengths(before + later), AllValues(before + later))
  {
    CostAppend(before, later);
    PaidStep(|r.input|, |r.carry|, |bare.input|, |bare.carry|,
             AllLengths(before), AllValues(before), AllLengths(later), AllValues(later));
  }

  /** One page: what it delivers, the reader after it, and what it costs. */
  lemma DrainOnePage(r: Reader) returns (ended: bool, bare: Reader, before: seq<Packet>)
    requires r.stage.headSeen && r.stage.tagsSeen && r.stage.queue == [] && Full(r.carry)
    ensures ended ==> Drain(r).0 == []
    ensures !ended ==> OnePage(r, bare, before) && Drain(r).0 == before + Drain(bare).0
  {
    ended, bare, before := PageStep(r).1.Some?, r, [];
    if ended { DrainError(r); } else { bare, before := DrainDataPage(r); }
  }

  ghost predicate OnePage(r: Reader, bare: Reader, before: seq<Packet>) {
    && bare.stage.headSeen && bare.stage.tagsSeen && bare.stage.queue == [] && Full(bare.carry)
    && |bare.input| < |r.input|
    && AllValues(before) + |bare.carry| / 255 - |r.carry| / 255 <= 255
    && |r.input| + |r.carry| >= |bare.input| + |bare.carry| + AllLengths(before) + 27
                                + AllValues(before) + |bare.carry| / 255 - |r.carry| / 255
  }

  lemma DrainDataPage(r: Reader) returns (bare: Reader, before: seq<Packet>)
    requires r.stage.headSeen && r.stage.tagsSeen && r.stage.queue == [] && Full(r.carry) && PageStep(r).1.None?
    ensures OnePage(r, bare, before) && Drain(r).0 == before + Drain(bare).0
  {
    var page, r' := ParsePage(r.input).page, PageStep(r).0;
    var (ps, c) := Laced(page.segments, page.body, r.carry);
    DataStep(r);
    ParseLengths(r.input);
    LacedCost(page.segments, page.body, r.carry);
    CostNonEmpty(ps);
    DrainOverPage(r);
    before, bare := NonEmpty(ps), r'.(stage := r'.stage.(queue := []));
    DrainQueue(r');
  }

  // ---------- Streams of any packets ----------

  /** The reader after the two header pages. */
  lemma OverHeaders(crc: seq<byte> -> uint32, rate: int, channels: int, data: seq<byte>)
    requires 1 <= channels <= 255
    ensures Finish(NewReader(StreamBytes(HeaderFrames(crc, rate, channels)) + data))
         == Finish(Reader(data, [], Stage([], Info(StoredRate(rate), channels), true, true)))
  {
    var fs := HeaderFrames(crc, rate, channels);
    HandleHeaders(rate, channels);
    assert fs[1..] == [fs[1]] && [fs[1]][1..] == [];
    assert StreamBytes(fs) + data == PageBytes(fs[0]) + (PageBytes(fs[1]) + data) by {
      assert StreamBytes([fs[1]]) == PageBytes(fs[1]) + [] == PageBytes(fs[1]);
      ConcatAssoc(PageBytes(fs[0]), PageBytes(fs[1]), data);
    }
    OverHeader(NewReader(StreamBytes(fs) + data), fs[0], HeadPacket(rate, channels), PageBytes(fs[1]) + data);
    var r1 := Reader(PageBytes(fs[1]) + data, [], Stage([], Info(StoredRate(rate), channels), true, false));
    assert |TagsPacket()| <= 65024;
    OverHeader(r1, fs[1], TagsPacket(), data);
  }

  lemma OverHeader(r: Reader, f: Framed, packet: Packet, rest: seq<byte>)
    requires f.page == PacketPage(f.page.headerType, packet) && f.page.headerType % 2 == 0 && |packet| <= 65024
    requires r.input == PageBytes(f) + rest && r.carry == [] && Handle(r.stage, packet).1.None?
    requires !r.stage.headSeen || !r.stage.tagsSeen
    ensures Finish(r) == Finish(Reader(rest, [], Handle(r.stage, packet).0))
  {
    LacedOnePacket(packet, []);
    assert [] + packet == packet;
    StepOverPage(r, f, rest);
    assert [packet][1..] == [];
    FinishOverPage(r);
  }

  /** Lacing values before a packet that begins with both: of two bytes in a row one is full. */
  lemma {:induction false} OneIsFull(values: seq<byte>, packet: Packet, n: nat, k: nat)
    requires |values| >= 256 && n + 3 <= |values| + |packet| && k <= n && (values + packet)[..n] <= packet
    requires forall j :: 0 <= j < |values| - 1 ==> values[j] == 255
    ensures (values + packet)[k] == 255 || (values + packet)[k + 1] == 255
    decreases k
  {
    var bytes, d := values + packet, |values|;
    if k >= d - 1 {
      assert packet[k + 1 - d] == bytes[..n][k + 1 - d] == bytes[k + 1 - d];
      if k >= d {
        assert packet[k - d] == bytes[..n][k - d] == bytes[k - d];
        OneIsFull(values, packet, n, k - d);
      }
    }
  }

  /** No page begins where the reader looks for the next one. */
  lemma NoPageNext(values: seq<byte>, packet: Packet, n: nat, rest: seq<byte>)
    requires |values| >= 256 && n + 27 <= |values| + |packet| && (values + packet)[..n] <= packet
    requires forall j :: 0 <= j < |values| - 1 ==> values[j] == 255
    ensures ParsePage((values + packet)[n..] + rest).PageError?
  {
    var input := (values + packet)[n..] + rest;
    OneIsFull(values, packet, n, n);
    assert input[..4][0] == (values + packet)[n] && input[..4][1] == (values + packet)[n + 1];
  }

  /** The first packet delivered goes on from the unfinished one. */
  lemma {:induction false} FirstGoesOn(r: Reader)
    requires r.stage.headSeen && r.stage.tagsSeen && r.stage.queue == []
    ensures Drain(r).0 != [] ==> r.carry <= Drain(r).0[0]
    decreases |r.input|
  {
    if PageStep(r).1.Some? {
      DrainError(r);
    } else {
      var page, r' := ParsePage(r.input).page, PageStep(r).0;
      var (ps, c) := Laced(page.segments, page.body, r.carry);
      DataStep(r);
      DrainOverPage(r);
      LacedGoesOn(page.segments, page.body, r.carry);
      if ps == [] {
        FirstGoesOn(r');
      } else if r.carry != [] {
        FirstQueued(r', ps);
      }
    }
  }

  lemma FirstQueued(r: Reader, ps: seq<Packet>)
    requires ps != [] && ps[0] != [] && r.stage.queue == NonEmpty(ps)
    ensures Drain(r).0 != [] && Drain(r).0[0] == ps[0]
  {
    DrainPop(r);
  }

  lemma {:induction false} LacedGoesOn(segments: seq<byte>, body: seq<byte>, carry: Packet)
    requires |body| == Sum(segments)
    ensures var (ps, c) := Laced(segments, body, carry);
            if ps == [] then carry <= c else carry <= ps[0]
    decreases |segments|
  {
    if segments != [] && segments[0] == 255 {
      LacedGoesOn(segments[1..], body[255..], carry + body[..255]);
    }
  }

  /** An oversized packet is not the next one delivered, whatever it holds and whatever follows. */
  lemma OversizedIsNotNext(r: Reader, f: Framed, packet: Packet, rest: seq<byte>)
    requires f.page == PacketPage(f.page.headerType, packet) && |packet| > 65024 && f.page.headerType % 2 == 0
    requires r.stage.headSeen && r.stage.tagsSeen && r.stage.queue == [] && r.carry == [] && r.input == PageBytes(f) + rest
    ensures Drain(r).0 != [] ==> Drain(r).0[0] != packet
  {
    var all := Lacing(|packet|);
    var m := |all| % 256;
    OversizedPage(f, packet, rest);
    OversizedStep(r, PageStep(r).0, ParsePage(r.input).page);
    OtherValues(|packet|);
    AfterOversized(PageStep(r).0, all[m..], packet, 255 * m, rest);
  }

  /** The lacing values that the reader takes for packet bytes. */
  lemma OtherValues(n: nat)
    requires n > 65024
    ensures var others := Lacing(n)[|Lacing(n)| % 256..];
            |others| >= 256 && forall j :: 0 <= j < |others| - 1 ==> others[j] == 255
  {
    LacingEnds(n);
    ManyValues(n / 255 + 1);
    FullFrom(Lacing(n), |Lacing(n)| % 256);
  }

  lemma ManyValues(count: nat)
    requires count >= 256
    ensures count - count % 256 >= 256
  {
  }

  lemma FullFrom(all: seq<byte>, m: nat)
    requires m <= |all| && forall j :: 0 <= j < |all| - 1 ==> all[j] == 255
    ensures forall j :: 0 <= j < |all[m..]| - 1 ==> all[m..][j] == 255
  {
  }

  lemma AfterOversized(r: Reader, values: seq<byte>, packet: Packet, n: nat, rest: seq<byte>)
    requires |values| >= 256 && n + 27 <= |values| + |packet| && forall j :: 0 <= j < |values| - 1 ==> values[j] == 255
    requires r.stage.headSeen && r.stage.tagsSeen && r.stage.queue == []
    requires r.carry == (values + packet)[..n] && r.input == (values + packet)[n..] + rest
    ensures Drain(r).0 != [] ==> Drain(r).0[0] != packet
  {
    FirstGoesOn(r);
    if r.carry <= packet {
      NoPageNext(values, packet, n, rest);
      DrainError(r);
    }
  }

  lemma OversizedStep(r: Reader, r': Reader, page: Page)
    requires ParsePage(r.input).PageOk? && page == ParsePage(r.input).page && page.headerType % 2 == 0 && AllFull(page.segments)
    requires r.stage.headSeen && r.stage.tagsSeen && r.stage.queue == [] && r.carry == [] && r' == PageStep(r).0
    ensures r' == Reader(ParsePage(r.input).rest, page.body, r.stage) && Drain(r) == Drain(r')
  {
    ConsumeIsFeed(r.stage, r.carry, page.segments, page.body);
    FullLaced(page.segments, page.body, []);
    assert [] + page.body == page.body;
    FeedData(r.stage, []);
    assert r.stage.(queue := []) == r.stage;
    DrainOverPage(r);
  }

  // ---------- Whole streams ----------

  /** Page i holds packet i, of whatever length. */
  ghost predicate Holds(fs: seq<Framed>, ps: seq<Packet>) {
    && |fs| == |ps|
    && forall i :: 0 <= i < |fs| ==> fs[i].page == PacketPage(fs[i].page.headerType, ps[i]) && fs[i].page.headerType % 2 == 0
  }

  ghost predicate AllFit(ps: seq<Packet>) {
    forall i :: 0 <= i < |ps| ==> |ps[i]| <= 65024
  }

  lemma AllFitCons(ps: seq<Packet>)
    requires ps != []
    ensures AllFit(ps) <==> |ps[0]| <= 65024 && AllFit(ps[1..])
  {
    assert forall i :: 1 <= i < |ps| ==> ps[i] == ps[1..][i - 1];
  }

  /** After the headers the reader delivers the packets if and only if all of them fit. */
  lemma {:induction false} DrainListIff(r: Reader, fs: seq<Framed>, ps: seq<Packet>)
    requires r.stage.headSeen && r.stage.tagsSeen && r.stage.queue == [] && r.carry == []
    requires Holds(fs, ps) && r.input == StreamBytes(fs)
    ensures Drain(r).0 == NonEmpty(ps) <==> AllFit(ps)
    decreases |ps|
  {
    if ps == [] {
      DrainStop(r);
    } else {
      AllFitCons(ps);
      if |ps[0]| <= 65024 {
        var bare := DrainFitting(r, fs[0], ps[0], StreamBytes(fs[1..]));
        DrainListIff(bare, fs[1..], ps[1..]);
        SameFront(NonEmpty([ps[0]]), Drain(bare).0, NonEmpty(ps[1..]));
        SplitNonEmpty(ps);
      } else {
        OversizedIsNotNext(r, fs[0], ps[0], StreamBytes(fs[1..]));
        SplitNonEmpty(ps);
      }
    }
  }

  lemma SameFront<T>(a: seq<T>, b: seq<T>, c: seq<T>)
    ensures a + b == a + c <==> b == c
  {
    assert (a + b)[|a|..] == b && (a + c)[|a|..] == c;
  }

  lemma SplitNonEmpty(ps: seq<Packet>)
    requires ps != []
    ensures NonEmpty(ps) == NonEmpty([ps[0]]) + NonEmpty(ps[1..])
  {
    NonEmptyAppend([ps[0]], ps[1..]);
    assert ps == [ps[0]] + ps[1..];
  }

  /** The page of a packet that fits delivers it. */
  lemma DrainFitting(r: Reader, f: Framed, packet: Packet, rest: seq<byte>) returns (bare: Reader)
    requires f.page == PacketPage(f.page.headerType, packet) && f.page.headerType % 2 == 0 && |packet| <= 65024
    requires r.stage.headSeen && r.stage.tagsSeen && r.stage.queue == [] && r.carry == [] && r.input == PageBytes(f) + rest
    ensures bare == Reader(rest, [], r.stage) && Drain(r).0 == NonEmpty([packet]) + Drain(bare).0
  {
    LacedOnePacket(packet, []);
    assert [] + packet == packet;
    StepOverPage(r, f, rest);
    FeedData(r.stage, [packet]);
    assert [] + NonEmpty([packet]) == NonEmpty([packet]);
    DrainOverPage(r);
    DrainQueue(PageStep(r).0);
    bare := Reader(rest, [], r.stage.(queue := []));
  }

  lemma {:induction false} DataFramesHold(crc: seq<byte> -> uint32, packets: seq<Packet>, frameSize: int, n: nat)
    requires n <= |packets|
    ensures Holds(DataFrames(crc, packets, frameSize, n), packets[..n])
  {
    if n > 0 {
      DataFramesHold(crc, packets, frameSize, n - 1);
      DataFrameHolds(crc, packets, frameSize, n - 1);
      HoldsSnoc(DataFrames(crc, packets, frameSize, n - 1), packets, n - 1, DataFrame(crc, packets, frameSize, n - 1));
    }
  }

  lemma DataFrameHolds(crc: seq<byte> -> uint32, packets: seq<Packet>, frameSize: int, i: nat)
    requires i < |packets|
    ensures var page := DataFrame(crc, packets, frameSize, i).page;
            page == PacketPage(page.headerType, packets[i]) && page.headerType % 2 == 0
  {
  }

  lemma HoldsSnoc(fs: seq<Framed>, packets: seq<Packet>, n: nat, f: Framed)
    requires n < |packets| && Holds(fs, packets[..n]) && f.page == PacketPage(f.page.headerType, packets[n]) && f.page.headerType % 2 == 0
    ensures Holds(fs + [f], packets[..n + 1])
  {
  }

  lemma {:induction false} StreamBytesAppend(fs: seq<Framed>, gs: seq<Framed>)
    ensures StreamBytes(fs + gs) == StreamBytes(fs) + StreamBytes(gs)
  {
    if fs == [] {
      assert fs + gs == gs && StreamBytes(fs) + StreamBytes(gs) == StreamBytes(gs);
    } else {
      assert (fs + gs)[1..] == fs[1..] + gs;
      StreamBytesAppend(fs[1..], gs);
      ConcatAssoc(PageBytes(fs[0]), StreamBytes(fs[1..]), StreamBytes(gs));
    }
  }

  /** Writing packets and reading them back gives exactly the non-empty ones, in order, if and
      only if each has at most 65024 bytes, whatever they hold. */
  lemma PacketsReadBackIff(crc: seq<byte> -> uint32, packets: seq<Packet>, rate: int, channels: int, frameSize: int)
    requires 1 <= channels <= 255
    ensures var stream := StreamBytes(HeaderFrames(crc, rate, channels) + DataFrames(crc, packets, frameSize, |packets|));
            Finish(NewReader(stream)).packets == NonEmpty(packets) <==> AllFit(packets)
  {
    var hs, fs := HeaderFrames(crc, rate, channels), DataFrames(crc, packets, frameSize, |packets|);
    StreamBytesAppend(hs, fs);
    OverHeaders(crc, rate, channels, StreamBytes(fs));
    DataFramesHold(crc, packets, frameSize, |packets|);
    assert packets[..|packets|] == packets;
    var stage := Stage([], Info(StoredRate(rate), channels), true, true);
    DrainListIff(Reader(StreamBytes(fs), [], stage.(info := Fallback(stage.info))), fs, packets);
  }
}

/**
 What the reader of internal/util/audio_utils.go refuses and what it makes of header
 packets, case by case.
 */
module OggReading {
  import opened Basics
  import opened OggOpus
  import opened OggRoundTrip
  import opened OggFields

  /** The sampling rates of section 2 of RFC 6716. */
  lemma RatesOfOpus()
    ensures forall r :: r in SUPPORTED_RATES <==> r in {8000, 12000, 16000, 24000, 48000}
  {
    assert SUPPORTED_RATES[0] == 8000 && SUPPORTED_RATES[1] == 12000 && SUPPORTED_RATES[2] == 16000
        && SUPPORTED_RATES[3] == 24000 && SUPPORTED_RATES[4] == 48000;
  }

  /** A rate that is not positive counts as 16000. */
  lemma NoRate(rate: int)
    requires rate <= 0
    ensures NormalizeRate(rate) == 16000
  {
  }

  /** A head packet is accepted if and only if it has 19 bytes and begins with the magic text; no channels count
      as one, no rate as 48000. */
  lemma HeadAccepted(packet: Packet)
    ensures var (info, err) := ParseHead(packet);
            && (err.None? <==> |packet| >= 19 && packet[..8] == Ascii("OpusHead"))
            && (|packet| < 19 ==> err == Some(HeadTooShort))
            && (|packet| >= 19 && packet[..8] != Ascii("OpusHead") ==> err == Some(NotOpusHead))
            && (err.None? ==>
                  && info.channels == (if packet[9] == 0 then 1 else packet[9])
                  && info.sampleRate == NormalizeRate(if ReadLittle(packet[12..16]) == 0 then 48000 else ReadLittle(packet[12..16])))
  {
    ConstantTexts();
    if |packet| >= 19 { FourBytes(packet[12..16]); }
  }

  lemma FourBytes(bs: seq<byte>)
    requires |bs| == 4
    ensures ReadLittle(bs) == ReadUint32(bs)
  {
    assert ReadLittle(bs[3..]) == bs[3];
    assert ReadLittle(bs[2..]) == bs[2] + 256 * ReadLittle(bs[3..]) by { assert bs[2..][1..] == bs[3..]; }
    assert ReadLittle(bs[1..]) == bs[1] + 256 * ReadLittle(bs[2..]) by { assert bs[1..][1..] == bs[2..]; }
  }

  /** The defaults of Prepare are never needed: a head packet gives a rate and channels. */
  lemma FallbackUnused(packet: Packet)
    ensures ParseHead(packet).1.None? ==> Fallback(ParseHead(packet).0) == ParseHead(packet).0
    ensures Fallback(Info(0, 0)) == Info(48000, 1)
  {
    if ParseHead(packet).1.None? {
      HeadAccepted(packet);
      var field := ReadLittle(packet[12..16]);
      NormalizeRateIsNearest(if field == 0 then 48000 else field);
      RatesOfOpus();
    }
  }

  /** Packets in order: a head, a packet that begins with the comment text, and then data. */
  lemma HandleOutcome(s: Stage, packet: Packet)
    ensures var (s', err) := Handle(s, packet);
            if !s.headSeen then
              && (err == ParseHead(packet).1)
              && s' == (if err.None? then s.(headSeen := true, info := ParseHead(packet).0) else s)
            else if !s.tagsSeen then
              var begins := |packet| >= 8 && packet[..8] == Ascii("OpusTags");
              err == (if begins then None else Some(NotOpusTags)) && s' == (if begins then s.(tagsSeen := true) else s)
            else
              err == None && s' == s.(queue := if packet == [] then s.queue else s.queue + [packet])
  {
    ConstantTexts();
  }

  /** What each input is refused for, if it is refused. */
  lemma RefusedFor(input: seq<byte>)
    ensures var read := ParsePage(input);
            && (input == [] ==> read == PageError(Eof, []))
            && (0 < |input| < 27 ==> read == PageError(UnexpectedEof, []))
            && (|input| >= 27 && input[..4] != Ascii("OggS") ==> read == PageError(BadMagic, input[27..]))
            && (|input| >= 27 && input[..4] == Ascii("OggS") && input[4] != 0 ==> read == PageError(BadVersion, input[27..]))
            && (|input| >= 27 && input[..4] == Ascii("OggS") && input[4] == 0 && read.PageError? ==> read.error == UnexpectedEof)
  {
    ConstantTexts();
  }

  /** A page that claims to continue a packet when none is open is refused, whatever it holds; one that does
      not is taken even while a packet is open. */
  lemma OrphanRefused(r: Reader, f: Framed, rest: seq<byte>)
    requires WellFormed(f.page) && r.input == PageBytes(f) + rest
    ensures f.page.headerType % 2 == 1 && r.carry == [] ==> PageStep(r) == (r.(input := rest), Some(OrphanContinuation))
    ensures f.page.headerType % 2 == 0 || r.carry != [] ==> PageStep(r).1 != Some(OrphanContinuation)
  {
    ParseFramed(f, rest);
    ConsumeIsFeed(r.stage, r.carry, f.page.segments, f.page.body);
    NoOrphans(r.stage, Laced(f.page.segments, f.page.body, r.carry).0);
  }

  lemma {:induction false} NoOrphans(s: Stage, ps: seq<Packet>)
    ensures Feed(s, ps).1 != Some(OrphanContinuation)
    decreases |ps|
  {
    if ps != [] { NoOrphans(Handle(s, ps[0]).0, ps[1..]); }
  }
}

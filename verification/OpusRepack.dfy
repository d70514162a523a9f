/**
 Opus packet durations: the opusPacket* functions of internal/util/audio_utils.go.
 Bit tests on the TOC byte are written with / and %.
 */
module OpusDurations {
  import opened Basics

  type Packet = seq<byte>

  datatype Result<+T> = Ok(value: T) | Err

  // ---------- Durations ----------

  /** opusPacketSamplesPerFrame */
  function SamplesPerFrame(toc: byte, rate: nat): nat {
    if toc >= 128 then rate * Pow2(toc / 8 % 4) / 400
    else if toc / 32 % 4 == 3 then if toc / 8 % 2 == 1 then rate / 50 else rate / 100
    else if toc / 8 % 4 == 3 then rate * 60 / 1000
    else rate * Pow2(toc / 8 % 4) / 100
  }

  function Pow2(n: int): nat {
    if n <= 0 then 1 else if n == 1 then 2 else if n == 2 then 4 else 8
  }

  /** opusPacketFrameCount */
  function FrameCount(packet: Packet): Result<nat> {
    if packet == [] then Err
    else
      match packet[0] % 4
      case 0 => Ok(1)
      case 1 => Ok(2)
      case 2 => Ok(2)
      case _ => if |packet| < 2 then Err else Ok(packet[1] % 64)
  }

  function ToMs(samples: nat, rate: nat): nat
    requires rate > 0
  {
    samples * 1000 / rate
  }

  /** opusPacketDurationMs: whole milliseconds, rounded down. */
  function DurationMs(packet: Packet, sampleRate: int): Result<nat> {
    if packet == [] then Err
    else
      var rate: nat := if sampleRate <= 0 then 48000 else sampleRate;
      match FrameCount(packet)
      case Err => Err
      case Ok(n) => Ok(ToMs(Times(SamplesPerFrame(packet[0], rate), n), rate))
  }

  function Times(a: nat, b: nat): nat {
    a * b
  }

  /** Frame length in units of 2.5 ms, by configuration number: table 2 of
      section 3.1 of RFC 6716. */
  function FrameTicks(toc: byte): nat {
    var config := toc / 8;
    if config < 12 then [4, 8, 16, 24][config % 4]
    else if config < 16 then [4, 8][config % 2]
    else [1, 2, 4, 8][config % 4]
  }

  predicate SupportedRate(rate: int) {
    rate == 8000 || rate == 12000 || rate == 16000 || rate == 24000 || rate == 48000
  }

  /** At every Opus sample rate a frame has exactly the samples of its table entry. */
  lemma SamplesMatchTable(toc: byte, rate: nat)
    requires SupportedRate(rate)
    ensures SamplesPerFrame(toc, rate) * 400 == FrameTicks(toc) * rate
  {
    var c := toc / 8;
    assert toc >= 128 <==> c >= 16;
    assert toc / 32 % 4 == 3 && toc < 128 <==> 12 <= c < 16;
    SmallPowers(c % 4);
  }

  lemma SmallPowers(k: int)
    requires 0 <= k < 4
    ensures Pow2(k) == [1, 2, 4, 8][k]
  {
  }

  // ---------- Packets built from frames ----------

  /** How frames are packed, by the four codes of section 3.2 of RFC 6716.  `padding` counts the
      bytes after the frames, if the padding flag is set. */
  datatype Packing =
    | One(frame: seq<byte>)
    | Equal(first: seq<byte>, second: seq<byte>)
    | Two(first: seq<byte>, second: seq<byte>)
    | Many(frames: seq<seq<byte>>, variable: bool, padding: Option<nat>)

  function Packed(p: Packing): seq<seq<byte>> {
    match p
    case One(f) => [f]
    case Equal(a, b) => [a, b]
    case Two(a, b) => [a, b]
    case Many(fs, _, _) => fs
  }

  ghost predicate ValidPacking(p: Packing) {
    && (forall f :: f in Packed(p) ==> |f| <= 1275)
    && (p.Equal? ==> |p.first| == |p.second|)
    && (p.Many? ==> 1 <= |p.frames| <= 48)
  }

  function Code(p: Packing): byte {
    match p case One(_) => 0 case Equal(_, _) => 1 case Two(_, _) => 2 case Many(_, _, _) => 3
  }

  /** The table of contents byte: configuration, stereo flag and code. */
  function Toc(config: nat, stereo: bool, code: byte): byte
    requires config < 32 && code < 4
  {
    8 * config + (if stereo then 4 else 0) + code
  }

  /** The length of a frame, in one byte or two. */
  function LengthBytes(n: nat): seq<byte>
    requires n <= 1275
  {
    if n < 252 then [n] else [252 + n % 4, (n - 252 - n % 4) / 4]
  }

  function PaddingBytes(n: nat): seq<byte> {
    if n < 255 then [n] else [255] + PaddingBytes(n - 254)
  }

  function AllBytes(fs: seq<seq<byte>>): seq<byte> {
    if fs == [] then [] else fs[0] + AllBytes(fs[1..])
  }

  function AllLengths(fs: seq<seq<byte>>): seq<byte>
    requires forall f :: f in fs ==> |f| <= 1275
  {
    if fs == [] then [] else LengthBytes(|fs[0]|) + AllLengths(fs[1..])
  }

  function Zeros(n: nat): seq<byte> {
    seq(n, _ => 0)
  }

  /** The second byte of a packet of code 3: flags for frame lengths and padding, and the count. */
  function CountByte(p: Packing): byte
    requires p.Many? && |p.frames| <= 48
  {
    (if p.variable then 128 else 0) + (if p.padding.Some? then 64 else 0) + |p.frames|
  }

  /** What follows the first byte. */
  ghost function Content(p: Packing): seq<byte>
    requires ValidPacking(p)
  {
    match p
    case One(f) => f
    case Equal(a, b) => a + b
    case Two(a, b) => LengthBytes(|a|) + a + b
    case Many(fs, variable, padding) => [CountByte(p)] + Frames(fs, variable, padding)
  }

  ghost function Frames(fs: seq<seq<byte>>, variable: bool, padding: Option<nat>): seq<byte>
    requires fs != [] && forall f :: f in fs ==> |f| <= 1275
  {
    (if padding.Some? then PaddingBytes(padding.value) else [])
    + (if variable then AllLengths(fs[..|fs| - 1]) else [])
    + AllBytes(fs)
    + (if padding.Some? then Zeros(padding.value) else [])
  }

  /** The bytes of a packet. */
  ghost function PacketOf(config: nat, stereo: bool, p: Packing): Packet
    requires config < 32 && ValidPacking(p)
  {
    [Toc(config, stereo, Code(p))] + Content(p)
  }

  lemma FirstBytes(config: nat, stereo: bool, p: Packing)
    requires config < 32 && ValidPacking(p)
    ensures var packet := PacketOf(config, stereo, p);
            && packet != [] && packet[0] == Toc(config, stereo, Code(p))
            && (p.Many? ==> |packet| >= 2 && packet[1] == CountByte(p))
  {
  }

  lemma TocParts(config: nat, stereo: bool, code: byte)
    requires config < 32 && code < 4
    ensures var toc := Toc(config, stereo, code);
            toc % 4 == code && toc / 8 == config && toc / 4 == 2 * config + if stereo then 1 else 0
  {
  }

  lemma CountOf(p: Packing)
    requires p.Many? && |p.frames| <= 48
    ensures CountByte(p) % 64 == |p.frames|
  {
  }

  /** A packet of n frames is counted as n frames, and its frames last as the table says for its
      configuration. */
  lemma PackedFrames(config: nat, stereo: bool, p: Packing)
    requires config < 32 && ValidPacking(p)
    ensures var packet := PacketOf(config, stereo, p);
            && FrameCount(packet) == Ok(|Packed(p)|) && Announced(packet) == |Packed(p)|
            && FrameTicks(packet[0]) == ConfigTicks(config)
            && Ticks(packet) == Times(ConfigTicks(config), |Packed(p)|)
  {
    FirstBytes(config, stereo, p);
    TocParts(config, stereo, Code(p));
    if p.Many? { CountOf(p); }
    TicksOf(config, PacketOf(config, stereo, p), |Packed(p)|);
  }

  lemma TicksOf(config: nat, packet: Packet, n: nat)
    requires config < 32 && packet != [] && packet[0] / 8 == config
    requires if packet[0] % 4 == 3 then |packet| >= 2 && packet[1] % 64 == n else n == [1, 2, 2][packet[0] % 4]
    ensures FrameCount(packet) == Ok(n) && Announced(packet) == n && FrameTicks(packet[0]) == ConfigTicks(config)
  {
    TableRows(packet[0], config);
  }

  lemma TableRows(toc: byte, config: nat)
    requires config < 32 && toc / 8 == config
    ensures FrameTicks(toc) == ConfigTicks(config)
  {
  }

  lemma CountFailsIff(packet: Packet)
    ensures FrameCount(packet).Err? <==> packet == [] || (packet[0] % 4 == 3 && |packet| == 1)
  {
  }

  /** Frame length in units of 2.5 ms, row by row of table 2 of section 3.1 of RFC 6716: SILK in three
      bandwidths, hybrid in two, CELT in four. */
  function ConfigTicks(config: nat): nat
    requires config < 32
  {
    [4, 8, 16, 24, 4, 8, 16, 24, 4, 8, 16, 24, 4, 8, 4, 8, 1, 2, 4, 8, 1, 2, 4, 8, 1, 2, 4, 8, 1, 2, 4, 8][config]
  }

  /** How many frames a packet says it has: the low bits of its first byte, or of its second. */
  ghost function Announced(packet: Packet): nat
    requires FrameCount(packet).Ok?
  {
    if packet[0] % 4 == 3 then packet[1] % 64 else [1, 2, 2][packet[0] % 4]
  }

  lemma CountIsAnnounced(packet: Packet)
    requires FrameCount(packet).Ok?
    ensures FrameCount(packet) == Ok(Announced(packet))
  {
  }

  ghost function Ticks(packet: Packet): nat
    requires FrameCount(packet).Ok?
  {
    Times(FrameTicks(packet[0]), Announced(packet))
  }

  lemma TimesAssoc(k: nat, a: nat, b: nat)
    ensures Times(k * a, b) == k * Times(a, b)
  {
  }

  /** The duration does not depend on the sample rate: it is the length by the
      table, rounded down to whole milliseconds. */
  lemma DurationIsRoundedTicks(packet: Packet, rate: nat)
    requires SupportedRate(rate) && FrameCount(packet).Ok?
    ensures DurationMs(packet, rate) == Ok(Ticks(packet) * 5 / 2)
  {
    var n, ticks := Announced(packet), FrameTicks(packet[0]);
    CountIsAnnounced(packet);
    SamplesMatchTable(packet[0], rate);
    var k := if rate == 8000 then 20 else if rate == 12000 then 30 else if rate == 16000 then 40
             else if rate == 24000 then 60 else 120;
    assert SamplesPerFrame(packet[0], rate) == k * ticks;
    TimesAssoc(k, ticks, n);
    RoundedTicks(Ticks(packet), rate, k);
  }

  /** A sample rate that is not positive counts as 48000. */
  lemma DefaultRate(packet: Packet, sampleRate: int)
    ensures sampleRate <= 0 ==> DurationMs(packet, sampleRate) == DurationMs(packet, 48000)
    ensures sampleRate > 0 && FrameCount(packet).Ok? ==>
              DurationMs(packet, sampleRate) == Ok(ToMs(Times(SamplesPerFrame(packet[0], sampleRate), Announced(packet)), sampleRate))
    ensures FrameCount(packet).Err? ==> DurationMs(packet, sampleRate) == Err
  {
    if FrameCount(packet).Ok? { CountIsAnnounced(packet); }
  }

  lemma RoundedTicks(t: nat, rate: nat, k: nat)
    requires SupportedRate(rate) && k * 400 == rate
    ensures ToMs(k * t, rate) == t * 5 / 2
  {
    if rate == 8000 {
    } else if rate == 12000 {
    } else if rate == 16000 {
    } else if rate == 24000 {
    }
  }

  lemma NoFramesNoTime(p: Packet, sampleRate: int)
    ensures FrameCount(p) == Ok(0) ==> DurationMs(p, sampleRate) == Ok(0)
  {
    if p != [] {
      var rate: nat := if sampleRate <= 0 then 48000 else sampleRate;
      assert Times(SamplesPerFrame(p[0], rate), 0) == 0;
    }
  }

  /** Two packets have the same bits above the code if and only if configuration and stereo flag agree. */
  lemma SameTocBits(config: nat, stereo: bool, p: Packing, config': nat, stereo': bool, p': Packing)
    requires config < 32 && config' < 32 && ValidPacking(p) && ValidPacking(p')
    ensures PacketOf(config, stereo, p)[0] / 4 == PacketOf(config', stereo', p')[0] / 4 <==> config == config' && stereo == stereo'
  {
    TocBitsOf(config, stereo, p);
    TocBitsOf(config', stereo', p');
  }

  lemma TocBitsOf(config: nat, stereo: bool, p: Packing)
    requires config < 32 && ValidPacking(p)
    ensures PacketOf(config, stereo, p)[0] / 4 == 2 * config + if stereo then 1 else 0
  {
    FirstBytes(config, stereo, p);
    TocParts(config, stereo, Code(p));
  }

  datatype Frame = Frame(packet: Packet, index: nat)

  function FramesOf(packet: Packet): (fs: seq<Frame>)
    ensures FrameCount(packet).Ok? ==> |fs| == FrameCount(packet).value
  {
    match FrameCount(packet)
    case Err => []
    case Ok(n) => seq(n, k requires 0 <= k < n => Frame(packet, k))
  }
}

/**
 Regrouping of Opus packets into frames of a target length: repacketizeOpusPackets
 of internal/util/audio_utils.go.  libopus is a sequence of frames with cat, out and
 reset; a frame is named by its packet and its place in that packet.
 */
module OpusRepacketizing {
  import opened Basics
  import opened OpusDurations

  // ---------- Regrouping ----------

  /** One run: the target length, the duration of a packet and the frames that
      libopus finds in it. */
  datatype Target = Target(ms: int, duration: Packet -> Result<nat>, frames: Packet -> seq<Frame>)

  /** A packet that takes time has frames. */
  ghost predicate Sound(t: Target) {
    forall p :: Playable(t, p) ==> t.frames(p) != []
  }

  function AllFrames(t: Target, packets: seq<Packet>): seq<Frame> {
    if packets == [] then [] else AllFrames(t, packets[..|packets| - 1]) + t.frames(packets[|packets| - 1])
  }

  predicate Playable(t: Target, p: Packet) {
    t.duration(p).Ok? && 0 < t.duration(p).value <= t.ms
  }

  function Ms(t: Target, p: Packet): nat {
    match t.duration(p) case Ok(d) => d case Err => 0
  }

  function TotalMs(t: Target, group: seq<Packet>): nat {
    if group == [] then 0 else TotalMs(t, group[..|group| - 1]) + Ms(t, group[|group| - 1])
  }

  function TocBits(p: Packet): int {
    if p == [] then -1 else p[0] / 4
  }

  /** Whether the code starts a new group rather than add p to this one. */
  predicate MustCut(t: Target, group: seq<Packet>, p: Packet) {
    && group != []
    && (TocBits(group[|group| - 1]) != TocBits(p) || TotalMs(t, group) + Ms(t, p) > t.ms)
  }

  function NonEmpty(ps: seq<Packet>): seq<Packet> {
    if ps == [] then []
    else NonEmpty(ps[..|ps| - 1]) + if ps[|ps| - 1] == [] then [] else [ps[|ps| - 1]]
  }

  function Flatten(groups: seq<seq<Packet>>): seq<Packet> {
    if groups == [] then [] else Flatten(groups[..|groups| - 1]) + groups[|groups| - 1]
  }

  predicate Fits(t: Target, group: seq<Packet>) {
    && group != [] && TotalMs(t, group) <= t.ms
    && forall k :: 0 <= k < |group| ==> Playable(t, group[k]) && TocBits(group[k]) == TocBits(group[0])
  }

  ghost predicate WellCut(t: Target, groups: seq<seq<Packet>>) {
    var n := |groups|;
    n == 0 ||
    (&& WellCut(t, groups[..n - 1])
     && Fits(t, groups[n - 1])
     && (n >= 2 ==> MustCut(t, groups[n - 2], groups[n - 1][0])))
  }

  /** A grouping of the packets into frames of the target length: each group has
      one TOC setting and fits, and a group ends only where the next packet has
      another TOC setting or would not fit. */
  ghost predicate Grouping(t: Target, groups: seq<seq<Packet>>, packets: seq<Packet>) {
    WellCut(t, groups) && Flatten(groups) == packets
  }

  function EmittedFrames(t: Target, groups: seq<seq<Packet>>): seq<seq<Frame>> {
    seq(|groups|, g requires 0 <= g < |groups| => AllFrames(t, groups[g]))
  }

  function Open(current: seq<Packet>): seq<seq<Packet>> {
    if current == [] then [] else [current]
  }

  lemma SnocGroup(t: Target, groups: seq<seq<Packet>>, g: seq<Packet>)
    ensures (groups + [g])[..|groups|] == groups
    ensures Flatten(groups + [g]) == Flatten(groups) + g
    ensures EmittedFrames(t, groups + [g]) == EmittedFrames(t, groups) + [AllFrames(t, g)]
  {
    assert (groups + [g])[..|groups|] == groups;
  }

  lemma SnocPacket(t: Target, g: seq<Packet>, p: Packet)
    ensures TotalMs(t, g + [p]) == TotalMs(t, g) + Ms(t, p)
  {
    assert (g + [p])[..|g|] == g;
  }

  lemma AddPacket(t: Target, groups: seq<seq<Packet>>, current: seq<Packet>, p: Packet, before: seq<Packet>)
    requires Grouping(t, groups + Open(current), before) && Playable(t, p) && p != []
    requires !MustCut(t, current, p)
    requires current == [] && groups != [] ==> MustCut(t, groups[|groups| - 1], p)
    ensures Grouping(t, groups + [current + [p]], before + [p])
  {
    SnocPacket(t, current, p);
    SnocGroup(t, groups, current + [p]);
    SnocGroup(t, groups, current);
    if current == [] {
      assert groups + Open(current) == groups;
      assert Fits(t, [] + [p]);
    } else {
      assert Fits(t, current + [p]);
    }
  }

  /** A packet starts a new group exactly if it does not fit the open one. */
  lemma CutsIff(t: Target, group: seq<Packet>, p: Packet)
    requires Fits(t, group) && Playable(t, p)
    ensures MustCut(t, group, p) <==> !Fits(t, group + [p])
    ensures TocBits(p) >= 0 ==> TocBits(p) == p[0] / 4
  {
    var more := group + [p];
    SnocPacket(t, group, p);
    assert more[|group|] == p && more[|group| - 1] == group[|group| - 1] && more[0] == group[0];
    assert forall k :: 0 <= k < |group| ==> more[k] == group[k];
  }

  /** Between two packets: what has been grouped, with the open group last, and
      no open group only after a full one. */
  ghost predicate Between(t: Target, groups: seq<seq<Packet>>, current: seq<Packet>, packets: seq<Packet>) {
    && Grouping(t, groups + Open(current), packets)
    && (current == [] && groups != [] ==> TotalMs(t, groups[|groups| - 1]) == t.ms)
    && (current != [] ==> TotalMs(t, current) < t.ms)
  }

  /** The variables that repacketizeOpusPackets shares with its two closures, and
      the channel it sends to.  `groups` and `current` remember which packets the
      emitted and the pending frames came from. */
  class Regrouper {
    const t: Target
    var rp: seq<Frame>
    var currentDurationMs: int
    var prevTOC: int
    var emitted: seq<seq<Frame>>
    ghost var groups: seq<seq<Packet>>
    ghost var current: seq<Packet>

    ghost predicate Valid()
      reads this
    {
      && rp == AllFrames(t, current) && currentDurationMs == TotalMs(t, current)
      && (|rp| > 0 <==> current != [])
      && (current != [] ==> current[|current| - 1] != [] && prevTOC == current[|current| - 1][0])
      && emitted == EmittedFrames(t, groups)
    }

    constructor (t: Target)
      ensures this.t == t && Valid() && groups == [] && current == []
    {
      this.t := t;
      rp, currentDurationMs, prevTOC, emitted := [], 0, 0, [];
      groups, current := [], [];
    }

    /** emitCurrent: sends the pending frames as one packet, if there are any. */
    method EmitCurrent()
      requires Valid()
      modifies this
      ensures Valid() && current == [] && groups == old(groups) + Open(old(current))
    {
      if |rp| == 0 { return; }
      SnocGroup(t, groups, current);
      emitted, groups := emitted + [rp], groups + [current];
      rp, currentDurationMs, prevTOC, current := [], 0, 0, [];
    }

    method Cat(packet: Packet, duration: nat)
      requires Valid() && packet != [] && t.frames(packet) != [] && duration == Ms(t, packet)
      modifies this`rp, this`current, this`prevTOC, this`currentDurationMs
      ensures Valid() && current == old(current) + [packet]
    {
      SnocPacket(t, current, packet);
      SnocFrames(t, current, packet);
      rp, current := rp + t.frames(packet), current + [packet];
      prevTOC := packet[0];
      currentDurationMs := currentDurationMs + duration;
    }

    /** appendPacket: refuses a packet without a usable duration; otherwise the
        packet joins the open group or, after a cut, starts a new one. */
    method AppendPacket(packet: Packet) returns (ok: bool)
      requires Valid() && Sound(t)
      modifies this
      ensures ok <==> packet == [] || Playable(t, packet)
      ensures ok ==> Valid() && Grouped(groups, current) == Regroup(t, Grouped(old(groups), old(current)), packet)
    {
      if packet == [] { return true; }
      var duration := t.duration(packet);
      if duration.Err? { return false; }
      if duration.value <= 0 { return false; }
      if duration.value > t.ms { return false; }
      MakeRoom(packet, duration.value);
      Join(packet, duration.value);
      ok := true;
    }

    /** A packet of another setting, or one that does not fit, ends the open group. */
    method MakeRoom(packet: Packet, duration: nat)
      requires Valid() && packet != [] && duration == Ms(t, packet)
      modifies this
      ensures Valid() && Grouped(groups, current) == Cut(t, Grouped(old(groups), old(current)), packet)
    {
      assert |rp| > 0 && (prevTOC / 4 != packet[0] / 4 || currentDurationMs + duration > t.ms) <==> MustCut(t, current, packet);
      if |rp| > 0 && (prevTOC / 4 != packet[0] / 4 || currentDurationMs + duration > t.ms) {
        EmitCurrent();
      }
    }

    /** The packet joins the open group, which goes out when it is full. */
    method Join(packet: Packet, duration: nat)
      requires Valid() && packet != [] && t.frames(packet) != [] && duration == Ms(t, packet)
      modifies this
      ensures Valid() && Grouped(groups, current) == Joining(t, Grouped(old(groups), old(current)), packet)
    {
      Cat(packet, duration);
      if currentDurationMs == t.ms {
        EmitCurrent();
      }
    }
  }

  /** The groups finished so far and the open one. */
  datatype Grouped = Grouped(groups: seq<seq<Packet>>, current: seq<Packet>)

  ghost function Cut(t: Target, g: Grouped, p: Packet): Grouped {
    if MustCut(t, g.current, p) then Grouped(g.groups + [g.current], []) else g
  }

  ghost function Regroup(t: Target, g: Grouped, p: Packet): Grouped {
    if p == [] then g
    else
      Joining(t, Cut(t, g, p), p)
  }

  ghost function Joining(t: Target, g: Grouped, p: Packet): Grouped {
    var joined := g.current + [p];
    if TotalMs(t, joined) == t.ms then Grouped(g.groups + [joined], []) else Grouped(g.groups, joined)
  }

  lemma CutKeepsGrouping(t: Target, g: Grouped, p: Packet, before: seq<Packet>)
    requires Between(t, g.groups, g.current, before) && Playable(t, p)
    ensures var cut := Cut(t, g, p);
            && Grouping(t, cut.groups + Open(cut.current), before)
            && !MustCut(t, cut.current, p)
            && (cut.current == [] && cut.groups != [] ==> MustCut(t, cut.groups[|cut.groups| - 1], p))
  {
    var cut := Cut(t, g, p);
    assert cut.groups + Open(cut.current) == g.groups + Open(g.current);
    if cut.current == [] && cut.groups != [] && g.current == [] {
      var last := g.groups[|g.groups| - 1];
      assert g.groups + Open(g.current) == g.groups;
      assert Fits(t, last);
    }
  }

  /** One packet keeps the grouping, as the code regroups it. */
  lemma RegroupKeepsGrouping(t: Target, g: Grouped, p: Packet, before: seq<Packet>)
    requires Between(t, g.groups, g.current, before) && (p == [] || Playable(t, p))
    ensures var g' := Regroup(t, g, p);
            Between(t, g'.groups, g'.current, before + if p == [] then [] else [p])
  {
    if p == [] {
      assert before + [] == before;
    } else {
      var cut := Cut(t, g, p);
      CutKeepsGrouping(t, g, p, before);
      AddPacket(t, cut.groups, cut.current, p, before);
      JoinedIsBetween(t, cut.groups, cut.current + [p], before + [p]);
    }
  }

  lemma JoinedIsBetween(t: Target, groups: seq<seq<Packet>>, joined: seq<Packet>, packets: seq<Packet>)
    requires joined != [] && Grouping(t, groups + [joined], packets)
    ensures if TotalMs(t, joined) == t.ms then Between(t, groups + [joined], [], packets)
            else Between(t, groups, joined, packets)
  {
    assert (groups + [joined]) + Open([]) == groups + [joined];
    assert Fits(t, (groups + [joined])[|groups|]);
  }

  ghost predicate Usable(t: Target, p: Packet) {
    p == [] || Playable(t, p)
  }

  ghost predicate AllUsable(t: Target, packets: seq<Packet>) {
    packets == [] || (AllUsable(t, packets[..|packets| - 1]) && Usable(t, packets[|packets| - 1]))
  }

  lemma {:induction false} UsableEach(t: Target, packets: seq<Packet>, i: nat)
    requires i < |packets| && AllUsable(t, packets)
    ensures Usable(t, packets[i])
  {
    if i < |packets| - 1 {
      UsableEach(t, packets[..|packets| - 1], i);
    }
  }

  lemma UsableSnoc(t: Target, packets: seq<Packet>, i: nat)
    requires i < |packets| && AllUsable(t, packets[..i]) && Usable(t, packets[i])
    ensures AllUsable(t, packets[..i + 1])
  {
    assert packets[..i + 1][..i] == packets[..i];
  }

  lemma AppendStep(t: Target, packets: seq<Packet>, i: nat, g: Grouped, done: seq<Packet>)
    requires i < |packets| && AllUsable(t, packets[..i]) && Usable(t, packets[i])
    requires Between(t, g.groups, g.current, done) && done == NonEmpty(packets[..i])
    ensures AllUsable(t, packets[..i + 1])
    ensures var g' := Regroup(t, g, packets[i]); Between(t, g'.groups, g'.current, NonEmpty(packets[..i + 1]))
  {
    UsableSnoc(t, packets, i);
    RegroupKeepsGrouping(t, g, packets[i], done);
    NonEmptySnoc(packets, i);
  }

  /** The packet loop of repacketizeOpusPackets, up to the end of the stream. */
  method AppendAll(r: Regrouper, packets: seq<Packet>) returns (ok: bool)
    requires r.Valid() && Sound(r.t) && r.groups == [] && r.current == []
    modifies r
    ensures ok <==> AllUsable(r.t, packets)
    ensures ok ==> r.Valid() && Between(r.t, r.groups, r.current, NonEmpty(packets))
  {
    ghost var done := [];
    assert Between(r.t, [], [], done);
    for i := 0 to |packets|
      invariant r.Valid() && done == NonEmpty(packets[..i])
      invariant Between(r.t, r.groups, r.current, done)
      invariant AllUsable(r.t, packets[..i])
    {
      ghost var g := Grouped(r.groups, r.current);
      ok := r.AppendPacket(packets[i]);
      if !ok {
        if AllUsable(r.t, packets) { UsableEach(r.t, packets, i); }
        return false;
      }
      AppendStep(r.t, packets, i, g, done);
      done := NonEmpty(packets[..i + 1]);
    }
    assert packets[..|packets|] == packets;
    ok := true;
  }

  lemma OpusTargetIsSound(ms: int, rate: int)
    ensures Sound(OpusTarget(ms, rate)) && OpusTarget(ms, rate).frames([]) == []
  {
    var t := OpusTarget(ms, rate);
    forall p | Playable(t, p)
      ensures t.frames(p) != []
    {
      NoFramesNoTime(p, rate);
    }
  }

  function OpusTarget(ms: int, rate: int): Target {
    Target(ms, p => DurationMs(p, rate), p => FramesOf(p))
  }

  /** repacketizeOpusPackets on a stream that ends without a read error.  It fails
      exactly when the target is not positive or a non-empty packet has no usable
      duration; otherwise the emitted packets are those of a grouping of the
      non-empty packets. */
  method Repacketize(packets: seq<Packet>, ms: int, rate: int) returns (ok: bool, emitted: seq<seq<Frame>>)
    ensures ok <==> ms > 0 && AllUsable(OpusTarget(ms, rate), packets)
    ensures ok ==> exists groups :: Grouping(OpusTarget(ms, rate), groups, NonEmpty(packets))
                                 && emitted == EmittedFrames(OpusTarget(ms, rate), groups)
  {
    if ms <= 0 { return false, []; }
    var t := OpusTarget(ms, rate);
    OpusTargetIsSound(ms, rate);
    var r := new Regrouper(t);
    ok := AppendAll(r, packets);
    if ok { r.EmitCurrent(); }
    emitted := r.emitted;
  }

  lemma NonEmptySnoc(packets: seq<Packet>, i: nat)
    requires i < |packets|
    ensures NonEmpty(packets[..i + 1]) == NonEmpty(packets[..i]) + if packets[i] == [] then [] else [packets[i]]
  {
    assert packets[..i + 1][..i] == packets[..i];
  }

  // ---------- What a grouping is ----------

  lemma SnocFrames(t: Target, g: seq<Packet>, p: Packet)
    ensures AllFrames(t, g + [p]) == AllFrames(t, g) + t.frames(p)
  {
    assert (g + [p])[..|g|] == g;
  }

  lemma AppendOneMore(t: Target, a: seq<Packet>, c: seq<Packet>, p: Packet)
    requires AllFrames(t, a + c) == AllFrames(t, a) + AllFrames(t, c)
    ensures AllFrames(t, a + (c + [p])) == AllFrames(t, a) + AllFrames(t, c + [p])
  {
    ConcatAssoc(a, c, [p]);
    SnocFrames(t, a + c, p);
    SnocFrames(t, c, p);
    ConcatAssoc(AllFrames(t, a), AllFrames(t, c), t.frames(p));
  }

  lemma {:induction false} AllFramesAppend(t: Target, a: seq<Packet>, b: seq<Packet>)
    ensures AllFrames(t, a + b) == AllFrames(t, a) + AllFrames(t, b)
  {
    if b == [] {
      assert a + b == a && AllFrames(t, a) + [] == AllFrames(t, a);
    } else {
      var n := |b| - 1;
      AllFramesAppend(t, a, b[..n]);
      AppendOneMore(t, a, b[..n], b[n]);
      assert b == b[..n] + [b[n]];
    }
  }

  lemma {:induction false} AllFramesNonEmpty(t: Target, ps: seq<Packet>)
    requires t.frames([]) == []
    ensures AllFrames(t, NonEmpty(ps)) == AllFrames(t, ps)
  {
    if ps != [] {
      var n := |ps| - 1;
      AllFramesNonEmpty(t, ps[..n]);
      if ps[n] == [] {
        assert AllFrames(t, ps[..n]) + t.frames([]) == AllFrames(t, ps[..n]);
        assert NonEmpty(ps[..n]) + [] == NonEmpty(ps[..n]);
      } else {
        SnocFrames(t, NonEmpty(ps[..n]), ps[n]);
      }
    }
  }

  function Joined(emitted: seq<seq<Frame>>): seq<Frame> {
    if emitted == [] then [] else Joined(emitted[..|emitted| - 1]) + emitted[|emitted| - 1]
  }

  lemma {:induction false} JoinedFlatten(t: Target, groups: seq<seq<Packet>>)
    ensures Joined(EmittedFrames(t, groups)) == AllFrames(t, Flatten(groups))
  {
    if groups != [] {
      var n := |groups| - 1;
      JoinedFlatten(t, groups[..n]);
      assert EmittedFrames(t, groups)[..n] == EmittedFrames(t, groups[..n]);
      AllFramesAppend(t, Flatten(groups[..n]), groups[n]);
    }
  }

  /** Regrouping loses, repeats and reorders no frame. */
  lemma FramesConserved(t: Target, groups: seq<seq<Packet>>, packets: seq<Packet>)
    requires t.frames([]) == [] && Grouping(t, groups, NonEmpty(packets))
    ensures Joined(EmittedFrames(t, groups)) == AllFrames(t, packets)
  {
    JoinedFlatten(t, groups);
    AllFramesNonEmpty(t, packets);
  }

  lemma {:induction false} FlattenHead(groups: seq<seq<Packet>>)
    requires groups != []
    ensures Flatten(groups) == groups[0] + Flatten(groups[1..])
  {
    var n := |groups| - 1;
    if n > 0 {
      FlattenHead(groups[..n]);
      assert groups[..n][1..] == groups[1..][..n - 1];
    }
  }

  lemma {:induction false} WellCutHead(t: Target, groups: seq<seq<Packet>>)
    requires groups != [] && WellCut(t, groups)
    ensures Fits(t, groups[0]) && WellCut(t, groups[1..])
    ensures |groups| >= 2 ==> groups[1] != [] && MustCut(t, groups[0], groups[1][0])
  {
    var n := |groups| - 1;
    if n > 0 {
      WellCutHead(t, groups[..n]);
      assert groups[..n][1..] == groups[1..][..n - 1];
    }
  }

  lemma {:induction false} TotalMsPrefix(t: Target, g: seq<Packet>, n: nat)
    requires n <= |g|
    ensures TotalMs(t, g[..n]) <= TotalMs(t, g)
  {
    if n == |g| {
      assert g[..n] == g;
    } else {
      TotalMsPrefix(t, g[..|g| - 1], n);
      assert g[..|g| - 1][..n] == g[..n];
    }
  }

  /** A group that fits contains no cut. */
  lemma NoCutInside(t: Target, g: seq<Packet>, n: nat)
    requires Fits(t, g) && 0 < n < |g|
    ensures !MustCut(t, g[..n], g[n])
  {
    TotalMsPrefix(t, g, n + 1);
    SnocPacket(t, g[..n], g[n]);
    assert g[..n + 1] == g[..n] + [g[n]];
    assert TocBits(g[n]) == TocBits(g[0]) == TocBits(g[n - 1]);
  }

  lemma ShorterPrefix(a: seq<Packet>, x: seq<Packet>, b: seq<Packet>, y: seq<Packet>)
    requires a + x == b + y && |a| < |b|
    ensures a == b[..|a|] && x != [] && x[0] == b[|a|]
  {
    assert a == (a + x)[..|a|] && b[..|a|] == (b + y)[..|a|];
    assert (a + x)[|a|] == (b + y)[|a|];
  }

  /** The packet after the first group is the first of the second group. */
  lemma SecondGroup(t: Target, gs: seq<seq<Packet>>)
    requires WellCut(t, gs) && gs != [] && Flatten(gs[1..]) != []
    ensures MustCut(t, gs[0], Flatten(gs[1..])[0])
  {
    WellCutHead(t, gs);
    if |gs| >= 2 { FlattenHead(gs[1..]); }
  }

  lemma FirstGroupNotShorter(t: Target, gs: seq<seq<Packet>>, hs: seq<seq<Packet>>, packets: seq<Packet>)
    requires Grouping(t, gs, packets) && Grouping(t, hs, packets) && gs != [] && hs != []
    ensures |gs[0]| >= |hs[0]|
  {
    var g, h := gs[0], hs[0];
    FlattenHead(gs);
    FlattenHead(hs);
    WellCutHead(t, gs);
    WellCutHead(t, hs);
    if |g| < |h| {
      ShorterPrefix(g, Flatten(gs[1..]), h, Flatten(hs[1..]));
      SecondGroup(t, gs);
      NoCutInside(t, h, |g|);
    }
  }

  /** No packets, no groups. */
  lemma NoGroups(t: Target, gs: seq<seq<Packet>>)
    requires WellCut(t, gs) && Flatten(gs) == []
    ensures gs == []
  {
    if gs != [] {
      FlattenHead(gs);
      WellCutHead(t, gs);
    }
  }

  /** The first groups of two groupings are the same, and the others group the rest. */
  lemma SameFirstGroup(t: Target, gs: seq<seq<Packet>>, hs: seq<seq<Packet>>, packets: seq<Packet>)
    requires Grouping(t, gs, packets) && Grouping(t, hs, packets) && gs != [] && hs != []
    ensures gs[0] == hs[0]
    ensures |gs[0]| <= |packets|
    ensures Grouping(t, gs[1..], packets[|gs[0]|..]) && Grouping(t, hs[1..], packets[|gs[0]|..])
  {
    FirstGroupNotShorter(t, gs, hs, packets);
    FirstGroupNotShorter(t, hs, gs, packets);
    FlattenHead(gs);
    FlattenHead(hs);
    WellCutHead(t, gs);
    WellCutHead(t, hs);
    SplitFront(gs[0], Flatten(gs[1..]), packets);
    SplitFront(hs[0], Flatten(hs[1..]), packets);
  }

  lemma SplitFront(a: seq<Packet>, b: seq<Packet>, all: seq<Packet>)
    requires a + b == all
    ensures a == all[..|a|] && b == all[|a|..]
  {
  }

  /** The packets determine their grouping, so what is emitted is the only
      grouping there is: groups end exactly where they must. */
  lemma {:induction false} GroupingIsUnique(t: Target, gs: seq<seq<Packet>>, hs: seq<seq<Packet>>, packets: seq<Packet>)
    requires Grouping(t, gs, packets) && Grouping(t, hs, packets)
    ensures gs == hs
    decreases |gs|
  {
    if gs == [] || hs == [] {
      NoGroups(t, gs);
      NoGroups(t, hs);
    } else {
      SameFirstGroup(t, gs, hs, packets);
      GroupingIsUnique(t, gs[1..], hs[1..], packets[|gs[0]|..]);
      assert gs == [gs[0]] + gs[1..] && hs == [hs[0]] + hs[1..];
    }
  }

  // ---------- Rounding ----------

  ghost predicate AllCounted(group: seq<Packet>) {
    forall k :: 0 <= k < |group| ==> FrameCount(group[k]).Ok?
  }

  ghost function TotalTicks(group: seq<Packet>): nat
    requires AllCounted(group)
  {
    if group == [] then 0 else TotalTicks(group[..|group| - 1]) + Ticks(group[|group| - 1])
  }

  ghost function OddPackets(group: seq<Packet>): nat
    requires AllCounted(group)
  {
    if group == [] then 0 else OddPackets(group[..|group| - 1]) + Ticks(group[|group| - 1]) % 2
  }

  lemma PacketRounding(t: Target, rate: nat, p: Packet)
    requires SupportedRate(rate) && t == OpusTarget(t.ms, rate) && FrameCount(p).Ok?
    ensures 5 * Ticks(p) == 2 * Ms(t, p) + Ticks(p) % 2
  {
    DurationIsRoundedTicks(p, rate);
    HalfRounding(Ticks(p));
  }

  lemma HalfRounding(n: nat)
    ensures 5 * n == 2 * (n * 5 / 2) + n % 2
  {
    var k := n / 2;
    assert n == 2 * k || n == 2 * k + 1;
    assert n * 5 / 2 == if n == 2 * k then 5 * k else 5 * k + 2;
  }

  lemma LastPacket(t: Target, group: seq<Packet>, ms: nat, ticks: nat)
    requires group != [] && AllCounted(group)
    requires ms == Ms(t, group[|group| - 1]) && ticks == Ticks(group[|group| - 1])
    ensures TotalMs(t, group) == TotalMs(t, group[..|group| - 1]) + ms
    ensures TotalTicks(group) == TotalTicks(group[..|group| - 1]) + ticks
    ensures OddPackets(group) == OddPackets(group[..|group| - 1]) + ticks % 2
  {
  }

  /** Durations are summed after rounding down, so a group is longer than its
      bookkeeping says by half a millisecond for each packet with an odd number
      of 2.5 ms units: it keeps to the target exactly if that still fits. */
  lemma {:induction false} TrueDuration(t: Target, rate: nat, group: seq<Packet>)
    requires SupportedRate(rate) && t == OpusTarget(t.ms, rate) && AllCounted(group)
    ensures 5 * TotalTicks(group) == 2 * TotalMs(t, group) + OddPackets(group)
    ensures 5 * TotalTicks(group) <= 2 * t.ms <==> 2 * TotalMs(t, group) + OddPackets(group) <= 2 * t.ms
  {
    if group != [] {
      var p := group[|group| - 1];
      TrueDuration(t, rate, group[..|group| - 1]);
      PacketRounding(t, rate, p);
      LastPacket(t, group, Ms(t, p), Ticks(p));
    }
  }

  /** A packet whose true duration is not a whole number of 5 ms. */
  ghost predicate HasOdd(group: seq<Packet>)
    requires AllCounted(group)
  {
    exists k :: 0 <= k < |group| && Ticks(group[k]) % 2 == 1
  }

  lemma {:induction false} OddCount(group: seq<Packet>)
    requires AllCounted(group)
    ensures OddPackets(group) > 0 <==> HasOdd(group)
  {
    if group != [] {
      var front := group[..|group| - 1];
      OddCount(front);
      assert forall k :: 0 <= k < |front| ==> front[k] == group[k];
    }
  }

  /** A group that fills its target exactly overruns it if and only if it has a packet of an
      odd number of 2.5 ms units. */
  lemma FullGroupOverrunsIff(t: Target, rate: nat, group: seq<Packet>)
    requires SupportedRate(rate) && t == OpusTarget(t.ms, rate) && AllCounted(group) && TotalMs(t, group) == t.ms
    ensures 5 * TotalTicks(group) > 2 * t.ms <==> HasOdd(group)
  {
    TrueDuration(t, rate, group);
    OddCount(group);
  }

  /** Without such packets no group emitted for a stream is longer than the target. */
  lemma EvenNeverOverruns(t: Target, rate: nat, groups: seq<seq<Packet>>, packets: seq<Packet>, g: nat)
    requires SupportedRate(rate) && t == OpusTarget(t.ms, rate) && Grouping(t, groups, packets) && g < |groups|
    requires AllCounted(packets) && !HasOdd(packets)
    ensures AllCounted(groups[g]) && 5 * TotalTicks(groups[g]) <= 2 * t.ms
  {
    GroupInside(t, groups, packets, g);
    NoneOdd(groups[g], packets);
    EvenGroup(t, rate, groups[g]);
  }

  lemma NoneOdd(group: seq<Packet>, packets: seq<Packet>)
    requires AllCounted(packets) && !HasOdd(packets) && forall p :: p in group ==> p in packets
    ensures AllCounted(group) && !HasOdd(group)
  {
    forall k | 0 <= k < |group| ensures FrameCount(group[k]).Ok? && Ticks(group[k]) % 2 == 0 {
      assert group[k] in packets;
      var j :| 0 <= j < |packets| && packets[j] == group[k];
    }
  }

  lemma EvenGroup(t: Target, rate: nat, group: seq<Packet>)
    requires SupportedRate(rate) && t == OpusTarget(t.ms, rate) && AllCounted(group) && !HasOdd(group) && TotalMs(t, group) <= t.ms
    ensures 5 * TotalTicks(group) <= 2 * t.ms
  {
    TrueDuration(t, rate, group);
    OddCount(group);
  }

  /** The packets of a group are packets of the stream, and the group fits. */
  lemma {:induction false} GroupInside(t: Target, groups: seq<seq<Packet>>, packets: seq<Packet>, g: nat)
    requires Grouping(t, groups, packets) && g < |groups|
    ensures Fits(t, groups[g]) && forall p :: p in groups[g] ==> p in packets
  {
    var n := |groups|;
    if g < n - 1 { GroupInside(t, groups[..n - 1], Flatten(groups[..n - 1]), g); }
    assert packets == Flatten(groups[..n - 1]) + groups[n - 1];
  }

  /** Ten packets of one 2.5 ms frame are one group for a 20 ms target, and the only one,
      although they last 25 ms. */
  lemma RoundingOverrunsTarget(groups: seq<seq<Packet>>)
    ensures var t, group := OpusTarget(20, 48000), Repeat([128], 10);
            && AllUsable(t, group) && NonEmpty(group) == group && Grouping(t, [group], group)
            && AllCounted(group) && 5 * TotalTicks(group) == 2 * 25
            && (Grouping(t, groups, group) ==> groups == [group])
  {
    var p: Packet := [128];
    var t, group := OpusTarget(20, 48000), Repeat([128], 10);
    DurationIsRoundedTicks(p, 48000);
    assert Ticks(p) == 1;
    Repeated(t, p, 10);
    RepeatUsable(t, p, 10);
    OneGroup(t, group);
    if Grouping(t, groups, group) { GroupingIsUnique(t, groups, [group], group); }
  }

  lemma OneGroup(t: Target, group: seq<Packet>)
    requires Fits(t, group)
    ensures Grouping(t, [group], group)
  {
    assert [group][..0] == [];
    assert Flatten([group]) == Flatten([group][..0]) + group == [] + group == group;
  }

  lemma {:induction false} RepeatUsable(t: Target, p: Packet, n: nat)
    requires p != [] && Playable(t, p)
    ensures AllUsable(t, Repeat(p, n)) && NonEmpty(Repeat(p, n)) == Repeat(p, n)
  {
    if n > 0 {
      RepeatUsable(t, p, n - 1);
      assert Repeat(p, n)[..n - 1] == Repeat(p, n - 1);
    }
  }

  /** The code, given these packets, emits all ten frames as one packet of 25 ms. */
  method OverrunExample() returns (ok: bool, emitted: seq<seq<Frame>>)
    ensures ok && |emitted| == 1 && emitted[0] == AllFrames(OpusTarget(20, 48000), Repeat([128], 10))
    ensures 5 * TotalTicks(Repeat([128], 10)) == 2 * 25
  {
    var packets := Repeat([128], 10);
    RoundingOverrunsTarget([]);
    ok, emitted := Repacketize(packets, 20, 48000);
    ghost var groups :| Grouping(OpusTarget(20, 48000), groups, NonEmpty(packets))
                     && emitted == EmittedFrames(OpusTarget(20, 48000), groups);
    RoundingOverrunsTarget(groups);
  }

  function Repeat(p: Packet, n: nat): (group: seq<Packet>)
    ensures |group| == n && forall k :: 0 <= k < n ==> group[k] == p
  {
    if n == 0 then [] else Repeat(p, n - 1) + [p]
  }

  lemma {:induction false} Repeated(t: Target, p: Packet, n: nat)
    requires FrameCount(p).Ok? && Ticks(p) == 1 && Ms(t, p) == 2
    ensures TotalMs(t, Repeat(p, n)) == 2 * n && TotalTicks(Repeat(p, n)) == n
  {
    if n > 0 {
      Repeated(t, p, n - 1);
      assert Repeat(p, n)[..n - 1] == Repeat(p, n - 1);
      LastPacket(t, Repeat(p, n), 2, 1);
    }
  }
}

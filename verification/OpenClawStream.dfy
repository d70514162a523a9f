/**
 HandleResponse and the responseStreamState methods of
 internal/domain/openclaw/manager.go: frames of a streamed answer in, delivery events
 out.  Whether an event goes out online or to the offline queue is not modelled.
 */
module OpenClawStream {
  import opened Basics
  import opened OpenClawText
  import opened OpenClawWords
  import opened OpenClawPieces
  import opened OpenClawSentences
  import opened Runes
  import Utf8

  const TEST_DEVICE_PREFIX := "__openclaw_test__:"

  /** A response payload after its metadata has been read.  `tagged` says that a
      stream id, a phase or a content type was given. */
  datatype Frame = Frame(content: string, device: string, done: bool, seqNo: int, tagged: bool, snapshot: bool)

  datatype Event = Event(device: string, text: string, isStart: bool, isEnd: bool)

  /** A frame that carries no streaming metadata is a whole answer. */
  predicate IsDone(f: Frame) {
    f.done || !(f.done || f.seqNo > 0 || f.tagged)
  }

  /** A frame ends the answer if it says so, or if it has nothing of a stream about it: no
      positive number and no stream id, phase or content type. */
  lemma DoneMeans(f: Frame)
    ensures IsDone(f) <==> f.done || (f.seqNo <= 0 && !f.tagged)
  {
  }

  /** The device a frame names, read without surrounding white space. */
  function Device(f: Frame): string {
    TrimSpace(f.device)
  }

  /** The frame is not stale: a positive number exceeds the last one accepted. */
  predicate InSequence(lastSeq: int, f: Frame) {
    !(f.seqNo > 0 && lastSeq > 0 && f.seqNo <= lastSeq)
  }

  predicate IsTestDevice(device: string) {
    TEST_DEVICE_PREFIX <= TrimSpace(device)
  }

  /** A test device is one whose trimmed name begins with the prefix. */
  lemma TestDeviceMeans(device: string)
    ensures var t := TrimSpace(device);
            IsTestDevice(device) <==> |t| >= 18 && t[..18] == "__openclaw_test__:"
  {
    assert |TEST_DEVICE_PREFIX| == 18;
  }

  ghost predicate SentTo(events: seq<Event>, device: string) {
    forall k :: 0 <= k < |events| ==> events[k].device == device
  }

  // ---------- Events of one frame ----------

  /** The events of one frame: only the first can open the answer, only the last
      of a final frame ends it, and a final frame always ends it. */
  ghost predicate Bracketed(events: seq<Event>, first: bool, done: bool) {
    && (forall k :: 0 <= k < |events| ==>
          && (events[k].isStart <==> first && k == 0)
          && (events[k].isEnd <==> done && k == |events| - 1))
    && (done ==> events != [])
  }

  function Texts(events: seq<Event>): seq<string> {
    seq(|events|, k requires 0 <= k < |events| => events[k].text)
  }

  lemma PrefixNext(ss: seq<string>, i: nat)
    requires i < |ss|
    ensures ss[..i] + [ss[i]] == ss[..i + 1]
  {
  }

  lemma TextsAppend(a: seq<Event>, b: seq<Event>)
    ensures Texts(a + b) == Texts(a) + Texts(b)
  {
  }

  /** The emit closure: an event without text is dropped unless it ends the answer. */
  function Emit(device: string, text: string, isStart: bool, isEnd: bool): seq<Event> {
    var t := TrimSpace(text);
    if t == "" && !isEnd then [] else [Event(device, t, isStart, isEnd)]
  }

  lemma EmitSpoken(device: string, text: string, isStart: bool, isEnd: bool)
    requires Spoken(text) || isEnd
    ensures Emit(device, text, isStart, isEnd) == [Event(device, TrimSpace(text), isStart, isEnd)]
  {
    TrimSpaceResult(text);
  }

  method IsCanonicalGrowth(base: string, candidate: string) returns (growth: bool)
    ensures growth <==> var b, c := Key(Normalize(base)), Key(Normalize(candidate));
                        b != "" && c != "" && (b <= c || c <= b)
  {
    var baseKey := ComparableKey(base);
    var candidateKey := ComparableKey(candidate);
    growth := baseKey != "" && candidateKey != "" && (baseKey <= candidateKey || candidateKey <= baseKey);
  }

  /** openClawCanonicalKey, on its normalised text */
  function CanonicalKey(text: string): string {
    SpaceFree(Normalize(text))
  }

  /** The length of a text in UTF-8. */
  function ByteLength(s: string): nat {
    if s == "" then 0
    else
      var c := s[0] as int;
      (if c < 0x80 then 1 else if c < 0x800 then 2 else if c < 0x1_0000 then 3 else 4) + ByteLength(s[1..])
  }

  function SpaceFree(s: string): string {
    if s == "" then "" else if IsSpace(s[0]) then SpaceFree(s[1..]) else [s[0]] + SpaceFree(s[1..])
  }

  /** The length counted is that of the encoded text. */
  lemma {:induction false} ByteLengthEncodes(s: string)
    ensures ByteLength(s) == |Utf8.EncodeAll(s)|
  {
    if s != "" { ByteLengthEncodes(s[1..]); }
  }

  /** White space is left out wherever it stands, and nothing else. */
  lemma {:induction false} SpaceFreeMeans(s: string)
    ensures forall k :: 0 <= k < |SpaceFree(s)| ==> !IsSpace(SpaceFree(s)[k])
    ensures (forall k :: 0 <= k < |s| ==> !IsSpace(s[k])) ==> SpaceFree(s) == s
    ensures Blank(s) ==> SpaceFree(s) == ""
  {
    if s != "" {
      SpaceFreeMeans(s[1..]);
      assert s == [s[0]] + s[1..];
    }
  }

  lemma {:induction false} SpaceFreeAppend(s: string, t: string)
    ensures SpaceFree(s + t) == SpaceFree(s) + SpaceFree(t)
  {
    if s == "" {
      assert s + t == t;
    } else {
      assert (s + t)[1..] == s[1..] + t;
      SpaceFreeAppend(s[1..], t);
      if !IsSpace(s[0]) { ConcatAssoc([s[0]], SpaceFree(s[1..]), SpaceFree(t)); }
    }
  }

  predicate IsPunctuationOnly(text: string) {
    var t := Normalize(text);
    t != "" && forall k :: 0 <= k < |t| ==> IsSpace(t[k]) || IsPause(t[k])
  }

  // ---------- The words of an answer ----------

  /** The texts a stream keeps: what it delivered, what waits for a sentence end, and a
      first content that is held back until it is clear whether contents accumulate. */
  datatype Book = Book(emitted: string, buffer: string, pending: string, hasDelta: bool)

  const NEW_BOOK := Book("", "", "", false)

  /** What a stream remembers between frames. */
  datatype Status = Status(isFirst: bool, lastSeq: int, book: Book)

  const NEW_STATUS := Status(true, 0, NEW_BOOK)

  ghost predicate GoodBook(b: Book) {
    && Trimmed(b.pending) && Sounds(b.emitted) && Sounds(b.buffer)
    && (b.pending != "" ==> !b.hasDelta && b.emitted == "" && b.buffer == "")
  }

  ghost predicate PlainBook(b: Book) {
    Plain(b.emitted) && Plain(b.buffer) && Plain(b.pending)
  }

  /** All words taken in so far, delivered or not. */
  function Total(b: Book): string {
    Words(b.emitted) + Words(b.buffer) + Words(b.pending)
  }

  /** The length that decides which of two held-back contents is the longer: bytes of UTF-8. */
  function Size(text: string): nat {
    ByteLength(CanonicalKey(text))
  }

  predicate Longer(content: string, pending: string) {
    Size(content) >= Size(pending)
  }

  /** The total after a snapshot, which repeats the whole answer. */
  function AfterSnapshot(b: Book, content: string): string {
    if Normalize(content) == "" then Total(b)
    else if Key(Normalize(b.emitted)) <= Key(Normalize(content)) then Words(content)
    else Words(b.emitted) + Words(content)
  }

  /** The total after a content frame: a content that repeats what is known replaces it,
      any other is appended.  Against a held-back content the longer one wins. */
  function AfterContent(b: Book, content: string): string {
    var n := Key(Normalize(content));
    if Normalize(content) == "" then Total(b)
    else if b.pending == "" then
      if Key(Accounted(b.emitted, b.buffer)) <= n then Words(content) else Total(b) + Words(content)
    else
      var k := Key(Normalize(b.pending));
      if k != "" && n != "" && (k <= n || n <= k) then
        if Longer(content, b.pending) then Words(content) else Total(b)
      else Total(b) + Words(content)
  }

  function AfterFrame(b: Book, f: Frame): string {
    if f.snapshot then AfterSnapshot(b, f.content) else AfterContent(b, f.content)
  }

  /** The content held back after a content frame that is not final. */
  function ContentPending(b: Book, content: string): string {
    if Normalize(content) == "" then b.pending
    else if b.hasDelta || Accounted(b.emitted, b.buffer) != "" then ""
    else if b.pending == "" then Normalize(content)
    else if Related(b.pending, content) then if Longer(content, b.pending) then Normalize(content) else b.pending
    else ""
  }

  /** The content held back after a frame.  A final one hands it on, unless it is a snapshot
      without text. */
  function PendingAfter(b: Book, f: Frame): string {
    if f.snapshot then if Normalize(f.content) == "" then b.pending else ""
    else if IsDone(f) then "" else ContentPending(b, f.content)
  }

  /** Two contents one of whose keys begins the other's. */
  predicate Related(pending: string, content: string) {
    var k, n := Key(Normalize(pending)), Key(Normalize(content));
    k != "" && n != "" && (k <= n || n <= k)
  }

  /** What a frame calls for: the total of words, the content held back, whether the new
      content is plain, and whether it has any text. */
  datatype Effect = Effect(total: string, pending: string, plain: bool, text: bool)

  ghost function ContentEffect(b: Book, content: string, done: bool): Effect {
    Effect(AfterContent(b, content), if done then "" else ContentPending(b, content), Plain(content), Normalize(content) != "")
  }

  ghost function FrameEffect(b: Book, f: Frame): Effect {
    Effect(AfterFrame(b, f), PendingAfter(b, f), Plain(f.content), Normalize(f.content) != "")
  }

  /** A content frame brings nothing beyond what is delivered and buffered. */
  predicate NothingNew(b: Book, content: string) {
    Normalize(content) == "" || Key(Accounted(b.emitted, b.buffer)) == Key(Normalize(content))
  }

  /** The words of the sentences that the next cut takes out of the buffer. */
  function CutWords(buffer: string): string {
    Words(Closed(Normalize(TrimSpace(buffer))))
  }

  /** The words that a frame for device `to` loses: a test device gets new content only, so
      it loses the buffer when some comes, and otherwise the sentences cut from the buffer. */
  function Lost(b: Book, f: Frame, to: string): string {
    if !IsTestDevice(to) || f.snapshot then ""
    else if NothingNew(b, f.content) then CutWords(b.buffer)
    else Words(b.buffer)
  }

  function Heard(events: seq<Event>): string {
    if events == [] then "" else Heard(events[..|events| - 1]) + Words(events[|events| - 1].text)
  }

  lemma HeardSnoc(events: seq<Event>, e: Event)
    ensures Heard(events + [e]) == Heard(events) + Words(e.text)
  {
    assert (events + [e])[..|events|] == events;
  }

  lemma Units(s: string)
    ensures s + "" == s && "" + s == s
  {
  }

  lemma NoText(s: string)
    requires Normalize(s) == "" || TrimSpace(s) == ""
    ensures Words(s) == ""
  {
    WordsNormalize(s);
    WordsTrimSpace(s);
  }

  // ---------- Steps of a stream on its texts ----------

  lemma MarkWords(emitted: string, text: string)
    ensures var e := Normalize(emitted + Normalize(text));
            && Sounds(e) && Words(e) == Words(emitted) + Words(text)
            && (Plain(emitted) && Plain(text) ==> Plain(e))
  {
    NormalSounds(emitted + Normalize(text));
    WordsNormalize(text);
    WordsAppend(emitted, Normalize(text));
    WordsNormalize(emitted + Normalize(text));
    if Plain(emitted) && Plain(text) {
      PlainNormalize(text);
      PlainAppend(emitted, Normalize(text));
      PlainNormalize(emitted + Normalize(text));
    }
  }

  /** A content split after its known part. */
  lemma SplitContent(known: string, content: string, suffix: string)
    requires Key(Normalize(Normalize(content))) == Key(Normalize(known)) + Key(suffix)
    ensures Words(known) + Words(suffix) == Words(content)
    ensures Plain(known) && Plain(content) ==> Plain(suffix)
  {
    NormalizeIdempotent(content);
    WordsNormalize(known);
    WordsNormalize(content);
    KeySplit(Normalize(content), Normalize(known), suffix);
    if Plain(known) && Plain(content) {
      PlainNormalize(known);
      PlainNormalize(content);
    }
  }

  lemma NeverPunctuationOnly(text: string)
    ensures !IsPunctuationOnly(text)
  {
    NormalizeIsNormal(text);
    var t := Normalize(text);
    if t != "" { assert Keeps(Start, t[0]); }
  }

  // ---------- The stream ----------

  /** What a content that meets one held back hands on. */
  function Met(pending: string, content: string, done: bool): string {
    if Related(pending, content) then
      if !done then "" else if Longer(content, pending) then Normalize(content) else pending
    else Normalize(pending + Normalize(content))
  }

  /** The part of a content that is new after what is known of it: its end behind the known key, or all of it. */
  ghost predicate NewEnd(content: string, known: string, part: string) {
    var n := Normalize(content);
    if Key(known) != "" && Key(known) <= Key(n) then CutFrom(n, part) && Key(n) == Key(known) + Key(part)
    else Key(known) != "" || known == "" ==> part == n
  }

  /** What a content frame hands on. */
  ghost predicate Increment(b: Book, content: string, done: bool, part: string) {
    if Normalize(content) == "" then part == if done && !b.hasDelta then b.pending else ""
    else if b.hasDelta || Accounted(b.emitted, b.buffer) != "" then NewEnd(content, Accounted(b.emitted, b.buffer), part)
    else if b.pending == "" then part == if done then Normalize(content) else ""
    else part == Met(b.pending, content, done)
  }

  /** The buffer after a snapshot: what it adds to the text delivered, or what it was if the snapshot has no text. */
  ghost predicate Refreshed(b: Book, content: string, buffer: string) {
    if Normalize(content) == "" then buffer == b.buffer
    else exists part :: NewEnd(content, Normalize(b.emitted), part) && buffer == Normalize(part)
  }

  /** The texts of the events of a frame for device `to`.  A content that handed on `part` sends the sentences of the
      buffer with that part, and at the end the rest; a test device gets the part itself.  A snapshot makes the
      buffer `part`, which is sent at the end. */
  ghost predicate TextsSent(b: Book, f: Frame, to: string, part: string, events: seq<Event>, b': Book) {
    if f.snapshot then
      && Refreshed(b, f.content, part)
      && if IsDone(f) then Texts(events) == [TrimSpace(part)] else events == [] && b'.buffer == part
    else
      var (ss, rest) := CutBuffer(Refill(b.buffer, part));
      && Increment(b, f.content, IsDone(f), part)
      && if IsTestDevice(to) then Texts(events) == (if part != "" then [part] else if IsDone(f) then [TrimSpace(rest)] else [])
         else Texts(events) == (if IsDone(f) then ss + [TrimSpace(rest)] else ss) && (!IsDone(f) ==> b'.buffer == rest)
  }

  /** A frame handed on `part`, with which the buffer was cut into sentences and its rest, or refreshed the buffer. */
  ghost predicate HandedOn(b: Book, f: Frame, part: string, ss: seq<string>, mid: Book) {
    if f.snapshot then part == "" && ss == [] && Refreshed(b, f.content, mid.buffer)
    else Increment(b, f.content, IsDone(f), part) && (ss, mid.buffer) == CutBuffer(Refill(b.buffer, part))
  }

  /** What a frame is said to have handed on: of a snapshot the buffer. */
  function Given(f: Frame, part: string, mid: Book): string {
    if f.snapshot then mid.buffer else part
  }

  lemma TestTexts(b: Book, f: Frame, to: string, part: string, ss: seq<string>, mid: Book, events: seq<Event>, b': Book)
    requires IsTestDevice(to) && HandedOn(b, f, part, ss, mid)
    requires Texts(events) == if part != "" then [part] else if IsDone(f) then [TrimSpace(mid.buffer)] else []
    requires f.snapshot && !IsDone(f) ==> b' == mid
    ensures TextsSent(b, f, to, Given(f, part, mid), events, b')
  {
    assert |Texts(events)| == |events|;
  }

  lemma OrdinaryTexts(b: Book, f: Frame, to: string, part: string, ss: seq<string>, mid: Book, events: seq<Event>, b': Book)
    requires !IsTestDevice(to) && HandedOn(b, f, part, ss, mid)
    requires Texts(events) == (if IsDone(f) then ss + [TrimSpace(mid.buffer)] else ss) && (!IsDone(f) ==> b'.buffer == mid.buffer)
    ensures TextsSent(b, f, to, Given(f, part, mid), events, b')
  {
    assert |Texts(events)| == |events|;
    if f.snapshot { assert [] + [TrimSpace(mid.buffer)] == [TrimSpace(mid.buffer)]; }
  }

  method NewPart(ghost content: string, normalizedContent: string, known: string) returns (part: string)
    requires normalizedContent == Normalize(content) && known == Normalize(known)
    ensures Trimmed(part)
    ensures Words(known) + Words(part)
         == if Key(known) <= Key(normalizedContent) then Words(content) else Words(known) + Words(content)
    ensures Plain(known) && Plain(content) ==> Plain(part)
    ensures known == "" ==> part == normalizedContent
    ensures Key(known) != "" && normalizedContent != "" ==> (part == "" <==> Key(known) == Key(normalizedContent))
    ensures normalizedContent != "" ==> NewEnd(content, known, part)
  {
    part := normalizedContent;
    NormalizeIsNormal(content);
    NormalizeIdempotent(content);
    WordsNormalize(content);
    if Plain(content) { PlainNormalize(content); }
    if known != "" {
      var suffix, ok := TrimCanonicalPrefix(normalizedContent, known);
      if ok {
        SplitContent(known, content, suffix);
        part := suffix;
      }
    } else {
      Units(Words(content));
    }
  }

  class ResponseStream {
    var device: string
    var buffer: string
    var emittedText: string
    var pendingText: string
    var hasDelta: bool
    var isFirst: bool
    var lastSeq: int

    ghost function View(): Book
      reads this
    {
      Book(emittedText, buffer, pendingText, hasDelta)
    }

    ghost function Now(): Status
      reads this
    {
      Status(isFirst, lastSeq, View())
    }

    ghost predicate Valid()
      reads this
    {
      GoodBook(View()) && lastSeq >= 0
    }

    constructor ()
      ensures Valid() && Now() == NEW_STATUS && device == ""
    {
      device, buffer, emittedText, pendingText := "", "", "", "";
      hasDelta, isFirst, lastSeq := false, true, 0;
    }

    method AccountedText() returns (text: string)
      ensures text == Accounted(emittedText, buffer)
    {
      text := NormalizeSpeechText(TrimSpace(emittedText) + TrimSpace(buffer));
    }

    method MarkEmitted(text: string)
      requires Sounds(emittedText)
      modifies this`emittedText
      ensures Sounds(emittedText) && Words(emittedText) == old(Words(emittedText)) + Words(text)
      ensures old(Plain(emittedText)) && Plain(text) ==> Plain(emittedText)
    {
      var normalized := NormalizeSpeechText(text);
      if normalized == "" {
        NoText(text);
        Units(Words(emittedText));
        return;
      }
      MarkWords(emittedText, text);
      emittedText := NormalizeSpeechText(emittedText + normalized);
    }

    /** applySnapshotContent: the buffer becomes what the snapshot adds to the text emitted. */
    method ApplySnapshotContent(content: string)
      requires GoodBook(View())
      modifies this`pendingText, this`buffer
      ensures Snapped(old(View()), content, View())
      ensures Replaced(old(View()), content, View()) && Refreshed(old(View()), content, buffer)
    {
      var normalizedContent := NormalizeSpeechText(content);
      if normalizedContent == "" {
        SnapBlank(View(), content);
        return;
      }
      ghost var book := View();
      pendingText := "";
      var emitted := NormalizeSpeechText(emittedText);
      NormalizeIdempotent(emittedText);
      var snapshotBuffer := NewPart(content, normalizedContent, emitted);
      SnapPart(book, content, snapshotBuffer);
      NormalizeIdempotent(content);
      assert NewEnd(content, Normalize(book.emitted), snapshotBuffer);
      buffer := NormalizeSpeechText(snapshotBuffer);
    }

    /** A content frame after deltas have begun, or with something buffered. */
    method Delta(ghost content: string, normalizedContent: string, ghost done: bool) returns (delta: string)
      requires GoodBook(View()) && pendingText == "" && normalizedContent == Normalize(content) != ""
      requires hasDelta || Accounted(emittedText, buffer) != ""
      ensures Taken(View(), ContentEffect(View(), content, done), done, delta, View().(hasDelta := true))
      ensures HandsOn(View(), content, delta) && Increment(View(), content, done, delta)
    {
      var accounted := AccountedText();
      NormalizeIdempotent(TrimSpace(emittedText) + TrimSpace(buffer));
      delta := NewPart(content, normalizedContent, accounted);
      DeltaTaken(View(), content, done, delta);
      DeltaHandsOn(View(), content, delta);
    }

    /** The held-back content is handed on when the stream is done. */
    method TakePending(streamDone: bool) returns (text: string)
      modifies this`pendingText
      ensures if streamDone then text == old(pendingText) && pendingText == ""
              else text == "" && pendingText == old(pendingText)
    {
      if !streamDone { return ""; }
      text := pendingText;
      pendingText := "";
    }

    /** toIncrementalContent: the part of a content frame that is new. */
    method ToIncrementalContent(content: string, streamDone: bool) returns (text: string)
      requires GoodBook(View())
      modifies this`pendingText, this`hasDelta
      ensures Taken(old(View()), ContentEffect(old(View()), content, streamDone), streamDone, text, View())
      ensures HandsOn(old(View()), content, text) && Increment(old(View()), content, streamDone, text)
    {
      var normalizedContent := NormalizeSpeechText(content);
      if normalizedContent == "" {
        text := BlankContent(content, streamDone);
        return;
      }
      if hasDelta {
        text := Delta(content, normalizedContent, streamDone);
        return;
      }
      var accounted := AccountedText();
      if accounted != "" {
        NothingBooked(View());
        text := Delta(content, normalizedContent, streamDone);
        hasDelta := true;
        return;
      }
      text := FirstContent(content, normalizedContent, streamDone);
    }

    method BlankContent(ghost content: string, streamDone: bool) returns (text: string)
      requires GoodBook(View()) && Normalize(content) == ""
      modifies this`pendingText
      ensures Taken(old(View()), ContentEffect(old(View()), content, streamDone), streamDone, text, View())
      ensures HandsOn(old(View()), content, text) && Increment(old(View()), content, streamDone, text)
    {
      BlankTaken(View(), content, streamDone);
      BlankHandsOn(View(), content);
      if streamDone && !hasDelta && pendingText != "" {
        text := TakePending(true);
        return;
      }
      text := "";
    }

    /** A content frame when nothing has been accounted for yet. */
    method FirstContent(ghost content: string, normalizedContent: string, streamDone: bool) returns (text: string)
      requires GoodBook(View()) && !hasDelta && Accounted(emittedText, buffer) == "" && normalizedContent == Normalize(content) != ""
      modifies this`pendingText, this`hasDelta
      ensures Taken(old(View()), ContentEffect(old(View()), content, streamDone), streamDone, text, View())
      ensures HandsOn(old(View()), content, text) && Increment(old(View()), content, streamDone, text)
    {
      NothingAccounted(emittedText, buffer);
      EmptyHandsOn(View(), content);
      if pendingText == "" {
        text := HoldFirst(content, normalizedContent, streamDone);
      } else {
        text := MeetPending(content, normalizedContent, streamDone);
      }
    }

    method HoldFirst(ghost content: string, normalizedContent: string, streamDone: bool) returns (text: string)
      requires GoodBook(View()) && emittedText == "" && buffer == "" && pendingText == "" && !hasDelta
      requires normalizedContent == Normalize(content) != ""
      modifies this`pendingText
      ensures Taken(old(View()), ContentEffect(old(View()), content, streamDone), streamDone, text, View())
      ensures text == if streamDone then normalizedContent else ""
    {
      ghost var book := View();
      FirstTaken(book, content, streamDone);
      pendingText := normalizedContent;
      text := TakePending(streamDone);
      assert View() == if streamDone then book else book.(pending := normalizedContent);
    }

    /** A content frame while another content is held back. */
    method MeetPending(ghost content: string, normalizedContent: string, streamDone: bool) returns (text: string)
      requires GoodBook(View()) && pendingText != "" && normalizedContent == Normalize(content) != ""
      modifies this`pendingText, this`hasDelta
      ensures Taken(old(View()), ContentEffect(old(View()), content, streamDone), streamDone, text, View())
      ensures text == Met(old(pendingText), content, streamDone)
    {
      var growth := IsCanonicalGrowth(pendingText, normalizedContent);
      MeetTaken(View(), content, streamDone);
      if growth {
        if Longer(normalizedContent, pendingText) {
          pendingText := normalizedContent;
        }
        text := TakePending(streamDone);
        return;
      }
      NeverPunctuationOnly(normalizedContent);
      if IsPunctuationOnly(normalizedContent) {
        assert false;
      }
      text := NormalizeSpeechText(pendingText + normalizedContent);
      hasDelta := true;
      pendingText := "";
    }

    /** The content of a frame enters the buffer; sentences leave it.  A snapshot
        only replaces the buffer. */
    method TakeContent(f: Frame) returns (incremental: string, sentences: seq<string>)
      requires GoodBook(View())
      modifies this`pendingText, this`hasDelta, this`buffer
      ensures Absorbed(old(View()), f, FrameEffect(old(View()), f), incremental, sentences, View())
      ensures f.snapshot ==> Replaced(old(View()), f.content, View())
      ensures !f.snapshot ==> CutsFrom(old(View()), f.content, incremental, sentences)
      ensures HandedOn(old(View()), f, incremental, sentences, View())
    {
      if f.snapshot {
        ghost var book := View();
        ApplySnapshotContent(f.content);
        AbsorbSnapshot(book, f, View());
        incremental, sentences := "", [];
      } else {
        incremental, sentences := TakeDelta(f);
      }
    }

    method TakeDelta(f: Frame) returns (incremental: string, sentences: seq<string>)
      requires GoodBook(View()) && !f.snapshot
      modifies this`pendingText, this`hasDelta, this`buffer
      ensures Absorbed(old(View()), f, FrameEffect(old(View()), f), incremental, sentences, View())
      ensures CutsFrom(old(View()), f.content, incremental, sentences)
      ensures HandedOn(old(View()), f, incremental, sentences, View())
    {
      ghost var book := View();
      incremental := ToIncrementalContent(f.content, IsDone(f));
      ghost var mid := View();
      var refilled := RefillBuffer(incremental);
      sentences, buffer := ExtractBuffered(refilled);
      DeltaAbsorbed(book, f, incremental, mid, sentences, buffer);
    }

    method RefillBuffer(incremental: string) returns (refilled: string)
      ensures refilled == Refill(buffer, incremental)
    {
      refilled := buffer;
      if incremental != "" {
        refilled := NormalizeSpeechText(buffer + incremental);
      }
    }

    /** A test device gets the new content as it is, and the rest at the end. */
    method EmitForTest(to: string, incremental: string, streamDone: bool) returns (events: seq<Event>)
      requires Sounds(emittedText) && Trimmed(incremental)
      modifies this`emittedText, this`isFirst, this`buffer
      ensures Bracketed(events, old(isFirst), streamDone) && SentTo(events, to)
      ensures !streamDone ==> isFirst == (old(isFirst) && events == [])
      ensures TestSent(old(View()), incremental, streamDone, events, View())
      ensures Texts(events) == if incremental != "" then [incremental] else if streamDone then [TrimSpace(old(buffer))] else []
    {
      events := [];
      Units(Words(emittedText));
      assert Texts(events) == [];
      if incremental != "" {
        events := EmitOne(to, incremental, streamDone);
        buffer := "";
      } else if streamDone {
        events := EmitFinal(to);
      }
    }

    /** One event, noted as delivered. */
    method EmitOne(to: string, text: string, isEnd: bool) returns (events: seq<Event>)
      requires Sounds(emittedText) && Spoken(text)
      modifies this`emittedText, this`isFirst
      ensures |events| == 1 && events[0].isStart == old(isFirst) && events[0].isEnd == isEnd && !isFirst && SentTo(events, to)
      ensures Delivered(old(View()), events, View()) && Heard(events) == Words(text) && Texts(events) == [text]
      ensures old(Plain(emittedText)) && Plain(text) ==> Plain(emittedText)
    {
      EmitSpoken(to, text, isFirst, isEnd);
      TrimSpaceResult(text);
      events := Emit(to, text, isFirst, isEnd);
      HeardOne(events[0]);
      WordsTrimSpace(text);
      MarkEmitted(text);
      isFirst := false;
    }

    /** The next sentence goes out and is noted. */
    method SaySentence(to: string, ss: seq<string>, i: nat, said: seq<Event>, first: bool, ghost emitted: string)
      returns (events: seq<Event>)
      requires AllSpoken(ss) && |said| == i < |ss|
      requires Bracketed(said, first, false) && SaidUpTo(emitted, ss, i, said, emittedText) && SentTo(said, to)
      modifies this`emittedText
      ensures |events| == i + 1 && SentTo(events, to) && Texts(events) == Texts(said) + [ss[i]]
      ensures Bracketed(events, first, false) && SaidUpTo(emitted, ss, i + 1, events, emittedText)
    {
      EmitSpoken(to, ss[i], first && i == 0, false);
      TrimSpaceResult(ss[i]);
      var event := Emit(to, ss[i], first && i == 0, false)[0];
      ghost var before := emittedText;
      MarkEmitted(ss[i]);
      SaidNext(emitted, ss, i, said, before, event, emittedText);
      NextSaid(said, event, to, first);
      events := said + [event];
    }

    method EmitSentences(to: string, sentences: seq<string>) returns (events: seq<Event>)
      requires Sounds(emittedText) && AllSpoken(sentences)
      modifies this`emittedText, this`isFirst
      ensures |events| == |sentences| && Bracketed(events, old(isFirst), false) && SentTo(events, to) && Texts(events) == sentences
      ensures isFirst == (old(isFirst) && events == [])
      ensures SaidUpTo(old(emittedText), sentences, |sentences|, events, emittedText)
    {
      events := [];
      Units(Words(emittedText));
      for i := 0 to |sentences|
        invariant |events| == i && isFirst == old(isFirst) && Bracketed(events, isFirst, false) && SentTo(events, to)
        invariant SaidUpTo(old(emittedText), sentences, i, events, emittedText) && Texts(events) == sentences[..i]
      {
        PrefixNext(sentences, i);
        events := SaySentence(to, sentences, i, events, isFirst, old(emittedText));
      }
      assert sentences[..|sentences|] == sentences;
      if |sentences| > 0 { isFirst := false; }
    }

    method EmitFinal(to: string) returns (events: seq<Event>)
      requires Sounds(emittedText)
      modifies this`emittedText, this`isFirst, this`buffer
      ensures Emptied(old(View()), events, View())
      ensures events[0].isStart == old(isFirst) && events[0].isEnd && SentTo(events, to)
      ensures Texts(events) == [TrimSpace(old(buffer))]
    {
      var finalText := TrimSpace(buffer);
      TrimSpaceResult(buffer);
      WordsTrimSpace(buffer);
      if finalText != "" {
        if Plain(buffer) { PlainTrimSpace(buffer); }
        events := EmitOne(to, finalText, true);
        buffer := "";
      } else {
        EmitSpoken(to, "", isFirst, true);
        TrimSpaceResult("");
        events := Emit(to, "", isFirst, true);
        HeardOne(events[0]);
        Units(Words(emittedText));
      }
    }

    /** HandleResponse from the sequence check on, for a routed frame. */
    method HandleFrame(f: Frame, to: string) returns (events: seq<Event>, accepted: bool, ghost part: string)
      requires Valid()
      modifies this
      ensures Valid() && Handled(old(Now()), f, to, events, accepted, Now())
      ensures accepted ==> TextsSent(old(View()), f, to, part, events, View())
      ensures device == if TrimSpace(old(device)) == "" then to else old(device)
    {
      NameDevice(to);
      events, accepted, part := TakeFrame(f, to);
    }

    method TakeFrame(f: Frame, to: string) returns (events: seq<Event>, accepted: bool, ghost part: string)
      requires Valid()
      modifies this`pendingText, this`hasDelta, this`buffer, this`emittedText, this`isFirst, this`lastSeq
      ensures Valid() && Handled(old(Now()), f, to, events, accepted, Now())
      ensures accepted ==> TextsSent(old(View()), f, to, part, events, View())
    {
      ghost var book, first := View(), isFirst;
      accepted := TakeNumber(f);
      assert View() == book && isFirst == first;
      if !accepted {
        StaleHandled(Status(first, lastSeq, book), f, to);
        return [], false, "";
      }
      events, part := Dispatch(f, to);
      FreshHandled(Status(first, old(lastSeq), book), f, to, events, Now());
    }

    method NameDevice(to: string)
      modifies this`device
      ensures device == if TrimSpace(old(device)) == "" then to else old(device)
    {
      if TrimSpace(device) == "" { device := to; }
    }

    /** A positive number must exceed the last one. */
    method TakeNumber(f: Frame) returns (accepted: bool)
      modifies this`lastSeq
      ensures accepted <==> InSequence(old(lastSeq), f)
      ensures lastSeq == if accepted && f.seqNo > 0 then f.seqNo else old(lastSeq)
    {
      if f.seqNo > 0 {
        if lastSeq > 0 && f.seqNo <= lastSeq { return false; }
        lastSeq := f.seqNo;
      }
      accepted := true;
    }

    method Dispatch(f: Frame, to: string) returns (events: seq<Event>, ghost part: string)
      requires GoodBook(View())
      modifies this`pendingText, this`hasDelta, this`buffer, this`emittedText, this`isFirst
      ensures GoodBook(View())
      ensures Bracketed(events, old(isFirst), IsDone(f)) && SentTo(events, to)
      ensures !IsDone(f) ==> isFirst == (old(isFirst) && events == [])
      ensures Outcome(old(View()), f, to, events, View())
      ensures TextsSent(old(View()), f, to, part, events, View())
    {
      ghost var book := View();
      var incremental, sentences := TakeContent(f);
      part := Given(f, incremental, View());
      if IsTestDevice(to) {
        events := SendTest(book, f, incremental, sentences, to);
      } else {
        events := Send(book, f, incremental, sentences, to);
      }
    }

    method SendTest(ghost book: Book, f: Frame, incremental: string, ghost sentences: seq<string>, to: string)
      returns (events: seq<Event>)
      requires IsTestDevice(to) && Absorbed(book, f, FrameEffect(book, f), incremental, sentences, View())
      requires if f.snapshot then Replaced(book, f.content, View()) else CutsFrom(book, f.content, incremental, sentences)
      modifies this`emittedText, this`isFirst, this`buffer
      ensures GoodBook(View()) && Outcome(book, f, to, events, View())
      ensures Bracketed(events, old(isFirst), IsDone(f)) && SentTo(events, to)
      ensures !IsDone(f) ==> isFirst == (old(isFirst) && events == [])
      requires HandedOn(book, f, incremental, sentences, View())
      ensures TextsSent(book, f, to, Given(f, incremental, old(View())), events, View())
    {
      ghost var mid := View();
      events := EmitForTest(to, incremental, IsDone(f));
      HeedTest(book, f, to, incremental, sentences, mid, events, View());
      TestTexts(book, f, to, incremental, sentences, mid, events, View());
    }

    /** The sentences, and at the end the rest. */
    method Send(ghost book: Book, f: Frame, ghost incremental: string, sentences: seq<string>, to: string)
      returns (events: seq<Event>)
      requires !IsTestDevice(to) && Absorbed(book, f, FrameEffect(book, f), incremental, sentences, View())
      requires f.snapshot ==> Replaced(book, f.content, View())
      modifies this`emittedText, this`isFirst, this`buffer
      ensures GoodBook(View()) && Outcome(book, f, to, events, View())
      ensures Bracketed(events, old(isFirst), IsDone(f)) && SentTo(events, to)
      ensures !IsDone(f) ==> isFirst == (old(isFirst) && events == [])
      requires HandedOn(book, f, incremental, sentences, View())
      ensures TextsSent(book, f, to, Given(f, incremental, old(View())), events, View())
    {
      ghost var mid := View();
      events := EmitSentences(to, sentences);
      ghost var said := View();
      HeedSentences(book, f, FrameEffect(book, f), incremental, sentences, mid, events, said);
      if !IsDone(f) {
        OrdinaryOutcome(book, f, to, events, said);
        OrdinaryTexts(book, f, to, incremental, sentences, mid, events, said);
        return;
      }
      events := SendRest(book, FrameEffect(book, f), events, old(isFirst), to);
      OrdinaryOutcome(book, f, to, events, View());
      OrdinaryTexts(book, f, to, incremental, sentences, mid, events, View());
    }

    /** The rest of the buffer, with the end of the answer. */
    method SendRest(ghost book: Book, ghost e: Effect, said: seq<Event>, ghost first: bool, to: string) returns (events: seq<Event>)
      requires GoodBook(View()) && Follow(book, e, false, said, View())
      requires Bracketed(said, first, false) && SentTo(said, to) && isFirst == (first && said == [])
      modifies this`emittedText, this`isFirst, this`buffer
      ensures GoodBook(View()) && Follow(book, e, true, events, View())
      ensures Bracketed(events, first, true) && SentTo(events, to) && Texts(events) == Texts(said) + [TrimSpace(old(buffer))]
    {
      ghost var before := View();
      var final := EmitFinal(to);
      HeedFinal(book, e, said, before, final, View());
      BracketedEnd(said, final, first);
      TextsAppend(said, final);
      events := said + final;
    }
  }

  // ---------- What the branches do to the texts ----------

  /** A snapshot took the texts from `b` to `b'`. */
  ghost predicate Snapped(b: Book, content: string, b': Book) {
    && GoodBook(b') && b'.emitted == b.emitted
    && Total(b') == AfterSnapshot(b, content)
    && (PlainBook(b) && Plain(content) ==> PlainBook(b'))
    && b'.pending == (if Normalize(content) == "" then b.pending else "") && b'.hasDelta == b.hasDelta
  }

  /** The first text of an answer that comes as a snapshot is the buffer. */
  ghost predicate Replaced(b: Book, content: string, b': Book) {
    b.emitted == "" && Normalize(content) != "" ==> b'.buffer == Normalize(content)
  }

  /** With words in the buffer, nothing is handed on exactly when nothing is new. */
  ghost predicate HandsOn(b: Book, content: string, text: string) {
    Words(b.buffer) != "" ==> (text == "" <==> NothingNew(b, content))
  }

  lemma BlankHandsOn(b: Book, content: string)
    requires GoodBook(b) && Normalize(content) == ""
    ensures HandsOn(b, content, "") && (b.pending != "" ==> HandsOn(b, content, b.pending))
  {
    if b.pending != "" { EmptyHandsOn(b, content); }
  }

  lemma EmptyHandsOn(b: Book, content: string)
    requires b.buffer == ""
    ensures forall text :: HandsOn(b, content, text)
  {
  }

  lemma DeltaHandsOn(b: Book, content: string, delta: string)
    requires Normalize(content) != ""
    requires var known := Accounted(b.emitted, b.buffer);
             Key(known) != "" ==> (delta == "" <==> Key(known) == Key(Normalize(content)))
    ensures HandsOn(b, content, delta)
  {
    var known := Accounted(b.emitted, b.buffer);
    AccountedWords(b.emitted, b.buffer);
    WordsOfKey(known);
  }

  /** A content frame took the texts from `b` to `b'` as `e` says and handed on `text`. */
  ghost predicate Taken(b: Book, e: Effect, done: bool, text: string, b': Book) {
    && GoodBook(b') && b'.emitted == b.emitted && b'.buffer == b.buffer
    && Trimmed(text) && (text != "" || done ==> b'.pending == "")
    && Words(b.emitted) + Words(b.buffer) + (Words(text) + Words(b'.pending)) == e.total
    && (PlainBook(b) && e.plain ==> Plain(text) && Plain(b'.pending))
    && b'.pending == e.pending
    && (b'.hasDelta ==> b.hasDelta || e.text)
  }

  lemma SnapBlank(b: Book, content: string)
    requires GoodBook(b) && Normalize(content) == ""
    ensures Snapped(b, content, b)
  {
  }

  lemma SnapPart(b: Book, content: string, part: string)
    requires GoodBook(b) && Normalize(content) != ""
    requires var known := Normalize(b.emitted);
             && (Plain(known) && Plain(content) ==> Plain(part))
             && Words(known) + Words(part)
                == if Key(known) <= Key(Normalize(content)) then Words(content) else Words(known) + Words(content)
    ensures Snapped(b, content, b.(buffer := Normalize(part), pending := ""))
  {
    SnapTotal(b, content, part);
    NormalSounds(part);
    if PlainBook(b) && Plain(content) {
      PlainNormalize(b.emitted);
      PlainNormalize(part);
    }
  }

  lemma SnapTotal(b: Book, content: string, part: string)
    requires Normalize(content) != ""
    requires var known := Normalize(b.emitted);
             Words(known) + Words(part)
             == if Key(known) <= Key(Normalize(content)) then Words(content) else Words(known) + Words(content)
    ensures Total(b.(buffer := Normalize(part), pending := "")) == AfterSnapshot(b, content)
  {
    WordsNormalize(b.emitted);
    WordsNormalize(part);
    Units(Words(b.emitted) + Words(part));
  }

  lemma BlankTaken(b: Book, content: string, done: bool)
    requires GoodBook(b) && Normalize(content) == ""
    ensures var e := ContentEffect(b, content, done);
            if done && !b.hasDelta && b.pending != "" then Taken(b, e, done, b.pending, b.(pending := ""))
            else Taken(b, e, done, "", b)
  {
    Units(Words(b.pending));
    assert Words("") == "";
  }

  lemma DeltaTaken(b: Book, content: string, done: bool, delta: string)
    requires GoodBook(b) && b.pending == "" && Normalize(content) != "" && Trimmed(delta)
    requires b.hasDelta || Accounted(b.emitted, b.buffer) != ""
    requires var known := Accounted(b.emitted, b.buffer);
             && (Plain(known) && Plain(content) ==> Plain(delta))
             && Words(known) + Words(delta)
                == if Key(known) <= Key(Normalize(content)) then Words(content) else Words(known) + Words(content)
    ensures Taken(b, ContentEffect(b, content, done), done, delta, b.(hasDelta := true))
  {
    DeltaTotal(b, content, delta);
    AccountedWords(b.emitted, b.buffer);
    DeltaBook(b, ContentEffect(b, content, done), done, delta);
  }

  lemma DeltaBook(b: Book, e: Effect, done: bool, delta: string)
    requires GoodBook(b) && b.pending == "" && Trimmed(delta) && e.pending == "" && e.text
    requires Words(b.emitted) + Words(b.buffer) + (Words(delta) + Words("")) == e.total
    requires PlainBook(b) && e.plain ==> Plain(delta)
    ensures Taken(b, e, done, delta, b.(hasDelta := true))
  {
  }

  lemma DeltaTotal(b: Book, content: string, delta: string)
    requires b.pending == "" && Normalize(content) != ""
    requires var known := Accounted(b.emitted, b.buffer);
             Words(known) + Words(delta)
             == if Key(known) <= Key(Normalize(content)) then Words(content) else Words(known) + Words(content)
    ensures Words(b.emitted) + Words(b.buffer) + (Words(delta) + Words("")) == AfterContent(b, content)
  {
    AccountedWords(b.emitted, b.buffer);
    Units(Words(b.emitted) + Words(b.buffer));
    Units(Words(delta));
  }

  /** A content `c` is held back, or handed on at once when the stream is done. */
  lemma HoldTaken(b: Book, e: Effect, done: bool, c: string)
    requires GoodBook(b) && b.emitted == "" && b.buffer == "" && !b.hasDelta && Trimmed(c)
    requires e.total == Words(c) && e.pending == (if done then "" else c) && (PlainBook(b) && e.plain ==> Plain(c))
    ensures if done then Taken(b, e, done, c, b.(pending := "")) else Taken(b, e, done, "", b.(pending := c))
  {
    Units(Words(c));
    assert Words("") == "" && Plain("");
  }

  /** The first content is held back, or handed on at once when it is the last. */
  lemma FirstTaken(b: Book, content: string, done: bool)
    requires GoodBook(b) && b.emitted == "" && b.buffer == "" && b.pending == "" && !b.hasDelta && Normalize(content) != ""
    ensures var c, e := Normalize(content), ContentEffect(b, content, done);
            if done then Taken(b, e, done, c, b) else Taken(b, e, done, "", b.(pending := c))
  {
    NothingHeld();
    HeldBack(content);
    HoldTaken(b, ContentEffect(b, content, done), done, Normalize(content));
  }

  lemma NothingHeld()
    ensures Words("") == "" && Normalize("") == "" && Accounted("", "") == ""
  {
  }

  lemma NothingBooked(b: Book)
    requires GoodBook(b) && Accounted(b.emitted, b.buffer) != ""
    ensures b.pending == ""
  {
    if b.pending != "" { NothingHeld(); }
  }

  lemma HeldBack(content: string)
    ensures Normalize(Normalize(content)) == Normalize(content) && Words(Normalize(content)) == Words(content)
    ensures Trimmed(Normalize(content))
    ensures Plain(content) ==> Plain(Normalize(content))
  {
    NormalizeIdempotent(content);
    NormalizeIsNormal(content);
    WordsNormalize(content);
    if Plain(content) { PlainNormalize(content); }
  }

  lemma Combined(pending: string, content: string)
    ensures Words(Normalize(pending + Normalize(content))) == Words(pending) + Words(content)
    ensures Plain(pending) && Plain(content) ==> Plain(Normalize(pending + Normalize(content)))
    ensures Trimmed(Normalize(pending + Normalize(content)))
  {
    MarkWords(pending, content);
    NormalizeIsNormal(pending + Normalize(content));
  }

  /** A content meets one held back: of related ones the longer is kept, others are joined. */
  lemma MeetTaken(b: Book, content: string, done: bool)
    requires GoodBook(b) && b.pending != "" && Normalize(content) != ""
    ensures Related(b.pending, Normalize(content)) <==> Related(b.pending, content)
    ensures Longer(Normalize(content), b.pending) <==> Longer(content, b.pending)
    ensures var e := ContentEffect(b, content, done);
            if Related(b.pending, content) then
              var kept := if Longer(content, b.pending) then Normalize(content) else b.pending;
              if done then Taken(b, e, done, kept, b.(pending := "")) else Taken(b, e, done, "", b.(pending := kept))
            else Taken(b, e, done, Normalize(b.pending + Normalize(content)), b.(pending := "", hasDelta := true))
  {
    HeldBack(content);
    if Related(b.pending, content) {
      KeepLonger(b, content, done);
    } else {
      JoinTaken(b, content, done);
    }
  }

  lemma KeepLonger(b: Book, content: string, done: bool)
    requires GoodBook(b) && b.pending != "" && Normalize(content) != "" && Related(b.pending, content)
    ensures var kept, e := if Longer(content, b.pending) then Normalize(content) else b.pending, ContentEffect(b, content, done);
            if done then Taken(b, e, done, kept, b.(pending := "")) else Taken(b, e, done, "", b.(pending := kept))
  {
    MeetEffect(b, content, done);
    HeldBack(content);
    HoldTaken(b, ContentEffect(b, content, done), done, if Longer(content, b.pending) then Normalize(content) else b.pending);
  }

  /** What a content that meets one held back calls for. */
  lemma MeetEffect(b: Book, content: string, done: bool)
    requires GoodBook(b) && b.pending != "" && Normalize(content) != ""
    ensures var kept, e := if Longer(content, b.pending) then Normalize(content) else b.pending, ContentEffect(b, content, done);
            if Related(b.pending, content) then e.total == Words(kept) && e.pending == (if done then "" else kept)
            else e.total == Words(b.pending) + Words(content) && e.pending == ""
  {
    NothingHeld();
    MeetTotal(b, content);
    MeetHeld(b, content);
  }

  lemma MeetTotal(b: Book, content: string)
    requires b.pending != "" && b.emitted == "" && b.buffer == "" && Normalize(content) != ""
    ensures AfterContent(b, content)
         == if !Related(b.pending, content) then Words(b.pending) + Words(content)
            else if Longer(content, b.pending) then Words(Normalize(content)) else Words(b.pending)
  {
    WordsNormalize(content);
    Units(Words(b.pending));
  }

  lemma MeetHeld(b: Book, content: string)
    requires b.pending != "" && !b.hasDelta && Accounted(b.emitted, b.buffer) == "" && Normalize(content) != ""
    ensures ContentPending(b, content)
         == if !Related(b.pending, content) then "" else if Longer(content, b.pending) then Normalize(content) else b.pending
  {
  }

  lemma JoinTaken(b: Book, content: string, done: bool)
    requires GoodBook(b) && b.pending != "" && Normalize(content) != "" && !Related(b.pending, content)
    ensures Taken(b, ContentEffect(b, content, done), done, Normalize(b.pending + Normalize(content)), b.(pending := "", hasDelta := true))
  {
    MeetEffect(b, content, done);
    Combined(b.pending, content);
    JoinBook(b, ContentEffect(b, content, done), done, Normalize(b.pending + Normalize(content)));
  }

  lemma JoinBook(b: Book, e: Effect, done: bool, joined: string)
    requires GoodBook(b) && b.pending != "" && Trimmed(joined)
    requires e.total == Words(joined) && e.pending == "" && e.text && (PlainBook(b) && e.plain ==> Plain(joined))
    ensures Taken(b, e, done, joined, b.(pending := "", hasDelta := true))
  {
    Units(Words(joined));
    assert Words("") == "" && Plain("");
  }

  // ---------- What a frame does to the texts ----------

  /** The buffer was cut into sentences and a rest. */
  ghost predicate Extracted(buffer: string, sentences: seq<string>, remaining: string) {
    && AllSpoken(sentences) && Sounds(remaining) && (buffer == "" ==> sentences == [] && remaining == "")
    && Said(sentences) + Words(remaining) == Words(buffer)
    && (Plain(buffer) ==> AllPlain(sentences) && Plain(remaining))
  }

  function Refill(buffer: string, text: string): string {
    if text != "" then Normalize(buffer + text) else buffer
  }

  /** The sentences that a buffer holds, and its rest. */
  function CutBuffer(buffer: string): (seq<string>, string) {
    if TrimSpace(TrimSpace(buffer)) == "" then ([], "") else Cut(Normalize(TrimSpace(buffer)))
  }

  method ExtractBuffered(buffer: string) returns (sentences: seq<string>, remaining: string)
    ensures Extracted(buffer, sentences, remaining) && Said(sentences) == CutWords(buffer)
    ensures (sentences, remaining) == CutBuffer(buffer)
    ensures sentences == [] <==> !HasSeparator(Normalize(TrimSpace(buffer)))
  {
    var working := TrimSpace(buffer);
    WordsTrimSpace(buffer);
    if Plain(buffer) { PlainTrimSpace(buffer); }
    TrimSpaceResult(working);
    if TrimSpace(working) == "" {
      NoText(working);
      return [], "";
    }
    sentences, remaining := ExtractSentences(working);
  }

  /** What is handed on, and what is cut from the buffer when that is nothing. */
  ghost predicate CutsFrom(b: Book, content: string, incremental: string, sentences: seq<string>) {
    HandsOn(b, content, incremental) && (incremental == "" ==> Said(sentences) == CutWords(b.buffer))
  }

  /** The content of frame `f` took the texts from `b` to `b'`, with `sentences` on their way out. */
  ghost predicate Absorbed(b: Book, f: Frame, e: Effect, incremental: string, sentences: seq<string>, b': Book) {
    && GoodBook(b') && b'.emitted == b.emitted && AllSpoken(sentences) && Trimmed(incremental)
    && Words(b.emitted) + (Said(sentences) + Words(b'.buffer)) + Words(b'.pending) == e.total
    && (f.snapshot ==> sentences == [] && incremental == "")
    && (!f.snapshot ==> Said(sentences) + Words(b'.buffer) == Words(b.buffer) + Words(incremental))
    && (b'.pending != "" ==> sentences == [] && incremental == "" && b'.buffer == "")
    && (PlainBook(b) && e.plain ==> AllPlain(sentences) && Plain(incremental) && PlainBook(b'))
    && b'.pending == e.pending
    && (b'.hasDelta ==> b.hasDelta || e.text)
  }

  lemma AbsorbSnapshot(b: Book, f: Frame, b': Book)
    requires f.snapshot && Snapped(b, f.content, b')
    ensures Absorbed(b, f, FrameEffect(b, f), "", [], b')
  {
    NothingHeld();
    Units(Words(b'.buffer));
  }

  lemma AbsorbContent(b: Book, f: Frame, e: Effect, text: string, mid: Book, sentences: seq<string>, remaining: string)
    requires !f.snapshot && GoodBook(b) && Taken(b, e, IsDone(f), text, mid)
    requires Extracted(Refill(b.buffer, text), sentences, remaining)
    ensures Absorbed(b, f, e, text, sentences, mid.(buffer := remaining))
  {
    BufferWords(b.buffer, text);
    BufferTotal(Words(b.emitted), Words(b.buffer), Words(text), Words(mid.pending));
  }

  lemma DeltaAbsorbed(b: Book, f: Frame, text: string, mid: Book, ss: seq<string>, rest: string)
    requires !f.snapshot && GoodBook(b) && Taken(b, ContentEffect(b, f.content, IsDone(f)), IsDone(f), text, mid)
    requires HandsOn(b, f.content, text) && Increment(b, f.content, IsDone(f), text)
    requires var joined := Refill(b.buffer, text);
             Extracted(joined, ss, rest) && Said(ss) == CutWords(joined) && (ss, rest) == CutBuffer(joined)
    ensures var b' := mid.(buffer := rest);
            && Absorbed(b, f, FrameEffect(b, f), text, ss, b') && CutsFrom(b, f.content, text, ss)
            && HandedOn(b, f, text, ss, b')
  {
    assert FrameEffect(b, f) == ContentEffect(b, f.content, IsDone(f));
    AbsorbContent(b, f, FrameEffect(b, f), text, mid, ss, rest);
    CutsAsHanded(b, f.content, text, ss);
  }

  lemma CutsAsHanded(b: Book, content: string, text: string, sentences: seq<string>)
    requires HandsOn(b, content, text) && Said(sentences) == CutWords(Refill(b.buffer, text))
    ensures CutsFrom(b, content, text, sentences)
  {
  }

  lemma BufferWords(buffer: string, text: string)
    ensures var joined := Refill(buffer, text);
            Words(joined) == Words(buffer) + Words(text) && (Plain(buffer) && Plain(text) ==> Plain(joined))
  {
    WordsAppend(buffer, text);
    WordsNormalize(buffer + text);
    Units(Words(buffer));
    if Plain(buffer) && Plain(text) {
      PlainAppend(buffer, text);
      PlainNormalize(buffer + text);
    }
  }

  lemma BufferTotal(e: string, b: string, t: string, p: string)
    ensures e + (b + t) + p == e + b + (t + p)
  {
  }

  /** The events added their words to the text emitted. */
  ghost predicate Delivered(b: Book, events: seq<Event>, b': Book) {
    Sounds(b'.emitted) && Words(b'.emitted) == Words(b.emitted) + Heard(events)
  }

  lemma HeardOne(e: Event)
    ensures Heard([e]) == Words(e.text)
  {
    HeardSnoc([], e);
    assert [] + [e] == [e];
    Units(Words(e.text));
  }

  /** The first `n` sentences went out and were noted. */
  ghost predicate SaidUpTo(emitted: string, ss: seq<string>, n: nat, events: seq<Event>, emitted': string) {
    && n <= |ss| && Sounds(emitted') && (n == 0 ==> emitted' == emitted)
    && Words(emitted') == Words(emitted) + Heard(events) && Heard(events) == Said(ss[..n])
    && (Plain(emitted) && AllPlain(ss) ==> Plain(emitted'))
  }

  lemma SaidNext(emitted: string, ss: seq<string>, n: nat, events: seq<Event>, e: string, event: Event, e': string)
    requires SaidUpTo(emitted, ss, n, events, e) && n < |ss| && event.text == TrimSpace(ss[n])
    requires Sounds(e') && Words(e') == Words(e) + Words(ss[n]) && (Plain(e) && Plain(ss[n]) ==> Plain(e'))
    ensures SaidUpTo(emitted, ss, n + 1, events + [event], e')
  {
    HeardNext(events, event, ss, n);
    ConcatAssoc(Words(emitted), Heard(events), Words(ss[n]));
  }

  lemma HeardNext(events: seq<Event>, e: Event, ss: seq<string>, i: nat)
    requires i < |ss| && Heard(events) == Said(ss[..i]) && e.text == TrimSpace(ss[i])
    ensures Heard(events + [e]) == Said(ss[..i + 1]) == Heard(events) + Words(ss[i])
  {
    var s, front := ss[i], ss[..i];
    assert ss[..i + 1] == front + [s];
    HeardSnoc(events, e);
    WordsTrimSpace(s);
    SaidSnoc(front, s);
  }

  /** A frame took the texts from `b` to `b'` as `e` says and sent `events`. */
  ghost predicate Follow(b: Book, e: Effect, done: bool, events: seq<Event>, b': Book) {
    && Delivered(b, events, b')
    && Total(b') == e.total
    && (done ==> Words(b'.buffer) == "")
    && (PlainBook(b) && e.plain ==> PlainBook(b'))
    && b'.pending == e.pending
    && (b'.hasDelta ==> b.hasDelta || e.text)
  }

  /** The frame did all it calls for. */
  ghost predicate Heeds(b: Book, f: Frame, events: seq<Event>, b': Book) {
    Follow(b, FrameEffect(b, f), IsDone(f), events, b')
  }

  /** What happens to a frame for device `to`: a stale one is dropped, another one sends
      bracketed events, whose words add up as the frame says except for the words lost. */
  ghost predicate Handled(s: Status, f: Frame, to: string, events: seq<Event>, accepted: bool, s': Status) {
    && (accepted <==> InSequence(s.lastSeq, f))
    && (!accepted ==> events == [] && s' == s)
    && (accepted ==>
          && s'.lastSeq == (if f.seqNo > 0 then f.seqNo else s.lastSeq)
          && Bracketed(events, s.isFirst, IsDone(f)) && SentTo(events, to)
          && (!IsDone(f) ==> s'.isFirst == (s.isFirst && events == []))
          && Outcome(s.book, f, to, events, s'.book))
  }

  lemma StaleHandled(s: Status, f: Frame, to: string)
    requires !InSequence(s.lastSeq, f)
    ensures Handled(s, f, to, [], false, s)
  {
  }

  lemma FreshHandled(s: Status, f: Frame, to: string, events: seq<Event>, s': Status)
    requires InSequence(s.lastSeq, f) && s'.lastSeq == (if f.seqNo > 0 then f.seqNo else s.lastSeq)
    requires Bracketed(events, s.isFirst, IsDone(f)) && SentTo(events, to) && (!IsDone(f) ==> s'.isFirst == (s.isFirst && events == []))
    requires Outcome(s.book, f, to, events, s'.book)
    ensures Handled(s, f, to, events, true, s')
  {
  }

  /** The words after a frame: all that it calls for if and only if none are lost. */
  ghost predicate Outcome(b: Book, f: Frame, to: string, events: seq<Event>, b': Book) {
    && Delivered(b, events, b')
    && |Total(b')| + |Lost(b, f, to)| == |AfterFrame(b, f)|
    && (Lost(b, f, to) == "" ==> Heeds(b, f, events, b'))
    && (f.snapshot && !IsDone(f) ==> events == [] && Replaced(b, f.content, b'))
  }

  lemma HeedSentences(b: Book, f: Frame, e: Effect, incremental: string, ss: seq<string>, mid: Book, events: seq<Event>, b': Book)
    requires Absorbed(b, f, e, incremental, ss, mid) && SaidUpTo(mid.emitted, ss, |ss|, events, b'.emitted)
    requires b' == mid.(emitted := b'.emitted)
    ensures GoodBook(b') && Follow(b, e, false, events, b')
  {
    assert ss[..|ss|] == ss;
    ConcatAssoc(Words(b.emitted), Said(ss), Words(b'.buffer));
  }

  lemma OrdinaryOutcome(b: Book, f: Frame, to: string, events: seq<Event>, b': Book)
    requires !IsTestDevice(to) && Heeds(b, f, events, b')
    requires f.snapshot && !IsDone(f) ==> events == [] && Replaced(b, f.content, b')
    ensures Outcome(b, f, to, events, b')
  {
  }

  /** The last event delivers the buffer. */
  ghost predicate Emptied(b: Book, final: seq<Event>, b': Book) {
    && |final| == 1 && Delivered(b, final, b')
    && Heard(final) == Words(b.buffer) && Words(b'.buffer) == "" && b'.buffer in ["", b.buffer]
    && b' == b.(emitted := b'.emitted, buffer := b'.buffer) && (b.buffer == "" ==> b'.emitted == b.emitted)
    && (Plain(b.emitted) && Plain(b.buffer) ==> Plain(b'.emitted))
  }

  lemma FinalTotal(emitted: string, events: seq<Event>, b: Book, final: seq<Event>, b': Book)
    requires Emptied(b, final, b') && Words(b.emitted) == emitted + Heard(events)
    ensures Words(b'.emitted) == emitted + Heard(events + final) && Total(b') == Total(b)
  {
    HeardSnoc(events, final[0]);
    HeardOne(final[0]);
    assert final == [final[0]];
    ConcatAssoc(emitted, Heard(events), Heard(final));
    Units(Words(b.emitted) + Words(b.buffer));
  }

  lemma HeedFinal(b: Book, e: Effect, events: seq<Event>, said: Book, final: seq<Event>, b': Book)
    requires GoodBook(said) && Follow(b, e, false, events, said) && Emptied(said, final, b')
    ensures GoodBook(b') && Follow(b, e, true, events + final, b')
  {
    FinalTotal(Words(b.emitted), events, said, final, b');
  }

  lemma NextSaid(said: seq<Event>, e: Event, to: string, first: bool)
    requires Bracketed(said, first, false) && SentTo(said, to)
    requires e.device == to && !e.isEnd && (e.isStart <==> first && said == [])
    ensures var events := said + [e];
            Bracketed(events, first, false) && SentTo(events, to) && Texts(events) == Texts(said) + [e.text]
  {
    BracketedSnoc(said, e, first);
    TextsAppend(said, [e]);
  }

  lemma BracketedSnoc(events: seq<Event>, e: Event, first: bool)
    requires Bracketed(events, first, false) && !e.isEnd && (e.isStart <==> first && events == [])
    ensures Bracketed(events + [e], first, false)
  {
  }

  lemma BracketedEnd(events: seq<Event>, final: seq<Event>, first: bool)
    requires Bracketed(events, first, false) && |final| == 1 && final[0].isEnd
    requires final[0].isStart <==> first && events == []
    ensures Bracketed(events + final, first, true)
  {
  }

  /** A test device got the new content, or at the end the buffer. */
  ghost predicate TestSent(b: Book, incremental: string, done: bool, events: seq<Event>, b': Book) {
    if incremental != "" then
      && Delivered(b, events, b') && Heard(events) == Words(incremental)
      && b' == b.(emitted := b'.emitted, buffer := "")
      && (Plain(b.emitted) && Plain(incremental) ==> Plain(b'.emitted))
    else if done then Emptied(b, events, b')
    else events == [] && b' == b
  }

  /** The words a test device loses in each case. */
  lemma LostByTest(b: Book, f: Frame, to: string, e: Effect, incremental: string, ss: seq<string>, mid: Book)
    requires IsTestDevice(to) && Absorbed(b, f, e, incremental, ss, mid)
    requires f.snapshot || CutsFrom(b, f.content, incremental, ss)
    ensures Lost(b, f, to) == if incremental == "" then Said(ss) else Words(b.buffer)
  {
    if !f.snapshot && Words(b.buffer) == "" {
      NoneCut(b.buffer);
    }
  }

  /** A buffer without words has none in its sentences. */
  lemma NoneCut(buffer: string)
    requires Words(buffer) == ""
    ensures CutWords(buffer) == ""
  {
    WordsTrimSpace(buffer);
    WordsNormalize(TrimSpace(buffer));
    ClosedIsPrefix(Normalize(TrimSpace(buffer)));
    NoWordsBefore(Closed(Normalize(TrimSpace(buffer))), Normalize(TrimSpace(buffer)));
  }

  lemma NoWordsBefore(front: string, s: string)
    requires front <= s && Words(s) == ""
    ensures Words(front) == ""
  {
    WordsAppend(front, s[|front|..]);
    assert s == front + s[|front|..];
  }

  lemma {:induction false} ClosedIsPrefix(s: string)
    ensures Closed(s) <= s
  {
    if s != "" && !IsSentenceSeparator(s[|s| - 1]) { ClosedIsPrefix(s[..|s| - 1]); }
  }

  lemma HeedTest(b: Book, f: Frame, to: string, incremental: string, ss: seq<string>, mid: Book, events: seq<Event>, b': Book)
    requires IsTestDevice(to) && Absorbed(b, f, FrameEffect(b, f), incremental, ss, mid)
    requires TestSent(mid, incremental, IsDone(f), events, b')
    requires if f.snapshot then Replaced(b, f.content, mid) else CutsFrom(b, f.content, incremental, ss)
    ensures GoodBook(b') && Outcome(b, f, to, events, b')
  {
    LostByTest(b, f, to, FrameEffect(b, f), incremental, ss, mid);
    TestTotal(b, f, FrameEffect(b, f), incremental, ss, mid, events, b');
  }

  /** After a frame for a test device: short of what it calls for by the words lost. */
  lemma TestTotal(b: Book, f: Frame, e: Effect, incremental: string, ss: seq<string>, mid: Book, events: seq<Event>, b': Book)
    requires Absorbed(b, f, e, incremental, ss, mid) && TestSent(mid, incremental, IsDone(f), events, b')
    ensures var lost := if incremental == "" then Said(ss) else Words(b.buffer);
            && GoodBook(b') && Delivered(b, events, b')
            && |Total(b')| + |lost| == |e.total|
            && (lost == "" ==> Follow(b, e, IsDone(f), events, b'))
  {
    assert Words("") == "" && Plain("");
    Units(Words(mid.buffer));
    Units(Words(mid.emitted));
    Units(Words(mid.emitted) + Words(mid.buffer));
    Units(Words(mid.emitted) + Words(incremental));
    Units(Words(incremental));
  }

  /** The words after a frame are those it calls for if and only if it goes to an ordinary
      device, is a snapshot, finds no words in the buffer, or brings nothing new and cuts no
      words from the buffer. */
  lemma AccountHoldsIff(b: Book, f: Frame, to: string, events: seq<Event>, b': Book)
    requires Outcome(b, f, to, events, b')
    ensures Total(b') == AfterFrame(b, f)
       <==> !IsTestDevice(to) || f.snapshot || Words(b.buffer) == "" || (NothingNew(b, f.content) && CutWords(b.buffer) == "")
  {
    if Words(b.buffer) == "" { NoneCut(b.buffer); }
  }

  // ---------- Words that are lost ----------

  /** `h` lacks no word of `t` and `w`: it begins with `t`, and `w` is its beginning or its end. */
  predicate Covers(h: string, t: string, w: string) {
    t <= h && (w <= h || (|w| <= |h| && h[|h| - |w|..] == w))
  }

  /** The frame takes in its words and gives up none from before.  A content that meets a related
      one held back must have the more words if it is the larger, the fewer if not; a snapshot
      must repeat what it replaces. */
  predicate KeepsAll(b: Book, f: Frame) {
    var w := Words(f.content);
    if Normalize(f.content) == "" then true
    else if f.snapshot then
      if Key(Normalize(b.emitted)) <= Key(Normalize(f.content)) then Total(b) <= w else Words(b.buffer) + Words(b.pending) <= w
    else if b.pending != "" && Related(b.pending, f.content) then
      if Longer(f.content, b.pending) then Words(b.pending) <= w else w <= Words(b.pending)
    else true
  }

  lemma WordsPrefix(front: string, whole: string)
    requires front <= whole
    ensures Words(front) <= Words(whole)
  {
    var rest := whole[|front|..];
    assert whole == front + rest;
    WordsAppend(front, rest);
  }

  lemma KeyPrefix(front: string, whole: string)
    requires Key(front) <= Key(whole)
    ensures Words(front) <= Words(whole)
  {
    WordsOfKey(front);
    WordsOfKey(whole);
    WordsPrefix(Key(front), Key(whole));
  }

  lemma Joined(t: string, w: string)
    ensures Covers(t + w, t, w)
  {
  }

  /** Behind `e` the words `w` stand for `rest` if and only if they repeat it. */
  lemma JoinedIff(e: string, rest: string, w: string)
    ensures Covers(e + w, e + rest, w) <==> rest <= w
  {
    assert (e + w)[|e|..] == w && (e + rest)[|e|..] == rest;
    if rest <= w { assert (e + w)[..|e| + |rest|] == e + rest; }
    if e + rest <= e + w { assert (e + w)[|e|..][..|rest|] == rest; }
  }

  lemma SnapshotKeepsIff(b: Book, content: string)
    requires Normalize(content) != ""
    ensures Covers(AfterSnapshot(b, content), Total(b), Words(content))
       <==> if Key(Normalize(b.emitted)) <= Key(Normalize(content)) then Total(b) <= Words(content)
            else Words(b.buffer) + Words(b.pending) <= Words(content)
  {
    ConcatAssoc(Words(b.emitted), Words(b.buffer), Words(b.pending));
    JoinedIff(Words(b.emitted), Words(b.buffer) + Words(b.pending), Words(content));
  }

  /** When a content meets a related one held back, the words of both are kept if and only if the
      one that is larger in bytes, punctuation included, has all the words. */
  lemma RepetitionCounts(b: Book, content: string)
    requires GoodBook(b) && b.pending != "" && Related(b.pending, content)
    ensures Covers(AfterContent(b, content), Total(b), Words(content))
       <==> if Longer(content, b.pending) then Words(b.pending) <= Words(content) else Words(content) <= Words(b.pending)
  {
    NothingHeld();
    assert Key("") == "";
    MeetTotal(b, content);
    WordsNormalize(content);
    WordsNormalize(b.pending);
    RelatedWords(b.pending, content);
    Units(Words(b.pending));
  }

  lemma RelatedWords(pending: string, content: string)
    requires Related(pending, content)
    ensures Words(pending) <= Words(content) || Words(content) <= Words(pending)
  {
    WordsNormalize(content);
    WordsNormalize(pending);
    if Key(Normalize(pending)) <= Key(Normalize(content)) {
      KeyPrefix(Normalize(pending), Normalize(content));
    } else {
      KeyPrefix(Normalize(content), Normalize(pending));
    }
  }

  lemma OtherContentKeeps(b: Book, content: string)
    requires GoodBook(b) && Normalize(content) != "" && !(b.pending != "" && Related(b.pending, content))
    ensures Covers(AfterContent(b, content), Total(b), Words(content))
  {
    Joined(Total(b), Words(content));
    if b.pending == "" { FreeContentKeeps(b, content); }
  }

  lemma FreeContentKeeps(b: Book, content: string)
    requires b.pending == "" && Normalize(content) != ""
    ensures AfterContent(b, content) == Total(b) + Words(content)
         || (AfterContent(b, content) == Words(content) && Total(b) <= Words(content))
  {
    var known := Accounted(b.emitted, b.buffer);
    if Key(known) <= Key(Normalize(content)) {
      KeyPrefix(known, Normalize(content));
      WordsNormalize(content);
      AccountedWords(b.emitted, b.buffer);
      assert Words("") == "";
      Units(Words(b.emitted) + Words(b.buffer));
    }
  }

  /** The frame keeps all words, those it brings and those from before, if and only if `KeepsAll`. */
  lemma KeepsAllIff(b: Book, f: Frame)
    requires GoodBook(b)
    ensures Covers(AfterFrame(b, f), Total(b), Words(f.content)) <==> KeepsAll(b, f)
  {
    if Normalize(f.content) == "" {
      NoText(f.content);
    } else if f.snapshot {
      SnapshotKeepsIff(b, f.content);
    } else if b.pending != "" && Related(b.pending, f.content) {
      RepetitionCounts(b, f.content);
    } else {
      OtherContentKeeps(b, f.content);
    }
  }

  /** After a final frame every word taken in has been delivered, if and only if the frame keeps
      all words, and is not a snapshot without text while words are held back. */
  lemma DeliveredAtTheEnd(b: Book, f: Frame, events: seq<Event>, b': Book)
    requires GoodBook(b) && Heeds(b, f, events, b') && IsDone(f)
    ensures Covers(Words(b.emitted) + Heard(events), Total(b), Words(f.content))
       <==> KeepsAll(b, f) && !(f.snapshot && Normalize(f.content) == "" && Words(b.pending) != "")
  {
    NothingHeld();
    Units(Words(b'.emitted));
    KeepsAllIff(b, f);
    if f.snapshot && Normalize(f.content) == "" { NoText(f.content); }
  }
}

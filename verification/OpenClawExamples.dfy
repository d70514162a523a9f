/**
 Answers that are not heard in full, for internal/domain/openclaw/manager.go: each failing
 property at inputs that show it.
 */
module OpenClawExamples {
  import opened OpenClawText
  import opened OpenClawWords
  import opened OpenClawJoints
  import opened OpenClawPieces
  import opened OpenClawSentences
  import opened OpenClawStream
  import opened OpenClawSession
  import opened Runes

  // ---------- Texts rune by rune ----------

  lemma LetterKept(prev: Prev, c: char, s: string)
    requires IsLetter(c) && Canonical(After(c), s)
    ensures Canonical(prev, [c] + s)
  {
    assert ([c] + s)[1..] == s;
  }

  lemma MarkKept(a: char, c: char, s: string)
    requires IsLetter(a) && c in "。！" && Canonical(After(c), s)
    ensures Canonical(After(a), [c] + s)
  {
    assert ([c] + s)[1..] == s;
  }

  lemma LetterRead(c: char, s: string)
    requires IsLetter(c)
    ensures Words([c] + s) == [c] + Words(s) && Key([c] + s) == [c] + Key(s)
    ensures SpaceFree([c] + s) == [c] + SpaceFree(s)
  {
    assert ([c] + s)[1..] == s;
  }

  lemma MarkRead(c: char, s: string)
    requires c in "。！"
    ensures Words([c] + s) == Words(s) && Key([c] + s) == Key(s) && SpaceFree([c] + s) == [c] + SpaceFree(s)
  {
    assert ([c] + s)[1..] == s;
  }

  lemma NoRunes(prev: Prev)
    ensures Words("") == "" && Key("") == "" && SpaceFree("") == "" && Canonical(prev, "")
  {
  }

  // ---------- Answers of two frames ----------

  /** The first frame of an answer, and its last. */
  function First(content: string, device: string): Frame {
    Frame(content, device, false, 1, true, false)
  }

  function Last(content: string, device: string, snapshot: bool): Frame {
    Frame(content, device, true, 2, true, snapshot)
  }

  lemma BothRouted(f: Frame, g: Frame)
    requires Device(f) == f.device != "" && Device(g) == g.device != ""
    ensures Routed("", [f, g]) == [f, g]
  {
  }

  lemma BothAccepted(f: Frame, g: Frame)
    requires f.seqNo == 1 && g.seqNo == 2 && !IsDone(f) && IsDone(g) && f.device != "" && g.device != ""
    ensures Accepted([f, g]) == [f, g] && Ended([f, g])
  {
    assert [f, g][..1] == [f] && [f][..0] == [];
    assert Accepted([f]) == [f] && LastNumber([f]) == 1;
  }

  lemma BothTaken(f: Frame, g: Frame)
    ensures [f, g][..1] == [f] && [f][..0] == []
    ensures Kept([f]) == Next(SILENCE, f) && Kept([f, g]) == Next(Kept([f]), g) && Meant([f]) == Merge(SILENCE, f, "" <= Words(f.content))
    ensures Repeating([f, g]) <==> Repeats(f, SILENCE) && Repeats(g, Kept([f]))
    ensures Silenced([f, g]) <==> IsDone(g) && g.snapshot && Words(g.content) == "" && Kept([f]).held
  {
    assert [] + [f] == [f] && [f] + [g] == [f, g];
    SnocFrames([], f);
    SnocFrames([f], g);
  }

  /** A session hears two frames that name their device. */
  method HearTwo(f: Frame, g: Frame) returns (events: seq<Event>)
    requires f.seqNo == 1 && g.seqNo == 2 && !IsDone(f) && IsDone(g)
    requires Device(f) == f.device != "" && Device(g) == g.device != "" && !IsTestDevice(f.device) && !IsTestDevice(g.device)
    requires Repeats(f, SILENCE) && Repeats(g, Next(SILENCE, f))
    ensures Bracketed(events, true, true)
    ensures Heard(events) == if Silenced([f, g]) then "" else Next(Next(SILENCE, f), g).words
  {
    BothTaken(f, g);
    BothRouted(f, g);
    BothAccepted(f, g);
    var session := new AgentSession();
    var taken, done;
    events, taken, done := session.HandleAnswer("c", [f, g]);
  }

  /** A response without streaming metadata is a whole answer: all of it is spoken at once, its
      last event ends it, and neither stream nor pending request remains. */
  method PlainResponse(content: string, device: string) returns (events: seq<Event>, session: AgentSession)
    requires TrimSpace(device) == device != "" && !IsTestDevice(device)
    ensures events != [] && events[|events| - 1].isEnd && Heard(events) == Words(content)
    ensures "c" !in session.streams && "c" !in session.pending
    ensures var (sentences, rest) := CutBuffer(Normalize(content)); Texts(events) == sentences + [TrimSpace(rest)]
  {
    session := new AgentSession();
    var f := Frame(content, device, false, 0, false, false);
    var accepted, to;
    ghost var status, part;
    NothingHeld();
    Units(Words(content));
    events, accepted, to, status, part := session.HandleResponse("c", f);
    WholeAnswer(f, to, events, status);
    WholeTexts(f, to, part, events, status);
  }

  lemma WholeAnswer(f: Frame, to: string, events: seq<Event>, s: Status)
    requires !IsTestDevice(to) && !f.snapshot && !f.done && f.seqNo == 0 && !f.tagged
    requires Handled(NEW_STATUS, f, to, events, true, s)
    ensures Heard(events) == Words(f.content)
  {
    NothingHeld();
    assert Key("") == "";
    Units(Words(f.content));
    Units(Heard(events));
    if Normalize(f.content) == "" { NoText(f.content); }
  }

  lemma WholeTexts(f: Frame, to: string, part: string, events: seq<Event>, s: Status)
    requires !IsTestDevice(to) && !f.snapshot && !f.done && f.seqNo == 0 && !f.tagged
    requires TextsSent(NEW_BOOK, f, to, part, events, s.book)
    ensures var (sentences, rest) := CutBuffer(Normalize(f.content)); Texts(events) == sentences + [TrimSpace(rest)]
  {
    WholePart(f.content, part);
  }

  /** The first content, when it is also the last, is handed on whole and is the buffer. */
  lemma WholePart(content: string, part: string)
    requires Increment(NEW_BOOK, content, true, part)
    ensures Refill("", part) == Normalize(content)
  {
    NothingHeld();
    NormalizeIdempotent(content);
    assert "" + part == part;
  }

  // ---------- Repetitions that lose words ----------

  /** Of two contents that repeat each other an ordinary device hears the one that is larger in
      bytes, whichever has more words. */
  method RepeatedAnswer(answer: string, again: string, device: string) returns (events: seq<Event>)
    requires Plain(answer) && Plain(again) && Words(answer) != "" && Words(again) != "" && Agree(Words(answer), Words(again))
    requires TrimSpace(device) == device != "" && !IsTestDevice(device)
    ensures Heard(events) == if Size(again) >= Size(answer) then Words(again) else Words(answer)
  {
    NoRunes(Start);
    events := HearTwo(First(answer, device), Last(again, device, false));
    BothTaken(First(answer, device), Last(again, device, false));
  }

  lemma MarkedText()
    ensures Words("a！") == "a" && Plain("a！") && IsNormal("a！") && SpaceFree("a！") == "a！"
  {
    NoRunes(After('！'));
    assert "a！" == ['a'] + (['！'] + "") && ['！'] + "" == "！";
    MarkRead('！', "");
    LetterRead('a', "！");
    MarkKept('a', '！', "");
    LetterKept(Start, 'a', "！");
  }

  lemma Letters()
    ensures Words("bc") == "bc" && Key("bc") == "bc" && SpaceFree("bc") == "bc" && Canonical(After('a'), "bc")
  {
    NoRunes(After('c'));
    assert "bc" == ['b'] + (['c'] + "") && ['c'] + "" == "c";
    LetterRead('c', "");
    LetterRead('b', "c");
    LetterKept(After('b'), 'c', "");
    LetterKept(After('a'), 'b', "c");
  }

  lemma LongText()
    ensures Words("abc") == "abc" && Plain("abc") && IsNormal("abc") && SpaceFree("abc") == "abc"
  {
    Letters();
    assert "abc" == ['a'] + "bc";
    LetterRead('a', "bc");
    LetterKept(Start, 'a', "bc");
  }

  lemma ShortText()
    ensures Words("ab") == "ab" && Plain("ab") && IsNormal("ab") && SpaceFree("ab") == "ab"
  {
    NoRunes(After('b'));
    assert "ab" == ['a'] + (['b'] + "") && ['b'] + "" == "b";
    LetterRead('b', "");
    LetterRead('a', "b");
    LetterKept(After('a'), 'b', "");
    LetterKept(Start, 'a', "b");
  }

  lemma ByteLengths()
    ensures ByteLength("a！") == 4 && ByteLength("ab") == 2 && ByteLength("abc") == 3
  {
    assert "a！"[1..] == "！" && "！"[1..] == "" && "ab"[1..] == "b" && "b"[1..] == "";
    assert "abc"[1..] == "bc" && "bc"[1..] == "c" && "c"[1..] == "";
    assert ByteLength("！") == 3 && ByteLength("b") == 1 && ByteLength("c") == 1 && ByteLength("bc") == 2;
  }

  lemma Sizes()
    ensures Size("a！") == 4 && Size("ab") == 2 && Size("abc") == 3
  {
    MarkedText();
    ShortText();
    LongText();
    ByteLengths();
    NormalIsFixed("a！");
    NormalIsFixed("ab");
    NormalIsFixed("abc");
  }

  lemma DeviceNames()
    ensures TrimSpace("d") == "d" && !IsTestDevice("d")
  {
    TrimSpaceResult("d");
    assert |TEST_DEVICE_PREFIX| > 1;
  }

  lemma ShorterAgrees()
    ensures Plain("abc") && Plain("a！") && Words("abc") == "abc" && Words("a！") == "a"
    ensures Agree(Words("abc"), Words("a！")) && Size("a！") >= Size("abc")
  {
    Sizes();
    MarkedText();
    LongText();
    assert "a" == "abc"[..1];
  }

  lemma LongerAgrees()
    ensures Plain("ab") && Plain("a！") && Words("ab") == "ab" && Words("a！") == "a"
    ensures Agree(Words("a！"), Words("ab")) && Size("ab") < Size("a！")
  {
    Sizes();
    MarkedText();
    ShortText();
    assert "a" == "ab"[..1];
  }

  /** "a！" after "abc": "bc" is lost. */
  method ShortenedAnswer() returns (events: seq<Event>)
    ensures Words("abc") == "abc" && Words("a！") == "a" && Heard(events) == "a"
  {
    ShorterAgrees();
    DeviceNames();
    events := RepeatedAnswer("abc", "a！", "d");
  }

  /** "ab" after "a！": "b" is lost. */
  method DroppedRepetition() returns (events: seq<Event>)
    ensures Words("ab") == "ab" && Words("a！") == "a" && Heard(events) == "a"
  {
    LongerAgrees();
    DeviceNames();
    events := RepeatedAnswer("a！", "ab", "d");
  }

  // ---------- An answer that is silenced ----------

  /** An answer that begins with a content held back and ends with an empty snapshot is never
      heard by an ordinary device, whatever it says. */
  method SilencedAnswer(answer: string, device: string) returns (events: seq<Event>)
    requires Plain(answer) && Words(answer) != "" && TrimSpace(device) == device != "" && !IsTestDevice(device)
    ensures Bracketed(events, true, true) && Heard(events) == ""
  {
    NoRunes(Start);
    events := HearTwo(First(answer, device), Last("", device, true));
    BothTaken(First(answer, device), Last("", device, true));
  }

  /** "你好" is such an answer. */
  method SilencedGreeting() returns (events: seq<Event>)
    ensures Words("你好") == "你好" && Bracketed(events, true, true) && Heard(events) == ""
  {
    NoRunes(Start);
    assert "你好" == ['你'] + (['好'] + "") && ['好'] + "" == "好";
    LetterRead('好', "");
    LetterRead('你', "好");
    TrimSpaceResult("d");
    events := SilencedAnswer("你好", "d");
  }

  // ---------- Sentences that a test device loses ----------

  lemma CutRun(text: string, to: string, first: seq<Event>, s: Status, last: seq<Event>, s': Status)
    requires Normalize(text) == text && IsTestDevice(to)
    requires Outcome(NEW_BOOK, Frame(text, "", false, 1, true, true), to, first, s.book)
    requires Outcome(s.book, Frame("", "", true, 2, true, false), to, last, s'.book)
    requires text != ""
    ensures first == [] && |Heard(last)| + |CutWords(text)| <= |Words(text)|
  {
    NothingHeld();
    assert Key("") == "";
    Units(Words(text));
  }

  lemma BothHandled(text: string, to: string, first: seq<Event>, a: bool, s: Status, last: seq<Event>, a': bool, s': Status)
    requires Normalize(text) == text != "" && IsTestDevice(to)
    requires Handled(NEW_STATUS, Frame(text, "", false, 1, true, true), to, first, a, s)
    requires Handled(s, Frame("", "", true, 2, true, false), to, last, a', s')
    ensures |Heard(first + last)| + |CutWords(text)| <= |Words(text)|
  {
    CutRun(text, to, first, s, last, s');
    assert first + last == last;
  }

  /** A snapshot for a test device, and then the end without new content: the words up to the
      last separator are never heard. */
  method CutAnswer(text: string, device: string) returns (events: seq<Event>)
    requires Normalize(text) == text != "" && IsTestDevice(device)
    ensures |Heard(events)| + |CutWords(text)| <= |Words(text)|
  {
    var stream := new ResponseStream();
    var first, accepted, _ := stream.HandleFrame(Frame(text, "", false, 1, true, true), device);
    ghost var s := stream.Now();
    var last, accepted', _ := stream.HandleFrame(Frame("", "", true, 2, true, false), device);
    BothHandled(text, device, first, accepted, s, last, accepted', stream.Now());
    events := first + last;
  }

  lemma ClosedSnoc(s: string, c: char)
    ensures Closed(s + [c]) == if IsSentenceSeparator(c) then s + [c] else Closed(s)
  {
    assert (s + [c])[..|s|] == s;
  }

  lemma Farewell()
    ensures Canonical(After('。'), "再见")
  {
    NoRunes(After('见'));
    assert ['见'] + "" == "见" && ['再'] + "见" == "再见";
    LetterKept(After('再'), '见', "");
    LetterKept(After('。'), '再', "见");
  }

  lemma GreetingTail()
    ensures Canonical(After('你'), "好。再见")
  {
    Farewell();
    assert ['。'] + "再见" == "。再见";
    assert ['好'] + "。再见" == "好。再见";
    MarkKept('好', '。', "再见");
    LetterKept(After('你'), '好', "。再见");
  }

  lemma TwoSentences()
    ensures IsNormal("你好。再见")
  {
    GreetingTail();
    assert ['你'] + "好。再见" == "你好。再见";
    LetterKept(Start, '你', "好。再见");
  }

  lemma FirstSentence()
    ensures Words(Closed("你好。再见")) == "你好"
  {
    assert "你好" + ['。'] == "你好。" && "你好。" + ['再'] == "你好。再" && "你好。再" + ['见'] == "你好。再见";
    ClosedSnoc("你好", '。');
    ClosedSnoc("你好。", '再');
    ClosedSnoc("你好。再", '见');
    GreetingWords();
  }

  lemma GreetingLetters()
    ensures IsLetter('你') && IsLetter('好')
  {
  }

  lemma GreetingWords()
    ensures Words("你好。") == "你好"
  {
    GreetingLetters();
    NoRunes(Start);
    assert ['好'] + (['。'] + "") == "好。";
    MarkRead('。', "");
    LetterRead('好', ['。'] + "");
    assert ['你'] + "好。" == "你好。";
    LetterRead('你', "好。");
  }

  /** "你好。再见" is such a snapshot: "你好" is lost. */
  method CutGreeting() returns (events: seq<Event>)
    ensures CutWords("你好。再见") == "你好" && |Heard(events)| + 2 <= |Words("你好。再见")|
  {
    var text := "你好。再见";
    TwoSentences();
    FirstSentence();
    NormalIsFixed(text);
    TrimSpaceResult(text);
    TrimSpaceResult(TEST_DEVICE_PREFIX);
    events := CutAnswer(text, TEST_DEVICE_PREFIX);
  }

  // ---------- What is sent ----------

  lemma RunePasses(open: string, c: char, s: string)
    requires !IsSentenceSeparator(c)
    ensures Pieces(open, [c] + s) == Pieces(open + [c], s)
  {
    assert ([c] + s)[1..] == s;
  }

  lemma SeparatorCuts(open: string, c: char, s: string)
    requires IsSentenceSeparator(c)
    ensures Pieces(open, [c] + s).0 == [open + [c]] + Pieces("", s).0 && Pieces(open, [c] + s).1 == Pieces("", s).1
  {
    assert ([c] + s)[1..] == s;
  }

  lemma GreetingTailPieces()
    ensures Pieces("", "再见").0 == [] && Pieces("", "再见").1 == "再见"
  {
    assert "再见" == ['再'] + "见" && "见" == ['见'] + "" && "" + ['再'] == "再" && "再" + ['见'] == "再见";
    RunePasses("", '再', "见");
    RunePasses("再", '见', "");
  }

  lemma GreetingPieces()
    ensures Pieces("", "你好。再见").0 == ["你好。"] && Pieces("", "你好。再见").1 == "再见"
  {
    assert "你好。再见" == ['你'] + "好。再见" && "好。再见" == ['好'] + "。再见" && "。再见" == ['。'] + "再见";
    assert "" + ['你'] == "你" && "你" + ['好'] == "你好" && "你好" + ['。'] == "你好。";
    RunePasses("", '你', "好。再见");
    RunePasses("你", '好', "。再见");
    SeparatorCuts("你好", '。', "再见");
    GreetingTailPieces();
  }

  lemma SegmentStays(s: string)
    requires s == "你好。" || s == "再见"
    ensures TrimSegment(s) == s && TrimSpace(s) == s
  {
    TrimSpaceStays(s);
    if s == "再见" {
      assert s[1..] == "见" && "见"[1..] == "";
    } else {
      assert s[1..] == "好。" && "好。"[1..] == "。" && "。"[1..] == "";
    }
    assert ReplaceBlanks(s) == s;
  }

  lemma TrimSpaceStays(s: string)
    requires s != "" && !IsSpace(s[0]) && !IsSpace(s[|s| - 1])
    ensures TrimSpace(s) == s
  {
  }

  lemma GreetingCut()
    ensures CutBuffer("你好。再见") == (["你好。"], "再见")
  {
    TwoSentences();
    NormalIsFixed("你好。再见");
    TrimSpaceStays("你好。再见");
    GreetingPieces();
    SegmentStays("你好。");
    SegmentStays("再见");
    assert [] + ["你好。"] == ["你好。"];
  }

  /** The two sentences of "你好。再见" are sent one by one, and the second ends the answer. */
  method GreetingSent(device: string) returns (events: seq<Event>)
    requires TrimSpace(device) == device != "" && !IsTestDevice(device)
    ensures Texts(events) == ["你好。", "再见"] && Words("你好。再见") == Heard(events)
    ensures !events[0].isEnd && events[1].isEnd && events[0].device == events[1].device == device
  {
    var text := "你好。再见";
    TwoSentences();
    NormalIsFixed(text);
    GreetingCut();
    SegmentStays("再见");
    events := HandleUncorrelated(Frame(text, device, false, 0, false, false));
    assert |Texts(events)| == |events|;
  }
}

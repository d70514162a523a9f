/**
 HandleResponse over sessions and whole answers, from internal/domain/openclaw/manager.go.
 */
module OpenClawSession {
  import opened Basics
  import opened OpenClawText
  import opened OpenClawWords
  import opened OpenClawSentences
  import opened OpenClawStream
  import opened Runes

  lemma BracketedAppend(a: seq<Event>, b: seq<Event>, done: bool)
    requires Bracketed(a, true, false) && Bracketed(b, a == [], done)
    ensures Bracketed(a + b, true, done)
  {
  }

  // ---------- Answers without a correlation id ----------

  /** Sentences as events, the first of them opening the answer. */
  method SpeakAll(device: string, sentences: seq<string>) returns (events: seq<Event>)
    requires AllSpoken(sentences)
    ensures |events| == |sentences| && Bracketed(events, true, false) && Heard(events) == Said(sentences)
    ensures SentTo(events, device) && Texts(events) == sentences
  {
    events := [];
    for i := 0 to |sentences|
      invariant SpokenUpTo(events, device, sentences, i)
    {
      EmitSpoken(device, sentences[i], i == 0, false);
      var event := Emit(device, sentences[i], i == 0, false)[0];
      SpokenNext(events, device, sentences, i, event);
      events := events + [event];
    }
    assert sentences[..|sentences|] == sentences;
  }

  ghost predicate SpokenUpTo(events: seq<Event>, device: string, ss: seq<string>, n: nat) {
    && |events| == n <= |ss| && Bracketed(events, true, false) && SentTo(events, device)
    && Heard(events) == Said(ss[..n]) && Texts(events) == ss[..n]
  }

  lemma SpokenNext(events: seq<Event>, device: string, ss: seq<string>, n: nat, event: Event)
    requires SpokenUpTo(events, device, ss, n) && n < |ss| && Spoken(ss[n])
    requires event == Event(device, TrimSpace(ss[n]), n == 0, false)
    ensures SpokenUpTo(events + [event], device, ss, n + 1)
  {
    HeardNext(events, event, ss, n);
    BracketedSnoc(events, event, true);
    TrimSpaceResult(ss[n]);
    TextsAppend(events, [event]);
    PrefixNext(ss, n);
  }

  /** HandleResponse without a correlation id handles a frame as a whole answer
      and keeps no state.  Its closing event repeats IsStart, so the answer is
      opened once exactly when nothing came before it: for a test device, or for a
      text without a sentence separator. */
  method HandleUncorrelated(f: Frame) returns (events: seq<Event>)
    ensures Device(f) == "" <==> events == []
    ensures SentTo(events, Device(f))
    ensures forall k :: 0 <= k < |events| ==>
              && (events[k].isStart <==> k == 0 || k == |events| - 1)
              && (events[k].isEnd <==> k == |events| - 1)
    ensures Device(f) != "" ==> Heard(events) == Words(f.content)
    ensures Device(f) != "" ==>
              (|events| == 1 <==> IsTestDevice(Device(f)) || !HasSeparator(Normalize(f.content)))
    ensures Device(f) != "" ==>
              var text := Normalize(f.content);
              var (sentences, rest) := CutBuffer(text);
              Texts(events) == if IsTestDevice(Device(f)) then [text] else sentences + [TrimSpace(rest)]
  {
    var device := Device(f);
    if device == "" { return []; }
    var text := NormalizeSpeechText(f.content);
    NormalText(f.content);
    if IsTestDevice(device) {
      EmitSpoken(device, text, true, true);
      events := Emit(device, text, true, true);
      HeardOne(events[0]);
      return;
    }
    events := SpeakWhole(device, text);
  }

  /** The sentences of a canonical text and then its rest, as the closing event. */
  method SpeakWhole(device: string, text: string) returns (events: seq<Event>)
    requires TrimSpace(text) == text && Normalize(text) == text
    ensures events != [] && SentTo(events, device) && Heard(events) == Words(text)
    ensures forall k :: 0 <= k < |events| ==>
              && (events[k].isStart <==> k == 0 || k == |events| - 1)
              && (events[k].isEnd <==> k == |events| - 1)
    ensures |events| == 1 <==> !HasSeparator(text)
    ensures var (sentences, rest) := CutBuffer(text); Texts(events) == sentences + [TrimSpace(rest)]
  {
    var sentences, remaining := ExtractBuffered(text);
    events := SpeakAll(device, sentences);
    EmitSpoken(device, remaining, true, true);
    var final := Emit(device, remaining, true, true)[0];
    WordsTrimSpace(remaining);
    RestSpoken(events, device, sentences, final);
    events := events + [final];
  }

  lemma RestSpoken(events: seq<Event>, device: string, ss: seq<string>, final: Event)
    requires |events| == |ss| && Bracketed(events, true, false) && Heard(events) == Said(ss)
    requires SentTo(events, device) && Texts(events) == ss
    requires final.device == device && final.isStart && final.isEnd
    ensures var all := events + [final];
            && SentTo(all, device) && Heard(all) == Said(ss) + Words(final.text) && Texts(all) == ss + [final.text]
            && (|all| == 1 <==> ss == [])
            && forall k :: 0 <= k < |all| ==>
                 && (all[k].isStart <==> k == 0 || k == |all| - 1)
                 && (all[k].isEnd <==> k == |all| - 1)
  {
    HeardSnoc(events, final);
    OpenedTwice(events, final);
    TextsAppend(events, [final]);
  }

  lemma OpenedTwice(events: seq<Event>, final: Event)
    requires Bracketed(events, true, false) && final.isStart && final.isEnd
    ensures var all := events + [final];
            forall k :: 0 <= k < |all| ==>
              && (all[k].isStart <==> k == 0 || k == |all| - 1)
              && (all[k].isEnd <==> k == |all| - 1)
  {
  }

  lemma NormalText(content: string)
    ensures var text := Normalize(content);
            TrimSpace(text) == text && Normalize(text) == text && Trimmed(text) && Words(text) == Words(content)
  {
    NormalizeIdempotent(content);
    NormalizeIsNormal(content);
    TrimSpaceResult(Normalize(content));
    WordsNormalize(content);
  }

  // ---------- The words of a whole answer ----------

  /** What frames make of an answer: its words, whether it is still held back because so far
      each content repeated the one before or was repeated by it, and then the size of the
      content held back. */
  datatype Gist = Gist(words: string, held: bool, size: nat)

  const SILENCE := Gist("", false, 0)

  /** One of two contents repeats the other. */
  predicate Agree(t: string, w: string) {
    t <= w || w <= t
  }

  /** The content of `f` meets one held back. */
  predicate Meets(g: Gist, f: Frame) {
    !f.snapshot && g.held && Agree(g.words, Words(f.content)) && g.words != "" && Words(f.content) != ""
  }

  /** A frame joins an answer: its words begin it, repeat it or are added to it.  When it meets
      a content held back, one of the two stays, the new one if `newer`. */
  function Merge(g: Gist, f: Frame, newer: bool): Gist {
    var w := Words(f.content);
    if w == "" then g
    else if !f.snapshot && g.words == "" then Gist(w, true, Size(f.content))
    else if Meets(g, f) then if newer then Gist(w, true, Size(f.content)) else g
    else Gist(if g.words <= w then w else g.words + w, false, 0)
  }

  /** The answer that the frames mean: of contents that repeat each other the one with more words. */
  function Meant(frames: seq<Frame>): Gist {
    if frames == [] then SILENCE else
      var g, f := Meant(frames[..|frames| - 1]), frames[|frames| - 1];
      Merge(g, f, g.words <= Words(f.content))
  }

  /** The answer that a stream makes of them: of contents that repeat each other the larger one. */
  function Kept(frames: seq<Frame>): Gist {
    if frames == [] then SILENCE else
      var g, f := Kept(frames[..|frames| - 1]), frames[|frames| - 1];
      Merge(g, f, Size(f.content) >= g.size)
  }

  /** A content that meets the one held back has the more words if it is the larger, the fewer
      if it is the smaller. */
  predicate Follows(f: Frame, g: Gist) {
    Meets(g, f) ==> if Size(f.content) >= g.size then g.words <= Words(f.content) else Words(f.content) <= g.words
  }

  predicate Orderly(frames: seq<Frame>) {
    frames != [] ==>
      var front, f := frames[..|frames| - 1], frames[|frames| - 1];
      Orderly(front) && Follows(f, Kept(front))
  }

  /** Plain frames, whose snapshots repeat the answer that the stream has made so far. */
  ghost predicate Repeating(frames: seq<Frame>) {
    frames != [] ==>
      var front, f := frames[..|frames| - 1], frames[|frames| - 1];
      Repeating(front) && Repeats(f, Kept(front))
  }

  ghost predicate Repeats(f: Frame, g: Gist) {
    Plain(f.content) && (f.snapshot ==> Words(f.content) == "" || g.words <= Words(f.content))
  }

  /** The answer ends with a snapshot without words while it is held back. */
  predicate Silenced(frames: seq<Frame>) {
    frames != [] &&
      var front, f := frames[..|frames| - 1], frames[|frames| - 1];
      IsDone(f) && f.snapshot && Words(f.content) == "" && Kept(front).held
  }

  lemma SnocFrames(taken: seq<Frame>, f: Frame)
    ensures Kept(taken + [f]) == Merge(Kept(taken), f, Size(f.content) >= Kept(taken).size)
    ensures Meant(taken + [f]) == Merge(Meant(taken), f, Meant(taken).words <= Words(f.content))
    ensures Orderly(taken + [f]) <==> Orderly(taken) && Follows(f, Kept(taken))
    ensures Repeating(taken + [f]) <==> Repeating(taken) && Repeats(f, Kept(taken))
    ensures Silenced(taken + [f]) <==> IsDone(f) && f.snapshot && Words(f.content) == "" && Kept(taken).held
  {
    assert (taken + [f])[..|taken|] == taken;
  }

  /** The stream has kept the words that were meant. */
  predicate KeptWhole(frames: seq<Frame>) {
    Kept(frames).words == Meant(frames).words
  }

  predicate KeptAt(frames: seq<Frame>, n: nat)
    requires n <= |frames|
  {
    KeptWhole(frames[..n])
  }

  ghost predicate KeptThroughout(frames: seq<Frame>) {
    forall n :: 0 <= n <= |frames| ==> KeptAt(frames, n)
  }

  lemma {:induction false} OrderlyKeeps(frames: seq<Frame>)
    requires Orderly(frames)
    ensures KeptWhole(frames) && Kept(frames).held == Meant(frames).held
  {
    if frames != [] { OrderlyKeeps(frames[..|frames| - 1]); }
  }

  lemma KeptAsMeant(frames: seq<Frame>)
    ensures Orderly(frames) ==> KeptWhole(frames)
  {
    if Orderly(frames) { OrderlyKeeps(frames); }
  }

  lemma KeptUpTo(front: seq<Frame>, f: Frame)
    ensures KeptThroughout(front + [f]) <==> KeptThroughout(front) && KeptWhole(front + [f])
  {
    var frames := front + [f];
    assert frames[..|frames|] == frames;
    assert KeptAt(frames, |frames|) == KeptWhole(frames);
    forall n | 0 <= n <= |front| ensures KeptAt(front, n) == KeptAt(frames, n) {
      SnocPrefix(front, f, n);
    }
  }

  lemma SnocPrefix(front: seq<Frame>, f: Frame, n: nat)
    requires n <= |front|
    ensures (front + [f])[..n] == front[..n]
  {
  }

  lemma SplitLast(frames: seq<Frame>)
    requires frames != []
    ensures frames == frames[..|frames| - 1] + [frames[|frames| - 1]]
  {
  }

  /** Both choices agree if and only if the frame follows. */
  lemma FollowsIff(g: Gist, m: Gist, f: Frame)
    requires g.words == m.words && g.held == m.held
    ensures Follows(f, g) <==>
              Merge(g, f, Size(f.content) >= g.size).words == Merge(m, f, m.words <= Words(f.content)).words
  {
    var t, w := g.words, Words(f.content);
    if t <= w && w <= t { assert t == w; }
  }

  /** A stream keeps the answer that was meant after every frame, if and only if each content
      that meets one held back has the more words exactly when it is the larger. */
  lemma {:induction false} OrderlyIff(frames: seq<Frame>)
    ensures Orderly(frames) <==> KeptThroughout(frames)
  {
    if frames != [] {
      var front, f := frames[..|frames| - 1], frames[|frames| - 1];
      OrderlyIff(front);
      SplitLast(frames);
      KeptUpTo(front, f);
      if Orderly(front) {
        OrderlyKeeps(front);
        FollowsIff(Kept(front), Meant(front), f);
      }
    }
  }

  /** Contents that repeat each other, each with words. */
  ghost predicate OneAnswer(frames: seq<Frame>) {
    && (forall i :: 0 <= i < |frames| ==> Words(frames[i].content) != "" && !frames[i].snapshot)
    && (forall i, j :: 0 <= i < j < |frames| ==> Agree(Words(frames[i].content), Words(frames[j].content)))
  }

  /** Frame `k` is the last of the largest. */
  ghost predicate LastLargest(frames: seq<Frame>, k: nat) {
    && k < |frames|
    && (forall i :: 0 <= i < |frames| ==> Size(frames[i].content) <= Size(frames[k].content))
    && (forall i :: k < i < |frames| ==> Size(frames[i].content) < Size(frames[k].content))
  }

  /** Frame `k` has the words of all. */
  ghost predicate MostWords(frames: seq<Frame>, k: nat) {
    k < |frames| && forall i :: 0 <= i < |frames| ==> Words(frames[i].content) <= Words(frames[k].content)
  }

  lemma OneAnswerFront(frames: seq<Frame>)
    requires OneAnswer(frames) && frames != []
    ensures var front, f := frames[..|frames| - 1], frames[|frames| - 1];
            && OneAnswer(front) && Words(f.content) != "" && !f.snapshot
            && forall k :: 0 <= k < |front| ==> Agree(Words(front[k].content), Words(f.content))
  {
  }

  lemma LargestNext(front: seq<Frame>, k: nat, f: Frame)
    requires LastLargest(front, k)
    ensures LastLargest(front + [f], if Size(f.content) >= Size(front[k].content) then |front| else k)
  {
  }

  lemma LongestNext(front: seq<Frame>, k: nat, f: Frame)
    requires MostWords(front, k) && Agree(Words(front[k].content), Words(f.content))
    ensures MostWords(front + [f], if Words(front[k].content) <= Words(f.content) then |front| else k)
  {
    var w, v := Words(front[k].content), Words(f.content);
    if w <= v {
      forall i | 0 <= i < |front| ensures Words(front[i].content) <= v {
        assert Words(front[i].content) <= w;
      }
    }
  }

  /** A content with words that meets another one, or is the first. */
  lemma MergeMeets(g: Gist, f: Frame, newer: bool)
    requires Words(f.content) != "" && !f.snapshot
    ensures g.words == "" ==> Merge(g, f, newer) == Gist(Words(f.content), true, Size(f.content))
    ensures g.words != "" && g.held && Agree(g.words, Words(f.content)) ==>
              Merge(g, f, newer) == if newer then Gist(Words(f.content), true, Size(f.content)) else g
  {
  }

  lemma {:induction false} KeptIsLargest(frames: seq<Frame>) returns (k: nat)
    requires OneAnswer(frames) && frames != []
    ensures LastLargest(frames, k) && Kept(frames) == Gist(Words(frames[k].content), true, Size(frames[k].content))
  {
    var front, f := frames[..|frames| - 1], frames[|frames| - 1];
    OneAnswerFront(frames);
    MergeMeets(Kept(front), f, Size(f.content) >= Kept(front).size);
    if front == [] { return 0; }
    k := KeptIsLargest(front);
    SplitLast(frames);
    assert Words(front[k].content) != "";
    LargestNext(front, k, f);
    if Size(f.content) >= Size(front[k].content) { k := |front|; }
  }

  lemma {:induction false} MeantIsLongest(frames: seq<Frame>) returns (k: nat)
    requires OneAnswer(frames) && frames != []
    ensures MostWords(frames, k) && Meant(frames).held && Meant(frames).words == Words(frames[k].content)
  {
    var front, f := frames[..|frames| - 1], frames[|frames| - 1];
    OneAnswerFront(frames);
    if front == [] {
      MergeMeets(Meant(front), f, Meant(front).words <= Words(f.content));
      return 0;
    }
    k := MeantIsLongest(front);
    SplitLast(frames);
    MeantNext(front, k, f);
    if Words(front[k].content) <= Words(f.content) { k := |front|; }
  }

  lemma MeantNext(front: seq<Frame>, k: nat, f: Frame)
    requires OneAnswer(front + [f]) && MostWords(front, k)
    requires Meant(front).held && Meant(front).words == Words(front[k].content)
    ensures var more, k' := front + [f], if Words(front[k].content) <= Words(f.content) then |front| else k;
            MostWords(more, k') && Meant(more).held && Meant(more).words == Words(more[k'].content)
  {
    SnocFrames(front, f);
    assert (front + [f])[..|front|] == front;
    OneAnswerFront(front + [f]);
    assert Words(front[k].content) != "";
    MergeMeets(Meant(front), f, Meant(front).words <= Words(f.content));
    LongestNext(front, k, f);
  }

  /** An answer that comes in contents that repeat each other is kept whole if and only if the last of the
      largest has the words of all. */
  lemma OneAnswerKeptIff(frames: seq<Frame>, k: nat)
    requires OneAnswer(frames) && LastLargest(frames, k)
    ensures Kept(frames).held && Kept(frames).words == Words(frames[k].content)
    ensures KeptWhole(frames) <==> MostWords(frames, k)
  {
    var i := KeptIsLargest(frames);
    assert i == k;
    var j := MeantIsLongest(frames);
  }

  /** A plain text that begins with a rune the canonicaliser keeps has words. */
  lemma PlainSounds(s: string)
    requires Plain(s) && Sounds(s)
    ensures s == "" <==> Words(s) == ""
  {
    PlainIffKey(s);
    if s != "" { assert s[0] in s; }
  }

  lemma PlainBlank(content: string)
    requires Plain(content)
    ensures Normalize(content) == "" <==> Words(content) == ""
  {
    PlainNormalize(content);
    NormalSounds(content);
    WordsNormalize(content);
    PlainSounds(Normalize(content));
  }

  /** A stream has made `g` of its frames. */
  ghost predicate Holding(b: Book, g: Gist) {
    && Total(b) == g.words
    && Sounds(b.pending) && (b.pending != "" <==> g.held) && (g.held ==> Size(b.pending) == g.size)
    && (b.hasDelta ==> g.words != "")
  }

  /** Where a stream is after the frames `taken`. */
  ghost predicate Progress(b: Book, taken: seq<Frame>, events: seq<Event>) {
    PlainBook(b) && Words(b.emitted) == Heard(events) && Holding(b, Kept(taken))
  }

  /** With nothing held back, something is accounted for exactly when there are words. */
  lemma AccountedHasWords(b: Book)
    requires GoodBook(b) && PlainBook(b) && b.pending == ""
    ensures Accounted(b.emitted, b.buffer) == "" <==> Total(b) == ""
  {
    NothingHeld();
    Units(Words(b.emitted) + Words(b.buffer));
    PlainSounds(b.emitted);
    PlainSounds(b.buffer);
    AccountedWords(b.emitted, b.buffer);
    if Total(b) == "" { assert b.emitted == "" && b.buffer == ""; }
  }

  lemma HeldRelated(b: Book, content: string)
    requires GoodBook(b) && PlainBook(b) && b.pending != "" && Sounds(b.pending) && Plain(content) && Words(content) != ""
    ensures Total(b) == Words(b.pending) != "" && Accounted(b.emitted, b.buffer) == "" && !b.hasDelta
    ensures Related(b.pending, content) <==> Agree(Total(b), Words(content))
  {
    NothingHeld();
    Units(Words(b.pending));
    PlainSounds(b.pending);
    PlainNormalize(b.pending);
    PlainNormalize(content);
  }

  lemma SameSize(content: string)
    ensures Size(Normalize(content)) == Size(content)
  {
    NormalizeIdempotent(content);
  }

  /** The gist after a frame, as the stream makes it. */
  function Next(g: Gist, f: Frame): Gist {
    Merge(g, f, Size(f.content) >= g.size)
  }

  lemma SnapshotStep(b: Book, g: Gist, f: Frame)
    requires GoodBook(b) && PlainBook(b) && Holding(b, g) && f.snapshot && Repeats(f, g)
    ensures AfterFrame(b, f) == Next(g, f).words
    ensures PendingAfter(b, f) == if Words(f.content) == "" then b.pending else ""
  {
    PlainBlank(f.content);
    PlainNormalize(b.emitted);
    PlainNormalize(f.content);
    if Normalize(f.content) != "" {
      assert Words(b.emitted) <= Total(b) <= Words(f.content);
    }
  }

  /** A content with words when nothing is held back. */
  lemma FreeStep(b: Book, g: Gist, f: Frame)
    requires GoodBook(b) && PlainBook(b) && Holding(b, g) && !f.snapshot && Plain(f.content) && Words(f.content) != ""
    requires b.pending == ""
    ensures AfterFrame(b, f) == Next(g, f).words
    ensures ContentPending(b, f.content) == if Next(g, f).held then Normalize(f.content) else ""
    ensures Next(g, f).held ==> Next(g, f).size == Size(f.content)
  {
    PlainBlank(f.content);
    PlainNormalize(f.content);
    AccountedHasWords(b);
    AccountedWords(b.emitted, b.buffer);
    Units(Words(b.emitted) + Words(b.buffer));
    Units(Words(f.content));
  }

  /** A content with words that meets one held back. */
  lemma MeetStep(b: Book, g: Gist, f: Frame)
    requires GoodBook(b) && PlainBook(b) && Holding(b, g) && !f.snapshot && Plain(f.content) && Words(f.content) != ""
    requires b.pending != ""
    ensures AfterFrame(b, f) == Next(g, f).words
    ensures ContentPending(b, f.content)
         == if !Next(g, f).held then "" else if Longer(f.content, b.pending) then Normalize(f.content) else b.pending
    ensures Next(g, f).held ==> Next(g, f).size == if Longer(f.content, b.pending) then Size(f.content) else g.size
  {
    PlainBlank(f.content);
    HeldRelated(b, f.content);
    MeetTotal(b, f.content);
    MeetHeld(b, f.content);
    WordsNormalize(f.content);
  }

  /** One frame: the words are those of the next gist, and so is what is held back. */
  lemma GistStep(b: Book, g: Gist, f: Frame, b': Book)
    requires GoodBook(b) && PlainBook(b) && Holding(b, g) && Repeats(f, g)
    requires Total(b') == AfterFrame(b, f) && b'.pending == PendingAfter(b, f) && (b'.hasDelta ==> b.hasDelta || Normalize(f.content) != "")
    ensures AfterFrame(b, f) == Next(g, f).words
    ensures !IsDone(f) ==> Holding(b', Next(g, f))
  {
    PlainBlank(f.content);
    NormalSounds(f.content);
    SameSize(f.content);
    if f.snapshot {
      SnapshotStep(b, g, f);
    } else if Words(f.content) == "" {
      BlankStep(b, f);
    } else if b.pending == "" {
      FreeStep(b, g, f);
    } else {
      MeetStep(b, g, f);
    }
  }

  lemma BlankStep(b: Book, f: Frame)
    requires Normalize(f.content) == "" && !f.snapshot
    ensures AfterFrame(b, f) == Total(b) && ContentPending(b, f.content) == b.pending
  {
  }

  lemma {:induction false} HeardAppend(a: seq<Event>, b: seq<Event>)
    ensures Heard(a + b) == Heard(a) + Heard(b)
  {
    if b == [] {
      assert a + b == a;
      Units(Heard(a));
    } else {
      var front, e := b[..|b| - 1], b[|b| - 1];
      HeardAppend(a, front);
      HeardSnoc(front, e);
      HeardSnoc(a + front, e);
      LastOfBoth(a, b);
      ConcatAssoc(Heard(a), Heard(front), Words(e.text));
    }
  }

  lemma LastOfBoth(a: seq<Event>, b: seq<Event>)
    requires b != []
    ensures b == b[..|b| - 1] + [b[|b| - 1]] && a + b == (a + b[..|b| - 1]) + [b[|b| - 1]]
  {
  }

  lemma ProgressStep(b: Book, taken: seq<Frame>, events: seq<Event>, f: Frame, es: seq<Event>, b': Book)
    requires GoodBook(b) && Progress(b, taken, events) && Heeds(b, f, es, b') && Repeats(f, Kept(taken)) && !IsDone(f)
    ensures Progress(b', taken + [f], events + es)
  {
    SnocFrames(taken, f);
    HeardAppend(events, es);
    GistStep(b, Kept(taken), f, b');
  }

  lemma LastStep(b: Book, taken: seq<Frame>, events: seq<Event>, f: Frame, es: seq<Event>, b': Book)
    requires GoodBook(b) && Progress(b, taken, events) && Heeds(b, f, es, b') && Repeats(f, Kept(taken)) && IsDone(f)
    ensures Heard(events + es) == if Silenced(taken + [f]) then "" else Kept(taken + [f]).words
  {
    SnocFrames(taken, f);
    HeardAppend(events, es);
    GistStep(b, Kept(taken), f, b');
    NothingLeft(b, taken, f, es, b');
  }

  /** At the end everything is delivered, unless a snapshot without words silences what is
      held back; then nothing has been. */
  lemma NothingLeft(b: Book, taken: seq<Frame>, f: Frame, es: seq<Event>, b': Book)
    requires GoodBook(b) && Holding(b, Kept(taken)) && Heeds(b, f, es, b') && IsDone(f) && Plain(f.content)
    ensures Words(b'.emitted) == if Silenced(taken + [f]) then "" else AfterFrame(b, f)
  {
    NothingHeld();
    SnocFrames(taken, f);
    PlainBlank(f.content);
    Units(Words(b'.emitted));
    if Silenced(taken + [f]) { Units(Words(b.pending)); }
  }

  // ---------- Routing ----------

  /** Where a frame goes: to the device it names, else to the one known. */
  function Destination(home: string, f: Frame): string {
    if Device(f) != "" then Device(f) else home
  }

  /** The device known after these frames: that of the first frame that could be routed, and
      until then that of the pending request, if there is one. */
  function Home(known: string, frames: seq<Frame>): string {
    if frames == [] then known
    else if Device(frames[0]) != "" then Device(frames[0])
    else if known != "" then known
    else Home(known, frames[1..])
  }

  lemma {:induction false} HomeNext(known: string, frames: seq<Frame>, f: Frame)
    ensures Home(known, frames + [f])
         == if frames != [] && Home(known, frames) != "" then Home(known, frames) else Destination(Home(known, frames), f)
  {
    if frames != [] {
      assert (frames + [f])[1..] == frames[1..] + [f];
      HomeNext(known, frames[1..], f);
    }
  }

  /** The frames, each with the device it goes to. */
  function Routed(known: string, frames: seq<Frame>): (r: seq<Frame>)
    ensures |r| == |frames|
  {
    seq(|frames|, i requires 0 <= i < |frames| => frames[i].(device := Destination(Home(known, frames[..i]), frames[i])))
  }

  /** After `n` frames the device known is `home`, for good if `settled`. */
  ghost predicate RouteStands(known: string, frames: seq<Frame>, n: nat, home: string, settled: bool) {
    n <= |frames| && home == Home(known, frames[..n]) && (settled <==> n > 0 && home != "")
  }

  lemma RouteNext(known: string, frames: seq<Frame>, n: nat, home: string, settled: bool, to: string, home': string, settled': bool)
    requires RouteStands(known, frames, n, home, settled) && n < |frames| && to == Destination(home, frames[n])
    requires if to == "" then home' == home && settled' == settled else settled' && home' == if settled then home else to
    ensures RouteStands(known, frames, n + 1, home', settled')
  {
    assert frames[..n + 1] == frames[..n] + [frames[n]];
    HomeNext(known, frames[..n], frames[n]);
  }

  lemma RoutedTo(known: string, frames: seq<Frame>, n: nat, home: string, settled: bool, to: string)
    requires RouteStands(known, frames, n, home, settled) && n < |frames| && to == Destination(home, frames[n])
    ensures Routed(known, frames)[n] == frames[n].(device := to)
  {
  }

  /** With a device known every frame is routed; without, those before the first that names one
      are not. */
  lemma {:induction false} RoutedIff(known: string, frames: seq<Frame>, i: nat)
    requires i < |frames|
    ensures Routed(known, frames)[i].device != "" <==> known != "" || exists j :: 0 <= j <= i && Device(frames[j]) != ""
  {
    HomeKnownIff(known, frames[..i]);
    assert forall j :: 0 <= j < i ==> frames[..i][j] == frames[j];
  }

  lemma {:induction false} HomeKnownIff(known: string, frames: seq<Frame>)
    ensures Home(known, frames) != "" <==> known != "" || exists j :: 0 <= j < |frames| && Device(frames[j]) != ""
  {
    if frames != [] {
      HomeKnownIff(known, frames[1..]);
      assert forall j :: 1 <= j < |frames| ==> frames[j] == frames[1..][j - 1];
    }
  }

  // ---------- Sessions ----------

  /** The frames accepted out of a stream of routed ones: those with a device, up to the first
      final one, without those whose number is stale. */
  function Accepted(frames: seq<Frame>): seq<Frame> {
    if frames == [] then [] else
      var taken, f := Accepted(frames[..|frames| - 1]), frames[|frames| - 1];
      if Ended(taken) || f.device == "" || !InSequence(LastNumber(taken), f) then taken else taken + [f]
  }

  predicate Ended(taken: seq<Frame>) {
    taken != [] && IsDone(taken[|taken| - 1])
  }

  /** The last positive sequence number, or 0. */
  function LastNumber(taken: seq<Frame>): int {
    if taken == [] then 0
    else if taken[|taken| - 1].seqNo > 0 then taken[|taken| - 1].seqNo else LastNumber(taken[..|taken| - 1])
  }

  /** The positive sequence numbers strictly increase. */
  ghost predicate Increasing(taken: seq<Frame>) {
    forall j, k :: 0 <= j < k < |taken| && taken[j].seqNo > 0 && taken[k].seqNo > 0 ==> taken[j].seqNo < taken[k].seqNo
  }

  lemma {:induction false} NumbersUpToLast(taken: seq<Frame>, k: nat)
    requires Increasing(taken) && k < |taken| && taken[k].seqNo > 0
    ensures taken[k].seqNo <= LastNumber(taken)
  {
    if taken[|taken| - 1].seqNo <= 0 { NumbersUpToLast(taken[..|taken| - 1], k); }
  }

  lemma TakeNext(taken: seq<Frame>, f: Frame)
    requires Increasing(taken) && InSequence(LastNumber(taken), f)
    ensures Increasing(taken + [f]) && LastNumber(taken + [f]) == if f.seqNo > 0 then f.seqNo else LastNumber(taken)
  {
    var more := taken + [f];
    assert more[..|taken|] == taken;
    forall j, k | 0 <= j < k < |more| && more[j].seqNo > 0 && more[k].seqNo > 0 ensures more[j].seqNo < more[k].seqNo {
      if k == |taken| { NumbersUpToLast(taken, j); }
    }
  }

  /** No frame goes to a test device. */
  ghost predicate AllOrdinary(frames: seq<Frame>) {
    forall f :: f in frames ==> !IsTestDevice(f.device)
  }

  function Devices(frames: seq<Frame>): set<string> {
    set f | f in frames :: f.device
  }

  /** Every event goes where one of the frames goes. */
  ghost predicate Addressed(events: seq<Event>, frames: seq<Frame>) {
    forall k :: 0 <= k < |events| ==> events[k].device in Devices(frames)
  }

  lemma AddressedAppend(events: seq<Event>, taken: seq<Frame>, es: seq<Event>, f: Frame)
    requires Addressed(events, taken) && SentTo(es, f.device)
    ensures Addressed(events + es, taken + [f])
  {
    assert Devices(taken + [f]) == Devices(taken) + {f.device};
  }

  /** The frames accepted among the first `n`. */
  ghost predicate Selected(all: seq<Frame>, n: nat, taken: seq<Frame>) {
    n <= |all| && Increasing(taken) && taken == Accepted(all[..n])
  }

  lemma SelectNext(all: seq<Frame>, n: nat, taken: seq<Frame>)
    requires Selected(all, n, taken) && n < |all| && !Ended(taken)
    ensures Selected(all, n + 1, if all[n].device != "" && InSequence(LastNumber(taken), all[n]) then taken + [all[n]] else taken)
  {
    assert all[..n + 1][..n] == all[..n];
    if InSequence(LastNumber(taken), all[n]) { TakeNext(taken, all[n]); }
  }

  lemma {:induction false} NothingAfterTheEnd(all: seq<Frame>, n: nat)
    requires n <= |all| && Ended(Accepted(all[..n]))
    ensures Accepted(all) == Accepted(all[..n])
    decreases |all|
  {
    if n == |all| {
      assert all[..n] == all;
    } else {
      var front := all[..|all| - 1];
      assert front[..n] == all[..n];
      NothingAfterTheEnd(front, n);
    }
  }

  /** Where an unfinished answer stands. */
  ghost predicate Standing(all: seq<Frame>, n: nat, taken: seq<Frame>, events: seq<Event>, s: Status) {
    && Selected(all, n, taken) && !Ended(taken)
    && s.lastSeq == LastNumber(taken)
    && Bracketed(events, true, false) && (s.isFirst <==> events == []) && Addressed(events, taken)
    && (AllOrdinary(taken) && Repeating(taken) ==> Progress(s.book, taken, events))
  }

  /** What holds of a finished answer. */
  ghost predicate Complete(all: seq<Frame>, taken: seq<Frame>, events: seq<Event>) {
    && Increasing(taken) && Ended(taken) && taken == Accepted(all)
    && Bracketed(events, true, true) && Addressed(events, taken)
    && (AllOrdinary(taken) && Repeating(taken) ==> Heard(events) == if Silenced(taken) then "" else Kept(taken).words)
  }

  /** A frame that is dropped, or has no device, changes nothing. */
  lemma FrameDropped(all: seq<Frame>, n: nat, taken: seq<Frame>, events: seq<Event>, s: Status)
    requires Standing(all, n, taken, events, s) && n < |all|
    requires all[n].device == "" || !InSequence(s.lastSeq, all[n])
    ensures Standing(all, n + 1, taken, events, s)
  {
    SelectNext(all, n, taken);
  }

  lemma WordsAdvance(taken: seq<Frame>, f: Frame, events: seq<Event>, s: Status, es: seq<Event>, s': Status)
    requires AllOrdinary(taken) && Repeating(taken) ==> Progress(s.book, taken, events)
    requires GoodBook(s.book) && Handled(s, f, f.device, es, true, s')
    ensures AllOrdinary(taken + [f]) && Repeating(taken + [f]) ==>
              if IsDone(f) then Heard(events + es) == if Silenced(taken + [f]) then "" else Kept(taken + [f]).words
              else Progress(s'.book, taken + [f], events + es)
  {
    if AllOrdinary(taken + [f]) && Repeating(taken + [f]) {
      assert f in taken + [f] && forall g :: g in taken ==> g in taken + [f];
      SnocFrames(taken, f);
      if IsDone(f) {
        LastStep(s.book, taken, events, f, es, s'.book);
      } else {
        ProgressStep(s.book, taken, events, f, es, s'.book);
      }
    }
  }

  /** One accepted frame. */
  lemma FrameTaken(all: seq<Frame>, n: nat, taken: seq<Frame>, events: seq<Event>, s: Status, es: seq<Event>, s': Status)
    requires Standing(all, n, taken, events, s) && n < |all| && GoodBook(s.book) && all[n].device != ""
    requires Handled(s, all[n], all[n].device, es, true, s')
    ensures !IsDone(all[n]) ==> Standing(all, n + 1, taken + [all[n]], events + es, s')
    ensures IsDone(all[n]) ==> Complete(all, taken + [all[n]], events + es)
  {
    var f := all[n];
    SelectNext(all, n, taken);
    Advance(taken, events, s, f, es, s');
    WordsAdvance(taken, f, events, s, es, s');
    if IsDone(f) {
      NothingAfterTheEnd(all, n + 1);
    }
  }

  lemma Advance(taken: seq<Frame>, events: seq<Event>, s: Status, f: Frame, es: seq<Event>, s': Status)
    requires Increasing(taken) && s.lastSeq == LastNumber(taken)
    requires Bracketed(events, true, false) && (s.isFirst <==> events == []) && Addressed(events, taken)
    requires Handled(s, f, f.device, es, true, s')
    ensures Increasing(taken + [f]) && s'.lastSeq == LastNumber(taken + [f])
    ensures Bracketed(events + es, true, IsDone(f)) && (!IsDone(f) ==> (s'.isFirst <==> events + es == []))
    ensures Addressed(events + es, taken + [f])
  {
    TakeNext(taken, f);
    BracketedAppend(events, es, IsDone(f));
    AddressedAppend(events, taken, es, f);
  }

  lemma Beginning(known: string, frames: seq<Frame>)
    ensures Standing(Routed(known, frames), 0, [], [], NEW_STATUS)
  {
    NothingHeld();
    assert Progress(NEW_BOOK, [], []);
  }

  /** What happens to a frame depends on the device it goes to, not on the one it names. */
  lemma HandledRouted(s: Status, f: Frame, to: string, es: seq<Event>, accepted: bool, s': Status)
    requires Handled(s, f, to, es, accepted, s')
    ensures Handled(s, f.(device := to), to, es, accepted, s')
  {
  }

  /** One frame, accepted or not. */
  lemma FrameSeen(all: seq<Frame>, n: nat, f: Frame, to: string, taken: seq<Frame>, events: seq<Event>,
      s: Status, es: seq<Event>, accepted: bool, s': Status)
    requires Standing(all, n, taken, events, s) && n < |all| && GoodBook(s.book) && all[n] == f.(device := to)
    requires if to == "" then es == [] && !accepted && s' == s else Handled(s, f, to, es, accepted, s')
    ensures !accepted ==> Standing(all, n + 1, taken, events, s')
    ensures accepted && !IsDone(f) ==> Standing(all, n + 1, taken + [all[n]], events + es, s')
    ensures accepted && IsDone(f) ==> Complete(all, taken + [all[n]], events + es)
  {
    if accepted {
      HandledRouted(s, f, to, es, true, s');
      FrameTaken(all, n, taken, events, s, es, s');
    } else {
      FrameDropped(all, n, taken, events, s);
    }
  }

  /** What the fields of a frame say about its events: whether it is accepted, and whether it ends the answer. */
  lemma HandledMeans(s: Status, f: Frame, to: string, es: seq<Event>, accepted: bool, s': Status)
    requires s.lastSeq >= 0 && Handled(s, f, to, es, accepted, s')
    ensures accepted <==> f.seqNo <= 0 || f.seqNo > s.lastSeq
    ensures accepted && (f.done || (f.seqNo <= 0 && !f.tagged)) ==> IsDone(f) && es != [] && es[|es| - 1].isEnd
    ensures accepted && !f.done && (f.seqNo > 0 || f.tagged) ==> !IsDone(f) && forall k :: 0 <= k < |es| ==> !es[k].isEnd
  {
    DoneMeans(f);
  }

  lemma OtherEntries<V>(m: map<string, V>, key: string, value: V)
    ensures m[key := value] - {key} == m - {key} && (m - {key}) - {key} == m - {key}
  {
  }

  class AgentSession {
    var streams: map<string, ResponseStream>
    var pending: map<string, string>

    constructor ()
      ensures Valid() && streams == map[] && pending == map[]
    {
      streams, pending := map[], map[];
    }

    ghost predicate Valid()
      reads this, streams.Values
    {
      && (forall c :: c in streams ==> streams[c].Valid())
      && (forall c, d :: c in streams && d in streams && c != d ==> streams[c] != streams[d])
    }

    ghost function Objects(correlation: string): set<object>
      reads this
    {
      if correlation in streams then {streams[correlation]} else {}
    }

    ghost function StatusOf(correlation: string): Status
      reads this, Objects(correlation)
    {
      if correlation in streams then streams[correlation].Now() else NEW_STATUS
    }

    /** The stream knows its device. */
    ghost predicate Settled(correlation: string)
      reads this, Objects(correlation)
    {
      correlation in streams && TrimSpace(streams[correlation].device) != ""
    }

    /** The device of the stream, or that of the pending request. */
    ghost function HomeOf(correlation: string): string
      reads this, Objects(correlation)
    {
      if Settled(correlation) then TrimSpace(streams[correlation].device)
      else if correlation in pending then TrimSpace(pending[correlation])
      else ""
    }

    method Route(correlation: string, f: Frame) returns (to: string)
      requires Valid()
      ensures to == Destination(HomeOf(correlation), f) && TrimSpace(to) == to
      ensures Valid() && Objects(correlation) == old(Objects(correlation)) && StatusOf(correlation) == old(StatusOf(correlation))
      ensures Settled(correlation) == old(Settled(correlation)) && HomeOf(correlation) == old(HomeOf(correlation))
    {
      to := Device(f);
      TrimSpaceResult(f.device);
      if to == "" && correlation in streams {
        to := TrimSpace(streams[correlation].device);
        TrimSpaceResult(streams[correlation].device);
      }
      if to == "" && correlation in pending {
        to := TrimSpace(pending[correlation]);
        TrimSpaceResult(pending[correlation]);
      }
    }

    /** LoadOrCreateStream */
    method LoadOrCreate(correlation: string) returns (state: ResponseStream)
      requires Valid()
      modifies this`streams
      ensures Valid() && correlation in streams && streams[correlation] == state
      ensures correlation in old(streams) ==> streams == old(streams)
      ensures correlation !in old(streams) ==> fresh(state) && streams == old(streams)[correlation := state]
      ensures StatusOf(correlation) == old(StatusOf(correlation))
      ensures Settled(correlation) == old(Settled(correlation)) && HomeOf(correlation) == old(HomeOf(correlation))
    {
      if correlation !in streams {
        var created := new ResponseStream();
        TrimSpaceResult("");
        streams := streams[correlation := created];
      }
      state := streams[correlation];
    }

    /** HandleResponse for a frame with a correlation id.  A frame is accepted if it
        has a device and its sequence number, if positive, exceeds the last one. */
    method HandleResponse(correlation: string, f: Frame)
      returns (events: seq<Event>, accepted: bool, to: string, ghost status: Status, ghost part: string)
      requires Valid()
      modifies this, Objects(correlation)
      ensures Valid() && fresh(Objects(correlation) - old(Objects(correlation)))
      ensures to == Destination(old(HomeOf(correlation)), f)
      ensures if to == "" then events == [] && !accepted && status == old(StatusOf(correlation))
              else Handled(old(StatusOf(correlation)), f, to, events, accepted, status)
      ensures if accepted && IsDone(f) then correlation !in streams && correlation !in pending
              else StatusOf(correlation) == status && pending == old(pending)
      ensures accepted ==> TextsSent(old(StatusOf(correlation)).book, f, to, part, events, status.book)
      ensures accepted <==> to != "" && (f.seqNo <= 0 || f.seqNo > old(StatusOf(correlation)).lastSeq)
      ensures accepted && (f.done || (f.seqNo <= 0 && !f.tagged)) ==>
                events != [] && events[|events| - 1].isEnd && correlation !in streams && correlation !in pending
      ensures accepted && !f.done && (f.seqNo > 0 || f.tagged) ==>
                correlation in streams && forall k :: 0 <= k < |events| ==> !events[k].isEnd
      ensures to == "" ==> Settled(correlation) == old(Settled(correlation)) && HomeOf(correlation) == old(HomeOf(correlation))
      ensures to != "" && !(accepted && IsDone(f)) ==>
                Settled(correlation) && HomeOf(correlation) == if old(Settled(correlation)) then old(HomeOf(correlation)) else to
      ensures streams - {correlation} == old(streams) - {correlation}
      ensures pending - {correlation} == old(pending) - {correlation}
    {
      to := Route(correlation, f);
      status := StatusOf(correlation);
      if to == "" { return [], false, to, status, ""; }
      events, accepted, status, part := Consume(correlation, f, to);
    }

    /** A routed frame: the stream, new or not, takes it, and goes with the end of the answer. */
    method Consume(correlation: string, f: Frame, to: string)
      returns (events: seq<Event>, accepted: bool, ghost status: Status, ghost part: string)
      requires Valid() && to != "" && TrimSpace(to) == to
      modifies this, Objects(correlation)
      ensures Valid() && fresh(Objects(correlation) - old(Objects(correlation)))
      ensures Handled(old(StatusOf(correlation)), f, to, events, accepted, status)
      ensures accepted ==> TextsSent(old(StatusOf(correlation)).book, f, to, part, events, status.book)
      ensures accepted <==> f.seqNo <= 0 || f.seqNo > old(StatusOf(correlation)).lastSeq
      ensures accepted && (f.done || (f.seqNo <= 0 && !f.tagged)) ==> IsDone(f) && events != [] && events[|events| - 1].isEnd
      ensures accepted && !f.done && (f.seqNo > 0 || f.tagged) ==> !IsDone(f) && forall k :: 0 <= k < |events| ==> !events[k].isEnd
      ensures streams - {correlation} == old(streams) - {correlation}
      ensures if accepted && IsDone(f) then correlation !in streams && pending == old(pending) - {correlation}
              else correlation in streams && StatusOf(correlation) == status && pending == old(pending)
      ensures !(accepted && IsDone(f)) ==>
                Settled(correlation) && HomeOf(correlation) == if old(Settled(correlation)) then old(HomeOf(correlation)) else to
    {
      var state := LoadOrCreate(correlation);
      OtherEntries(old(streams), correlation, state);
      OtherEntries(streams, correlation, state);
      events, accepted, part := Feed(correlation, state, f, to);
      status := state.Now();
      HandledMeans(old(StatusOf(correlation)), f, to, events, accepted, status);
      if accepted && IsDone(f) { Remove(correlation); }
    }

    method Feed(ghost correlation: string, state: ResponseStream, f: Frame, to: string)
      returns (events: seq<Event>, accepted: bool, ghost part: string)
      requires Valid() && correlation in streams && streams[correlation] == state
      modifies state
      ensures Valid() && Handled(old(state.Now()), f, to, events, accepted, state.Now())
      ensures accepted ==> TextsSent(old(state.View()), f, to, part, events, state.View())
      ensures state.device == if TrimSpace(old(state.device)) == "" then to else old(state.device)
    {
      events, accepted, part := state.HandleFrame(f, to);
      assert forall c :: c in streams && c != correlation ==> streams[c] != state;
    }

    /** RemovePending and RemoveStream */
    method Remove(correlation: string)
      requires Valid()
      modifies this`pending, this`streams
      ensures Valid() && streams == old(streams) - {correlation} && pending == old(pending) - {correlation}
    {
      pending := pending - {correlation};
      streams := streams - {correlation};
    }

    /** The frames of one correlation id, up to and including the first accepted final one,
        whatever mix of deltas, snapshots, stale and unroutable frames they are.  Accepted are the
        routed ones in sequence; IsStart marks the first event only, IsEnd the last event of a
        finished answer only.  When snapshots repeat the answer, an ordinary device hears
        each word of the answer kept exactly once, which is the answer meant if contents follow each
        other in order; an answer that is silenced is not heard at all. */
    method HandleAnswer(correlation: string, frames: seq<Frame>)
      returns (events: seq<Event>, taken: seq<Frame>, done: bool)
      requires Valid() && correlation !in streams
      modifies this
      ensures Valid()
      ensures Bracketed(events, true, done) && (done <==> Ended(taken)) && Increasing(taken) && Addressed(events, taken)
      ensures taken == Accepted(Routed(old(HomeOf(correlation)), frames))
      ensures done && AllOrdinary(taken) && Repeating(taken) ==>
                Heard(events) == if Silenced(taken) then "" else Kept(taken).words
      ensures done && AllOrdinary(taken) && Repeating(taken) && Orderly(taken) ==>
                Heard(events) == if Silenced(taken) then "" else Meant(taken).words
    {
      ghost var known := HomeOf(correlation);
      Beginning(known, frames);
      events, taken, done := TakeFrames(correlation, frames, known);
      KeptAsMeant(taken);
      if !done { assert Routed(known, frames)[..|frames|] == Routed(known, frames); }
    }

    method TakeFrames(correlation: string, frames: seq<Frame>, ghost known: string)
      returns (events: seq<Event>, taken: seq<Frame>, done: bool)
      requires Valid() && correlation !in streams && Underway(correlation, known, frames, 0, [], [])
      modifies this
      ensures Valid()
      ensures if done then Complete(Routed(known, frames), taken, events)
              else Underway(correlation, known, frames, |frames|, taken, events)
    {
      events, taken, done := [], [], false;
      for i := 0 to |frames|
        invariant Valid() && forall o :: o in Objects(correlation) ==> fresh(o)
        invariant !done && Underway(correlation, known, frames, i, taken, events)
      {
        events, taken, done := TakeFrame(correlation, frames, i, events, taken, known);
        if done { return; }
      }
    }

    /** After `n` of the frames the answer is not finished. */
    ghost predicate Underway(correlation: string, known: string, frames: seq<Frame>, n: nat, taken: seq<Frame>, events: seq<Event>)
      reads this, Objects(correlation)
    {
      && RouteStands(known, frames, n, HomeOf(correlation), Settled(correlation))
      && Standing(Routed(known, frames), n, taken, events, StatusOf(correlation))
    }

    method TakeFrame(correlation: string, frames: seq<Frame>, n: nat, events: seq<Event>, taken: seq<Frame>, ghost known: string)
      returns (events': seq<Event>, taken': seq<Frame>, done: bool)
      requires Valid() && n < |frames| && Underway(correlation, known, frames, n, taken, events)
      modifies this, Objects(correlation)
      ensures Valid() && forall o :: o in Objects(correlation) ==> o in old(Objects(correlation)) || fresh(o)
      ensures if done then Complete(Routed(known, frames), taken', events')
              else Underway(correlation, known, frames, n + 1, taken', events')
    {
      ghost var all, status, home, settled := Routed(known, frames), StatusOf(correlation), HomeOf(correlation), Settled(correlation);
      var es, accepted, to, status', _ := HandleResponse(correlation, frames[n]);
      events', taken', done := events, taken, false;
      if accepted {
        events', taken', done := events + es, taken + [frames[n].(device := to)], IsDone(frames[n]);
      }
      FrameSeen(all, n, frames[n], to, taken, events, status, es, accepted, status') by {
        RoutedTo(known, frames, n, home, settled, to);
      }
      if !done { RouteNext(known, frames, n, home, settled, to, HomeOf(correlation), Settled(correlation)); }
    }
  }
}

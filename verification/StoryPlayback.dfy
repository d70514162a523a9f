/**
 Checkpoints and resumption of a story: ComputePlayPosition and the segment functions
 of internal/domain/story/segment.go, draft_playback.go, and the text and position
 parts of the save methods in service.go.
 */
module StoryPlayback {
  import opened Basics
  import opened Runes
  import opened StorySentences

  datatype PlayPosition = PlayPosition(
    segmentIndex: int, charOffset: int, lastSentenceIndex: int, lastSentence: string)

  /** The parts of a StoryRecord that playback uses. */
  datatype StoryRecord = StoryRecord(fullText: string, position: PlayPosition)

  /** strings.Join(ss, "") */
  function Join(ss: seq<string>): string {
    if ss == [] then "" else ss[0] + Join(ss[1..])
  }

  lemma {:induction false} JoinAppend(a: seq<string>, b: seq<string>)
    ensures Join(a + b) == Join(a) + Join(b)
  {
    if a == [] {
      assert a + b == b;
    } else {
      assert (a + b)[1..] == a[1..] + b;
      JoinAppend(a[1..], b);
    }
  }

  lemma {:induction false} JoinSpoken(ss: seq<string>)
    requires AllSpoken(ss)
    ensures Trimmed(Join(ss)) && (ss != [] ==> Join(ss) != "")
  {
    if ss != [] {
      JoinSpoken(ss[1..]);
      assert Spoken(ss[0]);
    }
  }

  // ---------- Segments ----------

  /** Up to three sentences a segment. */
  function Segments(ss: seq<string>): seq<string>
    decreases |ss|
  {
    if ss == [] then [] else if |ss| <= 3 then [Join(ss)] else [Join(ss[..3])] + Segments(ss[3..])
  }

  /** SegmentText */
  method SegmentText(fullText: string) returns (segments: seq<string>)
    ensures segments == Segments(Sentences(fullText))
  {
    var ss := SplitSentences(fullText);
    SentencesSpoken(fullText);
    segments := [];
    var group: seq<string> := [];
    NoneBefore(ss[0..]);
    NoneBefore(Segments(ss));
    for i := 0 to |ss|
      invariant |group| < 3 && AllSpoken(group)
      invariant segments + Segments(group + ss[i..]) == Segments(ss)
    {
      ShiftOne(group, ss, i);
      group := group + [ss[i]];
      if |group| >= 3 {
        FullSegment(group, ss[i + 1..]);
        ConcatAssoc(segments, [Join(group)], Segments(ss[i + 1..]));
        segments := segments + [Join(group)];
        group := [];
        NoneBefore(ss[i + 1..]);
      }
    }
    assert group + ss[|ss|..] == group;
    LastSegment(group);
    if |Join(group)| > 0 {
      segments := segments + [Join(group)];
    } else {
      assert segments + [] == segments;
    }
  }

  lemma NoneBefore(ss: seq<string>)
    ensures [] + ss == ss
  {
  }

  lemma LastSegment(group: seq<string>)
    requires |group| < 3 && AllSpoken(group)
    ensures Segments(group) == if |Join(group)| > 0 then [Join(group)] else []
  {
    JoinSpoken(group);
  }

  lemma ShiftOne(group: seq<string>, ss: seq<string>, i: nat)
    requires i < |ss|
    ensures group + ss[i..] == (group + [ss[i]]) + ss[i + 1..]
  {
  }

  lemma FullSegment(group: seq<string>, later: seq<string>)
    requires |group| == 3
    ensures Segments(group + later) == [Join(group)] + Segments(later)
  {
    if later == [] {
      assert group + later == group && [Join(group)] + [] == [Join(group)];
    } else {
      assert (group + later)[..3] == group && (group + later)[3..] == later;
    }
  }

  /** Cutting into segments keeps the text of the sentences. */
  lemma {:induction false} SegmentsKeepText(ss: seq<string>)
    ensures Join(Segments(ss)) == Join(ss)
    decreases |ss|
  {
    if ss == [] {
    } else if |ss| <= 3 {
      assert [Join(ss)][1..] == [];
    } else {
      SegmentsKeepText(ss[3..]);
      JoinAppend(ss[..3], ss[3..]);
      assert ss == ss[..3] + ss[3..];
      assert ([Join(ss[..3])] + Segments(ss[3..]))[1..] == Segments(ss[3..]);
    }
  }

  /** The first segment whose end reaches the offset. */
  function SegmentFor(segments: seq<string>, offset: int): nat {
    if |segments| <= 1 || |segments[0]| >= offset then 0
    else 1 + SegmentFor(segments[1..], offset - |segments[0]|)
  }

  /** SegmentIndexForCharOffset */
  method SegmentIndexForCharOffset(segments: seq<string>, charOffset: int) returns (index: int)
    ensures index == if charOffset <= 0 then 0 else SegmentFor(segments, charOffset)
  {
    if charOffset <= 0 || |segments| == 0 { return 0; }
    var acc := 0;
    assert segments[0..] == segments;
    for i := 0 to |segments|
      invariant acc < charOffset
      invariant i < |segments| ==> i + SegmentFor(segments[i..], charOffset - acc) == SegmentFor(segments, charOffset)
      invariant i == |segments| ==> SegmentFor(segments, charOffset) == |segments| - 1
    {
      assert segments[i..][1..] == segments[i + 1..];
      acc := acc + |segments[i]|;
      if acc >= charOffset { return i; }
    }
    return |segments| - 1;
  }

  /** CharOffsetForSegment */
  function OffsetOf(segments: seq<string>, index: nat): nat
    requires index <= |segments|
  {
    |Join(segments[..index])|
  }

  /** A segment index and an offset agree: the offset lies in the segment. */
  lemma {:induction false} OffsetInSegment(segments: seq<string>, offset: int)
    requires 0 < offset <= |Join(segments)|
    ensures var i := SegmentFor(segments, offset);
            i < |segments| && OffsetOf(segments, i) < offset <= OffsetOf(segments, i + 1)
    decreases |segments|
  {
    assert segments[..0] == [] && segments[..1] == [segments[0]];
    assert [segments[0]][1..] == [];
    if |segments| > 1 && |segments[0]| < offset {
      OffsetInSegment(segments[1..], offset - |segments[0]|);
      var i := SegmentFor(segments[1..], offset - |segments[0]|);
      OffsetOfTail(segments, i);
      OffsetOfTail(segments, i + 1);
    } else if |segments| == 1 {
      assert segments == [segments[0]];
    }
  }

  /** Before the text it is the first segment, behind its end the last one. */
  lemma {:induction false} OffsetOutside(segments: seq<string>, offset: int)
    requires segments != []
    ensures SegmentFor(segments, offset) < |segments|
    ensures offset <= 0 ==> SegmentFor(segments, offset) == 0
    ensures offset > |Join(segments)| ==> SegmentFor(segments, offset) == |segments| - 1
    decreases |segments|
  {
    if |segments| > 1 { OffsetOutside(segments[1..], offset - |segments[0]|); }
  }

  lemma OffsetOfTail(segments: seq<string>, i: nat)
    requires segments != [] && i < |segments|
    ensures OffsetOf(segments, i + 1) == |segments[0]| + OffsetOf(segments[1..], i)
  {
    assert segments[..i + 1][0] == segments[0] && segments[..i + 1][1..] == segments[1..][..i];
  }

  // ---------- Positions ----------

  /** How many whole sentences fit into n runes. */
  function HeardCount(ss: seq<string>, n: int): nat {
    if ss == [] || |ss[0]| > n then 0 else 1 + HeardCount(ss[1..], n - |ss[0]|)
  }

  lemma {:induction false} HeardCountBounds(ss: seq<string>, n: nat)
    ensures HeardCount(ss, n) <= |ss| && |Join(ss[..HeardCount(ss, n)])| <= n
    ensures HeardCount(ss, n) < |ss| ==> n < |Join(ss[..HeardCount(ss, n) + 1])|
    decreases |ss|
  {
    if ss == [] || |ss[0]| > n {
      if ss != [] {
        assert ss[..1] == [ss[0]] && [ss[0]][1..] == [];
      }
    } else {
      HeardCountBounds(ss[1..], n - |ss[0]|);
      var h := HeardCount(ss[1..], n - |ss[0]|);
      JoinTail(ss, h);
      if h + 1 < |ss| { JoinTail(ss, h + 1); }
    }
  }

  lemma JoinTail(ss: seq<string>, i: nat)
    requires ss != [] && i < |ss|
    ensures Join(ss[..i + 1]) == ss[0] + Join(ss[1..][..i])
  {
    assert ss[..i + 1][0] == ss[0] && ss[..i + 1][1..] == ss[1..][..i];
  }

  /** Whole sentences are counted exactly. */
  lemma {:induction false} HeardCountExact(ss: seq<string>, j: nat)
    requires j <= |ss| && AllSpoken(ss)
    ensures HeardCount(ss, |Join(ss[..j])|) == j
    decreases |ss|
  {
    if j > 0 {
      JoinTail(ss, j - 1);
      HeardCountExact(ss[1..], j - 1);
    } else if ss != [] {
      assert Spoken(ss[0]);
    }
  }

  const ZERO_POSITION := PlayPosition(0, 0, 0, "")

  function Position(fullText: string, spoken: string): PlayPosition {
    var n := |TrimSpace(spoken)|;
    if n <= 0 then ZERO_POSITION
    else
      var ss := Sentences(fullText);
      var h := HeardCount(ss, n);
      HeardCountBounds(ss, n);
      var last := if h > 0 then h - 1 else if |ss| > 0 then 0 else -1;
      PlayPosition(SegmentFor(Segments(ss), n), n, last, if last < 0 then "" else ss[last])
  }

  /** ComputePlayPosition */
  method ComputePlayPosition(fullText: string, spoken: string) returns (position: PlayPosition)
    ensures position == Position(fullText, spoken)
  {
    var spokenRunes := |TrimSpace(spoken)|;
    if spokenRunes <= 0 { return ZERO_POSITION; }
    var segments := SegmentText(fullText);
    var ss := SplitSentences(fullText);
    var lastIdx, lastSent, acc := -1, "", 0;
    assert ss[0..] == ss;
    for i := 0 to |ss|
      invariant acc >= 0 && -1 <= lastIdx < i && lastSent == if lastIdx < 0 then "" else ss[lastIdx]
      invariant if acc <= spokenRunes
                then lastIdx == i - 1 && i + HeardCount(ss[i..], spokenRunes - acc) == HeardCount(ss, spokenRunes)
                else lastIdx + 1 == HeardCount(ss, spokenRunes)
    {
      assert ss[i..][1..] == ss[i + 1..];
      acc := acc + |ss[i]|;
      if acc <= spokenRunes {
        lastIdx, lastSent := i, ss[i];
      }
    }
    if lastIdx < 0 && |ss| > 0 {
      lastIdx, lastSent := 0, ss[0];
    }
    var segment := SegmentIndexForCharOffset(segments, spokenRunes);
    position := PlayPosition(segment, spokenRunes, lastIdx, lastSent);
  }

  /** Nothing heard is the first position of all. */
  lemma NothingHeard(fullText: string, spoken: string)
    requires TrimSpace(spoken) == ""
    ensures Position(fullText, spoken) == PlayPosition(0, 0, 0, "")
  {
  }

  /** After heard text the position counts its runes, names the segment they end in, and the last of the
      sentences that are heard whole, or else the first one, if there is any. */
  lemma PositionMeans(fullText: string, spoken: string)
    requires TrimSpace(spoken) != ""
    ensures var p, ss, n := Position(fullText, spoken), Sentences(fullText), |TrimSpace(spoken)|;
            var i := p.lastSentenceIndex;
            && p.charOffset == n && -1 <= i < |ss| && (i == -1 <==> ss == [])
            && p.lastSentence == (if ss == [] then "" else ss[i])
            && (i > 0 ==> |Join(ss[..i + 1])| <= n)
            && (0 <= i < |ss| - 1 && |Join(ss[..i + 1])| <= n ==> n < |Join(ss[..i + 2])|)
            && (i == 0 && |ss| > 1 ==> n < |Join(ss[..2])|)
            && p.segmentIndex == SegmentFor(Segments(ss), n)
  {
    var ss, n := Sentences(fullText), |TrimSpace(spoken)|;
    HeardCountBounds(ss, n);
    if |ss| > 1 && HeardCount(ss, n) == 0 {
      JoinTail(ss, 0);
      JoinTail(ss, 1);
      assert ss[1..][..0] == [];
    }
  }

  // ---------- Draft playback ----------

  function SpokenPrefix(rec: StoryRecord): string {
    var full := TrimSpace(rec.fullText);
    if full == "" then ""
    else
      var ss := Sentences(full);
      var idx := rec.position.lastSentenceIndex;
      if ss == [] then full
      else if 0 <= idx < |ss| then Join(ss[..idx + 1])
      else if rec.position.charOffset <= 0 then ""
      else
        HeardCountBounds(ss, rec.position.charOffset);
        Join(ss[..HeardCount(ss, rec.position.charOffset)])
  }

  /** SpokenTextPrefix, with the scan of spokenPrefixByOffset */
  method SpokenTextPrefix(rec: StoryRecord) returns (prefix: string)
    ensures prefix == SpokenPrefix(rec)
  {
    var full := TrimSpace(rec.fullText);
    if full == "" { return ""; }
    var ss := SplitSentences(full);
    if |ss| == 0 { return full; }
    var idx := rec.position.lastSentenceIndex;
    if idx >= 0 && idx < |ss| { return Join(ss[..idx + 1]); }
    var charOffset := rec.position.charOffset;
    if charOffset <= 0 { return ""; }
    HeardCountBounds(ss, charOffset);
    var acc, lastComplete := 0, -1;
    assert ss[0..] == ss;
    for i := 0 to |ss|
      invariant acc >= 0 && -1 <= lastComplete < i
      invariant if acc <= charOffset
                then lastComplete == i - 1 && i + HeardCount(ss[i..], charOffset - acc) == HeardCount(ss, charOffset)
                else lastComplete + 1 == HeardCount(ss, charOffset)
    {
      assert ss[i..][1..] == ss[i + 1..];
      acc := acc + |ss[i]|;
      if acc <= charOffset { lastComplete := i; }
    }
    if lastComplete >= 0 { return Join(ss[..lastComplete + 1]); }
    return "";
  }

  function FirstReaching(ss: seq<string>, offset: int): nat {
    if ss == [] || offset <= 0 then 0 else 1 + FirstReaching(ss[1..], offset - |ss[0]|)
  }

  /** The first sentence at which the offset is reached: all before it end below the offset. */
  lemma {:induction false} FirstReachingBounds(ss: seq<string>, offset: int)
    ensures var i := FirstReaching(ss, offset);
            && i <= |ss| && (i < |ss| ==> |Join(ss[..i])| >= offset)
            && (i > 0 ==> |Join(ss[..i - 1])| < offset)
    decreases |ss|
  {
    if ss != [] && offset > 0 {
      var i := FirstReaching(ss[1..], offset - |ss[0]|);
      FirstReachingBounds(ss[1..], offset - |ss[0]|);
      if i < |ss| - 1 { JoinTail(ss, i); }
      if i > 0 { JoinTail(ss, i - 1); }
    }
  }

  function FirstUnspoken(rec: StoryRecord): int {
    var ss := Sentences(TrimSpace(rec.fullText));
    if ss == [] then 0
    else if rec.position.lastSentenceIndex >= 0 then rec.position.lastSentenceIndex + 1
    else FirstReaching(ss, rec.position.charOffset)
  }

  /** FirstUnspokenSentenceIndex */
  method FirstUnspokenSentenceIndex(rec: StoryRecord) returns (index: int)
    ensures index == FirstUnspoken(rec)
  {
    var full := TrimSpace(rec.fullText);
    if full == "" { return 0; }
    var ss := SplitSentences(full);
    if |ss| == 0 { return 0; }
    if rec.position.lastSentenceIndex >= 0 { return rec.position.lastSentenceIndex + 1; }
    var charOffset := rec.position.charOffset;
    if charOffset <= 0 { return 0; }
    var acc := 0;
    assert ss[0..] == ss;
    for i := 0 to |ss|
      invariant i + FirstReaching(ss[i..], charOffset - acc) == FirstReaching(ss, charOffset)
    {
      assert ss[i..][1..] == ss[i + 1..];
      if acc >= charOffset { return i; }
      acc := acc + |ss[i]|;
    }
    return |ss|;
  }

  /** DraftPlaybackSentences */
  function Draft(rec: StoryRecord): seq<string> {
    var ss := Sentences(TrimSpace(rec.fullText));
    var start := FirstUnspoken(rec);
    if 0 <= start < |ss| then ss[start..] else []
  }

  /** The draft is what follows the first unspoken sentence, and all of it for a record without position. */
  lemma DraftMeans(rec: StoryRecord)
    ensures var ss, start := Sentences(TrimSpace(rec.fullText)), FirstUnspoken(rec);
            && start >= 0 && (start <= |ss| ==> ss[..start] + Draft(rec) == ss) && (start > |ss| ==> Draft(rec) == [])
            && (rec.position.lastSentenceIndex >= 0 && ss != [] ==> start == rec.position.lastSentenceIndex + 1)
            && (rec.position.lastSentenceIndex < 0 && rec.position.charOffset <= 0 ==> start == 0 && Draft(rec) == ss)
            && (rec.position.lastSentenceIndex < 0 ==> start == FirstReaching(ss, rec.position.charOffset))
  {
    FirstReachingBounds(Sentences(TrimSpace(rec.fullText)), rec.position.charOffset);
  }

  /** Without a usable sentence index, the spoken prefix is the longest run of whole sentences within the
      offset. */
  lemma SpokenPrefixMeans(rec: StoryRecord)
    requires !(0 <= rec.position.lastSentenceIndex < |Sentences(TrimSpace(rec.fullText))|)
    ensures var ss, n := Sentences(TrimSpace(rec.fullText)), rec.position.charOffset;
            if n <= 0 || TrimSpace(rec.fullText) == "" then ss != [] ==> SpokenPrefix(rec) == ""
            else ss != [] ==> exists h: nat :: h <= |ss| && SpokenPrefix(rec) == Join(ss[..h]) && |SpokenPrefix(rec)| <= n
                                && (h < |ss| ==> n < |Join(ss[..h + 1])|)
  {
    var ss, n := Sentences(TrimSpace(rec.fullText)), rec.position.charOffset;
    if n > 0 { HeardCountBounds(ss, n); }
  }

  /** MergeHeardStoryText */
  function MergeHeard(baseline: string, session: string): string {
    var b, s := TrimSpace(baseline), TrimSpace(session);
    if b != "" && s != "" then b + s else if s != "" then s else b
  }

  /** Heard text is joined without white space between, whichever part is blank. */
  lemma HeardJoins(baseline: string, session: string)
    ensures MergeHeard(baseline, session) == TrimSpace(baseline) + TrimSpace(session)
  {
  }

  // ---------- Resuming ----------

  /** The record says that exactly the first j sentences, at least one, are heard. */
  ghost predicate At(rec: StoryRecord, j: nat) {
    1 <= j <= |Sentences(rec.fullText)| && rec.position.lastSentenceIndex == j - 1
  }

  lemma BlankHasNoSentences()
    ensures Sentences("") == []
  {
  }

  lemma AtMeans(rec: StoryRecord, j: nat)
    requires At(rec, j)
    ensures var ss := Sentences(rec.fullText);
            Draft(rec) == ss[j..] && SpokenPrefix(rec) == Join(ss[..j])
  {
    SentencesOfTrimmed(rec.fullText);
    BlankHasNoSentences();
  }

  /** ComputePlayPosition of any heard text, saved and resumed, plays exactly the
      sentences not wholly heard if and only if at least one was wholly heard: a
      listener stopped within the first sentence loses the rest of it. */
  lemma CheckpointResumesIff(fullText: string, heard: string)
    ensures var ss := Sentences(fullText);
            var h := HeardCount(ss, |TrimSpace(heard)|);
            && h <= |ss|
            && (Draft(StoryRecord(fullText, Position(fullText, heard))) == ss[h..] <==> h >= 1 || ss == [])
            && (h >= 1 ==> At(StoryRecord(fullText, Position(fullText, heard)), h))
  {
    var ss := Sentences(fullText);
    var n := |TrimSpace(heard)|;
    HeardCountBounds(ss, n);
    SentencesOfTrimmed(fullText);
    SentencesSpoken(fullText);
    if n == 0 && ss != [] { assert Spoken(ss[0]); }
  }

  /** One session that plays the first k draft sentences and is then interrupted.
      SaveGenerationCheckpoint stores the trimmed text and the new position; a
      session that played nothing stores nothing. */
  function Listen(rec: StoryRecord, k: nat): StoryRecord
    requires k <= |Draft(rec)|
  {
    if k == 0 then rec
    else
      var heard := MergeHeard(SpokenPrefix(rec), Join(Draft(rec)[..k]));
      var full := TrimSpace(rec.fullText);
      StoryRecord(full, Position(full, heard))
  }

  /** A session moves the position by exactly the sentences it played. */
  lemma ListenAdvances(rec: StoryRecord, j: nat, k: nat)
    requires At(rec, j) && j + k <= |Sentences(rec.fullText)|
    ensures var ss := Sentences(rec.fullText);
            && k <= |Draft(rec)| && Draft(rec)[..k] == ss[j..j + k]
            && Sentences(Listen(rec, k).fullText) == ss && At(Listen(rec, k), j + k)
  {
    var ss := Sentences(rec.fullText);
    AtMeans(rec, j);
    SentencesOfTrimmed(rec.fullText);
    assert ss[j..][..k] == ss[j..j + k];
    if k > 0 {
      SentencesSpoken(rec.fullText);
      MergedHearing(ss, j, k);
      HeardPosition(TrimSpace(rec.fullText), ss, j + k);
    }
  }

  /** Hearing the first n sentences of a text puts the position after them. */
  lemma HeardPosition(full: string, ss: seq<string>, n: nat)
    requires ss == Sentences(full) && 0 < n <= |ss| && AllSpoken(ss)
    requires TrimSpace(Join(ss[..n])) == Join(ss[..n]) != ""
    ensures At(StoryRecord(full, Position(full, Join(ss[..n]))), n)
  {
    HeardCountExact(ss, n);
  }

  /** What was heard before and in the session is a prefix of the sentences. */
  lemma MergedHearing(ss: seq<string>, j: nat, k: nat)
    requires AllSpoken(ss) && 0 < j && 0 < k && j + k <= |ss|
    ensures var heard := MergeHeard(Join(ss[..j]), Join(ss[j..j + k]));
            heard == Join(ss[..j + k]) && TrimSpace(heard) == heard && heard != ""
  {
    JoinSpoken(ss[..j]);
    JoinSpoken(ss[j..j + k]);
    JoinSpoken(ss[..j + k]);
    TrimSpaceResult(Join(ss[..j]));
    TrimSpaceResult(Join(ss[j..j + k]));
    TrimSpaceResult(Join(ss[..j + k]));
    JoinAppend(ss[..j], ss[j..j + k]);
    assert ss[..j] + ss[j..j + k] == ss[..j + k];
  }

  // ---------- Growing the draft ----------

  const FENCE := "```"

  /** strings.TrimPrefix */
  function TrimPrefix(text: string, part: string): string {
    if part <= text then text[|part|..] else text
  }

  predicate EndsWith(text: string, part: string) {
    |part| <= |text| && text[|text| - |part|..] == part
  }

  /** strings.TrimSuffix */
  function TrimSuffix(text: string, part: string): string {
    if EndsWith(text, part) then text[..|text| - |part|] else text
  }

  /** TrimStoryOutput */
  function TrimOutput(text: string): string {
    TrimSpace(TrimSuffix(TrimPrefix(TrimSpace(text), FENCE), FENCE))
  }

  /** mergeStoryText */
  function MergeStory(base: string, addition: string): string {
    var b, a := TrimSpace(base), TrimOutput(addition);
    if b == "" then a
    else if a == "" then b
    else if b <= a then a
    else b + a
  }

  /** A part that a text begins or ends with is cut off once, another one never. */
  lemma TrimParts(text: string, part: string)
    ensures TrimPrefix(part + text, part) == text && TrimSuffix(text + part, part) == text
    ensures !(part <= text) ==> TrimPrefix(text, part) == text
    ensures !EndsWith(text, part) ==> TrimSuffix(text, part) == text
  {
    assert (part + text)[|part|..] == text && (part + text)[..|part|] == part;
    assert (text + part)[|text|..] == part && (text + part)[..|text|] == text;
  }

  /** A trimmed text comes out of fences, whichever are there. */
  lemma FencesGo(body: string, front: string, back: string)
    requires Spoken(body) && body[0] != '`' && body[|body| - 1] != '`'
    requires front in ["", FENCE] && back in ["", FENCE]
    ensures TrimOutput(front + body + back) == body
  {
    TrimSpaceResult(front + body + back);
    TrimSpaceResult(body);
    FrontFence(front, body, back);
    BackFence(body, back);
  }

  lemma FrontFence(front: string, body: string, back: string)
    requires body != "" && body[0] != '`' && front in ["", FENCE]
    ensures TrimPrefix(front + body + back, FENCE) == body + back
  {
    var t := front + body + back;
    assert t[|front|] == body[0];
    if front == FENCE { assert t[3..] == body + back; } else { assert t == body + back; }
  }

  lemma BackFence(body: string, back: string)
    requires body != "" && body[|body| - 1] != '`' && back in ["", FENCE]
    ensures TrimSuffix(body + back, FENCE) == body
  {
    var t := body + back;
    if back == FENCE {
      assert t[|t| - 3..] == FENCE && t[..|body|] == body;
    } else {
      assert t == body;
      if |t| >= 3 { assert t[|t| - 3..][2] == body[|body| - 1]; }
    }
  }

  predicate EndsMarked(text: string) {
    text != "" && IsSentenceEnd(text[|text| - 1])
  }

  /** A merged text is trimmed and extends the trimmed base. */
  lemma MergeExtends(base: string, addition: string)
    ensures TrimSpace(base) <= MergeStory(base, addition) && Trimmed(MergeStory(base, addition))
  {
    TrimSpaceResult(base);
    TrimOutputTrimmed(addition);
  }

  /** No text of the addition is lost: the merged text ends with it, and where the trimmed base does
      not begin it the rest after the base is exactly the addition. */
  lemma MergeAdds(base: string, addition: string)
    ensures var b, a, m := TrimSpace(base), TrimOutput(addition), MergeStory(base, addition);
            && EndsWith(m, a) && b <= m
            && (b <= a && a != "" ==> m == a)
            && (!(b <= a) ==> m[|b|..] == a)
  {
  }

  /** What the merge adds after the trimmed base. */
  function NewText(base: string, addition: string): string {
    var b, a := TrimSpace(base), TrimOutput(addition);
    if b <= a then a[|b|..] else a
  }

  /** The grown text has the finished sentences of the base, and then those of its open rest joined with the new
      text. */
  lemma GrownSentences(base: string, addition: string)
    ensures var b, m := TrimSpace(base), MergeStory(base, addition);
            && m == b + NewText(base, addition)
            && Sentences(m) == Finished(b) + Sentences(Rest(b) + NewText(base, addition))
  {
    MergeIs(TrimSpace(base), TrimOutput(addition), MergeStory(base, addition));
    FeedSplits(TrimSpace(base), NewText(base, addition));
  }

  lemma MergeIs(b: string, a: string, m: string)
    requires m == if b == "" then a else if a == "" then b else if b <= a then a else b + a
    ensures m == b + if b <= a then a[|b|..] else a
  {
    if b <= a { assert a == b + a[|b|..]; } else if a == "" { assert b + a == b; }
  }

  lemma TrimOutputTrimmed(text: string)
    ensures Trimmed(TrimOutput(text))
  {
    TrimSpaceResult(TrimSuffix(TrimPrefix(TrimSpace(text), FENCE), FENCE));
  }

  lemma {:induction false} ScanEndsMarked(open: string, text: string)
    ensures text != "" && IsSentenceEnd(text[|text| - 1]) ==> Scan(open, text).1 == ""
    ensures text != "" && !IsSentenceEnd(text[|text| - 1]) ==>
              Scan(open, text).1 != "" && Scan(open, text).1[|Scan(open, text).1| - 1] == text[|text| - 1]
    decreases |text|
  {
    if text != "" {
      var open' := if IsSentenceEnd(text[0]) then "" else open + [text[0]];
      if |text| == 1 {
        assert text[1..] == "";
      } else {
        ScanEndsMarked(open', text[1..]);
      }
    }
  }

  /** The finished sentences of a text begin the sentences of every extension. */
  lemma GrowthKeepsFinished(base: string, merged: string)
    requires base <= merged
    ensures Finished(base) <= Sentences(base) && Finished(base) <= Sentences(merged)
  {
    FeedSplits(base, merged[|base|..]);
    assert base + merged[|base|..] == merged;
  }

  /** How many sentences of a trimmed text are finished: all, or all but the last. */
  lemma FinishedCount(base: string)
    requires Trimmed(base) && base != ""
    ensures |Sentences(base)| == |Finished(base)| + if EndsMarked(base) then 0 else 1
    ensures EndsMarked(base) <==> Rest(base) == ""
  {
    ScanEndsMarked("", base);
    var rest := Rest(base);
    if rest != "" { NotBlank(rest, |rest| - 1); }
  }

  /** Growing the draft. */
  function Grow(rec: StoryRecord, addition: string): StoryRecord {
    rec.(fullText := MergeStory(rec.fullText, addition))
  }

  lemma GrowKeepsPosition(rec: StoryRecord, j: nat, addition: string)
    requires At(rec, j) && (j < |Sentences(rec.fullText)| || EndsMarked(TrimSpace(rec.fullText)))
    ensures At(Grow(rec, addition), j)
    ensures Sentences(Grow(rec, addition).fullText)[..j] == Sentences(rec.fullText)[..j]
    ensures SpokenPrefix(Grow(rec, addition)) == SpokenPrefix(rec)
  {
    var base := TrimSpace(rec.fullText);
    var merged := MergeStory(rec.fullText, addition);
    TrimSpaceResult(rec.fullText);
    SentencesOfTrimmed(rec.fullText);
    MergeExtends(rec.fullText, addition);
    BlankHasNoSentences();
    GrowthKeepsFinished(base, merged);
    FinishedCount(base);
    AtMeans(rec, j);
    assert Sentences(merged)[..j] == Finished(base)[..j] == Sentences(base)[..j];
    AtMeans(Grow(rec, addition), j);
  }

  /** The sentence that was still open grows by any text that is not blank. */
  lemma {:induction false} OpenSentenceGrows(r: string, y: string, x: string)
    requires r != "" && !IsSpace(r[|r| - 1]) && x != "" && !IsSpace(x[|x| - 1])
    ensures SentencesFrom(r + y, x) != [] && |SentencesFrom(r + y, x)[0]| > |TrimSpace(r)|
    decreases |x|
  {
    var c := x[0];
    SentencesStep(r + y, x);
    assert (r + y) + [c] == r + (y + [c]);
    if IsSentenceEnd(c) {
      EndIsNotSpace(c);
      TrimLonger(r, y, c);
    } else if |x| == 1 {
      assert x[1..] == "";
      TrimLonger(r, y, c);
    } else {
      OpenSentenceGrows(r, y + [c], x[1..]);
    }
  }

  /** If every sentence was heard and the last one has no mark, any growth of the
      draft extends that sentence, and the position then counts text as heard that
      was not: the spoken prefix is unchanged exactly when the draft is. */
  lemma UnfinishedGrowth(rec: StoryRecord, addition: string)
    requires At(rec, |Sentences(rec.fullText)|) && !EndsMarked(TrimSpace(rec.fullText))
    ensures SpokenPrefix(Grow(rec, addition)) == SpokenPrefix(rec)
       <==> MergeStory(rec.fullText, addition) == TrimSpace(rec.fullText)
  {
    var base, merged := TrimSpace(rec.fullText), MergeStory(rec.fullText, addition);
    var ss := Sentences(rec.fullText);
    var n := |ss|;
    TrimSpaceResult(rec.fullText);
    SentencesOfTrimmed(rec.fullText);
    MergeExtends(rec.fullText, addition);
    BlankHasNoSentences();
    FinishedCount(base);
    AtMeans(rec, n);
    if merged != base { HeardTextGrew(base, merged); }
    AtMeans(Grow(rec, addition), n);
    assert ss[..n] == ss;
  }

  lemma HeardTextGrew(base: string, merged: string)
    requires Trimmed(base) && base != "" && !EndsMarked(base)
    requires base <= merged && base != merged && Trimmed(merged)
    ensures var n := |Sentences(base)|;
            0 < n <= |Sentences(merged)| && |Join(Sentences(merged)[..n])| > |Join(Sentences(base))|
  {
    var ss, ss' := Sentences(base), Sentences(merged);
    var n := |ss|;
    LastSentenceGrew(base, merged);
    FinishedCount(base);
    GrowthKeepsFinished(base, merged);
    var f := Finished(base);
    assert ss == f + [ss[n - 1]] && ss'[..n] == f + [ss'[n - 1]];
    JoinSnoc(f, ss[n - 1]);
    JoinSnoc(f, ss'[n - 1]);
  }

  lemma LastSentenceGrew(base: string, merged: string)
    requires Trimmed(base) && base != "" && !EndsMarked(base)
    requires base <= merged && base != merged && Trimmed(merged)
    ensures var n := |Sentences(base)|;
            && n > 0 && |Sentences(merged)| >= n
            && |Sentences(merged)[n - 1]| > |Sentences(base)[n - 1]|
  {
    var x := merged[|base|..];
    assert base + x == merged;
    FinishedCount(base);
    ScanEndsMarked("", base);
    FeedSplits(base, x);
    ScanRestUnmarked("", base);
    ScanFromRest(Rest(base), x);
    assert Rest(base) + "" == Rest(base);
    OpenSentenceGrows(Rest(base), "", x);
    var f := Finished(base);
    assert Sentences(merged) == f + SentencesFrom(Rest(base), x);
    assert Sentences(base)[|f|] == TrimSpace(Rest(base));
  }

  lemma JoinSnoc(ss: seq<string>, s: string)
    ensures Join(ss + [s]) == Join(ss) + s
  {
    JoinAppend(ss, [s]);
    assert [s][1..] == [] && s + "" == s;
  }

  // ---------- Whole runs ----------

  /** Listening sessions, and growth of the draft between them. */
  datatype Round = Hear(k: nat) | More(addition: string)

  /** A session plays what the draft has; the draft grows while a sentence is still
      to be played or the text ends with a mark. */
  predicate Allowed(rec: StoryRecord, round: Round) {
    match round
    case Hear(k) => k <= |Draft(rec)|
    case More(_) => Draft(rec) != [] || EndsMarked(TrimSpace(rec.fullText))
  }

  function After(rec: StoryRecord, round: Round): StoryRecord
    requires Allowed(rec, round)
  {
    match round
    case Hear(k) => Listen(rec, k)
    case More(addition) => Grow(rec, addition)
  }

  function PlayedIn(rec: StoryRecord, round: Round): seq<string>
    requires Allowed(rec, round)
  {
    match round
    case Hear(k) => Draft(rec)[..k]
    case More(_) => []
  }

  predicate AllAllowed(rec: StoryRecord, rounds: seq<Round>)
    decreases |rounds|
  {
    rounds == [] || (Allowed(rec, rounds[0]) && AllAllowed(After(rec, rounds[0]), rounds[1..]))
  }

  function AfterAll(rec: StoryRecord, rounds: seq<Round>): StoryRecord
    requires AllAllowed(rec, rounds)
    decreases |rounds|
  {
    if rounds == [] then rec else AfterAll(After(rec, rounds[0]), rounds[1..])
  }

  function Played(rec: StoryRecord, rounds: seq<Round>): seq<string>
    requires AllAllowed(rec, rounds)
    decreases |rounds|
  {
    if rounds == [] then [] else PlayedIn(rec, rounds[0]) + Played(After(rec, rounds[0]), rounds[1..])
  }

  lemma SplitAt(ss: seq<string>, j: nat, k: nat)
    requires j + k <= |ss|
    ensures ss[..j + k] == ss[..j] + ss[j..j + k]
  {
  }

  lemma RoundAdvances(rec: StoryRecord, j: nat, round: Round) returns (j': nat)
    requires At(rec, j) && Allowed(rec, round)
    ensures j <= j' && At(After(rec, round), j')
    ensures Sentences(After(rec, round).fullText)[..j'] == Sentences(rec.fullText)[..j] + PlayedIn(rec, round)
  {
    AtMeans(rec, j);
    match round
    case Hear(k) =>
      ListenAdvances(rec, j, k);
      j' := j + k;
      SplitAt(Sentences(rec.fullText), j, k);
    case More(addition) =>
      GrowKeepsPosition(rec, j, addition);
      j' := j;
  }

  predicate Contains(text: string, part: string) {
    exists p :: 0 <= p <= |text| && part <= text[p..]
  }

  /** The text only grows. */
  lemma {:induction false} TextGrows(rec: StoryRecord, rounds: seq<Round>)
    requires AllAllowed(rec, rounds)
    ensures TrimSpace(rec.fullText) <= TrimSpace(AfterAll(rec, rounds).fullText)
    decreases |rounds|
  {
    if rounds != [] {
      RoundGrows(rec, rounds[0]);
      TextGrows(After(rec, rounds[0]), rounds[1..]);
    }
  }

  lemma RoundGrows(rec: StoryRecord, round: Round)
    requires Allowed(rec, round)
    ensures TrimSpace(rec.fullText) <= TrimSpace(After(rec, round).fullText)
    ensures round.More? ==> EndsWith(TrimSpace(After(rec, round).fullText), TrimOutput(round.addition))
  {
    TrimSpaceResult(rec.fullText);
    TrimSpaceResult(TrimSpace(rec.fullText));
    if round.More? { GrowGrows(rec, round.addition); }
  }

  lemma GrowGrows(rec: StoryRecord, addition: string)
    ensures TrimSpace(rec.fullText) <= TrimSpace(Grow(rec, addition).fullText)
    ensures EndsWith(TrimSpace(Grow(rec, addition).fullText), TrimOutput(addition))
  {
    MergeExtends(rec.fullText, addition);
    MergeAdds(rec.fullText, addition);
    TrimSpaceResult(MergeStory(rec.fullText, addition));
  }

  /** The final text holds every addition. */
  lemma {:induction false} AdditionsStay(rec: StoryRecord, rounds: seq<Round>, i: nat)
    requires AllAllowed(rec, rounds) && i < |rounds| && rounds[i].More?
    ensures Contains(TrimSpace(AfterAll(rec, rounds).fullText), TrimOutput(rounds[i].addition))
    decreases |rounds|
  {
    var rec' := After(rec, rounds[0]);
    if i > 0 {
      AdditionsStay(rec', rounds[1..], i - 1);
    } else {
      RoundGrows(rec, rounds[0]);
      TextGrows(rec', rounds[1..]);
      StaysInside(TrimSpace(rec'.fullText), TrimSpace(AfterAll(rec', rounds[1..]).fullText), TrimOutput(rounds[0].addition));
    }
  }

  lemma StaysInside(text: string, longer: string, part: string)
    requires text <= longer && EndsWith(text, part)
    ensures Contains(longer, part)
  {
    var p := |text| - |part|;
    assert longer[p..][..|part|] == text[p..];
  }

  /** Over any number of rounds of listening, interruption, resumption and growth,
      what is played is exactly the next stretch of the final text's sentences -
      none repeated, none skipped - the record's spoken prefix is exactly what was heard
      from the start, and the final text holds every addition. */
  lemma {:induction false} RunPlaysInOrder(rec: StoryRecord, j: nat, rounds: seq<Round>) returns (j': nat)
    requires At(rec, j) && AllAllowed(rec, rounds)
    ensures j <= j' && At(AfterAll(rec, rounds), j')
    ensures var ss := Sentences(AfterAll(rec, rounds).fullText);
            && ss[..j'] == Sentences(rec.fullText)[..j] + Played(rec, rounds)
            && SpokenPrefix(AfterAll(rec, rounds)) == Join(ss[..j'])
            && Draft(AfterAll(rec, rounds)) == ss[j'..]
    ensures forall i :: 0 <= i < |rounds| && rounds[i].More? ==>
              Contains(TrimSpace(AfterAll(rec, rounds).fullText), TrimOutput(rounds[i].addition))
    decreases |rounds|
  {
    forall i | 0 <= i < |rounds| && rounds[i].More?
      ensures Contains(TrimSpace(AfterAll(rec, rounds).fullText), TrimOutput(rounds[i].addition))
    {
      AdditionsStay(rec, rounds, i);
    }
    if rounds == [] {
      j' := j;
      AtMeans(rec, j);
    } else {
      var j1 := RoundAdvances(rec, j, rounds[0]);
      var rec1 := After(rec, rounds[0]);
      j' := RunPlaysInOrder(rec1, j1, rounds[1..]);
      ConcatAssoc(Sentences(rec.fullText)[..j], PlayedIn(rec, rounds[0]), Played(rec1, rounds[1..]));
    }
  }
}

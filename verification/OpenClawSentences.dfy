/**
 Cutting a normalised answer into sentences, from internal/domain/openclaw/manager.go.
 */
module OpenClawSentences {
  import opened Basics
  import opened OpenClawText
  import opened OpenClawWords
  import opened OpenClawPieces
  import opened Runes

  method SkipDelimiters(runes: string, start: nat) returns (at: nat)
    requires start <= |runes|
    ensures start <= at <= |runes| && forall k :: start <= k < at ==> IsDelimiter(runes[k])
  {
    at := start;
    while at < |runes| && IsDelimiter(runes[at])
      invariant start <= at <= |runes| && forall k :: start <= k < at ==> IsDelimiter(runes[k])
    {
      at := at + 1;
    }
  }

  ghost predicate HasSeparator(s: string) {
    s != "" && (IsSentenceSeparator(s[|s| - 1]) || HasSeparator(s[..|s| - 1]))
  }

  /** The text up to its last separator. */
  function Closed(s: string): string {
    if s == "" || IsSentenceSeparator(s[|s| - 1]) then s else Closed(s[..|s| - 1])
  }

  lemma ClosedStep(s: string, i: nat)
    requires i < |s|
    ensures Closed(s[..i + 1]) == if IsSentenceSeparator(s[i]) then s[..i + 1] else Closed(s[..i])
  {
    assert s[..i + 1][..i] == s[..i];
  }

  lemma SegmentTrimmed(s: string)
    ensures Trimmed(TrimSegment(s))
  {
    TrimSpaceResult(ReplaceBlanks(TrimCutset(TrimSpace(s))));
  }

  lemma {:induction false} BlanksNotEmpty(s: string)
    ensures s != "" ==> ReplaceBlanks(s) != ""
    ensures s != "" && !IsSpace(s[0]) ==> !IsSpace(ReplaceBlanks(s)[0])
  {
  }

  /** The first segment of a normal text is never trimmed away. */
  lemma FirstSegment(t: string, n: nat)
    requires IsNormal(t) && 0 < n <= |t|
    ensures TrimSegment(t[..n]) != ""
  {
    var s := t[..n];
    assert Keeps(Start, t[0]) && s[0] == t[0];
    TrimLeftResult(s);
    TrimRightResult(s);
    var trimmed := TrimSpace(s);
    assert trimmed[0] == s[0];
    assert TrimCutset(trimmed) == trimmed;
    BlanksNotEmpty(trimmed);
    TrimLeftResult(ReplaceBlanks(trimmed));
    TrimRightResult(ReplaceBlanks(trimmed));
  }

  /** The words of several texts, one after the other. */
  function Said(ss: seq<string>): string {
    if ss == [] then "" else Said(ss[..|ss| - 1]) + Words(ss[|ss| - 1])
  }

  lemma SaidSnoc(ss: seq<string>, s: string)
    ensures Said(ss + [s]) == Said(ss) + Words(s)
  {
    assert (ss + [s])[..|ss|] == ss;
  }

  ghost predicate AllPlain(ss: seq<string>) {
    forall k :: 0 <= k < |ss| ==> Plain(ss[k])
  }

  lemma HasSeparatorStep(s: string, i: nat)
    requires i < |s|
    ensures HasSeparator(s[..i + 1]) <==> IsSentenceSeparator(s[i]) || HasSeparator(s[..i])
  {
    assert s[..i + 1][..i] == s[..i];
  }

  /** The sentences hold the words up to `start`, in order. */
  ghost predicate Tracks(runes: string, ss: seq<string>, start: nat) {
    && start <= |runes|
    && Said(ss) + Words(runes[start..]) == Words(runes)
    && (Plain(runes) ==> AllPlain(ss))
  }

  lemma SegmentSaid(ss: seq<string>, piece: string)
    ensures Said(AddSegment(ss, TrimSegment(piece))) == Said(ss) + Words(piece)
  {
    var segment := TrimSegment(piece);
    WordsTrimSegment(piece);
    SaidSnoc(ss, segment);
  }

  lemma SegmentPlain(runes: string, ss: seq<string>, from: nat, to: nat)
    requires from <= to <= |runes| && Plain(runes) && AllPlain(ss)
    ensures AllPlain(AddSegment(ss, TrimSegment(runes[from..to])))
  {
    PlainPart(runes, from, to);
    PlainTrimSegment(runes[from..to]);
  }

  lemma SplitWords(runes: string, from: nat, to: nat)
    requires from <= to <= |runes|
    ensures Words(runes[from..]) == Words(runes[from..to]) + Words(runes[to..])
  {
    assert runes[from..] == runes[from..to] + runes[to..];
    WordsAppend(runes[from..to], runes[to..]);
  }

  lemma SkippedWords(runes: string, from: nat, to: nat)
    requires from <= to <= |runes| && forall k :: from <= k < to ==> IsDelimiter(runes[k])
    ensures Words(runes[from..]) == Words(runes[to..])
  {
    SplitWords(runes, from, to);
    WordlessHasNone(runes[from..to]);
  }

  lemma TracksStep(runes: string, ss: seq<string>, start: nat, end: nat, ss': seq<string>, start': nat)
    requires Tracks(runes, ss, start) && start <= end <= start' <= |runes|
    requires forall k :: end <= k < start' ==> IsDelimiter(runes[k])
    requires Said(ss') == Said(ss) + Words(runes[start..end]) && (Plain(runes) ==> AllPlain(ss'))
    ensures Tracks(runes, ss', start') && Said(ss') == Words(runes[..end])
  {
    WordsMoveOn(runes, Said(ss), start, end, start');
    SkippedWords(runes, end, start');
    SaidBefore(runes, ss', end, start');
  }

  lemma WordsMoveOn(runes: string, said: string, start: nat, end: nat, start': nat)
    requires start <= end <= start' <= |runes| && said + Words(runes[start..]) == Words(runes)
    requires forall k :: end <= k < start' ==> IsDelimiter(runes[k])
    ensures (said + Words(runes[start..end])) + Words(runes[start'..]) == Words(runes)
  {
    SkippedWords(runes, end, start');
    SplitWords(runes, start, end);
    ConcatAssoc(said, Words(runes[start..end]), Words(runes[start'..]));
  }

  /** When all words from `from` on are still to come, the others have been said. */
  lemma SaidBefore(runes: string, ss: seq<string>, from: nat, start: nat)
    requires Tracks(runes, ss, start) && from <= |runes| && Words(runes[from..]) == Words(runes[start..])
    ensures Said(ss) == Words(runes[..from])
  {
    assert runes == runes[..from] + runes[from..];
    WordsAppend(runes[..from], runes[from..]);
    SameFront(Said(ss), Words(runes[..from]), Words(runes[from..]));
  }

  lemma SameFront(a: string, b: string, c: string)
    requires a + c == b + c
    ensures a == b
  {
    assert |a| == |b|;
    assert a == (a + c)[..|a|] && b == (b + c)[..|b|];
  }

  lemma TracksEnd(runes: string, ss: seq<string>, start: nat)
    requires Tracks(runes, ss, start)
    ensures Said(ss) + Words(TrimSegment(runes[start..])) == Words(runes)
    ensures Plain(runes) ==> AllPlain(ss) && Plain(TrimSegment(runes[start..]))
  {
    WordsTrimSegment(runes[start..]);
    if Plain(runes) {
      PlainPart(runes, start, |runes|);
      assert runes[start..|runes|] == runes[start..];
      PlainTrimSegment(runes[start..]);
    }
  }

  /** The state of the loop before rune `i`: no separator since `start`, and no sentence
      exactly when there was no separator at all. */
  ghost predicate Cutting(runes: string, i: nat, start: nat, ss: seq<string>) {
    && i <= |runes| && start <= |runes|
    && (forall k :: i <= k < start ==> !IsSentenceSeparator(runes[k]))
    && (forall k :: start <= k < i ==> !IsSentenceSeparator(runes[k]))
    && AllSpoken(ss)
    && (ss == [] ==> start == 0)
    && (ss == [] <==> !HasSeparator(runes[..i]))
  }

  lemma PassRune(runes: string, i: nat, start: nat, ss: seq<string>)
    requires Cutting(runes, i, start, ss) && i < |runes| && !IsSentenceSeparator(runes[i])
    ensures Cutting(runes, i + 1, start, ss)
  {
    HasSeparatorStep(runes, i);
  }

  lemma CutAt(runes: string, i: nat, start: nat, ss: seq<string>, start': nat)
    requires IsNormal(runes) && Cutting(runes, i, start, ss) && i < start' <= |runes| && IsSentenceSeparator(runes[i])
    requires forall k :: i + 1 <= k < start' ==> IsDelimiter(runes[k])
    ensures start <= i && Cutting(runes, i + 1, start', AddSegment(ss, TrimSegment(runes[start..i + 1])))
  {
    HasSeparatorStep(runes, i);
    SegmentTrimmed(runes[start..i + 1]);
    if ss == [] {
      assert runes[0..i + 1] == runes[..i + 1];
      FirstSegment(runes, i + 1);
    }
    forall k | i + 1 <= k < start' ensures !IsSentenceSeparator(runes[k]) {
      NotBoth(runes[k]);
    }
  }

  /** The cut so far: the pieces before rune `from` are the sentences, and delimiters stand between `from` and
      `start`. */
  ghost predicate CutSoFar(runes: string, i: nat, from: nat, start: nat, ss: seq<string>) {
    && from <= i <= |runes| && from <= start <= |runes|
    && Delimiters(runes[from..start])
    && Cut(runes) == (ss + Segments(Pieces(runes[from..i], runes[i..]).0), TrimSegment(Pieces(runes[from..i], runes[i..]).1))
  }

  lemma CutStarts(runes: string)
    ensures CutSoFar(runes, 0, 0, 0, [])
  {
    assert runes[0..] == runes && runes[0..0] == "";
    var ss := Segments(Pieces("", runes).0);
    assert [] + ss == ss;
  }

  lemma CutPasses(runes: string, i: nat, from: nat, start: nat, ss: seq<string>)
    requires CutSoFar(runes, i, from, start, ss) && i < |runes| && !IsSentenceSeparator(runes[i])
    ensures CutSoFar(runes, i + 1, from, start, ss)
  {
    assert runes[from..i] + [runes[i]] == runes[from..i + 1] && runes[i..][1..] == runes[i + 1..];
  }

  lemma CutCloses(runes: string, i: nat, from: nat, start: nat, ss: seq<string>, start': nat)
    requires IsNormal(runes) && CutSoFar(runes, i, from, start, ss) && i < |runes| && IsSentenceSeparator(runes[i])
    requires start <= i && i < start' <= |runes| && forall k :: i + 1 <= k < start' ==> IsDelimiter(runes[k])
    ensures CutSoFar(runes, i + 1, i + 1, start', AddSegment(ss, TrimSegment(runes[start..i + 1])))
  {
    PieceSegment(runes, from, start, i + 1);
    PieceAhead(runes, from, i);
    DelimitersBetween(runes, i + 1, start');
    EmptySlice(runes, i + 1);
    AddedBefore(ss, TrimSegment(runes[start..i + 1]), Segments(Pieces("", runes[i + 1..]).0));
  }

  lemma EmptySlice(runes: string, i: nat)
    requires i <= |runes|
    ensures runes[i..i] == ""
  {
  }

  lemma DelimitersBetween(runes: string, from: nat, to: nat)
    requires IsNormal(runes) && from <= to <= |runes| && forall k :: from <= k < to ==> IsDelimiter(runes[k])
    ensures Delimiters(runes[from..to])
  {
    NormalBlanks(runes);
  }

  lemma PieceSegment(runes: string, from: nat, start: nat, to: nat)
    requires IsNormal(runes) && from <= start <= to <= |runes| && Delimiters(runes[from..start])
    ensures TrimSegment(runes[from..to]) == TrimSegment(runes[start..to])
  {
    NormalBlanks(runes);
    assert runes[from..to] == runes[from..start] + runes[start..to];
    DelimitersGo(runes[from..start], runes[start..to]);
  }

  lemma PieceAhead(runes: string, from: nat, i: nat)
    requires from <= i < |runes| && IsSentenceSeparator(runes[i])
    ensures var (ps, rest) := Pieces("", runes[i + 1..]);
            var (all, last) := Pieces(runes[from..i], runes[i..]);
            last == rest && Segments(all) == AddSegment([], TrimSegment(runes[from..i + 1])) + Segments(ps)
  {
    var ps := Pieces("", runes[i + 1..]).0;
    assert runes[from..i] + [runes[i]] == runes[from..i + 1] && runes[i..][1..] == runes[i + 1..];
    assert ([runes[from..i + 1]] + ps)[1..] == ps;
  }

  lemma AddedBefore(ss: seq<string>, segment: string, later: seq<string>)
    ensures ss + (AddSegment([], segment) + later) == AddSegment(ss, segment) + later
  {
  }

  lemma CutEnds(runes: string, from: nat, start: nat, ss: seq<string>)
    requires IsNormal(runes) && CutSoFar(runes, |runes|, from, start, ss)
    ensures Cut(runes) == (ss, TrimSegment(runes[start..]))
  {
    PieceSegment(runes, from, start, |runes|);
    assert runes[|runes|..] == "" && runes[start..|runes|] == runes[start..];
    assert ss + [] == ss;
  }

  lemma NormalBlanks(runes: string)
    requires IsNormal(runes)
    ensures OnlyBlanks(runes)
  {
    CanonicalIsStable(Start, runes);
    forall k | 0 <= k < |runes| ensures IsSpace(runes[k]) ==> runes[k] == ' ' {
      StableRunes(Start, runes, runes[k]);
    }
  }

  /** Before rune `i` the sentences are those of the runes so far. */
  ghost predicate SplitUpTo(runes: string, i: nat, from: nat, start: nat, ss: seq<string>) {
    && Tracks(runes, ss, start) && Cutting(runes, i, start, ss) && CutSoFar(runes, i, from, start, ss)
    && Said(ss) == Words(Closed(runes[..i]))
  }

  lemma SplitStarts(runes: string)
    ensures SplitUpTo(runes, 0, 0, 0, [])
  {
    NothingTracked(runes);
    CutStarts(runes);
  }

  lemma SplitPasses(runes: string, i: nat, from: nat, start: nat, ss: seq<string>)
    requires SplitUpTo(runes, i, from, start, ss) && i < |runes| && !IsSentenceSeparator(runes[i])
    ensures SplitUpTo(runes, i + 1, from, start, ss)
  {
    PassRune(runes, i, start, ss);
    CutPasses(runes, i, from, start, ss);
    ClosedStep(runes, i);
  }

  lemma SplitEnds(runes: string, from: nat, start: nat, ss: seq<string>)
    requires IsNormal(runes) && SplitUpTo(runes, |runes|, from, start, ss)
    ensures Tracks(runes, ss, start) && Cutting(runes, |runes|, start, ss) && Said(ss) == Words(Closed(runes))
    ensures Cut(runes) == (ss, TrimSegment(runes[start..]))
  {
    CutEnds(runes, from, start, ss);
    assert runes[..|runes|] == runes;
  }

  /** One separator of the loop: a segment with text becomes a sentence.  The
      minimum sentence length is 1, so no segment with text is too short. */
  method CloseSegment(runes: string, ghost from: nat, start: nat, i: nat, sentences: seq<string>)
    returns (sentences': seq<string>, start': nat)
    requires IsNormal(runes) && SplitUpTo(runes, i, from, start, sentences) && i < |runes| && IsSentenceSeparator(runes[i])
    ensures SplitUpTo(runes, i + 1, i + 1, start', sentences')
  {
    sentences' := sentences;
    var segment := TrimSegment(runes[start..i + 1]);
    if segment != "" {
      sentences' := sentences' + [segment];
    }
    start' := SkipDelimiters(runes, i + 1);
    CutAt(runes, i, start, sentences, start');
    CutCloses(runes, i, from, start, sentences, start');
    SegmentTracked(runes, start, i, sentences, start');
  }

  lemma SegmentTracked(runes: string, start: nat, i: nat, ss: seq<string>, start': nat)
    requires Tracks(runes, ss, start) && start <= i < start' <= |runes| && IsSentenceSeparator(runes[i])
    requires forall k :: i + 1 <= k < start' ==> IsDelimiter(runes[k])
    ensures var ss' := AddSegment(ss, TrimSegment(runes[start..i + 1]));
            Tracks(runes, ss', start') && Said(ss') == Words(Closed(runes[..i + 1]))
  {
    SegmentAdds(runes, ss, start, i + 1);
    TracksStep(runes, ss, start, i + 1, AddSegment(ss, TrimSegment(runes[start..i + 1])), start');
    ClosedStep(runes, i);
  }

  lemma SegmentAdds(runes: string, ss: seq<string>, from: nat, to: nat)
    requires from <= to <= |runes|
    ensures var ss' := AddSegment(ss, TrimSegment(runes[from..to]));
            Said(ss') == Said(ss) + Words(runes[from..to]) && (Plain(runes) && AllPlain(ss) ==> AllPlain(ss'))
  {
    SegmentSaid(ss, runes[from..to]);
    if Plain(runes) && AllPlain(ss) { SegmentPlain(runes, ss, from, to); }
  }

  lemma NothingTracked(runes: string)
    ensures Tracks(runes, [], 0)
  {
    assert runes[0..] == runes && "" + Words(runes) == Words(runes);
  }

  /** The sentences of a normal text and where the rest begins. */
  method SplitNormal(runes: string) returns (sentences: seq<string>, start: nat)
    requires IsNormal(runes)
    ensures Tracks(runes, sentences, start) && Cutting(runes, |runes|, start, sentences)
    ensures Said(sentences) == Words(Closed(runes))
    ensures Cut(runes) == (sentences, TrimSegment(runes[start..]))
  {
    start, sentences := 0, [];
    ghost var from := 0;
    SplitStarts(runes);
    for i := 0 to |runes|
      invariant SplitUpTo(runes, i, from, start, sentences)
    {
      if !IsSentenceSeparator(runes[i]) {
        SplitPasses(runes, i, from, start, sentences);
      } else {
        sentences, start := CloseSegment(runes, from, start, i, sentences);
        from := i + 1;
      }
    }
    SplitEnds(runes, from, start, sentences);
  }

  /** extractOpenClawSentences: the trimmed pieces of the canonical text up to and with each
      separator, and the rest.  Every sentence has text to speak, there is one exactly when the normalised text has a sentence separator, and the
      sentences hold the words up to the last separator and the rest those after it. */
  method ExtractSentences(text: string) returns (sentences: seq<string>, remaining: string)
    ensures (sentences, remaining) == Cut(Normalize(text))
    ensures AllSpoken(sentences) && Trimmed(remaining) && Sounds(remaining)
    ensures sentences == [] <==> !HasSeparator(Normalize(text))
    ensures Said(sentences) + Words(remaining) == Words(text)
    ensures Said(sentences) == Words(Closed(Normalize(text)))
    ensures Plain(text) ==> AllPlain(sentences) && Plain(remaining)
  {
    var runes := NormalizeSpeechText(text);
    NormalizeIsNormal(text);
    WordsNormalize(text);
    if Plain(text) { PlainNormalize(text); }
    if runes == "" {
      assert TrimSegment("") == "";
      return [], "";
    }
    var start;
    sentences, start := SplitNormal(runes);
    remaining := TrimSegment(runes[start..]);
    SegmentTrimmed(runes[start..]);
    SegmentSounds(runes, start);
    TracksEnd(runes, sentences, start);
    assert runes[..|runes|] == runes;
  }

  /** Runes of a stable text are no markup, and its white space is blanks. */
  lemma {:induction false} StableRunes(prev: Prev, s: string, c: char)
    requires Stable(prev, s) && c in s
    ensures c != '|' && !IsMarkup(c) && (IsSpace(c) ==> c == ' ')
    decreases |s|
  {
    if c != s[0] { StableRunes(After(s[0]), s[1..], c); }
  }

  /** A segment begins with a rune of its text that is outside the cutset. */
  lemma SegmentStart(s: string)
    requires forall c :: c in s && IsSpace(c) ==> c == ' '
    ensures var t := TrimSegment(s); t != "" ==> t[0] in s && !InCutset(t[0]) && !IsSpace(t[0])
  {
    var t := TrimCutset(TrimSpace(s));
    TrimmedRunes(s);
    CutRunes(TrimSpace(s));
    if t != "" {
      assert t[0] in s && !IsSpace(t[0]);
      ReplaceBlanksFirst(t);
      TrimSpaceFirst(ReplaceBlanks(t));
    }
  }

  lemma KeptAtStart(c: char)
    requires c != '|' && !IsMarkup(c) && !IsSpace(c) && !IsSentenceSeparator(c) && !InCutset(c)
    ensures Keeps(Start, c)
  {
  }

  lemma SegmentSounds(runes: string, start: nat)
    requires IsNormal(runes) && start <= |runes|
    requires forall k :: start <= k < |runes| ==> !IsSentenceSeparator(runes[k])
    ensures Sounds(TrimSegment(runes[start..]))
  {
    var s := runes[start..];
    CanonicalIsStable(Start, runes);
    forall c | c in s ensures (IsSpace(c) ==> c == ' ') && c != '|' && !IsMarkup(c) && !IsSentenceSeparator(c) {
      StableRunes(Start, runes, c);
    }
    SegmentStart(s);
    if TrimSegment(s) != "" { KeptAtStart(TrimSegment(s)[0]); }
  }

  lemma {:induction false} TrimLeftRunes(s: string)
    ensures forall c :: c in TrimLeft(s) ==> c in s
  {
    if s != "" && IsSpace(s[0]) { TrimLeftRunes(s[1..]); }
  }

  lemma TrimmedRunes(s: string)
    ensures forall c :: c in TrimSpace(s) ==> c in s
  {
    TrimLeftRunes(s);
    TrimRightResult(TrimLeft(s));
  }

  lemma {:induction false} CutRunes(s: string)
    ensures forall c :: c in TrimCutset(s) ==> c in s
    ensures TrimCutset(s) != "" ==> !InCutset(TrimCutset(s)[0])
  {
    if s != "" && InCutset(s[0]) { CutRunes(s[1..]); }
  }

  lemma NotBoth(c: char)
    ensures !(IsDelimiter(c) && IsSentenceSeparator(c))
  {
  }
}

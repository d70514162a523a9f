/**
 Sentence splitting of internal/domain/story: SplitSentences of segment.go on a whole
 text, and SentenceBuffer of sentence_buffer.go on a text that arrives in chunks.
 */
module StorySentences {
  import opened Basics
  import opened Runes

  predicate IsSentenceEnd(c: char) {
    c in "。！？!?…"
  }

  lemma EndIsNotSpace(c: char)
    requires IsSentenceEnd(c)
    ensures !IsSpace(c)
  {
  }

  /** Cuts a text after every sentence mark: the finished sentences, and what
      follows the last mark.  `open` is the text since the mark before. */
  function Scan(open: string, text: string): (seq<string>, string)
    decreases |text|
  {
    if text == "" then ([], open)
    else if IsSentenceEnd(text[0]) then
      var (ss, rest) := Scan("", text[1..]);
      ([TrimSpace(open + [text[0]])] + ss, rest)
    else Scan(open + [text[0]], text[1..])
  }

  function Finished(text: string): seq<string> {
    Scan("", text).0
  }

  function Rest(text: string): string {
    Scan("", text).1
  }

  /** An unfinished last sentence, unless it is blank. */
  function Tail(rest: string): seq<string> {
    if TrimSpace(rest) == "" then [] else [TrimSpace(rest)]
  }

  /** The sentences of a text: its pieces between marks, trimmed, the last one
      also without a mark. */
  function Sentences(text: string): seq<string> {
    Finished(text) + Tail(Rest(text))
  }

  ghost predicate Unmarked(s: string) {
    forall k :: 0 <= k < |s| ==> !IsSentenceEnd(s[k])
  }

  lemma {:induction false} ScanAppend(open: string, a: string, b: string)
    ensures var (s1, r1) := Scan(open, a);
            var (s2, r2) := Scan(r1, b);
            Scan(open, a + b) == (s1 + s2, r2)
    decreases |a|
  {
    if a == "" {
      assert a + b == b;
      assert [] + Scan(open, b).0 == Scan(open, b).0;
    } else {
      assert (a + b)[1..] == a[1..] + b;
      if IsSentenceEnd(a[0]) {
        ScanAppend("", a[1..], b);
        var (s1, r1) := Scan("", a[1..]);
        ConcatAssoc([TrimSpace(open + [a[0]])], s1, Scan(r1, b).0);
      } else {
        ScanAppend(open + [a[0]], a[1..], b);
      }
    }
  }

  lemma {:induction false} ScanRestUnmarked(open: string, text: string)
    requires Unmarked(open)
    ensures Unmarked(Scan(open, text).1)
    decreases |text|
  {
    if text != "" {
      ScanRestUnmarked(if IsSentenceEnd(text[0]) then "" else open + [text[0]], text[1..]);
    }
  }

  lemma {:induction false} ScanUnmarked(open: string, text: string)
    requires Unmarked(text)
    ensures Scan(open, text) == ([], open + text)
    decreases |text|
  {
    if text == "" {
      assert open + text == open;
    } else {
      ScanUnmarked(open + [text[0]], text[1..]);
      assert (open + [text[0]]) + text[1..] == open + text;
    }
  }

  /** What follows the last mark can be put in front of more text. */
  lemma ScanFromRest(rest: string, b: string)
    requires Unmarked(rest)
    ensures Scan("", rest + b) == Scan(rest, b)
  {
    ScanUnmarked("", rest);
    assert "" + rest == rest;
    ScanAppend("", rest, b);
    assert [] + Scan(rest, b).0 == Scan(rest, b).0;
  }

  /** Feeding a text in two parts, the second after the rest of the first. */
  lemma FeedSplits(a: string, b: string)
    ensures Finished(a + b) == Finished(a) + Finished(Rest(a) + b)
    ensures Rest(a + b) == Rest(Rest(a) + b)
    ensures Sentences(a + b) == Finished(a) + Sentences(Rest(a) + b)
  {
    ScanAppend("", a, b);
    ScanRestUnmarked("", a);
    ScanFromRest(Rest(a), b);
    ConcatAssoc(Finished(a), Finished(Rest(a) + b), Tail(Rest(a + b)));
  }

  // ---------- The sentence buffer ----------

  class SentenceBuffer {
    var pending: string

    constructor ()
      ensures pending == ""
    {
      pending := "";
    }

    /** Append: the sentences the chunk finished; the rest stays pending. */
    method Append(chunk: string) returns (sentences: seq<string>)
      requires Unmarked(pending)
      modifies this
      ensures Unmarked(pending)
      ensures sentences == Finished(old(pending) + chunk) && pending == Rest(old(pending) + chunk)
    {
      sentences := [];
      if chunk == "" {
        assert pending + chunk == pending;
        ScanUnmarked("", pending);
        assert "" + pending == pending;
        return;
      }
      pending := pending + chunk;
      var runes := pending;
      var lastEnd := 0;
      assert runes[0..] == runes && runes[0..0] == "";
      assert [] + Scan("", runes).0 == Scan("", runes).0;
      for i := 0 to |runes|
        invariant 0 <= lastEnd <= i && pending == runes
        invariant var (ss, rest) := Scan(runes[lastEnd..i], runes[i..]);
                  (sentences + ss, rest) == Scan("", runes)
      {
        assert runes[i..][1..] == runes[i + 1..];
        assert runes[lastEnd..i] + [runes[i]] == runes[lastEnd..i + 1];
        if IsSentenceEnd(runes[i]) {
          var sentence := TrimSpace(runes[lastEnd..i + 1]);
          MarkedNotBlank(runes[lastEnd..i], runes[i]);
          ConcatAssoc(sentences, [sentence], Scan("", runes[i + 1..]).0);
          lastEnd := i + 1;
          assert runes[lastEnd..i + 1] == "";
          if sentence != "" {
            sentences := sentences + [sentence];
          }
        }
      }
      assert sentences + [] == sentences;
      assert runes[|runes|..] == "";
      assert runes[lastEnd..|runes|] == runes[lastEnd..];
      ScanRestUnmarked("", runes);
      if lastEnd > 0 {
        pending := runes[lastEnd..];
      }
    }

    method Flush() returns (out: string)
      modifies this
      ensures out == TrimSpace(old(pending)) && pending == ""
    {
      out := TrimSpace(pending);
      pending := "";
    }
  }

  lemma MarkedNotBlank(s: string, c: char)
    requires IsSentenceEnd(c)
    ensures TrimSpace(s + [c]) != ""
  {
    EndIsNotSpace(c);
    NotBlank(s + [c], |s|);
  }

  function Concat(chunks: seq<string>): string {
    if chunks == [] then "" else chunks[0] + Concat(chunks[1..])
  }

  /** Any split of a text into chunks: the sentences from successive Append calls,
      and a non-blank Flush, are the sentences of the whole text. */
  method FeedAll(chunks: seq<string>) returns (all: seq<string>)
    ensures all == Sentences(Concat(chunks))
  {
    var buffer := new SentenceBuffer();
    all := [];
    ghost var text := Concat(chunks);
    assert "" + text == text && [] + Sentences(text) == Sentences(text);
    for i := 0 to |chunks|
      invariant fresh(buffer) && Unmarked(buffer.pending)
      invariant all + Sentences(buffer.pending + Concat(chunks[i..])) == Sentences(text)
    {
      assert chunks[i..][1..] == chunks[i + 1..];
      ghost var later := Concat(chunks[i + 1..]);
      ConcatAssoc(buffer.pending, chunks[i], later);
      FeedSplits(buffer.pending + chunks[i], later);
      var ss := buffer.Append(chunks[i]);
      ConcatAssoc(all, ss, Sentences(buffer.pending + later));
      all := all + ss;
    }
    assert chunks[|chunks|..] == [] && buffer.pending + "" == buffer.pending;
    ScanUnmarked("", buffer.pending);
    assert "" + buffer.pending == buffer.pending;
    assert [] + Tail(buffer.pending) == Tail(buffer.pending);
    var last := buffer.Flush();
    if last != "" {
      all := all + [last];
    } else {
      assert all + [] == all;
    }
  }

  // ---------- SplitSentences ----------

  function SentencesFrom(open: string, text: string): seq<string> {
    Scan(open, text).0 + Tail(Scan(open, text).1)
  }

  lemma SentencesStep(open: string, text: string)
    requires text != ""
    ensures SentencesFrom(open, text)
         == if IsSentenceEnd(text[0])
            then [TrimSpace(open + [text[0]])] + SentencesFrom("", text[1..])
            else SentencesFrom(open + [text[0]], text[1..])
  {
    if IsSentenceEnd(text[0]) {
      var (ss, rest) := Scan("", text[1..]);
      ConcatAssoc([TrimSpace(open + [text[0]])], ss, Tail(rest));
    }
  }

  lemma LastMark(open: string, c: char)
    requires IsSentenceEnd(c)
    ensures SentencesFrom(open, [c]) == SentencesFrom(open + [c], "")
  {
    MarkedNotBlank(open, c);
    assert [c][1..] == "";
    var s := TrimSpace(open + [c]);
    assert Scan(open, [c]) == ([s] + [], "") && Tail("") == [];
    assert Scan(open + [c], "") == ([], open + [c]);
    assert [] + [s] == [s] + [] + [];
  }

  lemma {:induction false} NothingFinished(open: string, text: string)
    requires Scan(open, text).0 == []
    ensures Scan(open, text).1 == open + text
    decreases |text|
  {
    if text == "" {
      assert open + text == open;
    } else {
      NothingFinished(open + [text[0]], text[1..]);
      assert (open + [text[0]]) + text[1..] == open + text;
    }
  }

  lemma SomeSentence(text: string)
    requires TrimSpace(text) != ""
    ensures Sentences(text) != []
  {
    if Finished(text) == [] {
      NothingFinished("", text);
      assert "" + text == text;
    }
  }

  /** SplitSentences yields the sentences of the text. */
  method SplitSentences(fullText: string) returns (sentences: seq<string>)
    ensures sentences == Sentences(fullText)
  {
    var runes := TrimSpace(fullText);
    SentencesOfTrimmed(fullText);
    sentences := [];
    if runes == "" { return; }
    var buf := "";
    assert runes[0..] == runes && [] + Sentences(runes) == Sentences(runes);
    for i := 0 to |runes|
      invariant sentences + SentencesFrom(buf, runes[i..]) == Sentences(runes)
    {
      assert runes[i..][1..] == runes[i + 1..];
      SentencesStep(buf, runes[i..]);
      var grown := buf + [runes[i]];
      if IsSentenceEnd(runes[i]) && i < |runes| - 1 {
        var s := TrimSpace(grown);
        MarkedNotBlank(buf, runes[i]);
        ConcatAssoc(sentences, [s], SentencesFrom("", runes[i + 1..]));
        if s != "" { sentences := sentences + [s]; }
        buf := "";
      } else {
        if IsSentenceEnd(runes[i]) {
          assert runes[i..] == [runes[i]];
          LastMark(buf, runes[i]);
        }
        buf := grown;
      }
    }
    assert runes[|runes|..] == "" && [] + Tail(buf) == Tail(buf);
    var tail := TrimSpace(buf);
    if tail != "" {
      sentences := sentences + [tail];
    } else {
      assert sentences + [] == sentences;
    }
    TrimSpaceResult(fullText);
    TrimSpaceResult(runes);
    SomeSentence(runes);
    if |sentences| == 0 {
      assert false;
      sentences := [runes];
    }
  }

  // ---------- White space around a text ----------

  lemma {:induction false} ScanLeadingSpace(c: char, open: string, text: string)
    requires IsSpace(c)
    ensures Scan([c] + open, text).0 == Scan(open, text).0
    ensures TrimSpace(Scan([c] + open, text).1) == TrimSpace(Scan(open, text).1)
    decreases |text|
  {
    if text == "" {
      LeadingSpace(c, open);
    } else {
      ConcatAssoc([c], open, [text[0]]);
      if IsSentenceEnd(text[0]) {
        LeadingSpace(c, open + [text[0]]);
      } else {
        ScanLeadingSpace(c, open + [text[0]], text[1..]);
      }
    }
  }

  lemma TrailingSpaceSentences(text: string, c: char)
    requires IsSpace(c)
    ensures Sentences(text + [c]) == Sentences(text)
  {
    ScanAppend("", text, [c]);
    if IsSentenceEnd(c) { EndIsNotSpace(c); }
    assert [c][1..] == "";
    TrailingSpace(Rest(text), c);
    assert Finished(text) + [] == Finished(text);
  }

  lemma {:induction false} SentencesOfTrimLeft(text: string)
    ensures Sentences(TrimLeft(text)) == Sentences(text)
  {
    if text != "" && IsSpace(text[0]) {
      SentencesOfTrimLeft(text[1..]);
      if IsSentenceEnd(text[0]) { EndIsNotSpace(text[0]); }
      ScanLeadingSpace(text[0], "", text[1..]);
      assert [text[0]] + "" == "" + [text[0]];
    }
  }

  lemma {:induction false} SentencesOfTrimRight(text: string)
    ensures Sentences(TrimRight(text)) == Sentences(text)
  {
    if text != "" && IsSpace(text[|text| - 1]) {
      var front := text[..|text| - 1];
      SentencesOfTrimRight(front);
      TrailingSpaceSentences(front, text[|text| - 1]);
      assert text == front + [text[|text| - 1]];
    }
  }

  /** White space around a text does not change its sentences. */
  lemma SentencesOfTrimmed(text: string)
    ensures Sentences(TrimSpace(text)) == Sentences(text)
  {
    SentencesOfTrimLeft(text);
    SentencesOfTrimRight(TrimLeft(text));
  }

  // ---------- Sentences as pieces of speech ----------

  lemma {:induction false} ScanSpoken(open: string, text: string)
    ensures AllSpoken(Scan(open, text).0)
    decreases |text|
  {
    if text != "" {
      if IsSentenceEnd(text[0]) {
        ScanSpoken("", text[1..]);
        MarkedNotBlank(open, text[0]);
        TrimSpaceResult(open + [text[0]]);
      } else {
        ScanSpoken(open + [text[0]], text[1..]);
      }
    }
  }

  lemma SentencesSpoken(text: string)
    ensures AllSpoken(Sentences(text))
  {
    ScanSpoken("", text);
    TrimSpaceResult(Rest(text));
  }

  /** Every sentence mark ends a sentence, and nothing else does. */
  lemma MarkSplits(a: string, mark: char, b: string)
    requires Spoken(a) && Spoken(b) && Unmarked(a) && Unmarked(b)
    ensures mark in {'。', '！', '？', '!', '?', '…'} ==> Sentences(a + [mark] + b) == [a + [mark], b]
    ensures mark !in {'。', '！', '？', '!', '?', '…'} ==> Sentences(a + [mark] + b) == [a + [mark] + b]
  {
    var text := a + [mark] + b;
    assert !IsSpace(a[0]) && !IsSpace(b[|b| - 1]);
    TrimSpaceResult(b);
    TrimSpaceResult(text);
    if mark in {'。', '！', '？', '!', '?', '…'} {
      TrimSpaceResult(a + [mark]);
      FeedSplits(a, [mark] + b);
      assert a + ([mark] + b) == text;
      UnmarkedScan(a);
      MarkThenRest(a, mark, b);
    } else {
      assert Unmarked(text);
      UnmarkedScan(text);
    }
  }

  lemma UnmarkedScan(a: string)
    requires Unmarked(a)
    ensures Finished(a) == [] && Rest(a) == a
  {
    ScanUnmarked("", a);
    assert "" + a == a;
  }

  lemma MarkThenRest(a: string, mark: char, b: string)
    requires Spoken(a) && Spoken(b) && Unmarked(a) && Unmarked(b) && IsSentenceEnd(mark)
    ensures Sentences(a + ([mark] + b)) == [TrimSpace(a + [mark]), b]
  {
    ScanAppend("", a, [mark] + b);
    UnmarkedScan(a);
    UnmarkedScan(b);
    assert ([mark] + b)[1..] == b;
    TrimSpaceResult(b);
    assert [] + Scan(a, [mark] + b).0 == Scan(a, [mark] + b).0;
  }
}

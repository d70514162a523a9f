/**
 What the canonicaliser of internal/domain/openclaw/manager.go keeps: the words of a
 text, that is its runes without white space, punctuation and markup.
 */
module OpenClawWords {
  import opened Basics
  import opened OpenClawText
  import opened Runes

  predicate IsWord(c: char) {
    !(IsIgnorable(c) || IsSentenceSeparator(c) || IsMarkup(c) || IsDash(c) || c == '|')
  }

  function Words(s: string): string {
    if s == "" then "" else if IsWord(s[0]) then [s[0]] + Words(s[1..]) else Words(s[1..])
  }

  lemma {:induction false} WordsAppend(a: string, b: string)
    ensures Words(a + b) == Words(a) + Words(b)
  {
    if a == "" {
      assert a + b == b;
    } else {
      assert (a + b)[1..] == a[1..] + b;
      WordsAppend(a[1..], b);
    }
  }

  /** Words are among the runes that count when texts are compared. */
  lemma {:induction false} WordsOfKey(s: string)
    ensures Words(Key(s)) == Words(s)
  {
    if s != "" {
      WordsOfKey(s[1..]);
      if !IsIgnorable(s[0]) { assert ([s[0]] + Key(s[1..]))[1..] == Key(s[1..]); }
    }
  }

  lemma SameKeySameWords(s: string, t: string)
    requires Key(s) == Key(t)
    ensures Words(s) == Words(t)
  {
    WordsOfKey(s);
    WordsOfKey(t);
  }

  lemma WordsTrimSpace(s: string)
    ensures Words(TrimSpace(s)) == Words(s)
  {
    KeyTrimSpace(s);
    SameKeySameWords(TrimSpace(s), s);
  }

  // ---------- The canonicaliser keeps the words ----------

  lemma {:induction false} WordsTrimCutset(s: string)
    ensures Words(TrimCutset(s)) == Words(s)
  {
    if s != "" && InCutset(s[0]) { WordsTrimCutset(s[1..]); }
  }

  lemma WordsCons(c: char, s: string)
    ensures Words([c] + s) == if IsWord(c) then [c] + Words(s) else Words(s)
  {
    assert ([c] + s)[1..] == s;
  }

  lemma {:induction false} WordsReplaceBlanks(s: string)
    ensures Words(ReplaceBlanks(s)) == Words(s)
    decreases |s|
  {
    if s == "" {
    } else if |s| >= 2 && BlankPair(s[0], s[1]) {
      WordsReplaceBlanks(s[2..]);
      WordsCons(if s[0] == ' ' then s[1] else s[0], ReplaceBlanks(s[2..]));
      assert s[1..][1..] == s[2..];
    } else {
      WordsReplaceBlanks(s[1..]);
      WordsCons(s[0], ReplaceBlanks(s[1..]));
    }
  }

  lemma WordsTrimSegment(s: string)
    ensures Words(TrimSegment(s)) == Words(s)
  {
    var t := TrimCutset(TrimSpace(s));
    WordsTrimSpace(s);
    WordsTrimCutset(TrimSpace(s));
    WordsReplaceBlanks(t);
    WordsTrimSpace(ReplaceBlanks(t));
  }

  ghost predicate Wordless(s: string) {
    forall c :: c in s ==> !IsWord(c)
  }

  lemma {:induction false} WordlessHasNone(s: string)
    requires Wordless(s)
    ensures Words(s) == ""
  {
    if s != "" { WordlessHasNone(s[1..]); }
  }

  lemma RuleIsWordless(s: string)
    ensures SpeechRule(s).0 <= |s| && Wordless(s[..SpeechRule(s).0]) && Wordless(SpeechRule(s).1)
  {
    var n := SpeechRule(s).0;
    if n >= 1 { assert s[..n] == [s[0]] + s[1..n]; }
    if n >= 2 { assert s[1..n] == [s[1]] + s[2..n]; }
    if n >= 3 { assert s[2..n] == [s[2]]; }
  }

  lemma {:induction false} WordsReplaceMarkup(s: string)
    ensures Words(ReplaceMarkup(s)) == Words(s)
    decreases |s|
  {
    if s != "" {
      var (n, new') := SpeechRule(s);
      if n == 0 {
        WordsReplaceMarkup(s[1..]);
        WordsCons(s[0], ReplaceMarkup(s[1..]));
      } else {
        RuleIsWordless(s);
        WordlessHasNone(s[..n]);
        WordlessHasNone(new');
        WordsReplaceMarkup(s[n..]);
        WordsAppend(new', ReplaceMarkup(s[n..]));
        WordsAppend(s[..n], s[n..]);
        assert s == s[..n] + s[n..];
      }
    }
  }

  lemma {:induction false} WordsDropBlanks(out: string)
    ensures Words(DropTrailingBlanks(out)) == Words(out)
  {
    if out != "" && out[|out| - 1] == ' ' {
      var front := out[..|out| - 1];
      WordsDropBlanks(front);
      WordsAppend(front, " ");
      assert out == front + " ";
      WordlessHasNone(" ");
    }
  }

  lemma WordsSnoc(out: string, c: char)
    ensures Words(out + [c]) == Words(out) + if IsWord(c) then [c] else ""
  {
    WordsAppend(out, [c]);
    assert [c][1..] == "";
  }

  lemma WordsPut(out: string, r: char)
    ensures Words(Put(out, r)) == Words(out) + if IsWord(r) then [r] else ""
  {
    var o := DropTrailingBlanks(out);
    WordsDropBlanks(out);
    if IsSpace(r) {
      WordsSnoc(out, ' ');
    } else if IsSoftSeparator(r) {
      WordsSnoc(o, '，');
    } else if IsSentenceSeparator(r) {
      WordsSnoc(o, r);
    } else if IsColon(r) {
      WordsSnoc(o, '：');
    } else {
      WordsSnoc(out, r);
    }
  }

  lemma {:induction false} WordsPutAll(out: string, text: string)
    ensures Words(PutAll(out, text)) == Words(out) + Words(text)
    decreases |text|
  {
    if text != "" {
      WordsPut(out, text[0]);
      WordsPutAll(Put(out, text[0]), text[1..]);
      ConcatAssoc(Words(out), if IsWord(text[0]) then [text[0]] else "", Words(text[1..]));
    }
  }

  /** The canonicaliser loses and invents no word. */
  lemma WordsNormalize(text: string)
    ensures Words(Normalize(text)) == Words(text)
  {
    if TrimSpace(text) == "" {
      WordsTrimSpace(text);
    } else {
      var replaced := ReplaceMarkup(text);
      WordsReplaceMarkup(text);
      WordsPutAll("", replaced);
      WordsTrimSegment(PutAll("", replaced));
    }
  }

  // ---------- Plain texts ----------

  /** Compared by its words alone: the text has no full stop, dash or markup. */
  ghost predicate Plain(s: string) {
    Key(s) == Words(s)
  }

  /** Words, white space and pauses only: no full stop, dash or markup. */
  ghost predicate PlainRunes(s: string) {
    forall c :: c in s ==> IsWord(c) || IsIgnorable(c)
  }

  lemma {:induction false} PlainReplaceBlanks(s: string)
    requires PlainRunes(s)
    ensures PlainRunes(ReplaceBlanks(s))
    decreases |s|
  {
    if s == "" {
    } else if |s| >= 2 && BlankPair(s[0], s[1]) {
      PlainReplaceBlanks(s[2..]);
    } else {
      PlainReplaceBlanks(s[1..]);
    }
  }

  lemma {:induction false} PlainTrimCutset(s: string)
    requires PlainRunes(s)
    ensures PlainRunes(TrimCutset(s))
  {
    if s != "" && InCutset(s[0]) { PlainTrimCutset(s[1..]); }
  }

  lemma {:induction false} PlainTrimLeft(s: string)
    requires PlainRunes(s)
    ensures PlainRunes(TrimLeft(s))
  {
    if s != "" && IsSpace(s[0]) { PlainTrimLeft(s[1..]); }
  }

  lemma RunesTrimSpace(s: string)
    requires PlainRunes(s)
    ensures PlainRunes(TrimSpace(s))
  {
    PlainTrimLeft(s);
    TrimRightResult(TrimLeft(s));
  }

  lemma RunesTrimSegment(s: string)
    requires PlainRunes(s)
    ensures PlainRunes(TrimSegment(s))
  {
    RunesTrimSpace(s);
    PlainTrimCutset(TrimSpace(s));
    PlainReplaceBlanks(TrimCutset(TrimSpace(s)));
    RunesTrimSpace(ReplaceBlanks(TrimCutset(TrimSpace(s))));
  }

  lemma {:induction false} PlainReplaceMarkup(s: string)
    requires PlainRunes(s)
    ensures PlainRunes(ReplaceMarkup(s))
    decreases |s|
  {
    if s != "" {
      var (n, new') := SpeechRule(s);
      RuleIsWordless(s);
      if n == 0 { PlainReplaceMarkup(s[1..]); } else { PlainReplaceMarkup(s[n..]); }
    }
  }

  lemma PlainPut(out: string, r: char)
    requires PlainRunes(out) && (IsWord(r) || IsIgnorable(r))
    ensures PlainRunes(Put(out, r))
  {
    DropBlanksKeeps(out);
  }

  lemma {:induction false} PlainPutAll(out: string, text: string)
    requires PlainRunes(out) && PlainRunes(text)
    ensures PlainRunes(PutAll(out, text))
    decreases |text|
  {
    if text != "" {
      PlainPut(out, text[0]);
      PlainPutAll(Put(out, text[0]), text[1..]);
    }
  }

  lemma RunesNormalize(text: string)
    requires PlainRunes(text)
    ensures PlainRunes(Normalize(text))
  {
    PlainReplaceMarkup(text);
    PlainPutAll("", ReplaceMarkup(text));
    RunesTrimSegment(PutAll("", ReplaceMarkup(text)));
  }

  /** A text compared by its words alone is plain. */
  lemma {:induction false} PlainIffKey(s: string)
    ensures |Words(s)| <= |Key(s)|
    ensures PlainRunes(s) <==> Plain(s)
  {
    if s != "" {
      var c, rest := s[0], s[1..];
      PlainIffKey(rest);
      assert s == [c] + rest;
      assert c in s;
      assert ([c] + Key(rest))[1..] == Key(rest) && ([c] + Words(rest))[1..] == Words(rest);
    }
  }

  lemma PlainTrimSpace(s: string)
    requires Plain(s)
    ensures Plain(TrimSpace(s))
  {
    KeyTrimSpace(s);
    WordsTrimSpace(s);
  }

  lemma PlainTrimSegment(s: string)
    requires Plain(s)
    ensures Plain(TrimSegment(s))
  {
    PlainIffKey(s);
    RunesTrimSegment(s);
    PlainIffKey(TrimSegment(s));
  }

  lemma PlainNormalize(text: string)
    requires Plain(text)
    ensures Plain(Normalize(text)) && Key(Normalize(text)) == Words(text)
  {
    PlainIffKey(text);
    RunesNormalize(text);
    PlainIffKey(Normalize(text));
    WordsNormalize(text);
  }

  lemma PlainAppend(a: string, b: string)
    requires Plain(a) && Plain(b)
    ensures Plain(a + b)
  {
    KeyAppend(a, b);
    WordsAppend(a, b);
  }

  lemma PlainPart(s: string, from: nat, to: nat)
    requires from <= to <= |s| && Plain(s)
    ensures Plain(s[from..to])
  {
    PlainIffKey(s);
    PlainIffKey(s[from..to]);
  }

  /** Splitting the key of a text splits its words. */
  lemma KeySplit(whole: string, front: string, back: string)
    requires Key(whole) == Key(front) + Key(back)
    ensures Words(whole) == Words(front) + Words(back)
    ensures Plain(whole) && Plain(front) ==> Plain(back)
  {
    WordsOfKey(whole);
    WordsOfKey(front);
    WordsOfKey(back);
    WordsAppend(Key(front), Key(back));
    if Plain(whole) && Plain(front) {
      assert Key(back) == Key(whole)[|Key(front)|..] == Words(whole)[|Words(front)|..] == Words(back);
    }
  }

  // ---------- Texts that are heard ----------

  /** Empty, or starting with a rune the canonicaliser keeps. */
  ghost predicate Sounds(s: string) {
    s == "" || Keeps(Start, s[0])
  }

  lemma NormalSounds(text: string)
    ensures Sounds(Normalize(text))
    ensures Normalize(text) == "" ==> Words(text) == ""
  {
    NormalizeIsNormal(text);
    WordsNormalize(text);
  }

  lemma {:induction false} PutAllKeepsFirst(out: string, text: string)
    requires out != "" && !IsSpace(out[0])
    ensures PutAll(out, text) != "" && PutAll(out, text)[0] == out[0]
    decreases |text|
  {
    if text != "" {
      DropBlanksFirst(out);
      PutAllKeepsFirst(Put(out, text[0]), text[1..]);
    }
  }

  lemma {:induction false} DropBlanksFirst(out: string)
    requires out != "" && !IsSpace(out[0])
    ensures DropTrailingBlanks(out) != "" && DropTrailingBlanks(out)[0] == out[0]
  {
    if out[|out| - 1] == ' ' { DropBlanksFirst(out[..|out| - 1]); }
  }

  lemma ReplaceBlanksFirst(s: string)
    requires s != "" && !IsSpace(s[0])
    ensures ReplaceBlanks(s) != "" && ReplaceBlanks(s)[0] == s[0]
  {
  }

  lemma TrimSpaceFirst(s: string)
    requires s != "" && !IsSpace(s[0])
    ensures TrimSpace(s) != "" && TrimSpace(s)[0] == s[0]
  {
    TrimLeftResult(s);
    TrimRightResult(s);
  }

  lemma TrimSegmentFirst(s: string)
    requires s != "" && !IsSpace(s[0]) && !InCutset(s[0])
    ensures TrimSegment(s) != "" && TrimSegment(s)[0] == s[0]
  {
    TrimSpaceFirst(s);
    ReplaceBlanksFirst(TrimSpace(s));
    TrimSpaceFirst(ReplaceBlanks(TrimSpace(s)));
  }

  /** The canonicaliser empties no text whose first rune it keeps. */
  lemma HeardIsNotEmptied(s: string)
    requires s != "" && Keeps(Start, s[0])
    ensures Normalize(s) != ""
  {
    TrimSpaceFirst(s);
    NoSpeechRule(Start, s);
    var replaced := ReplaceMarkup(s);
    assert replaced[0] == s[0] && replaced == [s[0]] + replaced[1..];
    assert Put("", s[0]) == [s[0]] by { PutKept("", s[0]); assert "" + [s[0]] == [s[0]]; }
    PutAllKeepsFirst([s[0]], replaced[1..]);
    TrimSegmentFirst(PutAll("", replaced));
  }

  /** What has been delivered and what is buffered, as one text. */
  function Accounted(emitted: string, buffer: string): string {
    Normalize(TrimSpace(emitted) + TrimSpace(buffer))
  }

  lemma AccountedWords(emitted: string, buffer: string)
    ensures Words(Accounted(emitted, buffer)) == Words(emitted) + Words(buffer)
    ensures Plain(emitted) && Plain(buffer) ==>
              Plain(Accounted(emitted, buffer)) && Key(Accounted(emitted, buffer)) == Words(emitted) + Words(buffer)
  {
    var e, b := TrimSpace(emitted), TrimSpace(buffer);
    WordsTrimSpace(emitted);
    WordsTrimSpace(buffer);
    WordsAppend(e, b);
    WordsNormalize(e + b);
    if Plain(emitted) && Plain(buffer) {
      PlainTrimSpace(emitted);
      PlainTrimSpace(buffer);
      PlainAppend(e, b);
      PlainNormalize(e + b);
    }
  }

  lemma NothingAccounted(emitted: string, buffer: string)
    requires Sounds(emitted) && Sounds(buffer) && Accounted(emitted, buffer) == ""
    ensures emitted == "" && buffer == ""
  {
    var e, b := TrimSpace(emitted), TrimSpace(buffer);
    if emitted != "" {
      TrimSpaceFirst(emitted);
      assert (e + b)[0] == e[0];
      HeardIsNotEmptied(e + b);
    } else if buffer != "" {
      TrimSpaceFirst(buffer);
      assert e + b == b;
      HeardIsNotEmptied(b);
    }
  }
}

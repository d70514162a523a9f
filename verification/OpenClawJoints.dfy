/**
 What the canonicaliser of internal/domain/openclaw/manager.go makes of the punctuation,
 white space and markup between two words.
 */
module OpenClawJoints {
  import opened Basics
  import opened OpenClawText
  import opened OpenClawWords
  import opened Runes

  /** A rune that is neither punctuation nor a parenthesis. */
  predicate IsLetter(c: char) {
    IsWord(c) && !IsOpener(c) && !IsCloser(c)
  }

  ghost predicate Letters(s: string) {
    s != "" && forall k :: 0 <= k < |s| ==> IsLetter(s[k])
  }

  // ---------- Words pass both replacers and the loop ----------

  lemma {:induction false} LettersStay(a: string, t: string)
    requires Letters(a)
    ensures ReplaceMarkup(a + t) == a + ReplaceMarkup(t)
    decreases |a|
  {
    var s, rest := a + t, a[1..];
    LetterNoRule(s);
    HeadOf(a, t);
    if rest == "" {
      assert rest + t == t;
      assert [a[0]] + ReplaceMarkup(t) == a + ReplaceMarkup(t) by { assert a == [a[0]]; }
    } else {
      LettersStay(rest, t);
      JoinHead(a, ReplaceMarkup(t));
    }
  }

  lemma HeadOf(a: string, t: string)
    requires a != ""
    ensures (a + t)[0] == a[0] && (a + t)[1..] == a[1..] + t
  {
  }

  lemma JoinHead(a: string, t: string)
    requires a != ""
    ensures [a[0]] + (a[1..] + t) == a + t
  {
  }

  lemma LetterNoRule(s: string)
    requires s != "" && IsLetter(s[0])
    ensures SpeechRule(s).0 == 0
  {
    LetterIsNone(s[0]);
  }

  /** None of the runes that any rule begins with, or that follow a line break in one. */
  lemma LetterIsNone(c: char)
    requires IsLetter(c)
    ensures c != '\r' && c != '\t' && c != '\n' && c != '`' && c != '*' && c != '_' && c != '#' && c != '|' && c != '-' && c != '•' && c != ' '
  {
  }

  lemma {:induction false} PutAllAppend(out: string, s: string, t: string)
    ensures PutAll(out, s + t) == PutAll(PutAll(out, s), t)
    decreases |s|
  {
    if s == "" {
      assert s + t == t;
    } else {
      HeadOf(s, t);
      PutAllAppend(Put(out, s[0]), s[1..], t);
    }
  }

  lemma {:induction false} LettersBefore(prev: Prev, a: string, tail: string)
    requires Letters(a) && Canonical(After(a[|a| - 1]), tail)
    ensures Canonical(prev, a + tail)
    decreases |a|
  {
    HeadOf(a, tail);
    if |a| > 1 {
      LettersBefore(After(a[0]), a[1..], tail);
    } else {
      assert a[1..] + tail == tail;
    }
  }

  lemma LettersCanonical(prev: Prev, s: string)
    requires Letters(s)
    ensures Canonical(prev, s) && Stable(prev, s) && ReplaceMarkup(s) == s
  {
    LettersBefore(prev, s, "");
    assert s + "" == s;
    CanonicalIsStable(prev, s);
  }

  lemma LettersPut(out: string, b: string)
    requires Letters(b)
    ensures PutAll(out, b) == out + b
  {
    LettersCanonical(Last(out), b);
    StableIsFixed(out, b);
  }

  /** What may follow a joint: a word, or nothing. */
  ghost predicate Tail(b: string) {
    b == "" || Letters(b)
  }

  lemma TailCanonical(prev: Prev, b: string)
    requires Tail(b)
    ensures Canonical(prev, b) && ReplaceMarkup(b) == b
  {
    if b != "" { LettersCanonical(prev, b); }
  }

  lemma TailPut(out: string, b: string)
    requires Tail(b)
    ensures PutAll(out, b) == out + b
  {
    if b != "" { LettersPut(out, b); } else { assert out + b == out; }
  }

  // ---------- A joint between two words ----------

  lemma NormalSegment(t: string)
    requires IsNormal(t)
    ensures TrimSegment(t) == t
  {
    TrimSpaceResult(t);
    CanonicalIsStable(Start, t);
    CutsetAtStart(t);
  }

  /** If the first replacer leaves `y` of the joint, and the loop appends `z` for it, which stays,
      then it becomes `z`. */
  lemma JointBecomes(a: string, x: string, y: string, z: string, b: string)
    requires Letters(a) && Tail(b)
    requires ReplaceMarkup(x + b) == y + b && PutAll(a, y) == a + z && Canonical(After(a[|a| - 1]), z + b)
    requires b == "" && z != "" ==> !IsSpace(z[|z| - 1])
    ensures Normalize(a + x + b) == a + z + b
  {
    ConcatAssoc(a, x, b);
    LettersStay(a, x + b);
    HeadOf(a, x + b);
    JointPutAll(a, y, z, b);
    JointNormal(a, z, b);
    NormalFrom(a + (x + b), a + z + b);
  }

  /** A text for which the loop gives a canonical one becomes that one. */
  lemma NormalFrom(text: string, t: string)
    requires text != "" && IsLetter(text[0]) && PutAll("", ReplaceMarkup(text)) == t && IsNormal(t)
    ensures Normalize(text) == t
  {
    NotBlank(text, 0);
    NormalSegment(t);
  }

  lemma JointPutAll(a: string, y: string, z: string, b: string)
    requires Letters(a) && Tail(b) && PutAll(a, y) == a + z
    ensures PutAll("", a + (y + b)) == a + z + b
  {
    LettersPut("", a);
    assert "" + a == a;
    PutAllAppend("", a, y + b);
    PutAllAppend(a, y, b);
    TailPut(a + z, b);
  }

  lemma JointNormal(a: string, z: string, b: string)
    requires Letters(a) && Tail(b) && Canonical(After(a[|a| - 1]), z + b) && (b == "" && z != "" ==> !IsSpace(z[|z| - 1]))
    ensures IsNormal(a + z + b)
  {
    LettersBefore(Start, a, z + b);
    assert a + z + b == a + (z + b);
    assert IsLetter(a[0]) && IsLetter(a[|a| - 1]) && (b != "" ==> IsLetter(b[|b| - 1]));
  }

  /** A rule of the first replacer that takes the joint. */
  lemma RuleTakes(x: string, y: string, b: string)
    requires Tail(b) && x != "" && SpeechRule(x + b) == (|x|, y)
    ensures ReplaceMarkup(x + b) == y + b
  {
    TailCanonical(Start, b);
    assert (x + b)[|x|..] == b;
  }

  lemma NoRuleTakes(c: char, b: string)
    requires Tail(b) && SpeechRule([c] + b) == (0, "")
    ensures ReplaceMarkup([c] + b) == [c] + b
  {
    TailCanonical(Start, b);
    HeadOf([c], b);
    assert [c][1..] + b == b;
  }

  lemma PutOne(a: string, c: char)
    ensures PutAll(a, [c]) == Put(a, c) && PutAll(a, "") == a == a + ""
  {
    assert [c][1..] == "";
  }

  lemma OneThenLetters(a: string, c: char, b: string)
    requires Letters(a) && Tail(b) && Keeps(After(a[|a| - 1]), c) && !IsCloser(c)
    ensures Canonical(After(a[|a| - 1]), [c] + b)
  {
    TailCanonical(After(c), b);
    HeadOf([c], b);
    assert [c][1..] + b == b && IsLetter(a[|a| - 1]);
  }

  lemma EndsInLetter(a: string)
    requires Letters(a)
    ensures DropTrailingBlanks(a) == a && !EndsInPause(a)
  {
    DropBlanksKeeps(a);
    assert IsLetter(a[|a| - 1]);
  }

  // ---------- What the joints become ----------

  /** Line breaks, list items and table bars become a pause. */
  lemma BreakIsPause(a: string, x: string, b: string)
    requires Letters(a) && Tail(b) && x in ["\n", "|", "\n- ", "\n* ", "\n• "]
    ensures Normalize(a + x + b) == a + "，" + b
  {
    BreakRule(x, b);
    RuleTakes(x, "，", b);
    CommaPut(a, '，', b);
    JointBecomes(a, x, "，", "，", b);
  }

  lemma BreakRule(x: string, b: string)
    requires Tail(b) && x in ["\n", "|", "\n- ", "\n* ", "\n• "]
    ensures SpeechRule(x + b) == (|x|, "，")
  {
    var s := x + b;
    if b != "" {
      LetterIsNone(b[0]);
      assert s[|x|] == b[0];
    }
    assert x <= s && s[0] == x[0];
  }

  lemma CommaPut(a: string, c: char, b: string)
    requires Letters(a) && Tail(b) && c in "，,、"
    ensures PutAll(a, [c]) == a + "，" && Canonical(After(a[|a| - 1]), "，" + b)
  {
    EndsInLetter(a);
    PutOne(a, c);
    OneThenLetters(a, '，', b);
  }

  lemma FirstNoRule(s: string)
    requires s != "" && s[0] != '\r' && s[0] != '\t' && s[0] != '`' && s[0] != '*' && s[0] != '_' && s[0] != '#' && s[0] != '\n' && s[0] != '|'
    ensures SpeechRule(s) == (0, "")
  {
  }

  lemma SingleNoRule(c: char, b: string)
    requires Tail(b) && c in "，,、 ：:。？！;；.?!-•"
    ensures SpeechRule([c] + b) == (0, "")
  {
    HeadOf([c], b);
    FirstNoRule([c] + b);
  }

  /** Commas of any kind become the full-width one. */
  lemma CommaStays(a: string, c: char, b: string)
    requires Letters(a) && Tail(b) && c in "，,、"
    ensures Normalize(a + [c] + b) == a + "，" + b
  {
    SingleNoRule(c, b);
    NoRuleTakes(c, b);
    CommaPut(a, c, b);
    JointBecomes(a, [c], [c], "，", b);
  }

  /** A blank or a tab becomes a blank. */
  lemma BlankStays(a: string, x: string, b: string)
    requires Letters(a) && Letters(b) && x in [" ", "\t"]
    ensures Normalize(a + x + b) == a + " " + b
  {
    if x == "\t" {
      assert (x + b)[0] == '\t';
      RuleTakes(x, " ", b);
    } else {
      SingleNoRule(' ', b);
      NoRuleTakes(' ', b);
    }
    BlankPut(a, b);
    JointBecomes(a, x, " ", " ", b);
  }

  lemma BlankPut(a: string, b: string)
    requires Letters(a) && Letters(b)
    ensures PutAll(a, " ") == a + " " && Canonical(After(a[|a| - 1]), " " + b)
  {
    EndsInLetter(a);
    PutOne(a, ' ');
    OneThenLetters(a, ' ', b);
  }

  /** Colons become the full-width one. */
  lemma ColonStays(a: string, c: char, b: string)
    requires Letters(a) && Tail(b) && c in "：:"
    ensures Normalize(a + [c] + b) == a + "：" + b
  {
    SingleNoRule(c, b);
    NoRuleTakes(c, b);
    ColonPut(a, c, b);
    JointBecomes(a, [c], [c], "：", b);
  }

  lemma ColonPut(a: string, c: char, b: string)
    requires Letters(a) && Tail(b) && c in "：:"
    ensures PutAll(a, [c]) == a + "：" && Canonical(After(a[|a| - 1]), "：" + b)
  {
    EndsInLetter(a);
    PutOne(a, c);
    ColonKeeps(a[|a| - 1], c);
    OneThenLetters(a, '：', b);
  }

  lemma ColonKeeps(l: char, c: char)
    requires IsLetter(l) && c in "：:"
    ensures Keeps(After(l), '：') && !IsCloser('：')
    ensures IsColon(c) && !IsSpace(c) && !IsMarkup(c) && !IsSoftSeparator(c) && !IsSentenceSeparator(c)
  {
  }

  /** Sentence marks, hyphens and bullets stay. */
  lemma MarkStays(a: string, c: char, b: string)
    requires Letters(a) && Tail(b) && c in "。？！;；.?!-•"
    ensures Normalize(a + [c] + b) == a + [c] + b
  {
    SingleNoRule(c, b);
    NoRuleTakes(c, b);
    MarkPut(a, c, b);
    JointBecomes(a, [c], [c], [c], b);
  }

  lemma MarkPut(a: string, c: char, b: string)
    requires Letters(a) && Tail(b) && c in "。？！;；.?!-•"
    ensures PutAll(a, [c]) == a + [c] && Canonical(After(a[|a| - 1]), [c] + b)
  {
    EndsInLetter(a);
    PutOne(a, c);
    MarkKeeps(a[|a| - 1], c);
    OneThenLetters(a, c, b);
  }

  lemma MarkKeeps(l: char, c: char)
    requires IsLetter(l) && c in "。？！;；.?!-•"
    ensures Keeps(After(l), c) && !IsCloser(c)
    ensures IsSentenceSeparator(c) || IsDash(c)
    ensures !IsSpace(c) && !IsMarkup(c) && !IsSoftSeparator(c) && !IsColon(c) && !(IsSentenceSeparator(c) && IsDash(c))
  {
  }

  /** Markup and carriage returns go. */
  lemma MarkupGoes(a: string, x: string, b: string)
    requires Letters(a) && Tail(b) && x in ["\r", "`", "```", "**", "__", "#", "##", "###"]
    ensures Normalize(a + x + b) == a + b
  {
    MarkupRule(x, b);
    RuleTakes(x, "", b);
    PutOne(a, 'x');
    NothingBetween(a, b);
    JointBecomes(a, x, "", "", b);
  }

  lemma NothingBetween(a: string, b: string)
    requires Letters(a) && Tail(b)
    ensures Canonical(After(a[|a| - 1]), "" + b) && a + "" + b == a + b
  {
    TailCanonical(After(a[|a| - 1]), b);
    Nothing(a, b);
  }

  lemma Nothing(a: string, b: string)
    ensures a + "" == a && "" + b == b
  {
  }

  /** So do single emphasis marks. */
  lemma EmphasisGoes(a: string, c: char, b: string)
    requires Letters(a) && Tail(b) && c in "*_"
    ensures Normalize(a + [c] + b) == a + b
  {
    EmphasisNoRule(c, b);
    NoRuleTakes(c, b);
    PutOne(a, c);
    NothingBetween(a, b);
    JointBecomes(a, [c], [c], "", b);
  }

  lemma EmphasisNoRule(c: char, b: string)
    requires Tail(b) && c in "*_"
    ensures SpeechRule([c] + b) == (0, "")
  {
    HeadOf([c], b);
    if b != "" {
      LetterIsNone(b[0]);
      assert ([c] + b)[1] == b[0];
    }
  }

  lemma MarkupRule(x: string, b: string)
    requires Tail(b) && x in ["\r", "`", "```", "**", "__", "#", "##", "###"]
    ensures SpeechRule(x + b) == (|x|, "")
  {
    var s := x + b;
    if b != "" {
      LetterIsNone(b[0]);
      assert s[|x|] == b[0];
    }
    assert x <= s && s[0] == x[0];
    assert forall k :: 0 <= k < |x| ==> s[k] == x[k];
  }

  // ---------- At the beginning of a text ----------

  lemma NothingAhead(x: string, y: string, b: string)
    requires Letters(b) && ReplaceMarkup(x + b) == y + b && PutAll("", y) == ""
    ensures Normalize(x + b) == b
  {
    NotBlank(x + b, |x|);
    PutAllAppend("", y, b);
    LettersPut("", b);
    LettersCanonical(Start, b);
    assert "" + b == b && IsLetter(b[0]) && IsLetter(b[|b| - 1]);
    NormalSegment(b);
  }

  /** Before the first word every joint goes. */
  lemma LeadingGoes(c: char, b: string)
    requires Letters(b) && c in "，,、 ：:。？！;；.?!-•"
    ensures Normalize([c] + b) == b
  {
    SingleNoRule(c, b);
    NoRuleTakes(c, b);
    NothingPut(c);
    NothingAhead([c], [c], b);
  }

  lemma NothingPut(c: char)
    requires c in "，,、 ：:。？！;；.?!-•"
    ensures PutAll("", [c]) == ""
  {
    PutOne("", c);
  }

  lemma LeadingMarkupGoes(x: string, b: string)
    requires Letters(b) && x in ["\r", "\n", "\t", "`", "```", "**", "__", "#", "##", "###", "|", "\n- ", "\n* ", "\n• "]
    ensures Normalize(x + b) == b
  {
    PutOne("", '，');
    PutOne("", ' ');
    if x in ["\n", "|", "\n- ", "\n* ", "\n• "] {
      BreakRule(x, b);
      RuleTakes(x, "，", b);
      NothingAhead(x, "，", b);
    } else if x == "\t" {
      assert (x + b)[0] == '\t';
      RuleTakes(x, " ", b);
      NothingAhead(x, " ", b);
    } else {
      MarkupRule(x, b);
      RuleTakes(x, "", b);
      NothingAhead(x, "", b);
    }
  }

  /** Behind the last word a blank or a tab goes. */
  lemma TrailingBlankGoes(a: string, x: string)
    requires Letters(a) && x in [" ", "\t"]
    ensures Normalize(a + x) == a
  {
    NotBlank(a + x, 0) by { assert (a + x)[0] == a[0]; }
    LettersStay(a, x);
    BlankReplaced(x);
    BlankAtEnd(a);
  }

  lemma BlankReplaced(x: string)
    requires x in [" ", "\t"]
    ensures ReplaceMarkup(x) == " "
  {
    NoMarkup();
    if x == "\t" {
      assert x[0] == '\t' && "\t" <= x && !("\r" <= x) && x[1..] == "";
    } else {
      FirstNoRule(x);
      assert x[1..] == "" && [x[0]] + "" == x;
    }
  }

  lemma NoMarkup()
    ensures ReplaceMarkup("") == "" && " " + "" == " "
  {
  }

  lemma BlankAtEnd(a: string)
    requires Letters(a)
    ensures TrimSegment(PutAll("", a + " ")) == a
  {
    PutAllAppend("", a, " ");
    LettersPut("", a);
    assert "" + a == a;
    EndsInLetter(a);
    PutOne(a, ' ');
    TrailingSpace(a, ' ');
    LettersCanonical(Start, a);
    NormalSegment(a);
    TrimSpaceResult(a);
  }

  // ---------- Parentheses ----------

  /** In what the loop makes no blank stands before a pause or sentence mark, so the pairs of the second replacer
      with these never occur. */
  lemma {:induction false} NoBlankBeforeMark(prev: Prev, s: string, k: nat)
    requires Stable(prev, s) && k + 1 < |s| && s[k] == ' '
    ensures s[k + 1] !in "，。！？；："
    decreases |s|
  {
    if k > 0 {
      NoBlankBeforeMark(After(s[0]), s[1..], k - 1);
    } else {
      assert s[1..][0] == s[1];
      assert Keeps(After(' '), s[1]);
    }
  }

  predicate IsParen(w: string) {
    w == "( " || w == "（ " || w == " )" || w == " ）"
  }

  /** The parenthesis without its blank. */
  function Tight(w: string): string
    requires IsParen(w)
  {
    if w == "( " then "(" else if w == "（ " then "（" else if w == " )" then ")" else "）"
  }

  lemma {:induction false} LettersStayInBlanks(a: string, t: string)
    requires Letters(a)
    ensures ReplaceBlanks(a + t) == a + ReplaceBlanks(t)
    decreases |a|
  {
    var s, rest := a + t, a[1..];
    HeadOf(a, t);
    LetterIsNone(s[0]);
    assert IsLetter(s[0]) && (|s| >= 2 ==> !BlankPair(s[0], s[1]));
    if rest == "" {
      assert rest + t == t;
      assert [a[0]] + ReplaceBlanks(t) == a + ReplaceBlanks(t) by { assert a == [a[0]]; }
    } else {
      LettersStayInBlanks(rest, t);
      JoinHead(a, ReplaceBlanks(t));
    }
  }

  lemma ParenReplaced(w: string, b: string)
    requires IsParen(w) && Letters(b)
    ensures ReplaceBlanks(w + b) == Tight(w) + b && ReplaceMarkup(w + b) == w + b
  {
    ParenHeads(w, b);
    ParenTight(w, b);
    FirstNoRule(w + b);
    FirstNoRule([w[1]] + b);
    LettersCanonical(Start, b);
    HeadOf([w[1]], b);
    assert [w[1]][1..] + b == b;
  }

  lemma ParenHeads(w: string, b: string)
    requires IsParen(w)
    ensures (w + b)[0] == w[0] && (w + b)[1] == w[1] && (w + b)[1..] == [w[1]] + b && (w + b)[2..] == b
    ensures [w[0]] + ([w[1]] + b) == w + b
  {
  }

  lemma ParenTight(w: string, b: string)
    requires IsParen(w) && Letters(b)
    ensures ReplaceBlanks(w + b) == Tight(w) + b
  {
    ParenHeads(w, b);
    LettersStayInBlanks(b, "");
    assert b + "" == b && ReplaceBlanks("") == "";
    assert BlankPair(w[0], w[1]);
  }

  lemma PutParen(out: string, c: char)
    requires IsOpener(c) || IsCloser(c)
    ensures Put(out, c) == out + [c]
  {
  }

  lemma PutBlank(out: string)
    requires out != "" && !EndsInPause(out)
    ensures Put(out, ' ') == out + [' ']
  {
  }

  lemma ParenPut(a: string, w: string)
    requires IsParen(w) && Letters(a)
    ensures PutAll(a, w) == a + w
  {
    EndsInLetter(a);
    var out := a + [w[0]];
    assert w[1..] == [w[1]] && out + [w[1]] == a + w && out[|out| - 1] == w[0];
    PutOne(out, w[1]);
    if w[1] == ' ' {
      PutParen(a, w[0]);
      PutBlank(out);
    } else {
      PutBlank(a);
      PutParen(out, w[1]);
    }
  }

  /** A blank behind an opening parenthesis or before a closing one goes. */
  lemma ParenBlankGoes(a: string, w: string, b: string)
    requires IsParen(w) && Letters(a) && Letters(b)
    ensures Normalize(a + w + b) == a + Tight(w) + b
  {
    var text := a + (w + b);
    ConcatAssoc(a, w, b);
    HeadOf(a, w + b);
    NotBlank(text, 0);
    LettersStay(a, w + b);
    ParenReplaced(w, b);
    ParenPut(a, w);
    JointPutAll(a, w, w, b);
    ParenSegment(a, w, b);
  }

  lemma ParenSegment(a: string, w: string, b: string)
    requires IsParen(w) && Letters(a) && Letters(b)
    ensures TrimSegment(a + w + b) == a + Tight(w) + b
  {
    ConcatAssoc(a, w, b);
    ConcatAssoc(a, Tight(w), b);
    WordsAtEnds(a, w, b);
    WordsAtEnds(a, Tight(w), b);
    ParenReplaced(w, b);
    LettersStayInBlanks(a, w + b);
  }

  lemma WordsAtEnds(a: string, w: string, b: string)
    requires Letters(a) && Letters(b)
    ensures TrimSpace(a + w + b) == a + w + b && TrimCutset(a + w + b) == a + w + b
  {
    var t := a + w + b;
    assert t[0] == a[0] && t[|t| - 1] == b[|b| - 1] && IsLetter(t[0]) && IsLetter(t[|t| - 1]);
    TrimSpaceResult(t);
  }
}

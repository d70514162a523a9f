/**
 The speech-text canonicaliser of internal/domain/openclaw/manager.go and the
 comparisons built on it.  A text is a sequence of runes.
 */
module OpenClawText {
  import opened Basics
  import opened Runes

  // ---------- Rune classes ----------

  /** isOpenClawPauseRune */
  predicate IsPause(c: char) {
    c in " ，,、。！？!?；;：:"
  }

  predicate IsSoftSeparator(c: char) {
    c in "，,、"
  }

  predicate IsSentenceSeparator(c: char) {
    c in "。？！;；.?!"
  }

  predicate IsMarkup(c: char) {
    c in "*_`#"
  }

  predicate IsColon(c: char) {
    c == '：' || c == ':'
  }

  predicate IsDash(c: char) {
    c == '-' || c == '•'
  }

  predicate IsIgnorable(c: char) {
    IsSpace(c) || IsPause(c)
  }

  // ---------- The normaliser ----------

  /** What the first replacer does at the head of a text: how many runes it
      replaces (0 for none) and by what.  Rules are tried in their order. */
  function SpeechRule(s: string): (nat, string) {
    if s == "" then (0, "")
    else if "\r" <= s then (1, "")
    else if "\t" <= s then (1, " ")
    else if "```" <= s then (3, "")
    else if "`" <= s then (1, "")
    else if "**" <= s then (2, "")
    else if "__" <= s then (2, "")
    else if "###" <= s then (3, "")
    else if "##" <= s then (2, "")
    else if "#" <= s then (1, "")
    else if "\n- " <= s then (3, "，")
    else if "\n* " <= s then (3, "，")
    else if "\n• " <= s then (3, "，")
    else if "\n" <= s then (1, "，")
    else if "|" <= s then (1, "，")
    else (0, "")
  }

  function ReplaceMarkup(s: string): string
    decreases |s|
  {
    if s == "" then ""
    else
      var (n, new') := SpeechRule(s);
      if n == 0 then [s[0]] + ReplaceMarkup(s[1..]) else new' + ReplaceMarkup(s[n..])
  }

  /** trimOpenClawTrailingSpace */
  function DropTrailingBlanks(out: string): string {
    if out != "" && out[|out| - 1] == ' ' then DropTrailingBlanks(out[..|out| - 1]) else out
  }

  predicate EndsInPause(out: string) {
    out != "" && IsPause(out[|out| - 1])
  }

  /** One round of the normaliser's loop. */
  function Put(out: string, r: char): string {
    if IsSpace(r) then if out == "" || EndsInPause(out) then out else out + [' ']
    else if IsMarkup(r) then out
    else if IsSoftSeparator(r) then
      var o := DropTrailingBlanks(out);
      if o == "" || EndsInPause(o) then o else o + ['，']
    else if IsSentenceSeparator(r) then
      var o := DropTrailingBlanks(out);
      if o == "" then o else o + [r]
    else if IsColon(r) then
      var o := DropTrailingBlanks(out);
      if o == "" then o else o + ['：']
    else if IsDash(r) then if out == "" || EndsInPause(out) then out else out + [r]
    else out + [r]
  }

  function PutAll(out: string, text: string): string
    decreases |text|
  {
    if text == "" then out else PutAll(Put(out, text[0]), text[1..])
  }

  predicate InCutset(c: char) {
    c in "-•*，,、;；:： "
  }

  function TrimCutset(s: string): string {
    if s != "" && InCutset(s[0]) then TrimCutset(s[1..]) else s
  }

  predicate IsOpener(c: char) {
    c == '(' || c == '（'
  }

  predicate IsCloser(c: char) {
    c == ')' || c == '）'
  }

  /** The pairs of the second replacer: a blank before one of these runes, or
      after an opening parenthesis, is dropped. */
  predicate BlankPair(a: char, b: char) {
    (a == ' ' && (b in "，。！？；：" || IsCloser(b))) || (IsOpener(a) && b == ' ')
  }

  function ReplaceBlanks(s: string): string
    decreases |s|
  {
    if s == "" then ""
    else if |s| >= 2 && BlankPair(s[0], s[1]) then
      [if s[0] == ' ' then s[1] else s[0]] + ReplaceBlanks(s[2..])
    else [s[0]] + ReplaceBlanks(s[1..])
  }

  /** trimOpenClawSegment */
  function TrimSegment(s: string): string {
    TrimSpace(ReplaceBlanks(TrimCutset(TrimSpace(s))))
  }

  /** normalizeOpenClawSpeechText */
  function Normalize(text: string): string {
    if TrimSpace(text) == "" then "" else TrimSegment(PutAll("", ReplaceMarkup(text)))
  }

  /** The loop of normalizeOpenClawSpeechText over the runes of the text. */
  method NormalizeSpeechText(text: string) returns (result: string)
    ensures result == Normalize(text)
  {
    if TrimSpace(text) == "" { return ""; }
    var replaced := ReplaceMarkup(text);
    var out := "";
    for i := 0 to |replaced|
      invariant PutAll(out, replaced[i..]) == PutAll("", replaced)
    {
      assert replaced[i..][1..] == replaced[i + 1..];
      out := PutRune(out, replaced[i]);
    }
    result := TrimSegment(out);
  }

  method PutRune(out: string, r: char) returns (out': string)
    ensures out' == Put(out, r)
  {
    out' := out;
    if IsSpace(r) {
      if |out'| == 0 || out'[|out'| - 1] == ' ' || IsPause(out'[|out'| - 1]) { return; }
      out' := out' + [' '];
    } else if IsMarkup(r) {
      return;
    } else if IsSoftSeparator(r) {
      out' := TrimTrailingSpace(out');
      if |out'| == 0 || IsPause(out'[|out'| - 1]) { return; }
      out' := out' + ['，'];
    } else if IsSentenceSeparator(r) {
      out' := TrimTrailingSpace(out');
      if |out'| == 0 { return; }
      out' := out' + [r];
    } else if IsColon(r) {
      out' := TrimTrailingSpace(out');
      if |out'| == 0 { return; }
      out' := out' + ['：'];
    } else if IsDash(r) {
      if |out'| == 0 || IsPause(out'[|out'| - 1]) { return; }
      out' := out' + [r];
    } else {
      out' := out' + [r];
    }
  }

  method TrimTrailingSpace(text: string) returns (out: string)
    ensures out == DropTrailingBlanks(text)
  {
    out := text;
    while |out| > 0 && out[|out| - 1] == ' '
      invariant DropTrailingBlanks(out) == DropTrailingBlanks(text)
    {
      out := out[..|out| - 1];
    }
  }

  // ---------- Idempotence ----------

  datatype Prev = Start | After(c: char)

  /** Whether the loop appends c unchanged when `prev` is the last rune of out. */
  ghost predicate Keeps(prev: Prev, c: char) {
    && c != '|' && !IsMarkup(c)
    && (IsSpace(c) ==> c == ' ' && prev.After? && !IsPause(prev.c))
    && (IsSoftSeparator(c) ==> c == '，' && prev.After? && !IsPause(prev.c))
    && (IsSentenceSeparator(c) ==> prev.After? && prev.c != ' ')
    && (IsColon(c) ==> c == '：' && prev.After? && prev.c != ' ')
    && (IsDash(c) ==> prev.After? && !IsPause(prev.c))
  }

  ghost predicate Stable(prev: Prev, s: string)
    decreases |s|
  {
    s == "" || (Keeps(prev, s[0]) && Stable(After(s[0]), s[1..]))
  }

  function Last(out: string): Prev {
    if out == "" then Start else After(out[|out| - 1])
  }

  lemma {:induction false} DropBlanksKeeps(out: string)
    ensures DropTrailingBlanks(out) <= out
    ensures DropTrailingBlanks(out) == "" || DropTrailingBlanks(out)[|DropTrailingBlanks(out)| - 1] != ' '
    ensures Last(out) != After(' ') ==> DropTrailingBlanks(out) == out
  {
    if out != "" && out[|out| - 1] == ' ' { DropBlanksKeeps(out[..|out| - 1]); }
  }

  lemma PutKept(out: string, c: char)
    requires Keeps(Last(out), c)
    ensures Put(out, c) == out + [c]
  {
    DropBlanksKeeps(out);
  }

  /** The loop leaves a stable text alone. */
  lemma {:induction false} StableIsFixed(out: string, s: string)
    requires Stable(Last(out), s)
    ensures PutAll(out, s) == out + s
    decreases |s|
  {
    if s == "" {
      assert out + s == out;
    } else {
      PutKept(out, s[0]);
      StableIsFixed(out + [s[0]], s[1..]);
      assert (out + [s[0]]) + s[1..] == out + s;
    }
  }

  lemma {:induction false} StableSnoc(prev: Prev, s: string, c: char)
    requires Stable(prev, s) && Keeps(if s == "" then prev else Last(s), c)
    ensures Stable(prev, s + [c])
    decreases |s|
  {
    if s != "" {
      assert (s + [c])[1..] == s[1..] + [c];
      StableSnoc(After(s[0]), s[1..], c);
    }
  }

  lemma {:induction false} StablePrefix(prev: Prev, s: string, t: string)
    requires Stable(prev, s) && t <= s
    ensures Stable(prev, t)
    decreases |s|
  {
    if t != "" { StablePrefix(After(s[0]), s[1..], t[1..]); }
  }

  lemma PutStable(out: string, r: char)
    requires Stable(Start, out) && r != '|'
    ensures Stable(Start, Put(out, r))
  {
    var o := DropTrailingBlanks(out);
    DropBlanksKeeps(out);
    StablePrefix(Start, out, o);
    var out' := Put(out, r);
    if out' != out && out' != o {
      var base := if IsSoftSeparator(r) || IsSentenceSeparator(r) || IsColon(r) then o else out;
      assert out' == base + [out'[|out'| - 1]];
      StableSnoc(Start, base, out'[|out'| - 1]);
    }
  }

  lemma {:induction false} PutAllStable(out: string, text: string)
    requires Stable(Start, out) && '|' !in text
    ensures Stable(Start, PutAll(out, text))
    decreases |text|
  {
    if text != "" {
      PutStable(out, text[0]);
      PutAllStable(Put(out, text[0]), text[1..]);
    }
  }

  lemma {:induction false} ReplaceMarkupDropsBars(s: string)
    ensures '|' !in ReplaceMarkup(s)
    decreases |s|
  {
    if s != "" {
      var (n, new') := SpeechRule(s);
      ReplaceMarkupDropsBars(if n == 0 then s[1..] else s[n..]);
    }
  }

  /** No rule of the second replacer matches between these two runes. */
  ghost predicate NoPair(prev: Prev, c: char) {
    prev.After? ==> !BlankPair(prev.c, c)
  }

  ghost predicate Canonical(prev: Prev, s: string)
    decreases |s|
  {
    s == "" || (Keeps(prev, s[0]) && NoPair(prev, s[0]) && Canonical(After(s[0]), s[1..]))
  }

  lemma KeptAfterBlank(p: Prev, c: char)
    requires Keeps(After(' '), c)
    ensures Keeps(p, c) && c != ' '
  {
  }

  /** Dropping blanks turns a stable text into a canonical one. */
  lemma {:induction false} BlanksCanonical(prev: Prev, s: string)
    requires Stable(prev, s) && (s != "" ==> NoPair(prev, s[0]))
    ensures Canonical(prev, ReplaceBlanks(s))
    decreases |s|
  {
    if s != "" {
      if |s| >= 2 && BlankPair(s[0], s[1]) {
        assert Stable(After(s[1]), s[2..]) by { assert s[1..][1..] == s[2..]; }
        assert Keeps(After(s[0]), s[1]);
        if s[0] == ' ' {
          KeptAfterBlank(prev, s[1]);
          CloserPair(prev, s);
          if |s| > 2 { assert !IsOpener(s[1]) && s[1] != ' '; }
          BlanksCanonical(After(s[1]), s[2..]);
          var tail := ReplaceBlanks(s[2..]);
          assert ([s[1]] + tail)[1..] == tail;
        } else {
          OpenerThenBlank(s);
          BlanksCanonical(After(s[0]), s[2..]);
          var tail := ReplaceBlanks(s[2..]);
          assert ([s[0]] + tail)[1..] == tail;
        }
      } else {
        BlanksCanonical(After(s[0]), s[1..]);
        var tail := ReplaceBlanks(s[1..]);
        assert ([s[0]] + tail)[1..] == tail;
      }
    }
  }

  /** In a stable text a blank is followed by a closing parenthesis, if by any
      rune of the second replacer, and follows neither a blank nor an opener
      that a rule has already dealt with. */
  lemma CloserPair(prev: Prev, s: string)
    requires Stable(prev, s) && |s| >= 2 && s[0] == ' ' && BlankPair(s[0], s[1])
    ensures IsCloser(s[1]) && NoPair(prev, s[1])
  {
    assert Keeps(prev, s[0]) && Keeps(After(s[0]), s[1]);
  }

  lemma OpenerThenBlank(s: string)
    requires |s| >= 2 && IsOpener(s[0]) && s[1] == ' ' && Stable(After(s[0]), s[1..])
    ensures Stable(After(s[0]), s[2..]) && (|s| > 2 ==> NoPair(After(s[0]), s[2]))
  {
    assert s[1..][1..] == s[2..];
    if |s| > 2 {
      assert s[2..][0] == s[2];
      KeptAfterBlank(After(s[0]), s[2]);
    }
  }

  lemma {:induction false} CanonicalIsStable(prev: Prev, s: string)
    requires Canonical(prev, s)
    ensures Stable(prev, s) && ReplaceBlanks(s) == s && ReplaceMarkup(s) == s
    decreases |s|
  {
    if s != "" {
      CanonicalIsStable(After(s[0]), s[1..]);
      assert s == [s[0]] + s[1..];
      if |s| >= 2 { assert s[1..][0] == s[1]; }
      NoSpeechRule(prev, s);
    }
  }

  lemma NoSpeechRule(prev: Prev, s: string)
    requires s != "" && Keeps(prev, s[0])
    ensures SpeechRule(s).0 == 0
  {
    var c := s[0];
    assert c != '\r' && c != '\t' && c != '\n' && c != '`' && c != '*' && c != '_' && c != '#' && c != '|';
  }

  lemma {:induction false} BlanksKeepEnds(s: string)
    requires Stable(Start, s) && Trimmed(s)
    ensures Trimmed(ReplaceBlanks(s)) && (ReplaceBlanks(s) == "" <==> s == "")
  {
    if s != "" {
      BlanksKeepLast(Start, s);
    }
  }

  lemma {:induction false} BlanksKeepLast(prev: Prev, s: string)
    requires s != "" && Stable(prev, s) && !IsSpace(s[|s| - 1])
    ensures ReplaceBlanks(s) != "" && ReplaceBlanks(s)[|ReplaceBlanks(s)| - 1] == s[|s| - 1]
    ensures !IsSpace(s[0]) ==> ReplaceBlanks(s)[0] == s[0]
    decreases |s|
  {
    if |s| >= 2 && BlankPair(s[0], s[1]) {
      if |s| > 2 {
        assert Stable(After(s[1]), s[2..]) by { assert s[1..][1..] == s[2..]; }
        BlanksKeepLast(After(s[1]), s[2..]);
      }
    } else if |s| >= 2 {
      BlanksKeepLast(After(s[0]), s[1..]);
    }
  }

  lemma CutsetAtStart(s: string)
    requires Stable(Start, s)
    ensures TrimCutset(s) == s && (s != "" ==> !IsSpace(s[0]))
  {
  }

  /** A text the normaliser can have produced. */
  ghost predicate IsNormal(t: string) {
    Canonical(Start, t) && Trimmed(t)
  }

  lemma NormalizeIsNormal(text: string)
    ensures IsNormal(Normalize(text))
  {
    if TrimSpace(text) != "" {
      var replaced := ReplaceMarkup(text);
      ReplaceMarkupDropsBars(text);
      PutAllStable("", replaced);
      var out := PutAll("", replaced);
      CutsetAtStart(out);
      TrimLeftResult(out);
      TrimRightResult(out);
      var trimmed := TrimSpace(out);
      assert trimmed <= out;
      StablePrefix(Start, out, trimmed);
      CutsetAtStart(trimmed);
      TrimSpaceResult(out);
      BlanksKeepEnds(trimmed);
      BlanksCanonical(Start, trimmed);
      TrimSpaceResult(ReplaceBlanks(trimmed));
    }
  }

  /** Both passes leave a normal text as it is. */
  lemma NormalIsFixed(t: string)
    requires IsNormal(t)
    ensures Normalize(t) == t
  {
    TrimSpaceResult(t);
    CanonicalIsStable(Start, t);
    StableIsFixed("", t);
    assert "" + t == t;
    CutsetAtStart(t);
  }

  /** normalizeOpenClawSpeechText is idempotent, and its results are exactly the
      texts it leaves alone. */
  lemma NormalizeIdempotent(text: string)
    ensures Normalize(Normalize(text)) == Normalize(text)
    ensures Normalize(text) == text <==> IsNormal(text)
  {
    NormalizeIsNormal(text);
    NormalIsFixed(Normalize(text));
    if IsNormal(text) { NormalIsFixed(text); }
  }

  // ---------- Comparable keys and the prefix trim ----------

  /** The runes of a text that count when two texts are compared. */
  function Key(s: string): string {
    if s == "" then "" else if IsIgnorable(s[0]) then Key(s[1..]) else [s[0]] + Key(s[1..])
  }

  /** openClawComparableKey */
  method ComparableKey(text: string) returns (key: string)
    ensures key == Key(Normalize(text))
  {
    var normalized := NormalizeSpeechText(text);
    if normalized == "" { return ""; }
    key := "";
    assert normalized[0..] == normalized && "" + Key(normalized) == Key(normalized);
    for i := 0 to |normalized|
      invariant key + Key(normalized[i..]) == Key(normalized)
    {
      KeyStep(normalized, i);
      if !IsIgnorable(normalized[i]) {
        ConcatAssoc(key, [normalized[i]], Key(normalized[i + 1..]));
        key := key + [normalized[i]];
      }
    }
    assert normalized[|normalized|..] == "" && key + "" == key;
  }

  lemma {:induction false} KeyAppend(a: string, b: string)
    ensures Key(a + b) == Key(a) + Key(b)
  {
    if a == "" {
      assert a + b == b;
    } else {
      assert (a + b)[1..] == a[1..] + b;
      KeyAppend(a[1..], b);
    }
  }

  lemma {:induction false} KeyTrimLeft(s: string)
    ensures Key(TrimLeft(s)) == Key(s)
  {
    if s != "" && IsSpace(s[0]) { KeyTrimLeft(s[1..]); }
  }

  lemma {:induction false} KeyTrimRight(s: string)
    ensures Key(TrimRight(s)) == Key(s)
  {
    if s != "" && IsSpace(s[|s| - 1]) {
      KeyTrimRight(s[..|s| - 1]);
      assert s == s[..|s| - 1] + [s[|s| - 1]];
      KeyAppend(s[..|s| - 1], [s[|s| - 1]]);
    }
  }

  lemma KeyTrimSpace(s: string)
    ensures Key(TrimSpace(s)) == Key(s)
  {
    KeyTrimLeft(s);
    KeyTrimRight(TrimLeft(s));
  }

  /** Moves past ignorable runes. */
  method SkipIgnorable(s: string, from: nat) returns (at: nat)
    requires from <= |s|
    ensures from <= at <= |s| && Key(s[at..]) == Key(s[from..])
    ensures at < |s| ==> !IsIgnorable(s[at])
  {
    at := from;
    while at < |s| && IsIgnorable(s[at])
      invariant from <= at <= |s| && Key(s[at..]) == Key(s[from..])
    {
      assert s[at..][1..] == s[at + 1..];
      at := at + 1;
    }
  }

  lemma KeyStep(s: string, at: nat)
    requires at < |s|
    ensures Key(s[at..]) == if IsIgnorable(s[at]) then Key(s[at + 1..]) else [s[at]] + Key(s[at + 1..])
  {
    assert s[at..][1..] == s[at + 1..];
  }

  lemma SameHead(a: char, x: string, b: char, y: string, z: string)
    requires [a] + x == ([b] + y) + z
    ensures a == b && x == y + z
  {
    assert ([a] + x)[0] == (([b] + y) + z)[0];
    assert ([a] + x)[1..] == x && (([b] + y) + z)[1..] == y + z;
  }

  lemma KeyOfRest(s: string, at: nat)
    requires at <= |s| && (at < |s| ==> !IsIgnorable(s[at]))
    ensures Key(s[at..]) == "" <==> at == |s|
  {
    if at < |s| { KeyStep(s, at); }
  }

  lemma WalkStep(text: string, idx: nat, prefix: string, matched: nat, rest: string)
    requires idx < |text| && matched < |prefix| && !IsIgnorable(prefix[matched])
    requires Key(text[idx..]) == Key(prefix[matched..]) + rest
    ensures if IsIgnorable(text[idx]) then Key(text[idx + 1..]) == Key(prefix[matched..]) + rest
            else text[idx] == prefix[matched] && Key(text[idx + 1..]) == Key(prefix[matched + 1..]) + rest
  {
    KeyStep(text, idx);
    KeyStep(prefix, matched);
    if !IsIgnorable(text[idx]) {
      SameHead(text[idx], Key(text[idx + 1..]), prefix[matched], Key(prefix[matched + 1..]), rest);
    }
  }

  lemma WalkEnd(text: string, prefix: string, matched: nat, rest: string)
    requires matched < |prefix| && !IsIgnorable(prefix[matched])
    ensures Key(text[|text|..]) != Key(prefix[matched..]) + rest
  {
    assert text[|text|..] == "";
    KeyStep(prefix, matched);
  }

  /** The two-pointer walk over a text whose key extends that of the prefix: it
      finds the end of the prefix, so neither failure return is ever reached. */
  method WalkPrefix(text: string, prefix: string) returns (suffix: string, ok: bool)
    requires Key(prefix) != "" && Key(prefix) <= Key(text)
    ensures ok && Key(text) == Key(prefix) + Key(suffix) && Trimmed(suffix)
    ensures Trimmed(text) ==> CutFrom(text, suffix)
  {
    ghost var rest := Key(text)[|Key(prefix)|..];
    var matched := SkipIgnorable(prefix, 0);
    assert prefix[0..] == prefix && text[0..] == text;
    assert Key(prefix) + rest == Key(text);
    KeyOfRest(prefix, matched);
    for idx := 0 to |text|
      invariant matched < |prefix| && !IsIgnorable(prefix[matched])
      invariant Key(text[idx..]) == Key(prefix[matched..]) + rest
    {
      var r := text[idx];
      WalkStep(text, idx, prefix, matched, rest);
      if IsIgnorable(r) { continue; }
      if matched >= |prefix| || r != prefix[matched] {
        assert false;
        return "", false;
      }
      matched := SkipIgnorable(prefix, matched + 1);
      if matched == |prefix| {
        NothingLeftOf(prefix, rest);
        suffix := SkipToSuffix(text, idx + 1);
        return suffix, true;
      }
    }
    WalkEnd(text, prefix, matched, rest);
    assert false;
    return "", false;
  }

  lemma NothingLeftOf(prefix: string, rest: string)
    ensures Key(prefix[|prefix|..]) + rest == rest
  {
  }

  method SkipToSuffix(text: string, from: nat) returns (suffix: string)
    requires from <= |text|
    ensures Key(suffix) == Key(text[from..]) && Trimmed(suffix)
    ensures Trimmed(text) ==> CutFrom(text, suffix)
  {
    var suffixStart := SkipIgnorable(text, from);
    suffix := TrimSpace(text[suffixStart..]);
    KeyTrimSpace(text[suffixStart..]);
    TrimSpaceResult(text[suffixStart..]);
    if Trimmed(text) { assert CutFrom(text, text[suffixStart..]); }
  }

  /** `s` ends the text and begins with a rune that counts. */
  ghost predicate CutFrom(text: string, s: string) {
    |s| <= |text| && s == text[|text| - |s|..] && (s == "" || !IsIgnorable(s[0]))
  }

  /** trimOpenClawCanonicalPrefix: succeeds exactly when the prefix's key begins
      the text's key, and then splits the key of the text without loss. */
  method TrimCanonicalPrefix(text: string, prefix: string) returns (suffix: string, ok: bool)
    ensures ok <==> Key(Normalize(prefix)) <= Key(Normalize(text))
    ensures ok ==> Key(Normalize(text)) == Key(Normalize(prefix)) + Key(suffix) && Trimmed(suffix)
    ensures !ok ==> suffix == ""
    ensures ok && Key(Normalize(prefix)) != "" ==> CutFrom(Normalize(text), suffix)
    ensures ok && Key(Normalize(prefix)) != "" ==> (suffix == "" <==> Key(Normalize(text)) == Key(Normalize(prefix)))
  {
    var normalizedText := NormalizeSpeechText(text);
    var normalizedPrefix := NormalizeSpeechText(prefix);
    NormalizeIsNormal(text);
    NormalizeIdempotent(text);
    NormalizeIdempotent(prefix);
    if normalizedPrefix == "" {
      WholeText(normalizedText);
      return TrimSpace(normalizedText), true;
    }
    suffix, ok := TrimNormalPrefix(normalizedText, normalizedPrefix);
  }

  lemma WholeText(text: string)
    ensures Key(TrimSpace(text)) == Key(text) && Trimmed(TrimSpace(text))
  {
    KeyTrimSpace(text);
    TrimSpaceResult(text);
  }

  /** The part of trimOpenClawCanonicalPrefix that compares keys. */
  method TrimNormalPrefix(text: string, prefix: string) returns (suffix: string, ok: bool)
    requires Normalize(text) == text && Normalize(prefix) == prefix && Trimmed(text)
    ensures ok <==> Key(prefix) <= Key(text)
    ensures ok ==> Key(text) == Key(prefix) + Key(suffix) && Trimmed(suffix)
    ensures !ok ==> suffix == ""
    ensures ok && Key(prefix) != "" ==> CutFrom(text, suffix) && (suffix == "" <==> Key(text) == Key(prefix))
  {
    var textKey := ComparableKey(text);
    var prefixKey := ComparableKey(prefix);
    if prefixKey == "" {
      WholeText(text);
      return TrimSpace(text), true;
    }
    if !(prefixKey <= textKey) { return "", false; }
    if textKey == prefixKey { return "", true; }
    suffix, ok := WalkPrefix(text, prefix);
  }

  // ---------- Normalising the suffix again ----------

  lemma {:induction false} CanonicalTail(prev: Prev, s: string, k: nat)
    requires Canonical(prev, s) && k < |s|
    ensures exists before :: Canonical(before, s[k..])
    decreases k
  {
    if k == 0 {
      assert s[0..] == s && Canonical(prev, s[0..]);
    } else {
      CanonicalTail(After(s[0]), s[1..], k - 1);
      assert s[1..][k - 1..] == s[k..];
    }
  }

  lemma KeepsAtStart(prev: Prev, c: char)
    requires Keeps(prev, c) && !IsIgnorable(c)
    ensures Keeps(Start, c) <==> c != '.' && !IsDash(c)
  {
  }

  /** A suffix cut from a normal text is left as it is by normalising it again if and only
      if it does not begin with a full stop or a dash. */
  lemma SuffixIsNormalIff(text: string, suffix: string)
    requires IsNormal(text) && CutFrom(text, suffix)
    ensures Normalize(suffix) == suffix <==> suffix == "" || (suffix[0] != '.' && !IsDash(suffix[0]))
  {
    NormalizeIdempotent(suffix);
    if suffix != "" { CutIsNormal(text, suffix); }
  }

  lemma CutIsNormal(text: string, suffix: string)
    requires IsNormal(text) && CutFrom(text, suffix) && suffix != ""
    ensures IsNormal(suffix) <==> suffix[0] != '.' && !IsDash(suffix[0])
  {
    CanonicalTail(Start, text, |text| - |suffix|);
    var before :| Canonical(before, suffix);
    KeepsAtStart(before, suffix[0]);
  }

  /** Trimming "a" off "a.b" leaves ".b", whose own canonical form has lost the full stop. */
  method SuffixIsNotRenormalised() returns (suffix: string, ok: bool)
    ensures ok && suffix == ".b" && Normalize(suffix) == "b"
  {
    NormalExamples();
    suffix, ok := TrimCanonicalPrefix("a.b", "a");
    SameKeySuffix("a.b", suffix);
  }

  lemma SameKeySuffix(text: string, suffix: string)
    requires text == "a.b" && CutFrom(text, suffix) && "a.b" == "a" + Key(suffix)
    ensures suffix == ".b"
  {
    assert Key(suffix) == "a.b"[1..] == ".b";
    KeyExamples();
    assert |suffix| == 3 ==> suffix == "a.b";
    assert |suffix| == 1 ==> suffix == "b";
  }

  lemma KeyExamples()
    ensures Key("") == "" && Key("b") == "b" && Key(".b") == ".b" && Key("a.b") == "a.b" && Key("a") == "a"
  {
    assert "b"[1..] == "" && "a"[1..] == "" && ".b"[1..] == "b" && "a.b"[1..] == ".b";
    assert Key("b") == ['b'] + Key("");
    assert Key(".b") == ['.'] + Key("b");
    assert Key("a.b") == ['a'] + Key(".b");
  }

  lemma NormalExamples()
    ensures Normalize("a.b") == "a.b" && Normalize("a") == "a" && Normalize(".b") == "b"
    ensures Key("a.b") == "a.b" && Key("a") == "a"
  {
    KeyExamples();
    assert "b"[1..] == "" && "a"[1..] == "" && ".b"[1..] == "b" && "a.b"[1..] == ".b";
    assert Canonical(After('.'), "b") && Canonical(Start, "b") && Canonical(Start, "a");
    assert Canonical(After('a'), ".b");
    assert Canonical(Start, "a.b");
    NormalIsFixed("a.b");
    NormalIsFixed("a");
    StopDropped();
  }

  lemma StopDropped()
    ensures Normalize(".b") == "b"
  {
    StopMarkup();
    StopPut();
    NormalIsFixed("b");
    TrimSpaceResult(".b");
    TrimSpaceResult("b");
  }

  lemma StopMarkup()
    ensures ReplaceMarkup("b") == "b" && ReplaceMarkup(".b") == ".b" && IsNormal("b")
  {
    assert ".b"[1..] == "b" && "b"[1..] == "";
    assert Keeps(Start, 'b') && Keeps(After('b'), '.');
    NoSpeechRule(Start, "b");
    NoSpeechRule(After('b'), ".b");
  }

  lemma StopPut()
    ensures PutAll("", ".b") == "b" && PutAll("", "b") == "b"
  {
    assert ".b"[1..] == "b" && "b"[1..] == "";
    assert Put("", '.') == "" && Put("", 'b') == "b";
    assert PutAll("b", "") == "b";
  }
}

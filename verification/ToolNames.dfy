/**
 LLM tool names: internal/domain/mcp/tool_name.go and the naming loop of
 ConvertMcpToolListToInvokableToolList in global_manage.go.  The stable hash is any
 function to eight hexadecimal digits.
 */
module ToolNames {
  import opened Basics
  import opened Runes

  const MAX_LEN := 64

  // ---------- Characters ----------

  predicate IsAlphaNum(c: char) {
    'a' <= c <= 'z' || 'A' <= c <= 'Z' || '0' <= c <= '9'
  }

  predicate IsPunct(c: char) {
    c == '_' || c == '-'
  }

  predicate AllowedChars(s: string) {
    forall k :: 0 <= k < |s| ==> IsAlphaNum(s[k]) || IsPunct(s[k])
  }

  /** A name the code hands out: allowed characters, a letter or digit at both
      ends, at most 64 long. */
  predicate GoodName(s: string) {
    0 < |s| <= MAX_LEN && AllowedChars(s) && IsAlphaNum(s[0]) && IsAlphaNum(s[|s| - 1])
  }

  predicate IsHash(s: string) {
    |s| == 8 && forall k :: 0 <= k < 8 ==> '0' <= s[k] <= '9' || 'a' <= s[k] <= 'f'
  }

  ghost predicate GoodHash(h: string -> string) {
    forall s :: IsHash(h(s))
  }

  // ---------- Trimming '_' and '-' ----------

  function TrimPunctLeft(s: string): string {
    if s != "" && IsPunct(s[0]) then TrimPunctLeft(s[1..]) else s
  }

  function TrimPunctRight(s: string): string {
    if s != "" && IsPunct(s[|s| - 1]) then TrimPunctRight(s[..|s| - 1]) else s
  }

  /** strings.Trim(s, "_-") */
  function TrimPunct(s: string): string {
    TrimPunctRight(TrimPunctLeft(s))
  }

  lemma {:induction false} TrimPunctLeftResult(s: string)
    requires AllowedChars(s)
    ensures AllowedChars(TrimPunctLeft(s)) && |TrimPunctLeft(s)| <= |s|
    ensures TrimPunctLeft(s) == "" || IsAlphaNum(TrimPunctLeft(s)[0])
    ensures s != "" && IsAlphaNum(s[0]) ==> TrimPunctLeft(s) == s
    ensures (exists k :: 0 <= k < |s| && IsAlphaNum(s[k])) ==> TrimPunctLeft(s) != ""
  {
    if s != "" && IsPunct(s[0]) {
      TrimPunctLeftResult(s[1..]);
      forall k | 0 <= k < |s| && IsAlphaNum(s[k])
        ensures TrimPunctLeft(s) != ""
      {
        assert s[1..][k - 1] == s[k];
      }
    }
  }

  lemma {:induction false} TrimPunctRightResult(s: string)
    requires AllowedChars(s)
    ensures AllowedChars(TrimPunctRight(s)) && TrimPunctRight(s) <= s
    ensures TrimPunctRight(s) == "" || IsAlphaNum(TrimPunctRight(s)[|TrimPunctRight(s)| - 1])
    ensures s != "" && IsAlphaNum(s[|s| - 1]) ==> TrimPunctRight(s) == s
    ensures s != "" && IsAlphaNum(s[0]) ==> TrimPunctRight(s) != ""
  {
    if s != "" && IsPunct(s[|s| - 1]) { TrimPunctRightResult(s[..|s| - 1]); }
  }

  ghost predicate Edged(s: string) {
    AllowedChars(s) && (s == "" || (IsAlphaNum(s[0]) && IsAlphaNum(s[|s| - 1])))
  }

  lemma TrimPunctResult(s: string)
    requires AllowedChars(s)
    ensures Edged(TrimPunct(s)) && |TrimPunct(s)| <= |s|
    ensures s != "" && Edged(s) ==> TrimPunct(s) == s
    ensures (exists k :: 0 <= k < |s| && IsAlphaNum(s[k])) <==> TrimPunct(s) != ""
  {
    TrimPunctLeftResult(s);
    TrimPunctRightResult(TrimPunctLeft(s));
    if TrimPunct(s) != "" { TrimPunctInside(s); }
  }

  lemma {:induction false} TrimPunctInside(s: string)
    requires TrimPunctLeft(s) != "" && AllowedChars(s)
    ensures exists k :: 0 <= k < |s| && IsAlphaNum(s[k])
  {
    if IsPunct(s[0]) {
      TrimPunctInside(s[1..]);
      var k :| 0 <= k < |s[1..]| && IsAlphaNum(s[1..][k]);
      assert IsAlphaNum(s[k + 1]);
    }
  }

  // ---------- Sanitising ----------

  /** The loop of sanitizeLLMToolName: runs of other characters become one '_'. */
  function Clean(s: string, lastWasReplacement: bool): string {
    if s == "" then ""
    else if IsAlphaNum(s[0]) || IsPunct(s[0]) then [s[0]] + Clean(s[1..], false)
    else if lastWasReplacement then Clean(s[1..], true)
    else ['_'] + Clean(s[1..], true)
  }

  lemma {:induction false} CleanResult(s: string, last: bool)
    ensures AllowedChars(Clean(s, last))
    ensures (exists k :: 0 <= k < |Clean(s, last)| && IsAlphaNum(Clean(s, last)[k]))
       <==> (exists k :: 0 <= k < |s| && IsAlphaNum(s[k]))
    ensures AllowedChars(s) ==> Clean(s, last) == s
    decreases |s|
  {
    if s != "" {
      var last' := !(IsAlphaNum(s[0]) || IsPunct(s[0]));
      CleanResult(s[1..], last');
      var t, t' := Clean(s, last), Clean(s[1..], last');
      if IsAlphaNum(s[0]) {
        assert IsAlphaNum(t[0]);
      } else {
        SameTail(s, t, t');
      }
    }
  }

  lemma SameTail(s: string, t: string, t': string)
    requires s != "" && !IsAlphaNum(s[0])
    requires t == t' || (t != "" && !IsAlphaNum(t[0]) && t[1..] == t')
    ensures (exists k :: 0 <= k < |s[1..]| && IsAlphaNum(s[1..][k])) <==> (exists k :: 0 <= k < |s| && IsAlphaNum(s[k]))
    ensures (exists k :: 0 <= k < |t'| && IsAlphaNum(t'[k])) <==> (exists k :: 0 <= k < |t| && IsAlphaNum(t[k]))
  {
    AlphaTail(s);
    if t != t' { AlphaTail(t); }
  }

  lemma AlphaTail(s: string)
    requires s != "" && !IsAlphaNum(s[0])
    ensures (exists k :: 0 <= k < |s[1..]| && IsAlphaNum(s[1..][k])) <==> (exists k :: 0 <= k < |s| && IsAlphaNum(s[k]))
  {
    if k :| 0 <= k < |s[1..]| && IsAlphaNum(s[1..][k]) {
      assert IsAlphaNum(s[k + 1]);
    }
    if k :| 0 <= k < |s| && IsAlphaNum(s[k]) {
      assert s[1..][k - 1] == s[k];
    }
  }

  /** truncateLLMToolName */
  function Truncate(name: string, original: string, h: string -> string): string {
    if |name| <= MAX_LEN then name
    else
      var hashSuffix := "_" + h(original);
      var maxBaseLen := if MAX_LEN - |hashSuffix| < 1 then 1 else MAX_LEN - |hashSuffix|;
      var base := TrimPunct(name[..maxBaseLen]);
      (if base == "" then "tool" else base) + hashSuffix
  }

  /** sanitizeLLMToolName */
  function Sanitize(name: string, h: string -> string): string {
    var trimmed := TrimSpace(name);
    if trimmed == "" then ""
    else
      var cleaned := TrimPunct(Clean(trimmed, false));
      Truncate(if cleaned == "" then "tool_" + h(trimmed) else cleaned, trimmed, h)
  }

  method SanitizeName(name: string, h: string -> string) returns (result: string)
    ensures result == Sanitize(name, h)
  {
    var trimmed := TrimSpace(name);
    if trimmed == "" { return ""; }
    var b := "";
    var hasAlphaNum, lastWasReplacement := false, false;
    assert trimmed[0..] == trimmed && "" + Clean(trimmed, false) == Clean(trimmed, false);
    for i := 0 to |trimmed|
      invariant b + Clean(trimmed[i..], lastWasReplacement) == Clean(trimmed, false)
      invariant hasAlphaNum <==> exists k :: 0 <= k < i && IsAlphaNum(trimmed[k])
    {
      var r := trimmed[i];
      var next := "";
      assert trimmed[i..][1..] == trimmed[i + 1..];
      if IsAlphaNum(r) {
        next, hasAlphaNum, lastWasReplacement := [r], true, false;
      } else if IsPunct(r) {
        next, lastWasReplacement := [r], false;
      } else if !lastWasReplacement {
        next, lastWasReplacement := ['_'], true;
      }
      Shift(b, next, Clean(trimmed[i + 1..], lastWasReplacement));
      b := b + next;
    }
    assert trimmed[|trimmed|..] == "" && b + "" == b;
    var sanitized := TrimPunct(b);
    CleanResult(trimmed, false);
    TrimPunctResult(b);
    if sanitized == "" || !hasAlphaNum {
      sanitized := "tool_" + h(trimmed);
    }
    result := Truncate(sanitized, trimmed, h);
  }

  lemma Shift(a: string, b: string, c: string)
    ensures a + (b + c) == (a + b) + c && (b == "" ==> b + c == c)
  {
  }

  lemma HashName(base: string, hash: string)
    requires IsHash(hash) && base != "" && AllowedChars(base) && IsAlphaNum(base[0])
    ensures var s := base + "_" + hash;
            AllowedChars(s) && IsAlphaNum(s[0]) && IsAlphaNum(s[|s| - 1]) && |s| == |base| + 9
  {
    var s := base + "_" + hash;
    forall k | 0 <= k < |s|
      ensures IsAlphaNum(s[k]) || IsPunct(s[k])
    {
      if k > |base| { assert s[k] == hash[k - |base| - 1]; }
    }
    assert s[|s| - 1] == hash[7];
  }

  lemma TruncateResult(name: string, original: string, h: string -> string)
    requires GoodHash(h) && name != "" && Edged(name)
    ensures GoodName(Truncate(name, original, h))
  {
    if |name| > MAX_LEN {
      assert IsHash(h(original));
      var base := TrimPunct(name[..55]);
      TrimPunctResult(name[..55]);
      assert IsAlphaNum(name[..55][0]);
      HashName(base, h(original));
      assert base + "_" + h(original) == base + ("_" + h(original));
    }
  }

  /** A sanitised name is blank only for a blank name, is good otherwise, and a
      good name is left alone. */
  lemma SanitizeResult(name: string, h: string -> string)
    requires GoodHash(h)
    ensures Sanitize(name, h) == "" <==> TrimSpace(name) == ""
    ensures Sanitize(name, h) != "" ==> GoodName(Sanitize(name, h))
    ensures GoodName(name) ==> Sanitize(name, h) == name
  {
    var trimmed := TrimSpace(name);
    if trimmed != "" {
      var cleaned := Clean(trimmed, false);
      CleanResult(trimmed, false);
      TrimPunctResult(cleaned);
      if TrimPunct(cleaned) == "" {
        HashName("tool", h(trimmed));
        assert "tool_" + h(trimmed) == "tool" + "_" + h(trimmed);
        TruncateResult("tool_" + h(trimmed), trimmed, h);
      } else {
        TruncateResult(TrimPunct(cleaned), trimmed, h);
      }
    }
    if GoodName(name) { GoodNameTrimmed(name); }
  }

  lemma GoodNameTrimmed(name: string)
    requires GoodName(name)
    ensures TrimSpace(name) == name && Clean(name, false) == name && TrimPunct(name) == name
  {
    TrimSpaceResult(name);
    CleanResult(name, false);
    TrimPunctResult(name);
  }

  // ---------- What the names look like ----------

  /** The characters allowed, by their ASCII codes: letters, digits, '-' and '_'. */
  lemma AllowedCodes(c: char)
    ensures IsAlphaNum(c) <==> 65 <= c as int <= 90 || 97 <= c as int <= 122 || 48 <= c as int <= 57
    ensures IsPunct(c) <==> c as int == 45 || c as int == 95
  {
  }

  predicate OtherChars(s: string) {
    forall k :: 0 <= k < |s| ==> !IsAlphaNum(s[k]) && !IsPunct(s[k])
  }

  predicate PunctOnly(s: string) {
    forall k :: 0 <= k < |s| ==> IsPunct(s[k])
  }

  /** Trimming takes '_' and '-' off both ends, and nothing else. */
  lemma TrimPunctParts(s: string) returns (a: string, b: string)
    ensures PunctOnly(a) && PunctOnly(b) && s == a + TrimPunct(s) + b
    ensures TrimPunct(s) == "" || (!IsPunct(TrimPunct(s)[0]) && !IsPunct(TrimPunct(s)[|TrimPunct(s)| - 1]))
  {
    a := LeftPart(s);
    b := RightPart(TrimPunctLeft(s));
    assert a + (TrimPunct(s) + b) == a + TrimPunct(s) + b;
  }

  lemma {:induction false} LeftPart(s: string) returns (a: string)
    ensures PunctOnly(a) && s == a + TrimPunctLeft(s) && (TrimPunctLeft(s) == "" || !IsPunct(TrimPunctLeft(s)[0]))
  {
    a := "";
    if s != "" && IsPunct(s[0]) {
      a := LeftPart(s[1..]);
      a := [s[0]] + a;
      assert s == [s[0]] + s[1..];
    }
  }

  lemma {:induction false} RightPart(s: string) returns (b: string)
    ensures PunctOnly(b) && s == TrimPunctRight(s) + b
    ensures TrimPunctRight(s) == "" || (!IsPunct(TrimPunctRight(s)[|TrimPunctRight(s)| - 1]) && TrimPunctRight(s)[0] == s[0])
  {
    b := "";
    if s != "" && IsPunct(s[|s| - 1]) {
      b := RightPart(s[..|s| - 1]);
      b := b + [s[|s| - 1]];
      assert s == s[..|s| - 1] + [s[|s| - 1]];
    }
  }

  /** Allowed characters stay, and a run of others becomes one '_'. */
  lemma {:induction false} RunBecomesOne(a: string, x: string, b: string, last: bool)
    requires AllowedChars(a) && OtherChars(x) && x != "" && AllowedChars(b) && (last ==> a != "")
    ensures Clean(a + x + b, last) == a + "_" + b
    decreases |a|
  {
    var s := a + x + b;
    if a == "" {
      assert s == x + b && s[0] == x[0] && s[1..] == x[1..] + b;
      RunGoes(x[1..], b);
    } else {
      assert s[0] == a[0] && s[1..] == a[1..] + x + b;
      RunBecomesOne(a[1..], x, b, false);
      assert [a[0]] + (a[1..] + "_" + b) == a + "_" + b;
    }
  }

  lemma {:induction false} RunGoes(x: string, b: string)
    requires OtherChars(x) && AllowedChars(b)
    ensures Clean(x + b, true) == b
    decreases |x|
  {
    if x == "" {
      assert x + b == b;
      CleanResult(b, true);
    } else {
      assert (x + b)[0] == x[0] && (x + b)[1..] == x[1..] + b;
      RunGoes(x[1..], b);
    }
  }

  /** A long name keeps what fits before the hash of the original, without '_' or '-' at the cut. */
  lemma TruncateMeans(name: string, original: string, h: string -> string)
    requires GoodHash(h) && name != "" && Edged(name)
    ensures |name| <= 64 ==> Truncate(name, original, h) == name
    ensures |name| > 64 ==> Truncate(name, original, h) == TrimPunct(name[..55]) + "_" + h(original)
  {
    if |name| > 64 {
      assert IsHash(h(original));
      TrimPunctResult(name[..55]);
      assert IsAlphaNum(name[..55][0]);
      assert TrimPunct(name[..55]) + ("_" + h(original)) == TrimPunct(name[..55]) + "_" + h(original);
    }
  }

  /** A name without letters and digits is named after its hash; another one keeps its allowed characters. */
  lemma SanitizeMeans(name: string, h: string -> string)
    requires GoodHash(h) && TrimSpace(name) != ""
    ensures var t := TrimSpace(name);
            var cleaned := TrimPunct(Clean(t, false));
            if forall k :: 0 <= k < |t| ==> !IsAlphaNum(t[k]) then Sanitize(name, h) == "tool_" + h(t)
            else cleaned != "" && Sanitize(name, h) == Truncate(cleaned, t, h)
  {
    var t := TrimSpace(name);
    CleanResult(t, false);
    TrimPunctResult(Clean(t, false));
    assert IsHash(h(t));
  }

  // ---------- Decimal numbers ----------

  function Digit(d: nat): char
    requires d < 10
  {
    "0123456789"[d]
  }

  /** fmt.Sprintf("%d", n) */
  function Dec(n: nat): string {
    if n < 10 then [Digit(n)] else Dec(n / 10) + [Digit(n % 10)]
  }

  function Value(s: string): int {
    if s == "" then 0 else 10 * Value(s[..|s| - 1]) + (s[|s| - 1] as int - '0' as int)
  }

  lemma {:induction false} DecValue(n: nat)
    ensures Value(Dec(n)) == n
  {
    if n < 10 {
      assert [Digit(n)][..0] == "";
    } else {
      DecValue(n / 10);
      assert Dec(n)[..|Dec(n)| - 1] == Dec(n / 10);
    }
  }

  lemma {:induction false} DecDigits(n: nat)
    ensures Dec(n) != "" && forall k :: 0 <= k < |Dec(n)| ==> '0' <= Dec(n)[k] <= '9'
  {
    if n >= 10 { DecDigits(n / 10); }
  }

  function Pow10(k: nat): nat {
    if k == 0 then 1 else 10 * Pow10(k - 1)
  }

  lemma {:induction false} DecLength(n: nat, k: nat)
    requires k > 0 && n < Pow10(k)
    ensures |Dec(n)| <= k
    decreases k
  {
    if n >= 10 {
      DecLength(n / 10, k - 1);
    }
  }

  // ---------- Unique names ----------

  function Extra(i: nat): string {
    if i > 0 then "_" + Dec(i + 1) else ""
  }

  /** The i-th name of the retry loop, without its number. */
  function Stem(base: string, hash: string, i: nat): string {
    var room := MAX_LEN - |"_" + hash| - |Extra(i)|;
    var maxBaseLen := if room < 1 then 1 else room;
    var trimmedBase :=
      if |base| > maxBaseLen then
        var t := TrimPunct(base[..maxBaseLen]);
        if t == "" then "tool" else t
      else base;
    trimmedBase + ("_" + hash)
  }

  function Retry(base: string, hash: string, i: nat): string {
    Stem(base, hash, i) + Extra(i)
  }

  function Base(candidate: string): string {
    if TrimPunct(candidate) == "" then "tool" else TrimPunct(candidate)
  }

  function Candidate(candidate: string, original: string, h: string -> string): string {
    if candidate == "" then "tool_" + h(original) else candidate
  }

  /** The names tried for a tool, in order. */
  function Attempt(candidate: string, original: string, h: string -> string, k: nat): string {
    if k == 0 then candidate else Retry(Base(candidate), h(original), k - 1)
  }

  /** The names of the retry loop: what fits of the base, the hash, and from the second one on its number. */
  lemma RetryMeans(base: string, hash: string, i: nat)
    requires IsHash(hash) && base != "" && Edged(base) && i < 0x8000_0000_0000_0000
    ensures var number := if i == 0 then "" else "_" + Dec(i + 1);
            var room := 55 - |number|;
            && room > 0
            && Retry(base, hash, i) == (if |base| <= room then base else TrimPunct(base[..room])) + "_" + hash + number
  {
    ExtraLength(i);
    var room := 55 - |Extra(i)|;
    if |base| > room {
      TrimPunctResult(base[..room]);
      assert IsAlphaNum(base[..room][0]);
    }
    var kept := if |base| <= room then base else TrimPunct(base[..room]);
    assert kept + ("_" + hash) == kept + "_" + hash;
  }

  /** The names tried: the candidate, or one after the hash if there is none, and then those of the loop, on the
      candidate without '_' and '-' at its ends, or on "tool" if nothing is left. */
  lemma AttemptsMean(candidate: string, original: string, h: string -> string, k: nat)
    ensures Candidate("", original, h) == "tool_" + h(original) && (candidate != "" ==> Candidate(candidate, original, h) == candidate)
    ensures Attempt(candidate, original, h, 0) == candidate
    ensures k > 0 && !PunctOnly(candidate) ==>
              TrimPunct(candidate) != "" && Attempt(candidate, original, h, k) == Retry(TrimPunct(candidate), h(original), k - 1)
    ensures k > 0 && PunctOnly(candidate) ==> Attempt(candidate, original, h, k) == Retry("tool", h(original), k - 1)
  {
    var a, b := TrimPunctParts(candidate);
    if TrimPunct(candidate) == "" {
      assert candidate == a + b;
    } else {
      assert candidate[|a|] == TrimPunct(candidate)[0];
    }
  }

  lemma ExtraLength(i: nat)
    requires i < 0x8000_0000_0000_0000
    ensures |Extra(i)| <= 20
  {
    assert Pow10(10) == 10_000_000_000 && Pow10(19) == 10_000_000_000_000_000_000;
    DecLength(i + 1, 19);
  }

  /** Every name of the retry loop is good, as long as the counter is an int64. */
  lemma RetryForm(base: string, hash: string, i: nat)
    requires IsHash(hash) && base != "" && Edged(base) && i < 0x8000_0000_0000_0000
    ensures GoodName(Retry(base, hash, i))
  {
    var extra := Extra(i);
    ExtraLength(i);
    var room := MAX_LEN - |"_" + hash| - |extra|;
    var t := if |base| > room then TrimPunct(base[..room]) else base;
    ShortBase(base, room, t);
    HashName(t, hash);
    assert t + "_" + hash == t + ("_" + hash);
    ExtraForm(t + ("_" + hash), extra, i);
  }

  lemma ShortBase(base: string, room: nat, t: string)
    requires base != "" && Edged(base) && room > 0
    requires t == if |base| > room then TrimPunct(base[..room]) else base
    ensures t != "" && Edged(t) && |t| <= room
  {
    if |base| > room {
      TrimPunctResult(base[..room]);
      assert IsAlphaNum(base[..room][0]);
    }
  }

  lemma ExtraForm(s: string, extra: string, i: nat)
    requires s != "" && AllowedChars(s) && IsAlphaNum(s[0]) && IsAlphaNum(s[|s| - 1]) && extra == Extra(i)
    ensures AllowedChars(s + extra) && IsAlphaNum((s + extra)[0]) && IsAlphaNum((s + extra)[|s + extra| - 1])
  {
    DecDigits(i + 1);
    var n := s + extra;
    if i > 0 {
      assert extra == "_" + Dec(i + 1);
      assert n[|n| - 1] == Dec(i + 1)[|Dec(i + 1)| - 1];
    }
  }

  lemma LastBar(a: string, x: string, b: string, y: string)
    requires a + "_" + x == b + "_" + y && '_' !in x && '_' !in y
    ensures x == y
  {
    if |a| < |b| {
      BarInside(a, x, b, y);
    } else if |b| < |a| {
      BarInside(b, y, a, x);
    } else {
      assert x == (a + "_" + x)[|a| + 1..];
      assert y == (b + "_" + y)[|b| + 1..];
    }
  }

  lemma BarInside(a: string, x: string, b: string, y: string)
    requires a + "_" + x == b + "_" + y && |a| < |b|
    ensures '_' in x
  {
    var s := b + "_" + y;
    assert (a + "_" + x)[|b|] == s[|b|] == '_';
    assert (a + "_" + x)[|b|] == x[|b| - |a| - 1];
  }

  lemma NoBarInNumber(n: nat)
    ensures '_' !in Dec(n)
  {
    DecDigits(n);
  }

  lemma BarSplit(a: string, x: string, b: string, y: string)
    requires a + ("_" + x) == b + ("_" + y) && '_' !in x && '_' !in y
    ensures x == y
  {
    Shift(a, "_", x);
    Shift(b, "_", y);
    LastBar(a, x, b, y);
  }

  lemma DecInjective(m: nat, n: nat)
    requires Dec(m) == Dec(n)
    ensures m == n
  {
    DecValue(m);
    DecValue(n);
  }

  lemma SameNumber(a: string, i: nat, b: string, j: nat)
    requires a + Extra(i) == b + Extra(j) && 0 < i && 0 < j
    ensures i == j
  {
    NoBarInNumber(i + 1);
    NoBarInNumber(j + 1);
    BarSplit(a, Dec(i + 1), b, Dec(j + 1));
    DecInjective(i + 1, j + 1);
  }

  /** Numbered names differ: the digits after the last '_' tell them apart. */
  lemma RetriesDiffer(base: string, hash: string, i: nat, j: nat)
    requires 0 < i && 0 < j && Retry(base, hash, i) == Retry(base, hash, j)
    ensures i == j
  {
    SameNumber(Stem(base, hash, i), i, Stem(base, hash, j), j);
  }

  /** The name may be used for this original. */
  predicate Usable(used: map<string, string>, name: string, original: string) {
    name !in used || used[name] == original
  }

  /** `at` is the first attempt that is free or already belongs to the original. */
  ghost predicate FirstUsable(used: map<string, string>, candidate: string, original: string, h: string -> string,
                              at: nat)
  {
    && Usable(used, Attempt(candidate, original, h, at), original)
    && forall k: nat :: k < at ==> !Usable(used, Attempt(candidate, original, h, k), original)
  }

  /** A name of the retry loop that is in use for another tool. */
  ghost predicate Refused(used: map<string, string>, original: string, name: string) {
    name in used && used[name] != original
  }

  /** The names of the retry loop up to some round, all in use for others. */
  ghost predicate Failed(used: map<string, string>, base: string, hash: string, original: string, names: seq<string>) {
    && (forall k :: 0 <= k < |names| ==> Refused(used, original, names[k]))
    && (forall k :: 0 <= k < |names| ==> names[k] == Retry(base, hash, k))
  }

  /** The names after the first are pairwise distinct. */
  ghost predicate LaterDiffer(names: seq<string>) {
    forall j, k :: 0 < j < k < |names| ==> names[j] != names[k]
  }

  lemma RetriesLaterDiffer(base: string, hash: string, names: seq<string>)
    requires forall k :: 0 <= k < |names| ==> names[k] == Retry(base, hash, k)
    ensures LaterDiffer(names)
  {
    forall j, k | 0 < j < k < |names|
      ensures names[j] != names[k]
    {
      if names[j] == names[k] { RetriesDiffer(base, hash, j, k); }
    }
  }

  /** All but the first of the names, as a set. */
  lemma {:induction false} LaterNames(names: seq<string>) returns (later: set<string>)
    requires LaterDiffer(names)
    ensures |later| == (if |names| == 0 then 0 else |names| - 1)
    ensures forall n :: n in later ==> exists k :: 0 < k < |names| && n == names[k]
    decreases |names|
  {
    later := {};
    if |names| > 1 {
      var front, last := names[..|names| - 1], names[|names| - 1];
      later := LaterNames(front);
      forall n | n in later
        ensures n != last && exists k :: 0 < k < |names| && n == names[k]
      {
        var k :| 0 < k < |front| && n == front[k];
        assert n == names[k];
      }
      later := later + {last};
    }
  }

  /** At most |used| + 1 rounds of the retry loop can fail. */
  lemma FewFailures(used: map<string, string>, base: string, hash: string, original: string, names: seq<string>)
    requires Failed(used, base, hash, original, names)
    ensures |names| <= |used| + 1
  {
    RetriesLaterDiffer(base, hash, names);
    var later := LaterNames(names);
    AllUsed(used, original, names, later);
    SubsetSize(later, used.Keys);
  }

  lemma AllUsed(used: map<string, string>, original: string, names: seq<string>, later: set<string>)
    requires forall k :: 0 <= k < |names| ==> Refused(used, original, names[k])
    requires forall n :: n in later ==> exists k :: 0 < k < |names| && n == names[k]
    ensures later <= used.Keys
  {
    forall n | n in later
      ensures n in used
    {
      var k :| 0 < k < |names| && n == names[k];
      assert Refused(used, original, names[k]);
    }
  }

  lemma OneMoreFailure(used: map<string, string>, base: string, hash: string, original: string, failed: seq<string>, name: string)
    requires Failed(used, base, hash, original, failed) && name == Retry(base, hash, |failed|)
    requires Refused(used, original, name)
    ensures Failed(used, base, hash, original, failed + [name])
  {
    FailedSnoc(used, original, failed, name);
    var names := failed + [name];
    forall k | 0 <= k < |names|
      ensures names[k] == Retry(base, hash, k)
    {
      if k < |failed| { assert names[k] == failed[k]; }
    }
  }

  lemma FailedSnoc(used: map<string, string>, original: string, failed: seq<string>, name: string)
    requires Refused(used, original, name) && forall k :: 0 <= k < |failed| ==> Refused(used, original, failed[k])
    ensures forall k :: 0 <= k < |failed + [name]| ==> Refused(used, original, (failed + [name])[k])
  {
  }

  /** The retry loop, whose only exit is a usable name. */
  method RetryLoop(base: string, hash: string, original: string, used: map<string, string>)
    returns (name: string, i: nat, ghost failed: seq<string>)
    ensures name == Retry(base, hash, i) && Usable(used, name, original)
    ensures |failed| == i && Failed(used, base, hash, original, failed)
    ensures i <= |used| + 1
  {
    i, failed := 0, [];
    while true
      invariant |failed| == i <= |used| + 1 && Failed(used, base, hash, original, failed)
      decreases |used| + 1 - i
    {
      name := Retry(base, hash, i);
      if name !in used || used[name] == original { return; }
      OneMoreFailure(used, base, hash, original, failed, name);
      FewFailures(used, base, hash, original, failed + [name]);
      failed := failed + [name];
      i := i + 1;
    }
  }

  /** uniqueLLMToolName: takes the first usable attempt, which comes within
      |used| + 2 rounds of the retry loop because numbered names differ. */
  method UniqueName(given: string, original: string, h: string -> string, used: map<string, string>)
    returns (name: string, used': map<string, string>, at: nat)
    ensures used' == used[name := original]
    ensures name == Attempt(Candidate(given, original, h), original, h, at)
    ensures FirstUsable(used, Candidate(given, original, h), original, h, at)
    ensures at <= |used| + 2
  {
    var candidate := Candidate(given, original, h);
    if candidate !in used || used[candidate] == original {
      return candidate, used[candidate := original], 0;
    }
    var i;
    ghost var failed;
    name, i, failed := RetryLoop(Base(candidate), h(original), original, used);
    used', at := used[name := original], i + 1;
    forall k: nat | k < at
      ensures !Usable(used, Attempt(candidate, original, h, k), original)
    {
      if k > 0 { assert failed[k - 1] == Attempt(candidate, original, h, k); }
    }
  }

  // ---------- A whole tool list ----------

  /** Every attempt for a tool with a name is a good name. */
  lemma AttemptIsGood(name: string, h: string -> string, k: nat)
    requires GoodHash(h) && TrimSpace(name) != "" && k < 0x8000_0000_0000_0000
    ensures GoodName(Attempt(Candidate(Sanitize(name, h), name, h), name, h, k))
  {
    SanitizeResult(name, h);
    var candidate := Sanitize(name, h);
    TrimPunctResult(candidate);
    if k > 0 {
      assert IsHash(h(name));
      RetryForm(Base(candidate), h(name), k - 1);
    }
  }

  function Tried(name: string, h: string -> string, k: nat): string {
    Attempt(Candidate(Sanitize(name, h), name, h), name, h, k)
  }

  /** The slot an original has been given: a name of its own, after attempts that
      belong to others. */
  ghost predicate Slot(used: map<string, string>, name: string, h: string -> string, at: nat) {
    && Tried(name, h, at) in used && used[Tried(name, h, at)] == name
    && forall k: nat :: k < at ==> Tried(name, h, k) in used && used[Tried(name, h, k)] != name
  }

  lemma SlotStays(used: map<string, string>, name: string, h: string -> string, at: nat, other: string, n: string)
    requires Slot(used, name, h, at) && Usable(used, n, other)
    ensures Slot(used[n := other], name, h, at)
  {
  }

  lemma SlotIsUnique(used: map<string, string>, name: string, h: string -> string, at: nat, at': nat)
    requires Slot(used, name, h, at) && Slot(used, name, h, at')
    ensures at == at'
  {
  }

  method AllotOne(tool: string, used: map<string, string>, h: string -> string)
    returns (name: string, used': map<string, string>, ghost slot: nat)
    requires GoodHash(h) && |used| < 0x8000_0000_0000_0000 - 3
    ensures Allotted(tool, name, slot, used', h) && |used'| <= |used| + 1
    ensures used' == used || (Usable(used, name, tool) && used' == used[name := tool])
  {
    if TrimSpace(tool) == "" { return "", used, 0; }
    var sanitized := SanitizeName(tool, h);
    var at;
    name, used', at := UniqueName(sanitized, tool, h, used);
    slot := at;
    AttemptIsGood(tool, h, at);
    UsedGrows(used, name, tool);
    SlotTaken(used, tool, h, at);
  }

  lemma SlotTaken(used: map<string, string>, tool: string, h: string -> string, at: nat)
    requires FirstUsable(used, Candidate(Sanitize(tool, h), tool, h), tool, h, at)
    ensures Slot(used[Tried(tool, h, at) := tool], tool, h, at)
  {
    forall k: nat | k < at
      ensures Tried(tool, h, k) in used && used[Tried(tool, h, k)] != tool && Tried(tool, h, k) != Tried(tool, h, at)
    {
      assert !Usable(used, Attempt(Candidate(Sanitize(tool, h), tool, h), tool, h, k), tool);
    }
  }

  lemma AllottedStays(tool: string, name: string, slot: nat, used: map<string, string>, h: string -> string,
                      other: string, n: string)
    requires Allotted(tool, name, slot, used, h) && Usable(used, n, other)
    ensures Allotted(tool, name, slot, used[n := other], h)
  {
    if TrimSpace(tool) != "" { SlotStays(used, tool, h, slot, other, n); }
  }

  lemma SameNameSameTool(used: map<string, string>, h: string -> string, t: string, n: string, a: nat,
                         t': string, n': string, a': nat)
    requires TrimSpace(t) != "" && TrimSpace(t') != ""
    requires Allotted(t, n, a, used, h) && Allotted(t', n', a', used, h)
    ensures n == n' <==> t == t'
  {
    if t == t' { SlotIsUnique(used, t, h, a, a'); }
  }

  /** The naming loop of ConvertMcpToolListToInvokableToolList: blank names are
      skipped, every other tool gets a good name, tools share a name exactly if
      they share their original name. */
  method AllotNames(tools: seq<string>, h: string -> string) returns (names: seq<string>)
    requires GoodHash(h) && |tools| < 0x8000_0000_0000_0000 - 3
    ensures |names| == |tools|
    ensures forall k :: 0 <= k < |tools| ==>
              if TrimSpace(tools[k]) == "" then names[k] == "" else GoodName(names[k])
    ensures forall j, k :: 0 <= j < k < |tools| && TrimSpace(tools[j]) != "" && TrimSpace(tools[k]) != "" ==>
              (names[j] == names[k] <==> tools[j] == tools[k])
  {
    names := [];
    var used: map<string, string> := map[];
    ghost var slots: seq<nat> := [];
    for i := 0 to |tools|
      invariant |names| == |slots| == i && |used| <= i
      invariant AllAllotted(tools, names, slots, used, h)
    {
      ghost var before := used;
      var name;
      ghost var slot;
      name, used, slot := AllotOne(tools[i], used, h);
      AllotNext(tools, names, slots, before, h, name, slot, used);
      names, slots := names + [name], slots + [slot];
    }
    forall j, k | 0 <= j < k < |tools| && TrimSpace(tools[j]) != "" && TrimSpace(tools[k]) != ""
      ensures names[j] == names[k] <==> tools[j] == tools[k]
    {
      SameNameSameTool(used, h, tools[j], names[j], slots[j], tools[k], names[k], slots[k]);
    }
  }

  ghost predicate AllAllotted(tools: seq<string>, names: seq<string>, slots: seq<nat>, used: map<string, string>, h: string -> string) {
    && |names| == |slots| <= |tools|
    && forall k :: 0 <= k < |names| ==> Allotted(tools[k], names[k], slots[k], used, h)
  }

  lemma AllotNext(tools: seq<string>, names: seq<string>, slots: seq<nat>, used: map<string, string>, h: string -> string,
                  name: string, slot: nat, used': map<string, string>)
    requires AllAllotted(tools, names, slots, used, h) && |names| < |tools|
    requires Allotted(tools[|names|], name, slot, used', h)
    requires used' == used || (Usable(used, name, tools[|names|]) && used' == used[name := tools[|names|]])
    ensures AllAllotted(tools, names + [name], slots + [slot], used', h)
  {
    var names', slots' := names + [name], slots + [slot];
    forall k | 0 <= k < |names'|
      ensures Allotted(tools[k], names'[k], slots'[k], used', h)
    {
      if k < |names| { StaysAllotted(tools[k], names[k], slots[k], used, h, tools[|names|], name, used'); }
    }
  }

  lemma StaysAllotted(tool: string, name: string, slot: nat, used: map<string, string>, h: string -> string,
                      other: string, n: string, used': map<string, string>)
    requires Allotted(tool, name, slot, used, h)
    requires used' == used || (Usable(used, n, other) && used' == used[n := other])
    ensures Allotted(tool, name, slot, used', h)
  {
    if used' != used { AllottedStays(tool, name, slot, used, h, other, n); }
  }

  ghost predicate Allotted(tool: string, name: string, slot: nat, used: map<string, string>, h: string -> string) {
    if TrimSpace(tool) == "" then name == ""
    else GoodName(name) && name == Tried(tool, h, slot) && Slot(used, tool, h, slot)
  }

  lemma UsedGrows(used: map<string, string>, name: string, original: string)
    ensures |used[name := original]| <= |used| + 1
  {
    assert used[name := original].Keys == used.Keys + {name};
  }
}

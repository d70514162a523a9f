/**
 What cutting an answer into sentences means, for extractOpenClawSentences of
 internal/domain/openclaw/manager.go: one piece up to and with each separator.
 */
module OpenClawPieces {
  import opened Basics
  import opened OpenClawText
  import opened Runes

  predicate IsDelimiter(c: char) {
    IsSpace(c) || IsSoftSeparator(c)
  }

  /** A text cut behind each separator, and what is left; `open` came before it. */
  function Pieces(open: string, s: string): (seq<string>, string)
    decreases |s|
  {
    if s == "" then ([], open)
    else if IsSentenceSeparator(s[0]) then
      var (ps, rest) := Pieces("", s[1..]);
      ([open + [s[0]]] + ps, rest)
    else Pieces(open + [s[0]], s[1..])
  }

  function AddSegment(ss: seq<string>, segment: string): seq<string> {
    if segment == "" then ss else ss + [segment]
  }

  /** The trimmed pieces, without those of which nothing is left. */
  function Segments(pieces: seq<string>): seq<string> {
    if pieces == [] then [] else AddSegment([], TrimSegment(pieces[0])) + Segments(pieces[1..])
  }

  /** The sentences of a canonical text, and its rest. */
  function Cut(text: string): (seq<string>, string) {
    var (pieces, rest) := Pieces("", text);
    (Segments(pieces), TrimSegment(rest))
  }

  // ---------- Pieces ----------

  function Concat(pieces: seq<string>): string {
    if pieces == [] then "" else pieces[0] + Concat(pieces[1..])
  }

  ghost predicate NoSeparator(s: string) {
    forall k :: 0 <= k < |s| ==> !IsSentenceSeparator(s[k])
  }

  /** A piece ends with its only separator. */
  ghost predicate OnePiece(p: string) {
    p != "" && IsSentenceSeparator(p[|p| - 1]) && NoSeparator(p[..|p| - 1])
  }

  /** The pieces are the text, cut behind every separator and nowhere else. */
  lemma {:induction false} PiecesMean(open: string, s: string)
    requires NoSeparator(open)
    ensures var (pieces, rest) := Pieces(open, s);
            && Concat(pieces) + rest == open + s && NoSeparator(rest)
            && forall k :: 0 <= k < |pieces| ==> OnePiece(pieces[k])
    decreases |s|
  {
    if s == "" {
      assert "" + open == open == open + s;
    } else if IsSentenceSeparator(s[0]) {
      var (ps, rest) := Pieces("", s[1..]);
      PiecesMean("", s[1..]);
      FirstPiece(open, s, ps, rest);
    } else {
      PiecesMean(open + [s[0]], s[1..]);
      HeadOver(open, s);
    }
  }

  lemma HeadOver(open: string, s: string)
    requires s != ""
    ensures (open + [s[0]]) + s[1..] == open + s && "" + s[1..] == s[1..]
  {
  }

  lemma FirstPiece(open: string, s: string, ps: seq<string>, rest: string)
    requires NoSeparator(open) && s != "" && IsSentenceSeparator(s[0]) && Concat(ps) + rest == "" + s[1..]
    ensures Concat([open + [s[0]]] + ps) + rest == open + s && OnePiece(open + [s[0]])
  {
    var p := open + [s[0]];
    assert p[..|p| - 1] == open;
    assert ([p] + ps)[1..] == ps;
    ConcatAssoc(p, Concat(ps), rest);
    HeadOver(open, s);
  }

  // ---------- Delimiters at the head of a piece ----------

  /** White space is blanks only. */
  ghost predicate OnlyBlanks(s: string) {
    forall k :: 0 <= k < |s| ==> IsSpace(s[k]) ==> s[k] == ' '
  }

  ghost predicate Delimiters(s: string) {
    OnlyBlanks(s) && forall k :: 0 <= k < |s| ==> IsDelimiter(s[k])
  }

  lemma {:induction false} TrimRightCons(c: char, s: string)
    ensures TrimRight([c] + s) == if TrimRight(s) != "" then [c] + TrimRight(s) else if IsSpace(c) then "" else [c]
    decreases |s|
  {
    var t := [c] + s;
    if s == "" {
      assert t == [c] && t[..0] == "";
    } else {
      assert t[|t| - 1] == s[|s| - 1];
      if IsSpace(s[|s| - 1]) {
        assert t[..|t| - 1] == [c] + s[..|s| - 1];
        TrimRightCons(c, s[..|s| - 1]);
      }
    }
  }

  /** Blanks at the head go with the cutset, if trimming has not taken them. */
  lemma {:induction false} HeadBlanksGo(s: string)
    requires OnlyBlanks(s)
    ensures TrimCutset(TrimRight(s)) == TrimCutset(TrimSpace(s))
    decreases |s|
  {
    if s != "" && IsSpace(s[0]) {
      var t := s[1..];
      HeadBlanksGo(t);
      TrimRightCons(' ', t);
      assert s == [' '] + t;
      if TrimRight(t) != "" { assert ([' '] + TrimRight(t))[1..] == TrimRight(t); }
    }
  }

  lemma SoftGoes(c: char, s: string)
    requires IsSoftSeparator(c) && OnlyBlanks(s)
    ensures TrimSegment([c] + s) == TrimSegment(s)
  {
    var t := [c] + s;
    assert !IsSpace(c) && InCutset(c) && TrimLeft(t) == t;
    TrimRightCons(c, s);
    HeadBlanksGo(s);
    if TrimRight(s) != "" {
      assert ([c] + TrimRight(s))[1..] == TrimRight(s);
    } else {
      assert [c][1..] == "";
    }
  }

  /** Delimiters before a piece do not change its segment. */
  lemma {:induction false} DelimitersGo(d: string, s: string)
    requires Delimiters(d) && OnlyBlanks(s)
    ensures TrimSegment(d + s) == TrimSegment(s)
    decreases |d|
  {
    if d == "" {
      assert d + s == s;
    } else {
      var t := d[1..] + s;
      assert d + s == [d[0]] + t;
      DelimitersGo(d[1..], s);
      if IsSpace(d[0]) {
        LeadingSpace(d[0], t);
      } else {
        assert OnlyBlanks(t);
        SoftGoes(d[0], t);
      }
    }
  }
}

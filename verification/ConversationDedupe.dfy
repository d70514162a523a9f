/**
 Items of the unified conversation timeline and the de-duplication of one page, from
 manager/backend/controllers/conversation_record_service.go. Times are nanoseconds.
 */
module ConversationDedupe {
  import opened Basics
  import opened Runes

  /** The record types, in the order of their names: "chat" and "parent_message". */
  datatype Kind = Chat | ParentMessage

  datatype Item = Item(
    kind: Kind, id: nat, sortTime: int, role: string, content: string, hasAudio: bool, chatAudioId: nat,
    sourceType: string, title: string, playedAt: Option<int>)

  datatype ParentRef = ParentRef(id: nat, playedAt: int)

  // ---------- What the de-duplication means ----------

  /** A text message of a parent with something in it. */
  predicate IsTextParent(x: Item) {
    x.kind == ParentMessage && x.sourceType == "text" && TrimSpace(x.content) != ""
  }

  predicate IsAssistant(x: Item) {
    x.kind == Chat && x.role == "assistant"
  }

  function RefOf(x: Item): ParentRef {
    ParentRef(x.id, if x.playedAt.Some? then x.playedAt.value else x.sortTime)
  }

  /** The text messages whose trimmed text is `content`, in page order. */
  function Refs(items: seq<Item>, content: string): seq<ParentRef> {
    if items == [] then [] else
      var last := items[|items| - 1];
      Refs(items[..|items| - 1], content)
      + if IsTextParent(last) && TrimSpace(last.content) == content then [RefOf(last)] else []
  }

  /** The chat repeats the text of a parent message on the page. */
  ghost predicate Repeats(items: seq<Item>, x: Item) {
    IsAssistant(x) && exists y :: y in items && IsTextParent(y) && TrimSpace(y.content) == TrimSpace(x.content)
  }

  lemma {:induction false} RefsMeaning(items: seq<Item>, content: string)
    ensures Refs(items, content) != [] <==>
            exists y :: y in items && IsTextParent(y) && TrimSpace(y.content) == content
  {
    if items != [] {
      var front, last := items[..|items| - 1], items[|items| - 1];
      assert items == front + [last];
      RefsMeaning(front, content);
    }
  }

  function Distance(a: int, b: int): nat {
    if a < b then b - a else a - b
  }

  lemma DistanceMeans(a: int, b: int)
    ensures Distance(a, b) == Distance(b, a) && (a <= b ==> a + Distance(a, b) == b)
  {
  }

  /** What makes a text message, a chat that may repeat one, and the time of a message: when it was played, or
      else when it was recorded. */
  lemma KindsMean(x: Item)
    ensures IsTextParent(x) ==> x.kind == ParentMessage && x.sourceType == "text" && exists k :: 0 <= k < |x.content| && !IsSpace(x.content[k])
    ensures x.kind == ParentMessage && x.sourceType == "text" && (exists k :: 0 <= k < |x.content| && !IsSpace(x.content[k])) ==> IsTextParent(x)
    ensures IsAssistant(x) <==> x.kind == Chat && x.role == "assistant"
    ensures RefOf(x).id == x.id
    ensures x.playedAt == None ==> RefOf(x).playedAt == x.sortTime
    ensures forall t :: x.playedAt == Some(t) ==> RefOf(x).playedAt == t
  {
    var a, b := TrimSpaceParts(x.content);
    if TrimSpace(x.content) != "" {
      assert x.content[|a|] == TrimSpace(x.content)[0];
    }
    forall k | 0 <= k < |x.content| && !IsSpace(x.content[k]) ensures TrimSpace(x.content) != "" {
      NotBlank(x.content, k);
    }
  }

  /** Position `i` holds the first of the references closest in time. */
  ghost predicate IsNearest(refs: seq<ParentRef>, time: int, i: int) {
    && 0 <= i < |refs|
    && (forall j :: 0 <= j < |refs| ==> Distance(time, refs[i].playedAt) <= Distance(time, refs[j].playedAt))
    && (forall j :: 0 <= j < i ==> Distance(time, refs[i].playedAt) < Distance(time, refs[j].playedAt))
  }

  /** Finds the closest reference, the first one on a tie. */
  method FindNearest(refs: seq<ParentRef>, time: int) returns (best: int, delta: nat)
    requires refs != []
    ensures IsNearest(refs, time, best)
    ensures delta == Distance(time, refs[best].playedAt)
  {
    best, delta := -1, 0;
    for i := 0 to |refs|
      invariant i == 0 ==> best == -1
      invariant i > 0 ==> IsNearest(refs[..i], time, best) && delta == Distance(time, refs[best].playedAt)
    {
      var d := Distance(time, refs[i].playedAt);
      if best == -1 || d < delta {
        best, delta := i, d;
      }
    }
    assert refs[..|refs|] == refs;
  }

  /** The chat `x` is a recording of the parent message `p`, `delta` away from it. */
  ghost predicate Claims(items: seq<Item>, x: Item, p: nat, delta: nat) {
    var refs := Refs(items, TrimSpace(x.content));
    && IsAssistant(x)
    && x.hasAudio
    && exists i :: IsNearest(refs, x.sortTime, i) && refs[i].id == p && delta == Distance(x.sortTime, refs[i].playedAt)
  }

  lemma ClaimIsUnique(items: seq<Item>, x: Item, p: nat, delta: nat, p': nat, delta': nat)
    requires Claims(items, x, p, delta) && Claims(items, x, p', delta')
    ensures p == p' && delta == delta'
  {
    var refs := Refs(items, TrimSpace(x.content));
    var i :| IsNearest(refs, x.sortTime, i) && refs[i].id == p && delta == Distance(x.sortTime, refs[i].playedAt);
    var j :| IsNearest(refs, x.sortTime, j) && refs[j].id == p' && delta' == Distance(x.sortTime, refs[j].playedAt);
    assert !(i < j) && !(j < i);
  }

  /** Position `k` holds the first of the closest recordings of `p` among `seen`. */
  ghost predicate FirstClaim(items: seq<Item>, seen: seq<Item>, k: int, p: nat, delta: nat) {
    && 0 <= k < |seen|
    && Claims(items, seen[k], p, delta)
    && (forall j, d :: 0 <= j < |seen| && Claims(items, seen[j], p, d) ==> delta <= d)
    && (forall j, d :: 0 <= j < k && Claims(items, seen[j], p, d) ==> delta < d)
  }

  /** The chat `c` is the first of the closest recordings of `p`, `delta` away. */
  ghost predicate IsAudioOf(items: seq<Item>, seen: seq<Item>, p: nat, c: nat, delta: nat) {
    exists k :: FirstClaim(items, seen, k, p, delta) && seen[k].id == c
  }

  ghost predicate NoAudioOf(items: seq<Item>, seen: seq<Item>, p: nat) {
    forall x, d :: x in seen ==> !Claims(items, x, p, d)
  }

  /** `y` is what the page shows for `x`: only a text message may gain its recording. */
  ghost predicate ShowsAs(items: seq<Item>, x: Item, y: Item) {
    if x.kind == ParentMessage && x.sourceType == "text" && !NoAudioOf(items, items, x.id) then
      && y == x.(hasAudio := true, chatAudioId := y.chatAudioId)
      && exists d :: IsAudioOf(items, items, x.id, y.chatAudioId, d)
    else
      y == x
  }

  /** A chat with this number repeats a parent message. */
  ghost predicate HiddenId(items: seq<Item>, id: nat) {
    exists x :: x in items && x.id == id && Repeats(items, x)
  }

  ghost predicate Hidden(items: seq<Item>, x: Item) {
    x.kind == Chat && HiddenId(items, x.id)
  }

  /** `out` is `part` without the hidden chats, each other item shown as it must be, in order. */
  ghost predicate Shows(items: seq<Item>, part: seq<Item>, out: seq<Item>) {
    if part == [] then out == [] else
      var front, last := part[..|part| - 1], part[|part| - 1];
      if Hidden(items, last) then Shows(items, front, out)
      else out != [] && ShowsAs(items, last, out[|out| - 1]) && Shows(items, front, out[..|out| - 1])
  }

  // ---------- The three passes ----------

  type RefMap = map<string, seq<ParentRef>>

  /** The map holds exactly the non-empty reference lists of the items. */
  ghost predicate Indexes(refs: RefMap, items: seq<Item>) {
    && (forall c :: c in refs <==> Refs(items, c) != [])
    && (forall c :: c in refs ==> refs[c] == Refs(items, c))
  }

  method IndexParents(items: seq<Item>) returns (refs: RefMap)
    ensures Indexes(refs, items)
  {
    refs := map[];
    for n := 0 to |items|
      invariant Indexes(refs, items[..n])
    {
      var item := items[n];
      assert items[..n + 1][..n] == items[..n];
      var content := TrimSpace(item.content);
      if item.kind == ParentMessage && item.sourceType == "text" && content != "" {
        var known := if content in refs then refs[content] else [];
        refs := refs[content := known + [RefOf(item)]];
      }
    }
    assert items[..|items|] == items;
  }

  /** The numbers of the chats seen that repeat a message. */
  ghost predicate SkipSet(items: seq<Item>, seen: seq<Item>, skip: set<nat>) {
    forall id :: id in skip <==> exists x :: x in seen && x.id == id && Repeats(items, x)
  }

  /** What is known of the recordings of `p` after the items `seen`. */
  ghost predicate Knows(items: seq<Item>, seen: seq<Item>, p: nat, audio: map<nat, nat>, delta: map<nat, nat>) {
    && (p in audio <==> p in delta)
    && if p in audio && p in delta then IsAudioOf(items, seen, p, audio[p], delta[p]) else NoAudioOf(items, seen, p)
  }

  lemma SkipGrows(items: seq<Item>, seen: seq<Item>, x: Item, skip: set<nat>, skip': set<nat>)
    requires SkipSet(items, seen, skip)
    requires skip' == if Repeats(items, x) then skip + {x.id} else skip
    ensures SkipSet(items, seen + [x], skip')
  {
    forall id ensures id in skip' <==> exists y :: y in seen + [x] && y.id == id && Repeats(items, y) {
      assert x in seen + [x];
      assert forall y :: y in seen + [x] <==> y in seen || y == x;
    }
  }

  /** An item that records nothing for `p`. */
  lemma OtherClaim(items: seq<Item>, seen: seq<Item>, x: Item, p: nat, audio: map<nat, nat>, delta: map<nat, nat>)
    requires Knows(items, seen, p, audio, delta)
    requires forall d :: !Claims(items, x, p, d)
    ensures Knows(items, seen + [x], p, audio, delta)
  {
    var more := seen + [x];
    assert forall j :: 0 <= j < |more| ==> more[j] == if j < |seen| then seen[j] else x;
    if p in audio {
      var k :| FirstClaim(items, seen, k, p, delta[p]) && seen[k].id == audio[p];
      assert FirstClaim(items, more, k, p, delta[p]) && more[k].id == audio[p];
    }
  }

  /** A recording no closer than the one known is not taken. */
  lemma WorseClaim(items: seq<Item>, seen: seq<Item>, x: Item, p: nat, d: nat, audio: map<nat, nat>, delta: map<nat, nat>)
    requires Knows(items, seen, p, audio, delta)
    requires Claims(items, x, p, d) && p in delta && d >= delta[p]
    ensures Knows(items, seen + [x], p, audio, delta)
  {
    var more := seen + [x];
    assert forall j :: 0 <= j < |more| ==> more[j] == if j < |seen| then seen[j] else x;
    OneDistance(items, x, p, d);
    var k :| FirstClaim(items, seen, k, p, delta[p]) && seen[k].id == audio[p];
    assert FirstClaim(items, more, k, p, delta[p]) && more[k].id == audio[p];
  }

  /** A first or strictly closer recording is taken. */
  lemma BetterClaim(items: seq<Item>, seen: seq<Item>, x: Item, p: nat, d: nat, audio: map<nat, nat>, delta: map<nat, nat>)
    requires Knows(items, seen, p, audio, delta)
    requires Claims(items, x, p, d) && (p !in delta || d < delta[p])
    ensures IsAudioOf(items, seen + [x], p, x.id, d)
  {
    var more := seen + [x];
    assert forall j :: 0 <= j < |more| ==> more[j] == if j < |seen| then seen[j] else x;
    OneDistance(items, x, p, d);
    assert FirstClaim(items, more, |seen|, p, d) && more[|seen|].id == x.id;
  }

  lemma OneDistance(items: seq<Item>, x: Item, p: nat, d: nat)
    requires Claims(items, x, p, d)
    ensures forall p', d' :: Claims(items, x, p', d') ==> p' == p && d' == d
  {
    forall p', d' | Claims(items, x, p', d') ensures p' == p && d' == d {
      ClaimIsUnique(items, x, p', d', p, d);
    }
  }

  lemma NoRefsNoClaim(items: seq<Item>, x: Item, p: nat, d: nat)
    requires Claims(items, x, p, d)
    ensures Repeats(items, x)
  {
    RefsMeaning(items, TrimSpace(x.content));
  }

  /** The step of the second pass for a chat with a recording of `q`. */
  lemma ClaimStep(items: seq<Item>, seen: seq<Item>, x: Item, q: nat, d: nat,
      audio: map<nat, nat>, delta: map<nat, nat>, audio': map<nat, nat>, delta': map<nat, nat>, p: nat)
    requires Knows(items, seen, p, audio, delta) && Knows(items, seen, q, audio, delta)
    requires Claims(items, x, q, d)
    requires q in delta && d >= delta[q] ==> audio' == audio && delta' == delta
    requires q !in delta || d < delta[q] ==> audio' == audio[q := x.id] && delta' == delta[q := d]
    ensures Knows(items, seen + [x], p, audio', delta')
  {
    OneDistance(items, x, q, d);
    if p != q {
      OtherClaim(items, seen, x, p, audio, delta);
    } else if q in delta && d >= delta[q] {
      WorseClaim(items, seen, x, q, d, audio, delta);
    } else {
      BetterClaim(items, seen, x, q, d, audio, delta);
    }
  }

  method MatchChats(items: seq<Item>, refs: RefMap) returns (skip: set<nat>, audio: map<nat, nat>)
    requires Indexes(refs, items)
    ensures forall id :: id in skip <==> HiddenId(items, id)
    ensures forall p :: p in audio ==> exists d :: IsAudioOf(items, items, p, audio[p], d)
    ensures forall p :: p !in audio ==> NoAudioOf(items, items, p)
  {
    skip, audio := {}, map[];
    var delta: map<nat, nat> := map[];
    for n := 0 to |items|
      invariant SkipSet(items, items[..n], skip)
      invariant forall p :: Knows(items, items[..n], p, audio, delta)
    {
      var item := items[n];
      ghost var seen := items[..n];
      assert items[..n + 1] == seen + [item];
      var content := TrimSpace(item.content);
      RefsMeaning(items, content);
      SkipGrows(items, seen, item, skip, if Repeats(items, item) then skip + {item.id} else skip);
      if item.kind != Chat || item.role != "assistant" || content !in refs {
        forall p ensures Knows(items, seen + [item], p, audio, delta) {
          forall d ensures !Claims(items, item, p, d) {
            if Claims(items, item, p, d) { NoRefsNoClaim(items, item, p, d); }
          }
          OtherClaim(items, seen, item, p, audio, delta);
        }
        continue;
      }
      var best, bestDelta := FindNearest(refs[content], item.sortTime);
      skip := skip + {item.id};
      if !item.hasAudio {
        forall p ensures Knows(items, seen + [item], p, audio, delta) {
          OtherClaim(items, seen, item, p, audio, delta);
        }
        continue;
      }
      var q := refs[content][best].id;
      ghost var audio0, delta0 := audio, delta;
      if q !in delta || bestDelta < delta[q] {
        audio, delta := audio[q := item.id], delta[q := bestDelta];
      }
      forall p ensures Knows(items, seen + [item], p, audio, delta) {
        ClaimStep(items, seen, item, q, bestDelta, audio0, delta0, audio, delta, p);
      }
    }
    assert items[..|items|] == items;
    forall p | p in audio ensures exists d :: IsAudioOf(items, items, p, audio[p], d) {
      assert Knows(items, items, p, audio, delta);
    }
    forall p | p !in audio ensures NoAudioOf(items, items, p) {
      assert Knows(items, items, p, audio, delta);
    }
  }

  /** Nothing is hidden or changed when the page has no text message. */
  lemma {:induction false} NothingToHide(items: seq<Item>, part: seq<Item>)
    requires forall y :: y in items ==> !IsTextParent(y)
    ensures Shows(items, part, part)
  {
    if part != [] {
      NothingToHide(items, part[..|part| - 1]);
      forall x, p, d | Claims(items, x, p, d) ensures false {
        NoRefsNoClaim(items, x, p, d);
      }
    }
  }

  method Dedupe(items: seq<Item>) returns (out: seq<Item>)
    ensures Shows(items, items, out)
  {
    var refs := IndexParents(items);
    if |refs| == 0 {
      forall y | y in items ensures !IsTextParent(y) {
        RefsMeaning(items, TrimSpace(y.content));
        assert TrimSpace(y.content) !in refs;
      }
      NothingToHide(items, items);
      return items;
    }
    var skip, audio := MatchChats(items, refs);
    out := [];
    for n := 0 to |items|
      invariant Shows(items, items[..n], out)
    {
      var item := items[n];
      if item.kind == Chat && item.id in skip {
        ShowsLess(items, n, out);
        continue;
      }
      var shown := WithAudio(items, item, audio);
      ShowsMore(items, n, out, shown);
      out := out + [shown];
    }
    assert items[..|items|] == items;
  }

  /** A text message gains its recording, if there is one. */
  method WithAudio(ghost items: seq<Item>, item: Item, audio: map<nat, nat>) returns (shown: Item)
    requires forall p :: p in audio ==> exists d :: IsAudioOf(items, items, p, audio[p], d)
    requires forall p :: p !in audio ==> NoAudioOf(items, items, p)
    ensures ShowsAs(items, item, shown)
  {
    shown := item;
    if item.kind == ParentMessage && item.sourceType == "text" && item.id in audio {
      AudioIsSome(items, item.id, audio[item.id]);
      shown := item.(hasAudio := true, chatAudioId := audio[item.id]);
    }
  }

  lemma ShowsLess(items: seq<Item>, n: nat, out: seq<Item>)
    requires n < |items| && Shows(items, items[..n], out) && Hidden(items, items[n])
    ensures Shows(items, items[..n + 1], out)
  {
    assert items[..n + 1][..n] == items[..n];
  }

  lemma ShowsMore(items: seq<Item>, n: nat, out: seq<Item>, shown: Item)
    requires n < |items| && Shows(items, items[..n], out) && !Hidden(items, items[n]) && ShowsAs(items, items[n], shown)
    ensures Shows(items, items[..n + 1], out + [shown])
  {
    assert items[..n + 1][..n] == items[..n];
    assert (out + [shown])[..|out|] == out;
  }

  lemma AudioIsSome(items: seq<Item>, p: nat, c: nat)
    requires exists d :: IsAudioOf(items, items, p, c, d)
    ensures !NoAudioOf(items, items, p)
  {
    var d :| IsAudioOf(items, items, p, c, d);
    var k :| FirstClaim(items, items, k, p, d);
    assert items[k] in items;
  }

  // ---------- What a reader of the page can rely on ----------

  /** Same record: the fields de-duplication never changes. */
  predicate SameRecord(x: Item, y: Item) {
    y == x.(hasAudio := y.hasAudio, chatAudioId := y.chatAudioId)
  }

  /** The record is shown, or a shown parent message has its text. */
  ghost predicate Represented(out: seq<Item>, x: Item) {
    || (exists y :: y in out && SameRecord(x, y))
    || (IsAssistant(x) && exists y :: y in out && IsTextParent(y) && TrimSpace(y.content) == TrimSpace(x.content))
  }

  /** Every item that is not hidden is shown. */
  lemma {:induction false} UnhiddenIsShown(items: seq<Item>, part: seq<Item>, out: seq<Item>, x: Item)
    requires Shows(items, part, out) && x in part && !Hidden(items, x)
    ensures exists y :: y in out && SameRecord(x, y)
  {
    var front, last := part[..|part| - 1], part[|part| - 1];
    assert part == front + [last];
    if x == last {
      assert SameRecord(x, out[|out| - 1]);
    } else if Hidden(items, last) {
      UnhiddenIsShown(items, front, out, x);
    } else {
      UnhiddenIsShown(items, front, out[..|out| - 1], x);
    }
  }

  /** Every item shown is an item of the page that is not hidden. */
  lemma {:induction false} ShownIsUnhidden(items: seq<Item>, part: seq<Item>, out: seq<Item>, y: Item)
    requires Shows(items, part, out) && y in out
    ensures exists x :: x in part && !Hidden(items, x) && SameRecord(x, y)
  {
    if part != [] {
      var front, last := part[..|part| - 1], part[|part| - 1];
      assert part == front + [last];
      if Hidden(items, last) {
        ShownIsUnhidden(items, front, out, y);
      } else if y == out[|out| - 1] {
        assert SameRecord(last, y);
      } else {
        ShownIsUnhidden(items, front, out[..|out| - 1], y);
      }
    }
  }

  /** Record numbers are unique within a table. */
  ghost predicate DistinctIds(items: seq<Item>) {
    forall i, j :: 0 <= i < |items| && 0 <= j < |items| && items[i].kind == items[j].kind && items[i].id == items[j].id ==> i == j
  }

  /** With unique numbers a chat is hidden exactly when it repeats a parent message of the page. */
  lemma HiddenMeansRepeats(items: seq<Item>, x: Item)
    requires DistinctIds(items) && x in items
    ensures Hidden(items, x) <==> Repeats(items, x)
  {
    if Hidden(items, x) {
      var x' :| x' in items && x'.id == x.id && Repeats(items, x');
      assert x == x';
    }
  }

  /** De-duplication loses no text: what it hides is spoken for by a message it shows. */
  lemma NothingIsLost(items: seq<Item>, out: seq<Item>, x: Item)
    requires DistinctIds(items) && Shows(items, items, out) && x in items
    ensures Represented(out, x)
  {
    HiddenMeansRepeats(items, x);
    if Hidden(items, x) {
      var y :| y in items && IsTextParent(y) && TrimSpace(y.content) == TrimSpace(x.content);
      UnhiddenIsShown(items, items, out, y);
      var y' :| y' in out && SameRecord(y, y');
      assert IsTextParent(y') && TrimSpace(y'.content) == TrimSpace(x.content);
    } else {
      UnhiddenIsShown(items, items, out, x);
    }
  }

  /** A page with records shows at least one item. */
  lemma SomethingIsShown(items: seq<Item>, out: seq<Item>)
    requires items != [] && Shows(items, items, out)
    ensures out != []
  {
    var x := items[0];
    if Hidden(items, x) {
      var x' :| x' in items && x'.id == x.id && Repeats(items, x');
      var y :| y in items && IsTextParent(y) && TrimSpace(y.content) == TrimSpace(x'.content);
      UnhiddenIsShown(items, items, out, y);
    } else {
      UnhiddenIsShown(items, items, out, x);
    }
  }
}

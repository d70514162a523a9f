/**
 The walk to older pages that
 manager/frontend/src/views/admin/DeviceConversationRecords.vue makes over
 manager/backend/controllers/conversation_record_service.go, and what is on display at its
 end.
 */
module ConversationWalk {
  import opened Basics
  import opened ConversationDedupe
  import opened ConversationPages
  import opened Runes

  // ---------- One page on display ----------

  ghost predicate AscendingItems(items: seq<Item>) {
    forall i, j :: 0 <= i < j < |items| ==> Less(ItemKey(items[i]), ItemKey(items[j]))
  }

  /** De-duplication keeps the order. */
  lemma {:induction false} ShowsInOrder(items: seq<Item>, part: seq<Item>, out: seq<Item>)
    requires Shows(items, part, out) && AscendingItems(part)
    ensures AscendingItems(out)
  {
    if part != [] {
      var front, last := part[..|part| - 1], part[|part| - 1];
      if Hidden(items, last) {
        ShowsInOrder(items, front, out);
      } else {
        var before := out[..|out| - 1];
        ShowsInOrder(items, front, before);
        assert SameRecord(last, out[|out| - 1]);
        forall i | 0 <= i < |before| ensures Less(ItemKey(before[i]), ItemKey(last)) {
          ShownIsUnhidden(items, front, before, before[i]);
          var x :| x in front && SameRecord(x, before[i]);
        }
      }
    }
  }

  /** Nothing repeated, nothing changed. */
  lemma {:induction false} ShowsAll(items: seq<Item>, part: seq<Item>, out: seq<Item>)
    requires Shows(items, part, out)
    requires forall x :: x in items ==> !Repeats(items, x)
    ensures out == part
  {
    if part != [] {
      forall x, p, d | x in items && Claims(items, x, p, d) ensures false {
        NoRefsNoClaim(items, x, p, d);
      }
      ShowsAll(items, part[..|part| - 1], out[..|out| - 1]);
    }
  }

  /** No chat of the timeline repeats the text of one of its parent messages. */
  ghost predicate NoRepeats(table: seq<Row>, decrypt: Decryption) {
    forall r, s :: r in table && s in table && IsAssistant(ItemOf(r, decrypt)) && IsTextParent(ItemOf(s, decrypt)) ==>
      TrimSpace(ItemOf(s, decrypt).content) != TrimSpace(ItemOf(r, decrypt).content)
  }

  lemma SortedIsDistinct(table: seq<Row>)
    requires DistinctRows(table)
    ensures DistinctRows(Sorted(table))
  {
    var t := Sorted(table);
    SortedResult(table);
    forall i, j | 0 <= i < |t| && 0 <= j < |t| && t[i].kind == t[j].kind && t[i].id == t[j].id ensures i == j {
      InTable(table, i);
      InTable(table, j);
      assert t[i] == t[j];
      assert !(i < j) && !(j < i) by {
        assert !Less(t[i].Key(), t[j].Key()) && !Less(t[j].Key(), t[i].Key());
      }
    }
  }

  /** The items of a stretch of the timeline. */
  lemma SliceItems(t: seq<Row>, lo: nat, k: nat, decrypt: Decryption)
    requires Ascending(t) && DistinctRows(t) && lo <= k <= |t|
    ensures DistinctIds(ItemsOf(t[lo..k], decrypt)) && AscendingItems(ItemsOf(t[lo..k], decrypt))
  {
    var items := ItemsOf(t[lo..k], decrypt);
    forall i, j | 0 <= i < |items| && 0 <= j < |items| && items[i].kind == items[j].kind && items[i].id == items[j].id ensures i == j {
      assert t[lo + i].id == t[lo + j].id;
    }
    forall i, j | 0 <= i < j < |items| ensures Less(ItemKey(items[i]), ItemKey(items[j])) {
      assert Less(t[lo + i].Key(), t[lo + j].Key());
    }
  }

  /** Every item shown comes from a row of the stretch, from the first item's row on. */
  lemma ShownRow(t: seq<Row>, lo: nat, k: nat, decrypt: Decryption, out: seq<Item>, y: Item) returns (i: nat)
    requires lo <= k <= |t|
    requires Shows(ItemsOf(t[lo..k], decrypt), ItemsOf(t[lo..k], decrypt), out) && y in out
    ensures lo <= i < k && SameRecord(ItemOf(t[i], decrypt), y)
  {
    var items := ItemsOf(t[lo..k], decrypt);
    ShownIsUnhidden(items, items, out, y);
    var x :| x in items && SameRecord(x, y);
    i := SliceRow(t, lo, k, decrypt, x);
  }

  lemma SliceRow(t: seq<Row>, lo: nat, k: nat, decrypt: Decryption, x: Item) returns (i: nat)
    requires lo <= k <= |t| && x in ItemsOf(t[lo..k], decrypt)
    ensures lo <= i < k && ItemOf(t[i], decrypt) == x
  {
    var items := ItemsOf(t[lo..k], decrypt);
    var n :| 0 <= n < |items| && items[n] == x;
    i := lo + n;
  }

  lemma SliceShowsAll(table: seq<Row>, lo: nat, k: nat, decrypt: Decryption, out: seq<Item>)
    requires DistinctRows(table) && lo <= k <= |Sorted(table)| && NoRepeats(table, decrypt)
    requires Shows(ItemsOf(Sorted(table)[lo..k], decrypt), ItemsOf(Sorted(table)[lo..k], decrypt), out)
    ensures out == ItemsOf(Sorted(table)[lo..k], decrypt)
  {
    var items := ItemsOf(Sorted(table)[lo..k], decrypt);
    forall x | x in items ensures !Repeats(items, x) {
      var r := RowOfItem(table, lo, k, decrypt, x);
      forall y | y in items && IsTextParent(y) && IsAssistant(x) ensures TrimSpace(y.content) != TrimSpace(x.content) {
        var s := RowOfItem(table, lo, k, decrypt, y);
      }
    }
    ShowsAll(items, items, out);
  }

  lemma RowOfItem(table: seq<Row>, lo: nat, k: nat, decrypt: Decryption, x: Item) returns (r: Row)
    requires DistinctRows(table) && lo <= k <= |Sorted(table)|
    requires x in ItemsOf(Sorted(table)[lo..k], decrypt)
    ensures r in table && ItemOf(r, decrypt) == x
  {
    var items := ItemsOf(Sorted(table)[lo..k], decrypt);
    var i :| 0 <= i < |items| && items[i] == x;
    InTable(table, lo + i);
    r := Sorted(table)[lo + i];
  }

  /** What one page looking back shows: it starts at row `f` and its rows run from `lo` to `k`. */
  ghost predicate Covers(t: seq<Row>, decrypt: Decryption, records: seq<Item>, lo: int, f: int, k: int) {
    && 0 <= lo <= f < k <= |t|
    && records != []
    && ItemKey(records[0]) == t[f].Key()
    && AscendingItems(records)
    && (forall y :: y in records ==> ShownBetween(t, decrypt, f, k, y))
    && (forall i :: lo <= i < k ==> Represented(records, ItemOf(t[i], decrypt)))
  }

  ghost predicate ShownBetween(t: seq<Row>, decrypt: Decryption, f: int, k: int, y: Item) {
    exists i :: 0 <= f <= i < k <= |t| && SameRecord(ItemOf(t[i], decrypt), y)
  }

  lemma PageCovers(t: seq<Row>, lo: nat, k: nat, decrypt: Decryption, out: seq<Item>) returns (f: nat)
    requires Ascending(t) && DistinctRows(t) && lo < k <= |t|
    requires Shows(ItemsOf(t[lo..k], decrypt), ItemsOf(t[lo..k], decrypt), out)
    ensures Covers(t, decrypt, out, lo, f, k)
  {
    var items := ItemsOf(t[lo..k], decrypt);
    SliceItems(t, lo, k, decrypt);
    SomethingIsShown(items, out);
    ShowsInOrder(items, items, out);
    f := ShownRow(t, lo, k, decrypt, out, out[0]);
    forall y | y in out ensures ShownBetween(t, decrypt, f, k, y) {
      var i := ShownRow(t, lo, k, decrypt, out, y);
      FirstIsOldest(out, y);
      IsOlder(t, i, f);
    }
    SliceRepresented(t, lo, k, decrypt, out);
  }

  lemma SliceRepresented(t: seq<Row>, lo: nat, k: nat, decrypt: Decryption, out: seq<Item>)
    requires Ascending(t) && DistinctRows(t) && lo < k <= |t|
    requires Shows(ItemsOf(t[lo..k], decrypt), ItemsOf(t[lo..k], decrypt), out)
    ensures forall i :: lo <= i < k ==> Represented(out, ItemOf(t[i], decrypt))
  {
    var items := ItemsOf(t[lo..k], decrypt);
    SliceItems(t, lo, k, decrypt);
    forall i | lo <= i < k ensures Represented(out, ItemOf(t[i], decrypt)) {
      assert items[i - lo] == ItemOf(t[i], decrypt);
      NothingIsLost(items, out, items[i - lo]);
    }
  }

  lemma FirstIsOldest(items: seq<Item>, y: Item)
    requires AscendingItems(items) && y in items
    ensures !Less(ItemKey(y), ItemKey(items[0]))
  {
  }

  /** An older page joins the records at the cursor it was asked for. */
  lemma JoinPages(t: seq<Row>, decrypt: Decryption, older: seq<Item>, lo: nat, f: nat, records: seq<Item>, lo': nat, k: nat, hi: nat)
    requires Ascending(t)
    requires Covers(t, decrypt, older, lo, f, k) && Covers(t, decrypt, records, lo', k, hi)
    ensures Covers(t, decrypt, older + records, lo, f, hi)
  {
    var all := older + records;
    forall i, j | 0 <= i < j < |all| ensures Less(ItemKey(all[i]), ItemKey(all[j])) {
      if i < |older| <= j {
        BeforeLater(t, decrypt, f, k, older[i]);
        FirstIsOldest(records, records[j - |older|]);
      }
    }
    forall y | y in all ensures ShownBetween(t, decrypt, f, hi, y) {
      if y in older {
        var i :| f <= i < k && SameRecord(ItemOf(t[i], decrypt), y);
      } else {
        var i :| k <= i < hi && SameRecord(ItemOf(t[i], decrypt), y);
      }
    }
    forall i | lo <= i < hi ensures Represented(all, ItemOf(t[i], decrypt)) {
      if i < k { MoreRepresent(older, all, ItemOf(t[i], decrypt)); } else { MoreRepresent(records, all, ItemOf(t[i], decrypt)); }
    }
  }

  lemma BeforeLater(t: seq<Row>, decrypt: Decryption, f: nat, k: nat, y: Item)
    requires Ascending(t) && k < |t| && ShownBetween(t, decrypt, f, k, y)
    ensures Less(ItemKey(y), t[k].Key())
  {
    var i :| f <= i < k && SameRecord(ItemOf(t[i], decrypt), y);
    assert Less(t[i].Key(), t[k].Key());
  }

  lemma MoreRepresent(part: seq<Item>, all: seq<Item>, x: Item)
    requires Represented(part, x) && forall y :: y in part ==> y in all
    ensures Represented(all, x)
  {
  }

  // ---------- What is on display at the end of a walk ----------

  /** The first of the at most `n` rows of the page that ends before row `k`. */
  function PageStart(n: nat, k: nat): nat {
    if k > n then k - n else 0
  }

  /** The page that ends before row `k` hides row `i`. */
  ghost predicate HiddenOn(t: seq<Row>, decrypt: Decryption, n: nat, k: nat, i: nat)
    requires PageStart(n, k) <= i < k <= |t|
  {
    Hidden(ItemsOf(t[PageStart(n, k)..k], decrypt), ItemOf(t[i], decrypt))
  }

  /** The first row from `i` on that the page ending before row `k` does not hide. */
  ghost function FirstShown(t: seq<Row>, decrypt: Decryption, n: nat, k: nat, i: nat): (f: nat)
    requires PageStart(n, k) <= i <= k <= |t|
    ensures i <= f <= k && (f < k ==> !HiddenOn(t, decrypt, n, k, f))
    ensures forall j :: i <= j < f ==> HiddenOn(t, decrypt, n, k, j)
    decreases k - i
  {
    if i == k || !HiddenOn(t, decrypt, n, k, i) then i else FirstShown(t, decrypt, n, k, i + 1)
  }

  /** Where the page ending before row `k` begins to show something: the walk's next cursor. */
  ghost function NextCursor(t: seq<Row>, decrypt: Decryption, n: nat, k: nat): (f: nat)
    requires 0 < n && 0 < k <= |t|
    ensures PageStart(n, k) <= f < k
  {
    PageShows(t, decrypt, n, k);
    FirstShown(t, decrypt, n, k, PageStart(n, k))
  }

  lemma PageShows(t: seq<Row>, decrypt: Decryption, n: nat, k: nat)
    requires 0 < n && 0 < k <= |t|
    ensures FirstShown(t, decrypt, n, k, PageStart(n, k)) < k
  {
    var lo := PageStart(n, k);
    var items := ItemsOf(t[lo..k], decrypt);
    if HiddenOn(t, decrypt, n, k, lo) {
      var x :| x in items && x.id == ItemOf(t[lo], decrypt).id && Repeats(items, x);
      var y :| y in items && IsTextParent(y) && TrimSpace(y.content) == TrimSpace(x.content);
      var i := SliceRow(t, lo, k, decrypt, y);
      assert !HiddenOn(t, decrypt, n, k, i);
    }
  }

  /** The last page that fetches row `i`, among the page ending before row `k` and those that
      the walk goes on to: the number is where that page ends.  A walk ends with the page that
      reaches row 0. */
  ghost function LastPage(t: seq<Row>, decrypt: Decryption, n: nat, k: nat, i: nat): (e: nat)
    requires 0 < n && i < k <= |t|
    ensures PageStart(n, e) <= i < e <= k
  {
    var f := NextCursor(t, decrypt, n, k);
    if PageStart(n, k) == 0 || f <= i then k else LastPage(t, decrypt, n, f, i)
  }

  ghost predicate OnDisplay(records: seq<Item>, x: Item) {
    exists y :: y in records && SameRecord(x, y)
  }

  /** Row `i` is on display if and only if the last page that fetches it does not hide it. */
  ghost predicate ToldOf(t: seq<Row>, decrypt: Decryption, n: nat, records: seq<Item>, i: nat)
    requires 0 < n && i < |t|
  {
    OnDisplay(records, ItemOf(t[i], decrypt)) <==> !HiddenOn(t, decrypt, n, LastPage(t, decrypt, n, |t|, i), i)
  }

  /** Of a walk that stands at row `f` with rows from `lo` on fetched: what is told of row `i`,
      or will be told by the pages to come. */
  ghost predicate Telling(t: seq<Row>, decrypt: Decryption, n: nat, records: seq<Item>, lo: int, f: int, i: nat)
    requires 0 < n && i < |t|
  {
    if lo > 0 && i < f <= |t| then LastPage(t, decrypt, n, |t|, i) == LastPage(t, decrypt, n, f, i)
    else ToldOf(t, decrypt, n, records, i)
  }

  ghost predicate Told(t: seq<Row>, decrypt: Decryption, n: nat, records: seq<Item>, lo: int, f: int) {
    0 < n && forall i :: 0 <= i < |t| ==> Telling(t, decrypt, n, records, lo, f, i)
  }

  /** The page ending before row `k` shows `out`, from row `f` on. */
  ghost predicate OnePage(t: seq<Row>, decrypt: Decryption, n: nat, k: int, out: seq<Item>, lo: int, f: int) {
    && 0 < n && 0 < k <= |t| && lo == PageStart(n, k) && f == NextCursor(t, decrypt, n, k)
    && (forall i :: lo <= i < k ==> (OnDisplay(out, ItemOf(t[i], decrypt)) <==> !HiddenOn(t, decrypt, n, k, i)))
    && (forall y :: y in out ==> ShownBetween(t, decrypt, f, k, y))
  }

  lemma PageDisplays(t: seq<Row>, lo: nat, k: nat, decrypt: Decryption, out: seq<Item>, i: nat)
    requires Ascending(t) && DistinctRows(t) && lo <= i < k <= |t|
    requires Shows(ItemsOf(t[lo..k], decrypt), ItemsOf(t[lo..k], decrypt), out)
    ensures OnDisplay(out, ItemOf(t[i], decrypt)) <==> !Hidden(ItemsOf(t[lo..k], decrypt), ItemOf(t[i], decrypt))
  {
    var items, x := ItemsOf(t[lo..k], decrypt), ItemOf(t[i], decrypt);
    ItemAt(t, lo, k, decrypt, i);
    if !Hidden(items, x) { UnhiddenIsShown(items, items, out, x); }
    if OnDisplay(out, x) { DisplayedUnhidden(t, lo, k, decrypt, out, i); }
  }

  lemma ItemAt(t: seq<Row>, lo: nat, k: nat, decrypt: Decryption, i: nat)
    requires lo <= i < k <= |t|
    ensures ItemOf(t[i], decrypt) in ItemsOf(t[lo..k], decrypt)
  {
    assert ItemsOf(t[lo..k], decrypt)[i - lo] == ItemOf(t[i], decrypt);
  }

  lemma DisplayedUnhidden(t: seq<Row>, lo: nat, k: nat, decrypt: Decryption, out: seq<Item>, i: nat)
    requires DistinctRows(t) && lo <= i < k <= |t|
    requires Shows(ItemsOf(t[lo..k], decrypt), ItemsOf(t[lo..k], decrypt), out)
    requires OnDisplay(out, ItemOf(t[i], decrypt))
    ensures !Hidden(ItemsOf(t[lo..k], decrypt), ItemOf(t[i], decrypt))
  {
    var items := ItemsOf(t[lo..k], decrypt);
    var y :| y in out && SameRecord(ItemOf(t[i], decrypt), y);
    ShownIsUnhidden(items, items, out, y);
    var x :| x in items && !Hidden(items, x) && SameRecord(x, y);
    var j := SliceRow(t, lo, k, decrypt, x);
    SameRow(t, decrypt, i, j, y);
  }

  lemma SameRow(t: seq<Row>, decrypt: Decryption, i: nat, j: nat, y: Item)
    requires DistinctRows(t) && i < |t| && j < |t|
    requires SameRecord(ItemOf(t[i], decrypt), y) && SameRecord(ItemOf(t[j], decrypt), y)
    ensures i == j
  {
  }

  lemma DisplayedInside(t: seq<Row>, decrypt: Decryption, f: nat, k: nat, out: seq<Item>, i: nat)
    requires DistinctRows(t) && f <= k <= |t| && i < |t|
    requires forall y :: y in out ==> ShownBetween(t, decrypt, f, k, y)
    ensures OnDisplay(out, ItemOf(t[i], decrypt)) ==> f <= i < k
  {
    if OnDisplay(out, ItemOf(t[i], decrypt)) {
      var y :| y in out && SameRecord(ItemOf(t[i], decrypt), y);
      var j :| f <= j < k && SameRecord(ItemOf(t[j], decrypt), y);
      SameRow(t, decrypt, i, j, y);
    }
  }

  /** The first item on display comes from the first row that is not hidden. */
  lemma PageTells(t: seq<Row>, n: nat, k: nat, decrypt: Decryption, out: seq<Item>, f: nat)
    requires Ascending(t) && DistinctRows(t) && 0 < n && 0 < k <= |t|
    requires Covers(t, decrypt, out, PageStart(n, k), f, k)
    requires Shows(ItemsOf(t[PageStart(n, k)..k], decrypt), ItemsOf(t[PageStart(n, k)..k], decrypt), out)
    ensures OnePage(t, decrypt, n, k, out, PageStart(n, k), f)
  {
    var lo := PageStart(n, k);
    forall i | lo <= i < k ensures OnDisplay(out, ItemOf(t[i], decrypt)) <==> !HiddenOn(t, decrypt, n, k, i) {
      PageDisplays(t, lo, k, decrypt, out, i);
    }
    FirstOnDisplay(t, decrypt, f, k, out);
    forall j | lo <= j < f ensures HiddenOn(t, decrypt, n, k, j) {
      DisplayedInside(t, decrypt, f, k, out, j);
    }
    CursorIs(t, decrypt, n, k, f);
  }

  lemma CursorIs(t: seq<Row>, decrypt: Decryption, n: nat, k: nat, f: nat)
    requires 0 < n && PageStart(n, k) <= f < k <= |t|
    requires !HiddenOn(t, decrypt, n, k, f) && forall j :: PageStart(n, k) <= j < f ==> HiddenOn(t, decrypt, n, k, j)
    ensures f == NextCursor(t, decrypt, n, k)
  {
    assert !HiddenOn(t, decrypt, n, k, NextCursor(t, decrypt, n, k));
  }

  lemma FirstOnDisplay(t: seq<Row>, decrypt: Decryption, f: nat, k: nat, out: seq<Item>)
    requires Ascending(t) && f < k <= |t| && out != []
    requires ItemKey(out[0]) == t[f].Key() && ShownBetween(t, decrypt, f, k, out[0])
    ensures OnDisplay(out, ItemOf(t[f], decrypt))
  {
    var i :| f <= i < k && SameRecord(ItemOf(t[i], decrypt), out[0]);
    SameKey(t, f, i);
  }

  lemma SameKey(t: seq<Row>, f: nat, i: nat)
    requires Ascending(t) && f <= i < |t|
    ensures t[f].Key() == t[i].Key() ==> f == i
  {
    if f < i { assert Less(t[f].Key(), t[i].Key()); }
  }

  lemma TellFirst(t: seq<Row>, decrypt: Decryption, n: nat, records: seq<Item>, lo: nat, f: nat)
    requires DistinctRows(t) && OnePage(t, decrypt, n, |t|, records, lo, f)
    ensures Told(t, decrypt, n, records, lo, f)
  {
    forall i | 0 <= i < |t| ensures Telling(t, decrypt, n, records, lo, f, i) { }
  }

  /** An older page tells of the rows that the walk will not fetch again. */
  lemma TellNext(t: seq<Row>, decrypt: Decryption, n: nat, records: seq<Item>, lo: nat, f: nat, older: seq<Item>, lo': nat, f': nat)
    requires DistinctRows(t) && Told(t, decrypt, n, records, lo, f) && lo > 0 && f < |t|
    requires OnePage(t, decrypt, n, f, older, lo', f')
    requires forall y :: y in records ==> ShownBetween(t, decrypt, f, |t|, y)
    ensures Told(t, decrypt, n, older + records, lo', f')
  {
    forall i | 0 <= i < |t| ensures Telling(t, decrypt, n, older + records, lo', f', i) {
      assert Telling(t, decrypt, n, records, lo, f, i);
      DisplayJoined(older, records, ItemOf(t[i], decrypt));
      if i < f {
        DisplayedInside(t, decrypt, f, |t|, records, i);
      } else {
        DisplayedInside(t, decrypt, f', f, older, i);
      }
    }
  }

  lemma DisplayJoined(a: seq<Item>, b: seq<Item>, x: Item)
    ensures OnDisplay(a + b, x) <==> OnDisplay(a, x) || OnDisplay(b, x)
  {
    assert forall y :: y in a + b <==> y in a || y in b;
  }

  /** Row `i` repeats a message that the last page to fetch it fetched too. */
  ghost predicate RepeatsAtLast(t: seq<Row>, decrypt: Decryption, n: nat, i: nat)
    requires 0 < n && i < |t|
  {
    var e := LastPage(t, decrypt, n, |t|, i);
    Repeats(ItemsOf(t[PageStart(n, e)..e], decrypt), ItemOf(t[i], decrypt))
  }

  /** A row is on display if and only if on the last page that fetched it there was no message
      it repeats. */
  ghost predicate DisplaysAllButRepeats(t: seq<Row>, decrypt: Decryption, n: nat, records: seq<Item>)
    requires 0 < n
  {
    forall i :: 0 <= i < |t| ==> (OnDisplay(records, ItemOf(t[i], decrypt)) <==> !RepeatsAtLast(t, decrypt, n, i))
  }

  lemma ToldAtTheEnd(t: seq<Row>, decrypt: Decryption, n: nat, records: seq<Item>, f: nat)
    requires Ascending(t) && DistinctRows(t) && Told(t, decrypt, n, records, 0, f)
    ensures DisplaysAllButRepeats(t, decrypt, n, records)
  {
    forall i | 0 <= i < |t| ensures OnDisplay(records, ItemOf(t[i], decrypt)) <==> !RepeatsAtLast(t, decrypt, n, i) {
      assert Telling(t, decrypt, n, records, 0, f, i);
      var e := LastPage(t, decrypt, n, |t|, i);
      RepeatsOnPage(t, PageStart(n, e), e, i, decrypt);
    }
  }

  lemma RepeatsOnPage(t: seq<Row>, lo: nat, k: nat, i: nat, decrypt: Decryption)
    requires Ascending(t) && DistinctRows(t) && lo <= i < k <= |t|
    ensures Hidden(ItemsOf(t[lo..k], decrypt), ItemOf(t[i], decrypt)) <==> Repeats(ItemsOf(t[lo..k], decrypt), ItemOf(t[i], decrypt))
  {
    var items := ItemsOf(t[lo..k], decrypt);
    SliceItems(t, lo, k, decrypt);
    ItemAt(t, lo, k, decrypt, i);
    HiddenMeansRepeats(items, ItemOf(t[i], decrypt));
  }

  // ---------- The walk ----------

  /** The state of a walk: rows from `lo` on were fetched and row `f` is the oldest on display. */
  ghost predicate Walked(table: seq<Row>, decrypt: Decryption, records: seq<Item>, lo: int, f: int) {
    var t := Sorted(table);
    && Covers(t, decrypt, records, lo, f, |t|)
    && (NoRepeats(table, decrypt) ==> f == lo && records == ItemsOf(t[lo..], decrypt))
  }

  /** A walk with pages of at most `n` rows stands at row `f`; what it shows is what it will tell. */
  ghost predicate Walking(table: seq<Row>, n: nat, decrypt: Decryption, records: seq<Item>, lo: int, f: int) {
    Walked(table, decrypt, records, lo, f) && Told(Sorted(table), decrypt, n, records, lo, f)
  }

  /** With no cursor the page is the end of the timeline. */
  lemma NewestPage(table: seq<Row>, q: Query) returns (lo: nat)
    requires DistinctRows(table) && q.before.None? && Descending(q)
    ensures |Sorted(table)| == |table| && lo <= |table| && (table != [] ==> lo < |table|)
    ensures Page(table, q) == Sorted(table)[lo..|table|] && lo == PageStart(NormalizeLimit(q.limit), |table|)
    ensures lo > 0 <==> Page(table, q) != [] && RowBefore(table, Page(table, q)[0].Key())
  {
    var k;
    lo, k := OlderPage(table, q);
    MoreMeansOlder(table, q);
    assert k == |table| || Inside(WindowOf(q), Sorted(table)[k]);
  }

  lemma FirstPage(table: seq<Row>, q: Query, decrypt: Decryption, records: seq<Item>) returns (lo: nat, f: nat)
    requires DistinctRows(table) && q.before.None? && Descending(q)
    requires Shows(ItemsOf(Page(table, q), decrypt), ItemsOf(Page(table, q), decrypt), records)
    ensures if table == [] then records == [] else Walking(table, NormalizeLimit(q.limit), decrypt, records, lo, f)
    ensures lo > 0 <==> Page(table, q) != [] && RowBefore(table, Page(table, q)[0].Key())
  {
    lo := NewestPage(table, q);
    f := 0;
    if table != [] { f := FirstStep(table, NormalizeLimit(q.limit), decrypt, records); }
  }

  lemma ToTheEnd(t: seq<Row>, lo: nat)
    requires lo <= |t|
    ensures t[lo..|t|] == t[lo..]
  {
  }

  lemma FirstStep(table: seq<Row>, n: nat, decrypt: Decryption, records: seq<Item>) returns (f: nat)
    requires DistinctRows(table) && table != [] && |Sorted(table)| == |table| && 0 < n
    requires var page := Sorted(table)[PageStart(n, |table|)..|table|]; Shows(ItemsOf(page, decrypt), ItemsOf(page, decrypt), records)
    ensures Walking(table, n, decrypt, records, PageStart(n, |table|), f)
  {
    var t, lo := Sorted(table), PageStart(n, |table|);
    f := ShownPage(table, n, |table|, decrypt, records);
    ToTheEnd(t, lo);
    SortedIsDistinct(table);
    TellFirst(t, decrypt, n, records, lo, f);
  }

  lemma WalkedPage(table: seq<Row>, lo: nat, k: nat, decrypt: Decryption, out: seq<Item>) returns (f: nat)
    requires DistinctRows(table) && lo < k <= |Sorted(table)|
    requires Shows(ItemsOf(Sorted(table)[lo..k], decrypt), ItemsOf(Sorted(table)[lo..k], decrypt), out)
    ensures Covers(Sorted(table), decrypt, out, lo, f, k)
    ensures NoRepeats(table, decrypt) ==> f == lo && out == ItemsOf(Sorted(table)[lo..k], decrypt)
  {
    var t := Sorted(table);
    SortedResult(table);
    SortedIsDistinct(table);
    f := PageCovers(t, lo, k, decrypt, out);
    if NoRepeats(table, decrypt) {
      SliceShowsAll(table, lo, k, decrypt, out);
      assert ItemKey(out[0]) == t[lo].Key();
      IsOlder(t, lo, f);
    }
  }

  lemma ShownPage(table: seq<Row>, n: nat, k: nat, decrypt: Decryption, out: seq<Item>) returns (f: nat)
    requires DistinctRows(table) && 0 < n && 0 < k <= |Sorted(table)|
    requires var page := Sorted(table)[PageStart(n, k)..k]; Shows(ItemsOf(page, decrypt), ItemsOf(page, decrypt), out)
    ensures Covers(Sorted(table), decrypt, out, PageStart(n, k), f, k)
    ensures NoRepeats(table, decrypt) ==> f == PageStart(n, k) && out == ItemsOf(Sorted(table)[PageStart(n, k)..k], decrypt)
    ensures OnePage(Sorted(table), decrypt, n, k, out, PageStart(n, k), f)
  {
    f := WalkedPage(table, PageStart(n, k), k, decrypt, out);
    SortedIsDistinct(table);
    SortedResult(table);
    PageTells(Sorted(table), n, k, decrypt, out, f);
  }

  /** The page before the oldest item on display joins on without a gap. */
  lemma NextPage(table: seq<Row>, q: Query, decrypt: Decryption, records: seq<Item>, lo: nat, f: nat, older: seq<Item>)
      returns (lo': nat, f': nat)
    requires DistinctRows(table) && Descending(q) && Walking(table, NormalizeLimit(q.limit), decrypt, records, lo, f) && lo > 0
    requires q.before == Some(ItemKey(records[0]))
    requires Shows(ItemsOf(Page(table, q), decrypt), ItemsOf(Page(table, q), decrypt), older)
    ensures f' < f && older != [] && Walking(table, NormalizeLimit(q.limit), decrypt, older + records, lo', f')
    ensures lo' > 0 <==> Page(table, q) != [] && RowBefore(table, Page(table, q)[0].Key())
  {
    var k;
    lo', k := OlderPage(table, q);
    MoreMeansOlder(table, q);
    StandsAt(table, NormalizeLimit(q.limit), decrypt, records, lo, f);
    CursorRank(Sorted(table), f, k);
    f' := NextStep(table, NormalizeLimit(q.limit), decrypt, records, lo, f, older, lo');
  }

  lemma StandsAt(table: seq<Row>, n: nat, decrypt: Decryption, records: seq<Item>, lo: nat, f: nat)
    requires Walking(table, n, decrypt, records, lo, f)
    ensures records != [] && f < |Sorted(table)| && ItemKey(records[0]) == Sorted(table)[f].Key()
  {
  }

  lemma NextStep(table: seq<Row>, n: nat, decrypt: Decryption, records: seq<Item>, lo: nat, f: nat, older: seq<Item>, lo': nat)
      returns (f': nat)
    requires DistinctRows(table) && Ascending(Sorted(table)) && Walking(table, n, decrypt, records, lo, f) && lo > 0
    requires lo' == PageStart(n, f)
    requires var page := Sorted(table)[lo'..f]; Shows(ItemsOf(page, decrypt), ItemsOf(page, decrypt), older)
    ensures f' < f && older != [] && Walking(table, n, decrypt, older + records, lo', f')
  {
    var t := Sorted(table);
    f' := ShownPage(table, n, f, decrypt, older);
    JoinPages(t, decrypt, older, lo', f', records, lo, f, |t|);
    if NoRepeats(table, decrypt) { JoinItems(t, lo', f, decrypt); }
    SortedIsDistinct(table);
    TellNext(t, decrypt, n, records, lo, f, older, lo', f');
  }

  lemma JoinItems(t: seq<Row>, lo: nat, k: nat, decrypt: Decryption)
    requires lo <= k <= |t|
    ensures ItemsOf(t[lo..k], decrypt) + ItemsOf(t[k..], decrypt) == ItemsOf(t[lo..], decrypt)
  {
  }

  /** A walk that reached row 0 leaves nothing out. */
  lemma WalkEnds(table: seq<Row>, n: nat, decrypt: Decryption, records: seq<Item>, lo: nat, f: nat)
    requires DistinctRows(table) && Walking(table, n, decrypt, records, lo, f) && lo == 0
    ensures AscendingItems(records)
    ensures DisplaysAllButRepeats(Sorted(table), decrypt, n, records)
    ensures forall y :: y in records ==> exists r :: r in table && SameRecord(ItemOf(r, decrypt), y)
    ensures forall r :: r in table ==> Represented(records, ItemOf(r, decrypt))
    ensures NoRepeats(table, decrypt) ==> records == ItemsOf(Sorted(table), decrypt)
  {
    var t := Sorted(table);
    forall y | y in records ensures exists r :: r in table && SameRecord(ItemOf(r, decrypt), y) {
      assert ShownBetween(t, decrypt, f, |t|, y);
      var i :| f <= i < |t| && SameRecord(ItemOf(t[i], decrypt), y);
      InTable(table, i);
    }
    forall r | r in table ensures Represented(records, ItemOf(r, decrypt)) {
      var i := IndexOfRow(table, r);
    }
    assert t[0..] == t;
    SortedIsDistinct(table);
    SortedResult(table);
    ToldAtTheEnd(t, decrypt, n, records, f);
  }

  /**
   Scrolling to the top: ask for the newest page, then for the page before the oldest item
   on display, as long as the service says there is more. This ends; no record is shown
   twice or out of order, and every record is shown or has its text on display. Without
   repeated texts what is on display at the end is the whole timeline.
   */
  method WalkOlder(table: seq<Row>, limit: int, decrypt: Decryption) returns (records: seq<Item>)
    requires DistinctRows(table)
    ensures AscendingItems(records)
    ensures forall y :: y in records ==> exists r :: r in table && SameRecord(ItemOf(r, decrypt), y)
    ensures forall r :: r in table ==> Represented(records, ItemOf(r, decrypt))
    ensures NoRepeats(table, decrypt) ==> records == ItemsOf(Sorted(table), decrypt)
    ensures DisplaysAllButRepeats(Sorted(table), decrypt, NormalizeLimit(limit), records)
  {
    var newest := Query(limit, None, None, None);
    var hasOlder, hasNewer;
    records, hasOlder, hasNewer := ListRecords(table, newest, decrypt);
    ghost var lo, f := FirstPage(table, newest, decrypt, records);
    if |records| == 0 {
      return;
    }
    while hasOlder
      invariant Walking(table, NormalizeLimit(limit), decrypt, records, lo, f)
      invariant hasOlder <==> lo > 0
      decreases f
    {
      var first := records[0];
      var q := Query(limit, Some(ItemKey(first)), None, None);
      var older, more, _ := ListRecords(table, q, decrypt);
      ghost var lo', f' := NextPage(table, q, decrypt, records, lo, f, older);
      if |older| == 0 {
        hasOlder := false;
      } else {
        records, hasOlder := older + records, more;
      }
      lo, f := lo', f';
    }
    WalkEnds(table, NormalizeLimit(limit), decrypt, records, lo, f);
  }

  /** The rows before the cursor of row `f` are the first `f` rows. */
  lemma CursorRank(t: seq<Row>, f: nat, k: nat)
    requires Ascending(t) && f < |t| && k <= |t|
    requires forall i :: 0 <= i < |t| ==> (Less(t[i].Key(), t[f].Key()) <==> i < k)
    ensures k == f
  {
    IsOlder(t, f, f);
    if k < |t| { IsOlder(t, k, f); }
  }

  // ---------- A chat and the message it repeats, both on display ----------

  lemma {:induction false} SortedIsItself(rows: seq<Row>)
    requires Ascending(rows)
    ensures Sorted(rows) == rows
  {
    if rows != [] {
      AscendingRest(rows);
      SortedIsItself(rows[1..]);
      assert rows == [rows[0]] + rows[1..];
    }
  }

  /** A row that repeats nothing on the page that ends before row `k` is on display, if no later page
      fetches it again. */
  lemma ShownAtLast(t: seq<Row>, decrypt: Decryption, n: nat, records: seq<Item>, k: nat, i: nat)
    requires 0 < n && i < k <= |t| && DisplaysAllButRepeats(t, decrypt, n, records)
    requires PageStart(n, k) <= i && LastPage(t, decrypt, n, |t|, i) == k
    requires !Repeats(ItemsOf(t[PageStart(n, k)..k], decrypt), ItemOf(t[i], decrypt))
    ensures OnDisplay(records, ItemOf(t[i], decrypt))
  {
  }

  lemma NoChatNoRepeat(items: seq<Item>, x: Item)
    requires x.kind == ParentMessage
    ensures !Hidden(items, x) && !Repeats(items, x)
  {
  }

  /** Across a page boundary: with pages of one row, a chat is on display beside the message it repeats. */
  method RepeatAcrossPages(chat: Row, message: Row, decrypt: Decryption) returns (records: seq<Item>)
    requires chat.kind == Chat && message.kind == ParentMessage && Less(chat.Key(), message.Key())
    requires Repeats(ItemsOf([chat, message], decrypt), ItemOf(chat, decrypt))
    ensures OnDisplay(records, ItemOf(chat, decrypt)) && OnDisplay(records, ItemOf(message, decrypt))
  {
    ghost var t := [chat, message];
    records := WalkOlder([chat, message], 1, decrypt);
    SortedIsItself(t);
    BothShown(chat, message, decrypt, records);
  }

  lemma BothShown(chat: Row, message: Row, decrypt: Decryption, records: seq<Item>)
    requires chat.kind == Chat && message.kind == ParentMessage
    requires DisplaysAllButRepeats([chat, message], decrypt, 1, records)
    ensures OnDisplay(records, ItemOf(chat, decrypt)) && OnDisplay(records, ItemOf(message, decrypt))
  {
    SinglePages(chat, message, decrypt);
    ShownAtLast([chat, message], decrypt, 1, records, 2, 1);
    ShownAtLast([chat, message], decrypt, 1, records, 1, 0);
  }

  lemma SinglePages(chat: Row, message: Row, decrypt: Decryption)
    requires chat.kind == Chat && message.kind == ParentMessage
    ensures var t := [chat, message];
            && t[1..2] == [message] && t[0..1] == [chat]
            && LastPage(t, decrypt, 1, 2, 1) == 2 && LastPage(t, decrypt, 1, 2, 0) == 1
            && !Repeats(ItemsOf([message], decrypt), ItemOf(message, decrypt))
            && !Repeats(ItemsOf([chat], decrypt), ItemOf(chat, decrypt))
  {
    var t := [chat, message];
    assert t[1..2] == [message] && t[0..1] == [chat];
    NoChatNoRepeat(ItemsOf([message], decrypt), ItemOf(message, decrypt));
    CursorIs(t, decrypt, 1, 2, 1);
  }

  /** Within a page: a chat hidden at the head of a page is fetched again with the next one, and is on
      display unless that one has a message it repeats. */
  method RepeatFetchedAgain(question: Row, chat: Row, message: Row, decrypt: Decryption) returns (records: seq<Item>)
    requires chat.kind == Chat && message.kind == ParentMessage && DistinctRows([question, chat, message])
    requires Less(question.Key(), chat.Key()) && Less(chat.Key(), message.Key()) && Less(question.Key(), message.Key())
    requires Repeats(ItemsOf([chat, message], decrypt), ItemOf(chat, decrypt))
    ensures OnDisplay(records, ItemOf(chat, decrypt)) <==> !Repeats(ItemsOf([question, chat], decrypt), ItemOf(chat, decrypt))
    ensures OnDisplay(records, ItemOf(message, decrypt))
  {
    records := WalkOlder([question, chat, message], 2, decrypt);
    SortedIsItself([question, chat, message]);
    FetchedAgain(question, chat, message, decrypt, records);
  }

  lemma FetchedAgain(question: Row, chat: Row, message: Row, decrypt: Decryption, records: seq<Item>)
    requires chat.kind == Chat && message.kind == ParentMessage
    requires Repeats(ItemsOf([chat, message], decrypt), ItemOf(chat, decrypt))
    requires DisplaysAllButRepeats([question, chat, message], decrypt, 2, records)
    ensures OnDisplay(records, ItemOf(chat, decrypt)) <==> !Repeats(ItemsOf([question, chat], decrypt), ItemOf(chat, decrypt))
    ensures OnDisplay(records, ItemOf(message, decrypt))
  {
    var t := [question, chat, message];
    SecondPage(question, chat, message, decrypt);
    assert OnDisplay(records, ItemOf(t[1], decrypt)) <==> !RepeatsAtLast(t, decrypt, 2, 1);
    ShownAtLast(t, decrypt, 2, records, 3, 2);
  }

  lemma SecondPage(question: Row, chat: Row, message: Row, decrypt: Decryption)
    requires chat.kind == Chat && message.kind == ParentMessage
    requires Repeats(ItemsOf([chat, message], decrypt), ItemOf(chat, decrypt))
    ensures var t := [question, chat, message];
            && t[1..3] == [chat, message] && t[0..2] == [question, chat]
            && LastPage(t, decrypt, 2, 3, 2) == 3 && LastPage(t, decrypt, 2, 3, 1) == 2
            && !Repeats(ItemsOf([chat, message], decrypt), ItemOf(message, decrypt))
  {
    var t := [question, chat, message];
    assert t[1..3] == [chat, message] && t[0..2] == [question, chat];
    var items := ItemsOf([chat, message], decrypt);
    assert items[0] in items && HiddenOn(t, decrypt, 2, 3, 1);
    NoChatNoRepeat(items, ItemOf(message, decrypt));
    CursorIs(t, decrypt, 2, 3, 2);
  }

  /** A question, a spoken answer and the message it was spoken from: with pages of two rows the answer and
      the message are fetched together, and both are on display at the end. */
  method AnswerTwice() returns (records: seq<Item>)
    ensures exists x, y :: x in records && y in records && x.kind == Chat && y.kind == ParentMessage && x.content == y.content == "a"
  {
    var question := Row(Chat, 1, 1, "user", "q", false, "", "", None);
    var chat := Row(Chat, 2, 2, "assistant", "a", true, "", "", None);
    var message := Row(ParentMessage, 1, 3, "", "a", false, "text", "", None);
    var decrypt: Decryption := _ => None;
    AnswerRepeats(question, chat, message, decrypt);
    records := RepeatFetchedAgain(question, chat, message, decrypt);
  }

  lemma AnswerRepeats(question: Row, chat: Row, message: Row, decrypt: Decryption)
    requires chat == Row(Chat, 2, 2, "assistant", "a", true, "", "", None)
    requires message == Row(ParentMessage, 1, 3, "", "a", false, "text", "", None)
    requires question.kind == Chat && decrypt("a") == None
    ensures Repeats(ItemsOf([chat, message], decrypt), ItemOf(chat, decrypt))
    ensures !Repeats(ItemsOf([question, chat], decrypt), ItemOf(chat, decrypt))
  {
    TrimSpaceResult("a");
    var items := ItemsOf([chat, message], decrypt);
    assert items[1] in items && IsTextParent(items[1]);
  }
}

/**
 Keyset pagination over the unified conversation timeline, from
 manager/backend/controllers/conversation_record_service.go, and the walk to older
 pages that manager/frontend/src/views/admin/DeviceConversationRecords.vue makes. The
 database is a sequence of rows in any order; a query filters, sorts and takes.
 */
module ConversationPages {
  import opened Basics
  import opened ConversationDedupe
  import opened Runes

  datatype Row = Row(
    kind: Kind, id: nat, sortTime: int, role: string, content: string, hasAudio: bool,
    sourceType: string, title: string, playedAt: Option<int>)
  {
    function Key(): Key { Cursor(sortTime, kind, id) }
  }

  datatype Key = Cursor(time: int, kind: Kind, id: nat)

  /** The order of the timeline: time, then record type, then number. */
  predicate Less(a: Key, b: Key) {
    || a.time < b.time
    || (a.time == b.time && a.kind == Chat && b.kind == ParentMessage)
    || (a.time == b.time && a.kind == b.kind && a.id < b.id)
  }

  /** The order of the timeline is strict and total: earlier times first, at one time chats before messages, and
      then smaller numbers first. */
  lemma TimelineOrder(a: Key, b: Key, c: Key)
    ensures !Less(a, a) && (Less(a, b) && Less(b, c) ==> Less(a, c)) && (a != b <==> Less(a, b) || Less(b, a))
    ensures a.time < b.time ==> Less(a, b)
    ensures a.time == b.time && a.kind == Chat && b.kind == ParentMessage ==> Less(a, b)
    ensures a.time == b.time && a.kind == b.kind ==> (Less(a, b) <==> a.id < b.id)
  {
  }

  /** Each table numbers its rows uniquely. */
  ghost predicate DistinctRows(table: seq<Row>) {
    forall i, j :: 0 <= i < |table| && 0 <= j < |table| && table[i].kind == table[j].kind && table[i].id == table[j].id ==> i == j
  }

  ghost predicate Ascending(rows: seq<Row>) {
    forall i, j :: 0 <= i < j < |rows| ==> Less(rows[i].Key(), rows[j].Key())
  }

  // ---------- The query: filter, sort and take ----------

  datatype Window = Everything | Before(cursor: Key) | After(cursor: Key) | Day(start: int)

  const DAY: int := 24 * 3600 * 1_000_000_000

  predicate Inside(w: Window, r: Row) {
    match w
    case Everything => true
    case Before(c) => Less(r.Key(), c)
    case After(c) => Less(c, r.Key())
    case Day(start) => start <= r.sortTime < start + DAY
  }

  /** The windows are what their names say; a day has 24 hours. */
  lemma WindowsMean(r: Row, c: Key, start: int)
    ensures Inside(Everything, r)
    ensures r.Key() != c ==> (Inside(Before(c), r) <==> !Inside(After(c), r))
    ensures r.Key() == c ==> !Inside(Before(c), r) && !Inside(After(c), r)
    ensures r.sortTime < c.time ==> Inside(Before(c), r)
    ensures Inside(Day(start), r) <==> 0 <= r.sortTime - start < 86_400_000_000_000
  {
    TimelineOrder(r.Key(), c, c);
  }

  function Where(rows: seq<Row>, w: Window): seq<Row> {
    if rows == [] then [] else (if Inside(w, rows[0]) then [rows[0]] else []) + Where(rows[1..], w)
  }

  function Insert(r: Row, rows: seq<Row>): seq<Row> {
    if rows == [] || Less(r.Key(), rows[0].Key()) then [r] + rows else [rows[0]] + Insert(r, rows[1..])
  }

  /** ORDER BY sort_time, record_type, id. */
  function Sorted(rows: seq<Row>): seq<Row> {
    if rows == [] then [] else Insert(rows[0], Sorted(rows[1..]))
  }

  function Backwards<T>(s: seq<T>): seq<T> {
    if s == [] then [] else Backwards(s[1..]) + [s[0]]
  }

  function Select(table: seq<Row>, w: Window, descending: bool, limit: nat): seq<Row> {
    var found := Sorted(Where(table, w));
    var ordered := if descending then Backwards(found) else found;
    Cut(ordered, limit)
  }

  /** The first `n` elements, if there are more. */
  function Cut<T>(s: seq<T>, n: nat): seq<T> {
    if |s| > n then s[..n] else s
  }

  // ---------- The sorted timeline ----------

  lemma AscendingCons(r: Row, rows: seq<Row>)
    requires Ascending(rows) && forall i :: 0 <= i < |rows| ==> Less(r.Key(), rows[i].Key())
    ensures Ascending([r] + rows)
  {
    var all := [r] + rows;
    forall i, j | 0 <= i < j < |all| ensures Less(all[i].Key(), all[j].Key()) {
      assert all[j] == rows[j - 1];
      if i > 0 { assert all[i] == rows[i - 1]; }
    }
  }

  lemma AscendingRest(rows: seq<Row>)
    requires Ascending(rows) && rows != []
    ensures Ascending(rows[1..])
    ensures forall x :: x in rows[1..] ==> Less(rows[0].Key(), x.Key())
  {
  }

  lemma {:induction false} InsertResult(r: Row, rows: seq<Row>)
    requires Ascending(rows)
    requires forall x :: x in rows ==> x.Key() != r.Key()
    ensures Ascending(Insert(r, rows))
    ensures multiset(Insert(r, rows)) == multiset{r} + multiset(rows)
  {
    if rows == [] || Less(r.Key(), rows[0].Key()) {
      AscendingCons(r, rows);
    } else {
      var rest := Insert(r, rows[1..]);
      AscendingRest(rows);
      InsertResult(r, rows[1..]);
      assert rows == [rows[0]] + rows[1..];
      forall i | 0 <= i < |rest| ensures Less(rows[0].Key(), rest[i].Key()) {
        assert rest[i] in multiset(rest);
        assert rest[i] == r || rest[i] in multiset(rows[1..]);
      }
      AscendingCons(rows[0], rest);
    }
  }

  lemma KeyIsNew(rows: seq<Row>, x: Row)
    requires DistinctRows(rows) && rows != [] && x in rows[1..]
    ensures x.Key() != rows[0].Key()
  {
    var j :| 0 <= j < |rows[1..]| && rows[1..][j] == x;
    assert rows[j + 1] == x;
  }

  lemma {:induction false} SortedResult(rows: seq<Row>)
    requires DistinctRows(rows)
    ensures Ascending(Sorted(rows))
    ensures multiset(Sorted(rows)) == multiset(rows)
  {
    if rows != [] {
      var rest := rows[1..];
      SortedResult(rest);
      forall x | x in Sorted(rest) ensures x.Key() != rows[0].Key() {
        assert x in multiset(rest);
        KeyIsNew(rows, x);
      }
      InsertResult(rows[0], Sorted(rest));
      assert rows == [rows[0]] + rest;
    }
  }

  /** A table sorted once serves every window. */
  lemma {:induction false} SortedWhere(rows: seq<Row>, w: Window)
    requires DistinctRows(rows)
    ensures Sorted(Where(rows, w)) == Where(Sorted(rows), w)
  {
    if rows != [] {
      SortedWhere(rows[1..], w);
      SortedResult(rows[1..]);
      WhereInsert(rows[0], Sorted(rows[1..]), w);
      assert [rows[0]] + Where(rows[1..], w) != [];
      assert ([rows[0]] + Where(rows[1..], w))[1..] == Where(rows[1..], w);
      assert [] + Where(rows[1..], w) == Where(rows[1..], w);
    }
  }

  lemma WhereCons(x: Row, rest: seq<Row>, w: Window)
    ensures Where([x] + rest, w) == if Inside(w, x) then [x] + Where(rest, w) else Where(rest, w)
  {
    assert ([x] + rest)[1..] == rest;
    assert [] + Where(rest, w) == Where(rest, w);
  }

  lemma InsertCons(r: Row, x: Row, rest: seq<Row>)
    requires !Less(r.Key(), x.Key())
    ensures Insert(r, [x] + rest) == [x] + Insert(r, rest)
  {
    assert ([x] + rest)[1..] == rest;
  }

  lemma {:induction false} WhereInsert(r: Row, rows: seq<Row>, w: Window)
    requires Ascending(rows)
    ensures Where(Insert(r, rows), w) == if Inside(w, r) then Insert(r, Where(rows, w)) else Where(rows, w)
  {
    if rows == [] || Less(r.Key(), rows[0].Key()) {
      WhereCons(r, rows, w);
      InsertFirst(r, rows, w);
    } else {
      var x, rest := rows[0], rows[1..];
      assert rows == [x] + rest;
      AscendingRest(rows);
      WhereInsert(r, rest, w);
      WhereCons(x, Insert(r, rest), w);
      WhereCons(x, rest, w);
      InsertCons(r, x, Where(rest, w));
    }
  }

  lemma {:induction false} InsertFirst(r: Row, rows: seq<Row>, w: Window)
    requires Ascending(rows) && (rows == [] || Less(r.Key(), rows[0].Key()))
    ensures Insert(r, Where(rows, w)) == [r] + Where(rows, w)
  {
    if rows != [] && !Inside(w, rows[0]) {
      InsertFirst(r, rows[1..], w);
      assert [] + Where(rows[1..], w) == Where(rows[1..], w);
    }
  }

  /** The window holds exactly the rows from `lo` up to `hi`. */
  ghost predicate IsStretch(t: seq<Row>, w: Window, lo: int, hi: int) {
    && 0 <= lo <= hi <= |t|
    && Where(t, w) == t[lo..hi]
    && (forall i :: 0 <= i < |t| ==> (Inside(w, t[i]) <==> lo <= i < hi))
  }

  lemma StretchSkips(x: Row, rest: seq<Row>, w: Window, lo: nat, hi: nat)
    requires IsStretch(rest, w, lo, hi) && !Inside(w, x)
    ensures IsStretch([x] + rest, w, lo + 1, hi + 1)
  {
    var t := [x] + rest;
    WhereCons(x, rest, w);
    assert t[lo + 1..hi + 1] == rest[lo..hi];
    forall i | 0 <= i < |t| ensures Inside(w, t[i]) <==> lo + 1 <= i < hi + 1 {
      if i > 0 { assert t[i] == rest[i - 1]; }
    }
  }

  lemma StretchGrows(x: Row, rest: seq<Row>, w: Window, hi: nat)
    requires IsStretch(rest, w, 0, hi) && Inside(w, x)
    ensures IsStretch([x] + rest, w, 0, hi + 1)
  {
    var t := [x] + rest;
    WhereCons(x, rest, w);
    assert t[0..hi + 1] == [x] + rest[0..hi];
    forall i | 0 <= i < |t| ensures Inside(w, t[i]) <==> 0 <= i < hi + 1 {
      if i > 0 { assert t[i] == rest[i - 1]; }
    }
  }

  /** On a sorted timeline every window is a stretch of consecutive rows. */
  lemma {:induction false} WindowIsSlice(t: seq<Row>, w: Window) returns (lo: nat, hi: nat)
    requires Ascending(t)
    ensures IsStretch(t, w, lo, hi)
  {
    if t == [] {
      return 0, 0;
    }
    var x, rest := t[0], t[1..];
    assert t == [x] + rest;
    AscendingRest(t);
    lo, hi := WindowIsSlice(rest, w);
    if !Inside(w, x) {
      StretchSkips(x, rest, w, lo, hi);
      return lo + 1, hi + 1;
    }
    if lo == hi {
      assert rest[lo..hi] == [] == rest[0..0];
      hi := 0;
    } else {
      InsideIsConvex(x, rest, w, lo, hi);
    }
    StretchGrows(x, rest, w, hi);
    lo, hi := 0, hi + 1;
  }

  /** A window that holds a row and a later one holds the rows between. */
  lemma InsideIsConvex(x: Row, rest: seq<Row>, w: Window, lo: nat, hi: nat)
    requires Ascending(rest) && forall y :: y in rest ==> Less(x.Key(), y.Key())
    requires IsStretch(rest, w, lo, hi) && lo < hi && Inside(w, x)
    ensures lo == 0
  {
    var first, inside := rest[0], rest[lo];
    assert Inside(w, inside) && Less(x.Key(), first.Key());
    assert lo > 0 ==> Less(first.Key(), inside.Key());
    assert Inside(w, first);
  }

  /** Rows before a cursor are a prefix of the timeline. */
  lemma OlderIsPrefix(t: seq<Row>, w: Window) returns (k: nat)
    requires Ascending(t) && (w.Before? || w.Everything?)
    ensures k <= |t| && Where(t, w) == t[..k]
    ensures forall i :: 0 <= i < |t| ==> (Inside(w, t[i]) <==> i < k)
  {
    var lo, hi := WindowIsSlice(t, w);
    if lo == hi {
      assert t[lo..hi] == [] == t[..0];
      return 0;
    }
    assert Inside(w, t[lo]);
    assert lo == 0 by {
      if lo > 0 { assert Less(t[0].Key(), t[lo].Key()); assert Inside(w, t[0]); }
    }
    k := hi;
  }

  // ---------- Listing one page ----------

  const DEFAULT_LIMIT: nat := 20
  const MAX_LIMIT: nat := 100

  function NormalizeLimit(limit: int): (r: nat)
    ensures 1 <= r <= 100
    ensures 1 <= limit <= 100 ==> r == limit
    ensures limit <= 0 ==> r == 20
    ensures limit > 100 ==> r == 100
  {
    if limit <= 0 then DEFAULT_LIMIT else if limit > MAX_LIMIT then MAX_LIMIT else limit
  }

  /** A request: `date` is the start of the day asked for. */
  datatype Query = Query(limit: int, before: Option<Key>, after: Option<Key>, date: Option<int>)

  function WindowOf(q: Query): Window {
    if q.date.Some? then Day(q.date.value)
    else if q.after.Some? then After(q.after.value)
    else if q.before.Some? then Before(q.before.value)
    else Everything
  }

  /** The query looks back in time and is answered newest row first. */
  predicate Descending(q: Query) {
    q.date.None? && q.after.None?
  }

  /** Decryption may fail; the stored text is then left as it is. */
  type Decryption = string -> Option<string>

  function PlainText(content: string, decrypt: Decryption): string {
    if content == "" then "" else
      match decrypt(content)
      case Some(plain) => plain
      case None => content
  }

  function RowToItem(r: Row): Item {
    Item(r.kind, r.id, r.sortTime, if r.kind == Chat then r.role else "", r.content, r.hasAudio, 0, r.sourceType, r.title, r.playedAt)
  }

  function ItemOf(r: Row, decrypt: Decryption): Item {
    RowToItem(r).(content := PlainText(r.content, decrypt))
  }

  /** An item keeps the fields of its row; only a chat has a role, and the text is the decrypted one where there is one
      to decrypt and that succeeds. */
  lemma ItemMeans(r: Row, decrypt: Decryption)
    ensures var x := ItemOf(r, decrypt);
            && x.kind == r.kind && x.id == r.id && x.sortTime == r.sortTime && x.hasAudio == r.hasAudio
            && x.sourceType == r.sourceType && x.title == r.title && x.playedAt == r.playedAt && x.chatAudioId == 0
            && (r.kind == Chat ==> x.role == r.role) && (r.kind == ParentMessage ==> x.role == "")
            && (r.content != "" && decrypt(r.content).Some? ==> x.content == decrypt(r.content).value)
            && (r.content == "" || decrypt(r.content).None? ==> x.content == r.content)
            && ItemKey(x) == r.Key()
  {
  }

  function ItemsOf(rows: seq<Row>, decrypt: Decryption): seq<Item> {
    seq(|rows|, i requires 0 <= i < |rows| => ItemOf(rows[i], decrypt))
  }

  function ItemKey(x: Item): Key {
    Cursor(x.sortTime, x.kind, x.id)
  }

  function Fetched(table: seq<Row>, q: Query): seq<Row> {
    Select(table, WindowOf(q), Descending(q), NormalizeLimit(q.limit) + 1)
  }

  /** The rows a page is made of, oldest first. */
  function Page(table: seq<Row>, q: Query): seq<Row> {
    var limit, found := NormalizeLimit(q.limit), Fetched(table, q);
    if Descending(q) then Backwards(Cut(found, limit)) else Cut(found, limit)
  }

  lemma {:induction false} BackwardsAt<T>(s: seq<T>)
    ensures |Backwards(s)| == |s|
    ensures forall i :: 0 <= i < |s| ==> Backwards(s)[i] == s[|s| - 1 - i]
  {
    if s != [] { BackwardsAt(s[1..]); }
  }

  lemma IsBackwards<T>(s: seq<T>, r: seq<T>)
    requires |r| == |s| && forall k :: 0 <= k < |s| ==> r[k] == s[|s| - 1 - k]
    ensures r == Backwards(s)
  {
    BackwardsAt(s);
  }

  lemma BackwardsSuffix<T>(s: seq<T>, n: nat)
    requires n <= |s|
    ensures |Backwards(s)| == |s| && Backwards(Backwards(s)[..n]) == s[|s| - n..]
  {
    BackwardsAt(s);
    var front, back := Backwards(s)[..n], s[|s| - n..];
    forall k | 0 <= k < n ensures back[k] == front[n - 1 - k] {
      assert front[n - 1 - k] == Backwards(s)[n - 1 - k] == s[|s| - n + k];
    }
    IsBackwards(front, back);
  }

  method ReverseInPlace(a: array<Row>)
    modifies a
    ensures a[..] == Backwards(old(a[..]))
  {
    ghost var was := a[..];
    var n := a.Length;
    var i, j := 0, n - 1;
    while i < j
      invariant 0 <= i <= n && j == n - 1 - i && i <= j + 1
      invariant forall k :: 0 <= k < i ==> a[k] == was[n - 1 - k]
      invariant forall k :: j < k < n ==> a[k] == was[n - 1 - k]
      invariant forall k :: i <= k <= j ==> a[k] == was[k]
    {
      a[i], a[j] := a[j], a[i];
      i, j := i + 1, j - 1;
    }
    forall k | 0 <= k < n ensures a[..][k] == was[n - 1 - k] {
      assert a[..][k] == a[k];
    }
    IsBackwards(was, a[..]);
  }

  method ToItems(rows: seq<Row>, decrypt: Decryption) returns (items: seq<Item>)
    ensures items == ItemsOf(rows, decrypt)
  {
    items := [];
    for i := 0 to |rows|
      invariant |items| == i && forall j :: 0 <= j < i ==> items[j] == RowToItem(rows[j])
    {
      items := items + [RowToItem(rows[i])];
    }
    for i := 0 to |items|
      invariant |items| == |rows|
      invariant forall j :: 0 <= j < |rows| ==> items[j] == if j < i then ItemOf(rows[j], decrypt) else RowToItem(rows[j])
    {
      if items[i].content != "" {
        var plain := decrypt(items[i].content);
        if plain.Some? {
          items := items[i := items[i].(content := plain.value)];
        }
      }
    }
  }

  ghost predicate RowBefore(table: seq<Row>, c: Key) {
    exists r :: r in table && Less(r.Key(), c)
  }

  ghost predicate RowAfter(table: seq<Row>, c: Key) {
    exists r :: r in table && Less(c, r.Key())
  }

  lemma {:induction false} WhereMeaning(rows: seq<Row>, w: Window)
    ensures forall r :: r in Where(rows, w) <==> r in rows && Inside(w, r)
  {
    if rows != [] {
      WhereMeaning(rows[1..], w);
      assert rows == [rows[0]] + rows[1..];
    }
  }

  lemma SomeMatch(rows: seq<Row>, w: Window)
    ensures |Where(rows, w)| > 0 <==> exists r :: r in rows && Inside(w, r)
  {
    WhereMeaning(rows, w);
    if |Where(rows, w)| > 0 { assert Where(rows, w)[0] in Where(rows, w); }
  }

  /** The older rows cut to the limit, for a timeline of which `k` rows match. */
  lemma OlderCut(t: seq<Row>, k: nat, limit: nat) returns (lo: nat)
    requires k <= |t|
    ensures lo == if k > limit then k - limit else 0
    ensures |Cut(Backwards(t[..k]), limit + 1)| > limit <==> lo > 0
    ensures Backwards(Cut(Cut(Backwards(t[..k]), limit + 1), limit)) == t[lo..k]
  {
    lo := if k > limit then k - limit else 0;
    CutOlder(t[..k], limit);
    assert t[..k][lo..] == t[lo..k];
  }

  /** A page looking back is the last `limit` of the rows before the cursor. */
  lemma OlderPage(table: seq<Row>, q: Query) returns (lo: nat, k: nat)
    requires DistinctRows(table) && Descending(q)
    ensures Ascending(Sorted(table)) && multiset(Sorted(table)) == multiset(table)
    ensures lo <= k <= |table| && |Sorted(table)| == |table|
    ensures lo == if k > NormalizeLimit(q.limit) then k - NormalizeLimit(q.limit) else 0
    ensures Page(table, q) == Sorted(table)[lo..k]
    ensures |Fetched(table, q)| > NormalizeLimit(q.limit) <==> lo > 0
    ensures forall i :: 0 <= i < |table| ==> (Inside(WindowOf(q), Sorted(table)[i]) <==> i < k)
  {
    SortedTable(table, WindowOf(q));
    k := OlderIsPrefix(Sorted(table), WindowOf(q));
    lo := OlderFetch(table, q, Sorted(table), k);
  }

  lemma OlderFetch(table: seq<Row>, q: Query, t: seq<Row>, k: nat) returns (lo: nat)
    requires DistinctRows(table) && Descending(q) && t == Sorted(table)
    requires k <= |t| && Where(t, WindowOf(q)) == t[..k]
    ensures lo <= k && lo == if k > NormalizeLimit(q.limit) then k - NormalizeLimit(q.limit) else 0
    ensures Page(table, q) == t[lo..k]
    ensures |Fetched(table, q)| > NormalizeLimit(q.limit) <==> lo > 0
  {
    OlderForm(table, q);
    lo := OlderCut(t, k, NormalizeLimit(q.limit));
  }

  lemma OlderForm(table: seq<Row>, q: Query)
    requires DistinctRows(table) && Descending(q)
    ensures Fetched(table, q) == Cut(Backwards(Where(Sorted(table), WindowOf(q))), NormalizeLimit(q.limit) + 1)
    ensures Page(table, q) == Backwards(Cut(Fetched(table, q), NormalizeLimit(q.limit)))
  {
    SortedWhere(table, WindowOf(q));
  }

  lemma SortedTable(table: seq<Row>, w: Window)
    requires DistinctRows(table)
    ensures Ascending(Sorted(table)) && multiset(Sorted(table)) == multiset(table) && |Sorted(table)| == |table|
    ensures Sorted(Where(table, w)) == Where(Sorted(table), w)
  {
    SortedResult(table);
    assert |multiset(Sorted(table))| == |multiset(table)|;
    SortedWhere(table, w);
  }

  /** Fetching one row too many, cutting it off and reversing leaves the last rows in order. */
  lemma CutOlder(found: seq<Row>, limit: nat)
    ensures |Cut(Backwards(found), limit + 1)| > limit <==> |found| > limit
    ensures Backwards(Cut(Cut(Backwards(found), limit + 1), limit)) == found[if |found| > limit then |found| - limit else 0..]
  {
    var n := if |found| > limit then limit else |found|;
    BackwardsSuffix(found, n);
    assert Cut(Cut(Backwards(found), limit + 1), limit) == Backwards(found)[..n];
  }

  lemma CutNewer(t: seq<Row>, lo: nat, hi: nat, limit: nat)
    requires lo <= hi <= |t|
    ensures |Cut(t[lo..hi], limit + 1)| > limit <==> hi - lo > limit
    ensures Cut(Cut(t[lo..hi], limit + 1), limit) == t[lo..if hi - lo > limit then lo + limit else hi]
  {
    CutTwice(t[lo..hi], limit);
    if hi - lo > limit { assert t[lo..hi][..limit] == t[lo..lo + limit]; }
  }

  lemma CutTwice<T>(s: seq<T>, n: nat)
    ensures |Cut(s, n + 1)| > n <==> |s| > n
    ensures Cut(Cut(s, n + 1), n) == Cut(s, n)
  {
    if |s| > n + 1 { assert s[..n + 1][..n] == s[..n]; }
  }

  /** A page looking forward, or of one day, is the first `limit` rows of its window. */
  lemma NewerPage(table: seq<Row>, q: Query) returns (lo: nat, cut: nat, hi: nat)
    requires DistinctRows(table) && !Descending(q)
    ensures Ascending(Sorted(table)) && multiset(Sorted(table)) == multiset(table)
    ensures lo <= cut <= hi <= |table| && |Sorted(table)| == |table|
    ensures cut == if hi - lo > NormalizeLimit(q.limit) then lo + NormalizeLimit(q.limit) else hi
    ensures Page(table, q) == Sorted(table)[lo..cut]
    ensures |Fetched(table, q)| > NormalizeLimit(q.limit) <==> cut < hi
    ensures forall i :: 0 <= i < |table| ==> (Inside(WindowOf(q), Sorted(table)[i]) <==> lo <= i < hi)
  {
    var limit := NormalizeLimit(q.limit);
    SortedTable(table, WindowOf(q));
    lo, hi := WindowIsSlice(Sorted(table), WindowOf(q));
    cut := if hi - lo > limit then lo + limit else hi;
    CutNewer(Sorted(table), lo, hi, limit);
  }

  lemma InTable(table: seq<Row>, i: nat)
    requires DistinctRows(table) && i < |Sorted(table)|
    ensures Sorted(table)[i] in table
  {
    SortedResult(table);
    assert Sorted(table)[i] in multiset(table);
  }

  lemma IndexOfRow(table: seq<Row>, r: Row) returns (i: nat)
    requires DistinctRows(table) && r in table
    ensures i < |Sorted(table)| && Sorted(table)[i] == r
  {
    SortedResult(table);
    assert r in multiset(Sorted(table));
    i :| i < |Sorted(table)| && Sorted(table)[i] == r;
  }

  lemma IsOlder(t: seq<Row>, i: nat, j: nat)
    requires Ascending(t) && i < |t| && j < |t|
    ensures Less(t[i].Key(), t[j].Key()) <==> i < j
  {
    if j < i { assert Less(t[j].Key(), t[i].Key()); }
  }

  /** Looking back: more rows than the limit means a row older than the page. */
  lemma MoreMeansOlder(table: seq<Row>, q: Query)
    requires DistinctRows(table) && Descending(q)
    ensures |Fetched(table, q)| > NormalizeLimit(q.limit) <==>
            Page(table, q) != [] && RowBefore(table, Page(table, q)[0].Key())
  {
    var lo, k := OlderPage(table, q);
    var t := Sorted(table);
    if lo > 0 {
      InTable(table, 0);
      assert Page(table, q)[0] == t[lo];
      assert Less(t[0].Key(), t[lo].Key());
    } else if Page(table, q) != [] && RowBefore(table, Page(table, q)[0].Key()) {
      var r :| r in table && Less(r.Key(), t[0].Key());
      var i := IndexOfRow(table, r);
      IsOlder(t, i, 0);
    }
  }

  /** Looking forward: more rows than the limit means a newer row in the window. */
  lemma MoreMeansNewer(table: seq<Row>, q: Query)
    requires DistinctRows(table) && !Descending(q)
    ensures |Fetched(table, q)| > NormalizeLimit(q.limit) <==>
            Page(table, q) != [] && NewerInside(table, WindowOf(q), Page(table, q)[|Page(table, q)| - 1].Key())
  {
    var lo, cut, hi := NewerPage(table, q);
    if lo < cut {
      NewerThanLast(table, WindowOf(q), lo, cut, hi);
      LastOfSlice(Sorted(table), lo, cut);
    }
  }

  lemma LastOfSlice(t: seq<Row>, lo: nat, hi: nat)
    requires lo < hi <= |t|
    ensures t[lo..hi] != [] && t[lo..hi][|t[lo..hi]| - 1] == t[hi - 1]
  {
  }

  /** After row `cut` - 1 of a window there is another of its rows if and only if it goes on. */
  lemma NewerThanLast(table: seq<Row>, w: Window, lo: nat, cut: nat, hi: nat)
    requires DistinctRows(table) && lo < cut <= hi <= |table| == |Sorted(table)| && Ascending(Sorted(table))
    requires forall i :: 0 <= i < |table| ==> (Inside(w, Sorted(table)[i]) <==> lo <= i < hi)
    ensures NewerInside(table, w, Sorted(table)[cut - 1].Key()) <==> cut < hi
  {
    var t := Sorted(table);
    if cut < hi {
      InTable(table, cut);
      IsOlder(t, cut - 1, cut);
      assert Inside(w, t[cut]);
    }
    if NewerInside(table, w, t[cut - 1].Key()) {
      var r :| r in table && Inside(w, r) && Less(t[cut - 1].Key(), r.Key());
      var i := IndexOfRow(table, r);
      IsOlder(t, cut - 1, i);
    }
  }

  ghost predicate NewerInside(table: seq<Row>, w: Window, c: Key) {
    exists r :: r in table && Inside(w, r) && Less(c, r.Key())
  }

  method HasRecordsBefore(table: seq<Row>, first: Item) returns (b: bool)
    ensures b <==> RowBefore(table, ItemKey(first))
  {
    SomeMatch(table, Before(ItemKey(first)));
    b := |Where(table, Before(ItemKey(first)))| > 0;
  }

  method HasRecordsAfter(table: seq<Row>, last: Item) returns (b: bool)
    ensures b <==> RowAfter(table, ItemKey(last))
  {
    SomeMatch(table, After(ItemKey(last)));
    b := |Where(table, After(ItemKey(last)))| > 0;
  }

  /** Cuts what the query returned to the limit and puts it oldest first. */
  method CutAndOrder(found: seq<Row>, limit: nat, descending: bool) returns (rows: seq<Row>)
    ensures rows == if descending then Backwards(Cut(found, limit)) else Cut(found, limit)
  {
    var kept := Cut(found, limit);
    if descending {
      var a := new Row[|kept|](i requires 0 <= i < |kept| => kept[i]);
      assert a[..] == kept;
      ReverseInPlace(a);
      rows := a[..];
    } else {
      rows := kept;
    }
  }

  /** One page: the rows of the window de-duplicated, and what lies beyond it on both sides. */
  method ListRecords(table: seq<Row>, q: Query, decrypt: Decryption) returns (items: seq<Item>, hasOlder: bool, hasNewer: bool)
    requires DistinctRows(table)
    ensures Shows(ItemsOf(Page(table, q), decrypt), ItemsOf(Page(table, q), decrypt), items)
    ensures Descending(q) ==>
              (hasOlder <==> Page(table, q) != [] && RowBefore(table, Page(table, q)[0].Key()))
    ensures Descending(q) ==>
              (hasNewer <==> q.before.Some? && items != [] && RowAfter(table, ItemKey(items[|items| - 1])))
    ensures !Descending(q) ==>
              (hasOlder <==> items != [] && RowBefore(table, ItemKey(items[0])))
    ensures !Descending(q) ==>
              (hasNewer <==> Page(table, q) != [] && NewerInside(table, WindowOf(q), Page(table, q)[|Page(table, q)| - 1].Key()))
  {
    var limit := NormalizeLimit(q.limit);
    var found := Fetched(table, q);
    if Descending(q) { MoreMeansOlder(table, q); } else { MoreMeansNewer(table, q); }
    hasOlder, hasNewer := false, false;
    if |found| > limit {
      if Descending(q) { hasOlder := true; } else { hasNewer := true; }
    }
    var rows := CutAndOrder(found, limit, Descending(q));
    items := ToItems(rows, decrypt);
    items := Dedupe(items);
    if |items| > 0 {
      if !Descending(q) {
        hasOlder := HasRecordsBefore(table, items[0]);
      } else if q.before.Some? {
        hasNewer := HasRecordsAfter(table, items[|items| - 1]);
      }
    }
  }
}

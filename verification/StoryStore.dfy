/**
 The story store of internal/domain/story/store.go on its in-memory backend: a record
 per story and two sorted indexes per device, all addressed by composed string keys.
 JSON encoding is taken as the identity, times are nanoseconds since the epoch, and
 index scores are integers.
 */
module StoryStore {
  import opened Basics

  const ZERO_TIME: int := -62135596800_000_000_000
  const SECOND: int := 1_000_000_000
  const DAY: int := 86400 * SECOND

  datatype Record = Record(
    storyId: string, deviceId: string, createdAt: int, lastPlayedAt: int, playCount: int, completeCount: int,
    status: string, position: int, seriesId: string, seriesComplete: bool, suggestCount: int)

  datatype Config = Config(minRetentionDays: int, maxRetentionDays: int)

  // ---------- Retention ----------

  function RetentionDays(r: Record, cfg: Config): int {
    var days := cfg.minRetentionDays + r.playCount * 2 + r.completeCount * 3;
    var atLeast := if days < cfg.minRetentionDays then cfg.minRetentionDays else days;
    if atLeast > cfg.maxRetentionDays then cfg.maxRetentionDays else atLeast
  }

  predicate ShouldEvict(r: Record, now: int, cfg: Config) {
    && !(r.seriesId != "" && !r.seriesComplete)
    && now > r.createdAt + RetentionDays(r, cfg) * DAY
  }

  /** Retention starts at the minimum; each play adds two days and each completion three, up to the maximum. */
  lemma RetentionGrows(r: Record, cfg: Config)
    requires cfg.minRetentionDays <= cfg.maxRetentionDays && r.playCount >= 0 && r.completeCount >= 0
    ensures RetentionDays(r.(playCount := 0, completeCount := 0), cfg) == cfg.minRetentionDays
    ensures cfg.minRetentionDays <= RetentionDays(r, cfg) <= cfg.maxRetentionDays
    ensures RetentionDays(r.(playCount := r.playCount + 1), cfg) == Least(RetentionDays(r, cfg) + 2, cfg.maxRetentionDays)
    ensures RetentionDays(r.(completeCount := r.completeCount + 1), cfg) == Least(RetentionDays(r, cfg) + 3, cfg.maxRetentionDays)
  {
  }

  function Least(a: int, b: int): int {
    if a <= b then a else b
  }

  /** A story of an unfinished series never goes; another one goes when more time than its retention has passed
      since it was made, and then it stays due. */
  lemma EvictionMeans(r: Record, now: int, later: int, cfg: Config)
    requires now <= later
    ensures r.seriesId != "" && !r.seriesComplete ==> !ShouldEvict(r, now, cfg)
    ensures r.seriesId == "" || r.seriesComplete ==> (ShouldEvict(r, now, cfg) <==> now - r.createdAt > RetentionDays(r, cfg) * 86_400_000_000_000)
    ensures ShouldEvict(r, now, cfg) ==> ShouldEvict(r, later, cfg)
  {
  }

  // ---------- Keys and scores ----------

  /** Unix(): whole seconds, rounded down. */
  function Unix(t: int): int {
    t / SECOND
  }

  function TimeScore(r: Record): int {
    Unix(r.lastPlayedAt)
  }

  function ReplayScore(r: Record): int {
    r.playCount * 1_000_000_000 + Unix(r.lastPlayedAt)
  }

  lemma WholeSeconds(t: int)
    ensures Unix(t) * 1_000_000_000 <= t < (Unix(t) + 1) * 1_000_000_000
  {
  }

  /** The index by time ranks by the second last played; the one by replays ranks more plays higher, and then the
      later second, among stories played within 10^9 seconds of each other. */
  lemma RanksMean(a: Record, b: Record)
    requires -1_000_000_000 < Unix(a.lastPlayedAt) - Unix(b.lastPlayedAt) < 1_000_000_000
    ensures TimeScore(a) < TimeScore(b) <==> Unix(a.lastPlayedAt) < Unix(b.lastPlayedAt)
    ensures ReplayScore(a) < ReplayScore(b) <==>
              a.playCount < b.playCount || (a.playCount == b.playCount && Unix(a.lastPlayedAt) < Unix(b.lastPlayedAt))
  {
  }

  function KeyFor(prefix: string, device: string, name: string): string {
    prefix + ":story:" + device + ":" + name
  }

  const BY_TIME := "by_time"
  const BY_REPLAY := "by_replay"

  predicate GoodId(id: string) {
    id != "" && ':' !in id && id != BY_TIME && id != BY_REPLAY
  }

  lemma ColonInside(a: string, x: string, b: string, y: string)
    requires a + ":" + x == b + ":" + y && |a| < |b|
    ensures ':' in x
  {
    var s := b + ":" + y;
    assert (a + ":" + x)[|b|] == s[|b|] == ':';
    assert (a + ":" + x)[|b|] == x[|b| - |a| - 1];
  }

  lemma LastColon(a: string, x: string, b: string, y: string)
    requires a + ":" + x == b + ":" + y && ':' !in x && ':' !in y
    ensures a == b && x == y
  {
    if |a| < |b| {
      ColonInside(a, x, b, y);
    } else if |b| < |a| {
      ColonInside(b, y, a, x);
    } else {
      var s := a + ":" + x;
      assert a == s[..|a|] == b;
      assert x == s[|a| + 1..] == y;
    }
  }

  /** Names without a colon make distinct keys, whatever the device ids hold. */
  lemma KeysDistinct(prefix: string, d: string, x: string, e: string, y: string)
    requires ':' !in x && ':' !in y && KeyFor(prefix, d, x) == KeyFor(prefix, e, y)
    ensures d == e && x == y
  {
    var p := prefix + ":story:";
    assert KeyFor(prefix, d, x) == (p + d) + ":" + x;
    assert KeyFor(prefix, e, y) == (p + e) + ":" + y;
    LastColon(p + d, x, p + e, y);
    assert d == (p + d)[|p|..] == (p + e)[|p|..] == e;
  }

  lemma IndexNames()
    ensures ':' !in BY_TIME && ':' !in BY_REPLAY && BY_TIME != BY_REPLAY
  {
  }

  // ---------- Changes to a record ----------

  /** What Save fills in. */
  function Stamped(r: Record, now: int, freshId: string): Record {
    r.(storyId := if r.storyId == "" then freshId else r.storyId,
       createdAt := if r.createdAt == ZERO_TIME then now else r.createdAt,
       lastPlayedAt := if r.lastPlayedAt == ZERO_TIME then now else r.lastPlayedAt)
  }

  function Progressed(r: Record, position: int, status: string, completed: bool, now: int): Record {
    var moved := r.(position := position, status := status, lastPlayedAt := now);
    if completed then moved.(completeCount := r.completeCount + 1, status := "completed") else moved
  }

  function PlayStarted(r: Record, now: int): Record {
    r.(playCount := r.playCount + 1, lastPlayedAt := now, status := "playing")
  }

  function Suggested(r: Record): Record {
    r.(suggestCount := r.suggestCount + 1)
  }

  /** Saving fills in what is missing and nothing else, and only once. */
  lemma StampedMeans(r: Record, now: int, freshId: string, later: int, otherId: string)
    requires freshId != "" && now != ZERO_TIME
    ensures var s := Stamped(r, now, freshId);
            && (r.storyId != "" ==> s.storyId == r.storyId) && (r.storyId == "" ==> s.storyId == freshId)
            && (r.createdAt != ZERO_TIME ==> s.createdAt == r.createdAt) && (r.createdAt == ZERO_TIME ==> s.createdAt == now)
            && (r.lastPlayedAt != ZERO_TIME ==> s.lastPlayedAt == r.lastPlayedAt) && (r.lastPlayedAt == ZERO_TIME ==> s.lastPlayedAt == now)
            && s == r.(storyId := s.storyId, createdAt := s.createdAt, lastPlayedAt := s.lastPlayedAt)
            && Stamped(s, later, otherId) == s
  {
  }

  /** What happens to a story between two saves. */
  datatype Event = Moved(position: int, status: string, completed: bool, now: int) | Started(now: int) | Offered

  function Happens(r: Record, e: Event): Record {
    match e
    case Moved(position, status, completed, now) => Progressed(r, position, status, completed, now)
    case Started(now) => PlayStarted(r, now)
    case Offered => Suggested(r)
  }

  function AllHappen(r: Record, events: seq<Event>): Record {
    if events == [] then r else Happens(AllHappen(r, events[..|events| - 1]), events[|events| - 1])
  }

  predicate IsStart(e: Event) { e.Started? }

  predicate IsCompletion(e: Event) { e.Moved? && e.completed }

  predicate IsOffer(e: Event) { e.Offered? }

  function Count(events: seq<Event>, wanted: Event -> bool): nat {
    if events == [] then 0 else Count(events[..|events| - 1], wanted) + if wanted(events[|events| - 1]) then 1 else 0
  }

  /** The counters count: plays started, plays completed, suggestions shown.  Status, position and time are those of
      the last event that sets them; nothing else changes. */
  lemma {:induction false} CountersCount(r: Record, events: seq<Event>)
    ensures var s := AllHappen(r, events);
            && s.playCount == r.playCount + Count(events, IsStart)
            && s.completeCount == r.completeCount + Count(events, IsCompletion)
            && s.suggestCount == r.suggestCount + Count(events, IsOffer)
            && s.storyId == r.storyId && s.deviceId == r.deviceId && s.createdAt == r.createdAt
            && s.seriesId == r.seriesId && s.seriesComplete == r.seriesComplete
            && s.lastPlayedAt == LastTime(r.lastPlayedAt, events) && s.status == LastStatus(r.status, events)
            && s.position == LastPosition(r.position, events)
  {
    if events != [] { CountersCount(r, events[..|events| - 1]); }
  }

  function LastTime(t: int, events: seq<Event>): int {
    if events == [] then t else
      var e := events[|events| - 1];
      if e.Offered? then LastTime(t, events[..|events| - 1]) else e.now
  }

  function LastPosition(p: int, events: seq<Event>): int {
    if events == [] then p else
      var e := events[|events| - 1];
      if e.Moved? then e.position else LastPosition(p, events[..|events| - 1])
  }

  /** A completed story is "completed" whatever status it was saved with; a started one is "playing". */
  function LastStatus(status: string, events: seq<Event>): string {
    if events == [] then status else
      var e := events[|events| - 1];
      if e.Started? then "playing"
      else if e.Moved? then if e.completed then "completed" else e.status
      else LastStatus(status, events[..|events| - 1])
  }

  datatype Command =
    | SaveStory(record: Record, now: int, freshId: string)
    | Progress(device: string, id: string, position: int, status: string, completed: bool, now: int)
    | PlayStart(device: string, id: string, now: int)
    | SuggestShown(device: string, id: string, now: int)

  predicate GoodCommand(c: Command) {
    match c
    case SaveStory(r, now, freshId) => GoodId(Stamped(r, now, freshId).storyId)
    case Progress(_, id, _, _, _, _) => GoodId(id)
    case PlayStart(_, id, _) => GoodId(id)
    case SuggestShown(_, id, _) => GoodId(id)
  }

  // ---------- The store ----------

  type Scores = map<string, int>

  class Store {
    const prefix: string
    const cfg: Config
    var kv: map<string, Record>
    var zsets: map<string, Scores>

    function RecordKey(device: string, id: string): string {
      KeyFor(prefix, device, id)
    }

    function ByTime(device: string): string {
      KeyFor(prefix, device, BY_TIME)
    }

    function ByReplay(device: string): string {
      KeyFor(prefix, device, BY_REPLAY)
    }

    function Members(key: string): Scores
      reads this
    {
      if key in zsets then zsets[key] else map[]
    }

    ghost predicate Stored(device: string, id: string)
      reads this
    {
      GoodId(id) && RecordKey(device, id) in kv
    }

    ghost function Rec(device: string, id: string): Record
      requires Stored(device, id)
      reads this
    {
      kv[RecordKey(device, id)]
    }

    /** One story of one device: it is in all three places or in none, under its
        own ids and with the scores of its record. */
    ghost predicate Agrees(device: string, id: string)
      reads this
    {
      && (Stored(device, id) <==> id in Members(ByTime(device)))
      && (Stored(device, id) <==> id in Members(ByReplay(device)))
      && (Stored(device, id) ==>
            && Rec(device, id).deviceId == device && Rec(device, id).storyId == id
            && Members(ByTime(device))[id] == TimeScore(Rec(device, id))
            && Members(ByReplay(device))[id] == ReplayScore(Rec(device, id)))
    }

    ghost predicate Valid()
      reads this
    {
      forall device, id :: Agrees(device, id)
    }

    constructor (prefix: string, cfg: Config)
      ensures Valid() && kv == map[] && this.prefix == prefix && this.cfg == cfg
    {
      this.prefix, this.cfg := prefix, cfg;
      kv, zsets := map[], map[];
    }

    method ZAdd(key: string, member: string, score: int)
      modifies this`zsets
      ensures zsets == old(zsets)[key := old(Members(key))[member := score]]
    {
      if key !in zsets { zsets := zsets[key := map[]]; }
      zsets := zsets[key := zsets[key][member := score]];
    }

    method ZRem(key: string, member: string)
      modifies this`zsets
      ensures forall k :: Members(k) == if k == key then old(Members(k)) - {member} else old(Members(k))
    {
      if key in zsets { zsets := zsets[key := zsets[key] - {member}]; }
    }

    method Del(key: string)
      modifies this`kv, this`zsets
      ensures kv == old(kv) - {key} && zsets == old(zsets) - {key}
    {
      kv, zsets := kv - {key}, zsets - {key};
    }

    /** The three writes of Save. */
    method Put(r: Record)
      requires Valid() && GoodId(r.storyId)
      modifies this`kv, this`zsets
      ensures Valid() && Stored(r.deviceId, r.storyId) && Rec(r.deviceId, r.storyId) == r
      ensures Members(ByTime(r.deviceId)) == old(Members(ByTime(r.deviceId)))[r.storyId := TimeScore(r)]
      ensures forall d, i :: (d, i) != (r.deviceId, r.storyId) ==>
                (Stored(d, i) <==> old(Stored(d, i))) && (Stored(d, i) ==> Rec(d, i) == old(Rec(d, i)))
    {
      var device, id := r.deviceId, r.storyId;
      kv := kv[RecordKey(device, id) := r];
      ZAdd(ByTime(device), id, TimeScore(r));
      ZAdd(ByReplay(device), id, ReplayScore(r));
      IndexNames();
      forall d, i
        ensures (d, i) != (device, id) ==>
                  (Stored(d, i) <==> old(Stored(d, i))) && (Stored(d, i) ==> Rec(d, i) == old(Rec(d, i)))
        ensures Agrees(d, i)
      {
        assert old(Agrees(d, i));
        OtherKeys(d, i, device, id);
      }
    }

    lemma OtherKeys(d: string, i: string, device: string, id: string)
      requires GoodId(id)
      ensures GoodId(i) && RecordKey(d, i) == RecordKey(device, id) ==> d == device && i == id
      ensures ByTime(d) == ByTime(device) ==> d == device
      ensures ByReplay(d) == ByReplay(device) ==> d == device
      ensures ByTime(d) != ByReplay(device) && ByReplay(d) != ByTime(device)
      ensures ByTime(d) != RecordKey(device, id) && ByReplay(d) != RecordKey(device, id)
    {
      IndexNames();
      if GoodId(i) && RecordKey(d, i) == RecordKey(device, id) { KeysDistinct(prefix, d, i, device, id); }
      if ByTime(d) == ByTime(device) { KeysDistinct(prefix, d, BY_TIME, device, BY_TIME); }
      if ByReplay(d) == ByReplay(device) { KeysDistinct(prefix, d, BY_REPLAY, device, BY_REPLAY); }
      if ByTime(d) == ByReplay(device) { KeysDistinct(prefix, d, BY_TIME, device, BY_REPLAY); }
      if ByReplay(d) == ByTime(device) { KeysDistinct(prefix, d, BY_REPLAY, device, BY_TIME); }
      if ByTime(d) == RecordKey(device, id) { KeysDistinct(prefix, d, BY_TIME, device, id); }
      if ByReplay(d) == RecordKey(device, id) { KeysDistinct(prefix, d, BY_REPLAY, device, id); }
    }

    /** The three deletes of evictExpired. */
    method Evict(device: string, id: string)
      requires Valid() && GoodId(id)
      modifies this`kv, this`zsets
      ensures Valid() && !Stored(device, id)
      ensures forall d, i :: (d, i) != (device, id) ==>
                (Stored(d, i) <==> old(Stored(d, i))) && (Stored(d, i) ==> Rec(d, i) == old(Rec(d, i)))
    {
      Del(RecordKey(device, id));
      ZRem(ByTime(device), id);
      ZRem(ByReplay(device), id);
      forall d, i
        ensures (d, i) != (device, id) ==>
                  (Stored(d, i) <==> old(Stored(d, i))) && (Stored(d, i) ==> Rec(d, i) == old(Rec(d, i)))
        ensures Agrees(d, i)
      {
        assert old(Agrees(d, i));
        OtherKeys(d, i, device, id);
      }
    }

    /** From one content of the store to another: a story is as it was, or it
        belonged to the device, had expired and is gone. */
    ghost predicate KeptOrExpired(a: map<string, Record>, b: map<string, Record>, device: string, now: int,
                                  d: string, i: string)
    {
      var key := RecordKey(d, i);
      GoodId(i) ==>
        && (key in b ==> key in a && b[key] == a[key])
        && (key in a && key !in b ==> d == device && ShouldEvict(a[key], now, cfg))
    }

    ghost predicate OnlyExpiredGone(a: map<string, Record>, b: map<string, Record>, device: string, now: int) {
      forall d, i :: KeptOrExpired(a, b, device, now, d, i)
    }

    lemma EvictionsCompose(a: map<string, Record>, b: map<string, Record>, c: map<string, Record>,
                           device: string, now: int)
      requires OnlyExpiredGone(a, b, device, now) && OnlyExpiredGone(b, c, device, now)
      ensures OnlyExpiredGone(a, c, device, now)
    {
      forall d, i
        ensures KeptOrExpired(a, c, device, now, d, i)
      {
        assert KeptOrExpired(a, b, device, now, d, i) && KeptOrExpired(b, c, device, now, d, i);
      }
    }

    /** Of the stories of the device, exactly the expired ones among `ids` are gone. */
    ghost predicate ExpiredGone(a: map<string, Record>, b: map<string, Record>, device: string, ids: seq<string>, now: int) {
      forall i :: GoodId(i) && RecordKey(device, i) in a ==>
        (RecordKey(device, i) in b <==> !(i in ids && ShouldEvict(a[RecordKey(device, i)], now, cfg)))
    }

    lemma GoneOne(a: map<string, Record>, b: map<string, Record>, c: map<string, Record>, device: string, ids: seq<string>,
                  id: string, now: int)
      requires GoodId(id) && ExpiredGone(a, b, device, ids, now) && OnlyExpiredGone(a, b, device, now)
      requires forall i :: GoodId(i) && i != id ==> (RecordKey(device, i) in c <==> RecordKey(device, i) in b)
      requires RecordKey(device, id) in c <==>
               RecordKey(device, id) in b && !ShouldEvict(b[RecordKey(device, id)], now, cfg)
      ensures ExpiredGone(a, c, device, ids + [id], now)
    {
      forall i | GoodId(i) && RecordKey(device, i) in a
        ensures RecordKey(device, i) in c <==> !(i in ids + [id] && ShouldEvict(a[RecordKey(device, i)], now, cfg))
      {
        assert KeptOrExpired(a, b, device, now, device, i);
      }
    }

    /** evictExpired: of the 201 most recently played stories exactly the expired ones go, so
        that a device with no more stories has no expired one left. */
    method EvictExpired(device: string, now: int) returns (ghost range: seq<string>)
      requires Valid()
      modifies this`kv, this`zsets
      ensures Valid() && OnlyExpiredGone(old(kv), kv, device, now)
      ensures TopRange(old(Members(ByTime(device))), 201, range) && ExpiredGone(old(kv), kv, device, range, now)
      ensures |old(Members(ByTime(device)))| <= 201 ==>
                forall i :: Stored(device, i) ==> !ShouldEvict(Rec(device, i), now, cfg)
    {
      var ids := ZRevRange(Members(ByTime(device)), 201);
      range := ids;
      forall k | 0 <= k < |ids|
        ensures GoodId(ids[k])
      {
        assert Agrees(device, ids[k]);
      }
      for k := 0 to |ids|
        invariant Valid() && OnlyExpiredGone(old(kv), kv, device, now)
        invariant ExpiredGone(old(kv), kv, device, ids[..k], now)
      {
        ghost var before := kv;
        EvictIfDue(device, ids[k], now);
        assert ids[..k + 1] == ids[..k] + [ids[k]];
        GoneOne(old(kv), before, kv, device, ids[..k], ids[k], now);
        EvictionsCompose(old(kv), before, kv, device, now);
      }
      assert ids[..|ids|] == ids;
      if |old(Members(ByTime(device)))| <= 201 {
        AllInRange(old(Members(ByTime(device))), 201, ids);
        forall i | GoodId(i) && RecordKey(device, i) in old(kv)
          ensures i in old(Members(ByTime(device)))
        {
          assert old(Agrees(device, i)) && old(Stored(device, i));
        }
        NoneDue(old(kv), kv, device, ids, now, old(Members(ByTime(device))));
      }
    }

    lemma NoneDue(a: map<string, Record>, b: map<string, Record>, device: string, ids: seq<string>, now: int, z: Scores)
      requires OnlyExpiredGone(a, b, device, now) && ExpiredGone(a, b, device, ids, now)
      requires forall i :: GoodId(i) && RecordKey(device, i) in a ==> i in z
      requires forall i :: i in z ==> i in ids
      ensures forall i :: GoodId(i) && RecordKey(device, i) in b ==> !ShouldEvict(b[RecordKey(device, i)], now, cfg)
    {
      forall i | GoodId(i) && RecordKey(device, i) in b
        ensures !ShouldEvict(b[RecordKey(device, i)], now, cfg)
      {
        assert KeptOrExpired(a, b, device, now, device, i);
      }
    }

    /** One story of the range: it goes if it is there and has expired. */
    method EvictIfDue(device: string, id: string, now: int)
      requires Valid() && GoodId(id)
      modifies this`kv, this`zsets
      ensures Valid() && OnlyExpiredGone(old(kv), kv, device, now)
      ensures forall i :: GoodId(i) && i != id ==> (RecordKey(device, i) in kv <==> RecordKey(device, i) in old(kv))
      ensures RecordKey(device, id) in kv <==>
              RecordKey(device, id) in old(kv) && !ShouldEvict(old(kv)[RecordKey(device, id)], now, cfg)
    {
      var key := RecordKey(device, id);
      if key in kv && ShouldEvict(kv[key], now, cfg) {
        EvictOne(device, id, now);
        forall i | GoodId(i) && i != id
          ensures RecordKey(device, i) in kv <==> RecordKey(device, i) in old(kv)
        {
          assert Stored(device, i) <==> old(Stored(device, i));
        }
      }
    }

    method EvictOne(device: string, id: string, now: int)
      requires Valid() && Stored(device, id) && ShouldEvict(Rec(device, id), now, cfg)
      modifies this`kv, this`zsets
      ensures Valid() && OnlyExpiredGone(old(kv), kv, device, now) && !Stored(device, id)
      ensures forall i :: i != id ==> (Stored(device, i) <==> old(Stored(device, i)))
    {
      Evict(device, id);
      forall d, i
        ensures KeptOrExpired(old(kv), kv, device, now, d, i)
      {
        assert (d, i) != (device, id) ==> (Stored(d, i) <==> old(Stored(d, i)));
      }
    }

    /** Save: the stamped record is stored and indexed, and then of the device's 201 most
        recently played stories exactly the expired ones go, itself included. */
    method Save(record: Record, now: int, freshId: string) returns (saved: Record, ghost range: seq<string>)
      requires Valid() && GoodId(Stamped(record, now, freshId).storyId)
      modifies this`kv, this`zsets
      ensures Valid() && saved == Stamped(record, now, freshId)
      ensures Stored(saved.deviceId, saved.storyId) ==> Rec(saved.deviceId, saved.storyId) == saved
      ensures TopRange(old(Members(ByTime(saved.deviceId)))[saved.storyId := TimeScore(saved)], 201, range)
      ensures Stored(saved.deviceId, saved.storyId) <==> !(saved.storyId in range && ShouldEvict(saved, now, cfg))
      ensures forall i :: i != saved.storyId && old(Stored(saved.deviceId, i)) ==>
                (Stored(saved.deviceId, i) <==> !(i in range && ShouldEvict(old(Rec(saved.deviceId, i)), now, cfg)))
      ensures OthersKept(old(kv), kv, saved.deviceId, saved.storyId, now)
    {
      saved := Stamped(record, now, freshId);
      Put(saved);
      ghost var stored := kv;
      assert OthersKept(old(kv), stored, saved.deviceId, saved.storyId, now) by {
        forall d, i | (d, i) != (saved.deviceId, saved.storyId)
          ensures KeptOrExpired(old(kv), stored, saved.deviceId, now, d, i)
        {
          assert Stored(d, i) <==> old(Stored(d, i));
        }
      }
      range := EvictExpired(saved.deviceId, now);
      OthersCompose(old(kv), stored, kv, saved.deviceId, saved.storyId, now);
      assert KeptOrExpired(stored, kv, saved.deviceId, now, saved.deviceId, saved.storyId);
      forall i | i != saved.storyId && old(Stored(saved.deviceId, i))
        ensures Stored(saved.deviceId, i) <==> !(i in range && ShouldEvict(old(Rec(saved.deviceId, i)), now, cfg))
      {
        assert KeptOrExpired(old(kv), stored, saved.deviceId, now, saved.deviceId, i);
      }
    }

    /** Every story but one is as it was, or expired and is gone. */
    ghost predicate OthersKept(a: map<string, Record>, b: map<string, Record>, device: string, id: string, now: int) {
      forall d, i :: (d, i) != (device, id) ==> KeptOrExpired(a, b, device, now, d, i)
    }

    lemma OthersCompose(a: map<string, Record>, b: map<string, Record>, c: map<string, Record>,
                        device: string, id: string, now: int)
      requires OthersKept(a, b, device, id, now) && OnlyExpiredGone(b, c, device, now)
      ensures OthersKept(a, c, device, id, now)
    {
      forall d, i | (d, i) != (device, id)
        ensures KeptOrExpired(a, c, device, now, d, i)
      {
        assert KeptOrExpired(a, b, device, now, d, i) && KeptOrExpired(b, c, device, now, d, i);
      }
    }

    method Get(device: string, id: string) returns (r: Option<Record>)
      requires GoodId(id)
      ensures r.Some? <==> Stored(device, id)
      ensures r.Some? ==> r.value == Rec(device, id)
    {
      var key := RecordKey(device, id);
      r := if key in kv then Some(kv[key]) else None;
    }

    /** The record was saved: it is stored as `r`, unless it was due for eviction.  `few` says
        that the device has at most 201 stories; then it is not stored when it is due. */
    ghost predicate SavedAs(device: string, id: string, r: Record, now: int, few: bool)
      reads this
    {
      && (Stored(device, id) ==> Rec(device, id) == r)
      && (!ShouldEvict(r, now, cfg) ==> Stored(device, id))
      && (few && ShouldEvict(r, now, cfg) ==> !Stored(device, id))
    }

    /** UpdateProgress, RecordPlayStart and MarkSuggestShown: read, change, save. */
    method Change(device: string, id: string, now: int, change: Record -> Record) returns (found: bool)
      requires Valid() && GoodId(id)
      requires forall r :: change(r).storyId == r.storyId && change(r).deviceId == r.deviceId
      modifies this`kv, this`zsets
      ensures Valid() && (found <==> old(Stored(device, id)))
      ensures !found ==> kv == old(kv) && zsets == old(zsets)
      ensures found ==> SavedAs(device, id, Stamped(change(old(Rec(device, id))), now, ""), now, |old(Members(ByTime(device)))| <= 201)
      ensures OthersKept(old(kv), kv, device, id, now)
    {
      var r := Get(device, id);
      assert Agrees(device, id);
      if r.None? { return false; }
      var saved, range := Save(change(r.value), now, "");
      found := true;
      ghost var z := old(Members(ByTime(device)));
      if |z| <= 201 { AllInRange(z[id := TimeScore(saved)], 201, range); }
    }

    method UpdateProgress(device: string, id: string, position: int, status: string, completed: bool, now: int)
      returns (found: bool)
      requires Valid() && GoodId(id)
      modifies this`kv, this`zsets
      ensures Valid() && (found <==> old(Stored(device, id))) && OthersKept(old(kv), kv, device, id, now)
      ensures found ==> SavedAs(device, id, Stamped(Progressed(old(Rec(device, id)), position, status, completed, now), now, ""), now, |old(Members(ByTime(device)))| <= 201)
    {
      found := Change(device, id, now, r => Progressed(r, position, status, completed, now));
    }

    method RecordPlayStart(device: string, id: string, now: int) returns (found: bool)
      requires Valid() && GoodId(id)
      modifies this`kv, this`zsets
      ensures Valid() && (found <==> old(Stored(device, id))) && OthersKept(old(kv), kv, device, id, now)
      ensures found ==> SavedAs(device, id, Stamped(PlayStarted(old(Rec(device, id)), now), now, ""), now, |old(Members(ByTime(device)))| <= 201)
    {
      found := Change(device, id, now, r => PlayStarted(r, now));
    }

    method MarkSuggestShown(device: string, id: string, now: int) returns (found: bool)
      requires Valid() && GoodId(id)
      modifies this`kv, this`zsets
      ensures Valid() && (found <==> old(Stored(device, id))) && OthersKept(old(kv), kv, device, id, now)
      ensures found ==> SavedAs(device, id, Stamped(Suggested(old(Rec(device, id))), now, ""), now, |old(Members(ByTime(device)))| <= 201)
    {
      found := Change(device, id, now, r => Suggested(r));
    }

    /** Any sequence of store operations keeps records and indexes in agreement. */
    method Run(commands: seq<Command>)
      requires Valid() && forall k :: 0 <= k < |commands| ==> GoodCommand(commands[k])
      modifies this`kv, this`zsets
      ensures Valid()
    {
      for k := 0 to |commands|
        invariant Valid()
      {
        match commands[k] {
          case SaveStory(r, now, freshId) => var _, _ := Save(r, now, freshId);
          case Progress(device, id, position, status, completed, now) =>
            var _ := UpdateProgress(device, id, position, status, completed, now);
          case PlayStart(device, id, now) => var _ := RecordPlayStart(device, id, now);
          case SuggestShown(device, id, now) => var _ := MarkSuggestShown(device, id, now);
        }
      }
    }

    /** GetLast: a story with the latest last-played second, if there is one. */
    method GetLast(device: string) returns (r: Option<Record>)
      requires Valid()
      ensures r.None? <==> forall id :: !Stored(device, id)
      ensures r.Some? ==> r.value.deviceId == device && Stored(device, r.value.storyId)
                          && r.value == Rec(device, r.value.storyId)
                          && forall id :: Stored(device, id) ==>
                               Unix(Rec(device, id).lastPlayedAt) <= Unix(r.value.lastPlayedAt)
    {
      var z := Members(ByTime(device));
      var ids := ZRevRange(z, 1);
      if |ids| == 0 {
        assert |z| == 0;
        forall id
          ensures !Stored(device, id)
        {
          assert Agrees(device, id) && id !in z;
        }
        return None;
      }
      assert Agrees(device, ids[0]);
      r := Get(device, ids[0]);
      forall id | Stored(device, id)
        ensures TimeScore(Rec(device, id)) <= TimeScore(r.value)
      {
        assert Agrees(device, id);
        assert id in z && (id in ids ==> id == ids[0]);
      }
    }
  }

  // ---------- Sorted ranges ----------

  /** The first n members by falling score; ties come in any order. */
  ghost predicate TopRange(z: Scores, n: nat, ids: seq<string>) {
    && |ids| == (if |z| < n then |z| else n)
    && (forall k :: 0 <= k < |ids| ==> ids[k] in z)
    && (forall j, k :: 0 <= j < k < |ids| ==> ids[j] != ids[k] && z[ids[j]] >= z[ids[k]])
    && (forall id, k :: id in z && id !in ids && 0 <= k < |ids| ==> z[id] <= z[ids[k]])
  }

  lemma SameSize(z: Scores, ids: seq<string>)
    requires |ids| == |z| && (forall k :: 0 <= k < |ids| ==> ids[k] in z)
    requires forall j, k :: 0 <= j < k < |ids| ==> ids[j] != ids[k]
    ensures forall id :: id in z ==> id in ids
  {
    var all := set id | id in ids;
    ElemCount(ids);
    assert z.Keys == all + (z.Keys - all);
    assert |z.Keys| == |all| + |z.Keys - all|;
  }

  lemma {:induction false} ElemCount(ids: seq<string>)
    requires forall j, k :: 0 <= j < k < |ids| ==> ids[j] != ids[k]
    ensures |set id | id in ids| == |ids|
  {
    if ids != [] {
      var front, last := ids[..|ids| - 1], ids[|ids| - 1];
      ElemCount(front);
      assert last !in front;
      assert (set id | id in ids) == (set id | id in front) + {last};
    }
  }

  /** A range at least as large as the set holds all of it. */
  lemma AllInRange(z: Scores, n: nat, ids: seq<string>)
    requires TopRange(z, n, ids) && |z| <= n
    ensures forall id :: id in z ==> id in ids
  {
    SameSize(z, ids);
  }

  method Highest(z: Scores) returns (best: string)
    requires z != map[]
    ensures best in z && forall id :: id in z ==> z[id] <= z[best]
  {
    var left := z.Keys;
    assert exists id :: id in z;
    best :| best in left;
    left := left - {best};
    while left != {}
      invariant best in z && left <= z.Keys
      invariant forall id :: id in z && id !in left ==> z[id] <= z[best]
      decreases left
    {
      var id :| id in left;
      if z[id] > z[best] { best := id; }
      left := left - {id};
    }
  }

  /** ZRevRange from 0: sort by score, highest first, and take n. */
  method ZRevRange(z: Scores, n: nat) returns (ids: seq<string>)
    ensures TopRange(z, n, ids)
  {
    ids := [];
    var left := z;
    while |ids| < n && left != map[]
      invariant |ids| <= n && |ids| + |left| == |z|
      invariant forall id :: id in z <==> id in left || id in ids
      invariant forall id :: id in left ==> id in z && z[id] == left[id] && id !in ids
      invariant TopRange(z, |ids|, ids)
      decreases |left|
    {
      var best := Highest(left);
      ids := ids + [best];
      assert left.Keys == (left - {best}).Keys + {best};
      left := left - {best};
    }
    assert left == map[] ==> |left| == 0;
  }
}

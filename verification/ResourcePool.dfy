/**
 The resource pool of internal/util/resource_pool.go as a state machine.  Everything
 done under the lock is one step, except that a cleanup holds the lock over several
 steps while Acquire can still receive from the channel of idle entries.  A resource
 is named by the number of its creation.
 */
module ResourcePool {
  import opened Basics

  datatype Config = Config(
    maxSize: nat, minSize: nat, maxIdle: int, idleTimeout: int, validateOnBorrow: bool, validateOnReturn: bool)

  datatype Entry = Entry(inUse: bool, lastUsed: int)

  /** What the cleanup routine holds while it has the lock. */
  datatype Cleaner = Resting | Scanning(now: int, removed: seq<nat>) | Destroying(removed: seq<nat>)

  /** `idle` is the channel `available`, `taken` the entries that Acquire has
      received and not yet marked or destroyed, `closes` the log of Close calls,
      `held` what each successful Acquire handed out and its caller still has. */
  datatype State = State(
    cfg: Config, tracked: map<nat, Entry>, idle: seq<nat>, taken: seq<nat>, cleaner: Cleaner,
    closes: seq<nat>, nextId: nat, held: map<nat, nat>, nextCall: nat, shut: bool)

  datatype Step =
    | Take
    | Reject(k: nat)
    | Grant(k: nat, now: int)
    | Create(now: int)
    | Release(call: nat, r: nat, valid: bool, now: int)
    | CleanStart(now: int)
    | CleanPop
    | CleanDone
    | CleanDestroy
    | Shutdown(rest: seq<nat>)

  function Removed(c: Cleaner): seq<nat> {
    if c.Resting? then [] else c.removed
  }

  /** The entries that are neither in use nor destroyed, wherever they are. */
  ghost function Free(s: State): multiset<nat> {
    multiset(s.idle) + multiset(s.taken) + multiset(Removed(s.cleaner))
  }

  predicate NoDup(xs: seq<nat>) {
    forall i, j :: 0 <= i < j < |xs| ==> xs[i] != xs[j]
  }

  function Elems(xs: seq<nat>): set<nat> {
    set x | x in xs
  }

  predicate Locked(s: State) {
    !s.cleaner.Resting?
  }

  function Drop(xs: seq<nat>, k: nat): seq<nat>
    requires k < |xs|
  {
    xs[..k] + xs[k + 1..]
  }

  /** destroyResourceUnsafe */
  function Destroy(s: State, r: nat): State {
    s.(tracked := s.tracked - {r}, closes := s.closes + [r])
  }

  predicate Expired(s: State, r: nat, now: int) {
    r in s.tracked && now - s.tracked[r].lastUsed > s.cfg.idleTimeout
  }

  predicate Enabled(s: State, step: Step) {
    !s.shut &&
    match step
    case Take => s.idle != []
    case Reject(k) => k < |s.taken| && !Locked(s)
    case Grant(k, _) => k < |s.taken| && !Locked(s) && s.taken[k] in s.tracked
    case Create(_) => !Locked(s) && |s.tracked| < s.cfg.maxSize
    case Release(_, _, _, _) => !Locked(s)
    case CleanStart(_) => !Locked(s)
    case CleanPop => s.cleaner.Scanning? && s.idle != [] && Expired(s, s.idle[0], s.cleaner.now)
    case CleanDone =>
      s.cleaner.Scanning? && (s.idle == [] || !Expired(s, s.idle[0], s.cleaner.now))
    case CleanDestroy => s.cleaner.Destroying?
    case Shutdown(rest) =>
      s.taken == [] && !Locked(s) && Elems(rest) == s.tracked.Keys - Elems(s.idle) && NoDup(rest)
  }

  /** Whether Release accepts the resource. */
  predicate Releasable(s: State, r: nat) {
    r in s.tracked && s.tracked[r].inUse
  }

  /** Whether Release puts the resource back rather than destroy it. */
  predicate PutsBack(s: State, valid: bool) {
    (s.cfg.validateOnReturn ==> valid) && |s.idle| < s.cfg.maxIdle && |s.idle| < s.cfg.maxSize
  }

  function LetGo(s: State, call: nat, r: nat): State {
    if call in s.held && s.held[call] == r then s.(held := s.held - {call}) else s
  }

  function Apply(s: State, step: Step): State
    requires Enabled(s, step)
  {
    match step
    case Take => s.(idle := s.idle[1..], taken := s.taken + [s.idle[0]])
    case Reject(k) => Destroy(s.(taken := Drop(s.taken, k)), s.taken[k])
    case Grant(k, now) =>
      var r := s.taken[k];
      s.(taken := Drop(s.taken, k), tracked := s.tracked[r := Entry(true, now)],
         held := s.held[s.nextCall := r], nextCall := s.nextCall + 1)
    case Create(now) =>
      s.(tracked := s.tracked[s.nextId := Entry(true, now)], nextId := s.nextId + 1,
         held := s.held[s.nextCall := s.nextId], nextCall := s.nextCall + 1)
    case Release(call, r, valid, now) =>
      if !Releasable(s, r) then s
      else if PutsBack(s, valid) then
        LetGo(s.(tracked := s.tracked[r := Entry(false, now)], idle := s.idle + [r]), call, r)
      else LetGo(Destroy(s, r), call, r)
    case CleanStart(now) => s.(cleaner := Scanning(now, []))
    case CleanPop => s.(idle := s.idle[1..], cleaner := s.cleaner.(removed := s.cleaner.removed + [s.idle[0]]))
    case CleanDone =>
      var idle := if s.idle == [] then [] else s.idle[1..] + [s.idle[0]];
      s.(idle := idle, cleaner := Destroying(s.cleaner.removed))
    case CleanDestroy =>
      if s.cleaner.removed == [] then s.(cleaner := Resting)
      else
        var r := s.cleaner.removed[0];
        Destroy(s.(cleaner := Destroying(s.cleaner.removed[1..])), r)
    case Shutdown(rest) =>
      s.(tracked := map[], idle := [], closes := s.closes + s.idle + rest, shut := true)
  }

  /** preCreateResources: MinSize idle entries. */
  function NewPool(cfg: Config, now: int): State {
    PreCreated(cfg, now, cfg.minSize)
  }

  function PreCreated(cfg: Config, now: int, n: nat): State {
    if n == 0 then State(cfg, map[], [], [], Resting, [], 0, map[], 0, false)
    else PreCreateOne(PreCreated(cfg, now, n - 1), now)
  }

  /** What NewResourcePool checks. */
  predicate GoodConfig(cfg: Config) {
    0 < cfg.maxSize && cfg.minSize <= cfg.maxSize
  }

  // ---------- The pool's own bookkeeping ----------

  ghost predicate IsFree(s: State, r: nat) {
    r in s.tracked && !s.tracked[r].inUse
  }

  /** Every entry that is not in use is in exactly one place: the channel, an
      Acquire call, or the cleanup. */
  ghost predicate Placed(s: State) {
    forall r: nat :: Free(s)[r] == if IsFree(s, r) then 1 else 0
  }

  /** A resource is closed at most once, and never while it is tracked. */
  ghost predicate ClosedOnce(s: State) {
    && (forall r: nat :: multiset(s.closes)[r] <= 1)
    && (forall r: nat :: r in s.closes ==> r < s.nextId && r !in s.tracked)
    && (forall r: nat :: r in s.tracked ==> r < s.nextId)
  }

  function IdleBound(cfg: Config): int {
    if cfg.minSize > cfg.maxIdle then cfg.minSize else cfg.maxIdle
  }

  ghost predicate Inv(s: State) {
    Placed(s) && ClosedOnce(s) && |s.tracked| <= s.cfg.maxSize && |s.idle| <= IdleBound(s.cfg)
  }

  lemma DropBag(xs: seq<nat>, k: nat)
    requires k < |xs|
    ensures multiset(Drop(xs, k)) + multiset{xs[k]} == multiset(xs)
  {
    assert xs == xs[..k] + [xs[k]] + xs[k + 1..];
  }

  lemma HeadBag(xs: seq<nat>)
    requires xs != []
    ensures multiset(xs[1..]) + multiset{xs[0]} == multiset(xs)
  {
    assert xs == [xs[0]] + xs[1..];
  }

  /** Destroying an entry that some place has given up. */
  lemma DestroyKeepsInv(s: State, r: nat)
    requires ClosedOnce(s) && r in s.tracked && |s.tracked| <= s.cfg.maxSize && |s.idle| <= IdleBound(s.cfg)
    requires forall x: nat :: Free(s)[x] == if IsFree(s, x) && x != r then 1 else 0
    ensures Inv(Destroy(s, r))
  {
    var s' := Destroy(s, r);
    assert s'.tracked.Keys == s.tracked.Keys - {r};
    assert multiset(s'.closes) == multiset(s.closes) + multiset{r};
    assert Free(s') == Free(s);
    assert forall x: nat :: IsFree(s', x) <==> IsFree(s, x) && x != r;
    assert forall x: nat :: x in s'.closes <==> x in s.closes || x == r;
  }

  /** An entry that leaves its place was free. */
  lemma GivenUp(s: State, s0: State, r: nat)
    requires Placed(s) && s0.tracked == s.tracked && Free(s) == Free(s0) + multiset{r}
    ensures r in s0.tracked
    ensures forall x: nat :: Free(s0)[x] == if IsFree(s0, x) && x != r then 1 else 0
  {
    forall x: nat
      ensures Free(s0)[x] == if IsFree(s0, x) && x != r then 1 else 0
    {
      assert Free(s)[x] == if IsFree(s, x) then 1 else 0;
      assert Free(s)[x] == Free(s0)[x] + multiset{r}[x];
    }
    assert Free(s)[r] > 0;
  }

  /** An entry that becomes free and goes into the channel. */
  lemma PlacedPlus(s: State, s': State, r: nat)
    requires Placed(s) && !IsFree(s, r) && s'.taken == s.taken && s'.cleaner == s.cleaner
    requires multiset(s'.idle) == multiset(s.idle) + multiset{r}
    requires r in s'.tracked && !s'.tracked[r].inUse
    requires forall x: nat :: x != r ==> (IsFree(s', x) <==> IsFree(s, x))
    ensures Placed(s')
  {
    forall x: nat
      ensures Free(s')[x] == if IsFree(s', x) then 1 else 0
    {
      assert Free(s)[x] == if IsFree(s, x) then 1 else 0;
      assert Free(s')[x] == Free(s)[x] + multiset{r}[x];
    }
  }

  lemma TakeKeepsInv(s: State)
    requires Inv(s) && Enabled(s, Take)
    ensures Inv(Apply(s, Take))
  {
    HeadBag(s.idle);
    SamePlaces(s, Apply(s, Take));
  }

  lemma RejectKeepsInv(s: State, k: nat)
    requires Inv(s) && Enabled(s, Reject(k))
    ensures Inv(Apply(s, Reject(k)))
  {
    DropBag(s.taken, k);
    var r := s.taken[k];
    var s0 := s.(taken := Drop(s.taken, k));
    assert Free(s) == Free(s0) + multiset{r};
    GivenUp(s, s0, r);
    DestroyKeepsInv(s0, r);
  }

  lemma GrantKeepsInv(s: State, k: nat, now: int)
    requires Inv(s) && Enabled(s, Grant(k, now))
    ensures Inv(Apply(s, Grant(k, now)))
  {
    DropBag(s.taken, k);
    var r := s.taken[k];
    var s' := Apply(s, Grant(k, now));
    assert Free(s) == Free(s') + multiset{r};
    assert s'.tracked.Keys == s.tracked.Keys;
    assert forall x: nat :: IsFree(s', x) <==> IsFree(s, x) && x != r;
  }

  lemma CreateKeepsInv(s: State, now: int)
    requires Inv(s) && Enabled(s, Create(now))
    ensures Inv(Apply(s, Create(now)))
  {
    var s' := Apply(s, Create(now));
    assert s'.tracked.Keys == s.tracked.Keys + {s.nextId};
    assert Free(s') == Free(s);
    assert forall x: nat :: IsFree(s', x) <==> IsFree(s, x);
  }

  lemma ReleaseKeepsInv(s: State, call: nat, r: nat, valid: bool, now: int)
    requires Inv(s) && Enabled(s, Release(call, r, valid, now))
    ensures Inv(Apply(s, Release(call, r, valid, now)))
  {
    if Releasable(s, r) {
      if PutsBack(s, valid) {
        var s' := s.(tracked := s.tracked[r := Entry(false, now)], idle := s.idle + [r]);
        assert multiset(s'.idle) == multiset(s.idle) + multiset{r};
        assert s'.tracked.Keys == s.tracked.Keys;
        PlacedPlus(s, s', r);
        LetGoKeepsInv(s', call, r);
      } else {
        DestroyKeepsInv(s, r);
        LetGoKeepsInv(Destroy(s, r), call, r);
      }
    }
  }

  lemma LetGoKeepsInv(s: State, call: nat, r: nat)
    requires Inv(s)
    ensures Inv(LetGo(s, call, r))
  {
    SamePlaces(s, LetGo(s, call, r));
  }

  lemma BagShift(a: multiset<nat>, b: multiset<nat>, c: multiset<nat>)
    ensures a + (b + c) == (a + b) + c
  {
  }

  lemma CleanDestroyKeepsInv(s: State)
    requires Inv(s) && Enabled(s, CleanDestroy)
    ensures Inv(Apply(s, CleanDestroy))
  {
    if s.cleaner.removed == [] {
      SamePlaces(s, s.(cleaner := Resting));
    } else {
      var r := s.cleaner.removed[0];
      HeadBag(s.cleaner.removed);
      var s0 := s.(cleaner := Destroying(s.cleaner.removed[1..]));
      BagShift(multiset(s.idle) + multiset(s.taken), multiset(s.cleaner.removed[1..]), multiset{r});
      GivenUp(s, s0, r);
      DestroyKeepsInv(s0, r);
    }
  }

  lemma SamePlaces(s: State, s': State)
    requires Inv(s) && Free(s') == Free(s) && |s'.idle| <= |s.idle| && s'.cfg == s.cfg
    requires s'.tracked == s.tracked && s'.closes == s.closes && s'.nextId == s.nextId
    ensures Inv(s')
  {
    assert forall x: nat :: IsFree(s', x) <==> IsFree(s, x);
  }

  lemma CleanPopKeepsInv(s: State)
    requires Inv(s) && Enabled(s, CleanPop)
    ensures Inv(Apply(s, CleanPop))
  {
    HeadBag(s.idle);
    SamePlaces(s, Apply(s, CleanPop));
  }

  lemma CleanDoneKeepsInv(s: State)
    requires Inv(s) && Enabled(s, CleanDone)
    ensures Inv(Apply(s, CleanDone))
  {
    if s.idle != [] { HeadBag(s.idle); }
    SamePlaces(s, Apply(s, CleanDone));
  }

  lemma ShutdownKeepsInv(s: State, rest: seq<nat>)
    requires Inv(s) && Enabled(s, Shutdown(rest))
    ensures Inv(Apply(s, Shutdown(rest)))
  {
    var s' := Apply(s, Shutdown(rest));
    assert Free(s') == multiset{};
    assert multiset(s'.closes) == multiset(s.closes) + multiset(s.idle) + multiset(rest);
    forall r: nat
      ensures multiset(s'.closes)[r] <= 1 && (r in s'.closes ==> r < s.nextId)
    {
      NoDupBag(rest, r);
      assert Free(s)[r] == if IsFree(s, r) then 1 else 0;
      assert r in rest <==> r in Elems(rest);
      assert r in s.idle <==> r in Elems(s.idle);
    }
  }

  lemma {:induction false} NoDupBag(xs: seq<nat>, r: nat)
    requires NoDup(xs)
    ensures multiset(xs)[r] == if r in xs then 1 else 0
  {
    if xs != [] {
      var n := |xs| - 1;
      NoDupBag(xs[..n], r);
      assert xs == xs[..n] + [xs[n]];
    }
  }

  /** Every step keeps the pool's bookkeeping, whatever its callers release. */
  lemma StepKeepsInv(s: State, step: Step)
    requires Inv(s) && Enabled(s, step)
    ensures Inv(Apply(s, step))
  {
    match step
    case Take => TakeKeepsInv(s);
    case Reject(k) => RejectKeepsInv(s, k);
    case Grant(k, now) => GrantKeepsInv(s, k, now);
    case Create(now) => CreateKeepsInv(s, now);
    case Release(call, r, valid, now) => ReleaseKeepsInv(s, call, r, valid, now);
    case Shutdown(rest) => ShutdownKeepsInv(s, rest);
    case CleanStart(now) => SamePlaces(s, Apply(s, step));
    case CleanPop => CleanPopKeepsInv(s);
    case CleanDone => CleanDoneKeepsInv(s);
    case CleanDestroy => CleanDestroyKeepsInv(s);
  }

  // ---------- Whole runs ----------

  predicate IsRun(s: State, steps: seq<Step>)
    decreases |steps|
  {
    steps == [] || (Enabled(s, steps[0]) && IsRun(Apply(s, steps[0]), steps[1..]))
  }

  function Exec(s: State, steps: seq<Step>): State
    requires IsRun(s, steps)
    decreases |steps|
  {
    if steps == [] then s else Exec(Apply(s, steps[0]), steps[1..])
  }

  lemma {:induction false} NewPoolInv(cfg: Config, now: int, n: nat)
    requires n <= cfg.maxSize && n <= cfg.minSize
    ensures var s := PreCreated(cfg, now, n);
            && Inv(s) && s.nextId == n && |s.idle| == n && |s.tracked| == n && s.cfg == cfg
            && s.held == map[]
  {
    if n == 0 {
      EmptyPoolInv(PreCreated(cfg, now, 0));
    } else {
      NewPoolInv(cfg, now, n - 1);
      var s := PreCreated(cfg, now, n - 1);
      PreCreateKeepsInv(s, now);
      assert PreCreated(cfg, now, n) == PreCreateOne(s, now);
    }
  }

  lemma EmptyPoolInv(s: State)
    requires s.tracked == map[] && s.idle == s.taken == s.closes == [] && s.cleaner == Resting
    ensures Inv(s)
  {
    assert Free(s) == multiset{};
  }

  function PreCreateOne(s: State, now: int): State {
    s.(tracked := s.tracked[s.nextId := Entry(false, now)], idle := s.idle + [s.nextId], nextId := s.nextId + 1)
  }

  lemma PreCreateKeepsInv(s: State, now: int)
    requires Inv(s) && |s.tracked| < s.cfg.maxSize && |s.idle| < IdleBound(s.cfg)
    ensures Inv(PreCreateOne(s, now)) && |PreCreateOne(s, now).tracked| == |s.tracked| + 1
  {
    var s' := PreCreateOne(s, now);
    assert s'.tracked.Keys == s.tracked.Keys + {s.nextId};
    assert multiset(s'.idle) == multiset(s.idle) + multiset{s.nextId};
    FreshIsTracked(s, s');
    PlacedPlus(s, s', s.nextId);
  }

  lemma FreshIsTracked(s: State, s': State)
    requires ClosedOnce(s) && s'.closes == s.closes && s'.nextId == s.nextId + 1
    requires s'.tracked.Keys == s.tracked.Keys + {s.nextId}
    ensures ClosedOnce(s')
  {
  }

  lemma {:induction false} RunKeepsInv(s: State, steps: seq<Step>)
    requires Inv(s) && IsRun(s, steps)
    ensures Inv(Exec(s, steps))
    decreases |steps|
  {
    if steps != [] {
      StepKeepsInv(s, steps[0]);
      RunKeepsInv(Apply(s, steps[0]), steps[1..]);
    }
  }

  ghost function InUse(s: State): set<nat> {
    set r | r in s.tracked && s.tracked[r].inUse
  }

  ghost function FreeSet(s: State): set<nat> {
    set r | r in s.tracked && !s.tracked[r].inUse
  }

  /** Every tracked resource is idle, in use, being acquired or being cleaned up,
      and in one of these places only. */
  lemma TrackedAddsUp(s: State)
    requires Inv(s)
    ensures |s.tracked| == |s.idle| + |InUse(s)| + |s.taken| + |Removed(s.cleaner)|
  {
    assert s.tracked.Keys == FreeSet(s) + InUse(s);
    assert Free(s) == multiset(FreeSet(s));
  }

  /** The pool in every state a run can reach, whatever the callers do. */
  lemma PoolSafety(cfg: Config, now: int, steps: seq<Step>)
    requires GoodConfig(cfg) && IsRun(NewPool(cfg, now), steps)
    ensures var s := Exec(NewPool(cfg, now), steps);
            && Inv(s)
            && |s.tracked| == |s.idle| + |InUse(s)| + |s.taken| + |Removed(s.cleaner)|
  {
    NewPoolInv(cfg, now, cfg.minSize);
    RunKeepsInv(NewPool(cfg, now), steps);
    TrackedAddsUp(Exec(NewPool(cfg, now), steps));
  }

  /** The channel always has room for a resource that comes back: Release never
      finds it full, and the cleanup never blocks on putting an entry back. */
  lemma ChannelHasRoom(s: State)
    requires Inv(s)
    ensures InUse(s) != {} ==> |s.idle| < s.cfg.maxSize
    ensures s.idle != [] ==> |s.idle[1..]| < s.cfg.maxSize
  {
    TrackedAddsUp(s);
    if InUse(s) != {} {
      var r :| r in InUse(s);
      assert |InUse(s)| >= |{r}| by { assert {r} <= InUse(s); SubsetSize({r}, InUse(s)); }
    }
  }

  // ---------- Borrowers ----------

  predicate Holds(s: State, call: nat, r: nat) {
    call in s.held && s.held[call] == r
  }

  /** A release is refused, or its caller holds the resource. */
  predicate Disciplined(s: State, step: Step) {
    step.Release? ==> !Releasable(s, step.r) || Holds(s, step.call, step.r)
  }

  predicate DisciplinedRun(s: State, steps: seq<Step>)
    requires IsRun(s, steps)
    decreases |steps|
  {
    steps == [] || (Disciplined(s, steps[0]) && DisciplinedRun(Apply(s, steps[0]), steps[1..]))
  }

  ghost predicate OneHolder(s: State) {
    forall c, d :: c in s.held && d in s.held && s.held[c] == s.held[d] ==> c == d
  }

  ghost predicate Lent(s: State) {
    && OneHolder(s)
    && (forall c :: c in s.held ==> c < s.nextCall)
    && (!s.shut ==> forall c :: c in s.held ==> s.held[c] in InUse(s))
  }

  /** Every resource in use is held by some call. */
  ghost predicate AllHeld(s: State) {
    forall r: nat :: r in InUse(s) ==> exists c :: Holds(s, c, r)
  }

  lemma StillLent(s: State, s': State)
    requires Lent(s) && s'.held == s.held && s'.nextCall == s.nextCall && s'.shut == s.shut
    requires forall r: nat :: r in InUse(s) ==> r in InUse(s')
    ensures Lent(s')
  {
  }

  lemma FreeIsNotInUse(s: State, r: nat)
    requires Placed(s) && (r in s.taken || r in Removed(s.cleaner))
    ensures r in s.tracked && r !in InUse(s)
  {
    assert Free(s)[r] > 0;
  }

  lemma GrantKeepsLent(s: State, k: nat, now: int)
    requires Inv(s) && Lent(s) && Enabled(s, Grant(k, now))
    ensures Lent(Apply(s, Grant(k, now)))
  {
    FreeIsNotInUse(s, s.taken[k]);
    var s' := Apply(s, Grant(k, now));
    assert forall r: nat :: r in InUse(s') <==> r in InUse(s) || r == s.taken[k];
  }

  lemma CreateKeepsLent(s: State, now: int)
    requires Inv(s) && Lent(s) && Enabled(s, Create(now))
    ensures Lent(Apply(s, Create(now)))
  {
    var s' := Apply(s, Create(now));
    assert s.nextId !in s.tracked;
    assert forall r: nat :: r in InUse(s') <==> r in InUse(s) || r == s.nextId;
  }

  lemma ReleaseKeepsLent(s: State, step: Step)
    requires Inv(s) && Lent(s) && step.Release? && Enabled(s, step) && Holds(s, step.call, step.r)
    ensures Lent(Apply(s, step))
  {
    var s' := Apply(s, step);
    assert s.held[step.call] in InUse(s);
    assert s'.held == s.held - {step.call};
    assert forall r: nat :: r in InUse(s) && r != step.r ==> r in InUse(s');
  }

  lemma StepKeepsLent(s: State, step: Step)
    requires Inv(s) && Lent(s) && Enabled(s, step) && Disciplined(s, step)
    ensures Lent(Apply(s, step))
  {
    match step
    case Reject(k) =>
      FreeIsNotInUse(s, s.taken[k]);
      StillLent(s, Apply(s, step));
    case Grant(k, now) => GrantKeepsLent(s, k, now);
    case Create(now) => CreateKeepsLent(s, now);
    case Release(call, r, _, _) => if Holds(s, call, r) { ReleaseKeepsLent(s, step); }
    case CleanDestroy =>
      if s.cleaner.removed != [] { FreeIsNotInUse(s, s.cleaner.removed[0]); }
      StillLent(s, Apply(s, step));
    case Shutdown(_) =>
    case _ => StillLent(s, Apply(s, step));
  }

  lemma StillHeld(s: State, s': State)
    requires AllHeld(s) && s'.held == s.held && InUse(s') <= InUse(s)
    ensures AllHeld(s')
  {
    forall r: nat | r in InUse(s') ensures exists c :: Holds(s', c, r) {
      var c :| Holds(s, c, r);
      assert Holds(s', c, r);
    }
  }

  lemma NewHolder(s: State, s': State, r: nat)
    requires AllHeld(s) && Lent(s) && s'.held == s.held[s.nextCall := r]
    requires forall x: nat :: x in InUse(s') ==> x in InUse(s) || x == r
    ensures AllHeld(s')
  {
    assert Holds(s', s.nextCall, r);
    forall x: nat | x in InUse(s') && x != r ensures exists c :: Holds(s', c, x) {
      var c :| Holds(s, c, x);
      assert Holds(s', c, x);
    }
  }

  lemma ReleaseKeepsHeld(s: State, step: Step)
    requires Lent(s) && AllHeld(s) && step.Release? && Enabled(s, step) && Holds(s, step.call, step.r)
    ensures AllHeld(Apply(s, step))
  {
    var s' := Apply(s, step);
    assert s'.held == s.held - {step.call};
    forall x: nat | x in InUse(s') ensures exists c :: Holds(s', c, x) {
      assert x in InUse(s) && x != step.r;
      var c :| Holds(s, c, x);
      assert Holds(s', c, x);
    }
  }

  lemma GrantKeepsHeld(s: State, k: nat, now: int)
    requires Lent(s) && AllHeld(s) && Enabled(s, Grant(k, now))
    ensures AllHeld(Apply(s, Grant(k, now)))
  {
    NewHolder(s, Apply(s, Grant(k, now)), s.taken[k]);
  }

  lemma CreateKeepsHeld(s: State, now: int)
    requires Lent(s) && AllHeld(s) && Enabled(s, Create(now))
    ensures AllHeld(Apply(s, Create(now)))
  {
    NewHolder(s, Apply(s, Create(now)), s.nextId);
  }

  /** Other steps put nothing into use. */
  lemma NoNewUse(s: State, step: Step)
    requires Enabled(s, step) && !step.Grant? && !step.Create? && !step.Release?
    ensures Apply(s, step).held == s.held && InUse(Apply(s, step)) <= InUse(s)
  {
  }

  lemma StepKeepsHeld(s: State, step: Step)
    requires Inv(s) && Lent(s) && AllHeld(s) && Enabled(s, step) && Disciplined(s, step)
    ensures AllHeld(Apply(s, step))
  {
    match step
    case Grant(k, now) => GrantKeepsHeld(s, k, now);
    case Create(now) => CreateKeepsHeld(s, now);
    case Release(call, r, _, _) => if Holds(s, call, r) { ReleaseKeepsHeld(s, step); }
    case _ =>
      NoNewUse(s, step);
      StillHeld(s, Apply(s, step));
  }

  lemma HolderOf(s: State, r: nat) returns (c: nat)
    requires AllHeld(s) && Releasable(s, r)
    ensures Holds(s, c, r)
  {
    assert r in InUse(s);
    c :| Holds(s, c, r);
  }

  /** While the resources in use are exactly the held ones, a release keeps it so if and only
      if it is refused or its caller holds the resource. */
  lemma ReleaseKeepsLentIff(s: State, call: nat, r: nat, valid: bool, now: int)
    requires Inv(s) && Lent(s) && AllHeld(s) && Enabled(s, Release(call, r, valid, now))
    ensures Lent(Apply(s, Release(call, r, valid, now))) <==> !Releasable(s, r) || Holds(s, call, r)
  {
    var step := Release(call, r, valid, now);
    var s' := Apply(s, step);
    if Releasable(s, r) {
      if Holds(s, call, r) {
        ReleaseKeepsLent(s, step);
      } else {
        var c := HolderOf(s, r);
        assert s'.held == s.held && Holds(s', c, r);
        assert r !in InUse(s');
      }
    }
  }

  /** Receiving the first n idle entries. */
  lemma {:induction false} TakeRun(s: State, n: nat) returns (steps: seq<Step>)
    requires !s.shut && n <= |s.idle|
    ensures IsRun(s, steps) && Exec(s, steps) == s.(idle := s.idle[n..], taken := s.taken + s.idle[..n])
    ensures forall k :: 0 <= k < |steps| ==> steps[k] == Take
  {
    steps := [];
    if n == 0 {
      assert s.idle[0..] == s.idle && s.taken + s.idle[..0] == s.taken;
    } else {
      steps := TakeRun(s, n - 1);
      ExtendRun(s, steps, Take);
      TakeNext(s, n - 1);
      steps := steps + [Take];
    }
  }

  lemma TakeNext(s: State, n: nat)
    requires n < |s.idle|
    ensures s.idle[n..][1..] == s.idle[n + 1..] && s.idle[n..][0] == s.idle[n]
    ensures (s.taken + s.idle[..n]) + [s.idle[n]] == s.taken + s.idle[..n + 1]
  {
  }

  /** From any state in which a caller puts back a resource that another holds, acquisitions
      alone lead to two holders of it. */
  lemma StrayPutBackShares(s: State, call: nat, r: nat, valid: bool, now: int) returns (steps: seq<Step>)
    requires Inv(s) && Lent(s) && AllHeld(s) && Enabled(s, Release(call, r, valid, now))
    requires Releasable(s, r) && !Holds(s, call, r) && PutsBack(s, valid)
    ensures IsRun(Apply(s, Release(call, r, valid, now)), steps)
    ensures forall k :: 0 <= k < |steps| ==> steps[k].Take? || steps[k].Grant?
    ensures !OneHolder(Exec(Apply(s, Release(call, r, valid, now)), steps))
  {
    var s1 := Apply(s, Release(call, r, valid, now));
    var c := HolderOf(s, r);
    steps := TakeRun(s1, |s1.idle|);
    var s2 := Exec(s1, steps);
    var k := |s.taken| + |s.idle|;
    assert s2.taken == s.taken + (s.idle + [r]) && s2.taken[k] == r;
    ExtendRun(s1, steps, Grant(k, now));
    steps := steps + [Grant(k, now)];
    var s3 := Exec(s1, steps);
    assert Holds(s3, c, r) && Holds(s3, s.nextCall, r) && c != s.nextCall;
  }

  /** No resource is held by two borrowers if callers release only what they hold. */
  lemma {:induction false} OneHolderInRuns(s: State, steps: seq<Step>)
    requires Inv(s) && Lent(s) && AllHeld(s) && IsRun(s, steps) && DisciplinedRun(s, steps)
    ensures Lent(Exec(s, steps)) && AllHeld(Exec(s, steps))
    decreases |steps|
  {
    if steps != [] {
      StepKeepsInv(s, steps[0]);
      StepKeepsLent(s, steps[0]);
      StepKeepsHeld(s, steps[0]);
      OneHolderInRuns(Apply(s, steps[0]), steps[1..]);
    }
  }

  lemma {:induction false} NoneInUse(cfg: Config, now: int, n: nat)
    ensures InUse(PreCreated(cfg, now, n)) == {}
  {
    if n > 0 { NoneInUse(cfg, now, n - 1); }
  }

  lemma OneHolderFromStart(cfg: Config, now: int, steps: seq<Step>)
    requires GoodConfig(cfg) && IsRun(NewPool(cfg, now), steps) && DisciplinedRun(NewPool(cfg, now), steps)
    ensures OneHolder(Exec(NewPool(cfg, now), steps)) && AllHeld(Exec(NewPool(cfg, now), steps))
  {
    NewPoolInv(cfg, now, cfg.minSize);
    NoneInUse(cfg, now, cfg.minSize);
    OneHolderInRuns(NewPool(cfg, now), steps);
  }

  lemma {:induction false} ExtendRun(s: State, steps: seq<Step>, step: Step)
    requires IsRun(s, steps) && Enabled(Exec(s, steps), step)
    ensures IsRun(s, steps + [step])
    ensures Exec(s, steps + [step]) == Apply(Exec(s, steps), step)
    decreases |steps|
  {
    if steps == [] {
      assert [step][1..] == [];
    } else {
      assert (steps + [step])[1..] == steps[1..] + [step];
      ExtendRun(Apply(s, steps[0]), steps[1..], step);
    }
  }

  function Small(tracked: map<nat, Entry>, idle: seq<nat>, taken: seq<nat>, held: map<nat, nat>, calls: nat): State {
    State(Config(1, 0, 1, 0, false, false), tracked, idle, taken, Resting, [], 1, held, calls, false)
  }

  lemma LendAgain(s: State, calls: nat, held: map<nat, nat>)
    requires s == Small(map[0 := Entry(false, 0)], [0], [], held, calls)
    ensures IsRun(s, [Take, Grant(0, 0)])
    ensures Exec(s, [Take, Grant(0, 0)]) == Small(map[0 := Entry(true, 0)], [], [], held[calls := 0], calls + 1)
  {
    ExtendRun(s, [], Take);
    var s1 := Small(map[0 := Entry(false, 0)], [], [0], held, calls);
    assert Exec(s, [] + [Take]) == s1;
    ExtendRun(s, [] + [Take], Grant(0, 0));
    assert Drop([0], 0) == [];
    assert [] + [Take] + [Grant(0, 0)] == [Take, Grant(0, 0)];
  }

  lemma {:induction false} JoinRuns(s: State, a: seq<Step>, b: seq<Step>)
    requires IsRun(s, a) && IsRun(Exec(s, a), b)
    ensures IsRun(s, a + b) && Exec(s, a + b) == Exec(Exec(s, a), b)
    decreases |a|
  {
    if a == [] {
      assert a + b == b;
    } else {
      assert (a + b)[1..] == a[1..] + b;
      JoinRuns(Apply(s, a[0]), a[1..], b);
    }
  }

  lemma StrayRelease(s: State, held: map<nat, nat>, calls: nat)
    requires s == Small(map[0 := Entry(true, 0)], [], [], held, calls)
    ensures Enabled(s, Release(0, 0, true, 0))
    ensures Apply(s, Release(0, 0, true, 0))
         == Small(map[0 := Entry(false, 0)], [0], [], if 0 in held && held[0] == 0 then held - {0} else held, calls)
  {
    assert [] + [0] == [0];
    assert map[0 := Entry(true, 0)][0 := Entry(false, 0)] == map[0 := Entry(false, 0)];
  }

  /** A caller that releases a resource twice can make two others hold it. */
  lemma DoubleReleaseSharesResource() returns (steps: seq<Step>)
    ensures IsRun(NewPool(Config(1, 0, 1, 0, false, false), 0), steps)
    ensures !OneHolder(Exec(NewPool(Config(1, 0, 1, 0, false, false), 0), steps))
  {
    var s := NewPool(Config(1, 0, 1, 0, false, false), 0);
    var release := Release(0, 0, true, 0);
    ExtendRun(s, [], Create(0));
    steps := [] + [Create(0)];
    assert Exec(s, steps) == Small(map[0 := Entry(true, 0)], [], [], map[0 := 0], 1);
    StrayRelease(Exec(s, steps), map[0 := 0], 1);
    ExtendRun(s, steps, release);
    steps := steps + [release];
    LendAgain(Exec(s, steps), 1, map[0 := 0] - {0});
    JoinRuns(s, steps, [Take, Grant(0, 0)]);
    steps := steps + [Take, Grant(0, 0)];
    var held := (map[0 := 0] - {0})[1 := 0];
    StrayRelease(Exec(s, steps), held, 2);
    ExtendRun(s, steps, release);
    steps := steps + [release];
    LendAgain(Exec(s, steps), 2, held);
    JoinRuns(s, steps, [Take, Grant(0, 0)]);
    steps := steps + [Take, Grant(0, 0)];
    var final := Exec(s, steps).held;
    assert 1 in final && 2 in final && final[1] == final[2];
  }

  /** The resource has gone out to the next call. */
  ghost predicate LentOut(s: State, r: nat, s': State) {
    r in InUse(s') && s'.held == s.held[s.nextCall := r]
  }

  /** What a release does: nothing for a resource that is not in use; else it goes to the back of the
      channel, free from now on, if it is still valid and fewer than MaxIdle are there, and is closed and
      forgotten if not. */
  lemma ReleaseOutcome(s: State, call: nat, r: nat, valid: bool, now: int)
    requires Inv(s) && Enabled(s, Release(call, r, valid, now))
    ensures var s' := Apply(s, Release(call, r, valid, now));
            if r !in s.tracked || !s.tracked[r].inUse then s' == s
            else
              && s'.held == (if call in s.held && s.held[call] == r then s.held - {call} else s.held)
              && if (valid || !s.cfg.validateOnReturn) && |s.idle| < s.cfg.maxIdle
                 then s'.idle == s.idle + [r] && s'.tracked == s.tracked[r := Entry(false, now)] && s'.closes == s.closes
                 else s'.idle == s.idle && s'.tracked == s.tracked - {r} && s'.closes == s.closes + [r]
  {
    ChannelHasRoom(s);
    if Releasable(s, r) { assert r in InUse(s); }
  }

  /** A resource handed out is in use from now on, new or not, and its caller holds it. */
  lemma HandedOut(s: State, step: Step)
    requires Inv(s) && Enabled(s, step) && (step.Grant? || step.Create?)
    ensures var r, s' := if step.Grant? then s.taken[step.k] else s.nextId, Apply(s, step);
            && s'.tracked == s.tracked[r := Entry(true, step.now)] && s'.held == s.held[s.nextCall := r]
            && s'.closes == s.closes && s'.idle == s.idle && (step.Create? ==> r !in s.tracked && r !in s.closes)
  {
  }

  // ---------- The code, run without interference ----------

  /** The pool object.  Each method follows the source text and is shown to be a
      run of the state machine; the ghost fields are only the machine's view. */
  class Pool {
    const cfg: Config
    var tracked: map<nat, Entry>
    var idle: seq<nat>
    var taken: seq<nat>
    var closes: seq<nat>
    var nextId: nat
    var shut: bool
    ghost var cleaner: Cleaner
    ghost var held: map<nat, nat>
    ghost var nextCall: nat

    ghost function Model(): State
      reads this
    {
      State(cfg, tracked, idle, taken, cleaner, closes, nextId, held, nextCall, shut)
    }

    /** NewResourcePool for a configuration that passes its checks and a factory that fails after
        `made` creations: then the pool is closed again, with what was created for it. */
    constructor (cfg: Config, now: int, made: nat)
      requires GoodConfig(cfg)
      ensures Inv(Model())
      ensures if cfg.minSize <= made then Model() == NewPool(cfg, now)
              else Enabled(PreCreated(cfg, now, made), Shutdown([])) && Model() == Apply(PreCreated(cfg, now, made), Shutdown([]))
    {
      this.cfg := cfg;
      tracked, idle, taken, closes, held := map[], [], [], [], map[];
      nextId, nextCall, shut, cleaner := 0, 0, false, Resting;
      new;
      for i := 0 to cfg.minSize
        invariant i <= made && Model() == PreCreated(cfg, now, i)
      {
        if i >= made {
          GiveUp(now, made);
          return;
        }
        tracked := tracked[nextId := Entry(false, now)];
        idle := idle + [nextId];
        nextId := nextId + 1;
      }
      NewPoolInv(cfg, now, cfg.minSize);
    }

    /** The pool is closed because the factory failed. */
    method GiveUp(ghost now: int, ghost made: nat)
      requires GoodConfig(cfg) && made < cfg.minSize && Model() == PreCreated(cfg, now, made)
      modifies this`tracked, this`idle, this`closes, this`shut
      ensures Inv(Model()) && Enabled(old(Model()), Shutdown([])) && Model() == Apply(old(Model()), Shutdown([]))
    {
      NewPoolInv(cfg, now, made);
      PreCreatedIdle(cfg, now, made);
      ghost var rest := Close();
      NoElems(rest);
    }

    /** Close: the entries of the channel are closed, then all others that are tracked; a second call does
        nothing. */
    method Close() returns (ghost rest: seq<nat>)
      requires Inv(Model()) && cleaner == Resting && taken == []
      modifies this`tracked, this`idle, this`closes, this`shut
      ensures Inv(Model())
      ensures if old(shut) then Model() == old(Model())
              else Enabled(old(Model()), Shutdown(rest)) && Model() == Apply(old(Model()), Shutdown(rest))
    {
      rest := [];
      if shut { return; }
      ghost var start := Model();
      shut := true;
      CloseIdle();
      rest := CloseOthers();
      ShutsDown(start, rest);
    }

    method CloseIdle()
      modifies this`tracked, this`idle, this`closes
      ensures Model() == old(Model()).(tracked := old(tracked) - Elems(old(idle)), idle := [], closes := old(closes) + old(idle))
    {
      ghost var n := 0;
      while idle != []
        invariant n <= |old(idle)| && idle == old(idle)[n..]
        invariant tracked == old(tracked) - Elems(old(idle)[..n]) && closes == old(closes) + old(idle)[..n]
        decreases |idle|
      {
        var r := idle[0];
        TakeHead(old(idle), n);
        idle := idle[1..];
        DestroyUnsafe(r);
        n := n + 1;
      }
      assert old(idle)[..n] == old(idle);
    }

    method CloseOthers() returns (ghost rest: seq<nat>)
      modifies this`tracked, this`closes
      ensures tracked == map[] && closes == old(closes) + rest
      ensures NoDup(rest) && Elems(rest) == old(tracked).Keys
    {
      rest := [];
      while |tracked| > 0
        invariant Emptying(old(tracked), old(closes), rest, tracked, closes)
        decreases tracked.Keys
      {
        var r :| r in tracked;
        EmptyOne(old(tracked), old(closes), rest, tracked, closes, r);
        rest := rest + [r];
        DestroyUnsafe(r);
      }
      EmptiedAll(old(tracked), rest);
    }

    method DestroyUnsafe(r: nat)
      modifies this`tracked, this`closes
      ensures Model() == Destroy(old(Model()), r)
    {
      closes := closes + [r];
      tracked := tracked - {r};
    }

    /** tryCreateResource: fails when the pool is full or the factory fails. */
    method TryCreate(now: int, makes: bool) returns (r: Option<nat>)
      requires Inv(Model()) && !shut && cleaner == Resting
      modifies this`tracked, this`nextId, this`held, this`nextCall
      ensures Inv(Model())
      ensures r.None? <==> |old(tracked)| >= cfg.maxSize || !makes
      ensures Model() == if r.None? then old(Model()) else Apply(old(Model()), Create(now))
      ensures r.Some? ==> r.value == old(nextId)
    {
      if |tracked| >= cfg.maxSize { return None; }
      if !makes { return None; }
      ghost var next := Apply(Model(), Create(now));
      CreateKeepsInv(Model(), now);
      r := Some(nextId);
      tracked := tracked[nextId := Entry(true, now)];
      held := held[nextCall := nextId];
      nextId, nextCall := nextId + 1, nextCall + 1;
      assert Model() == next;
    }

    /** Receives the oldest idle entry. */
    method Receive() returns (ghost steps: seq<Step>)
      requires Inv(Model()) && !shut && taken == [] && idle != []
      modifies this`idle, this`taken
      ensures Inv(Model()) && Model() == Apply(old(Model()), Take)
      ensures IsRun(old(Model()), steps) && Model() == Exec(old(Model()), steps)
      ensures taken == [old(idle)[0]] && taken[0] in tracked && idle == old(idle)[1..]
    {
      ExtendRun(Model(), [], Take);
      steps := [] + [Take];
      TakeKeepsInv(Model());
      idle, taken := idle[1..], taken + [idle[0]];
      assert taken[0] in taken;
      FreeIsNotInUse(Model(), taken[0]);
    }

    /** Marks the entry just received as in use. */
    method Mark(now: int, ghost start: State, ghost before: seq<Step>) returns (r: nat, ghost steps: seq<Step>)
      requires Inv(Model()) && !shut && cleaner == Resting && |taken| == 1 && taken[0] in tracked
      requires IsRun(start, before) && Model() == Exec(start, before)
      modifies this`tracked, this`taken, this`held, this`nextCall
      ensures Inv(Model()) && taken == [] && r == old(taken)[0] && LentOut(old(Model()), r, Model())
      ensures IsRun(start, steps) && Model() == Exec(start, steps)
    {
      ghost var next := Apply(Model(), Grant(0, now));
      GrantKeepsInv(Model(), 0, now);
      ExtendRun(start, before, Grant(0, now));
      steps := before + [Grant(0, now)];
      r := taken[0];
      tracked, taken := tracked[r := Entry(true, now)], Drop(taken, 0);
      held, nextCall := held[nextCall := r], nextCall + 1;
      assert Model() == next;
    }

    method Discard(ghost start: State, ghost before: seq<Step>) returns (ghost steps: seq<Step>)
      requires Inv(Model()) && !shut && cleaner == Resting && |taken| == 1
      requires IsRun(start, before) && Model() == Exec(start, before)
      modifies this`tracked, this`taken, this`closes
      ensures Inv(Model()) && taken == [] && closes == old(closes) + [old(taken)[0]]
      ensures IsRun(start, steps) && Model() == Exec(start, steps)
    {
      RejectKeepsInv(Model(), 0);
      ExtendRun(start, before, Reject(0));
      steps := before + [Reject(0)];
      var r := taken[0];
      taken := Drop(taken, 0);
      DestroyUnsafe(r);
    }

    /** AcquireWithTimeout: an idle entry that passes its checks, or a new one; it
        is left waiting only when nothing is idle and none can be made.  `makes` says
        whether the factory can create a resource during the call. */
    method Acquire(now: int, valid: nat -> bool, resets: nat -> bool, makes: bool)
      returns (r: Option<nat>, ghost steps: seq<Step>, ghost gone: nat)
      requires Inv(Model()) && !shut && cleaner == Resting && taken == []
      modifies this`tracked, this`idle, this`taken, this`closes, this`nextId, this`held, this`nextCall
      ensures Inv(Model()) && taken == []
      ensures Discarded(old(idle), old(closes), gone, valid, resets, r.Some? && r.value != old(nextId))
      ensures IsRun(old(Model()), steps) && Model() == Exec(old(Model()), steps)
      ensures r.Some? ==> LentOut(old(Model()), r.value, Model())
      ensures r.Some? ==> (makes && r.value == old(nextId)) || (r.value in old(idle) && Passes(r.value, valid, resets))
      ensures r.None? ==> idle == [] && (|tracked| >= cfg.maxSize || !makes) && held == old(held)
    {
      ghost var start := Model();
      r, steps, gone := ReuseIdle(now, valid, resets, makes);
      if r.Some? { return; }
      ghost var more;
      r, more := CreateIfRoom(now, makes);
      JoinRuns(start, steps, more);
      steps := steps + more;
    }

    /** Entries are received until one can be handed out, or a new one, or none is left. */
    method ReuseIdle(now: int, valid: nat -> bool, resets: nat -> bool, makes: bool)
      returns (r: Option<nat>, ghost steps: seq<Step>, ghost gone: nat)
      requires Inv(Model()) && !shut && cleaner == Resting && taken == []
      modifies this`tracked, this`idle, this`taken, this`closes, this`nextId, this`held, this`nextCall
      ensures Inv(Model()) && taken == []
      ensures Discarded(old(idle), old(closes), gone, valid, resets, r.Some? && r.value != old(nextId))
      ensures IsRun(old(Model()), steps) && Model() == Exec(old(Model()), steps)
      ensures r.Some? ==> LentOut(old(Model()), r.value, Model())
      ensures r.Some? ==> (makes && r.value == old(nextId)) || (r.value in old(idle) && Passes(r.value, valid, resets))
      ensures r.None? ==> idle == [] && nextCall == old(nextCall) && held == old(held) && nextId == old(nextId)
    {
      ghost var start := Model();
      r, steps, gone := None, [], 0;
      while idle != []
        invariant Inv(Model()) && !shut && cleaner == Resting && taken == [] && r.None?
        invariant Discarded(old(idle), old(closes), gone, valid, resets, false)
        invariant nextCall == old(nextCall) && held == old(held) && nextId == old(nextId)
        invariant IsRun(start, steps) && Model() == Exec(start, steps)
        decreases |idle|
      {
        r, steps, gone := ReuseNext(now, valid, resets, makes, old(idle), old(closes), gone, start, steps);
        if r.Some? { return; }
      }
    }

    /** One more entry of a search that has discarded `before` of them. */
    method ReuseNext(now: int, valid: nat -> bool, resets: nat -> bool, makes: bool,
        ghost idle0: seq<nat>, ghost closes0: seq<nat>, ghost before: nat, ghost start: State, ghost run: seq<Step>)
      returns (r: Option<nat>, ghost steps: seq<Step>, ghost gone: nat)
      requires Inv(Model()) && !shut && cleaner == Resting && taken == [] && idle != []
      requires Discarded(idle0, closes0, before, valid, resets, false) && IsRun(start, run) && Model() == Exec(start, run)
      modifies this`tracked, this`idle, this`taken, this`closes, this`nextId, this`held, this`nextCall
      ensures Inv(Model()) && taken == [] && |idle| < |old(idle)|
      ensures Discarded(idle0, closes0, gone, valid, resets, r.Some? && r.value != old(nextId))
      ensures IsRun(start, steps) && Model() == Exec(start, steps)
      ensures r.Some? ==> LentOut(old(Model()), r.value, Model())
      ensures r.Some? ==> (makes && r.value == old(nextId)) || (r.value in idle0 && Passes(r.value, valid, resets))
      ensures r.None? ==> nextCall == old(nextCall) && held == old(held) && nextId == old(nextId)
    {
      ghost var more;
      ConsumeOne(idle0, closes0, before, idle, closes);
      r, more := TryIdle(now, valid, resets, makes);
      JoinRuns(start, run, more);
      steps, gone := run + more, if r.None? || r.value == old(nextId) then before + 1 else before;
    }

    /** A reused entry was reset, and found valid where that is asked for. */
    predicate Passes(r: nat, valid: nat -> bool, resets: nat -> bool) {
      resets(r) && (cfg.validateOnBorrow ==> valid(r))
    }

    /** The first `gone` of the entries that were idle failed a check and were closed; the next one was handed out
        if `reused`, and the others are still idle. */
    ghost predicate Discarded(idle0: seq<nat>, closes0: seq<nat>, gone: nat, valid: nat -> bool, resets: nat -> bool, reused: bool)
      reads this
    {
      && Consumed(idle0, closes0, gone, reused, idle, closes)
      && forall k :: 0 <= k < gone ==> !Passes(idle0[k], valid, resets)
    }

    /** One idle entry: it is handed out, or destroyed and perhaps replaced. */
    method TryIdle(now: int, valid: nat -> bool, resets: nat -> bool, makes: bool)
      returns (r: Option<nat>, ghost steps: seq<Step>)
      requires Inv(Model()) && !shut && cleaner == Resting && taken == [] && idle != []
      modifies this`tracked, this`idle, this`taken, this`closes, this`nextId, this`held, this`nextCall
      ensures Inv(Model()) && taken == [] && idle == old(idle)[1..]
      ensures if r.Some? && r.value != old(nextId) then closes == old(closes)
              else closes == old(closes) + [old(idle)[0]] && !Passes(old(idle)[0], valid, resets)
      ensures IsRun(old(Model()), steps) && Model() == Exec(old(Model()), steps)
      ensures r.None? ==> nextCall == old(nextCall) && held == old(held) && nextId == old(nextId)
      ensures r.Some? ==> LentOut(old(Model()), r.value, Model())
      ensures r.Some? ==> (makes && r.value == old(nextId)) || (r.value == old(idle)[0] && Passes(r.value, valid, resets))
    {
      r := None;
      steps := Receive();
      if cfg.validateOnBorrow && !valid(taken[0]) {
        steps := Discard(old(Model()), steps);
        ghost var more;
        r, more := CreateIfRoom(now, makes);
        JoinRuns(old(Model()), steps, more);
        steps := steps + more;
      } else if !resets(taken[0]) {
        steps := Discard(old(Model()), steps);
      } else {
        var got;
        got, steps := Mark(now, old(Model()), steps);
        r := Some(got);
      }
    }

    method CreateIfRoom(now: int, makes: bool) returns (r: Option<nat>, ghost steps: seq<Step>)
      requires Inv(Model()) && !shut && cleaner == Resting
      modifies this`tracked, this`nextId, this`held, this`nextCall
      ensures Inv(Model()) && IsRun(old(Model()), steps) && Model() == Exec(old(Model()), steps)
      ensures r.None? ==> (|tracked| >= cfg.maxSize || !makes) && Model() == old(Model())
      ensures r.Some? ==> makes && r.value == old(nextId) && LentOut(old(Model()), r.value, Model())
    {
      ghost var start := Model();
      r := TryCreate(now, makes);
      steps := [];
      if r.Some? {
        ExtendRun(start, [], Create(now));
        steps := [] + [Create(now)];
      }
    }

    /** The second half of Release: back into the channel, or destroyed. */
    method PutBackOrDestroy(r: nat, valid: bool, now: int)
      requires r in tracked
      modifies this`tracked, this`idle, this`closes
      ensures Model() == if old(PutsBack(Model(), valid))
                         then old(Model()).(tracked := old(tracked)[r := Entry(false, now)], idle := old(idle) + [r])
                         else Destroy(old(Model()), r)
    {
      if cfg.validateOnReturn && !valid {
        DestroyUnsafe(r);
        return;
      }
      if |idle| >= cfg.maxIdle {
        DestroyUnsafe(r);
        return;
      }
      tracked := tracked[r := Entry(false, now)];
      if |idle| < cfg.maxSize {
        idle := idle + [r];
      } else {
        DestroyUnsafe(r);
        assert tracked == old(tracked) - {r};
      }
    }

    /** Release: an error for a resource that is not tracked or not in use; else it
        goes back to the channel or is destroyed. */
    method ReleaseResource(ghost call: nat, r: nat, valid: bool, now: int) returns (ok: bool)
      requires Inv(Model()) && !shut && cleaner == Resting
      modifies this`tracked, this`idle, this`closes, this`held
      ensures Model() == Apply(old(Model()), Release(call, r, valid, now))
      ensures Inv(Model())
      ensures ok <==> old(Releasable(Model(), r))
    {
      ghost var start := Model();
      ReleaseKeepsInv(start, call, r, valid, now);
      if r !in tracked { return false; }
      if !tracked[r].inUse { return false; }
      PutBackOrDestroy(r, valid, now);
      held := LetGo(Model(), call, r).held;
      ok := true;
    }

    /** cleanupIdleResources: the expired entries at the head of the channel, up to the first
        that is not expired, are closed and forgotten; that one moves to the back. */
    method CleanupIdle(now: int) returns (ghost steps: seq<Step>)
      requires Inv(Model()) && !shut && cleaner == Resting
      modifies this`tracked, this`idle, this`closes, this`cleaner
      ensures Inv(Model()) && Model() == Cleaned(old(Model()), now)
      ensures IsRun(old(Model()), steps) && Model() == Exec(old(Model()), steps)
    {
      steps := Cleanup(now);
      RunKeepsInv(old(Model()), steps);
    }

    method Cleanup(now: int) returns (ghost steps: seq<Step>)
      requires !shut && cleaner == Resting
      modifies this`tracked, this`idle, this`closes, this`cleaner
      ensures Model() == Cleaned(old(Model()), now)
      ensures IsRun(old(Model()), steps) && Model() == Exec(old(Model()), steps)
    {
      ghost var start := Model();
      var toRemove: seq<nat>;
      toRemove, steps := TakeExpired(now);
      steps := DestroyRemoved(toRemove, start, steps);
    }

    /** The expired entries at the head leave the channel, and the next one moves to its back. */
    method TakeExpired(now: int) returns (toRemove: seq<nat>, ghost steps: seq<Step>)
      requires !shut && cleaner == Resting
      modifies this`idle, this`cleaner
      ensures var n := Leading(old(Model()), old(idle), now);
              && toRemove == old(idle)[..n]
              && Model() == old(Model()).(idle := Rotated(old(idle)[n..]), cleaner := Destroying(toRemove))
      ensures IsRun(old(Model()), steps) && Model() == Exec(old(Model()), steps)
    {
      ghost var start := Model();
      ExtendRun(start, [], CleanStart(now));
      steps := [] + [CleanStart(now)];
      cleaner := Scanning(now, []);
      SameLeading(start, Model(), idle, now);
      toRemove, steps := Scan(now, start, steps);
      steps := Rotate(now, toRemove, start, steps);
    }

    /** The first entry that is not expired goes to the back of the channel. */
    method Rotate(now: int, ghost toRemove: seq<nat>, ghost start: State, ghost before: seq<Step>) returns (ghost steps: seq<Step>)
      requires !shut && cleaner == Scanning(now, toRemove) && IsRun(start, before) && Model() == Exec(start, before)
      requires idle != [] ==> !Expired(Model(), idle[0], now)
      modifies this`idle, this`cleaner
      ensures IsRun(start, steps) && Model() == Exec(start, steps)
      ensures Model() == old(Model()).(idle := Rotated(old(idle)), cleaner := Destroying(toRemove))
    {
      ExtendRun(start, before, CleanDone);
      steps := before + [CleanDone];
      if idle != [] { idle := idle[1..] + [idle[0]]; }
      cleaner := Destroying(toRemove);
    }

    method Scan(now: int, ghost start: State, ghost before: seq<Step>) returns (toRemove: seq<nat>, ghost steps: seq<Step>)
      requires !shut && cleaner == Scanning(now, []) && IsRun(start, before) && Model() == Exec(start, before)
      modifies this`idle, this`cleaner
      ensures IsRun(start, steps) && Model() == Exec(start, steps)
      ensures var n := Leading(old(Model()), old(idle), now);
              && toRemove == old(idle)[..n]
              && Model() == old(Model()).(idle := old(idle)[n..], cleaner := Scanning(now, toRemove))
      ensures idle != [] ==> !Expired(Model(), idle[0], now)
    {
      ghost var base := Model();
      ghost var n := 0;
      toRemove, steps := [], before;
      while idle != [] && idle[0] in tracked && now - tracked[idle[0]].lastUsed > cfg.idleTimeout
        invariant IsRun(start, steps) && Model() == Exec(start, steps)
        invariant Scanned(base, now, n, toRemove, Model())
        decreases |idle|
      {
        ghost var next := Apply(Model(), CleanPop);
        ExtendRun(start, steps, CleanPop);
        ScanOne(base, now, n, toRemove, Model());
        steps := steps + [CleanPop];
        toRemove := toRemove + [idle[0]];
        idle, cleaner := idle[1..], Scanning(now, toRemove);
        n := n + 1;
        assert Model() == next;
      }
    }

    method DestroyNext(toRemove: seq<nat>, i: nat, ghost start: State, ghost before: seq<Step>) returns (ghost steps: seq<Step>)
      requires i < |toRemove| && !shut && cleaner == Destroying(toRemove[i..])
      requires IsRun(start, before) && Model() == Exec(start, before)
      modifies this`tracked, this`closes, this`cleaner
      ensures IsRun(start, steps) && Model() == Exec(start, steps)
      ensures Model() == Destroy(old(Model()).(cleaner := Destroying(toRemove[i + 1..])), toRemove[i])
    {
      ExtendRun(start, before, CleanDestroy);
      steps := before + [CleanDestroy];
      assert toRemove[i..][1..] == toRemove[i + 1..];
      cleaner := Destroying(toRemove[i + 1..]);
      DestroyUnsafe(toRemove[i]);
    }

    method DestroyRemoved(toRemove: seq<nat>, ghost start: State, ghost before: seq<Step>) returns (ghost steps: seq<Step>)
      requires !shut && cleaner == Destroying(toRemove) && IsRun(start, before) && Model() == Exec(start, before)
      modifies this`tracked, this`closes, this`cleaner
      ensures IsRun(start, steps) && Model() == Exec(start, steps)
      ensures Model() == DestroyAll(old(Model()).(cleaner := Resting), toRemove)
    {
      steps := before;
      ghost var base := Model().(cleaner := Resting);
      for i := 0 to |toRemove|
        invariant IsRun(start, steps) && Model() == Exec(start, steps)
        invariant !shut && Model() == DestroyAll(base, toRemove[..i]).(cleaner := Destroying(toRemove[i..]))
      {
        DestroyAllSnoc(base, toRemove, i);
        steps := DestroyNext(toRemove, i, start, steps);
      }
      assert toRemove[|toRemove|..] == [] && toRemove[..|toRemove|] == toRemove;
      DestroyAllResult(base, toRemove);
      ExtendRun(start, steps, CleanDestroy);
      steps := steps + [CleanDestroy];
      cleaner := Resting;
    }
  }

  /** `gone` entries were taken off the head and closed, and one more taken if `reused`. */
  ghost predicate Consumed(idle0: seq<nat>, closes0: seq<nat>, gone: nat, reused: bool, idle: seq<nat>, closes: seq<nat>) {
    var left := gone + if reused then 1 else 0;
    left <= |idle0| && idle == idle0[left..] && closes == closes0 + idle0[..gone]
  }

  lemma ConsumeOne(idle0: seq<nat>, closes0: seq<nat>, gone: nat, idle: seq<nat>, closes: seq<nat>)
    requires Consumed(idle0, closes0, gone, false, idle, closes) && idle != []
    ensures idle[0] == idle0[gone]
    ensures Consumed(idle0, closes0, gone, true, idle[1..], closes)
    ensures Consumed(idle0, closes0, gone + 1, false, idle[1..], closes + [idle[0]])
  {
    assert idle0[gone..][1..] == idle0[gone + 1..];
    assert idle0[..gone + 1] == idle0[..gone] + [idle0[gone]];
    ConcatAssoc(closes0, idle0[..gone], [idle0[gone]]);
  }

  lemma ShutsDown(s: State, rest: seq<nat>)
    requires Inv(s) && !s.shut && s.taken == [] && s.cleaner == Resting
    requires NoDup(rest) && Elems(rest) == (s.tracked - Elems(s.idle)).Keys
    ensures Enabled(s, Shutdown(rest)) && Inv(Apply(s, Shutdown(rest)))
    ensures Apply(s, Shutdown(rest)) == s.(tracked := map[], idle := [], closes := s.closes + s.idle + rest, shut := true)
  {
    assert s.tracked.Keys - Elems(s.idle) == Elems(rest);
    ShutdownKeepsInv(s, rest);
  }

  lemma TakeHead(xs: seq<nat>, n: nat)
    requires n < |xs|
    ensures xs[n..][1..] == xs[n + 1..] && xs[..n + 1] == xs[..n] + [xs[n]] && Elems(xs[..n + 1]) == Elems(xs[..n]) + {xs[n]}
  {
    AddElem(xs[..n], xs[n]);
  }

  lemma AddElem(xs: seq<nat>, r: nat)
    ensures Elems(xs + [r]) == Elems(xs) + {r}
  {
  }

  /** Of the entries `m` those in `rest` were closed and forgotten. */
  ghost predicate Emptying(m: map<nat, Entry>, closes0: seq<nat>, rest: seq<nat>, tracked: map<nat, Entry>, closes: seq<nat>) {
    tracked == m - Elems(rest) && closes == closes0 + rest && NoDup(rest) && Elems(rest) <= m.Keys
  }

  lemma EmptyOne(m: map<nat, Entry>, closes0: seq<nat>, rest: seq<nat>, tracked: map<nat, Entry>, closes: seq<nat>, r: nat)
    requires Emptying(m, closes0, rest, tracked, closes) && r in tracked
    ensures Emptying(m, closes0, rest + [r], tracked - {r}, closes + [r])
  {
    AddElem(rest, r);
    NewElem(rest, r);
    ConcatAssoc(closes0, rest, [r]);
    assert tracked - {r} == m - Elems(rest + [r]);
  }

  lemma NewElem(rest: seq<nat>, r: nat)
    requires NoDup(rest) && r !in Elems(rest)
    ensures NoDup(rest + [r])
  {
    assert forall k :: 0 <= k < |rest| ==> rest[k] in Elems(rest);
  }

  lemma EmptiedAll(m: map<nat, Entry>, rest: seq<nat>)
    requires m - Elems(rest) == map[] && Elems(rest) <= m.Keys
    ensures Elems(rest) == m.Keys
  {
    assert forall r :: r in m && r !in Elems(rest) ==> r in m - Elems(rest);
  }

  lemma NoElems(xs: seq<nat>)
    ensures Elems(xs) == {} <==> xs == []
  {
    if xs != [] { assert xs[0] in Elems(xs); }
  }

  lemma {:induction false} PreCreatedIdle(cfg: Config, now: int, n: nat)
    ensures var s := PreCreated(cfg, now, n); s.tracked.Keys == Elems(s.idle) && s.taken == [] && s.cleaner == Resting && !s.shut
  {
    if n > 0 {
      PreCreatedIdle(cfg, now, n - 1);
      AddElem(PreCreated(cfg, now, n - 1).idle, PreCreated(cfg, now, n - 1).nextId);
    }
  }

  lemma DestroyAllSnoc(s: State, rs: seq<nat>, i: nat)
    requires i < |rs|
    ensures DestroyAll(s, rs[..i + 1]) == Destroy(DestroyAll(s, rs[..i]), rs[i])
  {
    assert rs[..i + 1][..i] == rs[..i];
  }

  /** How many entries at the head have expired. */
  function Leading(s: State, idle: seq<nat>, now: int): (n: nat)
    ensures n <= |idle|
    ensures forall k :: 0 <= k < n ==> Expired(s, idle[k], now)
    ensures n < |idle| ==> !Expired(s, idle[n], now)
    ensures forall k :: 0 <= k < n ==> idle[k] in s.tracked && now > s.tracked[idle[k]].lastUsed + s.cfg.idleTimeout
    ensures n < |idle| ==> idle[n] !in s.tracked || now <= s.tracked[idle[n]].lastUsed + s.cfg.idleTimeout
  {
    if idle != [] && Expired(s, idle[0], now) then 1 + Leading(s, idle[1..], now) else 0
  }

  lemma {:induction false} SameLeading(s: State, s': State, idle: seq<nat>, now: int)
    requires s'.tracked == s.tracked && s'.cfg == s.cfg
    ensures Leading(s', idle, now) == Leading(s, idle, now)
  {
    if idle != [] { SameLeading(s, s', idle[1..], now); }
  }

  /** The scan has taken the first n idle entries of `base`, all expired. */
  ghost predicate Scanned(base: State, now: int, n: nat, removed: seq<nat>, s: State) {
    && n <= |base.idle| && removed == base.idle[..n]
    && n + Leading(base, base.idle[n..], now) == Leading(base, base.idle, now)
    && s == base.(idle := base.idle[n..], cleaner := Scanning(now, removed))
  }

  lemma ScanOne(base: State, now: int, n: nat, removed: seq<nat>, s: State)
    requires Scanned(base, now, n, removed, s) && s.idle != [] && Expired(s, s.idle[0], now) && !s.shut
    ensures Enabled(s, CleanPop)
    ensures Scanned(base, now, n + 1, removed + [s.idle[0]], Apply(s, CleanPop))
  {
    assert base.idle[n..][1..] == base.idle[n + 1..];
    assert base.idle[..n + 1] == base.idle[..n] + [base.idle[n]];
  }

  /** The pool after a cleanup that nothing interrupts. */
  function Cleaned(s: State, now: int): State {
    var n := Leading(s, s.idle, now);
    DestroyAll(s.(idle := Rotated(s.idle[n..])), s.idle[..n])
  }

  /** The first entry, which is not expired, moves to the back. */
  function Rotated(xs: seq<nat>): seq<nat> {
    if xs == [] then [] else xs[1..] + [xs[0]]
  }

  /** A cleanup that nothing interrupts closes and forgets the expired entries at the head, and puts the entry
      behind them to the end of the others; the rest of the pool stays. */
  lemma CleanedMeans(s: State, now: int)
    ensures var n, s' := Leading(s, s.idle, now), Cleaned(s, now);
            && s'.tracked == s.tracked - Elems(s.idle[..n]) && s'.closes == s.closes + s.idle[..n]
            && (n == |s.idle| ==> s'.idle == [])
            && (n < |s.idle| ==> s'.idle == s.idle[n + 1..] + [s.idle[n]])
            && s' == s.(tracked := s'.tracked, closes := s'.closes, idle := s'.idle)
  {
    var n := Leading(s, s.idle, now);
    DestroyAllResult(s.(idle := Rotated(s.idle[n..])), s.idle[..n]);
  }

  function DestroyAll(s: State, rs: seq<nat>): State {
    if rs == [] then s else Destroy(DestroyAll(s, rs[..|rs| - 1]), rs[|rs| - 1])
  }

  /** Destroying several resources closes each of them and forgets it, and nothing else. */
  lemma {:induction false} DestroyAllResult(s: State, rs: seq<nat>)
    ensures DestroyAll(s, rs) == s.(tracked := s.tracked - Elems(rs), closes := s.closes + rs)
  {
    if rs == [] {
      assert s.closes + rs == s.closes && s.tracked - Elems(rs) == s.tracked;
    } else {
      var front, r := rs[..|rs| - 1], rs[|rs| - 1];
      DestroyAllResult(s, front);
      assert rs == front + [r];
      assert Elems(rs) == Elems(front) + {r};
      assert (s.tracked - Elems(front)) - {r} == s.tracked - Elems(rs);
      assert (s.closes + front) + [r] == s.closes + rs;
    }
  }
}

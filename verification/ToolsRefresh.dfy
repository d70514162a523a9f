/**
 Coalescing of tool-list refreshes in internal/domain/mcp/global_manage.go: any number
 of requesters and a background runner share two flags under a lock. One step per
 critical section or other observable action; steps of all goroutines interleave freely.
 */
module ToolsRefresh {

  /** Where a runner is: about to refresh, refreshing, or holding an outcome to record. */
  datatype Phase = Starting | Fetching | Deciding(failed: bool)

  /** `requests` and `starts` hold the times of requests and of refreshes begun; `outcomes` how they ended. */
  datatype State = State(
    now: nat, refreshing: bool, queued: bool, lastFailed: bool, runners: map<nat, Phase>,
    requests: seq<nat>, starts: seq<nat>, outcomes: seq<bool>)

  datatype Step =
    | Request(spawned: nat)
    | Start(runner: nat)
    | Finish(runner: nat, failed: bool)
    | Decide(runner: nat)

  predicate Enabled(s: State, step: Step) {
    match step
    case Request(r) => r !in s.runners
    case Start(r) => r in s.runners && s.runners[r] == Starting
    case Finish(r, _) => r in s.runners && s.runners[r] == Fetching
    case Decide(r) => r in s.runners && s.runners[r].Deciding?
  }

  function Apply(s: State, step: Step): State
    requires Enabled(s, step)
  {
    var s := s.(now := s.now + 1);
    match step
    case Request(r) =>
      var s := s.(requests := s.requests + [s.now - 1]);
      if s.refreshing then s.(queued := true)
      else s.(refreshing := true, runners := s.runners[r := Starting])
    case Start(r) =>
      s.(runners := s.runners[r := Fetching], starts := s.starts + [s.now - 1])
    case Finish(r, failed) =>
      s.(runners := s.runners[r := Deciding(failed)], outcomes := s.outcomes + [failed])
    case Decide(r) =>
      var s := s.(lastFailed := s.runners[r].failed);
      if s.queued then s.(queued := false, runners := s.runners[r := Starting])
      else s.(refreshing := false, runners := s.runners - {r})
  }

  predicate IsRun(s: State, steps: seq<Step>)
    decreases |steps|
  {
    steps == [] || (Enabled(s, steps[0]) && IsRun(Apply(s, steps[0]), steps[1..]))
  }

  function Exec(s: State, steps: seq<Step>): State
    requires IsRun(s, steps)
    decreases |steps|
  {
    if steps == [] then s else Exec(Apply(s, steps[0]), steps[1..])
  }

  function Initial(lastFailed: bool): State {
    State(0, false, false, lastFailed, map[], [], [], [])
  }

  // ---------- Invariant ----------

  /** A refresh began after time `t`. */
  ghost predicate Served(s: State, t: nat) {
    exists i :: 0 <= i < |s.starts| && s.starts[i] > t
  }

  ghost predicate OneRunner(s: State) {
    forall a, b :: a in s.runners && b in s.runners ==> a == b
  }

  ghost predicate IsStarting(s: State) {
    exists r :: r in s.runners && s.runners[r] == Starting
  }

  ghost predicate IsFetching(s: State) {
    exists r :: r in s.runners && s.runners[r] == Fetching
  }

  ghost predicate Flags(s: State) {
    && OneRunner(s)
    && (s.refreshing <==> exists r :: r in s.runners)
    && (s.queued ==> s.refreshing)
  }

  ghost predicate RequestsAnswered(s: State) {
    && (forall i :: 0 <= i < |s.requests| ==> s.requests[i] < s.now)
    && (forall i :: 0 <= i < |s.requests| ==> Served(s, s.requests[i]) || s.queued || IsStarting(s))
  }

  /** Each refresh begun or owed is paid for by a request of its own. */
  ghost predicate Coalesced(s: State) {
    && |s.starts| + (if IsStarting(s) then 1 else 0) + (if s.queued then 1 else 0) <= |s.requests|
    && |s.outcomes| + (if IsFetching(s) then 1 else 0) == |s.starts|
  }

  /** The recorded error is the last outcome, once the runner has recorded it. */
  ghost predicate ErrorIsLast(s: State) {
    if exists r :: r in s.runners && s.runners[r].Deciding? then
      s.outcomes != [] && forall r :: r in s.runners && s.runners[r].Deciding? ==> s.runners[r].failed == s.outcomes[|s.outcomes| - 1]
    else
      s.outcomes == [] || s.lastFailed == s.outcomes[|s.outcomes| - 1]
  }

  ghost predicate Inv(s: State) {
    Flags(s) && RequestsAnswered(s) && Coalesced(s) && ErrorIsLast(s)
  }

  lemma StepKeepsFlags(s: State, step: Step)
    requires Flags(s) && Enabled(s, step)
    ensures Flags(Apply(s, step))
  {
    var s' := Apply(s, step);
    match step
    case Request(r) => if !s.refreshing { assert r in s'.runners; }
    case Start(r) => assert r in s'.runners;
    case Finish(r, _) => assert r in s'.runners;
    case Decide(r) => if s.queued { assert r in s'.runners; }
  }

  lemma StepAnswersRequests(s: State, step: Step)
    requires Flags(s) && RequestsAnswered(s) && Enabled(s, step)
    ensures RequestsAnswered(Apply(s, step))
  {
    var s' := Apply(s, step);
    if step.Request? && !s.refreshing { assert s'.runners[step.spawned] == Starting; }
    if step.Decide? && s.queued { assert s'.runners[step.runner] == Starting; }
    forall i | 0 <= i < |s'.requests| ensures s'.requests[i] < s'.now && (Served(s', s'.requests[i]) || s'.queued || IsStarting(s')) {
      var t := s'.requests[i];
      if i < |s.requests| {
        assert t == s.requests[i];
        if step.Start? {
          assert s'.starts[|s.starts|] == s.now > t;
        } else if Served(s, t) {
          var k :| 0 <= k < |s.starts| && s.starts[k] > t;
          assert s'.starts[k] > t;
        } else if IsStarting(s) && !s.queued {
          var r :| r in s.runners && s.runners[r] == Starting;
          assert r in s'.runners && s'.runners[r] == Starting;
        }
      }
    }
  }

  lemma StepKeepsCounts(s: State, step: Step)
    requires Flags(s) && Coalesced(s) && Enabled(s, step)
    ensures Coalesced(Apply(s, step))
  {
    var s' := Apply(s, step);
    match step
    case Request(_) =>
    case Start(r) => assert IsStarting(s); assert IsFetching(s') by { assert s'.runners[r] == Fetching; }
    case Finish(r, _) => assert IsFetching(s); assert s'.runners[r].Deciding?;
    case Decide(r) => if s.queued { assert IsStarting(s') by { assert s'.runners[r] == Starting; } }
  }

  lemma StepKeepsError(s: State, step: Step)
    requires Flags(s) && ErrorIsLast(s) && Enabled(s, step)
    ensures ErrorIsLast(Apply(s, step))
  {
    var s' := Apply(s, step);
    match step
    case Request(_) =>
    case Start(r) => assert s.runners[r] == Starting;
    case Finish(r, _) => assert s'.runners[r].Deciding?;
    case Decide(r) => assert s.runners[r].Deciding?;
  }

  lemma StepKeepsInv(s: State, step: Step)
    requires Inv(s) && Enabled(s, step)
    ensures Inv(Apply(s, step))
  {
    StepKeepsFlags(s, step);
    StepAnswersRequests(s, step);
    StepKeepsCounts(s, step);
    StepKeepsError(s, step);
  }

  lemma {:induction false} RunKeepsInv(s: State, steps: seq<Step>)
    requires Inv(s) && IsRun(s, steps)
    ensures Inv(Exec(s, steps))
    decreases |steps|
  {
    if steps != [] {
      StepKeepsInv(s, steps[0]);
      RunKeepsInv(Apply(s, steps[0]), steps[1..]);
    }
  }

  // ---------- Main results ----------

  /**
   However requests and runners interleave: never two runners, never more refreshes than
   requests; and whenever no runner is left, every request was followed by a refresh that
   began after it, all of them ended, and the recorded error is that of the last one.
   */
  lemma RefreshSafety(lastFailed: bool, steps: seq<Step>)
    requires IsRun(Initial(lastFailed), steps)
    ensures var s := Exec(Initial(lastFailed), steps);
            && OneRunner(s)
            && |s.starts| <= |s.requests|
            && (s.runners == map[] ==>
                  && !s.refreshing && !s.queued
                  && (forall i :: 0 <= i < |s.requests| ==> Served(s, s.requests[i]))
                  && |s.outcomes| == |s.starts|
                  && (s.outcomes != [] ==> s.lastFailed == s.outcomes[|s.outcomes| - 1]))
  {
    RunKeepsInv(Initial(lastFailed), steps);
  }

  /** The steps a runner still has to take if nobody asks again. */
  function Remaining(s: State, r: nat): nat
    requires r in s.runners
  {
    (match s.runners[r] case Starting => 3 case Fetching => 2 case Deciding(_) => 1) + if s.queued then 3 else 0
  }

  /**
   No request is left hanging: without new requests the runner comes to rest after exactly
   `Remaining` steps, whatever the outcomes of its refreshes are.
   */
  lemma {:induction false} RunnerComesToRest(s: State, r: nat, outcomes: seq<bool>) returns (steps: seq<Step>)
    requires Inv(s) && r in s.runners && |outcomes| == Remaining(s, r)
    ensures IsRun(s, steps) && |steps| == Remaining(s, r)
    ensures forall i :: 0 <= i < |steps| ==> !steps[i].Request?
    ensures Exec(s, steps).runners == map[] && Exec(s, steps).requests == s.requests
    ensures forall i :: 0 <= i < |s.requests| ==> Served(Exec(s, steps), s.requests[i])
    decreases Remaining(s, r)
  {
    var step := match s.runners[r]
      case Starting => Start(r)
      case Fetching => Finish(r, outcomes[0])
      case Deciding(_) => Decide(r);
    var s' := Apply(s, step);
    StepKeepsInv(s, step);
    if r in s'.runners {
      var rest := RunnerComesToRest(s', r, outcomes[1..]);
      steps := [step] + rest;
      assert steps[1..] == rest;
    } else {
      steps := [step];
      assert steps[1..] == [];
      assert s'.runners == map[];
    }
  }

  /** The step is not a request. */
  ghost predicate Quiet(steps: seq<Step>) {
    forall i :: 0 <= i < |steps| ==> !steps[i].Request?
  }

  lemma QuietStep(s: State, r: nat, step: Step)
    requires Inv(s) && r in s.runners && Enabled(s, step) && !step.Request?
    ensures var s' := Apply(s, step);
            if Remaining(s, r) == 1 then s'.runners == map[] else r in s'.runners && Remaining(s', r) == Remaining(s, r) - 1
  {
    var s' := Apply(s, step);
    assert r == match step case Start(x) => x case Finish(x, _) => x case Decide(x) => x;
    if Remaining(s, r) == 1 { assert s'.runners == map[]; }
  }

  /** Without new requests no run is longer than `Remaining`; one of that length leaves no runner, a
      shorter one leaves the runner with the other steps to take. */
  lemma {:induction false} QuietRuns(s: State, r: nat, steps: seq<Step>)
    requires Inv(s) && r in s.runners && IsRun(s, steps) && Quiet(steps)
    ensures |steps| <= Remaining(s, r)
    ensures var s' := Exec(s, steps);
            if |steps| == Remaining(s, r) then s'.runners == map[]
            else r in s'.runners && Remaining(s', r) == Remaining(s, r) - |steps|
    decreases |steps|
  {
    if steps != [] {
      var s' := Apply(s, steps[0]);
      StepKeepsInv(s, steps[0]);
      QuietStep(s, r, steps[0]);
      if r in s'.runners {
        QuietRuns(s', r, steps[1..]);
      } else {
        NobodyMoves(s', steps[1..]);
      }
    }
  }

  lemma NobodyMoves(s: State, steps: seq<Step>)
    requires s.runners == map[] && IsRun(s, steps) && Quiet(steps)
    ensures steps == []
  {
  }

  // ---------- The two critical sections ----------

  /** The flags of a connection, with the protocol state they belong to. */
  class Connection {
    var refreshing: bool
    var refreshQueued: bool
    var lastFailed: bool
    ghost var state: State

    ghost predicate Valid()
      reads this
    {
      Inv(state) && state.refreshing == refreshing && state.queued == refreshQueued && state.lastFailed == lastFailed
    }

    constructor (failed: bool)
      ensures Valid() && state == Initial(failed)
    {
      refreshing, refreshQueued, lastFailed := false, false, failed;
      state := Initial(failed);
    }

    /** scheduleToolsRefreshWithReason: `spawn` says that a runner must be started. */
    method Schedule(ghost r: nat) returns (spawn: bool)
      requires Valid() && Enabled(state, Request(r))
      modifies this
      ensures Valid() && state == Apply(old(state), Request(r))
      ensures spawn <==> state.runners != old(state.runners)
      ensures spawn ==> !old(refreshing) && state.runners == map[r := Starting]
    {
      StepKeepsInv(state, Request(r));
      state := Apply(state, Request(r));
      if refreshing {
        refreshQueued := true;
        return false;
      }
      refreshing := true;
      spawn := true;
    }

    /** The locked part of the runner's loop: `again` says that it must refresh once more. */
    method Record(ghost r: nat, failed: bool) returns (again: bool)
      requires Valid() && r in state.runners && state.runners[r] == Deciding(failed)
      modifies this
      ensures Valid() && state == Apply(old(state), Decide(r)) && (again <==> old(refreshQueued)) && !refreshQueued
      ensures if again then state.runners == map[r := Starting] else state.runners == map[]
      ensures !again ==> forall i :: 0 <= i < |state.requests| ==> Served(state, state.requests[i])
    {
      StepKeepsInv(state, Decide(r));
      state := Apply(state, Decide(r));
      lastFailed := failed;
      if refreshQueued {
        refreshQueued := false;
        return true;
      }
      refreshing := false;
      again := false;
    }

    /**
     runScheduledToolsRefresh: refreshes until no request came in meanwhile. `failures[i]` is
     the outcome of refresh i and `arrivals[i]` the number of requests made while it runs.
     */
    method RunScheduled(ghost r: nat, failures: seq<bool>, arrivals: seq<nat>) returns (rounds: nat)
      requires Valid() && r in state.runners && state.runners[r] == Starting && !refreshQueued
      requires |failures| == |arrivals| > 0 && arrivals[|arrivals| - 1] == 0
      modifies this
      ensures Valid() && state.runners == map[]
      ensures 1 <= rounds <= |arrivals| && arrivals[rounds - 1] == 0 && forall i :: 0 <= i < rounds - 1 ==> arrivals[i] > 0
      ensures |state.starts| == |old(state.starts)| + rounds
      ensures lastFailed == failures[rounds - 1]
      ensures forall i :: 0 <= i < |state.requests| ==> Served(state, state.requests[i])
    {
      rounds := 0;
      while true
        invariant Valid() && r in state.runners && state.runners[r] == Starting && !refreshQueued
        invariant rounds < |arrivals| && forall i :: 0 <= i < rounds ==> arrivals[i] > 0
        invariant |state.starts| == |old(state.starts)| + rounds
        decreases |arrivals| - rounds
      {
        var again := RunRound(r, failures[rounds], arrivals[rounds]);
        rounds := rounds + 1;
        if !again {
          return;
        }
      }
    }

    /** One round: refresh, with requests coming in meanwhile, and record the outcome. */
    method RunRound(ghost r: nat, failed: bool, arrivals: nat) returns (again: bool)
      requires Valid() && r in state.runners && state.runners[r] == Starting && !refreshQueued
      modifies this
      ensures Valid() && lastFailed == failed && !refreshQueued && (again <==> arrivals > 0)
      ensures state.runners == if again then map[r := Starting] else map[]
      ensures |state.starts| == |old(state.starts)| + 1
      ensures !again ==> forall i :: 0 <= i < |state.requests| ==> Served(state, state.requests[i])
    {
      StepKeepsInv(state, Start(r));
      state := Apply(state, Start(r));
      Arrive(r, arrivals);
      StepKeepsInv(state, Finish(r, failed));
      state := Apply(state, Finish(r, failed));
      again := Record(r, failed);
    }

    /** Requests made while a refresh runs: they only leave a note. */
    method Arrive(ghost r: nat, count: nat)
      requires Valid() && r in state.runners && state.runners[r] == Fetching && !refreshQueued
      modifies this
      ensures Valid() && state.runners == old(state.runners) && state.starts == old(state.starts)
      ensures refreshQueued <==> count > 0
      ensures |state.requests| == |old(state.requests)| + count
    {
      for n := 0 to count
        invariant Valid() && state.runners == old(state.runners) && state.starts == old(state.starts)
        invariant refreshQueued <==> n > 0
        invariant |state.requests| == |old(state.requests)| + n
      {
        var spawn := Schedule(r + 1);
      }
    }
  }
}

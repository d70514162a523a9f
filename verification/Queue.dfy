/**
 The generation-swapped queue of internal/util/queue.go, as a state machine over
 its atomic steps.  A call is an operation with a program counter; everything
 done under the mutex is one step, every channel action outside it is another.
 Channels are numbered in the order they are made, so a channel's number is the
 count of clears before it.
 */
module QueueProtocol {

  type Val(==, !new)

  /** A pushed value, named after the push operation that sent it. */
  datatype Token = Token(op: nat, val: Val)

  /** One receive: the token and the operation that received it. */
  datatype Receipt = Receipt(tok: Token, who: nat)

  /** A Go channel, with the history of its sends and receives. */
  datatype Chan = Chan(buf: seq<Token>, open: bool, sent: seq<Token>, taken: seq<Receipt>)

  datatype PushResult = Pushed(ch: nat) | PushClosed | PushGaveUp

  datatype PopResult = Got(tok: Token) | PopClosed | PopEmpty | PopGaveUp

  datatype Op =
    | PushReady(val: Val, blocking: bool)
    | PushSnapped(val: Val, blocking: bool, ch: nat, gen: nat)
    | PushPanicked(val: Val, blocking: bool, ch: nat, gen: nat)
    | PushDone(val: Val, pushed: PushResult)
    | PopReady(nonBlocking: bool)
    | PopSnapped(nonBlocking: bool, ch: nat)
    | PopDone(ch: nat, popped: PopResult)
    | ClearReady
    | Draining(ch: nat, drained: seq<Token>)
    | ClearDone(ch: nat, drained: seq<Token>)
    | ClearRefused

  /** `cur` is the field ch, `gen` the 64-bit generation counter; `panicked`
      records a close of a closed channel, which Go answers with a panic. */
  datatype State = State(
    cap: nat, chans: seq<Chan>, cur: nat, closed: bool, gen: nat, ops: seq<Op>, panicked: bool)

  const GEN_MODULUS: nat := 0x1_0000_0000_0000_0000

  datatype Call = CallPush(val: Val, blocking: bool) | CallPop(nonBlocking: bool) | CallClear

  /** Steps that change nothing but their own operation. */
  datatype Local =
    | Snapshot | SendPanics | SendGivesUp | CtxErrAfterPanic | Recheck
    | ReceiveClosed | PopGivesUp | SwapRefused | DrainEnd

  datatype Step =
    | Start(call: Call)
    | Close
    | Act(i: nat, local: Local)
    | Send(i: nat)
    | Take(i: nat)
    | HandOff(i: nat, j: nat)
    | Swap(i: nat)

  function NewChan(): Chan {
    Chan([], true, [], [])
  }

  function NewQueue(cap: nat): State {
    State(cap, [NewChan()], 0, false, 0, [], false)
  }

  function StartOp(call: Call): Op {
    match call
    case CallPush(v, b) => PushReady(v, b)
    case CallPop(b) => PopReady(b)
    case CallClear => ClearReady
  }

  /** The channel an operation acts on outside the lock. */
  predicate HasChan(s: State, o: Op) {
    (o.PushSnapped? || o.PopSnapped? || o.Draining?) && o.ch < |s.chans|
  }

  predicate LocalEnabled(s: State, o: Op, local: Local) {
    match local
    case Snapshot => o.PushReady? || o.PopReady?
    case SendPanics => o.PushSnapped? && HasChan(s, o) && !s.chans[o.ch].open
    case SendGivesUp => o.PushSnapped?
    case CtxErrAfterPanic => o.PushPanicked? && o.blocking
    case Recheck => o.PushPanicked?
    case ReceiveClosed =>
      o.PopSnapped? && HasChan(s, o) && s.chans[o.ch].buf == [] && !s.chans[o.ch].open
    case PopGivesUp =>
      && o.PopSnapped? && HasChan(s, o)
      && (o.nonBlocking ==> s.chans[o.ch].buf == [] && s.chans[o.ch].open)
    case SwapRefused => o.ClearReady? && s.closed
    case DrainEnd =>
      o.Draining? && HasChan(s, o) && s.chans[o.ch].buf == [] && !s.chans[o.ch].open
  }

  function NextOp(s: State, o: Op, local: Local): Op
    requires LocalEnabled(s, o, local)
  {
    match local
    case Snapshot =>
      if o.PushReady? then
        if s.closed then PushDone(o.val, PushClosed) else PushSnapped(o.val, o.blocking, s.cur, s.gen)
      else
        if s.closed then PopDone(s.cur, PopClosed) else PopSnapped(o.nonBlocking, s.cur)
    case SendPanics => PushPanicked(o.val, o.blocking, o.ch, o.gen)
    case SendGivesUp => PushDone(o.val, PushGaveUp)
    case CtxErrAfterPanic => PushDone(o.val, PushGaveUp)
    case Recheck =>
      if s.closed then PushDone(o.val, PushClosed)
      else if s.gen != o.gen then PushReady(o.val, o.blocking)
      else PushDone(o.val, PushClosed)
    case ReceiveClosed => PopDone(o.ch, PopClosed)
    case PopGivesUp => PopDone(o.ch, if o.nonBlocking then PopEmpty else PopGaveUp)
    case SwapRefused => ClearRefused
    case DrainEnd => ClearDone(o.ch, o.drained)
  }

  predicate CanSend(s: State, i: nat) {
    i < |s.ops| && s.ops[i].PushSnapped? && HasChan(s, s.ops[i]) && s.chans[s.ops[i].ch].open
  }

  predicate CanTake(s: State, i: nat) {
    && i < |s.ops| && (s.ops[i].PopSnapped? || s.ops[i].Draining?) && HasChan(s, s.ops[i])
    && s.chans[s.ops[i].ch].buf != []
  }

  function SendTo(c: Chan, t: Token): Chan {
    c.(buf := c.buf + [t], sent := c.sent + [t])
  }

  function TakeFrom(c: Chan, who: nat): Chan
    requires c.buf != []
  {
    c.(buf := c.buf[1..], taken := c.taken + [Receipt(c.buf[0], who)])
  }

  /** ch <- val, which also ends the push. */
  function ApplySend(s: State, i: nat): State
    requires CanSend(s, i)
  {
    var o := s.ops[i];
    s.(chans := s.chans[o.ch := SendTo(s.chans[o.ch], Token(i, o.val))],
       ops := s.ops[i := PushDone(o.val, Pushed(o.ch))])
  }

  function AfterTake(o: Op, t: Token): Op
    requires o.PopSnapped? || o.Draining?
  {
    if o.PopSnapped? then PopDone(o.ch, Got(t)) else Draining(o.ch, o.drained + [t])
  }

  /** One receive, by a Pop or by the drain loop of a clear. */
  function ApplyTake(s: State, i: nat): State
    requires CanTake(s, i)
  {
    var o := s.ops[i];
    s.(chans := s.chans[o.ch := TakeFrom(s.chans[o.ch], i)],
       ops := s.ops[i := AfterTake(o, s.chans[o.ch].buf[0])])
  }

  /** close(ch): panics when the channel is already closed. */
  function CloseChan(s: State, c: nat): State
    requires c < |s.chans|
  {
    s.(chans := s.chans[c := s.chans[c].(open := false)],
       panicked := s.panicked || !s.chans[c].open)
  }

  /** The critical section of ClearAndDrain on an open queue. */
  function ApplySwap(s: State, i: nat): State
    requires i < |s.ops| && s.cur < |s.chans|
  {
    var t := CloseChan(s, s.cur);
    t.(chans := t.chans + [NewChan()], cur := |s.chans|, gen := (s.gen + 1) % GEN_MODULUS,
       ops := s.ops[i := Draining(s.cur, [])])
  }

  /** Whether a step can be taken.  A hand-off is a send met by a waiting
      receiver, which is how a channel of capacity 0 works. */
  predicate Enabled(s: State, step: Step) {
    match step
    case Start(_) => true
    case Close => s.cur < |s.chans|
    case Act(i, local) => i < |s.ops| && LocalEnabled(s, s.ops[i], local)
    case Send(i) => CanSend(s, i) && |s.chans[s.ops[i].ch].buf| < s.cap
    case Take(i) => CanTake(s, i)
    case HandOff(i, j) =>
      && CanSend(s, i) && s.chans[s.ops[i].ch].buf == []
      && j < |s.ops| && s.ops[j].PopSnapped? && s.ops[j].ch == s.ops[i].ch
    case Swap(i) => i < |s.ops| && s.ops[i].ClearReady? && !s.closed && s.cur < |s.chans|
  }

  function Apply(s: State, step: Step): State
    requires Enabled(s, step)
  {
    match step
    case Start(call) => s.(ops := s.ops + [StartOp(call)])
    case Close =>
      if s.closed then s
      else CloseChan(s.(closed := true, gen := (s.gen + 1) % GEN_MODULUS), s.cur)
    case Act(i, local) => s.(ops := s.ops[i := NextOp(s, s.ops[i], local)])
    case Send(i) => ApplySend(s, i)
    case Take(i) => ApplyTake(s, i)
    case HandOff(i, j) => ApplyTake(ApplySend(s, i), j)
    case Swap(i) => ApplySwap(s, i)
  }

  predicate IsRun(s: State, steps: seq<Step>)
    decreases |steps|
  {
    steps == [] || (Enabled(s, steps[0]) && IsRun(Apply(s, steps[0]), steps[1..]))
  }

  function Exec(s: State, steps: seq<Step>): State
    requires IsRun(s, steps)
    decreases |steps|
  {
    if steps == [] then s else Exec(Apply(s, steps[0]), steps[1..])
  }

  // ---------- Channels, generations and closing ----------

  /** A channel is open exactly when it is the current one of an open queue. */
  ghost predicate ChannelsAgree(s: State) {
    && s.cur + 1 == |s.chans|
    && !s.panicked
    && s.gen == (s.cur + if s.closed then 1 else 0) % GEN_MODULUS
    && forall c :: 0 <= c < |s.chans| ==>
         && (s.chans[c].open <==> c == s.cur && !s.closed)
         && |s.chans[c].buf| <= s.cap
  }

  /** The number of clears since an operation's snapshot is a positive multiple
      of 2^64, so that the wrapped generation looks unchanged. */
  ghost predicate GenerationWrapped(s: State, ch: nat) {
    ch < s.cur && (s.cur - ch) % GEN_MODULUS == 0
  }

  ghost predicate OpAgrees(s: State, o: Op) {
    match o
    case PushSnapped(_, _, ch, gen) => ch < |s.chans| && gen == ch % GEN_MODULUS
    case PushPanicked(_, _, ch, gen) =>
      ch < |s.chans| && gen == ch % GEN_MODULUS && !s.chans[ch].open
    case PushDone(_, PushClosed) => s.closed || GEN_MODULUS <= s.cur
    case PopSnapped(_, ch) => ch < |s.chans|
    case PopDone(ch, PopClosed) => ch < |s.chans| && !s.chans[ch].open && (ch < s.cur || s.closed)
    case PopDone(ch, _) => ch < |s.chans|
    case Draining(ch, _) => ch < |s.chans| && !s.chans[ch].open
    case ClearDone(ch, _) => ch < |s.chans|
    case _ => true
  }

  ghost predicate OpsAgree(s: State) {
    forall i :: 0 <= i < |s.ops| ==> OpAgrees(s, s.ops[i])
  }

  ghost predicate Inv(s: State) {
    ChannelsAgree(s) && OpsAgree(s)
  }

  lemma NextGeneration(a: nat)
    ensures (a % GEN_MODULUS + 1) % GEN_MODULUS == (a + 1) % GEN_MODULUS
  {
  }

  lemma SameGeneration(a: nat, b: nat)
    requires a <= b
    ensures a % GEN_MODULUS == b % GEN_MODULUS <==> (b - a) % GEN_MODULUS == 0
  {
  }

  lemma ActKeepsInv(s: State, i: nat, local: Local)
    requires Inv(s) && Enabled(s, Act(i, local))
    ensures Inv(Apply(s, Act(i, local)))
  {
    var o := s.ops[i];
    if local.Recheck? && !s.closed && s.gen == o.gen {
      SameGeneration(o.ch, s.cur);
    }
    assert OpAgrees(s, NextOp(s, o, local));
  }

  lemma SendKeepsInv(s: State, i: nat)
    requires Inv(s) && CanSend(s, i) && |s.chans[s.ops[i].ch].buf| < s.cap
    ensures Inv(ApplySend(s, i))
  {
  }

  lemma TakeKeepsInv(s: State, i: nat)
    requires Inv(s) && CanTake(s, i)
    ensures Inv(ApplyTake(s, i))
  {
  }

  lemma SwapKeepsInv(s: State, i: nat)
    requires Inv(s) && Enabled(s, Swap(i))
    ensures Inv(ApplySwap(s, i))
  {
    NextGeneration(s.cur);
  }

  lemma CloseKeepsInv(s: State)
    requires Inv(s)
    ensures Inv(Apply(s, Close))
  {
    NextGeneration(s.cur);
  }

  lemma HandOffKeepsInv(s: State, i: nat, j: nat)
    requires Inv(s) && Enabled(s, HandOff(i, j))
    ensures Inv(Apply(s, HandOff(i, j)))
  {
  }

  /** Every step keeps the channel and operation invariants. */
  lemma StepKeepsInv(s: State, step: Step)
    requires Inv(s) && Enabled(s, step)
    ensures Inv(Apply(s, step))
  {
    match step
    case Start(_) =>
    case Close => CloseKeepsInv(s);
    case Act(i, local) => ActKeepsInv(s, i, local);
    case Send(i) => SendKeepsInv(s, i);
    case Take(i) => TakeKeepsInv(s, i);
    case HandOff(i, j) => HandOffKeepsInv(s, i, j);
    case Swap(i) => SwapKeepsInv(s, i);
  }

  /** What a push that panicked does next, in every state a run can reach: it
      retries after a clear, reports closed after a Close, and falls through to
      the last return only if 2^64 clears hid the swap from the generation test. */
  lemma RecheckOutcome(s: State, i: nat)
    requires Inv(s) && Enabled(s, Act(i, Recheck))
    ensures Apply(s, Act(i, Recheck)).ops[i]
         == if s.closed || GenerationWrapped(s, s.ops[i].ch)
            then PushDone(s.ops[i].val, PushClosed)
            else PushReady(s.ops[i].val, s.ops[i].blocking)
  {
    assert OpAgrees(s, s.ops[i]);
    SameGeneration(s.ops[i].ch, s.cur);
  }

  // ---------- How calls end ----------

  /** A token reaches operation `i`: from the buffer, or from a push that meets it. */
  predicate Receives(step: Step, i: nat) {
    step == Take(i) || (step.HandOff? && step.j == i)
  }

  predicate Sends(step: Step, i: nat) {
    step == Send(i) || (step.HandOff? && step.i == i)
  }

  predicate PopBegun(o: Op) {
    o.PopReady? || o.PopSnapped?
  }

  predicate PushBegun(o: Op) {
    o.PushReady? || o.PushSnapped? || o.PushPanicked?
  }

  /** Pop `o`, of number `i`, ends with `popped` by one step.  Without a token it ends as closed
      exactly if the queue was closed when it began, or its channel was closed and drained; unless
      the timer or the context of a blocking one fired, which is then its end.  Only a
      non-blocking one ends as empty, on an open empty channel. */
  ghost predicate PopEnding(s: State, step: Step, i: nat, o: Op, popped: PopResult)
    requires PopBegun(o) && (o.PopSnapped? ==> o.ch < |s.chans|)
  {
    var fired := o.PopSnapped? && !o.nonBlocking && step == Act(i, PopGivesUp);
    var drained := o.PopSnapped? && s.chans[o.ch].buf == [];
    match popped
    case Got(_) => Receives(step, i)
    case PopGaveUp => fired
    case PopEmpty => drained && o.nonBlocking && s.chans[o.ch].open && !Receives(step, i)
    case PopClosed => !fired && !Receives(step, i) && if o.PopReady? then s.closed else drained && !s.chans[o.ch].open
  }

  lemma PopEnds(s: State, step: Step, i: nat)
    requires Inv(s) && Enabled(s, step) && i < |s.ops| && PopBegun(s.ops[i]) && Apply(s, step).ops[i].PopDone?
    ensures OpAgrees(s, s.ops[i]) && PopEnding(s, step, i, s.ops[i], Apply(s, step).ops[i].popped)
  {
    assert OpAgrees(s, s.ops[i]);
  }

  /** Push `o` ends as `o'`: as done exactly when its value was sent, as given up exactly when its
      timer or context fired, as closed when it found the queue closed or 2^64 clears hid one. */
  ghost predicate PushEnding(s: State, step: Step, i: nat, o: Op, o': Op)
    requires PushBegun(o) && o'.PushDone? && (!o.PushReady? ==> o.ch < |s.chans|)
  {
    && o'.val == o.val
    && match o'.pushed
       case Pushed(ch) => Sends(step, i) && o.PushSnapped? && ch == o.ch && s.chans[ch].open
       case PushGaveUp => step == Act(i, SendGivesUp) || (o.blocking && step == Act(i, CtxErrAfterPanic))
       case PushClosed =>
         if o.PushReady? then s.closed else step == Act(i, Recheck) && (s.closed || GenerationWrapped(s, o.ch))
  }

  lemma PushEnds(s: State, step: Step, i: nat)
    requires Inv(s) && Enabled(s, step) && i < |s.ops| && PushBegun(s.ops[i]) && Apply(s, step).ops[i].PushDone?
    ensures OpAgrees(s, s.ops[i]) && PushEnding(s, step, i, s.ops[i], Apply(s, step).ops[i])
  {
    assert OpAgrees(s, s.ops[i]);
    if step == Act(i, Recheck) { RecheckOutcome(s, i); }
  }

  /** How a clear can end: refused exactly on a closed queue, else with its channel drained. */
  lemma ClearEnds(s: State, step: Step, i: nat)
    requires Inv(s) && Enabled(s, step) && i < |s.ops| && (s.ops[i].ClearReady? || s.ops[i].Draining?)
    requires Apply(s, step).ops[i] != s.ops[i]
    ensures var o, o' := s.ops[i], Apply(s, step).ops[i];
            if o.ClearReady? then
              if s.closed then o' == ClearRefused else o' == Draining(s.cur, []) && Apply(s, step).cur != s.cur
            else if Receives(step, i) then o' == Draining(o.ch, o.drained + [s.chans[o.ch].buf[0]])
            else o' == ClearDone(o.ch, o.drained) && s.chans[o.ch].buf == []
  {
    assert OpAgrees(s, s.ops[i]);
  }

  /** What one step makes of a push or pop that does not end by it: it takes the current channel and
      generation of an open queue, finds its channel closed, or begins again after a clear. */
  lemma CallGoesOn(s: State, step: Step, i: nat)
    requires Inv(s) && Enabled(s, step) && i < |s.ops| && Apply(s, step).ops[i] != s.ops[i]
    ensures var o, o' := s.ops[i], Apply(s, step).ops[i];
            match o'
            case PushSnapped(v, b, ch, gen) => o == PushReady(v, b) && !s.closed && ch == s.cur && gen == s.gen
            case PushPanicked(v, b, ch, gen) => o == PushSnapped(v, b, ch, gen) && !s.chans[ch].open
            case PushReady(v, b) => o == PushPanicked(v, b, o.ch, o.gen) && !s.closed && o.ch < s.cur
            case PopSnapped(n, ch) => o == PopReady(n) && !s.closed && ch == s.cur
            case _ => o'.PushDone? || o'.PopDone? || o.ClearReady? || o.Draining?
  {
    assert OpAgrees(s, s.ops[i]);
    if step == Act(i, Recheck) { RecheckOutcome(s, i); }
  }

  /** What the calls can do, exactly: a send needs an open channel with room, a receive a value, and a
      closed channel lets a waiting call go. */
  lemma CallsCanMove(s: State, i: nat)
    requires Inv(s) && i < |s.ops|
    ensures var o := s.ops[i];
            && OpAgrees(s, o)
            && (Enabled(s, Act(i, Snapshot)) <==> o.PushReady? || o.PopReady?)
            && (o.PushSnapped? ==>
                  && (Enabled(s, Send(i)) <==> s.chans[o.ch].open && |s.chans[o.ch].buf| < s.cap)
                  && (Enabled(s, Act(i, SendPanics)) <==> !s.chans[o.ch].open)
                  && Enabled(s, Act(i, SendGivesUp)))
            && (forall j :: 0 <= j < |s.ops| ==> (Enabled(s, HandOff(i, j)) <==>
                  o.PushSnapped? && s.ops[j].PopSnapped? && s.ops[j].ch == o.ch && s.chans[o.ch].open && s.chans[o.ch].buf == []))
            && (o.PushPanicked? ==> Enabled(s, Act(i, Recheck)) && (Enabled(s, Act(i, CtxErrAfterPanic)) <==> o.blocking))
            && (o.PopSnapped? || o.Draining? ==> (Enabled(s, Take(i)) <==> s.chans[o.ch].buf != []))
            && (o.PopSnapped? ==>
                  && (Enabled(s, Act(i, ReceiveClosed)) <==> s.chans[o.ch].buf == [] && !s.chans[o.ch].open)
                  && (Enabled(s, Act(i, PopGivesUp)) <==> !o.nonBlocking || (s.chans[o.ch].buf == [] && s.chans[o.ch].open)))
            && (o.ClearReady? ==> (Enabled(s, Swap(i)) <==> !s.closed) && (Enabled(s, Act(i, SwapRefused)) <==> s.closed))
            && (o.Draining? ==> (Enabled(s, Act(i, DrainEnd)) <==> s.chans[o.ch].buf == []))
  {
    assert OpAgrees(s, s.ops[i]);
  }

  /** Closing a channel twice panics; closing an open one does not. */
  lemma SecondClosePanics(s: State, c: nat)
    requires c < |s.chans|
    ensures CloseChan(CloseChan(s, c), c).panicked
    ensures s.chans[c].open ==> CloseChan(s, c).panicked == s.panicked && !CloseChan(s, c).chans[c].open
  {
  }

  lemma {:induction false} PrefixRun(s: State, steps: seq<Step>, n: nat)
    requires IsRun(s, steps) && n < |steps|
    ensures IsRun(s, steps[..n]) && Enabled(Exec(s, steps[..n]), steps[n])
    ensures IsRun(s, steps[..n + 1]) && Exec(s, steps[..n + 1]) == Apply(Exec(s, steps[..n]), steps[n])
    decreases n
  {
    if n > 0 {
      PrefixRun(Apply(s, steps[0]), steps[1..], n - 1);
      assert steps[..n][1..] == steps[1..][..n - 1] && steps[..n + 1][1..] == steps[1..][..n];
    } else {
      assert steps[..1][1..] == [];
    }
  }

  /** In every run from a new queue each call ends as it must, and a call that has ended stays as it is. */
  lemma CallsEnd(cap: nat, steps: seq<Step>, n: nat, i: nat)
    requires IsRun(NewQueue(cap), steps) && n < |steps|
    ensures IsRun(NewQueue(cap), steps[..n]) && IsRun(NewQueue(cap), steps[..n + 1])
    ensures var s, s' := Exec(NewQueue(cap), steps[..n]), Exec(NewQueue(cap), steps[..n + 1]);
            |s.ops| <= |s'.ops| && (i < |s.ops| ==>
              var o, o' := s.ops[i], s'.ops[i];
              && OpAgrees(s, o)
              && (PopBegun(o) ==> PopBegun(o') || (o'.PopDone? && PopEnding(s, steps[n], i, o, o'.popped)))
              && (PushBegun(o) ==> PushBegun(o') || (o'.PushDone? && PushEnding(s, steps[n], i, o, o')))
              && (o.PopDone? || o.PushDone? || o.ClearDone? || o.ClearRefused? ==> o' == o))
  {
    PrefixRun(NewQueue(cap), steps, n);
    var s := Exec(NewQueue(cap), steps[..n]);
    NewQueueIsSafe(cap);
    RunSafety(NewQueue(cap), steps[..n]);
    CallsKeepKind(s, steps[n]);
    if i < |s.ops| {
      assert OpAgrees(s, s.ops[i]);
      if PopBegun(s.ops[i]) && Apply(s, steps[n]).ops[i].PopDone? { PopEnds(s, steps[n], i); }
      if PushBegun(s.ops[i]) && Apply(s, steps[n]).ops[i].PushDone? { PushEnds(s, steps[n], i); }
    }
  }

  lemma CallsKeepKind(s: State, step: Step)
    requires Inv(s) && Enabled(s, step)
    ensures |s.ops| <= |Apply(s, step).ops|
    ensures forall i :: 0 <= i < |s.ops| ==>
              var o, o' := s.ops[i], Apply(s, step).ops[i];
              && (PopBegun(o) ==> PopBegun(o') || o'.PopDone?)
              && (PushBegun(o) ==> PushBegun(o') || o'.PushDone?)
              && (o.PopDone? || o.PushDone? || o.ClearDone? || o.ClearRefused? ==> o' == o)
  {
  }

  // ---------- Where the pushed values are ----------

  function Occurrences(ts: seq<Token>, t: Token): nat {
    if ts == [] then 0
    else Occurrences(ts[..|ts| - 1], t) + if ts[|ts| - 1] == t then 1 else 0
  }

  /** What an operation has handed to its caller. */
  function Results(o: Op): seq<Token> {
    match o
    case PopDone(_, Got(t)) => [t]
    case Draining(_, d) => d
    case ClearDone(_, d) => d
    case _ => []
  }

  function InBuffers(chans: seq<Chan>, t: Token): nat {
    if chans == [] then 0
    else InBuffers(chans[..|chans| - 1], t) + Occurrences(chans[|chans| - 1].buf, t)
  }

  function InResults(ops: seq<Op>, t: Token): nat {
    if ops == [] then 0
    else InResults(ops[..|ops| - 1], t) + Occurrences(Results(ops[|ops| - 1]), t)
  }

  predicate PushSucceeded(s: State, t: Token) {
    t.op < |s.ops| && s.ops[t.op].PushDone? && s.ops[t.op].val == t.val && s.ops[t.op].pushed.Pushed?
  }

  /** In how many places of the whole system a token is. */
  function Places(s: State, t: Token): nat {
    InBuffers(s.chans, t) + InResults(s.ops, t)
  }

  lemma {:induction false} InBuffersUpdate(chans: seq<Chan>, c: nat, ch: Chan, t: Token)
    requires c < |chans|
    ensures InBuffers(chans[c := ch], t)
         == InBuffers(chans, t) - Occurrences(chans[c].buf, t) + Occurrences(ch.buf, t)
  {
    var n := |chans| - 1;
    if c == n {
      assert chans[c := ch][..n] == chans[..n];
    } else {
      assert chans[c := ch][..n] == chans[..n][c := ch];
      InBuffersUpdate(chans[..n], c, ch, t);
    }
  }

  lemma {:induction false} InResultsUpdate(ops: seq<Op>, i: nat, o: Op, t: Token)
    requires i < |ops|
    ensures InResults(ops[i := o], t)
         == InResults(ops, t) - Occurrences(Results(ops[i]), t) + Occurrences(Results(o), t)
  {
    var n := |ops| - 1;
    if i == n {
      assert ops[i := o][..n] == ops[..n];
    } else {
      assert ops[i := o][..n] == ops[..n][i := o];
      InResultsUpdate(ops[..n], i, o, t);
    }
  }

  lemma AppendPlaces(s: State, o: Op, c: Chan, t: Token)
    requires Results(o) == [] && c.buf == []
    ensures InResults(s.ops + [o], t) == InResults(s.ops, t)
    ensures InBuffers(s.chans + [c], t) == InBuffers(s.chans, t)
  {
    AppendOp(s.ops, o, t);
    AppendChan(s.chans, c, t);
  }

  lemma AppendOp(ops: seq<Op>, o: Op, t: Token)
    requires Results(o) == []
    ensures InResults(ops + [o], t) == InResults(ops, t)
  {
    assert (ops + [o])[..|ops|] == ops;
  }

  lemma AppendChan(chans: seq<Chan>, c: Chan, t: Token)
    requires c.buf == []
    ensures InBuffers(chans + [c], t) == InBuffers(chans, t)
  {
    assert (chans + [c])[..|chans|] == chans;
  }

  lemma AppendOccurrences(ts: seq<Token>, x: Token, t: Token)
    ensures Occurrences(ts + [x], t) == Occurrences(ts, t) + if x == t then 1 else 0
  {
    assert (ts + [x])[..|ts|] == ts;
  }

  lemma {:induction false} TailOccurrences(ts: seq<Token>, t: Token)
    requires ts != []
    ensures Occurrences(ts, t) == Occurrences(ts[1..], t) + if ts[0] == t then 1 else 0
  {
    var n := |ts| - 1;
    if n > 0 {
      TailOccurrences(ts[..n], t);
      assert ts[1..][..n - 1] == ts[..n][1..];
    }
  }

  lemma AfterTakeOccurrences(o: Op, tok: Token, t: Token)
    requires o.PopSnapped? || o.Draining?
    ensures Occurrences(Results(AfterTake(o, tok)), t)
         == Occurrences(Results(o), t) + if tok == t then 1 else 0
  {
    AppendOccurrences(Results(o), tok, t);
    assert Results(AfterTake(o, tok)) == Results(o) + [tok];
  }

  lemma ActReturnsNothing(s: State, o: Op, local: Local)
    requires LocalEnabled(s, o, local)
    ensures Results(NextOp(s, o, local)) == Results(o)
    ensures forall c :: ResultsFrom(NextOp(s, o, local), c) == ResultsFrom(o, c)
    ensures !o.PushDone?
    ensures NextOp(s, o, local).PushDone? ==> !NextOp(s, o, local).pushed.Pushed?
  {
  }

  ghost predicate Conserved(s: State, t: Token) {
    Places(s, t) == if PushSucceeded(s, t) then 1 else 0
  }

  lemma ActConserves(s: State, i: nat, local: Local, t: Token)
    requires Enabled(s, Act(i, local)) && Conserved(s, t)
    ensures Conserved(Apply(s, Act(i, local)), t)
  {
    ActReturnsNothing(s, s.ops[i], local);
    InResultsUpdate(s.ops, i, NextOp(s, s.ops[i], local), t);
  }

  lemma SendConserves(s: State, i: nat, t: Token)
    requires CanSend(s, i) && Conserved(s, t)
    ensures Conserved(ApplySend(s, i), t)
  {
    var o := s.ops[i];
    var tok := Token(i, o.val);
    AppendOccurrences(s.chans[o.ch].buf, tok, t);
    InBuffersUpdate(s.chans, o.ch, SendTo(s.chans[o.ch], tok), t);
    InResultsUpdate(s.ops, i, PushDone(o.val, Pushed(o.ch)), t);
  }

  lemma TakeConserves(s: State, i: nat, t: Token)
    requires CanTake(s, i) && Conserved(s, t)
    ensures Conserved(ApplyTake(s, i), t)
  {
    TakeFromBuffers(s, i, t);
    TakeIntoResults(s, i, t);
  }

  lemma TakeFromBuffers(s: State, i: nat, t: Token)
    requires CanTake(s, i)
    ensures var head := s.chans[s.ops[i].ch].buf[0];
            InBuffers(ApplyTake(s, i).chans, t) == InBuffers(s.chans, t) - if head == t then 1 else 0
  {
    var c := s.chans[s.ops[i].ch];
    TailOccurrences(c.buf, t);
    InBuffersUpdate(s.chans, s.ops[i].ch, TakeFrom(c, i), t);
  }

  lemma TakeIntoResults(s: State, i: nat, t: Token)
    requires CanTake(s, i)
    ensures var head := s.chans[s.ops[i].ch].buf[0];
            InResults(ApplyTake(s, i).ops, t) == InResults(s.ops, t) + if head == t then 1 else 0
  {
    var o, head := s.ops[i], s.chans[s.ops[i].ch].buf[0];
    AfterTakeOccurrences(o, head, t);
    InResultsUpdate(s.ops, i, AfterTake(o, head), t);
  }

  lemma CloseConserves(s: State, c: nat, t: Token)
    requires c < |s.chans| && Conserved(s, t)
    ensures Conserved(CloseChan(s, c), t)
  {
    InBuffersUpdate(s.chans, c, s.chans[c].(open := false), t);
  }

  lemma SwapConserves(s: State, i: nat, t: Token)
    requires Enabled(s, Swap(i)) && Conserved(s, t)
    ensures Conserved(ApplySwap(s, i), t)
  {
    var closed := CloseChan(s, s.cur);
    CloseConserves(s, s.cur, t);
    AppendPlaces(closed, ClearReady, NewChan(), t);
    InResultsUpdate(s.ops, i, Draining(s.cur, []), t);
  }

  lemma StartConserves(s: State, call: Call, t: Token)
    requires Conserved(s, t)
    ensures Conserved(Apply(s, Start(call)), t)
  {
    AppendPlaces(s, StartOp(call), NewChan(), t);
  }

  lemma CloseQueueConserves(s: State, t: Token)
    requires Enabled(s, Close) && Conserved(s, t)
    ensures Conserved(Apply(s, Close), t)
  {
    CloseConserves(s, s.cur, t);
  }

  lemma HandOffConserves(s: State, i: nat, j: nat, t: Token)
    requires Enabled(s, HandOff(i, j)) && Conserved(s, t)
    ensures Conserved(Apply(s, HandOff(i, j)), t)
  {
    SendConserves(s, i, t);
    TakeConserves(ApplySend(s, i), j, t);
  }

  /** Conservation, one step: a token is in exactly one place once its push has
      returned nil, and nowhere before that or when the push failed. */
  lemma StepConserves(s: State, step: Step, t: Token)
    requires Enabled(s, step) && Conserved(s, t)
    ensures Conserved(Apply(s, step), t)
  {
    match step
    case Start(call) => StartConserves(s, call, t);
    case Close => CloseQueueConserves(s, t);
    case Act(i, local) => ActConserves(s, i, local, t);
    case Send(i) => SendConserves(s, i, t);
    case Take(i) => TakeConserves(s, i, t);
    case HandOff(i, j) => HandOffConserves(s, i, j, t);
    case Swap(i) => SwapConserves(s, i, t);
  }

  // ---------- Order of delivery ----------

  function Tokens(rs: seq<Receipt>): seq<Token> {
    if rs == [] then [] else Tokens(rs[..|rs| - 1]) + [rs[|rs| - 1].tok]
  }

  /** The tokens one operation received, in the order of the receives. */
  function ReceivedBy(rs: seq<Receipt>, who: nat): seq<Token> {
    if rs == [] then []
    else
      var r := rs[|rs| - 1];
      ReceivedBy(rs[..|rs| - 1], who) + if r.who == who then [r.tok] else []
  }

  function ResultsFrom(o: Op, c: nat): seq<Token> {
    if (o.PopDone? || o.Draining? || o.ClearDone?) && o.ch == c then Results(o) else []
  }

  ghost predicate Fifo(c: Chan) {
    c.sent == Tokens(c.taken) + c.buf
  }

  ghost predicate ReceiptsAgree(s: State, c: Chan, n: nat) {
    && (forall i :: 0 <= i < |s.ops| ==> ReceivedBy(c.taken, i) == ResultsFrom(s.ops[i], n))
    && (forall k :: 0 <= k < |c.taken| ==> c.taken[k].who < |s.ops|)
  }

  /** Each channel is first in, first out, and what an operation returns is what
      it received, in that order. */
  ghost predicate InOrder(s: State) {
    forall c :: 0 <= c < |s.chans| ==> Fifo(s.chans[c]) && ReceiptsAgree(s, s.chans[c], c)
  }

  lemma {:induction false} NotReceived(rs: seq<Receipt>, n: nat)
    requires forall k :: 0 <= k < |rs| ==> rs[k].who < n
    ensures ReceivedBy(rs, n) == []
  {
    if rs != [] {
      NotReceived(rs[..|rs| - 1], n);
    }
  }

  lemma TakeReceipt(c: Chan, who: nat)
    requires c.buf != [] && Fifo(c)
    ensures Fifo(TakeFrom(c, who))
    ensures forall i :: ReceivedBy(TakeFrom(c, who).taken, i)
                     == ReceivedBy(c.taken, i) + if i == who then [c.buf[0]] else []
  {
    var r := Receipt(c.buf[0], who);
    assert (c.taken + [r])[..|c.taken|] == c.taken;
    assert c.buf == [c.buf[0]] + c.buf[1..];
  }

  lemma ActKeepsOrder(s: State, i: nat, local: Local)
    requires InOrder(s) && Enabled(s, Act(i, local))
    ensures InOrder(Apply(s, Act(i, local)))
  {
    ActReturnsNothing(s, s.ops[i], local);
  }

  /** An operation moves on without receiving anything from the channel. */
  lemma NoReceipt(s: State, s': State, c: Chan, c': Chan, n: nat, i: nat)
    requires i < |s.ops| && ReceiptsAgree(s, c, n) && c'.taken == c.taken
    requires |s'.ops| == |s.ops| && s'.ops == s.ops[i := s'.ops[i]]
    requires ResultsFrom(s'.ops[i], n) == ResultsFrom(s.ops[i], n)
    ensures ReceiptsAgree(s', c', n)
  {
    forall k | 0 <= k < |s'.ops| ensures ReceivedBy(c'.taken, k) == ResultsFrom(s'.ops[k], n) {
      assert ReceivedBy(c.taken, k) == ResultsFrom(s.ops[k], n);
    }
  }

  /** An operation receives the head of the channel. */
  lemma OneReceipt(s: State, s': State, c: Chan, n: nat, i: nat)
    requires i < |s.ops| && ReceiptsAgree(s, c, n) && Fifo(c) && c.buf != []
    requires |s'.ops| == |s.ops| && s'.ops == s.ops[i := s'.ops[i]]
    requires ResultsFrom(s'.ops[i], n) == ResultsFrom(s.ops[i], n) + [c.buf[0]]
    ensures Fifo(TakeFrom(c, i)) && ReceiptsAgree(s', TakeFrom(c, i), n)
  {
    TakeReceipt(c, i);
    forall k | 0 <= k < |s'.ops| ensures ReceivedBy(TakeFrom(c, i).taken, k) == ResultsFrom(s'.ops[k], n) {
      assert ReceivedBy(c.taken, k) == ResultsFrom(s.ops[k], n);
    }
  }

  lemma TakeKeepsOrder(s: State, i: nat)
    requires InOrder(s) && CanTake(s, i)
    ensures InOrder(ApplyTake(s, i))
  {
    var s', ch := ApplyTake(s, i), s.ops[i].ch;
    forall c | 0 <= c < |s'.chans|
      ensures Fifo(s'.chans[c]) && ReceiptsAgree(s', s'.chans[c], c)
    {
      if c == ch {
        OneReceipt(s, s', s.chans[c], c, i);
      } else {
        NoReceipt(s, s', s.chans[c], s'.chans[c], c, i);
      }
    }
  }

  lemma SendKeepsOrder(s: State, i: nat)
    requires InOrder(s) && CanSend(s, i)
    ensures InOrder(ApplySend(s, i))
  {
    var s' := ApplySend(s, i);
    forall c | 0 <= c < |s'.chans|
      ensures Fifo(s'.chans[c]) && ReceiptsAgree(s', s'.chans[c], c)
    {
      assert Fifo(s.chans[c]);
      NoReceipt(s, s', s.chans[c], s'.chans[c], c, i);
    }
  }

  lemma NothingFromLaterChannels(s: State)
    requires OpsAgree(s)
    ensures forall k :: 0 <= k < |s.ops| ==> ResultsFrom(s.ops[k], |s.chans|) == []
  {
    forall k | 0 <= k < |s.ops|
      ensures ResultsFrom(s.ops[k], |s.chans|) == []
    {
      assert OpAgrees(s, s.ops[k]);
    }
  }

  lemma SwapKeepsOrder(s: State, i: nat)
    requires Inv(s) && InOrder(s) && Enabled(s, Swap(i))
    ensures InOrder(ApplySwap(s, i))
  {
    var s' := ApplySwap(s, i);
    NothingFromLaterChannels(s);
    assert forall c :: ResultsFrom(Draining(s.cur, []), c) == ResultsFrom(s.ops[i], c);
    forall c | 0 <= c < |s'.chans|
      ensures Fifo(s'.chans[c]) && ReceiptsAgree(s', s'.chans[c], c)
    {
      if c < |s.chans| {
        assert Fifo(s.chans[c]) && ReceiptsAgree(s, s.chans[c], c);
        assert s'.chans[c].taken == s.chans[c].taken;
      } else {
        assert s'.chans[c] == NewChan();
      }
    }
  }

  /** First in, first out, one step. */
  lemma StepKeepsOrder(s: State, step: Step)
    requires Inv(s) && InOrder(s) && Enabled(s, step)
    ensures InOrder(Apply(s, step))
  {
    match step
    case Start(_) => NewOpReceivedNothing(s);
    case Close =>
    case Act(i, local) => ActKeepsOrder(s, i, local);
    case Send(i) => SendKeepsOrder(s, i);
    case Take(i) => TakeKeepsOrder(s, i);
    case HandOff(i, j) =>
      SendKeepsOrder(s, i);
      TakeKeepsOrder(ApplySend(s, i), j);
    case Swap(i) => SwapKeepsOrder(s, i);
  }

  lemma NewOpReceivedNothing(s: State)
    requires InOrder(s)
    ensures forall c :: 0 <= c < |s.chans| ==> ReceivedBy(s.chans[c].taken, |s.ops|) == []
  {
    forall c | 0 <= c < |s.chans|
      ensures ReceivedBy(s.chans[c].taken, |s.ops|) == []
    {
      NotReceived(s.chans[c].taken, |s.ops|);
    }
  }

  // ---------- Whole runs ----------

  /** Over every run from a new queue: a channel is open exactly while it is the
      current one of an open queue, no channel is closed twice, buffers respect
      the capacity, a push reports "closed" only if Close ran (or 2^64 clears
      passed), and every channel is consumed in send order. */
  lemma {:induction false} RunSafety(s: State, steps: seq<Step>)
    requires IsRun(s, steps) && Inv(s) && InOrder(s)
    ensures Inv(Exec(s, steps)) && InOrder(Exec(s, steps))
    decreases |steps|
  {
    if steps != [] {
      StepKeepsInv(s, steps[0]);
      StepKeepsOrder(s, steps[0]);
      RunSafety(Apply(s, steps[0]), steps[1..]);
    }
  }

  lemma NewQueueIsSafe(cap: nat)
    ensures Inv(NewQueue(cap)) && InOrder(NewQueue(cap))
  {
  }

  lemma {:induction false} RunConserves(s: State, steps: seq<Step>, t: Token)
    requires IsRun(s, steps) && Conserved(s, t)
    ensures Conserved(Exec(s, steps), t)
    decreases |steps|
  {
    if steps != [] {
      StepConserves(s, steps[0], t);
      RunConserves(Apply(s, steps[0]), steps[1..], t);
    }
  }

  /** Over every interleaving, each value whose push returned nil is in exactly
      one place - one buffer slot, one Pop result or one drain - and a value
      whose push has not returned nil is nowhere, however often it was retried. */
  lemma EveryValueInOnePlace(cap: nat, steps: seq<Step>, t: Token)
    requires IsRun(NewQueue(cap), steps)
    ensures var s := Exec(NewQueue(cap), steps);
            Places(s, t) == if PushSucceeded(s, t) then 1 else 0
  {
    assert InBuffers([NewChan()], t) == 0;
    RunConserves(NewQueue(cap), steps, t);
  }

  /** Over every interleaving with fewer than 2^64 clears, ErrQueueClosed from a
      push means the queue is closed. */
  lemma PushClosedMeansClosed(cap: nat, steps: seq<Step>, i: nat)
    requires IsRun(NewQueue(cap), steps)
    requires i < |Exec(NewQueue(cap), steps).ops|
    requires Exec(NewQueue(cap), steps).cur < GEN_MODULUS
    ensures var s := Exec(NewQueue(cap), steps);
            s.ops[i].PushDone? && s.ops[i].pushed.PushClosed? ==> s.closed
  {
    NewQueueIsSafe(cap);
    RunSafety(NewQueue(cap), steps);
    assert OpAgrees(Exec(NewQueue(cap), steps), Exec(NewQueue(cap), steps).ops[i]);
  }

  // ---------- The generation counter wraps ----------

  lemma {:induction false} ExtendRun(s: State, steps: seq<Step>, step: Step)
    requires IsRun(s, steps) && Enabled(Exec(s, steps), step)
    ensures IsRun(s, steps + [step])
    ensures Exec(s, steps + [step]) == Apply(Exec(s, steps), step)
    decreases |steps|
  {
    if steps == [] {
      assert [step][1..] == [];
    } else {
      assert (steps + [step])[1..] == steps[1..] + [step];
      ExtendRun(Apply(s, steps[0]), steps[1..], step);
    }
  }

  lemma {:induction false} JoinRuns(s: State, a: seq<Step>, b: seq<Step>)
    requires IsRun(s, a) && IsRun(Exec(s, a), b)
    ensures IsRun(s, a + b) && Exec(s, a + b) == Exec(Exec(s, a), b)
    decreases |a|
  {
    if a == [] {
      assert a + b == b;
    } else {
      assert (a + b)[1..] == a[1..] + b;
      JoinRuns(Apply(s, a[0]), a[1..], b);
    }
  }

  /** A push that took its snapshot before any number of clears. */
  lemma {:induction false} SleepingPush(v: Val, n: nat) returns (steps: seq<Step>)
    ensures IsRun(NewQueue(0), steps)
    ensures var s := Exec(NewQueue(0), steps);
            && Inv(s) && s.cur == n && !s.closed
            && |s.ops| > 0 && s.ops[0] == PushSnapped(v, false, 0, 0)
  {
    var q := NewQueue(0);
    if n == 0 {
      ExtendRun(q, [], Start(CallPush(v, false)));
      steps := [] + [Start(CallPush(v, false))];
      ExtendRun(q, steps, Act(0, Snapshot));
      steps := steps + [Act(0, Snapshot)];
    } else {
      steps := SleepingPush(v, n - 1);
      var k := |Exec(q, steps).ops|;
      ExtendRun(q, steps, Start(CallClear));
      steps := steps + [Start(CallClear)];
      ExtendRun(q, steps, Swap(k));
      steps := steps + [Swap(k)];
    }
    NewQueueIsSafe(0);
    RunSafety(q, steps);
  }

  /** The fall-through return is reachable: after 2^64 clears a sleeping push
      reports "closed" on a queue that was never closed. */
  lemma WrappedPushReportsClosed(v: Val) returns (steps: seq<Step>)
    ensures IsRun(NewQueue(0), steps)
    ensures var s := Exec(NewQueue(0), steps);
            !s.closed && |s.ops| > 0 && s.ops[0] == PushDone(v, PushClosed)
  {
    var q := NewQueue(0);
    steps := SleepingPush(v, GEN_MODULUS);
    ExtendRun(q, steps, Act(0, SendPanics));
    steps := steps + [Act(0, SendPanics)];
    ExtendRun(q, steps, Act(0, Recheck));
    steps := steps + [Act(0, Recheck)];
  }

  /** The range loop over channel `ch` has received `drained` so far. */
  ghost predicate DrainedSoFar(start: State, steps: seq<Step>, s: State, i: nat, ch: nat, drained: seq<Token>) {
    && IsRun(start, steps) && s == Exec(start, steps)
    && ch < |s.chans| == |start.chans| && !s.chans[ch].open
    && (forall c :: 0 <= c < |s.chans| && c != ch ==> s.chans[c] == start.chans[c])
    && i < |s.ops| && s.ops[i] == Draining(ch, drained)
    && drained + s.chans[ch].buf == start.chans[ch].buf
  }

  lemma DrainOne(start: State, steps: seq<Step>, s: State, i: nat, ch: nat, drained: seq<Token>)
    requires DrainedSoFar(start, steps, s, i, ch, drained) && s.chans[ch].buf != []
    ensures CanTake(s, i)
    ensures DrainedSoFar(start, steps + [Take(i)], ApplyTake(s, i), i, ch, drained + [s.chans[ch].buf[0]])
  {
    var buf := s.chans[ch].buf;
    ExtendRun(start, steps, Take(i));
    assert (drained + [buf[0]]) + buf[1..] == drained + buf;
  }

  // ---------- The code, run without interference ----------

  /** The queue object.  Each method follows the source text; `ops` and
      `panicked` are the protocol's view of the calls made so far.  Every call is
      shown to be a run of the protocol. */
  class Queue {
    const cap: nat
    var chans: seq<Chan>
    var cur: nat
    var closed: bool
    var gen: nat
    var ops: seq<Op>
    var panicked: bool

    function Model(): State
      reads this
    {
      State(cap, chans, cur, closed, gen, ops, panicked)
    }

    constructor (cap: nat)
      ensures Model() == NewQueue(cap)
    {
      this.cap := cap;
      chans, cur, closed, gen := [NewChan()], 0, false, 0;
      ops, panicked := [], false;
    }

    /** PushWithTimeout: fails at once when closed, times out when the buffer
        stays full, and otherwise appends the value to the buffer. */
    method PushWithTimeout(val: Val) returns (result: PushResult, ghost steps: seq<Step>)
      requires Inv(Model())
      modifies this
      ensures Inv(Model()) && IsRun(old(Model()), steps) && Model() == Exec(old(Model()), steps)
      ensures ops == old(ops) + [PushDone(val, result)]
      ensures result == if old(closed) then PushClosed
                        else if |old(chans[cur].buf)| < cap then Pushed(old(cur)) else PushGaveUp
      ensures chans == if result.Pushed?
                       then old(chans)[old(cur) := SendTo(old(chans)[old(cur)], Token(|old(ops)|, val))]
                       else old(chans)
    {
      ghost var start := Model();
      var i := |ops|;
      ops := ops + [PushReady(val, false)];
      ExtendRun(start, [], Start(CallPush(val, false)));
      steps := [] + [Start(CallPush(val, false))];
      ExtendRun(start, steps, Act(i, Snapshot));
      steps := steps + [Act(i, Snapshot)];
      if closed {
        result := PushClosed;
        ops := ops[i := PushDone(val, PushClosed)];
      } else {
        var ch, g := cur, gen;
        ops := ops[i := PushSnapped(val, false, ch, g)];
        if |chans[ch].buf| < cap {
          ExtendRun(start, steps, Send(i));
          steps := steps + [Send(i)];
          chans := chans[ch := SendTo(chans[ch], Token(i, val))];
          result := Pushed(ch);
        } else {
          ExtendRun(start, steps, Act(i, SendGivesUp));
          steps := steps + [Act(i, SendGivesUp)];
          result := PushGaveUp;
        }
        ops := ops[i := PushDone(val, result)];
      }
      RunSafetyInv(start, steps);
    }

    /** Non-blocking Pop: the oldest buffered value, or an error. */
    method PopNow() returns (result: PopResult, ghost steps: seq<Step>)
      requires Inv(Model())
      modifies this
      ensures Inv(Model()) && IsRun(old(Model()), steps) && Model() == Exec(old(Model()), steps)
      ensures result == if old(closed) then PopClosed
                        else if old(chans[cur].buf) == [] then PopEmpty
                        else Got(old(chans[cur].buf)[0])
      ensures chans == if result.Got?
                       then old(chans)[old(cur) := TakeFrom(old(chans)[old(cur)], |old(ops)|)]
                       else old(chans)
    {
      ghost var start := Model();
      var i := |ops|;
      ops := ops + [PopReady(true)];
      ExtendRun(start, [], Start(CallPop(true)));
      steps := [] + [Start(CallPop(true))];
      ExtendRun(start, steps, Act(i, Snapshot));
      steps := steps + [Act(i, Snapshot)];
      if closed {
        result := PopClosed;
        ops := ops[i := PopDone(cur, PopClosed)];
      } else {
        var ch := cur;
        ops := ops[i := PopSnapped(true, ch)];
        if chans[ch].buf != [] {
          ExtendRun(start, steps, Take(i));
          steps := steps + [Take(i)];
          result := Got(chans[ch].buf[0]);
          chans := chans[ch := TakeFrom(chans[ch], i)];
        } else {
          ExtendRun(start, steps, Act(i, PopGivesUp));
          steps := steps + [Act(i, PopGivesUp)];
          result := PopEmpty;
        }
        ops := ops[i := PopDone(ch, result)];
      }
      RunSafetyInv(start, steps);
    }

    /** ClearAndDrain: nothing on a closed queue; otherwise the whole old buffer,
        in order, and a fresh empty channel in its place. */
    method ClearAndDrain() returns (drained: seq<Token>, ghost steps: seq<Step>)
      requires Inv(Model())
      modifies this
      ensures Inv(Model()) && IsRun(old(Model()), steps) && Model() == Exec(old(Model()), steps)
      ensures drained == if old(closed) then [] else old(chans[cur].buf)
      ensures old(closed) ==> chans == old(chans)
      ensures !old(closed) ==>
        && cur == old(cur) + 1 && chans[cur] == NewChan()
        && !chans[old(cur)].open && chans[old(cur)].buf == []
    {
      ghost var start := Model();
      var i := |ops|;
      ops := ops + [ClearReady];
      ExtendRun(start, [], Start(CallClear));
      steps := [] + [Start(CallClear)];
      if closed {
        ExtendRun(start, steps, Act(i, SwapRefused));
        steps := steps + [Act(i, SwapRefused)];
        ops := ops[i := ClearRefused];
        drained := [];
      } else {
        ghost var rest;
        drained, rest := SwapAndDrain(i);
        JoinRuns(start, steps, rest);
        steps := steps + rest;
      }
      RunSafetyInv(start, steps);
    }

    method SwapAndDrain(i: nat) returns (drained: seq<Token>, ghost steps: seq<Step>)
      requires i < |ops| && ops[i].ClearReady? && !closed && cur + 1 == |chans|
      modifies this
      ensures IsRun(old(Model()), steps) && Model() == Exec(old(Model()), steps)
      ensures drained == old(chans[cur].buf)
      ensures cur == old(cur) + 1 < |chans| && chans[cur] == NewChan()
      ensures !chans[old(cur)].open && chans[old(cur)].buf == []
    {
      ghost var start := Model();
      ExtendRun(start, [], Swap(i));
      var oldCh := cur;
      SwapChannel(i);
      drained, steps := DrainClosed(i);
      JoinRuns(start, [] + [Swap(i)], steps);
      steps := [] + [Swap(i)] + steps;
    }

    method SwapChannel(i: nat)
      requires i < |ops| && cur + 1 == |chans|
      modifies this
      ensures Model() == ApplySwap(old(Model()), i)
    {
      var oldCh := cur;
      var wasOpen := chans[oldCh].open;
      chans, cur, gen := chans + [NewChan()], |chans|, (gen + 1) % GEN_MODULUS;
      chans, panicked := chans[oldCh := chans[oldCh].(open := false)], panicked || !wasOpen;
      ops := ops[i := Draining(oldCh, [])];
    }

    /** The range loop over a closed channel. */
    method DrainClosed(i: nat) returns (drained: seq<Token>, ghost steps: seq<Step>)
      requires i < |ops| && ops[i].Draining? && ops[i].drained == []
      requires ops[i].ch < |chans| && !chans[ops[i].ch].open
      modifies this`chans, this`ops
      ensures IsRun(old(Model()), steps) && Model() == Exec(old(Model()), steps)
      ensures drained == old(chans[ops[i].ch].buf)
      ensures |chans| == |old(chans)| && chans[old(ops[i].ch)].buf == [] && !chans[old(ops[i].ch)].open
      ensures forall c :: 0 <= c < |chans| && c != old(ops[i].ch) ==> chans[c] == old(chans)[c]
    {
      ghost var start := Model();
      var ch := ops[i].ch;
      steps, drained := [], [];
      while chans[ch].buf != []
        invariant DrainedSoFar(start, steps, Model(), i, ch, drained)
        decreases |chans[ch].buf|
      {
        DrainOne(start, steps, Model(), i, ch, drained);
        ghost var next := ApplyTake(Model(), i);
        steps := steps + [Take(i)];
        drained := drained + [chans[ch].buf[0]];
        chans := chans[ch := TakeFrom(chans[ch], i)];
        ops := ops[i := Draining(ch, drained)];
        assert Model() == next;
      }
      ExtendRun(start, steps, Act(i, DrainEnd));
      steps := steps + [Act(i, DrainEnd)];
      ops := ops[i := ClearDone(ch, drained)];
    }

    /** Close: closes the current channel once and for all. */
    method CloseQueue()
      requires Inv(Model())
      modifies this
      ensures Inv(Model()) && Model() == Apply(old(Model()), Close)
      ensures closed && !chans[cur].open && cur == old(cur) && chans[cur].buf == old(chans[cur].buf)
    {
      CloseKeepsInv(Model());
      if !closed {
        closed := true;
        gen := (gen + 1) % GEN_MODULUS;
        chans, panicked := chans[cur := chans[cur].(open := false)], panicked || !chans[cur].open;
      }
    }
  }

  lemma {:induction false} RunSafetyInv(s: State, steps: seq<Step>)
    requires IsRun(s, steps) && Inv(s)
    ensures Inv(Exec(s, steps))
    decreases |steps|
  {
    if steps != [] {
      StepKeepsInv(s, steps[0]);
      RunSafetyInv(Apply(s, steps[0]), steps[1..]);
    }
  }
}

/**
  The native pipeline's watchdog: a timed state machine driven by six calls in any order. The
  clock is read at most once per call, so each call carries its reading. What the two sinks
  receive is kept in `states` and `failures`.
*/
module LiveLifecycle {
  datatype RuntimeState = Starting | Active | Reconnecting | Stopping | Stopped | Failed

  datatype Options = Options(frameTimeout: nat, recoveryDeadline: nat, rebuildAttempts: nat)

  datatype Reason = StateError | RecoveryExhausted

  datatype Life = Life(state: RuntimeState, lastFrame: int, reconnectStarted: int, attempts: nat, started: bool,
                       awaiting: bool, failureEmitted: bool, states: seq<RuntimeState>, failures: seq<Reason>)

  const NEW := Life(Stopped, 0, 0, 0, false, false, false, [], [])

  datatype Call = Start | OnFrame | Poll | RebuildResult(success: bool) | Stop | Close

  function Enter(s: Life, next: RuntimeState): Life { s.(state := next, states := s.states + [next]) }

  function Fail(s: Life, reason: Reason): Life {
    if s.failureEmitted then s
    else Enter(s.(failureEmitted := true), Failed).(failures := s.failures + [reason])
  }

  predicate RunsOut(o: Options, s: Life, now: int) {
    (s.state == Starting || s.state == Active) && now - s.lastFrame > o.frameTimeout
  }

  /** When a poll asks for a new graph. */
  predicate Rebuilds(o: Options, s: Life, now: int) {
    s.started && s.state == Reconnecting && !s.awaiting && now - s.reconnectStarted > o.recoveryDeadline
  }

  predicate FrameCounts(s: Life) {
    s.started && (s.state == Starting || s.state == Reconnecting || s.state == Active)
  }

  predicate ResultCounts(s: Life) { s.state == Reconnecting && s.awaiting }

  function Step(o: Options, s: Life, c: Call, now: int): Life {
    match c
    case Start =>
      if s.started then Fail(s, StateError) else Enter(s.(started := true, lastFrame := now), Starting)
    case OnFrame =>
      if !s.started then Fail(s, StateError)
      else if s.state == Starting || s.state == Reconnecting then Enter(s.(lastFrame := now, awaiting := false), Active)
      else if s.state == Active then s.(lastFrame := now)
      else if s.state != Failed && s.state != Stopped then Fail(s, StateError)
      else s
    case Poll =>
      if !s.started || s.state == Failed || s.state == Stopped then s
      else if RunsOut(o, s, now) then Enter(s.(reconnectStarted := now), Reconnecting)
      else if Rebuilds(o, s, now) then s.(awaiting := true, attempts := s.attempts + 1)
      else s
    case RebuildResult(success) =>
      if !ResultCounts(s) then Fail(s, StateError)
      else if success then s.(awaiting := false, reconnectStarted := now)
      else if s.attempts >= o.rebuildAttempts then Fail(s.(awaiting := false), RecoveryExhausted)
      else s.(awaiting := false, reconnectStarted := now)
    case Stop =>
      if !s.started || s.state == Stopped || s.state == Failed || s.state == Stopping then s else Enter(s, Stopping)
    case Close =>
      if !s.started || s.state == Stopped || s.state == Failed then s
      else Enter(if s.state == Stopping then s else Enter(s, Stopping), Stopped)
  }

  class Lifecycle {
    const options: Options
    var state: RuntimeState
    var lastFrame: int
    var reconnectStarted: int
    var attempts: nat
    var started: bool
    var awaiting: bool
    var failureEmitted: bool
    var states: seq<RuntimeState>
    var failures: seq<Reason>

    ghost function Value(): Life
      reads this
    {
      Life(state, lastFrame, reconnectStarted, attempts, started, awaiting, failureEmitted, states, failures)
    }

    /** Zero options are a construction error in the original. */
    constructor (options: Options)
      requires options.frameTimeout != 0 && options.recoveryDeadline != 0 && options.rebuildAttempts != 0
      ensures Value() == NEW && this.options == options
    {
      this.options := options;
      state, lastFrame, reconnectStarted, attempts := Stopped, 0, 0, 0;
      started, awaiting, failureEmitted, states, failures := false, false, false, [], [];
    }

    method Transition(next: RuntimeState)
      modifies this`state, this`states
      ensures Value() == Enter(old(Value()), next)
    {
      state := next;
      states := states + [next];
    }

    method FailWith(reason: Reason)
      modifies this
      ensures Value() == Fail(old(Value()), reason)
    {
      if failureEmitted { return; }
      failureEmitted := true;
      Transition(Failed);
      failures := failures + [reason];
    }

    method DoStart(now: int)
      modifies this
      ensures Value() == Step(options, old(Value()), Start, now)
    {
      if started {
        FailWith(StateError);
        return;
      }
      started := true;
      lastFrame := now;
      Transition(Starting);
    }

    method DoOnFrame(now: int)
      modifies this
      ensures Value() == Step(options, old(Value()), OnFrame, now)
    {
      if !started {
        FailWith(StateError);
        return;
      }
      if state == Starting || state == Reconnecting {
        lastFrame := now;
        awaiting := false;
        Transition(Active);
        return;
      }
      if state == Active {
        lastFrame := now;
        return;
      }
      if state != Failed && state != Stopped {
        FailWith(StateError);
      }
    }

    method DoPoll(now: int) returns (rebuild: bool)
      modifies this
      ensures Value() == Step(options, old(Value()), Poll, now)
      ensures rebuild == Rebuilds(options, old(Value()), now)
      ensures rebuild <==> attempts == old(attempts) + 1
    {
      if !started || state == Failed || state == Stopped { return false; }
      if (state == Starting || state == Active) && now - lastFrame > options.frameTimeout {
        reconnectStarted := now;
        Transition(Reconnecting);
        return false;
      }
      if state == Reconnecting && !awaiting && now - reconnectStarted > options.recoveryDeadline {
        awaiting := true;
        attempts := attempts + 1;
        return true;
      }
      return false;
    }

    method DoRebuildResult(success: bool, now: int)
      modifies this
      ensures Value() == Step(options, old(Value()), RebuildResult(success), now)
    {
      if state != Reconnecting || !awaiting {
        FailWith(StateError);
        return;
      }
      awaiting := false;
      if success {
        reconnectStarted := now;
        return;
      }
      if attempts >= options.rebuildAttempts {
        FailWith(RecoveryExhausted);
        return;
      }
      reconnectStarted := now;
    }

    method DoStop(now: int)
      modifies this
      ensures Value() == Step(options, old(Value()), Stop, now)
    {
      if !started || state == Stopped || state == Failed { return; }
      if state == Stopping { return; }
      Transition(Stopping);
    }

    method DoClose(now: int)
      modifies this
      ensures Value() == Step(options, old(Value()), Close, now)
    {
      if !started || state == Stopped || state == Failed { return; }
      if state != Stopping {
        Transition(Stopping);
      }
      Transition(Stopped);
    }
  }

  // ----- runs

  datatype Timed = Timed(call: Call, now: int)

  function After(o: Options, run: seq<Timed>): Life {
    if run == [] then NEW else Step(o, After(o, run[..|run| - 1]), run[|run| - 1].call, run[|run| - 1].now)
  }

  /** State the call at position `i` finds. */
  function Before(o: Options, run: seq<Timed>, i: nat): Life
    requires i < |run|
  {
    After(o, run[..i])
  }

  predicate Monotone(run: seq<Timed>) {
    forall i, j :: 0 <= i <= j < |run| ==> run[i].now <= run[j].now
  }

  predicate BeginsWithStart(run: seq<Timed>) { run != [] && run[0].call == Start }

  /** The call at `i` made the poll ask for a rebuild. */
  predicate AsksRebuild(o: Options, run: seq<Timed>, i: nat)
    requires i < |run|
  {
    run[i].call == Poll && Rebuilds(o, Before(o, run, i), run[i].now)
  }

  /** The call at `i` is the start, or a frame the machine takes as a sign of life. */
  predicate SignOfLife(o: Options, run: seq<Timed>, i: nat)
    requires i < |run|
  {
    || (run[i].call == Start && !Before(o, run, i).started)
    || (run[i].call == OnFrame && FrameCounts(Before(o, run, i)))
  }

  predicate FailedRebuild(o: Options, run: seq<Timed>, i: nat)
    requires i < |run|
  {
    run[i].call == RebuildResult(false) && ResultCounts(Before(o, run, i))
  }

  ghost predicate Consistent(o: Options, s: Life) {
    && |s.failures| == (if s.failureEmitted then 1 else 0)
    && (s.state == Failed <==> s.failureEmitted)
    && (s.state == Reconnecting ==> s.reconnectStarted - s.lastFrame > o.frameTimeout)
    && (s.awaiting ==> s.attempts >= 1)
  }

  lemma ConsistentStep(o: Options, s: Life, c: Call, now: int)
    requires Consistent(o, s) && s.started && now >= s.lastFrame
    requires s.state == Reconnecting ==> now >= s.reconnectStarted
    ensures Consistent(o, Step(o, s, c, now))
    ensures var r := Step(o, s, c, now);
            r.started && now >= r.lastFrame && (r.state == Reconnecting ==> now >= r.reconnectStarted)
  {
  }

  lemma {:induction false} ConsistentRun(o: Options, run: seq<Timed>)
    requires Monotone(run) && BeginsWithStart(run)
    ensures var s, last := After(o, run), run[|run| - 1].now;
            && Consistent(o, s) && s.started && s.lastFrame <= last
            && (s.state == Reconnecting ==> s.reconnectStarted <= last)
  {
    var init, last := run[..|run| - 1], run[|run| - 1];
    if |run| == 1 {
      assert init == [];
      assert After(o, run) == Step(o, NEW, Start, last.now);
    } else {
      assert init[0] == run[0] && init[|init| - 1].now <= last.now;
      assert Monotone(init);
      ConsistentRun(o, init);
      ConsistentStep(o, After(o, init), last.call, last.now);
    }
  }

  /** Every Stopped notice directly follows a Stopping one, and the newest notice is the state. */
  ghost predicate Orderly(s: Life) {
    && (forall i :: 0 <= i < |s.states| && s.states[i] == Stopped ==> i > 0 && s.states[i - 1] == Stopping)
    && (if s.states == [] then s.state == Stopped else s.states[|s.states| - 1] == s.state)
  }

  lemma EnterOrderly(s: Life, next: RuntimeState)
    requires Orderly(s) && (next == Stopped ==> s.state == Stopping)
    ensures Orderly(Enter(s, next))
  {
  }

  /** Any call but `close` notifies at most one state, which is never Stopped. */
  lemma NotifiesOne(o: Options, s: Life, c: Call, now: int)
    requires c != Close
    ensures var r := Step(o, s, c, now);
            || (r.states == s.states && r.state == s.state)
            || (r.states == s.states + [r.state] && r.state != Stopped)
  {
  }

  lemma OrderlyStep(o: Options, s: Life, c: Call, now: int)
    requires Orderly(s)
    ensures Orderly(Step(o, s, c, now))
  {
    if c != Close {
      var r := Step(o, s, c, now);
      NotifiesOne(o, s, c, now);
      EnterOrderly(s, if r.state != Stopped then r.state else Starting);
    } else if s.started && s.state != Stopped && s.state != Failed {
      if s.state == Stopping {
        EnterOrderly(s, Stopped);
      } else {
        EnterOrderly(s, Stopping);
        EnterOrderly(Enter(s, Stopping), Stopped);
      }
    }
  }

  /** In every run, started or not, Stopped is notified only directly after Stopping. */
  lemma {:induction false} StoppedOnlyFromStopping(o: Options, run: seq<Timed>)
    ensures Orderly(After(o, run))
  {
    if run == [] {
    } else {
      StoppedOnlyFromStopping(o, run[..|run| - 1]);
      OrderlyStep(o, After(o, run[..|run| - 1]), run[|run| - 1].call, run[|run| - 1].now);
    }
  }

  /** A run that began with start() has reported a failure exactly once if it is Failed, and never otherwise. */
  lemma FailureReportedExactlyOnce(o: Options, run: seq<Timed>)
    requires BeginsWithStart(run)
    ensures |After(o, run).failures| == if After(o, run).state == Failed then 1 else 0
  {
    FailedOnceRun(o, run);
  }

  /** For any reachable state, before or after start: Failed is left exactly by a first `start()`. */
  lemma {:induction false} FailedIsLeftExactlyByFirstStart(o: Options, run: seq<Timed>, c: Call, now: int)
    requires After(o, run).state == Failed
    ensures Step(o, After(o, run), c, now).state != Failed <==> c == Start && !After(o, run).started
  {
    FailedMeansEmitted(o, run);
  }

  lemma {:induction false} FailedMeansEmitted(o: Options, run: seq<Timed>)
    ensures After(o, run).state == Failed ==> After(o, run).failureEmitted
  {
    if run == [] {
    } else {
      FailedMeansEmitted(o, run[..|run| - 1]);
    }
  }

  /** Once Failed, a run that began with start() stays Failed. */
  lemma {:induction false} FailedIsFinal(o: Options, run: seq<Timed>, i: nat)
    requires BeginsWithStart(run) && 0 < i <= |run|
    requires After(o, run[..i]).state == Failed
    ensures After(o, run).state == Failed
    decreases |run|
  {
    if i == |run| {
      assert run[..i] == run;
    } else {
      var init := run[..|run| - 1];
      assert init[..i] == run[..i] && init[0] == run[0];
      FailedIsFinal(o, init, i);
      FailedOnceRun(o, init);
      FailedIsLeftExactlyByFirstStart(o, init, run[|run| - 1].call, run[|run| - 1].now);
    }
  }

  lemma SignOfLifeIsNoted(o: Options, s: Life, c: Call, now: int)
    requires (c == Start && !s.started) || (c == OnFrame && FrameCounts(s))
    ensures Step(o, s, c, now).lastFrame == now
  {
  }

  lemma {:induction false} LastFrameIsLatest(o: Options, run: seq<Timed>, j: nat)
    requires Monotone(run) && j < |run| && SignOfLife(o, run, j)
    ensures run[j].now <= After(o, run).lastFrame
  {
    var init, last := run[..|run| - 1], run[|run| - 1];
    if j == |run| - 1 {
      assert run[..j] == init;
      SignOfLifeIsNoted(o, After(o, init), last.call, last.now);
    } else {
      assert init[..j] == run[..j];
      LastFrameIsLatest(o, init, j);
      LastFrameStep(o, After(o, init), last.call, last.now);
    }
  }

  lemma LastFrameStep(o: Options, s: Life, c: Call, now: int)
    ensures var r := Step(o, s, c, now);
            && (r.lastFrame == s.lastFrame || r.lastFrame == now)
            && (s.started ==> r.started) && (!r.started ==> r.lastFrame == s.lastFrame)
            && (r.started && !s.started ==> r.lastFrame == now)
  {
  }

  lemma {:induction false} LastFrameInPast(o: Options, run: seq<Timed>)
    requires Monotone(run) && run != []
    ensures After(o, run).lastFrame <= run[|run| - 1].now || !After(o, run).started
    ensures !After(o, run).started ==> After(o, run).lastFrame == 0
  {
    var init, last := run[..|run| - 1], run[|run| - 1];
    LastFrameStep(o, After(o, init), last.call, last.now);
    if init != [] {
      LastFrameInPast(o, init);
      assert init[|init| - 1].now <= last.now;
    }
  }

  /**
    A rebuild is asked for strictly more than frame timeout plus recovery deadline after every
    earlier sign of life.
  */
  lemma RebuildOnlyAfterLongSilence(o: Options, run: seq<Timed>, i: nat, j: nat)
    requires Monotone(run) && BeginsWithStart(run) && j < i < |run|
    requires AsksRebuild(o, run, i) && SignOfLife(o, run, j)
    ensures run[i].now - run[j].now > o.frameTimeout + o.recoveryDeadline
  {
    var head := run[..i];
    assert head[..j] == run[..j] && head[0] == run[0];
    LastFrameIsLatest(o, head, j);
    ConsistentRun(o, head);
  }

  lemma {:induction false} AwaitingUntilAnswered(o: Options, run: seq<Timed>, i: nat)
    requires i < |run| && AsksRebuild(o, run, i)
    requires forall k :: i < k < |run| ==> !run[k].call.RebuildResult? && run[k].call != OnFrame
    ensures After(o, run).awaiting
  {
    var init := run[..|run| - 1];
    if i < |run| - 1 {
      assert init[..i] == run[..i];
      AwaitingUntilAnswered(o, init, i);
    } else {
      assert run[..i] == init;
    }
  }

  /** Between two requests for a rebuild there is a result or a frame: at most one is outstanding. */
  lemma OneRebuildOutstanding(o: Options, run: seq<Timed>, i: nat, j: nat)
    requires i < j < |run| && AsksRebuild(o, run, i) && AsksRebuild(o, run, j)
    ensures exists k :: i < k < j && (run[k].call.RebuildResult? || run[k].call == OnFrame)
  {
    if forall k :: i < k < j ==> !run[k].call.RebuildResult? && run[k].call != OnFrame {
      var head := run[..j];
      assert head[..i] == run[..i];
      AwaitingUntilAnswered(o, head, i);
      assert false;
    }
  }

  /** How many rebuilds a run has asked for. */
  function Asked(o: Options, run: seq<Timed>): nat {
    if run == [] then 0
    else Asked(o, run[..|run| - 1]) + if AsksRebuild(o, run, |run| - 1) then 1 else 0
  }

  /** How many failed rebuilds a run has survived. */
  function Tolerated(o: Options, run: seq<Timed>): nat {
    if run == [] then 0
    else Tolerated(o, run[..|run| - 1])
         + if FailedRebuild(o, run, |run| - 1) && After(o, run).state != Failed then 1 else 0
  }

  lemma {:induction false} AttemptsCountRequests(o: Options, run: seq<Timed>)
    ensures After(o, run).attempts == Asked(o, run)
  {
    if run == [] {
    } else {
      AttemptsCountRequests(o, run[..|run| - 1]);
    }
  }

  /** A failed rebuild is fatal exactly from the N-th rebuild of the whole run on, successes included. */
  lemma FailedRebuildIsFatalFromNth(o: Options, run: seq<Timed>, i: nat)
    requires Monotone(run) && BeginsWithStart(run) && 0 < i < |run| && FailedRebuild(o, run, i)
    ensures After(o, run[..i + 1]).state == Failed <==> Asked(o, run[..i]) >= o.rebuildAttempts
  {
    var head := run[..i + 1];
    assert head[..i] == run[..i] && run[..i][0] == run[0];
    AttemptsCountRequests(o, run[..i]);
    ConsistentRun(o, run[..i]);
  }

  ghost predicate Within(o: Options, s: Life, tolerated: nat) {
    tolerated + (if s.awaiting then 1 else 0) <= s.attempts && tolerated < o.rebuildAttempts
  }

  lemma OneMoreCall(o: Options, s: Life, c: Call, now: int, tolerated: nat)
    requires Consistent(o, s) && Within(o, s, tolerated)
    ensures var r := Step(o, s, c, now);
            Within(o, r, tolerated + if c == RebuildResult(false) && ResultCounts(s) && r.state != Failed then 1 else 0)
  {
  }

  lemma {:induction false} ToleratedBelowAttempts(o: Options, run: seq<Timed>)
    requires o.rebuildAttempts >= 1 && Monotone(run) && BeginsWithStart(run)
    ensures Within(o, After(o, run), Tolerated(o, run))
  {
    var init := run[..|run| - 1];
    if |run| == 1 {
      assert init == [];
      assert Tolerated(o, init) == 0;
    } else {
      assert init[0] == run[0];
      ToleratedBelowAttempts(o, init);
      ConsistentRun(o, init);
      assert Before(o, run, |run| - 1) == After(o, init);
      OneMoreCall(o, After(o, init), run[|run| - 1].call, run[|run| - 1].now, Tolerated(o, init));
    }
  }

  /** In every run that began with start() at most N-1 failed rebuilds are tolerated. */
  lemma AtMostNMinusOneFailuresTolerated(o: Options, run: seq<Timed>)
    requires o.rebuildAttempts >= 1 && Monotone(run) && BeginsWithStart(run)
    ensures Tolerated(o, run) <= o.rebuildAttempts - 1
  {
    ToleratedBelowAttempts(o, run);
  }

  // ----- answers to a rebuild

  /** An outstanding rebuild is forgotten by a frame and survives in any state but these two. */
  ghost predicate AwaitingIsQuiet(s: Life) { s.awaiting ==> s.state != Starting && s.state != Active }

  ghost predicate FailedOnce(s: Life) {
    s.started && (s.state == Failed <==> s.failureEmitted) && |s.failures| == if s.failureEmitted then 1 else 0
  }

  lemma FailedOnceStep(o: Options, s: Life, c: Call, now: int)
    requires FailedOnce(s)
    ensures FailedOnce(Step(o, s, c, now))
  {
  }

  /** However the clock goes, a run begun with start() is Failed exactly when it has reported. */
  lemma {:induction false} FailedOnceRun(o: Options, run: seq<Timed>)
    requires BeginsWithStart(run)
    ensures FailedOnce(After(o, run))
  {
    var init, last := run[..|run| - 1], run[|run| - 1];
    if |run| == 1 {
      assert init == [];
      assert After(o, run) == Step(o, NEW, Start, last.now);
    } else {
      FailedOnceRun(o, init);
      FailedOnceStep(o, After(o, init), last.call, last.now);
    }
  }

  lemma QuietStep(o: Options, s: Life, c: Call, now: int)
    requires AwaitingIsQuiet(s) && (s.awaiting ==> s.started)
    ensures var r := Step(o, s, c, now); AwaitingIsQuiet(r) && (r.awaiting ==> r.started)
  {
  }

  lemma {:induction false} QuietRun(o: Options, run: seq<Timed>)
    ensures var s := After(o, run); AwaitingIsQuiet(s) && (s.awaiting ==> s.started)
  {
    if run == [] {
    } else {
      QuietRun(o, run[..|run| - 1]);
      QuietStep(o, After(o, run[..|run| - 1]), run[|run| - 1].call, run[|run| - 1].now);
    }
  }

  /** Only a poll keeps an outstanding rebuild outstanding, and only a new request makes another one so. */
  lemma OutstandingStep(o: Options, s: Life, c: Call, now: int)
    requires FailedOnce(s) && AwaitingIsQuiet(s)
    requires !c.RebuildResult? && !(c == Poll && Rebuilds(o, s, now))
    ensures ResultCounts(Step(o, s, c, now)) <==> ResultCounts(s) && c == Poll
  {
  }

  /** The call at `m` answers a rebuild or asks for another one. */
  predicate Settles(o: Options, run: seq<Timed>, m: nat)
    requires m < |run|
  {
    run[m].call.RebuildResult? || AsksRebuild(o, run, m)
  }

  /** No answer and no further request strictly between `i` and `k`. */
  predicate Unanswered(o: Options, run: seq<Timed>, i: nat, k: nat)
    requires k <= |run|
  {
    forall m :: i < m < k ==> !Settles(o, run, m)
  }

  predicate OnlyPolls(run: seq<Timed>, i: nat, k: nat)
    requires k <= |run|
  {
    forall m :: i < m < k ==> run[m].call == Poll
  }

  lemma OnlyPollsNext(run: seq<Timed>, i: nat, k: nat)
    requires i < k < |run|
    ensures OnlyPolls(run, i, k + 1) <==> OnlyPolls(run, i, k) && run[k].call == Poll
  {
  }

  lemma RequestIsOutstanding(o: Options, s: Life, now: int)
    requires Rebuilds(o, s, now)
    ensures ResultCounts(Step(o, s, Poll, now))
  {
  }

  lemma AfterNext(o: Options, run: seq<Timed>, k: nat)
    requires k < |run|
    ensures After(o, run[..k + 1]) == Step(o, After(o, run[..k]), run[k].call, run[k].now)
  {
    assert run[..k + 1][..k] == run[..k];
  }

  /** The state after the first `k` calls. */
  function At(o: Options, run: seq<Timed>, k: nat): Life
    requires k <= |run|
  {
    if k == 0 then NEW else Step(o, At(o, run, k - 1), run[k - 1].call, run[k - 1].now)
  }

  lemma {:induction false} AtIsAfter(o: Options, run: seq<Timed>, k: nat)
    requires k <= |run|
    ensures At(o, run, k) == After(o, run[..k])
  {
    if k == 0 {
    } else {
      AtIsAfter(o, run, k - 1);
      var head := run[..k];
      assert head[..|head| - 1] == run[..k - 1] && head[|head| - 1] == run[k - 1];
    }
  }

  lemma StillOutstanding(o: Options, run: seq<Timed>, k: nat)
    requires BeginsWithStart(run) && 0 < k < |run| && !Settles(o, run, k)
    ensures ResultCounts(At(o, run, k + 1)) <==> ResultCounts(At(o, run, k)) && run[k].call == Poll
  {
    var head := run[..k];
    assert head[0] == run[0];
    AtIsAfter(o, run, k);
    FailedOnceRun(o, head);
    QuietRun(o, head);
    OutstandingStep(o, After(o, head), run[k].call, run[k].now);
  }

  lemma {:induction false} OutstandingSince(o: Options, run: seq<Timed>, i: nat, k: nat)
    requires BeginsWithStart(run) && i < k <= |run| && Unanswered(o, run, i, k) && ResultCounts(At(o, run, i + 1))
    ensures ResultCounts(At(o, run, k)) <==> OnlyPolls(run, i, k)
    decreases k
  {
    if k == i + 1 {
    } else {
      OutstandingSince(o, run, i, k - 1);
      OnlyPollsNext(run, i, k - 1);
      StillOutstanding(o, run, k - 1);
    }
  }

  /** A request stays outstanding exactly as long as nothing but polls happens. */
  lemma OutstandingExactlyWhilePolling(o: Options, run: seq<Timed>, i: nat, k: nat)
    requires BeginsWithStart(run) && i < k <= |run|
    requires AsksRebuild(o, run, i) && Unanswered(o, run, i, k)
    ensures ResultCounts(After(o, run[..k])) <==> OnlyPolls(run, i, k)
  {
    AtIsAfter(o, run, i);
    AtIsAfter(o, run, k);
    RequestIsOutstanding(o, Before(o, run, i), run[i].now);
    OutstandingSince(o, run, i, k);
  }

  lemma AnswerStep(o: Options, s: Life, success: bool, now: int)
    requires FailedOnce(s)
    ensures Step(o, s, RebuildResult(success), now).state == Failed <==>
              !ResultCounts(s) || (!success && s.attempts >= o.rebuildAttempts)
  {
  }

  /**
    Exactly when answering the rebuild that was asked for is fatal: something other than a poll (a frame,
    a stop, a close, another start) happened in between, or the rebuild failed and the budget was used up.
  */
  lemma AnswerIsFatalExactlyWhen(o: Options, run: seq<Timed>, i: nat, k: nat)
    requires BeginsWithStart(run) && i < k < |run|
    requires AsksRebuild(o, run, i) && run[k].call.RebuildResult? && Unanswered(o, run, i, k)
    ensures After(o, run[..k + 1]).state == Failed <==>
              || (exists m :: i < m < k && run[m].call != Poll)
              || (!run[k].call.success && Asked(o, run[..k]) >= o.rebuildAttempts)
  {
    var head := run[..k];
    assert head[0] == run[0];
    OutstandingExactlyWhilePolling(o, run, i, k);
    AttemptsCountRequests(o, head);
    FailedOnceRun(o, head);
    AfterNext(o, run, k);
    AnswerStep(o, After(o, head), run[k].call.success, run[k].now);
  }

  /** A frame, a stop or a close in between makes any answer fatal, even a successful one. */
  lemma InterruptedRebuildIsFatal(o: Options, run: seq<Timed>, between: Timed, answer: Timed)
    requires BeginsWithStart(run) && ResultCounts(After(o, run))
    requires between.call in {OnFrame, Stop, Close} && answer.call.RebuildResult?
    ensures var s := Step(o, After(o, run), between.call, between.now);
            && s.state == (if between.call == OnFrame then Active
                           else if between.call == Stop then Stopping else Stopped)
            && Step(o, s, answer.call, answer.now).state == Failed
            && |Step(o, s, answer.call, answer.now).failures| == 1
  {
    FailedOnceRun(o, run);
  }

  // ----- a failure before the first start

  /** A frame before `start()` fails the watchdog, and `start()` then revives it. */
  lemma EarlyFrameIsRevived(o: Options)
    ensures var failed := After(o, [Timed(OnFrame, 0)]);
            && failed.state == Failed && !failed.started && |failed.failures| == 1
            && After(o, [Timed(OnFrame, 0), Timed(Start, 1)]).state == Starting
  {
    var run := [Timed(OnFrame, 0), Timed(Start, 1)];
    assert [Timed(OnFrame, 0)][..0] == [] && run[..1] == [Timed(OnFrame, 0)];
  }

  lemma RevivedStep(o: Options, s: Life, c: Call, now: int)
    requires s.failureEmitted && s.state != Failed
    ensures var r := Step(o, s, c, now); r.failureEmitted && r.state != Failed && r.failures == s.failures
  {
  }

  /** A revived watchdog keeps its failure flag, so from then on it never enters Failed and reports nothing more. */
  lemma {:induction false} RevivedNeverFailsAgain(o: Options, run: seq<Timed>, i: nat)
    requires i <= |run|
    requires After(o, run[..i]).failureEmitted && After(o, run[..i]).state != Failed
    ensures After(o, run).failureEmitted && After(o, run).state != Failed
    ensures After(o, run).failures == After(o, run[..i]).failures
    decreases |run|
  {
    if i == |run| {
      assert run[..i] == run;
    } else {
      assert run[..|run| - 1][..i] == run[..i];
      RevivedNeverFailsAgain(o, run[..|run| - 1], i);
      RevivedStep(o, After(o, run[..|run| - 1]), run[|run| - 1].call, run[|run| - 1].now);
    }
  }

  // ----- when the watchdog acts, from the history of calls alone

  /** The time of the newest sign of life. */
  function LastSign(o: Options, run: seq<Timed>): int {
    if run == [] then 0
    else if SignOfLife(o, run, |run| - 1) then run[|run| - 1].now
    else LastSign(o, run[..|run| - 1])
  }

  lemma LastFrameMoves(o: Options, s: Life, c: Call, now: int)
    ensures Step(o, s, c, now).lastFrame
         == if (c == Start && !s.started) || (c == OnFrame && FrameCounts(s)) then now else s.lastFrame
  {
  }

  lemma {:induction false} LastFrameIsLastSign(o: Options, run: seq<Timed>)
    ensures After(o, run).lastFrame == LastSign(o, run)
  {
    if run == [] {
    } else {
      var init, last := run[..|run| - 1], run[|run| - 1];
      LastFrameIsLastSign(o, init);
      LastFrameMoves(o, After(o, init), last.call, last.now);
    }
  }

  predicate Watching(s: Life) { s.state == Starting || s.state == Active }

  lemma PollWatching(o: Options, s: Life, now: int)
    requires s.started && Watching(s)
    ensures var r := Step(o, s, Poll, now);
            if now - s.lastFrame > o.frameTimeout
            then r.state == Reconnecting && r.states == s.states + [Reconnecting] && r.attempts == s.attempts
            else r == s
  {
  }

  lemma AfterOneMore(o: Options, run: seq<Timed>, c: Call, now: int)
    ensures After(o, run + [Timed(c, now)]) == Step(o, After(o, run), c, now)
  {
    assert (run + [Timed(c, now)])[..|run|] == run;
  }

  /**
    The watchdog fires: while a run is Starting or Active, a poll enters Reconnecting exactly when more than
    the frame timeout has passed since the newest sign of life, and otherwise does nothing.
  */
  lemma PollTimesOutExactly(o: Options, run: seq<Timed>, now: int)
    requires BeginsWithStart(run) && After(o, run).state in {Starting, Active}
    ensures var next := After(o, run + [Timed(Poll, now)]);
            && (next.state == Reconnecting <==> now - LastSign(o, run) > o.frameTimeout)
            && (next.state != Reconnecting ==> next == After(o, run))
  {
    FailedOnceRun(o, run);
    LastFrameIsLastSign(o, run);
    AfterOneMore(o, run, Poll, now);
    PollWatching(o, After(o, run), now);
  }

  /** The later of entering Reconnecting and the last answered rebuild. */
  function RecoveryStart(o: Options, run: seq<Timed>): int {
    if run == [] then 0
    else
      var init, last := run[..|run| - 1], run[|run| - 1];
      if After(o, run).state == Reconnecting && (After(o, init).state != Reconnecting || last.call.RebuildResult?)
      then last.now else RecoveryStart(o, init)
  }

  /** A rebuild was asked for and neither answered nor overtaken by a frame. */
  function Outstanding(o: Options, run: seq<Timed>): bool {
    if run == [] then false
    else
      var init, last := run[..|run| - 1], run[|run| - 1];
      if After(o, run).attempts > After(o, init).attempts then true
      else if last.call.RebuildResult? || last.call == OnFrame then false
      else Outstanding(o, init)
  }

  predicate Alive(s: Life) { s.state == Starting || s.state == Active || s.state == Reconnecting }

  /** What one call does to the recovery fields of a live run. */
  lemma RecoveryMoves(o: Options, s: Life, c: Call, now: int)
    requires FailedOnce(s) && AwaitingIsQuiet(s)
    ensures var r := Step(o, s, c, now);
            && (Alive(r) ==> Alive(s))
            && (r.state == Reconnecting ==>
                  r.reconnectStarted == if s.state != Reconnecting || c.RebuildResult? then now else s.reconnectStarted)
            && (Alive(r) ==> r.awaiting == if r.attempts > s.attempts then true
                                           else if c.RebuildResult? || c == OnFrame then false else s.awaiting)
  {
  }

  lemma {:induction false} RecoveryIsHistory(o: Options, run: seq<Timed>)
    requires BeginsWithStart(run)
    ensures var s := After(o, run);
            && (s.state == Reconnecting ==> s.reconnectStarted == RecoveryStart(o, run))
            && (Alive(s) ==> s.awaiting == Outstanding(o, run))
  {
    var init, last := run[..|run| - 1], run[|run| - 1];
    if |run| == 1 {
      assert init == [];
      FirstCall(o, last.now);
    } else {
      RecoveryIsHistory(o, init);
      FailedOnceRun(o, init);
      QuietRun(o, init);
      RecoveryMoves(o, After(o, init), last.call, last.now);
    }
  }

  lemma FirstCall(o: Options, now: int)
    ensures var s := Step(o, NEW, Start, now); s.state == Starting && !s.awaiting && s.attempts == 0 && s.started
  {
  }

  lemma PollRecovering(o: Options, s: Life, now: int)
    requires s.started
    ensures var r := Step(o, s, Poll, now);
            if s.state == Reconnecting && !s.awaiting && now - s.reconnectStarted > o.recoveryDeadline
            then r == s.(awaiting := true, attempts := s.attempts + 1)
            else r.attempts == s.attempts
  {
  }

  /**
    A poll asks for a rebuild exactly when the run is Reconnecting, none is outstanding, and more than the
    recovery deadline has passed since the later of entering Reconnecting and the last answered rebuild.
  */
  lemma PollAsksExactly(o: Options, run: seq<Timed>, now: int)
    requires BeginsWithStart(run)
    ensures var s, next := After(o, run), After(o, run + [Timed(Poll, now)]);
            && (next.attempts == s.attempts + 1 <==>
                  && s.state == Reconnecting && !Outstanding(o, run)
                  && now - RecoveryStart(o, run) > o.recoveryDeadline)
            && (next.attempts == s.attempts + 1 ==> next.state == Reconnecting)
            && next.attempts <= s.attempts + 1
  {
    FailedOnceRun(o, run);
    RecoveryIsHistory(o, run);
    AfterOneMore(o, run, Poll, now);
    PollRecovering(o, After(o, run), now);
  }

  /** Where every other call leads, for runs begun with start(). */
  lemma CallsLeadExactly(o: Options, run: seq<Timed>, c: Call, now: int)
    requires BeginsWithStart(run)
    ensures var s, next := After(o, run).state, After(o, run + [Timed(c, now)]).state;
            && (c == Start ==> next == Failed)
            && (c == OnFrame ==> next == (if s in {Starting, Active, Reconnecting} then Active
                                          else if s == Stopping then Failed else s))
            && (c == Stop ==> next == if s in {Starting, Active, Reconnecting} then Stopping else s)
            && (c == Close ==> next == if s == Failed then Failed else Stopped)
            && (c == Poll && s !in {Starting, Active} ==> next == s)
            && (c == RebuildResult(true) ==> next == if s == Reconnecting && Outstanding(o, run) then s else Failed)
  {
    FailedOnceRun(o, run);
    RecoveryIsHistory(o, run);
    AfterOneMore(o, run, c, now);
    CallsLead(o, After(o, run), c, now);
  }

  lemma CallsLead(o: Options, s: Life, c: Call, now: int)
    requires FailedOnce(s)
    ensures var next := Step(o, s, c, now).state;
            && (c == Start ==> next == Failed)
            && (c == OnFrame ==> next == (if Alive(s) then Active else if s.state == Stopping then Failed else s.state))
            && (c == Stop ==> next == if Alive(s) then Stopping else s.state)
            && (c == Close ==> next == if s.state == Failed then Failed else Stopped)
            && (c == Poll && !Watching(s) ==> next == s.state)
            && (c == RebuildResult(true) ==> next == if s.state == Reconnecting && s.awaiting then s.state else Failed)
  {
  }

  lemma ReasonOf(o: Options, s: Life, c: Call, now: int)
    requires FailedOnce(s) && s.state != Failed && Step(o, s, c, now).state == Failed
    ensures Step(o, s, c, now).failures
         == [if c == RebuildResult(false) && s.state == Reconnecting && s.awaiting
             then RecoveryExhausted else StateError]
  {
  }

  /** The one reported reason: a used-up budget exactly when an awaited rebuild failed, else a call out of place. */
  lemma ReasonExactly(o: Options, run: seq<Timed>, c: Call, now: int)
    requires BeginsWithStart(run) && After(o, run).state != Failed && After(o, run + [Timed(c, now)]).state == Failed
    ensures After(o, run + [Timed(c, now)]).failures
         == [if c == RebuildResult(false) && After(o, run).state == Reconnecting && Outstanding(o, run)
             then RecoveryExhausted else StateError]
  {
    FailedOnceRun(o, run);
    RecoveryIsHistory(o, run);
    AfterOneMore(o, run, c, now);
    ReasonOf(o, After(o, run), c, now);
  }
}

/**
  The native worker's outbound event queue: four traffic classes, each with its own overflow
  policy, drained in priority order by one writer. Every operation runs under one lock, so a run
  is a sequence of operations.
*/
module EventQueue {
  import opened Common

  /** A message by traffic class; `body` stands for all it carries. */
  datatype Message =
    | TrackEvidence(tracker: nat, revision: nat, body: string)
    | Metrics(body: string)
    | NativeOperation(body: string)
    | Control(body: string)

  datatype Queue = Queue(control: seq<Message>, evidence: map<nat, Message>, order: seq<nat>, metrics: Option<Message>,
                         operations: seq<Message>, dropped: nat, closed: bool)

  const OPEN := Queue([], map[], [], None, [], 0, false)

  const EVIDENCE_LIMIT: nat := 256
  const OPERATION_LIMIT: nat := 64
  const CONTROL_LIMIT: nat := 32

  predicate Empty(q: Queue) {
    q.control == [] && |q.evidence| == 0 && q.metrics.None? && q.operations == []
  }

  /** The order list names every tracker with evidence exactly once. */
  ghost predicate Indexed(order: seq<nat>, evidence: map<nat, Message>) {
    && Distinct(order)
    && (forall t :: t in order <==> t in evidence)
    && |order| == |evidence| <= EVIDENCE_LIMIT
    && (forall t :: t in evidence ==> evidence[t].TrackEvidence? && evidence[t].tracker == t)
  }

  /** The other three classes hold their own kind of message within their limits. */
  ghost predicate Lanes(q: Queue) {
    && (forall i :: 0 <= i < |q.control| ==> q.control[i].Control?) && |q.control| <= CONTROL_LIMIT
    && (forall i :: 0 <= i < |q.operations| ==> q.operations[i].NativeOperation?) && |q.operations| <= OPERATION_LIMIT
    && (q.metrics.Some? ==> q.metrics.value.Metrics?)
  }

  ghost predicate Valid(q: Queue) { Indexed(q.order, q.evidence) && Lanes(q) }

  function PushEvidence(q: Queue, m: Message): Queue
    requires m.TrackEvidence?
  {
    if m.tracker in q.evidence then
      if q.evidence[m.tracker].TrackEvidence? && m.revision > q.evidence[m.tracker].revision
      then q.(evidence := q.evidence[m.tracker := m]) else q
    else if |q.evidence| < EVIDENCE_LIMIT then
      q.(order := q.order + [m.tracker], evidence := q.evidence[m.tracker := m])
    else q.(dropped := q.dropped + 1)
  }

  predicate Accepts(q: Queue, m: Message) {
    !q.closed && (m.Control? ==> |q.control| != CONTROL_LIMIT)
  }

  function Push(q: Queue, m: Message): Queue {
    if !Accepts(q, m) then q
    else match m
      case TrackEvidence(_, _, _) => PushEvidence(q, m)
      case Metrics(_) => q.(metrics := Some(m))
      case NativeOperation(_) =>
        if |q.operations| == OPERATION_LIMIT then
          q.(operations := q.operations[1..] + [m], dropped := q.dropped + 1)
        else q.(operations := q.operations + [m])
      case Control(_) => q.(control := q.control + [m])
  }

  datatype Popped = Popped(queue: Queue, message: Option<Message>)

  function Pop(q: Queue): Popped {
    if q.control != [] then Popped(q.(control := q.control[1..]), Some(q.control[0]))
    else if q.order != [] && q.order[0] in q.evidence then
      Popped(q.(order := q.order[1..], evidence := q.evidence - {q.order[0]}), Some(q.evidence[q.order[0]]))
    else if q.metrics.Some? then Popped(q.(metrics := None), q.metrics)
    else if q.operations != [] then Popped(q.(operations := q.operations[1..]), Some(q.operations[0]))
    else Popped(q, None)
  }

  lemma IndexedReplace(order: seq<nat>, evidence: map<nat, Message>, m: Message)
    requires Indexed(order, evidence) && m.TrackEvidence? && m.tracker in evidence
    ensures Indexed(order, evidence[m.tracker := m])
  {
    assert |evidence.Keys| == |evidence| && evidence[m.tracker := m].Keys == evidence.Keys;
    assert |evidence[m.tracker := m].Keys| == |evidence[m.tracker := m]|;
  }

  lemma IndexedAdd(order: seq<nat>, evidence: map<nat, Message>, m: Message)
    requires Indexed(order, evidence) && m.TrackEvidence? && m.tracker !in evidence && |evidence| < EVIDENCE_LIMIT
    ensures Indexed(order + [m.tracker], evidence[m.tracker := m])
  {
  }

  lemma TailOf(order: seq<nat>, t: nat)
    requires Distinct(order) && order != []
    ensures t in order[1..] <==> t in order && t != order[0]
  {
    if t in order[1..] {
      var i :| 0 <= i < |order[1..]| && order[1..][i] == t;
      assert order[i + 1] == t;
    }
  }

  lemma IndexedTake(order: seq<nat>, evidence: map<nat, Message>)
    requires Indexed(order, evidence) && order != []
    ensures order[0] in evidence && Indexed(order[1..], evidence - {order[0]})
  {
    assert order[0] in order;
    var rest := evidence - {order[0]};
    assert rest.Keys == evidence.Keys - {order[0]};
    assert |rest.Keys| == |rest| && |evidence.Keys| == |evidence|;
    forall t ensures t in order[1..] <==> t in rest { TailOf(order, t); }
  }

  lemma PushKeepsLanes(q: Queue, m: Message)
    requires Lanes(q)
    ensures Lanes(Push(q, m))
  {
  }

  lemma PushKeepsIndex(q: Queue, m: Message)
    requires Indexed(q.order, q.evidence)
    ensures Indexed(Push(q, m).order, Push(q, m).evidence)
  {
    if m.TrackEvidence? && Accepts(q, m) {
      if m.tracker in q.evidence {
        IndexedReplace(q.order, q.evidence, m);
      } else if |q.evidence| < EVIDENCE_LIMIT {
        IndexedAdd(q.order, q.evidence, m);
      }
    }
  }

  lemma PushKeepsValid(q: Queue, m: Message)
    requires Valid(q)
    ensures Valid(Push(q, m))
  {
    PushKeepsLanes(q, m);
    PushKeepsIndex(q, m);
  }

  lemma PopKeepsLanes(q: Queue)
    requires Lanes(q)
    ensures Lanes(Pop(q).queue)
  {
  }

  lemma PopKeepsValid(q: Queue)
    requires Valid(q)
    ensures Valid(Pop(q).queue)
    ensures q.order != [] ==> q.order[0] in q.evidence
    ensures Pop(q).message.None? <==> Empty(q)
  {
    PopKeepsLanes(q);
    if q.order != [] { IndexedTake(q.order, q.evidence); }
  }

  class LiveWorkerEventQueue {
    var control: seq<Message>
    var evidence: map<nat, Message>
    var order: seq<nat>
    var metrics: Option<Message>
    var operations: seq<Message>
    var dropped: nat
    var closed: bool

    ghost function Value(): Queue
      reads this
    {
      Queue(control, evidence, order, metrics, operations, dropped, closed)
    }

    constructor ()
      ensures Value() == OPEN
    {
      control, evidence, order, metrics, operations := [], map[], [], None, [];
      dropped, closed := 0, false;
    }

    method DoPush(m: Message) returns (pushed: bool)
      requires Valid(Value())
      modifies this
      ensures Valid(Value()) && Value() == Push(old(Value()), m)
      ensures pushed == Accepts(old(Value()), m)
    {
      PushKeepsValid(Value(), m);
      if closed { return false; }
      match m
      case TrackEvidence(tracker, revision, _) =>
        if tracker in evidence {
          if revision > evidence[tracker].revision {
            evidence := evidence[tracker := m];
          }
        } else if |evidence| < EVIDENCE_LIMIT {
          order := order + [tracker];
          evidence := evidence[tracker := m];
        } else {
          dropped := dropped + 1;
        }
        return true;
      case Metrics(_) =>
        metrics := Some(m);
        return true;
      case NativeOperation(_) =>
        if |operations| == OPERATION_LIMIT {
          operations := operations[1..];
          dropped := dropped + 1;
        }
        operations := operations + [m];
        return true;
      case Control(_) =>
        if |control| == CONTROL_LIMIT { return false; }
        control := control + [m];
        return true;
    }

    /** The precondition is the condition the original waits for. */
    method DoPop() returns (message: Option<Message>)
      requires Valid(Value()) && (closed || !Empty(Value()))
      modifies this
      ensures Valid(Value()) && Popped(Value(), message) == Pop(old(Value()))
      ensures message.None? <==> old(closed && Empty(Value()))
    {
      ghost var goal := Pop(Value());
      PopKeepsValid(Value());
      if control != [] {
        message, control := Some(control[0]), control[1..];
      } else if order != [] {
        var tracker := order[0];
        order := order[1..];
        message := Some(evidence[tracker]);
        evidence := evidence - {tracker};
      } else if metrics.Some? {
        message, metrics := metrics, None;
      } else if operations != [] {
        message, operations := Some(operations[0]), operations[1..];
      } else {
        message := None;
      }
      assert Value() == goal.queue && message == goal.message;
    }

    method DoClose()
      requires Valid(Value())
      modifies this
      ensures Valid(Value()) && Value() == old(Value()).(closed := true)
    {
      closed := true;
    }
  }

  // ----- runs

  datatype Op = PushOp(message: Message) | PopOp | CloseOp

  /** A pop that would have to wait has not happened yet. */
  predicate Ready(q: Queue) { q.closed || !Empty(q) }

  function Step(q: Queue, op: Op): Queue {
    match op
    case PushOp(m) => Push(q, m)
    case PopOp => if Ready(q) then Pop(q).queue else q
    case CloseOp => q.(closed := true)
  }

  function After(run: seq<Op>): Queue {
    if run == [] then OPEN else Step(After(run[..|run| - 1]), run[|run| - 1])
  }

  lemma {:induction false} AlwaysValid(run: seq<Op>)
    ensures Valid(After(run))
  {
    if run == [] {
    } else {
      var q, op := After(run[..|run| - 1]), run[|run| - 1];
      AlwaysValid(run[..|run| - 1]);
      match op
      case PushOp(m) => PushKeepsValid(q, m);
      case PopOp => PopKeepsValid(q);
      case CloseOp =>
    }
  }

  predicate OfClass(m: Message, control: bool) { if control then m.Control? else m.NativeOperation? }

  /** The message of one FIFO class an operation puts in, if any. */
  function In(q: Queue, op: Op, control: bool): seq<Message> {
    if op.PushOp? && OfClass(op.message, control) && Accepts(q, op.message) then [op.message] else []
  }

  /** The message of one FIFO class an operation takes out, if any. */
  function Out(q: Queue, op: Op, control: bool): seq<Message> {
    if op == PopOp && Ready(q) && Pop(q).message.Some? && OfClass(Pop(q).message.value, control)
    then [Pop(q).message.value] else []
  }

  /** Accepted messages of one FIFO class, in order. */
  function Admitted(run: seq<Op>, control: bool): seq<Message> {
    if run == [] then []
    else Admitted(run[..|run| - 1], control) + In(After(run[..|run| - 1]), run[|run| - 1], control)
  }

  /** Messages of one FIFO class the writer received, in order. */
  function Received(run: seq<Op>, control: bool): seq<Message> {
    if run == [] then []
    else Received(run[..|run| - 1], control) + Out(After(run[..|run| - 1]), run[|run| - 1], control)
  }

  /** A pop takes from the control class exactly when it is not empty. */
  lemma PopControl(q: Queue)
    requires Valid(q)
    ensures if q.control != [] then Pop(q).message == Some(q.control[0]) && Pop(q).queue.control == q.control[1..]
            else Pop(q).queue.control == [] && (Pop(q).message.Some? ==> !Pop(q).message.value.Control?)
  {
    PopKeepsValid(q);
  }

  lemma PopStep(q: Queue)
    requires Valid(q)
    ensures Out(q, PopOp, true) + Step(q, PopOp).control == q.control
  {
    PopControl(q);
    if q.control != [] {
      assert Ready(q) && Out(q, PopOp, true) == [q.control[0]];
    } else {
      assert Out(q, PopOp, true) == [];
    }
  }

  lemma PushControl(q: Queue, m: Message)
    ensures Push(q, m).control == q.control + if m.Control? && Accepts(q, m) then [m] else []
  {
    if !m.Control? { assert q.control + [] == q.control; }
  }

  lemma ControlStep(q: Queue, op: Op)
    requires Valid(q)
    ensures Out(q, op, true) + Step(q, op).control == q.control + In(q, op, true)
  {
    assert q.control + [] == q.control && [] + Step(q, op).control == Step(q, op).control;
    match op
    case PushOp(m) => PushControl(q, m);
    case PopOp => PopStep(q);
    case CloseOp =>
  }

  lemma Reassociate<T>(done: seq<T>, waiting: seq<T>, out: seq<T>, waiting': seq<T>, inn: seq<T>)
    requires out + waiting' == waiting + inn
    ensures done + out + waiting' == done + waiting + inn
  {
    assert done + out + waiting' == done + (out + waiting');
  }

  /** Nothing in the control class is lost, duplicated or reordered. */
  lemma {:induction false} ControlIsFifo(run: seq<Op>)
    ensures Received(run, true) + After(run).control == Admitted(run, true)
  {
    if run == [] {
    } else {
      var init, op := run[..|run| - 1], run[|run| - 1];
      var q := After(init);
      ControlIsFifo(init);
      AlwaysValid(init);
      ControlStep(q, op);
      Reassociate(Received(init, true), q.control, Out(q, op, true), Step(q, op).control, In(q, op, true));
    }
  }

  /** While control messages wait, the writer gets one of them and nothing else. */
  lemma ControlGoesFirst(run: seq<Op>)
    requires After(run).control != []
    ensures Pop(After(run)).message == Some(After(run).control[0]) && After(run).control[0].Control?
  {
    AlwaysValid(run);
  }

  predicate RefusesEvidence(q: Queue, op: Op) {
    && op.PushOp? && op.message.TrackEvidence? && !q.closed
    && op.message.tracker !in q.evidence && |q.evidence| >= 256
  }

  /** Evidence pushes that found the table full. */
  function RefusedEvidence(run: seq<Op>): nat {
    if run == [] then 0
    else RefusedEvidence(run[..|run| - 1]) + if RefusesEvidence(After(run[..|run| - 1]), run[|run| - 1]) then 1 else 0
  }

  lemma EvidenceLeavesOperations(q: Queue, m: Message)
    requires m.TrackEvidence?
    ensures Push(q, m).operations == q.operations
    ensures Push(q, m).dropped == q.dropped + if RefusesEvidence(q, PushOp(m)) then 1 else 0
  {
  }

  lemma PopOperations(q: Queue)
    requires Valid(q)
    ensures Pop(q).queue.dropped == q.dropped
    ensures Pop(q).message.Some? && Pop(q).message.value.NativeOperation? ==>
              q.operations != [] && Pop(q).queue.operations == q.operations[1..]
    ensures !(Pop(q).message.Some? && Pop(q).message.value.NativeOperation?) ==>
              Pop(q).queue.operations == q.operations
  {
    PopKeepsValid(q);
  }

  lemma PushOperation(q: Queue, m: Message)
    requires Valid(q) && m.NativeOperation? && Accepts(q, m)
    ensures var q' := Push(q, m);
            && q'.dropped + |q'.operations| == q.dropped + |q.operations| + 1
            && q'.operations == LastN(q.operations + [m], |q'.operations|)
            && |q'.operations| <= |q.operations| + 1
  {
    var all, after' := q.operations + [m], Push(q, m).operations;
    assert after' == if |q.operations| == OPERATION_LIMIT then all[1..] else all;
  }

  lemma PushOther(q: Queue, m: Message)
    requires !m.NativeOperation? || !Accepts(q, m)
    ensures Push(q, m).operations == q.operations
    ensures Push(q, m).dropped == q.dropped + if RefusesEvidence(q, PushOp(m)) then 1 else 0
  {
    if m.TrackEvidence? { EvidenceLeavesOperations(q, m); }
  }

  lemma LastNOfAll<T>(s: seq<T>)
    ensures s + [] == s && LastN(s + [], |s|) == s
  {
    assert s + [] == s;
  }

  /** Operations leave at the front only: received, or evicted by the push that makes room for itself. */
  lemma OperationsStep(q: Queue, op: Op)
    requires Valid(q)
    ensures var refused, inn, out, q' :=
              if RefusesEvidence(q, op) then 1 else 0, In(q, op, false), Out(q, op, false), Step(q, op);
            && q'.dropped + |out| + |q'.operations| == q.dropped + refused + |q.operations| + |inn|
            && q'.operations == LastN(q.operations + inn, |q'.operations|)
            && |out| + |q'.operations| <= |q.operations| + |inn|
  {
    LastNOfAll(q.operations);
    match op
    case PushOp(m) => if m.NativeOperation? && Accepts(q, m) { PushOperation(q, m); } else { PushOther(q, m); }
    case PopOp => PopOperations(q);
    case CloseOp =>
  }

  lemma LastNOfSuffix<T>(a: seq<T>, s: seq<T>, more: seq<T>, n: nat)
    requires s == LastN(a, |s|) && n <= |s| + |more|
    ensures LastN(s + more, n) == LastN(a + more, n)
  {
  }

  /**
    Conservation: every accepted operation is received, waiting or evicted, the waiting ones are the
    newest, and the drop counter is exactly the refused evidence plus the evicted operations.
  */
  lemma {:induction false} DropsAreAccountedFor(run: seq<Op>)
    ensures var evicted := |Admitted(run, false)| - |Received(run, false)| - |After(run).operations|;
            evicted >= 0 && After(run).dropped == RefusedEvidence(run) + evicted
    ensures After(run).operations == LastN(Admitted(run, false), |After(run).operations|)
  {
    if run == [] {
    } else {
      var init, op := run[..|run| - 1], run[|run| - 1];
      var q := After(init);
      DropsAreAccountedFor(init);
      AlwaysValid(init);
      OperationsStep(q, op);
      LastNOfSuffix(Admitted(init, false), q.operations, In(q, op, false), |After(run).operations|);
    }
  }

  /** `a` arises from `b` by leaving some elements out. */
  ghost predicate Subsequence<T(!new)>(a: seq<T>, b: seq<T>) {
    a == [] || (b != [] && (Subsequence(a, b[..|b| - 1])
                            || (a[|a| - 1] == b[|b| - 1] && Subsequence(a[..|a| - 1], b[..|b| - 1]))))
  }

  lemma SubsequenceBoth<T(!new)>(a: seq<T>, b: seq<T>, x: T)
    requires Subsequence(a, b)
    ensures Subsequence(a + [x], b + [x])
  {
    assert (a + [x])[..|a|] == a && (b + [x])[..|b|] == b;
  }

  /** Leaving out one more element. */
  lemma {:induction false} SubsequenceWithout<T(!new)>(a: seq<T>, x: T, c: seq<T>, b: seq<T>)
    requires Subsequence(a + [x] + c, b)
    ensures Subsequence(a + c, b)
    decreases |b|
  {
    var all, init := a + [x] + c, b[..|b| - 1];
    if Subsequence(all, init) {
      SubsequenceWithout(a, x, c, init);
    } else if c == [] {
      assert all[..|all| - 1] == a && a + c == a;
      SubsequenceLonger(a, init, b);
    } else {
      var c' := c[..|c| - 1];
      assert all[..|all| - 1] == a + [x] + c';
      SubsequenceWithout(a, x, c', init);
      assert (a + c)[..|a + c| - 1] == a + c' && (a + c)[|a + c| - 1] == all[|all| - 1];
    }
  }

  lemma SubsequenceLonger<T(!new)>(a: seq<T>, init: seq<T>, b: seq<T>)
    requires b != [] && init == b[..|b| - 1] && Subsequence(a, init)
    ensures Subsequence(a, b)
  {
  }

  /** The operations received or waiting after a step, from those before it. */
  lemma OperationsKeepOrder(q: Queue, op: Op, received: seq<Message>, admitted: seq<Message>)
    requires Valid(q) && Subsequence(received + q.operations, admitted)
    ensures Subsequence(received + Out(q, op, false) + Step(q, op).operations, admitted + In(q, op, false))
  {
    assert received + [] == received && admitted + [] == admitted;
    if op.PushOp? && op.message.NativeOperation? && Accepts(q, op.message) {
      PushKeepsOrder(q, op.message, received, admitted);
    } else if op.PushOp? {
      PushOther(q, op.message);
    } else if op == PopOp {
      PopOperations(q);
      if Out(q, op, false) != [] {
        PopTakesFirst(q);
        assert received + [q.operations[0]] + q.operations[1..] == received + q.operations;
      }
    }
  }

  lemma PopTakesFirst(q: Queue)
    requires Valid(q) && Pop(q).message.Some? && Pop(q).message.value.NativeOperation?
    ensures q.operations != [] && Pop(q).message.value == q.operations[0]
  {
    PopKeepsValid(q);
  }

  lemma PushKeepsOrder(q: Queue, m: Message, received: seq<Message>, admitted: seq<Message>)
    requires m.NativeOperation? && Accepts(q, m) && Subsequence(received + q.operations, admitted)
    ensures Subsequence(received + Push(q, m).operations, admitted + [m])
  {
    var kept := q.operations;
    if |q.operations| == OPERATION_LIMIT {
      kept := q.operations[1..];
      assert received + [q.operations[0]] + kept == received + q.operations;
      SubsequenceWithout(received, q.operations[0], kept, admitted);
    }
    SubsequenceBoth(received + kept, admitted, m);
    assert received + kept + [m] == received + (kept + [m]);
  }

  /** In every run the operations received, then those waiting, are some of the accepted ones in their order. */
  lemma {:induction false} OperationsComeInOrder(run: seq<Op>)
    ensures Subsequence(Received(run, false) + After(run).operations, Admitted(run, false))
  {
    if run == [] {
    } else {
      var init, op := run[..|run| - 1], run[|run| - 1];
      OperationsComeInOrder(init);
      AlwaysValid(init);
      OperationsKeepOrder(After(init), op, Received(init, false), Admitted(init, false));
    }
  }

  predicate Leaves(q: Queue, op: Op, t: nat) {
    op == PopOp && Ready(q) && Pop(q).message.Some? && Pop(q).message.value.TrackEvidence?
    && Pop(q).message.value.tracker == t
  }

  predicate Admits(q: Queue, op: Op, t: nat) {
    && op.PushOp? && op.message.TrackEvidence? && op.message.tracker == t && !q.closed
    && (t in q.evidence || |q.evidence| < EVIDENCE_LIMIT)
  }

  /** Evidence admitted for `t` since evidence for `t` last left the queue, oldest first. */
  function Since(run: seq<Op>, t: nat): seq<Message> {
    if run == [] then []
    else
      var q, op := After(run[..|run| - 1]), run[|run| - 1];
      if Leaves(q, op, t) then []
      else Since(run[..|run| - 1], t) + if Admits(q, op, t) then [op.message] else []
  }

  /** The entry is the first of the admitted messages with the largest revision. */
  ghost predicate NewestOf(entry: Message, since: seq<Message>) {
    && entry.TrackEvidence?
    && (forall i :: 0 <= i < |since| ==> since[i].TrackEvidence? && since[i].revision <= entry.revision)
    && exists i :: 0 <= i < |since| && since[i] == entry
                   && forall j :: 0 <= j < i ==> since[j].TrackEvidence? && since[j].revision < entry.revision
  }

  lemma NewestAppend(entry: Message, since: seq<Message>, m: Message)
    requires NewestOf(entry, since) && m.TrackEvidence?
    ensures NewestOf(if m.revision > entry.revision then m else entry, since + [m])
  {
    var i :| 0 <= i < |since| && since[i] == entry
             && forall j :: 0 <= j < i ==> since[j].TrackEvidence? && since[j].revision < entry.revision;
    var all := since + [m];
    if m.revision > entry.revision {
      assert all[|since|] == m;
    } else {
      assert all[i] == entry;
    }
  }

  /** The entry of `t` against what was admitted since `t` last left. */
  ghost predicate EntryIsNewest(q: Queue, t: nat, since: seq<Message>) {
    && (t in q.evidence <==> since != [])
    && (t in q.evidence ==> NewestOf(q.evidence[t], since))
  }

  lemma PushEntry(q: Queue, m: Message, t: nat, since: seq<Message>)
    requires Valid(q) && EntryIsNewest(q, t, since)
    ensures EntryIsNewest(Push(q, m), t, if Admits(q, PushOp(m), t) then since + [m] else since)
  {
    if Admits(q, PushOp(m), t) {
      if t in q.evidence {
        NewestAppend(q.evidence[t], since, m);
      } else {
        assert since + [m] == [m] && [m][0] == m;
      }
    }
  }

  lemma PopEntry(q: Queue, t: nat, since: seq<Message>)
    requires Valid(q) && EntryIsNewest(q, t, since)
    ensures EntryIsNewest(Pop(q).queue, t, if Leaves(q, PopOp, t) then [] else since)
  {
    PopKeepsValid(q);
    if Pop(q).message.None? { assert Pop(q).queue == q; }
  }

  /** What waits for a tracker, and hence what is popped, is the newest evidence admitted since it last left. */
  lemma {:induction false} EvidenceIsNewest(run: seq<Op>, t: nat)
    ensures EntryIsNewest(After(run), t, Since(run, t))
  {
    if run == [] {
    } else {
      var init, op := run[..|run| - 1], run[|run| - 1];
      var q := After(init);
      EvidenceIsNewest(init, t);
      AlwaysValid(init);
      assert Since(init, t) + [] == Since(init, t);
      match op
      case PushOp(m) => PushEntry(q, m, t, Since(init, t));
      case PopOp => PopEntry(q, t, Since(init, t));
      case CloseOp =>
    }
  }

  // ----- limits, priorities and the metrics slot

  /** The limits of the classes in every run. */
  lemma WithinLimits(run: seq<Op>)
    ensures var q := After(run); |q.evidence| <= 256 && |q.control| <= 32 && |q.operations| <= 64
  {
    AlwaysValid(run);
  }

  /** A push is refused exactly when the queue is closed, or for control when thirty-two wait. */
  lemma RefusedExactlyWhenFull(run: seq<Op>, m: Message)
    ensures Accepts(After(run), m) <==> !After(run).closed && (m.Control? ==> |After(run).control| < 32)
  {
    AlwaysValid(run);
  }

  /** An accepted operation evicts the oldest exactly when sixty-four wait; an accepted control never evicts. */
  lemma OperationEvictsExactlyAtLimit(run: seq<Op>, m: Message)
    requires m.NativeOperation? && !After(run).closed
    ensures var q := After(run);
            Push(q, m).operations == (if |q.operations| == 64 then q.operations[1..] else q.operations) + [m]
  {
    AlwaysValid(run);
  }

  /** The newest accepted metrics message since one was last sent. */
  function NewestMetrics(run: seq<Op>): Option<Message> {
    if run == [] then None
    else
      var q, op := After(run[..|run| - 1]), run[|run| - 1];
      if op.PushOp? && op.message.Metrics? && !q.closed then Some(op.message)
      else if op == PopOp && q.control == [] && q.order == [] then None
      else NewestMetrics(run[..|run| - 1])
  }

  lemma MetricsStep(q: Queue, op: Op)
    requires Valid(q)
    ensures Step(q, op).metrics
         == if op.PushOp? && op.message.Metrics? && !q.closed then Some(op.message)
            else if op == PopOp && q.control == [] && q.order == [] then None else q.metrics
  {
    if op == PopOp { PopKeepsValid(q); }
  }

  lemma {:induction false} MetricsAreNewest(run: seq<Op>)
    ensures After(run).metrics == NewestMetrics(run)
  {
    if run == [] {
    } else {
      MetricsAreNewest(run[..|run| - 1]);
      AlwaysValid(run[..|run| - 1]);
      MetricsStep(After(run[..|run| - 1]), run[|run| - 1]);
    }
  }

  /**
    In every run the writer gets, in this order of preference: the oldest control message; the newest evidence
    of the tracker that entered first; the newest metrics; the oldest waiting operation; nothing.
  */
  lemma PopPrefers(run: seq<Op>)
    ensures var q, message := After(run), Pop(After(run)).message;
            if q.control != [] then message == Some(q.control[0])
            else if q.order != [] then q.order[0] in q.evidence && message == Some(q.evidence[q.order[0]])
            else if NewestMetrics(run).Some? then message == NewestMetrics(run)
            else if q.operations != [] then message == Some(q.operations[0])
            else message.None?
  {
    AlwaysValid(run);
    PopKeepsValid(After(run));
    MetricsAreNewest(run);
  }

  /** The trackers with evidence in the order in which they entered while absent. */
  function EntryOrder(run: seq<Op>): seq<nat> {
    if run == [] then []
    else
      var before, q, op := EntryOrder(run[..|run| - 1]), After(run[..|run| - 1]), run[|run| - 1];
      if op.PushOp? && op.message.TrackEvidence? && !q.closed && op.message.tracker !in before && |before| < 256
      then before + [op.message.tracker]
      else if op == PopOp && q.control == [] && before != [] then before[1..]
      else before
  }

  lemma OrderStep(q: Queue, op: Op)
    requires Valid(q)
    ensures Step(q, op).order
         == if op.PushOp? && op.message.TrackEvidence? && !q.closed && op.message.tracker !in q.order && |q.order| < 256
            then q.order + [op.message.tracker]
            else if op == PopOp && q.control == [] && q.order != [] then q.order[1..] else q.order
  {
    if op == PopOp { PopKeepsValid(q); }
  }

  lemma {:induction false} OrderIsEntryOrder(run: seq<Op>)
    ensures After(run).order == EntryOrder(run)
  {
    if run == [] {
    } else {
      OrderIsEntryOrder(run[..|run| - 1]);
      AlwaysValid(run[..|run| - 1]);
      OrderStep(After(run[..|run| - 1]), run[|run| - 1]);
    }
  }
}

/**
  The order of the command queue, against a model that knows no order of its own: a table from
  trackers to the number of the operation at which they entered, and their newest assignment.
*/
module CommandOrder {
  import opened Common
  import opened LiveEvents
  import opened AssignmentQueues

  datatype QueueOp = PutOp(assignment: Assignment) | GetOp

  /** When a tracker entered, and the newest assignment it has waiting. */
  datatype Waiter = Waiter(arrival: nat, newest: Assignment)

  type Table = map<nat, Waiter>

  ghost predicate WaitsLongest(m: Table, t: nat) { t in m && forall u :: u in m ==> m[t].arrival <= m[u].arrival }

  lemma {:induction false} SomeoneWaitsLongest(m: Table)
    requires m != map[]
    ensures exists t :: WaitsLongest(m, t)
    decreases |m|
  {
    assert m.Keys != {};
    var t :| t in m.Keys;
    var rest := m - {t};
    assert rest.Keys == m.Keys - {t} && |rest.Keys| == |rest| && |m.Keys| == |m|;
    if rest == map[] {
      assert m.Keys == {t};
      assert WaitsLongest(m, t);
    } else {
      SomeoneWaitsLongest(rest);
      var u :| WaitsLongest(rest, u);
      var longest := if m[t].arrival <= m[u].arrival then t else u;
      forall v | v in m ensures m[longest].arrival <= m[v].arrival {
        if v != t { assert v in rest; }
      }
      assert WaitsLongest(m, longest);
    }
  }

  ghost function Longest(m: Table): (t: nat)
    requires m != map[]
    ensures WaitsLongest(m, t)
  {
    SomeoneWaitsLongest(m);
    var t :| WaitsLongest(m, t);
    t
  }

  /** Without the tracker that waits longest. */
  ghost function Relieved(m: Table): Table { if m == map[] then m else m - {Longest(m)} }

  /**
    What a put makes of the table: a newer assignment replaces the older one of its tracker, which keeps its
    arrival; a tracker that enters a full table displaces the one waiting longest.
  */
  ghost function Entered(m: Table, a: Assignment, capacity: nat, clock: nat): Table {
    if a.tracker in m then
      if a.revision > m[a.tracker].newest.revision then m[a.tracker := Waiter(m[a.tracker].arrival, a)] else m
    else (if |m| >= capacity then Relieved(m) else m)[a.tracker := Waiter(clock, a)]
  }

  /** What waits after the operations; a get relieves the tracker that waits longest. */
  ghost function Waiting(ops: seq<QueueOp>, capacity: nat): Table {
    if ops == [] then map[]
    else
      var m, op := Waiting(ops[..|ops| - 1], capacity), ops[|ops| - 1];
      match op
      case GetOp => Relieved(m)
      case PutOp(a) => Entered(m, a, capacity, |ops|)
  }

  /** The queue's own contents after the operations. */
  function Contents(ops: seq<QueueOp>, capacity: nat): seq<Assignment>
    requires capacity >= 1
  {
    if ops == [] then []
    else
      var items, op := Contents(ops[..|ops| - 1], capacity), ops[|ops| - 1];
      match op
      case GetOp => if items == [] then [] else items[1..]
      case PutOp(a) => Put(items, a, capacity)
  }

  function Trackers(items: seq<Assignment>): set<nat> { set i | 0 <= i < |items| :: items[i].tracker }

  ghost predicate Climbs(at: seq<nat>, clock: nat) {
    (forall i, j :: 0 <= i < j < |at| ==> at[i] < at[j]) && forall i :: 0 <= i < |at| ==> at[i] <= clock
  }

  /** The entry at each place is that of a waiting tracker that arrived at `at`. */
  ghost predicate Places(items: seq<Assignment>, m: Table, at: seq<nat>) {
    |at| == |items|
    && forall i :: 0 <= i < |items| ==> items[i].tracker in m && m[items[i].tracker] == Waiter(at[i], items[i])
  }

  /** The queue lists exactly the table, in order of arrival. */
  ghost predicate Lists(items: seq<Assignment>, m: Table, at: seq<nat>, clock: nat) {
    |items| == |m| && m.Keys == Trackers(items) && Climbs(at, clock) && Places(items, m, at)
  }

  lemma ListsOnce(items: seq<Assignment>, m: Table, at: seq<nat>, clock: nat)
    requires Lists(items, m, at, clock)
    ensures OnePerTracker(items)
  {
    forall i, j | 0 <= i < j < |items| ensures items[i].tracker != items[j].tracker {
      assert m[items[i].tracker].arrival == at[i] && m[items[j].tracker].arrival == at[j];
    }
  }

  lemma ListsFind(items: seq<Assignment>, m: Table, at: seq<nat>, clock: nat, t: nat)
    requires Lists(items, m, at, clock)
    ensures t in m <==> IndexOf(items, t) < |items|
    ensures t in m ==> items[IndexOf(items, t)] == m[t].newest
  {
    assert t in m <==> t in Trackers(items);
    assert forall i :: 0 <= i < |items| ==> items[i].tracker in Trackers(items);
    if t in m {
      var i :| 0 <= i < |items| && items[i].tracker == t;
    }
  }

  /** The front of the queue is the tracker that waits longest. */
  lemma FrontWaitsLongest(items: seq<Assignment>, m: Table, at: seq<nat>, clock: nat)
    requires Lists(items, m, at, clock) && m != map[]
    ensures items != [] && Longest(m) == items[0].tracker
  {
    var t := Longest(m);
    assert t in Trackers(items);
    var i :| 0 <= i < |items| && items[i].tracker == t;
    assert m[t].arrival == at[i] && m[items[0].tracker].arrival == at[0];
    assert m[t].arrival <= m[items[0].tracker].arrival;
    assert i == 0;
  }

  lemma TableWithout(m: Table, t: nat)
    requires t in m
    ensures |m - {t}| == |m| - 1 && (m - {t}).Keys == m.Keys - {t}
  {
    assert (m - {t}).Keys == m.Keys - {t} && |(m - {t}).Keys| == |m - {t}| && |m.Keys| == |m|;
  }

  lemma TrackersTail(items: seq<Assignment>)
    requires items != [] && OnePerTracker(items)
    ensures Trackers(items[1..]) == Trackers(items) - {items[0].tracker}
  {
    var rest := items[1..];
    forall t | t in Trackers(rest) ensures t in Trackers(items) && t != items[0].tracker {
      var i :| 0 <= i < |rest| && rest[i].tracker == t;
      assert items[i + 1].tracker == t;
    }
    forall t | t in Trackers(items) && t != items[0].tracker ensures t in Trackers(rest) {
      var i :| 0 <= i < |items| && items[i].tracker == t;
      assert rest[i - 1].tracker == t;
    }
  }

  lemma TrackersAppend(items: seq<Assignment>, a: Assignment)
    ensures Trackers(items + [a]) == Trackers(items) + {a.tracker}
  {
    var all := items + [a];
    assert all[|items|] == a;
    forall t | t in Trackers(items) ensures t in Trackers(all) {
      var i :| 0 <= i < |items| && items[i].tracker == t;
      assert all[i].tracker == t;
    }
  }

  lemma TrackersUpdate(items: seq<Assignment>, k: nat, a: Assignment)
    requires k < |items| && items[k].tracker == a.tracker
    ensures Trackers(items[k := a]) == Trackers(items)
  {
    var all := items[k := a];
    assert forall i :: 0 <= i < |items| ==> all[i].tracker == items[i].tracker;
    forall t ensures t in Trackers(all) <==> t in Trackers(items) {
      if t in Trackers(items) {
        var i :| 0 <= i < |items| && items[i].tracker == t;
        assert all[i].tracker == t;
      }
    }
  }

  lemma RelieveLists(items: seq<Assignment>, m: Table, at: seq<nat>, clock: nat)
    requires Lists(items, m, at, clock) && m != map[]
    ensures items != [] && at != [] && Lists(items[1..], Relieved(m), at[1..], clock)
  {
    FrontWaitsLongest(items, m, at, clock);
    ListsOnce(items, m, at, clock);
    TableWithout(m, items[0].tracker);
    TrackersTail(items);
    PlacesTail(items, m, at);
    ClimbsTail(at, clock);
  }

  lemma PlacesTail(items: seq<Assignment>, m: Table, at: seq<nat>)
    requires items != [] && Places(items, m, at) && OnePerTracker(items)
    ensures Places(items[1..], m - {items[0].tracker}, at[1..])
  {
    forall i | 0 <= i < |items| - 1
      ensures items[1..][i].tracker in m - {items[0].tracker}
      ensures m[items[1..][i].tracker] == Waiter(at[1..][i], items[1..][i])
    {
      assert items[1..][i] == items[i + 1] && at[1..][i] == at[i + 1];
    }
  }

  lemma ClimbsTail(at: seq<nat>, clock: nat)
    requires at != [] && Climbs(at, clock)
    ensures Climbs(at[1..], clock)
  {
    assert forall i :: 0 <= i < |at| - 1 ==> at[1..][i] == at[i + 1];
  }

  lemma PlacesEnter(items: seq<Assignment>, m: Table, at: seq<nat>, a: Assignment, clock: nat)
    requires Places(items, m, at) && a.tracker !in m
    ensures Places(items + [a], m[a.tracker := Waiter(clock, a)], at + [clock])
  {
  }

  lemma EnterLists(items: seq<Assignment>, m: Table, at: seq<nat>, clock: nat, a: Assignment)
    requires Lists(items, m, at, clock) && a.tracker !in m
    ensures Lists(items + [a], m[a.tracker := Waiter(clock + 1, a)], at + [clock + 1], clock + 1)
  {
    TrackersAppend(items, a);
    PlacesEnter(items, m, at, a, clock + 1);
    ClimbsEnter(at, clock);
    TableWith(m, a.tracker, Waiter(clock + 1, a));
  }

  lemma ClimbsEnter(at: seq<nat>, clock: nat)
    requires Climbs(at, clock)
    ensures Climbs(at + [clock + 1], clock + 1)
  {
  }

  lemma TableWith(m: Table, t: nat, w: Waiter)
    requires t !in m
    ensures |m[t := w]| == |m| + 1 && m[t := w].Keys == m.Keys + {t}
  {
  }

  lemma PlacesUpdate(items: seq<Assignment>, m: Table, at: seq<nat>, a: Assignment, k: nat)
    requires Places(items, m, at) && OnePerTracker(items) && k < |items| && items[k].tracker == a.tracker
    ensures Places(items[k := a], m[a.tracker := Waiter(m[a.tracker].arrival, a)], at)
  {
    var m' := m[a.tracker := Waiter(m[a.tracker].arrival, a)];
    forall i | 0 <= i < |items| ensures m'[items[k := a][i].tracker] == Waiter(at[i], items[k := a][i]) {
      assert m[items[i].tracker] == Waiter(at[i], items[i]);
      assert i != k ==> items[i].tracker != a.tracker;
    }
  }

  lemma CoalesceLists(items: seq<Assignment>, m: Table, at: seq<nat>, clock: nat, a: Assignment, k: nat)
    requires Lists(items, m, at, clock) && k < |items| && items[k].tracker == a.tracker
    ensures Lists(items[k := a], m[a.tracker := Waiter(m[a.tracker].arrival, a)], at, clock)
  {
    var m' := m[a.tracker := Waiter(m[a.tracker].arrival, a)];
    ListsOnce(items, m, at, clock);
    TrackersUpdate(items, k, a);
    assert m'.Keys == m.Keys && |m'.Keys| == |m'| && |m.Keys| == |m|;
    PlacesUpdate(items, m, at, a, k);
  }

  lemma LaterClock(items: seq<Assignment>, m: Table, at: seq<nat>, clock: nat)
    requires Lists(items, m, at, clock)
    ensures Lists(items, m, at, clock + 1)
  {
  }

  lemma EmptyLists(items: seq<Assignment>, m: Table, at: seq<nat>, clock: nat)
    requires Lists(items, m, at, clock)
    ensures items == [] <==> m == map[]
  {
    if items == [] { assert |m.Keys| == |m|; }
  }

  lemma PutPresent(items: seq<Assignment>, m: Table, at: seq<nat>, clock: nat, a: Assignment, capacity: nat)
    requires Lists(items, m, at, clock) && capacity >= 1 && a.tracker in m
    ensures Lists(Put(items, a, capacity), Entered(m, a, capacity, clock), at, clock)
  {
    ListsFind(items, m, at, clock, a.tracker);
    var k := IndexOf(items, a.tracker);
    if a.revision > items[k].revision { CoalesceLists(items, m, at, clock, a, k); }
  }

  lemma PutIs(items: seq<Assignment>, m: Table, a: Assignment, capacity: nat, clock: nat)
    requires capacity >= 1 && IndexOf(items, a.tracker) == |items| == |m| && a.tracker !in m
    ensures |m| >= capacity ==> Put(items, a, capacity) == items[1..] + [a]
    ensures |m| >= capacity ==> Entered(m, a, capacity, clock) == Relieved(m)[a.tracker := Waiter(clock, a)]
    ensures |m| < capacity ==> Put(items, a, capacity) == items + [a]
    ensures |m| < capacity ==> Entered(m, a, capacity, clock) == m[a.tracker := Waiter(clock, a)]
  {
  }

  lemma PutFull(items: seq<Assignment>, m: Table, at: seq<nat>, clock: nat, a: Assignment)
    requires Lists(items, m, at, clock) && items != [] && a.tracker !in m
    ensures at != [] && m != map[]
    ensures Lists(items[1..] + [a], Relieved(m)[a.tracker := Waiter(clock + 1, a)], at[1..] + [clock + 1], clock + 1)
  {
    EmptyLists(items, m, at, clock);
    RelieveLists(items, m, at, clock);
    EnterLists(items[1..], Relieved(m), at[1..], clock, a);
  }

  lemma PutAbsent(items: seq<Assignment>, m: Table, at: seq<nat>, clock: nat, a: Assignment, capacity: nat)
    returns (at': seq<nat>)
    requires Lists(items, m, at, clock) && capacity >= 1 && a.tracker !in m
    ensures Lists(Put(items, a, capacity), Entered(m, a, capacity, clock + 1), at', clock + 1)
  {
    ListsFind(items, m, at, clock, a.tracker);
    PutIs(items, m, a, capacity, clock + 1);
    if |m| >= capacity {
      PutFull(items, m, at, clock, a);
      at' := at[1..] + [clock + 1];
    } else {
      EnterLists(items, m, at, clock, a);
      at' := at + [clock + 1];
    }
  }

  lemma PutLists(items: seq<Assignment>, m: Table, at: seq<nat>, clock: nat, a: Assignment, capacity: nat)
    returns (at': seq<nat>)
    requires Lists(items, m, at, clock) && capacity >= 1
    ensures Lists(Put(items, a, capacity), Entered(m, a, capacity, clock + 1), at', clock + 1)
  {
    if a.tracker in m {
      at' := at;
      LaterClock(items, m, at, clock);
      PutPresent(items, m, at, clock + 1, a, capacity);
    } else {
      at' := PutAbsent(items, m, at, clock, a, capacity);
    }
  }

  /**
    For every sequence of puts and gets the queue lists exactly what waits, in order of arrival. So it is
    first in, first out by tracker, a coalesced entry keeps its place, and an eviction takes the front.
  */
  lemma {:induction false} QueueIsInOrderOfArrival(ops: seq<QueueOp>, capacity: nat) returns (at: seq<nat>)
    requires capacity >= 1
    ensures Lists(Contents(ops, capacity), Waiting(ops, capacity), at, |ops|)
  {
    if ops == [] {
      at := [];
    } else {
      var init, op := ops[..|ops| - 1], ops[|ops| - 1];
      var items, m := Contents(init, capacity), Waiting(init, capacity);
      at := QueueIsInOrderOfArrival(init, capacity);
      match op
      case PutOp(a) => at := PutLists(items, m, at, |init|, a, capacity);
      case GetOp => at := GetLists(items, m, at, |init|);
    }
  }

  lemma GetLists(items: seq<Assignment>, m: Table, at: seq<nat>, clock: nat) returns (at': seq<nat>)
    requires Lists(items, m, at, clock)
    ensures Lists(if items == [] then [] else items[1..], Relieved(m), at', clock + 1)
  {
    EmptyLists(items, m, at, clock);
    LaterClock(items, m, at, clock);
    if m == map[] {
      at' := at;
    } else {
      RelieveLists(items, m, at, clock + 1);
      at' := at[1..];
    }
  }

  /** What a get hands out next is the newest assignment of the tracker that waits longest. */
  lemma NextIsLongestWaiting(ops: seq<QueueOp>, capacity: nat)
    requires capacity >= 1
    ensures var items, m := Contents(ops, capacity), Waiting(ops, capacity);
            && (items == [] <==> m == map[])
            && (m != map[] ==> items[0] == m[Longest(m)].newest)
  {
    var items, m := Contents(ops, capacity), Waiting(ops, capacity);
    var at := QueueIsInOrderOfArrival(ops, capacity);
    EmptyLists(items, m, at, |ops|);
    if m != map[] { FrontWaitsLongest(items, m, at, |ops|); }
  }

  /** A put evicts exactly when its tracker is absent and the queue is full, and then the one waiting longest. */
  lemma EvictionTakesLongestWaiting(ops: seq<QueueOp>, a: Assignment, capacity: nat)
    requires capacity >= 1
    ensures var m := Waiting(ops, capacity);
            Evicted(Contents(ops, capacity), a, capacity)
            == if a.tracker !in m && |m| >= capacity then Some(Longest(m)) else None
  {
    var items, m := Contents(ops, capacity), Waiting(ops, capacity);
    var at := QueueIsInOrderOfArrival(ops, capacity);
    ListsFind(items, m, at, |ops|, a.tracker);
    EmptyLists(items, m, at, |ops|);
    if m != map[] { FrontWaitsLongest(items, m, at, |ops|); }
  }

  /** What the operation at `i` should have handed out. */
  ghost predicate HandsOut(ops: seq<QueueOp>, i: nat, capacity: nat, handed: Option<Command>)
    requires i < |ops| && capacity >= 1
  {
    var before := Contents(ops[..i], capacity);
    handed == if ops[i].PutOp? || before == [] then None else Some(Assign(before[0]))
  }

  lemma ContentsNext(ops: seq<QueueOp>, i: nat, capacity: nat)
    requires i < |ops| && capacity >= 1
    ensures var items := Contents(ops[..i], capacity);
            Contents(ops[..i + 1], capacity)
            == match ops[i]
               case GetOp => if items == [] then [] else items[1..]
               case PutOp(a) => Put(items, a, capacity)
  {
    assert ops[..i + 1][..i] == ops[..i];
  }

  /** The queue object, driven by any operations, hands out what the contents say. */
  method Drive(queue: LiveCommandQueue, ops: seq<QueueOp>) returns (handed: seq<Option<Command>>)
    requires queue.Valid() && queue.controls == [] && queue.assignments == []
    modifies queue
    ensures queue.Valid() && queue.controls == [] && queue.assignments == Contents(ops, queue.capacity)
    ensures |handed| == |ops| && forall i :: 0 <= i < |ops| ==> HandsOut(ops, i, queue.capacity, handed[i])
  {
    handed := [];
    var i := 0;
    while i < |ops|
      invariant 0 <= i <= |ops| && |handed| == i && queue.Valid() && queue.controls == []
      invariant queue.assignments == Contents(ops[..i], queue.capacity)
      invariant forall k :: 0 <= k < i ==> HandsOut(ops, k, queue.capacity, handed[k])
    {
      ContentsNext(ops, i, queue.capacity);
      var command := None;
      match ops[i] {
        case PutOp(a) => var accepted := queue.PutNowait(Assign(a));
        case GetOp => command := queue.GetNowait();
      }
      assert HandsOut(ops, i, queue.capacity, command);
      handed := handed + [command];
      i := i + 1;
    }
    assert ops[..i] == ops;
  }
}

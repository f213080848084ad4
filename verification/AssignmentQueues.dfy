/**
  The two queues an identity assignment passes: the coalescing command queue in front of the
  native process and the bounded hop inside it. An `OrderedDict` keyed by tracker is kept as
  the sequence of its values in insertion order, at most one per tracker.
*/
module AssignmentQueues {
  import opened Common
  import opened LiveEvents

  datatype Command = Stop(reason: string, deadline: nat) | Assign(assignment: Assignment)

  /** Position of the entry for `tracker`, or the length when there is none. */
  function IndexOf(items: seq<Assignment>, tracker: nat): (i: nat)
    ensures i <= |items|
    ensures i < |items| ==> items[i].tracker == tracker
    ensures forall j :: 0 <= j < i ==> items[j].tracker != tracker
  {
    if items == [] then 0
    else if items[0].tracker == tracker then 0
    else IndexOf(items[1..], tracker) + 1
  }

  /** What the queue currently holds for `tracker`. */
  function Slot(items: seq<Assignment>, tracker: nat): Option<Assignment> {
    var i := IndexOf(items, tracker);
    if i < |items| then Some(items[i]) else None
  }

  predicate OnePerTracker(items: seq<Assignment>) {
    forall i, j :: 0 <= i < j < |items| ==> items[i].tracker != items[j].tracker
  }

  predicate WellFormed(items: seq<Assignment>, capacity: nat) {
    OnePerTracker(items) && |items| <= capacity
  }

  predicate Refused(items: seq<Assignment>, a: Assignment) {
    Slot(items, a.tracker).Some? && a.revision <= Slot(items, a.tracker).value.revision
  }

  /** Coalesce with the entry of the same tracker, or append, evicting the oldest entry when full. */
  function Put(items: seq<Assignment>, a: Assignment, capacity: nat): seq<Assignment>
    requires capacity >= 1
  {
    var i := IndexOf(items, a.tracker);
    if i < |items| then
      if a.revision <= items[i].revision then items else items[i := a]
    else
      (if |items| >= capacity then items[1..] else items) + [a]
  }

  lemma SlotIs(items: seq<Assignment>, i: nat)
    requires OnePerTracker(items) && i < |items|
    ensures Slot(items, items[i].tracker) == Some(items[i])
  {
    var j := IndexOf(items, items[i].tracker);
    assert j <= i;
  }

  lemma SlotAbsent(items: seq<Assignment>, tracker: nat)
    requires forall i :: 0 <= i < |items| ==> items[i].tracker != tracker
    ensures Slot(items, tracker) == None
  {
  }

  /** The tracker whose entry a `Put` throws out to make room. */
  function Evicted(items: seq<Assignment>, a: Assignment, capacity: nat): Option<nat>
    requires capacity >= 1
  {
    if Slot(items, a.tracker).None? && |items| >= capacity then Some(items[0].tracker) else None
  }

  /** The effect of `Put` on the entry of every tracker. */
  lemma PutSlots(items: seq<Assignment>, a: Assignment, capacity: nat, tracker: nat)
    requires capacity >= 1 && WellFormed(items, capacity)
    ensures WellFormed(Put(items, a, capacity), capacity)
    ensures Slot(Put(items, a, capacity), tracker) ==
            if tracker == a.tracker then (if Refused(items, a) then Slot(items, tracker) else Some(a))
            else if Evicted(items, a, capacity) == Some(tracker) then None
            else Slot(items, tracker)
  {
    var r := Put(items, a, capacity);
    assert OnePerTracker(r);
    var own, k := IndexOf(items, a.tracker), IndexOf(items, tracker);
    if tracker == a.tracker {
      SlotIs(r, if own < |items| then own else |r| - 1);
    } else if k == |items| {
      SlotAbsent(r, tracker);
    } else if Evicted(items, a, capacity) == Some(tracker) {
      SlotAbsent(r, tracker);
    } else {
      SlotIs(r, if own == |items| && |items| >= capacity then k - 1 else k);
    }
  }

  /** Taking the oldest entry out leaves the entries of all other trackers alone. */
  lemma TakeSlots(items: seq<Assignment>, tracker: nat)
    requires OnePerTracker(items) && items != []
    ensures OnePerTracker(items[1..])
    ensures Slot(items, items[0].tracker) == Some(items[0])
    ensures Slot(items[1..], tracker) == if tracker == items[0].tracker then None else Slot(items, tracker)
  {
    if tracker == items[0].tracker {
      SlotAbsent(items[1..], tracker);
    }
  }

  class LiveCommandQueue {
    const capacity: nat
    var controls: seq<Command>
    var assignments: seq<Assignment>

    ghost predicate Valid()
      reads this
    {
      && capacity >= 1
      && (forall c :: c in controls ==> c.Stop?)
      && WellFormed(assignments, capacity)
    }

    /** A capacity below one is a construction error in the original. */
    constructor (capacity: nat)
      requires capacity >= 1
      ensures Valid() && this.capacity == capacity && controls == [] && assignments == []
    {
      this.capacity := capacity;
      controls, assignments := [], [];
    }

    method PutNowait(command: Command) returns (accepted: bool)
      requires Valid()
      modifies this
      ensures Valid()
      ensures command.Stop? ==>
                accepted && controls == old(controls) + [command] && assignments == old(assignments)
      ensures command.Assign? ==>
                && accepted == !Refused(old(assignments), command.assignment)
                && controls == old(controls)
                && assignments == Put(old(assignments), command.assignment, capacity)
    {
      match command
      case Stop(_, _) =>
        controls := controls + [command];
        accepted := true;
      case Assign(a) =>
        PutSlots(assignments, a, capacity, a.tracker);
        var i := IndexOf(assignments, a.tracker);
        if i < |assignments| {
          if a.revision <= assignments[i].revision {
            return false;
          }
          assignments := assignments[i := a];
          return true;
        }
        if |assignments| >= capacity {
          assignments := assignments[1..];
        }
        assignments := assignments + [a];
        accepted := true;
    }

    /** Stops go first; `None` is the original's `QueueEmpty`. */
    method GetNowait() returns (command: Option<Command>)
      requires Valid()
      modifies this
      ensures Valid()
      ensures if old(controls) != [] then
                command == Some(old(controls)[0]) && controls == old(controls)[1..] && assignments == old(assignments)
              else if old(assignments) != [] then
                && command == Some(Assign(old(assignments)[0]))
                && assignments == old(assignments)[1..] && controls == []
              else command == None && controls == [] && assignments == []
    {
      if controls != [] {
        command, controls := Some(controls[0]), controls[1..];
      } else if assignments != [] {
        command, assignments := Some(Assign(assignments[0])), assignments[1..];
      } else {
        command := None;
      }
    }
  }

  /** The native hop: a FIFO of trackers over a map that holds the newest assignment of each. */
  class LiveAssignmentQueue {
    var assignments: map<nat, Assignment>
    var order: seq<nat>

    ghost predicate Valid()
      reads this
    {
      && Distinct(order)
      && (forall t :: t in order <==> t in assignments)
      && (forall t :: t in assignments ==> assignments[t].tracker == t)
      && |order| == |assignments| <= 256
    }

    constructor ()
      ensures Valid() && order == []
    {
      assignments, order := map[], [];
    }

    method Push(a: Assignment) returns (queued: bool)
      requires Valid()
      modifies this
      ensures Valid()
      ensures queued == if a.tracker in old(assignments) then a.revision > old(assignments)[a.tracker].revision
                        else |old(order)| < 256
      ensures queued ==> assignments == old(assignments)[a.tracker := a]
      ensures !queued ==> assignments == old(assignments)
      ensures order == if queued && a.tracker !in old(order) then old(order) + [a.tracker] else old(order)
    {
      if a.tracker in assignments {
        if a.revision <= assignments[a.tracker].revision {
          return false;
        }
        assert |assignments.Keys| == |assignments|;
        assert assignments[a.tracker := a].Keys == assignments.Keys;
        assignments := assignments[a.tracker := a];
        return true;
      }
      if |assignments| == 256 {
        return false;
      }
      order := order + [a.tracker];
      assignments := assignments[a.tracker := a];
      queued := true;
    }

    method Pop() returns (a: Option<Assignment>)
      requires Valid()
      modifies this
      ensures Valid()
      ensures if old(order) == [] then a == None && order == [] && assignments == old(assignments)
              else && a == Some(old(assignments)[old(order)[0]])
                   && order == old(order)[1..]
                   && assignments == old(assignments) - {old(order)[0]}
    {
      if order == [] {
        return None;
      }
      var tracker := order[0];
      a := Some(assignments[tracker]);
      order := order[1..];
      assert (assignments - {tracker}).Keys == assignments.Keys - {tracker};
      assert |assignments.Keys| == |assignments|;
      assignments := assignments - {tracker};
    }

    /** The worker pushes and pops at once, so the hop hands every assignment straight through. */
    method Hop(a: Assignment) returns (queued: bool, next: Option<Assignment>)
      requires Valid() && order == []
      modifies this
      ensures Valid() && order == []
      ensures queued && next == Some(a)
    {
      assert a.tracker !in assignments;
      queued := Push(a);
      next := Pop();
    }
  }
}

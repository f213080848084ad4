/**
  What the observation window of a live track holds, for every history of batches, said without
  reference to how it is computed: timestamps offered, first occurrences, time order.
*/
module ObservationWindow {
  import opened Sorting
  import opened LiveIdentity

  /** The timestamps of a batch. */
  function Times(batch: seq<Observation>): set<nat> { set i | 0 <= i < |batch| :: batch[i].timestamp }

  /** Every timestamp ever offered. */
  function Offered(h: seq<Evaluation>): set<nat> {
    if h == [] then {} else Offered(h[..|h| - 1]) + Times(h[|h| - 1].batch)
  }

  ghost predicate Rising(s: seq<Observation>) {
    forall i, j :: 0 <= i < j < |s| ==> s[i].timestamp < s[j].timestamp
  }

  /** `o` is the first observation of the batch with its timestamp. */
  ghost predicate IsFirst(batch: seq<Observation>, o: Observation) {
    exists i :: 0 <= i < |batch| && batch[i] == o && forall j :: 0 <= j < i ==> batch[j].timestamp != o.timestamp
  }

  /** What a batch brings to a track that was offered `old'` before: each new timestamp once, in time order. */
  ghost predicate Brings(batch: seq<Observation>, old': set<nat>, added: seq<Observation>) {
    && Rising(added) && Times(added) == Times(batch) - old'
    && forall i :: 0 <= i < |added| ==> IsFirst(batch, added[i])
  }

  lemma TimesHead(batch: seq<Observation>)
    requires batch != []
    ensures Times(batch) == {batch[0].timestamp} + Times(batch[1..])
  {
    forall t | t in Times(batch) ensures t == batch[0].timestamp || t in Times(batch[1..]) {
      var i :| 0 <= i < |batch| && batch[i].timestamp == t;
      if i > 0 { assert batch[1..][i - 1].timestamp == t; }
    }
    forall t | t in Times(batch[1..]) ensures t in Times(batch) {
      var i :| 0 <= i < |batch[1..]| && batch[1..][i].timestamp == t;
      assert batch[i + 1].timestamp == t;
    }
  }

  lemma {:induction false} SeenAllIsUnion(seen: set<nat>, batch: seq<Observation>)
    ensures SeenAll(seen, batch) == seen + Times(batch)
    decreases |batch|
  {
    if batch == [] {
    } else {
      TimesHead(batch);
      SeenAllIsUnion(seen + {batch[0].timestamp}, batch[1..]);
    }
  }

  ghost predicate InTime(s: seq<Observation>) {
    forall i, j :: 0 <= i < j < |s| ==> s[i].timestamp <= s[j].timestamp
  }

  lemma FirstOfTail(batch: seq<Observation>, o: Observation)
    requires batch != [] && IsFirst(batch[1..], o) && o.timestamp != batch[0].timestamp
    ensures IsFirst(batch, o)
  {
    var tail := batch[1..];
    var i :| 0 <= i < |tail| && tail[i] == o && forall j :: 0 <= j < i ==> tail[j].timestamp != o.timestamp;
    assert batch[i + 1] == o;
    forall j | 0 <= j < i + 1 ensures batch[j].timestamp != o.timestamp {
      if j > 0 { assert batch[j] == tail[j - 1]; }
    }
  }

  lemma FreshInTime(batch: seq<Observation>, seen: set<nat>, tail: seq<Observation>, i: nat)
    requires batch != [] && InTime(batch) && Brings(batch[1..], seen, tail) && i < |tail|
    ensures tail[i].timestamp >= batch[0].timestamp && tail[i].timestamp !in seen
  {
    assert tail[i].timestamp in Times(tail);
    assert IsFirst(batch[1..], tail[i]);
    var k :| 0 <= k < |batch[1..]| && batch[1..][k] == tail[i];
    assert batch[k + 1] == tail[i];
  }

  /** Over a batch in time order, the fresh ones are exactly what it brings. */
  lemma {:induction false} FreshOnesBring(seen: set<nat>, batch: seq<Observation>)
    requires InTime(batch)
    ensures Brings(batch, seen, FreshOnes(seen, batch))
    decreases |batch|
  {
    if batch == [] {
    } else {
      var o, rest := batch[0], batch[1..];
      var wider := if o.timestamp in seen then seen else seen + {o.timestamp};
      FreshOnesBring(wider, rest);
      TimesHead(batch);
      FreshStep(seen, batch, FreshOnes(wider, rest));
    }
  }

  lemma LaterFirst(seen: set<nat>, batch: seq<Observation>, tail: seq<Observation>, i: nat)
    requires batch != [] && InTime(batch) && batch[0].timestamp in seen && Brings(batch[1..], seen, tail) && i < |tail|
    ensures tail[i].timestamp > batch[0].timestamp && IsFirst(batch, tail[i])
  {
    FreshInTime(batch, seen, tail, i);
    assert IsFirst(batch[1..], tail[i]);
    FirstOfTail(batch, tail[i]);
  }

  lemma RisingCons(o: Observation, tail: seq<Observation>)
    requires Rising(tail) && forall i :: 0 <= i < |tail| ==> tail[i].timestamp > o.timestamp
    ensures Rising([o] + tail) && Times([o] + tail) == {o.timestamp} + Times(tail)
  {
    TimesHead([o] + tail);
    assert ([o] + tail)[1..] == tail;
  }

  lemma FreshStep(seen: set<nat>, batch: seq<Observation>, tail: seq<Observation>)
    requires batch != [] && InTime(batch) && Times(batch) == {batch[0].timestamp} + Times(batch[1..])
    requires Brings(batch[1..], if batch[0].timestamp in seen then seen else seen + {batch[0].timestamp}, tail)
    ensures Brings(batch, seen, if batch[0].timestamp in seen then tail else [batch[0]] + tail)
  {
    var o := batch[0];
    var wider := if o.timestamp in seen then seen else seen + {o.timestamp};
    forall i | 0 <= i < |tail| ensures tail[i].timestamp > o.timestamp && IsFirst(batch, tail[i]) {
      LaterFirst(wider, batch, tail, i);
    }
    if o.timestamp !in seen {
      RisingCons(o, tail);
      assert IsFirst(batch, o) by { assert batch[0] == o; }
      assert Times(tail) == Times(batch[1..]) - wider;
    }
  }

  lemma SameTimes(a: seq<Observation>, b: seq<Observation>)
    requires multiset(a) == multiset(b)
    ensures Times(a) == Times(b)
  {
    forall t ensures t in Times(a) <==> t in Times(b) {
      if t in Times(a) {
        var i :| 0 <= i < |a| && a[i].timestamp == t;
        assert a[i] in multiset(b);
        var j :| 0 <= j < |b| && b[j] == a[i];
      }
      if t in Times(b) {
        var i :| 0 <= i < |b| && b[i].timestamp == t;
        assert b[i] in multiset(a);
        var j :| 0 <= j < |a| && a[j] == b[i];
      }
    }
  }

  lemma EarlierIsOrder()
    ensures StrictWeakOrder(Earlier)
  {
  }

  lemma FirstIsUnique(batch: seq<Observation>, p: Observation, q: Observation)
    requires IsFirst(batch, p) && IsFirst(batch, q) && p.timestamp == q.timestamp
    ensures p == q
  {
    var i :| 0 <= i < |batch| && batch[i] == p && forall j :: 0 <= j < i ==> batch[j].timestamp != p.timestamp;
    var k :| 0 <= k < |batch| && batch[k] == q && forall j :: 0 <= j < k ==> batch[j].timestamp != q.timestamp;
    assert i <= k && k <= i;
  }

  lemma OnlyLastTied(init: seq<Observation>, last: Observation, o: Observation)
    requires last.timestamp == o.timestamp && forall i :: 0 <= i < |init| ==> init[i].timestamp != o.timestamp
    ensures TiedWith(Earlier, o, init + [last]) == [last] && IsFirst(init + [last], last)
  {
    NoneTied(init, o);
    TiedWithAppend(Earlier, o, init, last);
    var all := init + [last];
    assert all[|init|] == last && forall j :: 0 <= j < |init| ==> all[j] == init[j];
  }

  /** The first of a group of equal timestamps leads the group of ties. */
  lemma {:induction false} FirstIsFirstTied(batch: seq<Observation>, o: Observation)
    requires exists i :: 0 <= i < |batch| && batch[i].timestamp == o.timestamp
    ensures TiedWith(Earlier, o, batch) != []
    ensures var p := TiedWith(Earlier, o, batch)[0]; IsFirst(batch, p) && p.timestamp == o.timestamp
  {
    var init, last := batch[..|batch| - 1], batch[|batch| - 1];
    assert batch == init + [last];
    if exists i :: 0 <= i < |init| && init[i].timestamp == o.timestamp {
      FirstIsFirstTied(init, o);
      TiedWithAppend(Earlier, o, init, last);
      FirstKept(init, last, TiedWith(Earlier, o, init)[0]);
    } else {
      OnlyLastTied(init, last, o);
    }
  }

  lemma FirstKept(init: seq<Observation>, last: Observation, p: Observation)
    requires IsFirst(init, p)
    ensures IsFirst(init + [last], p)
  {
    var i :| 0 <= i < |init| && init[i] == p && forall j :: 0 <= j < i ==> init[j].timestamp != p.timestamp;
    assert (init + [last])[i] == p;
  }

  lemma {:induction false} NoneTied(s: seq<Observation>, o: Observation)
    requires forall i :: 0 <= i < |s| ==> s[i].timestamp != o.timestamp
    ensures TiedWith(Earlier, o, s) == []
  {
    if s == [] {
    } else {
      NoneTied(s[..|s| - 1], o);
    }
  }

  lemma SortKeepsFirst(batch: seq<Observation>, o: Observation)
    requires IsFirst(StableSort(Earlier, batch), o)
    ensures IsFirst(batch, o)
  {
    EarlierIsOrder();
    StableSortSorts(Earlier, batch);
    StableSortStable(Earlier, batch, o);
    var sorted := StableSort(Earlier, batch);
    assert o in sorted && o in multiset(sorted);
    assert o in batch;
    FirstIsFirstTied(sorted, o);
    FirstIsFirstTied(batch, o);
    FirstIsUnique(sorted, o, TiedWith(Earlier, o, sorted)[0]);
  }

  /** What one batch adds to a track, for any batch in any order. */
  lemma AcceptBrings(t: TrackIdentity, batch: seq<Observation>)
    ensures Brings(batch, t.seen, FreshOnes(t.seen, StableSort(Earlier, batch)))
    ensures Accept(t, batch).seen == t.seen + Times(batch)
  {
    var sorted := StableSort(Earlier, batch);
    EarlierIsOrder();
    StableSortSorts(Earlier, batch);
    assert InTime(sorted) by { assert forall i, j :: 0 <= i < j < |sorted| ==> !Earlier(sorted[j], sorted[i]); }
    FreshOnesBring(t.seen, sorted);
    SeenAllIsUnion(t.seen, sorted);
    SameTimes(sorted, batch);
    var added := FreshOnes(t.seen, sorted);
    forall i | 0 <= i < |added| ensures IsFirst(batch, added[i]) {
      assert IsFirst(sorted, added[i]);
      SortKeepsFirst(batch, added[i]);
    }
  }

  /** A track remembers exactly the timestamps it was ever offered. */
  lemma {:induction false} SeenIsOffered(h: seq<Evaluation>)
    ensures TrackAfter(h).seen == Offered(h)
  {
    if h == [] {
    } else {
      var init, x := h[..|h| - 1], h[|h| - 1];
      SeenIsOffered(init);
      VoteKeepsWindow(TrackAfter(init), x);
      AcceptBrings(TrackAfter(init), x.batch);
    }
  }

  /**
    For every history and every next batch: what is accepted is exactly the batch's timestamps that no
    earlier batch offered, each once, with its first observation, in time order.
  */
  lemma EachBatchBringsItsNewTimes(h: seq<Evaluation>, x: Evaluation) returns (added: seq<Observation>)
    ensures Accepted(h + [x]) == Accepted(h) + added && Brings(x.batch, Offered(h), added)
  {
    assert (h + [x])[..|h|] == h;
    added := FreshOnes(TrackAfter(h).seen, StableSort(Earlier, x.batch));
    AcceptBrings(TrackAfter(h), x.batch);
    SeenIsOffered(h);
  }

  ghost predicate OncePerTime(s: seq<Observation>) {
    forall i, j :: 0 <= i < j < |s| ==> s[i].timestamp != s[j].timestamp
  }

  lemma TimesConcat(a: seq<Observation>, b: seq<Observation>)
    ensures Times(a + b) == Times(a) + Times(b)
  {
    var c := a + b;
    forall t | t in Times(a) + Times(b) ensures t in Times(c) {
      if t in Times(a) {
        var i :| 0 <= i < |a| && a[i].timestamp == t;
        assert c[i].timestamp == t;
      } else {
        var i :| 0 <= i < |b| && b[i].timestamp == t;
        assert c[|a| + i].timestamp == t;
      }
    }
  }

  lemma OnceConcat(a: seq<Observation>, b: seq<Observation>)
    requires OncePerTime(a) && Rising(b) && Times(a) !! Times(b)
    ensures OncePerTime(a + b)
  {
    var c := a + b;
    forall i, j | 0 <= i < j < |c| ensures c[i].timestamp != c[j].timestamp {
      if i < |a| <= j { assert a[i].timestamp in Times(a) && b[j - |a|].timestamp in Times(b); }
    }
  }

  lemma {:induction false} OnceCounts(s: seq<Observation>)
    requires OncePerTime(s)
    ensures |Times(s)| == |s|
  {
    if s == [] {
    } else {
      OnceCounts(s[1..]);
      TimesHead(s);
      assert s[0].timestamp !in Times(s[1..]);
    }
  }

  lemma {:induction false} AcceptedOncePerTime(h: seq<Evaluation>)
    ensures OncePerTime(Accepted(h)) && Times(Accepted(h)) == Offered(h)
  {
    if h == [] {
    } else {
      var init, x := h[..|h| - 1], h[|h| - 1];
      assert h == init + [x];
      AcceptedOncePerTime(init);
      var added := EachBatchBringsItsNewTimes(init, x);
      OnceConcat(Accepted(init), added);
      TimesConcat(Accepted(init), added);
    }
  }

  /**
    In every history the window is the end of the accepted observations, no two of which share a
    timestamp, and its size is the number of timestamps ever offered, at most five.
  */
  lemma WindowHoldsNewest(h: seq<Evaluation>)
    ensures var w, all := TrackAfter(h).window, Accepted(h);
            && |w| == (if |Offered(h)| < 5 then |Offered(h)| else 5) && |w| <= |all|
            && w == all[|all| - |w|..]
            && (forall i, j :: 0 <= i < j < |all| ==> all[i].timestamp != all[j].timestamp)
            && (forall i, j :: 0 <= i < j < |w| ==> w[i].timestamp != w[j].timestamp)
  {
    WindowIsLastFiveAccepted(h);
    AcceptedOncePerTime(h);
    OnceCounts(Accepted(h));
  }
}

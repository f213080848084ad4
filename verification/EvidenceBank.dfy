/**
  The bounded store of the best observations of a live track. Measuring an observation is an
  input: each carries its score and whether the quality gate accepts it. The library sort may
  place full ties in any order, so one call is a relation between contents, not a function.
*/
module EvidenceBank {
  import opened Sorting
  import opened Sums

  datatype Observation = Observation(timestamp: nat, ordinal: nat, yaw: real, quality: real, accepted: bool, id: nat)

  datatype Config = Config(capacity: nat, minSpacing: nat, nearPose: real, margin: real)

  datatype Change = Rejected | Unchanged | Added | Replaced

  predicate Better(a: Observation, b: Observation) {
    if a.quality != b.quality then a.quality > b.quality
    else if a.timestamp != b.timestamp then a.timestamp < b.timestamp
    else a.ordinal < b.ordinal
  }

  lemma BetterIsOrder()
    ensures StrictWeakOrder(Better)
  {
  }

  function Distance(a: nat, b: nat): nat { if a >= b then a - b else b - a }

  function Abs(x: real): real { if x < 0.0 then -x else x }

  predicate SamePose(c: Config, a: Observation, b: Observation) { Abs(a.yaw - b.yaw) <= c.nearPose }

  predicate Near(c: Config, a: Observation, b: Observation) {
    Distance(a.timestamp, b.timestamp) <= c.minSpacing && SamePose(c, a, b)
  }

  /** The first retained observation near `o`, or the number of retained ones. */
  function FirstNear(c: Config, s: seq<Observation>, o: Observation): (i: nat)
    ensures i <= |s| && (i < |s| ==> Near(c, o, s[i])) && forall j :: 0 <= j < i ==> !Near(c, o, s[j])
  {
    if s == [] then 0 else if Near(c, o, s[0]) then 0 else FirstNear(c, s[1..], o) + 1
  }

  predicate Diverse(c: Config, s: seq<Observation>, o: Observation) {
    forall i :: 0 <= i < |s| ==> !SamePose(c, o, s[i])
  }

  predicate Displaces(c: Config, s: seq<Observation>, o: Observation)
    requires s != []
  {
    var worst := s[|s| - 1];
    Better(o, worst) && (Diverse(c, s, o) || o.quality >= worst.quality + c.margin)
  }

  datatype Update = Update(change: Change, contents: seq<Observation>)

  /** What a call does before the contents are sorted again. */
  function Place(c: Config, s: seq<Observation>, o: Observation): Update {
    if !o.accepted || c.capacity == 0 then Update(Rejected, s)
    else
      var near := FirstNear(c, s, o);
      if near < |s| then
        if Better(o, s[near]) then Update(Replaced, s[near := o]) else Update(Unchanged, s)
      else if |s| < c.capacity then Update(Added, s + [o])
      else if s != [] && Displaces(c, s, o) then Update(Replaced, s[|s| - 1 := o])
      else Update(Unchanged, s)
  }

  /** One call of `consider`: the placed contents in some sorted order. */
  ghost predicate Considers(c: Config, s: seq<Observation>, o: Observation, s': seq<Observation>) {
    SortedBy(Better, s') && multiset(s') == multiset(Place(c, s, o).contents)
  }

  class TrackEvidenceBank {
    const config: Config
    var observations: seq<Observation>

    ghost predicate Valid()
      reads this
    {
      SortedBy(Better, observations) && |observations| <= config.capacity
    }

    constructor (config: Config)
      ensures Valid() && observations == [] && this.config == config
    {
      this.config := config;
      observations := [];
    }

    method SortObservations()
      modifies this
      ensures SortedBy(Better, observations) && multiset(observations) == multiset(old(observations))
    {
      BetterIsOrder();
      StableSortSorts(Better, observations);
      observations := StableSort(Better, observations);
    }

    method Consider(o: Observation) returns (change: Change)
      requires Valid()
      modifies this
      ensures Valid() && Considers(config, old(observations), o, observations)
      ensures change == Place(config, old(observations), o).change
      ensures change in {Rejected, Unchanged} ==> observations == old(observations)
    {
      ghost var placed := Place(config, observations, o).contents;
      PlaceSize(config, observations, o);
      if !o.accepted || config.capacity == 0 { return Rejected; }
      var near := FirstNear(config, observations, o);
      if near < |observations| {
        if !Better(o, observations[near]) { return Unchanged; }
        observations := observations[near := o];
        SortObservations();
        SameSize(observations, placed);
        return Replaced;
      }
      if |observations| < config.capacity {
        observations := observations + [o];
        SortObservations();
        SameSize(observations, placed);
        return Added;
      }
      var worst := observations[|observations| - 1];
      var diverse := Diverse(config, observations, o);
      var clears := o.quality >= worst.quality + config.margin;
      if !Better(o, worst) || (!diverse && !clears) { return Unchanged; }
      observations := observations[|observations| - 1 := o];
      SortObservations();
      SameSize(observations, placed);
      return Replaced;
    }
  }

  lemma SameSize<T>(a: seq<T>, b: seq<T>)
    requires multiset(a) == multiset(b)
    ensures |a| == |b|
  {
    assert |a| == |multiset(a)| && |b| == |multiset(b)|;
  }

  lemma PlaceSize(c: Config, s: seq<Observation>, o: Observation)
    requires |s| <= c.capacity
    ensures |s| <= |Place(c, s, o).contents| <= c.capacity
  {
  }

  // ----- ranks

  /** Whether an observation is at least as good as `bar`. */
  function Reaches(bar: Observation): Observation -> real { x => if Better(bar, x) then 0.0 else 1.0 }

  /** Every placed element is as good as the one it stands for. */
  lemma PlaceImproves(c: Config, s: seq<Observation>, o: Observation, i: nat, j: nat)
    requires SortedBy(Better, s) && j <= i < |s|
    ensures var p := Place(c, s, o).contents; j < |p| && !Better(s[i], p[j])
  {
    BetterIsOrder();
    assert !Better(s[i], s[j]);
  }

  lemma {:induction false} AllReach(bar: Observation, s: seq<Observation>)
    requires forall i :: 0 <= i < |s| ==> !Better(bar, s[i])
    ensures Sum(Reaches(bar), s) == |s| as real
  {
    if s == [] {
    } else {
      AllReach(bar, s[..|s| - 1]);
    }
  }

  lemma {:induction false} NoneReach(bar: Observation, s: seq<Observation>)
    requires forall i :: 0 <= i < |s| ==> Better(bar, s[i])
    ensures Sum(Reaches(bar), s) == 0.0
  {
    if s == [] {
    } else {
      NoneReach(bar, s[..|s| - 1]);
    }
  }

  lemma ReachBounds(bar: Observation, s: seq<Observation>)
    ensures 0.0 <= Sum(Reaches(bar), s) <= |s| as real
  {
    SumBounds(Reaches(bar), s, 0.0, 1.0);
  }

  lemma AtLeastReach(c: Config, s: seq<Observation>, o: Observation, i: nat)
    requires SortedBy(Better, s) && i < |s| <= |Place(c, s, o).contents|
    ensures Sum(Reaches(s[i]), Place(c, s, o).contents) >= (i + 1) as real
  {
    var p := Place(c, s, o).contents;
    forall j | 0 <= j <= i ensures !Better(s[i], p[j]) { PlaceImproves(c, s, o, i, j); }
    AllReach(s[i], p[..i + 1]);
    ReachBounds(s[i], p[i + 1..]);
    assert p == p[..i + 1] + p[i + 1..];
    SumConcat(Reaches(s[i]), p[..i + 1], p[i + 1..]);
  }

  lemma AtMostReach(bar: Observation, s: seq<Observation>, i: nat)
    requires SortedBy(Better, s) && i < |s| && Better(bar, s[i])
    ensures Sum(Reaches(bar), s) <= i as real
  {
    BetterIsOrder();
    forall j | i <= j < |s| ensures Better(bar, s[j]) {
      if j > i { assert !Better(s[j], s[i]); }
    }
    NoneReach(bar, s[i..]);
    ReachBounds(bar, s[..i]);
    assert s == s[..i] + s[i..];
    SumConcat(Reaches(bar), s[..i], s[i..]);
  }

  /** At least as many ranks, and none of them worse. */
  ghost predicate NoWorse(s: seq<Observation>, s': seq<Observation>) {
    |s| <= |s'| && forall i :: 0 <= i < |s| ==> !Better(s[i], s'[i])
  }

  lemma NoWorseRefl(s: seq<Observation>)
    ensures NoWorse(s, s)
  {
  }

  lemma NoWorseTrans(a: seq<Observation>, b: seq<Observation>, c: seq<Observation>)
    requires NoWorse(a, b) && NoWorse(b, c)
    ensures NoWorse(a, c)
  {
    BetterIsOrder();
    forall i | 0 <= i < |a| ensures !Better(a[i], c[i]) {
      assert !Better(a[i], b[i]) && !Better(b[i], c[i]);
    }
  }

  /** One call keeps the bound and the order, never shrinks the bank, and makes no rank worse. */
  lemma ConsiderImprovesRanks(c: Config, s: seq<Observation>, o: Observation, s': seq<Observation>)
    requires SortedBy(Better, s) && |s| <= c.capacity && Considers(c, s, o, s')
    ensures |s'| <= c.capacity && SortedBy(Better, s') && NoWorse(s, s')
  {
    PlaceSize(c, s, o);
    var p := Place(c, s, o).contents;
    SameSize(s', p);
    forall i | 0 <= i < |s| ensures !Better(s[i], s'[i]) {
      if Better(s[i], s'[i]) {
        AtLeastReach(c, s, o, i);
        AtMostReach(s[i], s', i);
        SumIgnoresOrder(Reaches(s[i]), s', p);
      }
    }
  }

  /** After a call the best retained score is within the margin of the accepted observation just offered. */
  lemma ConsiderKeepsNearBest(c: Config, s: seq<Observation>, o: Observation, s': seq<Observation>)
    requires SortedBy(Better, s) && |s| <= c.capacity && Considers(c, s, o, s')
    requires o.accepted && c.capacity > 0 && c.margin >= 0.0
    ensures s' != [] && s'[0].quality >= o.quality - c.margin
  {
    BetterIsOrder();
    var p := Place(c, s, o);
    ConsiderImprovesRanks(c, s, o, s');
    SameSize(s', p.contents);
    if p.change in {Added, Replaced} {
      assert o in p.contents;
      assert o in multiset(s');
      var k :| 0 <= k < |s'| && s'[k] == o;
      assert k == 0 || !Better(s'[k], s'[0]);
    } else {
      var near := FirstNear(c, s, o);
      var other := if near < |s| then s[near] else s[|s| - 1];
      assert other.quality >= o.quality - c.margin;
      var k := if near < |s| then near else |s| - 1;
      assert k == 0 || !Better(s[k], s[0]);
      assert !Better(s[0], s'[0]);
    }
  }

  // ----- whole runs

  /** `banks[i]` are the contents after the first `i` observations. */
  ghost predicate IsRun(c: Config, offered: seq<Observation>, banks: seq<seq<Observation>>) {
    && |banks| == |offered| + 1 && banks[0] == []
    && forall i :: 0 <= i < |offered| ==> Considers(c, banks[i], offered[i], banks[i + 1])
  }

  lemma {:induction false} RunKeepsBound(c: Config, offered: seq<Observation>, banks: seq<seq<Observation>>, n: nat)
    requires IsRun(c, offered, banks) && n <= |offered|
    ensures |banks[n]| <= c.capacity && SortedBy(Better, banks[n])
  {
    if n == 0 {
    } else {
      RunKeepsBound(c, offered, banks, n - 1);
      assert Considers(c, banks[n - 1], offered[n - 1], banks[n - 1 + 1]);
      ConsiderImprovesRanks(c, banks[n - 1], offered[n - 1], banks[n]);
    }
  }

  /** Over a whole run the bank stays bounded and sorted, and no rank ever gets worse. */
  lemma {:induction false} RanksNeverGetWorse(c: Config, offered: seq<Observation>, banks: seq<seq<Observation>>,
                                              m: nat, n: nat)
    requires IsRun(c, offered, banks) && m <= n <= |offered|
    ensures |banks[n]| <= c.capacity && SortedBy(Better, banks[n]) && NoWorse(banks[m], banks[n])
  {
    RunKeepsBound(c, offered, banks, n);
    if m == n {
      NoWorseRefl(banks[n]);
    } else {
      RanksNeverGetWorse(c, offered, banks, m, n - 1);
      RunKeepsBound(c, offered, banks, n - 1);
      assert Considers(c, banks[n - 1], offered[n - 1], banks[n - 1 + 1]);
      ConsiderImprovesRanks(c, banks[n - 1], offered[n - 1], banks[n]);
      NoWorseTrans(banks[m], banks[n - 1], banks[n]);
    }
  }

  /** The best retained score is within the margin of every accepted observation ever offered. */
  lemma BestIsWithinMargin(c: Config, offered: seq<Observation>, banks: seq<seq<Observation>>, k: nat)
    requires IsRun(c, offered, banks) && k < |offered| && offered[k].accepted && c.capacity > 0 && c.margin >= 0.0
    ensures var final := banks[|offered|]; final != [] && final[0].quality >= offered[k].quality - c.margin
  {
    RunKeepsBound(c, offered, banks, k);
    assert Considers(c, banks[k], offered[k], banks[k + 1]);
    ConsiderKeepsNearBest(c, banks[k], offered[k], banks[k + 1]);
    RanksNeverGetWorse(c, offered, banks, k + 1, |offered|);
    assert !Better(banks[k + 1][0], banks[|offered|][0]);
  }

  // ----- one call, said directly

  /** Close in time and in pose, each bound written out both ways. */
  ghost predicate Beside(c: Config, a: Observation, b: Observation) {
    && a.timestamp <= b.timestamp + c.minSpacing && b.timestamp <= a.timestamp + c.minSpacing
    && AlikePose(c, a, b)
  }

  ghost predicate AlikePose(c: Config, a: Observation, b: Observation) {
    a.yaw - b.yaw <= c.nearPose && b.yaw - a.yaw <= c.nearPose
  }

  lemma NearMeansBeside(c: Config, a: Observation, b: Observation)
    ensures Near(c, a, b) <==> Beside(c, a, b)
    ensures SamePose(c, a, b) <==> AlikePose(c, a, b)
  {
  }

  /** Greater quality wins, then the earlier timestamp, then the smaller ordinal. */
  ghost predicate Beats(a: Observation, b: Observation) {
    || a.quality > b.quality
    || (a.quality == b.quality && a.timestamp < b.timestamp)
    || (a.quality == b.quality && a.timestamp == b.timestamp && a.ordinal < b.ordinal)
  }

  lemma BetterMeansBeats(a: Observation, b: Observation)
    ensures Better(a, b) <==> Beats(a, b)
  {
  }

  /** The bank is listed from the best to the worst. */
  lemma BankIsRanked(s: seq<Observation>)
    ensures SortedBy(Better, s) <==> forall i, j :: 0 <= i < j < |s| ==> !Beats(s[j], s[i])
  {
    forall i, j | 0 <= i < j < |s| ensures Better(s[j], s[i]) <==> Beats(s[j], s[i]) { BetterMeansBeats(s[j], s[i]); }
  }

  /** The observation replaces the one at `k` and nothing else changes. */
  ghost predicate Takes(c: Config, s: seq<Observation>, o: Observation, k: nat) {
    k < |s| && Place(c, s, o) == Update(Replaced, s[k := o])
  }

  /**
    What a call does to a sorted bank, case by case: a rejected observation nothing; one beside a retained one
    competes with the first such alone; one beside none is added while there is room; and when the bank is full
    it takes the place of the worst exactly if it beats it and either differs in pose from all or clears the margin.
  */
  lemma PlacesExactly(c: Config, s: seq<Observation>, o: Observation)
    requires |s| <= c.capacity
    ensures !o.accepted || c.capacity == 0 <==> Place(c, s, o).change == Rejected
    ensures !o.accepted || c.capacity == 0 ==> Place(c, s, o).contents == s
    ensures forall k :: o.accepted && 0 <= k < |s| && Beside(c, o, s[k])
                        && (forall j :: 0 <= j < k ==> !Beside(c, o, s[j])) ==>
              if Beats(o, s[k]) then Takes(c, s, o, k) else Place(c, s, o) == Update(Unchanged, s)
    ensures o.accepted && |s| < c.capacity && (forall k :: 0 <= k < |s| ==> !Beside(c, o, s[k])) ==>
              Place(c, s, o) == Update(Added, s + [o])
    ensures o.accepted && |s| == c.capacity > 0 && (forall k :: 0 <= k < |s| ==> !Beside(c, o, s[k])) ==>
              var worst := s[|s| - 1];
              if Beats(o, worst) && ((forall k :: 0 <= k < |s| ==> !AlikePose(c, o, s[k]))
                                     || o.quality >= worst.quality + c.margin)
              then Takes(c, s, o, |s| - 1) else Place(c, s, o) == Update(Unchanged, s)
  {
    forall k | 0 <= k < |s|
      ensures (Near(c, o, s[k]) <==> Beside(c, o, s[k])) && (SamePose(c, o, s[k]) <==> AlikePose(c, o, s[k]))
    {
      NearMeansBeside(c, o, s[k]);
    }
    forall k | 0 <= k < |s| ensures Better(o, s[k]) <==> Beats(o, s[k]) { BetterMeansBeats(o, s[k]); }
  }
}

/**
  Per-track accumulation in the offline video pipeline: the five best embeddings, the
  representative picture, and the ordered output. Square root and inverse root are parameters.
*/
module VideoAccumulator {
  import opened Common
  import opened Sorting

  datatype Detection = Detection(frame: nat, x: real, y: real, width: real, height: real, confidence: real)

  datatype VideoObservation = VideoObservation(tracker: nat, detection: Detection, embedding: Embedding, jpeg: seq<nat>)

  datatype Ranked = Ranked(quality: real, frame: nat, embedding: Embedding)

  datatype TrackState = TrackState(ranked: seq<Ranked>, score: real, jpeg: seq<nat>, detections: seq<Detection>)

  const BLANK := TrackState([], -1.0, [], [])

  const TOP: nat := 5

  predicate Better(a: Ranked, b: Ranked) { if a.quality != b.quality then a.quality > b.quality else a.frame < b.frame }

  lemma BetterIsOrder()
    ensures StrictWeakOrder(Better)
  {
  }

  function Clamp(v: real, low: real, high: real): real { Max(low, Min(high, v)) }

  /** The part of the box inside the frame. */
  function Inside(d: Detection, w: real, h: real): Detection {
    var right, bottom := Clamp(d.x + d.width, 0.0, w), Clamp(d.y + d.height, 0.0, h);
    var x, y := Clamp(d.x, 0.0, w), Clamp(d.y, 0.0, h);
    d.(x := x, y := y, width := Max(0.0, right - x), height := Max(0.0, bottom - y))
  }

  /** The clamped box lies in the frame, and a point is in it exactly when it is in the box and in the frame. */
  lemma InsideIsIntersection(d: Detection, w: real, h: real, px: real, py: real)
    requires w >= 0.0 && h >= 0.0 && d.width >= 0.0 && d.height >= 0.0
    ensures var r := Inside(d, w, h);
            && 0.0 <= r.x && r.x + r.width <= w && 0.0 <= r.y && r.y + r.height <= h
            && (d.x < px < d.x + d.width && 0.0 < px < w && d.y < py < d.y + d.height && 0.0 < py < h
                <==> r.x < px < r.x + r.width && r.y < py < r.y + r.height)
  {
  }

  function Quality(root: real -> real, d: Detection): real { d.confidence * root(d.width * d.height) }

  function Rank(root: real -> real, o: VideoObservation, w: real, h: real): Ranked {
    var d := Inside(o.detection, w, h);
    Ranked(Quality(root, d), d.frame, o.embedding)
  }

  function Accumulate(root: real -> real, t: TrackState, o: VideoObservation, w: real, h: real): TrackState {
    var better := o.jpeg != [] && o.detection.confidence > t.score;
    TrackState(FirstN(StableSort(Better, t.ranked + [Rank(root, o, w, h)]), TOP),
               if better then o.detection.confidence else t.score,
               if better then o.jpeg else t.jpeg,
               t.detections + [Inside(o.detection, w, h)])
  }

  /** Right and bottom edges are clamped before the corner moves. */
  method ClipToFrame(detection: Detection, w: real, h: real) returns (d: Detection)
    ensures d == Inside(detection, w, h)
  {
    d := detection;
    var right, bottom := Clamp(d.x + d.width, 0.0, w), Clamp(d.y + d.height, 0.0, h);
    d := d.(x := Clamp(d.x, 0.0, w), y := Clamp(d.y, 0.0, h));
    d := d.(width := Max(0.0, right - d.x), height := Max(0.0, bottom - d.y));
  }

  class VideoTrackAccumulator {
    const root: real -> real
    var tracks: map<nat, TrackState>

    constructor (root: real -> real)
      ensures tracks == map[] && this.root == root
    {
      this.root := root;
      tracks := map[];
    }

    method Add(o: VideoObservation, w: real, h: real)
      modifies this
      ensures tracks == old(tracks)[o.tracker := Accumulate(root, Get(old(tracks), o.tracker, BLANK), o, w, h)]
    {
      var track := Get(tracks, o.tracker, BLANK);
      var d := ClipToFrame(o.detection, w, h);
      ghost var before := track;
      track := track.(detections := track.detections + [d]);
      track := track.(ranked := track.ranked + [Ranked(Quality(root, d), d.frame, o.embedding)]);
      track := track.(ranked := StableSort(Better, track.ranked));
      if |track.ranked| > TOP {
        track := track.(ranked := track.ranked[..TOP]);
      }
      if o.jpeg != [] && d.confidence > track.score {
        track := track.(score := d.confidence, jpeg := o.jpeg);
      }
      assert track == Accumulate(root, before, o, w, h);
      tracks := tracks[o.tracker := track];
    }
  }

  // ----- whole histories of one track

  function AfterAll(root: real -> real, h: seq<VideoObservation>, w: real, ht: real): TrackState {
    if h == [] then BLANK else Accumulate(root, AfterAll(root, h[..|h| - 1], w, ht), h[|h| - 1], w, ht)
  }

  function Ranks(root: real -> real, h: seq<VideoObservation>, w: real, ht: real): (r: seq<Ranked>)
    ensures |r| == |h|
  {
    if h == [] then [] else Ranks(root, h[..|h| - 1], w, ht) + [Rank(root, h[|h| - 1], w, ht)]
  }

  /** Sorting and truncating at every observation keeps the first five of one stable sort of the whole history. */
  lemma {:induction false} OnlineTopFive(root: real -> real, h: seq<VideoObservation>, w: real, ht: real)
    ensures AfterAll(root, h, w, ht).ranked == FirstN(StableSort(Better, Ranks(root, h, w, ht)), TOP)
  {
    if h == [] {
    } else {
      var init := h[..|h| - 1];
      OnlineTopFive(root, init, w, ht);
      BetterIsOrder();
      SortThenTruncate(Better, Ranks(root, init, w, ht), Rank(root, h[|h| - 1], w, ht), TOP);
    }
  }

  predicate Eligible(o: VideoObservation) { o.jpeg != [] && o.detection.confidence > -1.0 }

  /** The picture of the first eligible observation whose confidence no other one exceeds. */
  ghost predicate Represents(h: seq<VideoObservation>, score: real, jpeg: seq<nat>) {
    && (forall i :: 0 <= i < |h| && Eligible(h[i]) ==> h[i].detection.confidence <= score)
    && (if exists i :: 0 <= i < |h| && Eligible(h[i]) then
          exists i :: 0 <= i < |h| && Eligible(h[i]) && h[i].detection.confidence == score && h[i].jpeg == jpeg
                      && forall j :: 0 <= j < i && Eligible(h[j]) ==> h[j].detection.confidence < score
        else score == -1.0 && jpeg == [])
  }

  lemma RepresentsStep(h: seq<VideoObservation>, o: VideoObservation, score: real, jpeg: seq<nat>)
    requires Represents(h, score, jpeg) && score >= -1.0
    ensures var better := o.jpeg != [] && o.detection.confidence > score;
            Represents(h + [o], if better then o.detection.confidence else score, if better then o.jpeg else jpeg)
  {
    var all := h + [o];
    assert all[|h|] == o && forall i :: 0 <= i < |h| ==> all[i] == h[i];
    if !(o.jpeg != [] && o.detection.confidence > score) {
      if i :| 0 <= i < |h| && Eligible(h[i]) {
        var k :| 0 <= k < |h| && Eligible(h[k]) && h[k].detection.confidence == score && h[k].jpeg == jpeg
                 && forall j :: 0 <= j < k && Eligible(h[j]) ==> h[j].detection.confidence < score;
        assert all[k] == h[k];
      }
    }
  }

  lemma {:induction false} RepresentativeIsBest(root: real -> real, h: seq<VideoObservation>, w: real, ht: real)
    ensures var t := AfterAll(root, h, w, ht); Represents(h, t.score, t.jpeg) && t.score >= -1.0
  {
    if h == [] {
    } else {
      var init := h[..|h| - 1];
      RepresentativeIsBest(root, init, w, ht);
      assert h == init + [h[|h| - 1]];
      var t := AfterAll(root, init, w, ht);
      RepresentsStep(init, h[|h| - 1], t.score, t.jpeg);
    }
  }

  // ----- the output

  datatype TrackOutput = TrackOutput(tracker: nat, embedding: Embedding, jpeg: seq<nat>, detections: seq<Detection>)

  function SumAt(ranked: seq<Ranked>, i: nat): real
    requires forall r :: r in ranked ==> i < |r.embedding|
  {
    if ranked == [] then 0.0 else SumAt(ranked[..|ranked| - 1], i) + ranked[|ranked| - 1].embedding[i]
  }

  function Mean(ranked: seq<Ranked>, dimensions: nat): Embedding
    requires ranked != [] && forall r :: r in ranked ==> |r.embedding| == dimensions
  {
    seq(dimensions, i requires 0 <= i < dimensions => SumAt(ranked, i) / |ranked| as real)
  }

  function SquaredNorm(e: Embedding): real {
    if e == [] then 0.0 else SquaredNorm(e[..|e| - 1]) + Square(e[|e| - 1])
  }

  function Times(a: real, b: real): real { a * b }

  function Square(x: real): real { Times(x, x) }

  predicate EarlierFrame(a: Detection, b: Detection) { a.frame < b.frame }

  predicate Usable(t: TrackState, dimensions: nat) {
    && t.ranked != [] && t.detections != []
    && (forall r :: r in t.ranked ==> |r.embedding| == dimensions)
    && SquaredNorm(Mean(t.ranked, dimensions)) > 0.0
  }

  function OutputOf(inverseRoot: real -> real, id: nat, t: TrackState, dimensions: nat): TrackOutput
    requires Usable(t, dimensions)
  {
    var mean := Mean(t.ranked, dimensions);
    TrackOutput(id, Scaled(mean, inverseRoot(SquaredNorm(mean))), t.jpeg, StableSort(EarlierFrame, t.detections))
  }

  function Scaled(e: Embedding, k: real): Embedding { seq(|e|, i requires 0 <= i < |e| => e[i] * k) }

  lemma Commutes(a: real, b: real)
    ensures Times(a, b) == Times(b, a)
  {
  }

  lemma Distributes(a: real, b: real, c: real)
    ensures Times(a, b + c) == Times(a, b) + Times(a, c)
  {
  }

  lemma SquareOfProduct(x: real, k: real)
    ensures Square(x * k) == Times(Times(k, k), Square(x))
  {
  }

  lemma ScaledInit(e: Embedding, k: real)
    requires e != []
    ensures Scaled(e, k)[..|e| - 1] == Scaled(e[..|e| - 1], k) && Scaled(e, k)[|e| - 1] == e[|e| - 1] * k
  {
    var init := e[..|e| - 1];
    forall i | 0 <= i < |init| ensures Scaled(e, k)[i] == Scaled(init, k)[i] { assert init[i] == e[i]; }
  }

  lemma LastSquare(e: Embedding)
    requires e != []
    ensures SquaredNorm(e) == SquaredNorm(e[..|e| - 1]) + Square(e[|e| - 1])
  {
  }

  lemma {:induction false} ScaledNorm(e: Embedding, k: real)
    ensures SquaredNorm(Scaled(e, k)) == Times(Times(k, k), SquaredNorm(e))
  {
    if e == [] {
      OneZero(SquaredNorm(e), Times(k, k));
      Commutes(SquaredNorm(e), Times(k, k));
    } else {
      var init, x := e[..|e| - 1], e[|e| - 1];
      ScaledNorm(init, k);
      ScaledInit(e, k);
      LastSquare(e);
      LastSquare(Scaled(e, k));
      SquareOfProduct(x, k);
      Distributes(Times(k, k), SquaredNorm(init), Square(x));
    }
  }

  /** Every embedding handed on has length one, whatever was observed. */
  lemma OutputIsUnit(inverseRoot: real -> real, id: nat, t: TrackState, dimensions: nat)
    requires Usable(t, dimensions) && forall x: real :: x > 0.0 ==> inverseRoot(x) * inverseRoot(x) * x == 1.0
    ensures SquaredNorm(OutputOf(inverseRoot, id, t, dimensions).embedding) == 1.0
  {
    var mean := Mean(t.ranked, dimensions);
    ScaledNorm(mean, inverseRoot(SquaredNorm(mean)));
  }

  /** The nested loops over components and retained embeddings. */
  method AverageOf(ranked: seq<Ranked>, dimensions: nat) returns (mean: Embedding, normSquared: real)
    requires ranked != [] && forall r :: r in ranked ==> |r.embedding| == dimensions
    ensures mean == Mean(ranked, dimensions) && normSquared == SquaredNorm(mean)
  {
    mean, normSquared := [], 0.0;
    var index := 0;
    while index < dimensions
      invariant 0 <= index <= dimensions && mean == Mean(ranked, dimensions)[..index]
      invariant normSquared == SquaredNorm(mean)
    {
      var sum, k := 0.0, 0;
      while k < |ranked|
        invariant 0 <= k <= |ranked| && sum == SumAt(ranked[..k], index)
      {
        assert ranked[..k + 1][..k] == ranked[..k];
        sum := sum + ranked[k].embedding[index];
        k := k + 1;
      }
      assert ranked[..k] == ranked;
      var value := sum / |ranked| as real;
      assert (mean + [value])[..index] == mean;
      mean := mean + [value];
      normSquared := normSquared + Square(value);
      index := index + 1;
    }
  }

  /** The output loop over the tracker table in whatever order it is iterated. */
  method FinishTracks(inverseRoot: real -> real, tracks: map<nat, TrackState>, order: seq<nat>, dimensions: nat)
    returns (output: seq<TrackOutput>)
    requires forall t :: t in order ==> t in tracks
    requires forall t, r :: t in tracks && r in tracks[t].ranked ==> |r.embedding| == dimensions
    ensures output == Finish(inverseRoot, tracks, order, dimensions)
  {
    output := [];
    var n := 0;
    while n < |order|
      invariant 0 <= n <= |order| && output == Collect(inverseRoot, tracks, order[..n], dimensions)
    {
      assert order[..n + 1][..n] == order[..n];
      var id := order[n];
      var state := tracks[id];
      n := n + 1;
      if state.ranked == [] || state.detections == [] { continue; }
      var mean, normSquared := AverageOf(state.ranked, dimensions);
      if normSquared <= 0.0 { continue; }
      output := output + [TrackOutput(id, Scaled(mean, inverseRoot(normSquared)), state.jpeg,
                                      StableSort(EarlierFrame, state.detections))];
    }
    assert order[..n] == order;
    output := StableSort(Sooner, output);
  }

  function FirstFrame(o: TrackOutput): nat { if o.detections == [] then 0 else o.detections[0].frame }

  predicate Sooner(a: TrackOutput, b: TrackOutput) {
    if FirstFrame(a) != FirstFrame(b) then FirstFrame(a) < FirstFrame(b) else a.tracker < b.tracker
  }

  /** The outputs of the usable tracks in the order `order` visits them. */
  function Collect(inverseRoot: real -> real, tracks: map<nat, TrackState>, order: seq<nat>,
                   dimensions: nat): seq<TrackOutput>
    requires forall t :: t in order ==> t in tracks
  {
    if order == [] then []
    else
      var id := order[|order| - 1];
      Collect(inverseRoot, tracks, order[..|order| - 1], dimensions)
      + if Usable(tracks[id], dimensions) then [OutputOf(inverseRoot, id, tracks[id], dimensions)] else []
  }

  function Finish(inverseRoot: real -> real, tracks: map<nat, TrackState>, order: seq<nat>,
                  dimensions: nat): seq<TrackOutput>
    requires forall t :: t in order ==> t in tracks
  {
    StableSort(Sooner, Collect(inverseRoot, tracks, order, dimensions))
  }

  lemma SoonerIsOrder()
    ensures StrictWeakOrder(Sooner)
  {
  }

  lemma {:induction false} CollectContents(inverseRoot: real -> real, tracks: map<nat, TrackState>, order: seq<nat>,
                                           dimensions: nat, o: TrackOutput)
    requires Distinct(order) && forall t :: t in order ==> t in tracks
    ensures multiset(Collect(inverseRoot, tracks, order, dimensions))[o] ==
            if o.tracker in order && Usable(tracks[o.tracker], dimensions)
               && o == OutputOf(inverseRoot, o.tracker, tracks[o.tracker], dimensions) then 1 else 0
  {
    if order == [] {
    } else {
      var init, id := order[..|order| - 1], order[|order| - 1];
      CollectContents(inverseRoot, tracks, init, dimensions, o);
      assert order == init + [id];
    }
  }

  ghost predicate Enumerates(tracks: map<nat, TrackState>, order: seq<nat>) {
    Distinct(order) && forall t :: t in order <==> t in tracks
  }

  lemma SameOutputs(inverseRoot: real -> real, tracks: map<nat, TrackState>, a: seq<nat>, b: seq<nat>, dimensions: nat)
    requires Enumerates(tracks, a) && Enumerates(tracks, b)
    ensures multiset(Collect(inverseRoot, tracks, a, dimensions))
            == multiset(Collect(inverseRoot, tracks, b, dimensions))
  {
    var ca, cb := Collect(inverseRoot, tracks, a, dimensions), Collect(inverseRoot, tracks, b, dimensions);
    forall o ensures multiset(ca)[o] == multiset(cb)[o] {
      CollectContents(inverseRoot, tracks, a, dimensions, o);
      CollectContents(inverseRoot, tracks, b, dimensions, o);
    }
  }

  lemma OutputsHaveNoTies(inverseRoot: real -> real, tracks: map<nat, TrackState>, order: seq<nat>, dimensions: nat,
                          x: TrackOutput, y: TrackOutput)
    requires Enumerates(tracks, order) && Tied(Sooner, x, y)
    requires x in Collect(inverseRoot, tracks, order, dimensions)
             && y in Collect(inverseRoot, tracks, order, dimensions)
    ensures x == y
  {
    var c := Collect(inverseRoot, tracks, order, dimensions);
    assert x in multiset(c) && y in multiset(c);
    CollectContents(inverseRoot, tracks, order, dimensions, x);
    CollectContents(inverseRoot, tracks, order, dimensions, y);
  }

  /** The tracker table is a hash map; its iteration order does not reach the output. */
  lemma FinishIgnoresHashOrder(inverseRoot: real -> real, tracks: map<nat, TrackState>, a: seq<nat>, b: seq<nat>,
                               dimensions: nat)
    requires Enumerates(tracks, a) && Enumerates(tracks, b)
    ensures Finish(inverseRoot, tracks, a, dimensions) == Finish(inverseRoot, tracks, b, dimensions)
  {
    var ca, cb := Collect(inverseRoot, tracks, a, dimensions), Collect(inverseRoot, tracks, b, dimensions);
    SameOutputs(inverseRoot, tracks, a, b, dimensions);
    forall x, y | x in ca && y in ca && Tied(Sooner, x, y) ensures x == y {
      OutputsHaveNoTies(inverseRoot, tracks, a, dimensions, x, y);
    }
    SoonerIsOrder();
    SortIgnoresInputOrder(Sooner, ca, cb);
  }

  // ----- what is kept and in which order, said directly

  /** Higher quality first, and the earlier frame among equals. */
  predicate Outranks(a: Ranked, b: Ranked) { a.quality > b.quality || (a.quality == b.quality && a.frame < b.frame) }

  /** The rank of an observation: its confidence times the root of the area of its box inside the frame. */
  ghost predicate IsRankOf(root: real -> real, o: VideoObservation, w: real, ht: real, r: Ranked) {
    && r.quality == o.detection.confidence * root(Inside(o.detection, w, ht).width * Inside(o.detection, w, ht).height)
    && r.frame == o.detection.frame && r.embedding == o.embedding
  }

  lemma {:induction false} RanksAre(root: real -> real, h: seq<VideoObservation>, w: real, ht: real, k: nat)
    requires k < |h|
    ensures IsRankOf(root, h[k], w, ht, Ranks(root, h, w, ht)[k])
  {
    var init, last := h[..|h| - 1], h[|h| - 1];
    if k == |h| - 1 {
      assert IsRankOf(root, last, w, ht, Rank(root, last, w, ht));
    } else {
      RanksAre(root, init, w, ht, k);
      assert init[k] == h[k] && Ranks(root, h, w, ht)[k] == Ranks(root, init, w, ht)[k];
    }
  }

  lemma SortedRanks(ranks: seq<Ranked>)
    ensures var s := StableSort(Better, ranks);
            && |s| == |ranks| && multiset(s) == multiset(ranks)
            && forall i, j :: 0 <= i < j < |s| ==> !Outranks(s[j], s[i])
  {
    BetterIsOrder();
    StableSortSorts(Better, ranks);
    var s := StableSort(Better, ranks);
    assert |multiset(s)| == |s| && |multiset(ranks)| == |ranks|;
    forall i, j | 0 <= i < j < |s| ensures !Outranks(s[j], s[i]) { assert !Better(s[j], s[i]); }
  }

  lemma PlaceOf(s: seq<Ranked>, ranks: seq<Ranked>, k: nat) returns (i: nat)
    requires multiset(s) == multiset(ranks) && k < |ranks|
    ensures i < |s| && s[i] == ranks[k]
  {
    assert ranks[k] in multiset(s);
    i :| 0 <= i < |s| && s[i] == ranks[k];
  }

  /** `kept` are ranks in order, and whatever rank is not kept outranks nothing that is. */
  ghost predicate Best(ranks: seq<Ranked>, kept: seq<Ranked>) {
    && (forall i, j :: 0 <= i < j < |kept| ==> !Outranks(kept[j], kept[i]))
    && (forall i :: 0 <= i < |kept| ==> kept[i] in ranks)
    && (forall k, i :: 0 <= k < |ranks| && 0 <= i < |kept| && ranks[k] !in kept ==> !Outranks(ranks[k], kept[i]))
  }

  lemma LeftOutIsBehind(s: seq<Ranked>, ranks: seq<Ranked>, n: nat, k: nat, i: nat)
    requires n <= |s| && multiset(s) == multiset(ranks) && k < |ranks| && i < n && ranks[k] !in s[..n]
    requires forall i, j :: 0 <= i < j < |s| ==> !Outranks(s[j], s[i])
    ensures !Outranks(ranks[k], s[i])
  {
    var j := PlaceOf(s, ranks, k);
    assert forall m :: 0 <= m < n ==> s[m] in s[..n];
  }

  lemma FrontIsBest(s: seq<Ranked>, ranks: seq<Ranked>, n: nat)
    requires n <= |s| && multiset(s) == multiset(ranks)
    requires forall i, j :: 0 <= i < j < |s| ==> !Outranks(s[j], s[i])
    ensures Best(ranks, s[..n])
  {
    var kept := s[..n];
    forall i | 0 <= i < n ensures kept[i] in ranks { assert s[i] in multiset(ranks); }
    forall k, i | 0 <= k < |ranks| && 0 <= i < n && ranks[k] !in kept ensures !Outranks(ranks[k], kept[i]) {
      LeftOutIsBehind(s, ranks, n, k, i);
    }
  }

  /**
    For every history: the best five embeddings are kept, or all while there are fewer, none outranked by a
    later one, and whatever is not kept outranks nothing that is.
  */
  lemma KeptAreTheBestFive(root: real -> real, h: seq<VideoObservation>, w: real, ht: real)
    ensures var kept := AfterAll(root, h, w, ht).ranked;
            |kept| == (if |h| < 5 then |h| else 5) && Best(Ranks(root, h, w, ht), kept)
  {
    var ranks := Ranks(root, h, w, ht);
    var s := StableSort(Better, ranks);
    OnlineTopFive(root, h, w, ht);
    SortedRanks(ranks);
    var n := if |h| < 5 then |h| else 5;
    FrontIsBest(s, ranks, n);
    assert AfterAll(root, h, w, ht).ranked == s[..n];
  }

  lemma {:induction false} DetectionsAreAll(root: real -> real, h: seq<VideoObservation>, w: real, ht: real, k: nat)
    requires k < |h|
    ensures var d := AfterAll(root, h, w, ht).detections; |d| == |h| && d[k] == Inside(h[k].detection, w, ht)
  {
    if |h| == 1 {
      assert h[..0] == [];
    } else {
      DetectionsAreAll(root, h[..|h| - 1], w, ht, if k < |h| - 1 then k else 0);
    }
  }

  /** The detections of an output are those of its track, in frame order. */
  lemma OutputInFrameOrder(inverseRoot: real -> real, id: nat, t: TrackState, dimensions: nat)
    requires Usable(t, dimensions)
    ensures var d := OutputOf(inverseRoot, id, t, dimensions).detections;
            && multiset(d) == multiset(t.detections) && d != []
            && forall i, j :: 0 <= i < j < |d| ==> d[i].frame <= d[j].frame
  {
    FramesAreOrder();
    StableSortSorts(EarlierFrame, t.detections);
    var d := StableSort(EarlierFrame, t.detections);
    assert |multiset(d)| == |d| && |multiset(t.detections)| == |t.detections|;
    forall i, j | 0 <= i < j < |d| ensures d[i].frame <= d[j].frame { assert !EarlierFrame(d[j], d[i]); }
  }

  lemma FramesAreOrder()
    ensures StrictWeakOrder(EarlierFrame)
  {
  }

  /** Outputs come by first frame, and by tracker id among those that begin together. */
  lemma OutputsByFrameThenTracker(inverseRoot: real -> real, tracks: map<nat, TrackState>, order: seq<nat>,
                                  dimensions: nat)
    requires forall t :: t in order ==> t in tracks
    ensures var out := Finish(inverseRoot, tracks, order, dimensions);
            && multiset(out) == multiset(Collect(inverseRoot, tracks, order, dimensions))
            && forall i, j :: 0 <= i < j < |out| ==>
                 || FirstFrame(out[i]) < FirstFrame(out[j])
                 || (FirstFrame(out[i]) == FirstFrame(out[j]) && out[i].tracker <= out[j].tracker)
  {
    SoonerIsOrder();
    StableSortSorts(Sooner, Collect(inverseRoot, tracks, order, dimensions));
    var out := Finish(inverseRoot, tracks, order, dimensions);
    forall i, j | 0 <= i < j < |out|
      ensures || FirstFrame(out[i]) < FirstFrame(out[j])
              || (FirstFrame(out[i]) == FirstFrame(out[j]) && out[i].tracker <= out[j].tracker)
    {
      assert !Sooner(out[j], out[i]);
    }
  }

  /** A mean times the number of embeddings is their sum, which grows by each one. */
  lemma MeanIsAverage(ranked: seq<Ranked>, r: Ranked, dimensions: nat, i: nat)
    requires ranked != [] && i < dimensions && |r.embedding| == dimensions
    requires forall q :: q in ranked ==> |q.embedding| == dimensions
    ensures Mean(ranked, dimensions)[i] * |ranked| as real == SumAt(ranked, i)
    ensures (forall q :: q in ranked + [r] ==> |q.embedding| == dimensions)
            && SumAt(ranked + [r], i) == SumAt(ranked, i) + r.embedding[i] && SumAt([r], i) == r.embedding[i]
  {
    assert (ranked + [r])[..|ranked|] == ranked && [r][..0] == [];
  }

  predicate NonZero(e: Embedding) { exists i :: 0 <= i < |e| && e[i] != 0.0 }

  lemma BothPositive(a: real, b: real)
    requires a > 0.0 && b > 0.0
    ensures Times(a, b) > 0.0
  {
  }

  lemma BothNegative(a: real, b: real)
    requires a < 0.0 && b < 0.0
    ensures Times(a, b) > 0.0
  {
    BothPositive(-a, -b);
    assert (-a) * (-b) == a * b;
  }

  lemma OneZero(a: real, b: real)
    requires a == 0.0
    ensures Times(a, b) == 0.0
  {
  }

  lemma SquareSign(x: real)
    ensures if x == 0.0 then Square(x) == 0.0 else Square(x) > 0.0
  {
    if x > 0.0 {
      BothPositive(x, x);
    } else if x < 0.0 {
      BothNegative(x, x);
    } else {
      OneZero(x, x);
    }
  }

  lemma NonZeroAppend(init: Embedding, x: real)
    ensures NonZero(init + [x]) <==> NonZero(init) || x != 0.0
  {
    var e := init + [x];
    assert e[|init|] == x && forall i :: 0 <= i < |init| ==> e[i] == init[i];
  }

  /** One more component leaves the length alone exactly if it is zero, and else makes it greater. */
  lemma NormGrows(e: Embedding)
    requires e != []
    ensures var x, before := e[|e| - 1], SquaredNorm(e[..|e| - 1]);
            if x == 0.0 then SquaredNorm(e) == before else SquaredNorm(e) > before
  {
    LastSquare(e);
    SquareSign(e[|e| - 1]);
  }

  lemma {:induction false} NormIsPositiveExactly(e: Embedding)
    ensures SquaredNorm(e) >= 0.0
    ensures SquaredNorm(e) > 0.0 <==> NonZero(e)
  {
    if e == [] {
    } else {
      var init, x := e[..|e| - 1], e[|e| - 1];
      NormIsPositiveExactly(init);
      NormGrows(e);
      NonZeroAppend(init, x);
      assert e == init + [x];
    }
  }

  /** A track is put out exactly when it has embeddings and detections and its mean is not the zero vector. */
  lemma PutOutExactly(t: TrackState, dimensions: nat)
    requires forall r :: r in t.ranked ==> |r.embedding| == dimensions
    ensures Usable(t, dimensions) <==>
              && t.ranked != [] && t.detections != []
              && NonZero(Mean(t.ranked, dimensions))
  {
    if t.ranked != [] { NormIsPositiveExactly(Mean(t.ranked, dimensions)); }
  }

  /** The output has one entry for each such track and no other. */
  lemma EveryUsableTrackIsPutOut(inverseRoot: real -> real, tracks: map<nat, TrackState>, order: seq<nat>,
                                 dimensions: nat, id: nat)
    requires Enumerates(tracks, order)
    ensures (exists o :: o in Collect(inverseRoot, tracks, order, dimensions) && o.tracker == id) <==>
              id in tracks && Usable(tracks[id], dimensions)
  {
    var out := Collect(inverseRoot, tracks, order, dimensions);
    if o :| o in out && o.tracker == id {
      assert o in multiset(out);
      CollectContents(inverseRoot, tracks, order, dimensions, o);
    }
    if id in tracks && Usable(tracks[id], dimensions) {
      var o := OutputOf(inverseRoot, id, tracks[id], dimensions);
      CollectContents(inverseRoot, tracks, order, dimensions, o);
      assert o in multiset(out);
    }
  }
}

/**
  Merging raw video tracks into canonical ones: greedy, complete linkage, in order of first
  appearance. Scaling a vector to unit length is a parameter that may refuse, as the original
  raises for a vector without length.
*/
module Reconciliation {
  import opened Common
  import opened Sorting
  import opened Sums

  datatype Detection = Detection(frame: nat, timestamp: real, confidence: real)

  datatype RawTrack = RawTrack(tracker: nat, embedding: Embedding, jpeg: seq<nat>, detections: seq<Detection>)

  /** A canonical track under construction: its raw tracks in merge order and what is derived from them. */
  datatype Working = Working(sources: seq<RawTrack>, embedding: Embedding, jpeg: seq<nat>, score: real,
                             detections: seq<Detection>)

  datatype Config = Config(threshold: real, maxGap: real, unit: Embedding -> Option<Embedding>)

  function Cosine(a: Embedding, b: Embedding): real { if |a| != |b| || a == [] then 0.0 else Dot(a, b) }

  /** Component-wise sum, as long as the shorter vector. */
  function AddEach(a: Embedding, b: Embedding): Embedding {
    seq(if |a| <= |b| then |a| else |b|, i requires 0 <= i < |a| && i < |b| => a[i] + b[i])
  }

  predicate EarlierFrame(a: Detection, b: Detection) { a.frame < b.frame }

  function First(d: seq<Detection>): nat { if d == [] then 0 else d[0].frame }

  function Last(d: seq<Detection>): nat { if d == [] then 0 else d[|d| - 1].frame }

  predicate Overlaps(a: seq<Detection>, b: seq<Detection>) {
    First(a) <= Last(b) && First(b) <= Last(a)
  }

  function BestConfidence(d: seq<Detection>): real
    requires d != []
  {
    if |d| == 1 then d[0].confidence else Max(BestConfidence(d[..|d| - 1]), d[|d| - 1].confidence)
  }

  predicate Sooner(a: RawTrack, b: RawTrack) {
    if a.detections == [] || b.detections == [] then a.detections != [] && b.detections == []
    else if First(a.detections) != First(b.detections) then First(a.detections) < First(b.detections)
    else a.tracker < b.tracker
  }

  predicate Linked(cfg: Config, sources: seq<RawTrack>, raw: RawTrack) {
    forall i :: 0 <= i < |sources| ==> Cosine(sources[i].embedding, raw.embedding) >= cfg.threshold
  }

  predicate Candidate(cfg: Config, w: Working, raw: RawTrack) {
    w.detections != [] && !Overlaps(w.detections, raw.detections) && Linked(cfg, w.sources, raw)
  }

  /** The first candidate of greatest similarity, or `None`. */
  ghost predicate IsBest(cfg: Config, working: seq<Working>, raw: RawTrack, best: Option<nat>) {
    match best
    case None => forall i :: 0 <= i < |working| ==> !Candidate(cfg, working[i], raw)
    case Some(k) =>
      && k < |working| && Candidate(cfg, working[k], raw)
      && (forall i :: 0 <= i < |working| && Candidate(cfg, working[i], raw) ==>
            Cosine(working[i].embedding, raw.embedding) <= Cosine(working[k].embedding, raw.embedding))
      && (forall i :: 0 <= i < k && Candidate(cfg, working[i], raw) ==>
            Cosine(working[i].embedding, raw.embedding) < Cosine(working[k].embedding, raw.embedding))
  }

  /** What the scan over the candidates keeps. */
  function BestOf(cfg: Config, working: seq<Working>, raw: RawTrack): (best: Option<nat>)
    ensures best.Some? ==> best.value < |working|
  {
    if working == [] then None
    else
      var init, w := working[..|working| - 1], working[|working| - 1];
      var best := BestOf(cfg, init, raw);
      if Candidate(cfg, w, raw)
         && (best.None? || Cosine(w.embedding, raw.embedding) > Cosine(init[best.value].embedding, raw.embedding))
      then Some(|init|) else best
  }

  lemma {:induction false} BestOfIsBest(cfg: Config, working: seq<Working>, raw: RawTrack)
    ensures IsBest(cfg, working, raw, BestOf(cfg, working, raw))
  {
    if working == [] {
    } else {
      BestOfIsBest(cfg, working[..|working| - 1], raw);
    }
  }

  method FindBest(cfg: Config, working: seq<Working>, raw: RawTrack) returns (best: Option<nat>)
    ensures best == BestOf(cfg, working, raw)
    ensures IsBest(cfg, working, raw, best)
  {
    best := None;
    var i := 0;
    while i < |working|
      invariant 0 <= i <= |working| && best == BestOf(cfg, working[..i], raw)
    {
      assert working[..i + 1][..i] == working[..i];
      if Candidate(cfg, working[i], raw)
         && (best.None?
             || Cosine(working[i].embedding, raw.embedding) > Cosine(working[best.value].embedding, raw.embedding))
      {
        best := Some(i);
      }
      i := i + 1;
    }
    assert working[..i] == working;
    BestOfIsBest(cfg, working, raw);
  }

  function Opened(cfg: Config, raw: RawTrack): Option<Working>
    requires raw.detections != []
  {
    match cfg.unit(raw.embedding)
    case None => None
    case Some(e) =>
      Some(Working([raw], e, raw.jpeg, BestConfidence(StableSort(EarlierFrame, raw.detections)),
                   StableSort(EarlierFrame, raw.detections)))
  }

  function Merged(cfg: Config, w: Working, raw: RawTrack): Option<Working>
    requires raw.detections != []
  {
    match cfg.unit(AddEach(w.embedding, raw.embedding))
    case None => None
    case Some(e) =>
      var better := raw.jpeg != [] && BestConfidence(raw.detections) > w.score;
      Some(Working(w.sources + [raw], e, if better then raw.jpeg else w.jpeg,
                   if better then BestConfidence(raw.detections) else w.score,
                   StableSort(EarlierFrame, w.detections + raw.detections)))
  }

  /** One pass of the loop body: merge into the best candidate or open a new track; `None` when it raises. */
  function Absorb(cfg: Config, working: seq<Working>, raw: RawTrack): Option<seq<Working>>
    requires raw.detections != []
  {
    match BestOf(cfg, working, raw)
    case None => (match Opened(cfg, raw) case None => None case Some(w) => Some(working + [w]))
    case Some(k) => (match Merged(cfg, working[k], raw) case None => None case Some(w) => Some(working[k := w]))
  }

  predicate AllNonEmpty(raws: seq<RawTrack>) { forall i :: 0 <= i < |raws| ==> raws[i].detections != [] }

  function AbsorbAll(cfg: Config, raws: seq<RawTrack>): Option<seq<Working>>
    requires AllNonEmpty(raws)
  {
    if raws == [] then Some([])
    else
      match AbsorbAll(cfg, raws[..|raws| - 1])
      case None => None
      case Some(working) => Absorb(cfg, working, raws[|raws| - 1])
  }

  // ----- what every pass keeps

  ghost predicate FramesSorted(raw: RawTrack) { raw.detections != [] && SortedBy(EarlierFrame, raw.detections) }

  ghost predicate AllSorted(raws: seq<RawTrack>) {
    forall i {:trigger raws[i]} :: 0 <= i < |raws| ==> FramesSorted(raws[i])
  }

  function Joined(sources: seq<RawTrack>): seq<Detection> {
    if sources == [] then [] else Joined(sources[..|sources| - 1]) + sources[|sources| - 1].detections
  }

  /** Two raw tracks that may not share a canonical track. */
  predicate Conflicts(cfg: Config, x: RawTrack, y: RawTrack) {
    Overlaps(x.detections, y.detections) || Cosine(x.embedding, y.embedding) < cfg.threshold
  }

  /** Earlier sources end before later ones begin, and every two are similar enough. */
  ghost predicate Chained(cfg: Config, sources: seq<RawTrack>) {
    forall i, j :: 0 <= i < j < |sources| ==>
      && Last(sources[i].detections) < First(sources[j].detections)
      && Cosine(sources[i].embedding, sources[j].embedding) >= cfg.threshold
  }

  lemma ChainedAppend(cfg: Config, sources: seq<RawTrack>, raw: RawTrack)
    requires sources != [] && FramesSorted(raw) && AllSorted(sources)
    requires Chained(cfg, sources) && Linked(cfg, sources, raw)
    requires Last(sources[|sources| - 1].detections) < First(raw.detections)
    ensures Chained(cfg, sources + [raw])
  {
    var all, l := sources + [raw], |sources| - 1;
    SortedEnds(sources[l].detections);
    forall i, j | 0 <= i < j < |all|
      ensures Last(all[i].detections) < First(all[j].detections)
              && Cosine(all[i].embedding, all[j].embedding) >= cfg.threshold
    {
      if j == |sources| && i < l {
        assert Last(sources[i].detections) < First(sources[l].detections);
      }
    }
  }

  /** The picture is that of the source with the most confident detection among those that have one. */
  ghost predicate Represented(w: Working)
    requires AllNonEmpty(w.sources)
  {
    && (exists k :: 0 <= k < |w.sources| && w.jpeg == w.sources[k].jpeg
          && w.score == BestConfidence(w.sources[k].detections) && (k == 0 || w.jpeg != []))
    && (forall k :: 0 <= k < |w.sources| && w.sources[k].jpeg != [] ==>
          BestConfidence(w.sources[k].detections) <= w.score)
  }

  /** Sources are linked pairwise, disjoint in time and in time order; detections are their plain concatenation. */
  ghost predicate Sound(cfg: Config, w: Working) {
    && w.sources != [] && AllSorted(w.sources)
    && w.detections == Joined(w.sources) && w.detections != []
    && First(w.detections) == First(w.sources[0].detections)
    && Last(w.detections) == Last(w.sources[|w.sources| - 1].detections)
    && SortedBy(EarlierFrame, w.detections)
    && Chained(cfg, w.sources)
    && AllNonEmpty(w.sources) && Represented(w)
    && Embeds(cfg, w.sources, w.embedding)
  }

  /** `sum` adds the two vectors component by component, as far as both go. */
  ghost predicate IsSum(sum: Embedding, a: Embedding, b: Embedding) {
    && |sum| <= |a| && |sum| <= |b| && (|sum| == |a| || |sum| == |b|)
    && forall i :: 0 <= i < |sum| ==> sum[i] == a[i] + b[i]
  }

  /**
    The embedding of a canonical track, source by source: that of the first scaled to unit length, and for
    each further one the sum with the source's own, scaled again.
  */
  ghost predicate Embeds(cfg: Config, sources: seq<RawTrack>, e: Embedding) {
    && sources != []
    && var init, last := sources[..|sources| - 1], sources[|sources| - 1];
       if |sources| == 1 then cfg.unit(last.embedding) == Some(e)
       else exists before, sum ::
              Embeds(cfg, init, before) && IsSum(sum, before, last.embedding) && cfg.unit(sum) == Some(e)
  }

  /** Something in `a` conflicts with the raw track that opened `b`. */
  ghost predicate Apart(cfg: Config, a: Working, b: Working) {
    b.sources != [] && exists i :: 0 <= i < |a.sources| && Conflicts(cfg, a.sources[i], b.sources[0])
  }

  ghost predicate AllSound(cfg: Config, working: seq<Working>) {
    forall i :: 0 <= i < |working| ==> Sound(cfg, working[i])
  }

  ghost predicate Maximal(cfg: Config, working: seq<Working>) {
    forall i, j :: 0 <= i < j < |working| ==> Apart(cfg, working[i], working[j])
  }

  /** Everything merged so far began no later than `raw` does. */
  ghost predicate AllBegan(working: seq<Working>, raw: RawTrack) {
    forall i, k :: 0 <= i < |working| && 0 <= k < |working[i].sources| ==>
      First(working[i].sources[k].detections) <= First(raw.detections)
  }

  lemma SortedEnds(d: seq<Detection>)
    requires d != [] && SortedBy(EarlierFrame, d)
    ensures First(d) <= Last(d)
  {
    if |d| > 1 { assert !EarlierFrame(d[|d| - 1], d[0]); }
  }

  lemma JoinedAppend(sources: seq<RawTrack>, raw: RawTrack)
    ensures Joined(sources + [raw]) == Joined(sources) + raw.detections
  {
    assert (sources + [raw])[..|sources|] == sources;
  }

  lemma SortedConcat(a: seq<Detection>, b: seq<Detection>)
    requires a != [] && b != [] && SortedBy(EarlierFrame, a) && SortedBy(EarlierFrame, b) && Last(a) < First(b)
    ensures SortedBy(EarlierFrame, a + b)
  {
    var c := a + b;
    forall i, j | 0 <= i < j < |c| ensures !EarlierFrame(c[j], c[i]) {
      if i < |a| && j >= |a| {
        assert i == |a| - 1 || !EarlierFrame(a[|a| - 1], a[i]);
        assert j == |a| || !EarlierFrame(b[j - |a|], b[0]);
      }
    }
  }

  lemma OpenedIsSound(cfg: Config, raw: RawTrack)
    requires FramesSorted(raw) && Opened(cfg, raw).Some?
    ensures Sound(cfg, Opened(cfg, raw).value) && Opened(cfg, raw).value.sources == [raw]
  {
    StableSortIdempotent(EarlierFrame, raw.detections);
    JoinedAppend([], raw);
    assert [] + [raw] == [raw];
  }

  /** A merge only ever appends in time, so the re-sort changes nothing. */
  lemma MergeAppends(cfg: Config, w: Working, raw: RawTrack)
    requires Sound(cfg, w) && FramesSorted(raw) && !Overlaps(w.detections, raw.detections)
    requires First(w.sources[0].detections) <= First(raw.detections)
    ensures Last(w.detections) < First(raw.detections)
    ensures StableSort(EarlierFrame, w.detections + raw.detections) == w.detections + raw.detections
    ensures SortedBy(EarlierFrame, w.detections + raw.detections)
  {
    SortedEnds(raw.detections);
    SortedConcat(w.detections, raw.detections);
    StableSortIdempotent(EarlierFrame, w.detections + raw.detections);
  }

  lemma MergedEmbeds(cfg: Config, w: Working, raw: RawTrack)
    requires Embeds(cfg, w.sources, w.embedding) && raw.detections != [] && Merged(cfg, w, raw).Some?
    ensures var m := Merged(cfg, w, raw).value; Embeds(cfg, m.sources, m.embedding)
  {
    var m := Merged(cfg, w, raw).value;
    assert m.sources[..|m.sources| - 1] == w.sources && m.sources[|m.sources| - 1] == raw;
    assert IsSum(AddEach(w.embedding, raw.embedding), w.embedding, raw.embedding);
  }

  lemma MergedIsRepresented(cfg: Config, w: Working, raw: RawTrack)
    requires AllNonEmpty(w.sources) && Represented(w) && raw.detections != [] && Merged(cfg, w, raw).Some?
    ensures var m := Merged(cfg, w, raw).value; AllNonEmpty(m.sources) && Represented(m)
  {
    var m := Merged(cfg, w, raw).value;
    assert m.sources == w.sources + [raw] && m.sources[|w.sources|] == raw;
    var k :| 0 <= k < |w.sources| && w.jpeg == w.sources[k].jpeg
      && w.score == BestConfidence(w.sources[k].detections) && (k == 0 || w.jpeg != []);
    var best := if raw.jpeg != [] && BestConfidence(raw.detections) > w.score then |w.sources| else k;
    assert m.jpeg == m.sources[best].jpeg && m.score == BestConfidence(m.sources[best].detections);
  }

  lemma MergedDetections(cfg: Config, w: Working, raw: RawTrack)
    requires w.sources != [] && w.detections != [] && w.detections == Joined(w.sources)
    requires First(w.detections) == First(w.sources[0].detections)
    requires raw.detections != [] && Merged(cfg, w, raw).Some?
    requires StableSort(EarlierFrame, w.detections + raw.detections) == w.detections + raw.detections
    ensures var m := Merged(cfg, w, raw).value;
            && m.detections == w.detections + raw.detections == Joined(m.sources) && m.detections != []
            && First(m.detections) == First(m.sources[0].detections)
            && Last(m.detections) == Last(m.sources[|m.sources| - 1].detections)
  {
    JoinedAppend(w.sources, raw);
  }

  lemma SortedAppend(sources: seq<RawTrack>, raw: RawTrack)
    requires AllSorted(sources) && FramesSorted(raw)
    ensures AllSorted(sources + [raw])
  {
  }

  lemma MergedIsSound(cfg: Config, w: Working, raw: RawTrack)
    requires Sound(cfg, w) && FramesSorted(raw) && Candidate(cfg, w, raw) && Merged(cfg, w, raw).Some?
    requires First(w.sources[0].detections) <= First(raw.detections)
    ensures Sound(cfg, Merged(cfg, w, raw).value) && Merged(cfg, w, raw).value.sources == w.sources + [raw]
  {
    var m := Merged(cfg, w, raw).value;
    MergeAppends(cfg, w, raw);
    MergedDetections(cfg, w, raw);
    ChainedAppend(cfg, w.sources, raw);
    MergedIsRepresented(cfg, w, raw);
    MergedEmbeds(cfg, w, raw);
    SortedAppend(w.sources, raw);
  }

  /** A track that is no candidate already contains something that conflicts with the raw track. */
  lemma RefusedMeansConflict(cfg: Config, w: Working, raw: RawTrack)
    requires Sound(cfg, w) && FramesSorted(raw) && !Candidate(cfg, w, raw)
    requires forall k :: 0 <= k < |w.sources| ==> First(w.sources[k].detections) <= First(raw.detections)
    ensures exists i :: 0 <= i < |w.sources| && Conflicts(cfg, w.sources[i], raw)
  {
    SortedEnds(raw.detections);
    if Overlaps(w.detections, raw.detections) {
      var l := |w.sources| - 1;
      assert Overlaps(w.sources[l].detections, raw.detections);
      assert Conflicts(cfg, w.sources[l], raw);
    } else {
      var i :| 0 <= i < |w.sources| && Cosine(w.sources[i].embedding, raw.embedding) < cfg.threshold;
      assert Conflicts(cfg, w.sources[i], raw);
    }
  }

  ghost predicate Good(cfg: Config, working: seq<Working>) { AllSound(cfg, working) && Maximal(cfg, working) }

  /** The raw tracks a canonical track is made of, all tracks together. */
  function AllSources(working: seq<Working>): multiset<RawTrack> {
    if working == [] then multiset{}
    else AllSources(working[..|working| - 1]) + multiset(working[|working| - 1].sources)
  }

  lemma {:induction false} SourcesUpdate(working: seq<Working>, k: nat, w: Working, raw: RawTrack)
    requires k < |working| && w.sources == working[k].sources + [raw]
    ensures AllSources(working[k := w]) == AllSources(working) + multiset{raw}
  {
    var init, last := working[..|working| - 1], |working| - 1;
    if k == last {
      assert working[k := w][..last] == init;
    } else {
      assert working[k := w][..last] == init[k := w];
      SourcesUpdate(init, k, w, raw);
    }
  }

  lemma OpenStep(cfg: Config, working: seq<Working>, raw: RawTrack, w: Working)
    requires Good(cfg, working) && FramesSorted(raw) && AllBegan(working, raw)
    requires IsBest(cfg, working, raw, None) && Opened(cfg, raw) == Some(w)
    ensures Good(cfg, working + [w]) && AllSources(working + [w]) == AllSources(working) + multiset{raw}
  {
    OpenedIsSound(cfg, raw);
    var after := working + [w];
    assert after[..|working|] == working;
    assert AllSound(cfg, after);
    forall i, j | 0 <= i < j < |after| ensures Apart(cfg, after[i], after[j]) {
      if j == |working| {
        RefusedMeansConflict(cfg, working[i], raw);
      } else {
        assert Apart(cfg, working[i], working[j]);
      }
    }
  }

  /** Growing a track at the end leaves it apart from the others. */
  lemma ApartGrows(cfg: Config, a: Working, a': Working, b: Working, b': Working)
    requires Apart(cfg, a, b)
    requires a.sources <= a'.sources && b.sources <= b'.sources
    ensures Apart(cfg, a', b')
  {
    var x :| 0 <= x < |a.sources| && Conflicts(cfg, a.sources[x], b.sources[0]);
    assert a'.sources[x] == a.sources[x] && b'.sources[0] == b.sources[0];
  }

  lemma MaximalGrows(cfg: Config, working: seq<Working>, raw: RawTrack, k: nat, w: Working)
    requires Maximal(cfg, working) && k < |working| && w.sources == working[k].sources + [raw]
    ensures Maximal(cfg, working[k := w])
  {
    var after := working[k := w];
    forall i, j | 0 <= i < j < |after| ensures Apart(cfg, after[i], after[j]) {
      assert Apart(cfg, working[i], working[j]);
      ApartGrows(cfg, working[i], after[i], working[j], after[j]);
    }
  }

  lemma MergeStep(cfg: Config, working: seq<Working>, raw: RawTrack, k: nat, w: Working)
    requires Good(cfg, working) && k < |working| && Sound(cfg, w) && w.sources == working[k].sources + [raw]
    ensures Good(cfg, working[k := w]) && AllSources(working[k := w]) == AllSources(working) + multiset{raw}
  {
    SourcesUpdate(working, k, w, raw);
    MaximalGrows(cfg, working, raw, k, w);
  }

  lemma BeganOpen(working: seq<Working>, w: Working, raw: RawTrack, next: RawTrack)
    requires AllBegan(working, raw) && First(raw.detections) <= First(next.detections) && w.sources == [raw]
    ensures AllBegan(working + [w], next)
  {
    var after := working + [w];
    forall i, k | 0 <= i < |after| && 0 <= k < |after[i].sources|
      ensures First(after[i].sources[k].detections) <= First(next.detections)
    {
      if i < |working| { assert First(working[i].sources[k].detections) <= First(raw.detections); }
    }
  }

  lemma BeganMerge(working: seq<Working>, n: nat, w: Working, raw: RawTrack, next: RawTrack)
    requires AllBegan(working, raw) && First(raw.detections) <= First(next.detections)
    requires n < |working| && w.sources == working[n].sources + [raw]
    ensures AllBegan(working[n := w], next)
  {
    var after := working[n := w];
    forall i, k | 0 <= i < |after| && 0 <= k < |after[i].sources|
      ensures First(after[i].sources[k].detections) <= First(next.detections)
    {
      if k < |working[i].sources| { assert First(working[i].sources[k].detections) <= First(raw.detections); }
    }
  }

  /**
    One pass keeps the invariant: it adds exactly the raw track to the partition, keeps every track
    sound and keeps every two tracks apart.
  */
  lemma PassKeepsGood(cfg: Config, working: seq<Working>, raw: RawTrack, after: seq<Working>, next: RawTrack)
    requires Good(cfg, working) && FramesSorted(raw) && AllBegan(working, raw)
    requires Absorb(cfg, working, raw) == Some(after) && First(raw.detections) <= First(next.detections)
    ensures Good(cfg, after) && AllSources(after) == AllSources(working) + multiset{raw}
    ensures AllBegan(after, next)
  {
    BestOfIsBest(cfg, working, raw);
    match BestOf(cfg, working, raw) {
      case None =>
        var w := Opened(cfg, raw).value;
        OpenStep(cfg, working, raw, w);
        OpenedIsSound(cfg, raw);
        BeganOpen(working, w, raw, next);
      case Some(k) =>
        var w := Merged(cfg, working[k], raw).value;
        MergedIsSound(cfg, working[k], raw);
        MergeStep(cfg, working, raw, k, w);
        BeganMerge(working, k, w, raw, next);
    }
  }

  // ----- the whole pass over the input

  predicate NonEmpty(raw: RawTrack) { raw.detections != [] }

  function Ordered(raws: seq<RawTrack>): seq<RawTrack> { StableSort(Sooner, Filter(NonEmpty, raws)) }

  lemma SoonerIsOrder()
    ensures StrictWeakOrder(Sooner)
  {
  }

  lemma OrderedIsNonEmpty(raws: seq<RawTrack>)
    ensures AllNonEmpty(Ordered(raws)) && multiset(Ordered(raws)) == multiset(Filter(NonEmpty, raws))
  {
    SoonerIsOrder();
    var kept, s := Filter(NonEmpty, raws), Ordered(raws);
    StableSortSorts(Sooner, kept);
    forall i | 0 <= i < |s| ensures s[i].detections != [] {
      assert s[i] in multiset(s);
      assert s[i] in kept;
    }
  }

  lemma OrderedInput(raws: seq<RawTrack>)
    requires InputSorted(raws)
    ensures AllNonEmpty(Ordered(raws)) && AllSorted(Ordered(raws)) && InOrder(Ordered(raws))
    ensures multiset(Ordered(raws)) == multiset(Filter(NonEmpty, raws))
  {
    SoonerIsOrder();
    var kept, s := Filter(NonEmpty, raws), Ordered(raws);
    StableSortSorts(Sooner, kept);
    OrderedIsNonEmpty(raws);
    forall i | 0 <= i < |s| ensures FramesSorted(s[i]) {
      assert s[i] in multiset(s);
      assert s[i] in kept;
      var k :| 0 <= k < |raws| && raws[k] == s[i];
    }
    forall i, j | 0 <= i < j < |s| ensures First(s[i].detections) <= First(s[j].detections) {
      assert FramesSorted(s[i]) && FramesSorted(s[j]) && !Sooner(s[j], s[i]);
    }
  }

  ghost predicate InOrder(raws: seq<RawTrack>) {
    forall i, j :: 0 <= i < j < |raws| ==> First(raws[i].detections) <= First(raws[j].detections)
  }

  /** Tracks in order of first appearance keep the invariant over the whole pass; `next` is whatever comes later. */
  lemma {:induction false} PassesKeepGood(cfg: Config, raws: seq<RawTrack>, next: RawTrack)
    requires AllNonEmpty(raws) && AllSorted(raws) && InOrder(raws) && AbsorbAll(cfg, raws).Some?
    requires raws != [] ==> First(raws[|raws| - 1].detections) <= First(next.detections)
    ensures var working := AbsorbAll(cfg, raws).value;
            Good(cfg, working) && AllSources(working) == multiset(raws) && AllBegan(working, next)
  {
    if raws == [] {
    } else {
      var init, raw := raws[..|raws| - 1], raws[|raws| - 1];
      assert raws == init + [raw];
      assert FramesSorted(raw);
      PassesKeepGood(cfg, init, raw);
      PassKeepsGood(cfg, AbsorbAll(cfg, init).value, raw, AbsorbAll(cfg, raws).value, next);
    }
  }

  ghost predicate InputSorted(raws: seq<RawTrack>) {
    forall i {:trigger raws[i]} :: 0 <= i < |raws| && raws[i].detections != [] ==>
      SortedBy(EarlierFrame, raws[i].detections)
  }

  /** The canonical tracks of any input. */
  function Canonical(cfg: Config, raws: seq<RawTrack>): Option<seq<Working>> {
    OrderedIsNonEmpty(raws);
    AbsorbAll(cfg, Ordered(raws))
  }

  /**
    Given raw tracks whose detections are in frame order: the canonical tracks partition the non-empty
    raw tracks; inside each, sources are pairwise similar, disjoint and in time order, its detections are
    theirs, plainly joined, and its picture that of its most confident source; and no two canonical tracks
    could be merged, because some source of the first conflicts with the opener of the second.
  */
  lemma ReconciliationIsSound(cfg: Config, raws: seq<RawTrack>)
    requires InputSorted(raws) && Canonical(cfg, raws).Some?
    ensures var working := Canonical(cfg, raws).value;
            && AllSources(working) == multiset(Filter(NonEmpty, raws))
            && AllSound(cfg, working) && Maximal(cfg, working)
  {
    var ordered := Ordered(raws);
    OrderedInput(raws);
    if ordered != [] { PassesKeepGood(cfg, ordered, ordered[|ordered| - 1]); }
  }

  lemma {:induction false} RaisingIsFinal(cfg: Config, raws: seq<RawTrack>, n: nat)
    requires AllNonEmpty(raws) && n <= |raws| && AbsorbAll(cfg, raws[..n]).None?
    ensures AbsorbAll(cfg, raws).None?
    decreases |raws|
  {
    if n == |raws| {
      assert raws[..n] == raws;
    } else {
      assert raws[..|raws| - 1][..n] == raws[..n];
      RaisingIsFinal(cfg, raws[..|raws| - 1], n);
    }
  }

  /** The body of the reconciliation loop. */
  method TakeIn(cfg: Config, working: seq<Working>, raw: RawTrack) returns (after: Option<seq<Working>>)
    requires raw.detections != []
    ensures after == Absorb(cfg, working, raw)
  {
    var best := FindBest(cfg, working, raw);
    if best.None? {
      var opened' := Opened(cfg, raw);
      if opened'.None? { return None; }
      return Some(working + [opened'.value]);
    }
    var merged := Merged(cfg, working[best.value], raw);
    if merged.None? { return None; }
    after := Some(working[best.value := merged.value]);
  }

  /** The reconciliation loop; `None` when a sum of embeddings cannot be scaled to unit length. */
  method Reconcile(cfg: Config, raws: seq<RawTrack>) returns (result: Option<seq<Working>>)
    ensures result == Canonical(cfg, raws)
    ensures InputSorted(raws) && result.Some? ==>
              && AllSources(result.value) == multiset(Filter(NonEmpty, raws))
              && AllSound(cfg, result.value) && Maximal(cfg, result.value)
  {
    OrderedIsNonEmpty(raws);
    var ordered := Ordered(raws);
    result := Some([]);
    var n := 0;
    while n < |ordered|
      invariant 0 <= n <= |ordered| && result.Some? && AbsorbAll(cfg, ordered[..n]) == result
    {
      assert ordered[..n + 1][..n] == ordered[..n];
      result := TakeIn(cfg, result.value, ordered[n]);
      n := n + 1;
      if result.None? {
        RaisingIsFinal(cfg, ordered, n);
        return;
      }
    }
    assert ordered[..n] == ordered;
    if InputSorted(raws) { ReconciliationIsSound(cfg, raws); }
  }

  // ----- what the comparisons mean

  /** Similarity is the sum of products, and zero for vectors of different length. */
  lemma CosineOf(a: Embedding, b: Embedding, x: real, y: real)
    ensures Cosine(a + [x], b + [y]) == if |a| == |b| then Dot(a, b) + x * y else 0.0
    ensures Cosine([], []) == 0.0
  {
    if |a| == |b| { DotAppend(a, b, x, y); }
  }

  /** Frame `f` lies between the first and the last detection. */
  predicate Within(d: seq<Detection>, f: nat)
    requires d != []
  {
    d[0].frame <= f <= d[|d| - 1].frame
  }

  /** Two frame-ordered tracks overlap exactly when some frame lies within both. */
  lemma OverlapIsSharedFrame(a: seq<Detection>, b: seq<Detection>)
    requires a != [] && b != [] && SortedBy(EarlierFrame, a) && SortedBy(EarlierFrame, b)
    ensures Overlaps(a, b) <==>
              exists f: nat :: Within(a, f) && Within(b, f)
  {
    SortedEnds(a);
    SortedEnds(b);
    if Overlaps(a, b) {
      var f := if a[0].frame >= b[0].frame then a[0].frame else b[0].frame;
      assert Within(a, f) && Within(b, f);
    }
  }

  lemma {:induction false} BestConfidenceIsGreatest(d: seq<Detection>)
    requires d != []
    ensures (exists i :: 0 <= i < |d| && d[i].confidence == BestConfidence(d))
            && forall i :: 0 <= i < |d| ==> d[i].confidence <= BestConfidence(d)
  {
    if |d| == 1 {
      assert d[0].confidence == BestConfidence(d);
    } else {
      var init := d[..|d| - 1];
      BestConfidenceIsGreatest(init);
      var i :| 0 <= i < |init| && init[i].confidence == BestConfidence(init);
      assert d[i] == init[i] && d[|d| - 1].confidence <= BestConfidence(d);
    }
  }

  /** Tracks are taken by first frame, and by tracker id among those that begin together. */
  lemma TakenByFrameThenTracker(raws: seq<RawTrack>, i: nat, j: nat)
    requires i < j < |Ordered(raws)|
    ensures var a, b := Ordered(raws)[i], Ordered(raws)[j];
            && a.detections != [] && b.detections != []
            && (a.detections[0].frame < b.detections[0].frame
                || (a.detections[0].frame == b.detections[0].frame && a.tracker <= b.tracker))
  {
    SoonerIsOrder();
    OrderedIsNonEmpty(raws);
    StableSortSorts(Sooner, Filter(NonEmpty, raws));
    assert !Sooner(Ordered(raws)[j], Ordered(raws)[i]);
  }

  // ----- no detection is lost or invented

  /** How often detection `d` occurs in a raw track. */
  function Times(d: Detection): RawTrack -> real { (raw: RawTrack) => multiset(raw.detections)[d] as real }

  /** How often it occurs in a canonical track. */
  function TimesIn(d: Detection): Working -> real { (w: Working) => multiset(w.detections)[d] as real }

  function SourceList(working: seq<Working>): seq<RawTrack> {
    if working == [] then [] else SourceList(working[..|working| - 1]) + working[|working| - 1].sources
  }

  lemma {:induction false} SourceListContents(working: seq<Working>)
    ensures multiset(SourceList(working)) == AllSources(working)
  {
    if working == [] {
    } else {
      SourceListContents(working[..|working| - 1]);
    }
  }

  lemma {:induction false} JoinedTimes(sources: seq<RawTrack>, d: Detection)
    ensures multiset(Joined(sources))[d] as real == Sum(Times(d), sources)
  {
    if sources == [] {
    } else {
      JoinedTimes(sources[..|sources| - 1], d);
    }
  }

  ghost predicate AllJoined(working: seq<Working>) {
    forall i :: 0 <= i < |working| ==> working[i].detections == Joined(working[i].sources)
  }

  lemma {:induction false} SourceListTimes(working: seq<Working>, d: Detection)
    requires AllJoined(working)
    ensures Sum(TimesIn(d), working) == Sum(Times(d), SourceList(working))
  {
    if working == [] {
    } else {
      var init, w := working[..|working| - 1], working[|working| - 1];
      SourceListTimes(init, d);
      JoinedTimes(w.sources, d);
      SumConcat(Times(d), SourceList(init), w.sources);
    }
  }

  lemma {:induction false} EmptyTracksDoNotCount(raws: seq<RawTrack>, d: Detection)
    ensures Sum(Times(d), Filter(NonEmpty, raws)) == Sum(Times(d), raws)
  {
    if raws == [] {
    } else {
      var init, raw := raws[..|raws| - 1], raws[|raws| - 1];
      EmptyTracksDoNotCount(init, d);
      SumAppend(Times(d), Filter(NonEmpty, init), raw);
    }
  }

  /** Whatever `Reconcile` promises implies that every detection occurs as often in the output as in the input. */
  lemma DetectionsAreConserved(cfg: Config, raws: seq<RawTrack>, working: seq<Working>, d: Detection)
    requires AllSound(cfg, working) && AllSources(working) == multiset(Filter(NonEmpty, raws))
    ensures Sum(TimesIn(d), working) == Sum(Times(d), raws)
  {
    SourceListContents(working);
    assert AllJoined(working) by { assert forall i :: 0 <= i < |working| ==> Sound(cfg, working[i]); }
    SourceListTimes(working, d);
    SumIgnoresOrder(Times(d), SourceList(working), Filter(NonEmpty, raws));
    EmptyTracksDoNotCount(raws, d);
  }

  // ----- appearances

  datatype Appearance = Appearance(start: Detection, end: Detection)

  /** The detections cut wherever the pause between neighbours exceeds the gap. */
  function Segments(d: seq<Detection>, gap: real): (r: seq<seq<Detection>>)
    requires d != []
    ensures r != [] && (forall i :: 0 <= i < |r| ==> r[i] != []) && r[|r| - 1][|r[|r| - 1]| - 1] == d[|d| - 1]
  {
    if |d| == 1 then [d]
    else
      var init, x := d[..|d| - 1], d[|d| - 1];
      var r := Segments(init, gap);
      if x.timestamp - init[|init| - 1].timestamp > gap then r + [[x]]
      else r[|r| - 1 := r[|r| - 1] + [x]]
  }

  function Flatten(r: seq<seq<Detection>>): seq<Detection> {
    if r == [] then [] else Flatten(r[..|r| - 1]) + r[|r| - 1]
  }

  predicate Tight(s: seq<Detection>, gap: real) {
    forall i, j :: 0 <= i < |s| - 1 && j == i + 1 ==> s[j].timestamp - s[i].timestamp <= gap
  }

  predicate Separated(r: seq<seq<Detection>>, gap: real)
    requires forall i :: 0 <= i < |r| ==> r[i] != []
  {
    forall i, j :: 0 <= i < |r| - 1 && j == i + 1 ==> r[j][0].timestamp - r[i][|r[i]| - 1].timestamp > gap
  }

  ghost predicate MaximalRuns(r: seq<seq<Detection>>, gap: real)
    requires forall i :: 0 <= i < |r| ==> r[i] != []
  {
    Separated(r, gap) && forall i :: 0 <= i < |r| ==> Tight(r[i], gap)
  }

  lemma FlattenGrow(r: seq<seq<Detection>>, x: Detection)
    requires r != []
    ensures Flatten(r + [[x]]) == Flatten(r) + [x]
    ensures Flatten(r[|r| - 1 := r[|r| - 1] + [x]]) == Flatten(r) + [x]
  {
    assert (r + [[x]])[..|r|] == r;
    var q := r[|r| - 1 := r[|r| - 1] + [x]];
    assert q[..|q| - 1] == r[..|r| - 1];
    assert Flatten(q) == Flatten(r[..|r| - 1]) + (r[|r| - 1] + [x]);
  }

  lemma RunsGrow(r: seq<seq<Detection>>, x: Detection, gap: real)
    requires r != [] && (forall i :: 0 <= i < |r| ==> r[i] != []) && MaximalRuns(r, gap)
    ensures var last := r[|r| - 1];
            if x.timestamp - last[|last| - 1].timestamp > gap then MaximalRuns(r + [[x]], gap)
            else MaximalRuns(r[|r| - 1 := last + [x]], gap)
  {
    var last := r[|r| - 1];
    if x.timestamp - last[|last| - 1].timestamp <= gap {
      var q := r[|r| - 1 := last + [x]];
      assert Tight(last, gap) && Tight(last + [x], gap);
      assert forall i :: 0 <= i < |r| ==> q[i][0] == r[i][0];
      assert forall i :: 0 <= i < |r| - 1 ==> q[i] == r[i];
    }
  }

  ghost predicate Segmented(r: seq<seq<Detection>>, d: seq<Detection>, gap: real) {
    (forall i :: 0 <= i < |r| ==> r[i] != []) && Flatten(r) == d && MaximalRuns(r, gap)
  }

  lemma SegmentedGrows(r: seq<seq<Detection>>, d: seq<Detection>, x: Detection, gap: real)
    requires r != [] && Segmented(r, d, gap)
    ensures var last := r[|r| - 1];
            if x.timestamp - last[|last| - 1].timestamp > gap then Segmented(r + [[x]], d + [x], gap)
            else Segmented(r[|r| - 1 := last + [x]], d + [x], gap)
  {
    FlattenGrow(r, x);
    RunsGrow(r, x, gap);
  }

  lemma OneSegment(x: Detection, gap: real)
    ensures Segmented([[x]], [x], gap)
  {
    assert [[x]][..0] == [];
    assert [] + [x] == [x];
  }

  lemma SegmentsStep(init: seq<Detection>, x: Detection, gap: real)
    requires init != []
    ensures var r := Segments(init, gap);
            var last := r[|r| - 1];
            Segments(init + [x], gap) == if x.timestamp - last[|last| - 1].timestamp > gap then r + [[x]]
                                         else r[|r| - 1 := last + [x]]
  {
    assert (init + [x])[..|init|] == init;
  }

  /** The segments are the detections in order, without pauses inside and with a pause between each two. */
  lemma {:induction false} SegmentsAreMaximalRuns(d: seq<Detection>, gap: real)
    requires d != []
    ensures Segmented(Segments(d, gap), d, gap)
  {
    if |d| == 1 {
      assert d == [d[0]];
      OneSegment(d[0], gap);
    } else {
      var init, x := d[..|d| - 1], d[|d| - 1];
      assert d == init + [x];
      SegmentsAreMaximalRuns(init, gap);
      SegmentsStep(init, x, gap);
      SegmentedGrows(Segments(init, gap), init, x, gap);
    }
  }

  function Span(s: seq<Detection>): Appearance
    requires s != []
  {
    Appearance(s[0], s[|s| - 1])
  }

  function Spans(r: seq<seq<Detection>>): seq<Appearance>
    requires forall i :: 0 <= i < |r| ==> r[i] != []
  {
    seq(|r|, i requires 0 <= i < |r| => Span(r[i]))
  }

  /** The start/previous loop reports one appearance per segment. */
  method Finalize(d: seq<Detection>, gap: real) returns (appearances: seq<Appearance>)
    requires d != []
    ensures appearances == Spans(Segments(d, gap)) && |appearances| == |Segments(d, gap)|
    ensures forall i :: 0 <= i < |appearances| ==>
              var segment := Segments(d, gap)[i];
              appearances[i].start == segment[0] && appearances[i].end == segment[|segment| - 1]
  {
    appearances := [];
    var start, previous, i := d[0], d[0], 1;
    assert d[..1] == [d[0]];
    while i < |d|
      invariant 1 <= i <= |d| && previous == d[i - 1]
      invariant appearances + [Appearance(start, previous)] == Spans(Segments(d[..i], gap))
    {
      var detection := d[i];
      assert d[..i + 1][..i] == d[..i];
      ghost var r := Segments(d[..i], gap);
      assert Spans(r)[|r| - 1] == Appearance(start, previous);
      assert appearances == Spans(r)[..|r| - 1];
      if detection.timestamp - previous.timestamp > gap {
        appearances := appearances + [Appearance(start, previous)];
        start := detection;
        assert Spans(r + [[detection]]) == Spans(r) + [Span([detection])];
      } else {
        assert Spans(r[|r| - 1 := r[|r| - 1] + [detection]]) == Spans(r)[..|r| - 1] + [Appearance(start, detection)];
      }
      previous := detection;
      i := i + 1;
    }
    assert d[..i] == d;
    appearances := appearances + [Appearance(start, previous)];
  }
}

/**
  Weighted identity voting over the templates of a track. The gallery search is an input: every
  template comes with its candidates. The logarithm in the template weight and the lifecycle
  status of an identity are parameters.
*/
module IdentityVoting {
  import opened Common
  import opened Sums

  datatype Status = Known | Anonymous | Inactive

  datatype Candidate = Candidate(face: FaceId, sample: string, score: real)

  datatype Template = Template(count: nat, candidates: seq<Candidate>)

  datatype Config = Config(recognition: real, anonymous: real, floor: real, minCount: nat, minMargin: real,
                           minRatio: real, eligible: set<Status>, status: FaceId -> Status, log1p: nat -> real)

  function Weight(cfg: Config, t: Template): real { 1.0 + cfg.log1p(t.count) }

  function StatusOf(cfg: Config, face: FaceId): Status { cfg.status(face) }

  function Threshold(cfg: Config, face: FaceId): real {
    if StatusOf(cfg, face) == Known then cfg.recognition else cfg.anonymous
  }

  function Bar(cfg: Config, face: FaceId): real { Min(Threshold(cfg, face), cfg.floor) }

  predicate Active(cfg: Config, c: Candidate) { StatusOf(cfg, c.face) in cfg.eligible }

  /** The candidate is eligible and scores high enough to vote. */
  predicate Votes(cfg: Config, c: Candidate) { Active(cfg, c) && c.score >= Bar(cfg, c.face) }

  // ----- the vote, independent of any order

  /** The best score a template gives a face, if any. */
  function Best(cfg: Config, group: seq<Candidate>, face: FaceId): Option<real> {
    if group == [] then None
    else
      var rest, c := Best(cfg, group[..|group| - 1], face), group[|group| - 1];
      if c.face != face || !Votes(cfg, c) then rest
      else if rest.None? || c.score > rest.value then Some(c.score) else rest
  }

  predicate Backs(cfg: Config, c: Candidate, face: FaceId) { c.face == face && Votes(cfg, c) }

  lemma {:induction false} BestIsMaximum(cfg: Config, group: seq<Candidate>, face: FaceId)
    ensures var b := Best(cfg, group, face);
            && (b.None? ==> forall c :: c in group ==> !Backs(cfg, c, face))
            && (b.Some? ==> (exists c :: c in group && Backs(cfg, c, face) && c.score == b.value)
                            && forall c :: c in group && Backs(cfg, c, face) ==> c.score <= b.value)
  {
    if group == [] {
    } else {
      BestIsMaximum(cfg, group[..|group| - 1], face);
    }
  }

  lemma BestOfMore(cfg: Config, a: seq<Candidate>, b: seq<Candidate>, face: FaceId)
    requires forall c :: c in a ==> c in b
    ensures var x, y := Best(cfg, a, face), Best(cfg, b, face); x.Some? ==> y.Some? && x.value <= y.value
  {
    BestIsMaximum(cfg, a, face);
    BestIsMaximum(cfg, b, face);
    if Best(cfg, a, face).Some? {
      var c :| c in a && Backs(cfg, c, face) && c.score == Best(cfg, a, face).value;
      assert c in b;
    }
  }

  /** The order of a template's candidates does not matter. */
  lemma BestIgnoresOrder(cfg: Config, a: seq<Candidate>, b: seq<Candidate>, face: FaceId)
    requires multiset(a) == multiset(b)
    ensures Best(cfg, a, face) == Best(cfg, b, face)
  {
    forall c ensures c in a <==> c in b { assert c in a <==> c in multiset(a); assert c in b <==> c in multiset(b); }
    BestOfMore(cfg, a, b, face);
    BestOfMore(cfg, b, a, face);
  }

  predicate SupportedBy(cfg: Config, t: Template, face: FaceId) { Best(cfg, t.candidates, face).Some? }

  function WeightFor(cfg: Config, face: FaceId): Template -> real {
    (t: Template) => if SupportedBy(cfg, t, face) then Weight(cfg, t) else 0.0
  }

  function ScoreFor(cfg: Config, face: FaceId): Template -> real {
    (t: Template) => if SupportedBy(cfg, t, face) then Best(cfg, t.candidates, face).value * Weight(cfg, t) else 0.0
  }

  function CountFor(cfg: Config, face: FaceId): Template -> real {
    (t: Template) => if SupportedBy(cfg, t, face) then 1.0 else 0.0
  }

  function AnyWeight(cfg: Config): Template -> real { (t: Template) => Weight(cfg, t) }

  function SupportWeight(cfg: Config, ts: seq<Template>, face: FaceId): real { Sum(WeightFor(cfg, face), ts) }

  function SupportScore(cfg: Config, ts: seq<Template>, face: FaceId): real { Sum(ScoreFor(cfg, face), ts) }

  function VoteCount(cfg: Config, ts: seq<Template>, face: FaceId): real { Sum(CountFor(cfg, face), ts) }

  function TotalWeight(cfg: Config, ts: seq<Template>): real { Sum(AnyWeight(cfg), ts) }

  predicate Supported(cfg: Config, ts: seq<Template>, face: FaceId) {
    exists i :: 0 <= i < |ts| && SupportedBy(cfg, ts[i], face)
  }

  ghost predicate Sane(cfg: Config, ts: seq<Template>) {
    && (forall n: nat :: cfg.log1p(n) >= 0.0)
    && (forall t, c :: t in ts && c in t.candidates ==> 0.0 <= c.score <= 1.0)
  }

  lemma ProductBounds(x: real, w: real, bar: real)
    requires 0.0 <= x <= 1.0 && w >= 0.0 && bar <= x
    ensures 0.0 <= x * w <= w && bar * w <= x * w
  {
    assert (1.0 - x) * w >= 0.0 && (x - bar) * w >= 0.0;
  }

  /** A supporting template's score lies between the vote bar and one. */
  lemma BestBounds(cfg: Config, ts: seq<Template>, t: Template, face: FaceId)
    requires Sane(cfg, ts) && t in ts && SupportedBy(cfg, t, face)
    ensures 0.0 <= Best(cfg, t.candidates, face).value <= 1.0 && Bar(cfg, face) <= Best(cfg, t.candidates, face).value
  {
    BestIsMaximum(cfg, t.candidates, face);
    var c :| c in t.candidates && Backs(cfg, c, face) && c.score == Best(cfg, t.candidates, face).value;
  }

  lemma WeightAtLeastOne(cfg: Config, ts: seq<Template>, t: Template)
    requires Sane(cfg, ts)
    ensures Weight(cfg, t) >= 1.0
  {
  }

  lemma TermsAre(cfg: Config, t: Template, face: FaceId, best: real, w: real)
    requires Weight(cfg, t) == w && Best(cfg, t.candidates, face) == Some(best)
    ensures ScoreFor(cfg, face)(t) == best * w && WeightFor(cfg, face)(t) == w
  {
  }

  /** What one template adds. */
  lemma TermBounds(cfg: Config, ts: seq<Template>, t: Template, face: FaceId)
    requires Sane(cfg, ts) && t in ts
    ensures Weight(cfg, t) >= 1.0 && 0.0 <= WeightFor(cfg, face)(t) <= Weight(cfg, t)
    ensures 0.0 <= ScoreFor(cfg, face)(t) <= WeightFor(cfg, face)(t)
    ensures Bar(cfg, face) * WeightFor(cfg, face)(t) <= ScoreFor(cfg, face)(t)
  {
    WeightAtLeastOne(cfg, ts, t);
    if SupportedBy(cfg, t, face) {
      var best, w := Best(cfg, t.candidates, face).value, Weight(cfg, t);
      BestBounds(cfg, ts, t, face);
      ProductBounds(best, w, Bar(cfg, face));
      TermsAre(cfg, t, face, best, w);
    }
  }

  lemma {:induction false} SumLessOrEqual(f: Template -> real, g: Template -> real, ts: seq<Template>)
    requires forall t :: t in ts ==> f(t) <= g(t)
    ensures Sum(f, ts) <= Sum(g, ts)
  {
    if ts == [] {
    } else {
      SumLessOrEqual(f, g, ts[..|ts| - 1]);
    }
  }

  lemma {:induction false} SumScaled(k: real, f: Template -> real, g: Template -> real, ts: seq<Template>)
    requires forall t :: t in ts ==> k * f(t) <= g(t)
    ensures k * Sum(f, ts) <= Sum(g, ts)
  {
    if ts == [] {
    } else {
      SumScaled(k, f, g, ts[..|ts| - 1]);
    }
  }

  lemma {:induction false} WeightIsPositive(cfg: Config, ts: seq<Template>, face: FaceId)
    requires Sane(cfg, ts)
    ensures SupportWeight(cfg, ts, face) >= 0.0
    ensures Supported(cfg, ts, face) <==> SupportWeight(cfg, ts, face) > 0.0
  {
    if ts == [] {
    } else {
      var init, t := ts[..|ts| - 1], ts[|ts| - 1];
      WeightIsPositive(cfg, init, face);
      TermBounds(cfg, ts, t, face);
      assert SupportedBy(cfg, t, face) ==> SupportedBy(cfg, ts[|ts| - 1], face);
      assert forall i :: 0 <= i < |init| ==> init[i] == ts[i];
    }
  }

  lemma ScoreBetween(cfg: Config, ts: seq<Template>, face: FaceId)
    requires Sane(cfg, ts)
    ensures 0.0 <= SupportScore(cfg, ts, face) <= SupportWeight(cfg, ts, face)
    ensures Bar(cfg, face) * SupportWeight(cfg, ts, face) <= SupportScore(cfg, ts, face)
  {
    var w, s, bar := WeightFor(cfg, face), ScoreFor(cfg, face), Bar(cfg, face);
    forall t | t in ts ensures s(t) <= w(t) && bar * w(t) <= s(t) && 0.0 * w(t) <= s(t) {
      TermBounds(cfg, ts, t, face);
    }
    SumLessOrEqual(s, w, ts);
    SumScaled(bar, w, s, ts);
    SumScaled(0.0, w, s, ts);
  }

  lemma WeightBelowTotal(cfg: Config, ts: seq<Template>, face: FaceId)
    requires Sane(cfg, ts)
    ensures SupportWeight(cfg, ts, face) <= TotalWeight(cfg, ts)
  {
    var w, any := WeightFor(cfg, face), AnyWeight(cfg);
    forall t | t in ts ensures w(t) <= any(t) {
      TermBounds(cfg, ts, t, face);
    }
    SumLessOrEqual(w, any, ts);
  }

  /** The sums of one face: positive weight, and a weighted score between the vote bar and one per unit of weight. */
  lemma SupportSums(cfg: Config, ts: seq<Template>, face: FaceId)
    requires Sane(cfg, ts)
    ensures Supported(cfg, ts, face) <==> SupportWeight(cfg, ts, face) > 0.0
    ensures 0.0 <= SupportScore(cfg, ts, face) <= SupportWeight(cfg, ts, face) <= TotalWeight(cfg, ts)
    ensures Bar(cfg, face) * SupportWeight(cfg, ts, face) <= SupportScore(cfg, ts, face)
  {
    WeightIsPositive(cfg, ts, face);
    ScoreBetween(cfg, ts, face);
    WeightBelowTotal(cfg, ts, face);
  }

  function Mean(cfg: Config, ts: seq<Template>, face: FaceId): real
    requires SupportWeight(cfg, ts, face) > 0.0
  {
    SupportScore(cfg, ts, face) / SupportWeight(cfg, ts, face)
  }

  /** Some template alone is convincing. */
  predicate Strong(cfg: Config, ts: seq<Template>, face: FaceId) {
    exists t :: t in ts && SupportedBy(cfg, t, face) && Best(cfg, t.candidates, face).value >= Threshold(cfg, face)
  }

  /** Enough templates, with enough of the weight, agree. */
  predicate Consensus(cfg: Config, ts: seq<Template>, face: FaceId)
    requires TotalWeight(cfg, ts) > 0.0
  {
    VoteCount(cfg, ts, face) >= cfg.minCount as real
    && SupportWeight(cfg, ts, face) / TotalWeight(cfg, ts) >= cfg.minRatio
  }

  /** `face` leads every other supported face, or zero when there is none, by at least the margin. */
  ghost predicate Leads(cfg: Config, ts: seq<Template>, face: FaceId)
    requires SupportWeight(cfg, ts, face) > 0.0
  {
    && (forall g :: g != face && SupportWeight(cfg, ts, g) > 0.0 ==>
          Mean(cfg, ts, face) - Mean(cfg, ts, g) >= cfg.minMargin)
    && ((forall g :: g != face ==> !(SupportWeight(cfg, ts, g) > 0.0)) ==> Mean(cfg, ts, face) >= cfg.minMargin)
  }

  ghost predicate Wins(cfg: Config, ts: seq<Template>, face: FaceId) {
    && SupportWeight(cfg, ts, face) > 0.0 && TotalWeight(cfg, ts) > 0.0
    && (Strong(cfg, ts, face) || Consensus(cfg, ts, face))
    && Leads(cfg, ts, face)
  }

  /** With a positive margin at most one face wins. */
  lemma AtMostOneWinner(cfg: Config, ts: seq<Template>, f: FaceId, g: FaceId)
    requires cfg.minMargin > 0.0 && Wins(cfg, ts, f) && Wins(cfg, ts, g)
    ensures f == g
  {
  }

  /** A mean lies between the vote bar and one, so clamping it to [0, 1] changes nothing. */
  lemma MeanBounds(cfg: Config, ts: seq<Template>, face: FaceId)
    requires Sane(cfg, ts) && SupportWeight(cfg, ts, face) > 0.0
    ensures 0.0 <= Mean(cfg, ts, face) <= 1.0
    ensures Mean(cfg, ts, face) >= Bar(cfg, face)
  {
    SupportSums(cfg, ts, face);
    var w, s := SupportWeight(cfg, ts, face), SupportScore(cfg, ts, face);
    assert s / w * w == s;
    DivisionBounds(s, w, Bar(cfg, face));
  }

  lemma DivisionBounds(s: real, w: real, bar: real)
    requires w > 0.0 && 0.0 <= s <= w && bar * w <= s
    ensures 0.0 <= s / w <= 1.0 && s / w >= bar
  {
    var q := s / w;
    assert q * w == s;
  }

  // ----- order independence

  /** Everything the outcome depends on, face by face. */
  ghost predicate SameTally(cfg: Config, a: seq<Template>, b: seq<Template>) {
    && TotalWeight(cfg, a) == TotalWeight(cfg, b)
    && forall f :: SupportWeight(cfg, a, f) == SupportWeight(cfg, b, f)
                   && SupportScore(cfg, a, f) == SupportScore(cfg, b, f)
                   && VoteCount(cfg, a, f) == VoteCount(cfg, b, f) && (Strong(cfg, a, f) <==> Strong(cfg, b, f))
  }

  lemma SameTallySameWinner(cfg: Config, a: seq<Template>, b: seq<Template>, face: FaceId)
    requires SameTally(cfg, a, b)
    ensures Wins(cfg, a, face) <==> Wins(cfg, b, face)
    ensures SupportWeight(cfg, a, face) > 0.0 ==> Mean(cfg, a, face) == Mean(cfg, b, face)
  {
  }

  lemma TemplateOrderDoesNotMatter(cfg: Config, a: seq<Template>, b: seq<Template>)
    requires multiset(a) == multiset(b)
    ensures SameTally(cfg, a, b)
  {
    SumIgnoresOrder(AnyWeight(cfg), a, b);
    assert forall t :: t in a <==> t in multiset(a);
    assert forall t :: t in b <==> t in multiset(b);
    forall f ensures SupportWeight(cfg, a, f) == SupportWeight(cfg, b, f)
                     && SupportScore(cfg, a, f) == SupportScore(cfg, b, f)
                     && VoteCount(cfg, a, f) == VoteCount(cfg, b, f) && (Strong(cfg, a, f) <==> Strong(cfg, b, f)) {
      SumIgnoresOrder(WeightFor(cfg, f), a, b);
      SumIgnoresOrder(ScoreFor(cfg, f), a, b);
      SumIgnoresOrder(CountFor(cfg, f), a, b);
    }
  }

  /** The same templates with their candidates listed in another order. */
  ghost predicate Shuffled(a: seq<Template>, b: seq<Template>) {
    |a| == |b|
    && forall i :: 0 <= i < |a| ==>
         a[i].count == b[i].count && multiset(a[i].candidates) == multiset(b[i].candidates)
  }

  lemma {:induction false} SumPointwise<T>(f: T -> real, a: seq<T>, b: seq<T>)
    requires |a| == |b| && forall i :: 0 <= i < |a| ==> f(a[i]) == f(b[i])
    ensures Sum(f, a) == Sum(f, b)
  {
    if a == [] {
    } else {
      SumPointwise(f, a[..|a| - 1], b[..|b| - 1]);
    }
  }

  lemma ShuffledBest(cfg: Config, a: seq<Template>, b: seq<Template>, f: FaceId, i: nat)
    requires Shuffled(a, b) && i < |a|
    ensures Best(cfg, a[i].candidates, f) == Best(cfg, b[i].candidates, f) && Weight(cfg, a[i]) == Weight(cfg, b[i])
    ensures WeightFor(cfg, f)(a[i]) == WeightFor(cfg, f)(b[i]) && ScoreFor(cfg, f)(a[i]) == ScoreFor(cfg, f)(b[i])
    ensures CountFor(cfg, f)(a[i]) == CountFor(cfg, f)(b[i])
  {
    BestIgnoresOrder(cfg, a[i].candidates, b[i].candidates, f);
  }

  lemma ShuffledStrong(cfg: Config, a: seq<Template>, b: seq<Template>, f: FaceId)
    requires Shuffled(a, b) && Strong(cfg, a, f)
    ensures Strong(cfg, b, f)
  {
    var t :| t in a && SupportedBy(cfg, t, f) && Best(cfg, t.candidates, f).value >= Threshold(cfg, f);
    var i :| 0 <= i < |a| && a[i] == t;
    ShuffledBest(cfg, a, b, f, i);
    assert b[i] in b;
  }

  lemma ShuffledTally(cfg: Config, a: seq<Template>, b: seq<Template>, f: FaceId)
    requires Shuffled(a, b)
    ensures SupportWeight(cfg, a, f) == SupportWeight(cfg, b, f) && SupportScore(cfg, a, f) == SupportScore(cfg, b, f)
    ensures VoteCount(cfg, a, f) == VoteCount(cfg, b, f) && (Strong(cfg, a, f) <==> Strong(cfg, b, f))
  {
    forall i | 0 <= i < |a|
      ensures WeightFor(cfg, f)(a[i]) == WeightFor(cfg, f)(b[i])
      ensures ScoreFor(cfg, f)(a[i]) == ScoreFor(cfg, f)(b[i]) && CountFor(cfg, f)(a[i]) == CountFor(cfg, f)(b[i])
    {
      ShuffledBest(cfg, a, b, f, i);
    }
    SumPointwise(WeightFor(cfg, f), a, b);
    SumPointwise(ScoreFor(cfg, f), a, b);
    SumPointwise(CountFor(cfg, f), a, b);
    if Strong(cfg, a, f) { ShuffledStrong(cfg, a, b, f); }
    if Strong(cfg, b, f) { ShuffledStrong(cfg, b, a, f); }
  }

  lemma CandidateOrderDoesNotMatter(cfg: Config, a: seq<Template>, b: seq<Template>)
    requires Shuffled(a, b)
    ensures SameTally(cfg, a, b)
  {
    SumPointwise(AnyWeight(cfg), a, b);
    forall f ensures SupportWeight(cfg, a, f) == SupportWeight(cfg, b, f)
                     && SupportScore(cfg, a, f) == SupportScore(cfg, b, f)
                     && VoteCount(cfg, a, f) == VoteCount(cfg, b, f) && (Strong(cfg, a, f) <==> Strong(cfg, b, f)) {
      ShuffledTally(cfg, a, b, f);
    }
  }

  // ----- the loops

  datatype Support = Support(votes: nat, weight: real, weighted: real, top: real, sample: string)

  datatype Match = Match(face: FaceId, sample: string, score: real)

  datatype Decision = Decision(winner: Option<Match>, score: Option<real>)

  ghost predicate SumsAre(cfg: Config, ts: seq<Template>, face: FaceId, s: Support) {
    && s.weight == SupportWeight(cfg, ts, face) && s.weighted == SupportScore(cfg, ts, face)
    && s.votes as real == VoteCount(cfg, ts, face)
  }

  /** The best score any template gives `face`. */
  ghost predicate IsTop(cfg: Config, ts: seq<Template>, face: FaceId, top: real) {
    && (exists t :: t in ts && SupportedBy(cfg, t, face) && Best(cfg, t.candidates, face).value == top)
    && (forall t :: t in ts && SupportedBy(cfg, t, face) ==> Best(cfg, t.candidates, face).value <= top)
  }

  /** The dictionary entry of a face is the tally of that face over the templates seen so far. */
  ghost predicate Tallies(cfg: Config, ts: seq<Template>, face: FaceId, s: Support) {
    SumsAre(cfg, ts, face, s) && IsTop(cfg, ts, face, s.top) && SampleOf(cfg, ts, face, s.sample, s.top)
  }

  /** `sample` belongs to a candidate for `face` that scored `score` in some template. */
  ghost predicate SampleOf(cfg: Config, ts: seq<Template>, face: FaceId, sample: string, score: real) {
    exists t, c :: t in ts && c in t.candidates && Backs(cfg, c, face) && c.sample == sample && c.score == score
  }

  ghost predicate Recorded(cfg: Config, ts: seq<Template>, support: map<FaceId, Support>, face: FaceId) {
    && (face in support <==> Supported(cfg, ts, face))
    && (face in support ==> Tallies(cfg, ts, face, support[face]))
  }

  ghost predicate BestCandidates(cfg: Config, group: seq<Candidate>, m: map<FaceId, Candidate>) {
    forall f :: (f in m <==> Best(cfg, group, f).Some?)
                && (f in m ==> m[f] in group && Backs(cfg, m[f], f) && m[f].score == Best(cfg, group, f).value)
  }

  method BestByIdentity(cfg: Config, group: seq<Candidate>) returns (best: map<FaceId, Candidate>)
    ensures BestCandidates(cfg, group, best)
  {
    best := map[];
    var i := 0;
    while i < |group|
      invariant 0 <= i <= |group| && BestCandidates(cfg, group[..i], best)
    {
      var c := group[i];
      assert group[..i + 1][..i] == group[..i];
      if Votes(cfg, c) && (c.face !in best || c.score > best[c.face].score) {
        best := best[c.face := c];
      }
      i := i + 1;
    }
    assert group[..i] == group;
  }

  function Grown(cfg: Config, support: map<FaceId, Support>, t: Template, c: Candidate): Support {
    var w := Weight(cfg, t);
    if c.face !in support then Support(1, w, c.score * w, c.score, c.sample)
    else
      var s := support[c.face];
      var better := c.score > s.top;
      Support(s.votes + 1, s.weight + w, s.weighted + c.score * w, if better then c.score else s.top,
              if better then c.sample else s.sample)
  }

  lemma SupportedAppend(cfg: Config, ts: seq<Template>, t: Template, face: FaceId)
    ensures Supported(cfg, ts + [t], face) <==> Supported(cfg, ts, face) || SupportedBy(cfg, t, face)
  {
    var all := ts + [t];
    assert all[|ts|] == t;
    if i :| 0 <= i < |ts| && SupportedBy(cfg, ts[i], face) { assert SupportedBy(cfg, all[i], face); }
  }

  lemma TallyAppend(cfg: Config, ts: seq<Template>, t: Template, face: FaceId)
    ensures SupportWeight(cfg, ts + [t], face) == SupportWeight(cfg, ts, face) + WeightFor(cfg, face)(t)
    ensures SupportScore(cfg, ts + [t], face) == SupportScore(cfg, ts, face) + ScoreFor(cfg, face)(t)
    ensures VoteCount(cfg, ts + [t], face) == VoteCount(cfg, ts, face) + CountFor(cfg, face)(t)
  {
    SumAppend(WeightFor(cfg, face), ts, t);
    SumAppend(ScoreFor(cfg, face), ts, t);
    SumAppend(CountFor(cfg, face), ts, t);
  }

  lemma {:induction false} UnsupportedTally(cfg: Config, ts: seq<Template>, face: FaceId)
    requires !Supported(cfg, ts, face)
    ensures SupportWeight(cfg, ts, face) == 0.0 && SupportScore(cfg, ts, face) == 0.0 && VoteCount(cfg, ts, face) == 0.0
  {
    if ts == [] {
    } else {
      var init := ts[..|ts| - 1];
      assert forall i :: 0 <= i < |init| ==> init[i] == ts[i];
      assert !Supported(cfg, init, face);
      UnsupportedTally(cfg, init, face);
      assert !SupportedBy(cfg, ts[|ts| - 1], face);
    }
  }

  lemma GrownSums(cfg: Config, ts: seq<Template>, support: map<FaceId, Support>, t: Template, c: Candidate)
    requires if c.face in support then SumsAre(cfg, ts, c.face, support[c.face]) else !Supported(cfg, ts, c.face)
    requires Best(cfg, t.candidates, c.face) == Some(c.score)
    ensures SumsAre(cfg, ts + [t], c.face, Grown(cfg, support, t, c))
  {
    TallyAppend(cfg, ts, t, c.face);
    TermsAre(cfg, t, c.face, c.score, Weight(cfg, t));
    if c.face !in support { UnsupportedTally(cfg, ts, c.face); }
  }

  lemma GrownTop(cfg: Config, ts: seq<Template>, support: map<FaceId, Support>, t: Template, c: Candidate)
    requires Recorded(cfg, ts, support, c.face) && Best(cfg, t.candidates, c.face) == Some(c.score)
    ensures IsTop(cfg, ts + [t], c.face, Grown(cfg, support, t, c).top)
  {
    var s, all := Grown(cfg, support, t, c), ts + [t];
    assert all[|ts|] == t && t in all;
    if c.face in support {
      var old' := support[c.face];
      var u :| u in ts && SupportedBy(cfg, u, c.face) && Best(cfg, u.candidates, c.face).value == old'.top;
      assert u in all;
    } else {
      assert forall i :: 0 <= i < |ts| ==> !SupportedBy(cfg, ts[i], c.face);
    }
  }

  lemma GrownSample(cfg: Config, ts: seq<Template>, support: map<FaceId, Support>, t: Template, c: Candidate)
    requires Recorded(cfg, ts, support, c.face) && c in t.candidates && Backs(cfg, c, c.face)
    ensures var s := Grown(cfg, support, t, c); SampleOf(cfg, ts + [t], c.face, s.sample, s.top)
  {
    var s := Grown(cfg, support, t, c);
    assert (ts + [t])[|ts|] == t && t in ts + [t];
    if c.face in support && c.score <= support[c.face].top {
      SampleKept(cfg, ts, t, c.face, s.sample, s.top);
    }
  }

  lemma SampleKept(cfg: Config, ts: seq<Template>, t: Template, face: FaceId, sample: string, score: real)
    requires SampleOf(cfg, ts, face, sample, score)
    ensures SampleOf(cfg, ts + [t], face, sample, score)
  {
    var u, c :| u in ts && c in u.candidates && Backs(cfg, c, face) && c.sample == sample && c.score == score;
    assert u in ts + [t];
  }

  /** Faces the template supports grow by it; the others keep their tally. */
  lemma RecordedStep(cfg: Config, ts: seq<Template>, before: map<FaceId, Support>, t: Template,
                     best: map<FaceId, Candidate>, after: map<FaceId, Support>, face: FaceId)
    requires Recorded(cfg, ts, before, face) && BestCandidates(cfg, t.candidates, best)
    requires (face in best ==> face in after && after[face] == Grown(cfg, before, t, best[face]))
    requires (face !in best ==> (face in after <==> face in before) && (face in before ==> after[face] == before[face]))
    ensures Recorded(cfg, ts + [t], after, face)
  {
    SupportedAppend(cfg, ts, t, face);
    if face in best {
      GrownSums(cfg, ts, before, t, best[face]);
      GrownTop(cfg, ts, before, t, best[face]);
      GrownSample(cfg, ts, before, t, best[face]);
    } else if face in before {
      SampleKept(cfg, ts, t, face, before[face].sample, before[face].top);
      TallyAppend(cfg, ts, t, face);
      var u :| u in ts && SupportedBy(cfg, u, face) && Best(cfg, u.candidates, face).value == before[face].top;
      assert u in ts + [t];
    }
  }

  method AddVotes(cfg: Config, before: map<FaceId, Support>, t: Template, best: map<FaceId, Candidate>)
    returns (support: map<FaceId, Support>)
    requires forall f :: f in best ==> best[f].face == f
    ensures forall f :: f in best ==> f in support && support[f] == Grown(cfg, before, t, best[f])
    ensures forall f :: f !in best ==> (f in support <==> f in before) && (f in before ==> support[f] == before[f])
  {
    support := before;
    var todo := best.Keys;
    while todo != {}
      invariant todo <= best.Keys
      invariant forall f :: f in best && f !in todo ==> f in support && support[f] == Grown(cfg, before, t, best[f])
      invariant forall f :: f !in best || f in todo ==>
                  (f in support <==> f in before) && (f in before ==> support[f] == before[f])
      decreases todo
    {
      var f :| f in todo;
      support := support[f := Grown(cfg, support, t, best[f])];
      todo := todo - {f};
    }
  }

  /** Ranked by mean, then by weight. */
  predicate Outranks(means: map<FaceId, real>, weights: map<FaceId, real>, f: FaceId, g: FaceId)
    requires f in means && g in means && means.Keys == weights.Keys
  {
    means[f] > means[g] || (means[f] == means[g] && weights[f] > weights[g])
  }

  /** The entry of greatest (mean, weight) and the greatest mean among the others, zero if there are none. */
  method TopTwo(means: map<FaceId, real>, weights: map<FaceId, real>) returns (winner: FaceId, runner: real)
    requires means.Keys == weights.Keys && means != map[]
    ensures winner in means && forall f :: f in means ==> !Outranks(means, weights, f, winner)
    ensures RunnerUp(means, winner, runner)
  {
    assert means.Keys != {};
    winner :| winner in means.Keys;
    var todo := means.Keys - {winner};
    while todo != {}
      invariant winner in means && todo <= means.Keys
      invariant forall f :: f in means && f !in todo ==> !Outranks(means, weights, f, winner)
      decreases todo
    {
      var f :| f in todo;
      if Outranks(means, weights, f, winner) { winner := f; }
      todo := todo - {f};
    }
    runner := 0.0;
    var rest := means.Keys - {winner};
    if rest != {} {
      var second :| second in rest;
      todo := rest - {second};
      while todo != {}
        invariant second in rest && todo <= rest && forall f :: f in rest && f !in todo ==> means[f] <= means[second]
        decreases todo
      {
        var f :| f in todo;
        if means[f] > means[second] { second := f; }
        todo := todo - {f};
      }
      runner := means[second];
    } else {
      assert means.Keys == {winner};
    }
  }

  method Tally(cfg: Config, ts: seq<Template>) returns (support: map<FaceId, Support>, total: real)
    ensures total == TotalWeight(cfg, ts) && forall f :: Recorded(cfg, ts, support, f)
  {
    support, total := map[], 0.0;
    var i := 0;
    while i < |ts|
      invariant 0 <= i <= |ts| && total == TotalWeight(cfg, ts[..i])
      invariant forall f :: Recorded(cfg, ts[..i], support, f)
    {
      var t := ts[i];
      assert ts[..i + 1] == ts[..i] + [t];
      SumAppend(AnyWeight(cfg), ts[..i], t);
      total := total + Weight(cfg, t);
      var best := BestByIdentity(cfg, t.candidates);
      ghost var before := support;
      support := AddVotes(cfg, support, t, best);
      ghost var next := ts[..i + 1];
      forall f ensures Recorded(cfg, next, support, f) {
        assert Recorded(cfg, ts[..i], before, f);
        RecordedStep(cfg, ts[..i], before, t, best, support, f);
      }
      i := i + 1;
    }
    assert ts[..i] == ts;
  }

  // ----- the decision

  function BetterOf(a: Option<real>, x: real): Option<real> { if a.None? || x > a.value then Some(x) else a }

  /** The best score of any eligible candidate. */
  function Nearest(cfg: Config, ts: seq<Template>): Option<real> {
    if ts == [] then None else NearestIn(cfg, ts[|ts| - 1].candidates, Nearest(cfg, ts[..|ts| - 1]))
  }

  function NearestIn(cfg: Config, group: seq<Candidate>, start: Option<real>): Option<real> {
    if group == [] then start
    else
      var rest, c := NearestIn(cfg, group[..|group| - 1], start), group[|group| - 1];
      if Active(cfg, c) then BetterOf(rest, c.score) else rest
  }

  function MeanOf(s: Support): real { if s.weight == 0.0 then 0.0 else s.weighted / s.weight }

  lemma MeanAgrees(cfg: Config, ts: seq<Template>, face: FaceId, s: Support)
    requires Sane(cfg, ts) && Tallies(cfg, ts, face, s) && Supported(cfg, ts, face)
    ensures s.weight > 0.0 && MeanOf(s) == Mean(cfg, ts, face)
  {
    SupportSums(cfg, ts, face);
  }

  lemma StrongAgrees(cfg: Config, ts: seq<Template>, face: FaceId, s: Support)
    requires Tallies(cfg, ts, face, s)
    ensures s.top >= Threshold(cfg, face) <==> Strong(cfg, ts, face)
  {
  }

  /** `means` holds exactly the supported faces with their means. */
  ghost predicate MeansOf(cfg: Config, ts: seq<Template>, means: map<FaceId, real>) {
    && (forall f :: f in means <==> SupportWeight(cfg, ts, f) > 0.0)
    && (forall f :: f in means ==> means[f] == Mean(cfg, ts, f))
  }

  ghost predicate RunnerUp(means: map<FaceId, real>, winner: FaceId, runner: real) {
    if means.Keys == {winner} then runner == 0.0
    else (exists g :: g in means && g != winner && means[g] == runner)
         && forall g :: g in means && g != winner ==> means[g] <= runner
  }

  /** With the greatest mean of the others at hand, the margin check is `Leads`. */
  lemma MarginAgrees(cfg: Config, ts: seq<Template>, means: map<FaceId, real>, winner: FaceId, runner: real)
    requires MeansOf(cfg, ts, means) && winner in means && RunnerUp(means, winner, runner)
    ensures means[winner] - runner >= cfg.minMargin <==> Leads(cfg, ts, winner)
  {
    if means.Keys == {winner} {
      assert forall g :: g != winner ==> g !in means;
    } else {
      var g :| g in means && g != winner && means[g] == runner;
      assert SupportWeight(cfg, ts, g) > 0.0;
    }
  }

  method RankMeans(cfg: Config, ts: seq<Template>, support: map<FaceId, Support>)
    returns (means: map<FaceId, real>, weights: map<FaceId, real>)
    requires Sane(cfg, ts) && forall f :: Recorded(cfg, ts, support, f)
    ensures MeansOf(cfg, ts, means) && means.Keys == weights.Keys == support.Keys
    ensures forall f :: f in weights ==> weights[f] == SupportWeight(cfg, ts, f)
  {
    forall f ensures f in support <==> SupportWeight(cfg, ts, f) > 0.0 {
      assert Recorded(cfg, ts, support, f);
      SupportSums(cfg, ts, f);
    }
    means := map f | f in support :: MeanOf(support[f]);
    weights := map f | f in support :: support[f].weight;
    forall f | f in means ensures means[f] == Mean(cfg, ts, f) && weights[f] == SupportWeight(cfg, ts, f) {
      assert Recorded(cfg, ts, support, f);
      MeanAgrees(cfg, ts, f, support[f]);
    }
  }

  /** What the vote answers when `face` is ranked first. */
  ghost predicate Verdict(cfg: Config, ts: seq<Template>, face: FaceId, r: Decision)
    requires SupportWeight(cfg, ts, face) > 0.0 && TotalWeight(cfg, ts) > 0.0
  {
    var mean := Mean(cfg, ts, face);
    if !Strong(cfg, ts, face) && !Consensus(cfg, ts, face) then r == Decision(None, Nearest(cfg, ts))
    else if !Leads(cfg, ts, face) then r == Decision(None, Some(mean))
    else
      && r.winner.Some? && r.winner.value.face == face && r.winner.value.score == mean && r.score == Some(mean)
      && exists top :: IsTop(cfg, ts, face, top) && SampleOf(cfg, ts, face, r.winner.value.sample, top)
  }

  /** The checks on the face ranked first. */
  method Judge(cfg: Config, ts: seq<Template>, winner: FaceId, s: Support, total: real, mean: real, runner: real,
               nearest: Option<real>)
    returns (r: Decision)
    requires Sane(cfg, ts) && Tallies(cfg, ts, winner, s) && total == TotalWeight(cfg, ts)
             && nearest == Nearest(cfg, ts)
    requires SupportWeight(cfg, ts, winner) > 0.0 && mean == Mean(cfg, ts, winner)
    requires mean - runner >= cfg.minMargin <==> Leads(cfg, ts, winner)
    ensures TotalWeight(cfg, ts) > 0.0 && Verdict(cfg, ts, winner, r)
  {
    SupportSums(cfg, ts, winner);
    StrongAgrees(cfg, ts, winner, s);
    MeanBounds(cfg, ts, winner);
    var strong := s.top >= Threshold(cfg, winner);
    var consensus := s.votes >= cfg.minCount && s.weight / total >= cfg.minRatio;
    if !(strong || consensus) { return Decision(None, nearest); }
    if mean - runner < cfg.minMargin { return Decision(None, Some(mean)); }
    var score := Min(1.0, Max(0.0, mean));
    assert IsTop(cfg, ts, winner, s.top);
    r := Decision(Some(Match(winner, s.sample, score)), Some(score));
  }

  /** No supported face has a greater mean, or the same mean and a greater weight. */
  ghost predicate RankedFirst(cfg: Config, ts: seq<Template>, face: FaceId) {
    && SupportWeight(cfg, ts, face) > 0.0
    && forall g :: SupportWeight(cfg, ts, g) > 0.0 ==>
         || Mean(cfg, ts, g) < Mean(cfg, ts, face)
         || (Mean(cfg, ts, g) == Mean(cfg, ts, face) && SupportWeight(cfg, ts, g) <= SupportWeight(cfg, ts, face))
  }

  /** The whole answer: some face ranked first and the verdict on it, or the nearest score when there is none. */
  ghost predicate Answers(cfg: Config, ts: seq<Template>, r: Decision) {
    if forall f :: !Supported(cfg, ts, f) then r == Decision(None, Nearest(cfg, ts))
    else TotalWeight(cfg, ts) > 0.0 && exists f :: RankedFirst(cfg, ts, f) && Verdict(cfg, ts, f, r)
  }

  /** A match names a face that wins, and with a positive margin whenever a face wins there is a match. */
  lemma AnswersFit(cfg: Config, ts: seq<Template>, r: Decision)
    requires Sane(cfg, ts) && Answers(cfg, ts, r)
    ensures MatchFits(cfg, ts, r)
    ensures cfg.minMargin > 0.0 && (exists f :: Wins(cfg, ts, f)) ==> r.winner.Some?
  {
    if exists f :: Supported(cfg, ts, f) {
      var f :| RankedFirst(cfg, ts, f) && Verdict(cfg, ts, f, r);
      MeanBounds(cfg, ts, f);
      if cfg.minMargin > 0.0 && exists g :: Wins(cfg, ts, g) {
        var g :| Wins(cfg, ts, g);
        assert g == f;
      }
    } else if g :| Wins(cfg, ts, g) {
      SupportSums(cfg, ts, g);
      assert false;
    }
  }

  ghost predicate MatchFits(cfg: Config, ts: seq<Template>, r: Decision) {
    r.winner.Some? ==>
      var m := r.winner.value;
      && Wins(cfg, ts, m.face) && m.score == Mean(cfg, ts, m.face) && r.score == Some(m.score)
      && 0.0 <= m.score <= 1.0 && m.score >= Bar(cfg, m.face)
  }

  lemma FirstInMeans(cfg: Config, ts: seq<Template>, means: map<FaceId, real>, weights: map<FaceId, real>, face: FaceId)
    requires MeansOf(cfg, ts, means) && means.Keys == weights.Keys && face in means
    requires forall f :: f in weights ==> weights[f] == SupportWeight(cfg, ts, f)
    requires forall f :: f in means ==> !Outranks(means, weights, f, face)
    ensures RankedFirst(cfg, ts, face)
  {
    forall g | SupportWeight(cfg, ts, g) > 0.0
      ensures || Mean(cfg, ts, g) < Mean(cfg, ts, face)
              || (Mean(cfg, ts, g) == Mean(cfg, ts, face) && SupportWeight(cfg, ts, g) <= SupportWeight(cfg, ts, face))
    {
      assert g in means && !Outranks(means, weights, g, face);
    }
  }

  /**
    The vote. Its whole answer is determined by a face ranked first; a match names a face that wins,
    with its mean as score, which lies in [0, 1] and at or above the bar; with a positive margin a match
    is returned whenever some face wins.
  */
  method Resolve(cfg: Config, ts: seq<Template>) returns (r: Decision)
    requires Sane(cfg, ts)
    ensures Answers(cfg, ts, r) && MatchFits(cfg, ts, r)
    ensures cfg.minMargin > 0.0 && (exists f :: Wins(cfg, ts, f)) ==> r.winner.Some?
  {
    var nearest := Nearest(cfg, ts);
    var support, total := Tally(cfg, ts);
    var means, weights := RankMeans(cfg, ts, support);
    if support == map[] {
      forall f ensures !Supported(cfg, ts, f) { assert Recorded(cfg, ts, support, f); }
      r := Decision(None, nearest);
    } else {
      assert support.Keys != {};
      var winner, runner := TopTwo(means, weights);
      assert Recorded(cfg, ts, support, winner);
      MarginAgrees(cfg, ts, means, winner, runner);
      FirstInMeans(cfg, ts, means, weights, winner);
      r := Judge(cfg, ts, winner, support[winner], total, means[winner], runner, nearest);
    }
    AnswersFit(cfg, ts, r);
  }

  lemma ReorderedTally(cfg: Config, a: seq<Template>, c: seq<Template>, b: seq<Template>)
    requires Shuffled(a, c) && multiset(c) == multiset(b)
    ensures SameTally(cfg, a, b)
  {
    CandidateOrderDoesNotMatter(cfg, a, c);
    TemplateOrderDoesNotMatter(cfg, c, b);
  }

  /**
    Order independence: with a positive margin, the answers to the same templates, with templates and
    candidates in any order, either both match nothing or both match the same face with the same score.
  */
  lemma OrderDoesNotMatter(cfg: Config, a: seq<Template>, c: seq<Template>, b: seq<Template>, x: Decision, y: Decision)
    requires Sane(cfg, a) && Sane(cfg, b) && cfg.minMargin > 0.0 && Shuffled(a, c) && multiset(c) == multiset(b)
    requires Answers(cfg, a, x) && Answers(cfg, b, y)
    ensures x.winner.Some? <==> y.winner.Some?
    ensures x.winner.Some? ==>
              x.winner.value.face == y.winner.value.face && x.winner.value.score == y.winner.value.score
  {
    ReorderedTally(cfg, a, c, b);
    AnswersFit(cfg, a, x);
    AnswersFit(cfg, b, y);
    forall f ensures Wins(cfg, a, f) <==> Wins(cfg, b, f) { SameTallySameWinner(cfg, a, b, f); }
    if x.winner.Some? && y.winner.Some? {
      AtMostOneWinner(cfg, a, x.winner.value.face, y.winner.value.face);
      SameTallySameWinner(cfg, a, b, x.winner.value.face);
    }
  }

  // ----- what votes, and the nearest score

  /** A candidate votes exactly when its status is eligible and it reaches its threshold or the floor. */
  lemma VotesExactly(cfg: Config, c: Candidate)
    ensures Votes(cfg, c) <==>
              && StatusOf(cfg, c.face) in cfg.eligible
              && (|| c.score >= cfg.floor
                  || (StatusOf(cfg, c.face) == Known && c.score >= cfg.recognition)
                  || (StatusOf(cfg, c.face) != Known && c.score >= cfg.anonymous))
  {
  }

  ghost predicate Eligible(cfg: Config, ts: seq<Template>, score: real) {
    exists t, c :: t in ts && c in t.candidates && StatusOf(cfg, c.face) in cfg.eligible && c.score == score
  }

  /** The greatest of a starting value and the eligible scores of one group. */
  lemma {:induction false} NearestInIsGreatest(cfg: Config, group: seq<Candidate>, start: Option<real>)
    ensures var r := NearestIn(cfg, group, start);
            && (r.None? <==> start.None? && forall c :: c in group ==> !Active(cfg, c))
            && (start.Some? ==> r.Some? && start.value <= r.value)
            && (forall c :: c in group && Active(cfg, c) ==> r.Some? && c.score <= r.value)
            && (r.Some? ==> r == start || exists c :: c in group && Active(cfg, c) && c.score == r.value)
  {
    if group == [] {
    } else {
      var init, last := group[..|group| - 1], group[|group| - 1];
      assert group == init + [last];
      NearestInIsGreatest(cfg, init, start);
      if c :| c in init && Active(cfg, c) && NearestIn(cfg, init, start) == Some(c.score) { assert c in group; }
    }
  }

  /** The nearest score is the greatest score of any eligible candidate, and none exactly when there is none. */
  lemma {:induction false} NearestIsGreatest(cfg: Config, ts: seq<Template>)
    ensures var r := Nearest(cfg, ts);
            && (r.Some? ==> Eligible(cfg, ts, r.value))
            && (forall t, c :: t in ts && c in t.candidates && StatusOf(cfg, c.face) in cfg.eligible ==>
                  r.Some? && c.score <= r.value)
  {
    if ts == [] {
    } else {
      var init, last := ts[..|ts| - 1], ts[|ts| - 1];
      assert ts == init + [last];
      NearestIsGreatest(cfg, init);
      NearestInIsGreatest(cfg, last.candidates, Nearest(cfg, init));
      var r := Nearest(cfg, ts);
      if r.Some? { NearestIsSomeones(cfg, init, last, r.value); }
    }
  }

  lemma NearestIsSomeones(cfg: Config, init: seq<Template>, last: Template, score: real)
    requires (Nearest(cfg, init) == Some(score) && Eligible(cfg, init, score))
             || exists c :: c in last.candidates && Active(cfg, c) && c.score == score
    ensures Eligible(cfg, init + [last], score)
  {
    var ts := init + [last];
    assert ts[|init|] == last && last in ts;
    if c :| c in last.candidates && Active(cfg, c) && c.score == score {
      assert c in last.candidates && StatusOf(cfg, c.face) in cfg.eligible;
    } else {
      var t, c :| t in init && c in t.candidates && StatusOf(cfg, c.face) in cfg.eligible && c.score == score;
      assert t in ts;
    }
  }

  /** Every template adds one plus the logarithm of its detections to the total, supported or not. */
  lemma TotalCountsEveryTemplate(cfg: Config, ts: seq<Template>, t: Template)
    ensures TotalWeight(cfg, ts + [t]) == TotalWeight(cfg, ts) + 1.0 + cfg.log1p(t.count)
    ensures TotalWeight(cfg, []) == 0.0
  {
    SumAppend(AnyWeight(cfg), ts, t);
  }

  /** A template whose best voting score for a face is `best` adds one vote, its weight, and their product. */
  lemma SupportGrowsBy(cfg: Config, ts: seq<Template>, t: Template, face: FaceId, best: real)
    requires Best(cfg, t.candidates, face) == Some(best)
    ensures VoteCount(cfg, ts + [t], face) == VoteCount(cfg, ts, face) + 1.0
    ensures SupportWeight(cfg, ts + [t], face) == SupportWeight(cfg, ts, face) + (1.0 + cfg.log1p(t.count))
    ensures SupportScore(cfg, ts + [t], face) == SupportScore(cfg, ts, face) + best * (1.0 + cfg.log1p(t.count))
  {
    TallyAppend(cfg, ts, t, face);
    TermsAre(cfg, t, face, best, Weight(cfg, t));
  }

  /** A face is strong exactly when some eligible candidate for it reaches the threshold of its status. */
  lemma StrongExactly(cfg: Config, ts: seq<Template>, face: FaceId)
    ensures Strong(cfg, ts, face) <==>
              exists t, c :: && t in ts && c in t.candidates && c.face == face && StatusOf(cfg, face) in cfg.eligible
                             && c.score >= (if StatusOf(cfg, face) == Known then cfg.recognition else cfg.anonymous)
  {
    if Strong(cfg, ts, face) {
      var t :| t in ts && SupportedBy(cfg, t, face) && Best(cfg, t.candidates, face).value >= Threshold(cfg, face);
      BestIsMaximum(cfg, t.candidates, face);
      var c :| c in t.candidates && Backs(cfg, c, face) && c.score == Best(cfg, t.candidates, face).value;
      assert c in t.candidates && c.face == face && c.score >= Threshold(cfg, face);
    }
    if t, c :| && t in ts && c in t.candidates && c.face == face && StatusOf(cfg, face) in cfg.eligible
               && c.score >= (if StatusOf(cfg, face) == Known then cfg.recognition else cfg.anonymous) {
      BestIsMaximum(cfg, t.candidates, face);
      assert Backs(cfg, c, face);
      assert SupportedBy(cfg, t, face) && Best(cfg, t.candidates, face).value >= Threshold(cfg, face);
    }
  }

  /** Consensus in products: enough votes, and at least the required share of the total weight. */
  lemma ConsensusExactly(cfg: Config, ts: seq<Template>, face: FaceId)
    requires TotalWeight(cfg, ts) > 0.0
    ensures Consensus(cfg, ts, face) <==>
              && VoteCount(cfg, ts, face) >= cfg.minCount as real
              && SupportWeight(cfg, ts, face) >= cfg.minRatio * TotalWeight(cfg, ts)
  {
    ShareInProducts(SupportWeight(cfg, ts, face), TotalWeight(cfg, ts), cfg.minRatio);
  }

  lemma ShareInProducts(part: real, total: real, share: real)
    requires total > 0.0
    ensures part / total >= share <==> part >= share * total
  {
    var q := part / total;
    assert q * total == part && part - share * total == (q - share) * total;
    if q >= share { assert (q - share) * total >= 0.0; } else { assert (share - q) * total > 0.0; }
  }

  /** A face leads when its mean reaches that of every other supported face plus the margin, or the margin alone. */
  lemma LeadsExactly(cfg: Config, ts: seq<Template>, face: FaceId)
    requires SupportWeight(cfg, ts, face) > 0.0
    ensures Leads(cfg, ts, face) <==>
              && (forall g :: g != face && SupportWeight(cfg, ts, g) > 0.0 ==>
                    Mean(cfg, ts, face) >= Mean(cfg, ts, g) + cfg.minMargin)
              && ((exists g :: g != face && SupportWeight(cfg, ts, g) > 0.0) || Mean(cfg, ts, face) >= cfg.minMargin)
  {
  }
}

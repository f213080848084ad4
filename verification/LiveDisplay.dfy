/** What the display shows, as a rule over whole runs of the live identity protocol. */
module LiveDisplay {
  import opened Common
  import opened LiveIdentity
  import opened LiveEvents
  import opened NativeIdentity
  import opened LiveSystem
  import opened LiveSafety

  /** The step delivers an assignment for `t` that native accepts. */
  predicate Applies(cfg: Config, s: System, step: Action, t: nat) {
    && step == Deliver && s.wire != [] && !s.native.stopped && s.wire[0].Assign?
    && var a := s.wire[0].assignment;
       && a.tracker == t && a.generation == cfg.generation
       && a.revision > Get(s.native.context, t, 0) && Accepts(NativeOf(s, t), a)
  }

  /** The newest assignment native applied for `t`. */
  function LastApplied(cfg: Config, run: seq<Action>, t: nat): Option<Assignment>
    requires cfg.capacity >= 1
  {
    if run == [] then None
    else
      var s, step := Exec(cfg, run[..|run| - 1]), run[|run| - 1];
      if Applies(cfg, s, step, t) then Some(s.wire[0].assignment) else LastApplied(cfg, run[..|run| - 1], t)
  }

  /** The scores of the frames of `t` since then, oldest first. */
  function ScoresSince(cfg: Config, run: seq<Action>, t: nat): seq<real>
    requires cfg.capacity >= 1
  {
    if run == [] then []
    else
      var s, step := Exec(cfg, run[..|run| - 1]), run[|run| - 1];
      if Applies(cfg, s, step, t) then []
      else ScoresSince(cfg, run[..|run| - 1], t) + if step.Frame? && step.tracker == t then [step.score] else []
  }

  /** The entry right after `a` was applied. */
  function FreshEntry(a: Assignment): Entry {
    Entry(if a.word == SayKnown then NativeState(Known, a.face, a.revision, a.epoch)
          else NativeState(Unknown, None, a.revision, a.epoch),
          SanitizedName(a.name), a.reference, a.threshold, None, a.word == SayKnown, 0, 0)
  }

  function EntryAfter(applied: Option<Assignment>, scores: seq<real>): Entry {
    if applied.None? then BLANK
    else if applied.value.reference.None? then FreshEntry(applied.value)
    else ObserveAll(FreshEntry(applied.value), scores)
  }

  lemma {:induction false} ObservingKeeps(e: Entry, scores: seq<real>)
    ensures var r := ObserveAll(e, scores); r.reference == e.reference && r.identity == e.identity
    ensures e.threshold.None? ==> ObserveAll(e, scores) == e
  {
    if scores == [] {
    } else {
      ObservingKeeps(e, scores[..|scores| - 1]);
    }
  }

  lemma ObserveNext(e: Entry, scores: seq<real>, score: real)
    ensures ObserveAll(e, scores + [score]) == OsdObserve(ObserveAll(e, scores), score)
  {
    assert (scores + [score])[..|scores|] == scores;
  }

  lemma DispatchDisplays(generation: nat, n: Native, a: Assignment, t: nat)
    requires Twins(n, a.tracker)
    ensures var accepted := a.generation == generation && a.revision > Get(n.context, a.tracker, 0)
                            && Accepts(Get(n.tracks, a.tracker, INITIAL), a);
            Get(DeliverAssignment(generation, n, a).osd, t, BLANK)
            == if accepted && a.tracker == t then FreshEntry(a) else Get(n.osd, t, BLANK)
  {
  }

  lemma FrameDisplays(cfg: Config, s: System, u: nat, score: real, t: nat)
    requires cfg.capacity >= 1
    ensures var e := Get(s.native.osd, t, BLANK);
            Get(Next(cfg, s, Frame(u, score)).native.osd, t, BLANK)
            == if u == t && e.reference.Some? then OsdObserve(e, score) else e
  {
  }

  lemma DeliverDisplays(cfg: Config, s: System, t: nat)
    requires cfg.capacity >= 1 && forall u :: Twins(s.native, u)
    ensures Get(Next(cfg, s, Deliver).native.osd, t, BLANK)
         == if Applies(cfg, s, Deliver, t) then FreshEntry(s.wire[0].assignment) else Get(s.native.osd, t, BLANK)
  {
    if s.wire != [] && s.wire[0].Assign? {
      assert Twins(s.native, s.wire[0].assignment.tracker);
      DispatchDisplays(cfg.generation, s.native, s.wire[0].assignment, t);
    }
  }

  lemma OthersDoNotDisplay(cfg: Config, s: System, step: Action)
    requires cfg.capacity >= 1 && step != Deliver && !step.Frame?
    ensures Next(cfg, s, step).native == s.native
  {
  }

  lemma EntryStep(cfg: Config, s: System, step: Action, t: nat, applied: Option<Assignment>, scores: seq<real>)
    requires cfg.capacity >= 1 && (forall u :: Twins(s.native, u))
    requires Get(s.native.osd, t, BLANK) == EntryAfter(applied, scores)
    ensures Get(Next(cfg, s, step).native.osd, t, BLANK)
         == if Applies(cfg, s, step, t) then EntryAfter(Some(s.wire[0].assignment), [])
            else EntryAfter(applied, scores + if step.Frame? && step.tracker == t then [step.score] else [])
  {
    assert scores + [] == scores;
    match step
    case Deliver => DeliverDisplays(cfg, s, t);
    case Frame(u, score) =>
      FrameDisplays(cfg, s, u, score, t);
      if applied.Some? {
        ObservingKeeps(FreshEntry(applied.value), scores);
        ObserveNext(FreshEntry(applied.value), scores, score);
      }
    case _ => OthersDoNotDisplay(cfg, s, step);
  }

  /** In every run the display entry is the last applied assignment with the frames since observed on it. */
  lemma {:induction false} EntryInRuns(cfg: Config, run: seq<Action>, t: nat)
    requires cfg.capacity >= 1
    ensures Get(Exec(cfg, run).native.osd, t, BLANK) == EntryAfter(LastApplied(cfg, run, t), ScoresSince(cfg, run, t))
  {
    if run == [] {
    } else {
      var init := run[..|run| - 1];
      EntryInRuns(cfg, init, t);
      ReplicasAlwaysAgree(cfg, init);
      EntryStep(cfg, Exec(cfg, init), run[|run| - 1], t, LastApplied(cfg, init, t), ScoresSince(cfg, init, t));
    }
  }

  /** The rule for the screen: a held face whose frames since did not last go three in a row against it. */
  predicate IsNamed(applied: Option<Assignment>, scores: seq<real>) {
    && applied.Some? && applied.value.word == SayKnown
    && (applied.value.reference.Some? && applied.value.threshold.Some? ==>
          LastTriple(FreshEntry(applied.value), scores, true))
  }

  /**
    In every run a name is on screen for `t` exactly when the last applied assignment named a face and, if
    its frames can be scored, the newest three in a row since then were not below the threshold.
  */
  lemma NamedExactlyByLastTriple(cfg: Config, run: seq<Action>, t: nat)
    requires cfg.capacity >= 1
    ensures var e := Get(Exec(cfg, run).native.osd, t, BLANK);
            e.identity.state == Known && e.visible <==> IsNamed(LastApplied(cfg, run, t), ScoresSince(cfg, run, t))
    ensures var applied := LastApplied(cfg, run, t);
            applied.Some? && applied.value.reference.Some? && applied.value.threshold.Some? ==>
              Get(Exec(cfg, run).native.osd, t, BLANK).visible
              == LastTriple(FreshEntry(applied.value), ScoresSince(cfg, run, t), applied.value.word == SayKnown)
  {
    EntryInRuns(cfg, run, t);
    var applied, scores := LastApplied(cfg, run, t), ScoresSince(cfg, run, t);
    if applied.Some? {
      var e := FreshEntry(applied.value);
      ObservingKeeps(e, scores);
      if e.threshold.Some? { VisibilityIsLastTriple(e, scores); }
    }
  }
}

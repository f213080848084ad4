/** Safety of the live identity protocol over all runs: stamp order, label safety, replica agreement. */
module LiveSafety {
  import opened Common
  import opened LiveIdentity
  import opened LiveEvents
  import opened NativeIdentity
  import opened LiveSystem
  import opened LiveProjection

  // ----- stamps

  /** The revisions native reads off the pipe for `t`, in order, whatever it then does with them. */
  function Delivered(cfg: Config, run: seq<Action>, t: nat): seq<nat>
    requires cfg.capacity >= 1
  {
    if run == [] then []
    else
      var s := Exec(cfg, run[..|run| - 1]);
      Delivered(cfg, run[..|run| - 1], t)
      + if run[|run| - 1] == Deliver && s.wire != [] && !s.native.stopped && s.wire[0].Assign?
           && s.wire[0].assignment.tracker == t
        then [s.wire[0].assignment.revision] else []
  }

  lemma ContextOfOthers(generation: nat, n: Native, a: Assignment, t: nat)
    requires a.tracker != t
    ensures Get(DeliverAssignment(generation, n, a).context, t, 0) == Get(n.context, t, 0)
  {
  }

  lemma ContextMoves(cfg: Config, s: System, a: Action, t: nat)
    requires cfg.capacity >= 1
    requires !(a == Deliver && s.wire != [] && !s.native.stopped && s.wire[0].Assign?
               && s.wire[0].assignment.tracker == t)
    ensures Get(Next(cfg, s, a).native.context, t, 0) == Get(s.native.context, t, 0)
  {
    if a.Deliver? && s.wire != [] && s.wire[0].Assign? && s.wire[0].assignment.tracker != t {
      ContextOfOthers(cfg.generation, s.native, s.wire[0].assignment, t);
    }
  }

  ghost predicate RisingTo(d: seq<nat>, top: nat) {
    && (forall i, j :: 0 <= i < j < |d| ==> d[i] < d[j])
    && (forall i :: 0 <= i < |d| ==> d[i] <= top)
  }

  lemma RisingAppend(d: seq<nat>, top: nat, next: nat)
    requires RisingTo(d, top) && top < next
    ensures RisingTo(d + [next], next)
  {
  }

  /** Revisions reach native strictly increasing per tracker, through coalescing, eviction and expiry. */
  lemma {:induction false} DeliveredRevisionsIncrease(cfg: Config, run: seq<Action>, t: nat)
    requires cfg.capacity >= 1
    ensures RisingTo(Delivered(cfg, run, t), Get(Exec(cfg, run).native.context, t, 0))
  {
    if run == [] {
    } else {
      var init, a := run[..|run| - 1], run[|run| - 1];
      var s := Exec(cfg, init);
      DeliveredRevisionsIncrease(cfg, init, t);
      RunsAreSound(cfg, init);
      assert Ordered(cfg, Project(cfg, s, t));
      if a == Deliver && s.wire != [] && !s.native.stopped && s.wire[0].Assign? && s.wire[0].assignment.tracker == t {
        DeliverProjects(cfg, s, t);
        WireForHead(s.wire, t);
        assert InFlight(Project(cfg, s, t))[0] == s.wire[0].assignment;
        var context, revision := Get(s.native.context, t, 0), s.wire[0].assignment.revision;
        assert Get(Exec(cfg, run).native.context, t, 0) == revision > context;
        RisingAppend(Delivered(cfg, init, t), context, revision);
      } else {
        ContextMoves(cfg, s, a, t);
        assert Delivered(cfg, run, t) == Delivered(cfg, init, t);
      }
    }
  }

  /** Neither the decoder's nor `apply`'s stale-revision refusal is ever taken. */
  lemma NothingStaleIsDelivered(cfg: Config, run: seq<Action>)
    requires cfg.capacity >= 1
    ensures var s := Exec(cfg, run);
            s.wire != [] && s.wire[0].Assign? ==>
              var a := s.wire[0].assignment;
              && a.generation == cfg.generation
              && a.revision > Get(s.native.context, a.tracker, 0)
              && a.revision > NativeOf(s, a.tracker).revision
  {
    RunsAreSound(cfg, run);
    var s := Exec(cfg, run);
    if s.wire != [] && s.wire[0].Assign? {
      var t := s.wire[0].assignment.tracker;
      WireForHead(s.wire, t);
      assert Ordered(cfg, Project(cfg, s, t));
      assert InFlight(Project(cfg, s, t))[0] == s.wire[0].assignment;
    }
  }

  // ----- the track and the display hold the same identity

  predicate Twins(n: Native, t: nat) { Get(n.osd, t, BLANK).identity == Get(n.tracks, t, INITIAL) }

  lemma DispatchKeepsTwins(generation: nat, n: Native, a: Assignment, t: nat)
    requires Twins(n, t) && Twins(n, a.tracker)
    ensures Twins(DeliverAssignment(generation, n, a), t)
  {
  }

  lemma FrameKeepsTwins(n: Native, u: nat, score: real, t: nat)
    requires Twins(n, t) && u in n.osd
    ensures Twins(n.(osd := n.osd[u := OsdObserve(n.osd[u], score)]), t)
  {
  }

  lemma TwinsKept(cfg: Config, s: System, a: Action, t: nat)
    requires cfg.capacity >= 1 && forall u :: Twins(s.native, u)
    ensures Twins(Next(cfg, s, a).native, t)
  {
    assert Twins(s.native, t);
    if a.Deliver? && s.wire != [] && s.wire[0].Assign? {
      DispatchKeepsTwins(cfg.generation, s.native, s.wire[0].assignment, t);
    } else if a.Frame? && a.tracker in s.native.osd {
      FrameKeepsTwins(s.native, a.tracker, a.score, t);
    }
  }

  lemma {:induction false} ReplicasAlwaysAgree(cfg: Config, run: seq<Action>)
    requires cfg.capacity >= 1
    ensures forall t :: Twins(Exec(cfg, run).native, t)
  {
    if run == [] {
    } else {
      var s, a := Exec(cfg, run[..|run| - 1]), run[|run| - 1];
      ReplicasAlwaysAgree(cfg, run[..|run| - 1]);
      forall t ensures Twins(Next(cfg, s, a).native, t) {
        TwinsKept(cfg, s, a, t);
      }
    }
  }

  // ----- histories of one tracker

  /** The expiry handler ran to its end, so the identity service forgot the track. */
  predicate Forgets(cfg: Config, s: System, a: Action, t: nat) {
    a.OnExpired? && a.tracker == t && ExpiredEvents(cfg, s, a).reply.Commands?
  }

  predicate Forgotten(cfg: Config, run: seq<Action>, t: nat)
    requires cfg.capacity >= 1
  {
    run != [] && (Forgotten(cfg, run[..|run| - 1], t) || Forgets(cfg, Exec(cfg, run[..|run| - 1]), run[|run| - 1], t))
  }

  /** The tracker id is not used again after its track expired. */
  predicate NoReuse(cfg: Config, run: seq<Action>, t: nat)
    requires cfg.capacity >= 1
  {
    run != [] ==>
      && NoReuse(cfg, run[..|run| - 1], t)
      && (run[|run| - 1].OnEvidence? && run[|run| - 1].tracker == t ==> !Forgotten(cfg, run[..|run| - 1], t))
  }

  predicate Concerns(a: Action, t: nat) { a.OnEvidence? && a.tracker == t }

  /** The identity of `t` as the service last knew it. */
  function LastTrack(cfg: Config, run: seq<Action>, t: nat): TrackIdentity
    requires cfg.capacity >= 1
  {
    if run == [] then FRESH
    else if Concerns(run[|run| - 1], t) then Resolved(Exec(cfg, run[..|run| - 1]), run[|run| - 1]).track
    else LastTrack(cfg, run[..|run| - 1], t)
  }

  function Adds(r: Outcome): set<(nat, FaceId)> {
    if r.decision.transition == ToKnown && r.decision.winner.Some?
    then {(r.decision.epoch, r.decision.winner.value.face)} else {}
  }

  /** Every (epoch, face) the service decided for `t`. */
  function Decided(cfg: Config, run: seq<Action>, t: nat): set<(nat, FaceId)>
    requires cfg.capacity >= 1
  {
    if run == [] then {}
    else
      Decided(cfg, run[..|run| - 1], t)
      + if Concerns(run[|run| - 1], t) then Adds(Resolved(Exec(cfg, run[..|run| - 1]), run[|run| - 1])) else {}
  }

  /** The current epoch of `t` was opened by replacing one face with another. */
  predicate OpenedBySwap(cfg: Config, run: seq<Action>, t: nat)
    requires cfg.capacity >= 1
  {
    if run == [] then false
    else
      var init, a := run[..|run| - 1], run[|run| - 1];
      if Concerns(a, t) && Resolved(Exec(cfg, init), a).decision.reset
      then Resolved(Exec(cfg, init), a).decision.transition == ToKnown
      else OpenedBySwap(cfg, init, t)
  }

  /** All that safety needs to know about one evaluation. */
  ghost predicate Shape(t: TrackIdentity, r: Outcome) {
    var d := r.decision;
    && d.epoch == r.track.epoch
    && match d.transition
       case Stay => && r.track.epoch == t.epoch && r.track.known == t.known && !d.reset
                    && (t.known.Some? ==> d.winner.Some?)
       case ToUnknown => && r.track.epoch == t.epoch + 1 && t.known.Some? && r.track.known.None?
                         && d.winner.None? && d.reset
       case ToKnown => && r.track.known.Some? && d.winner == r.track.known
                       && d.reset == t.known.Some?
                       && r.track.epoch == t.epoch + (if d.reset then 1 else 0)
  }

  lemma ResolveHasShape(t: TrackIdentity, x: Evaluation)
    requires t.known.Some? ==> t.window != []
    ensures Shape(t, ResolveTrack(t, x))
    ensures ResolveTrack(t, x).track.known.Some? ==> ResolveTrack(t, x).track.window != []
  {
    VoteKeepsWindow(t, x);
  }

  // ----- label safety

  ghost predicate Justified(a: Assignment, epoch: nat, decided: set<(nat, FaceId)>) {
    && a.epoch <= epoch && a.word != Illegal
    && (a.word == SayKnown ==> a.face.Some? && (a.epoch, a.face.value) in decided)
  }

  ghost predicate SafeNative(n: NativeState, epoch: nat, decided: set<(nat, FaceId)>) {
    && n.epoch <= epoch
    && (n.state == Known ==> n.face.Some? && (n.epoch, n.face.value) in decided)
  }

  ghost predicate SafeTrack(last: TrackIdentity, decided: set<(nat, FaceId)>) {
    && last.epoch >= 1
    && (forall p, q :: p in decided && q in decided && p.0 == q.0 ==> p.1 == q.1)
    && (forall p :: p in decided ==> p.0 <= last.epoch)
    && (last.known.Some? ==> (last.epoch, last.known.value.face) in decided && last.window != [])
    && (last.known.None? ==> forall p :: p in decided ==> p.0 < last.epoch)
  }

  ghost predicate SafeView(v: View, last: TrackIdentity, decided: set<(nat, FaceId)>) {
    && SafeTrack(last, decided)
    && (v.pend.Some? ==> v.pend.value.epoch <= last.epoch)
    && (forall i :: 0 <= i < |InFlight(v)| ==> Justified(InFlight(v)[i], last.epoch, decided))
    && SafeNative(v.native, last.epoch, decided)
  }

  /** While an epoch opened by a replacement lasts, nothing that could open it for native exists. */
  ghost predicate Unopened(v: View, last: TrackIdentity) {
    && last.known.Some? && v.native.epoch < last.epoch
    && (v.pend.Some? ==> v.pend.value.epoch < last.epoch)
    && (forall i :: 0 <= i < |InFlight(v)| && InFlight(v)[i].word == SayUnknown ==> InFlight(v)[i].epoch < last.epoch)
  }

  lemma InFlightParts(v: View, i: nat)
    requires i < |InFlight(v)|
    ensures InFlight(v)[i] == if i < |v.wire| then v.wire[i] else v.slot.value
  {
  }

  lemma SafeTrackStep(t: TrackIdentity, r: Outcome, decided: set<(nat, FaceId)>)
    requires SafeTrack(t, decided) && Shape(t, r) && (r.track.known.Some? ==> r.track.window != [])
    ensures SafeTrack(r.track, decided + Adds(r))
  {
  }

  lemma DecidesSafe(cfg: Config, v: View, v': View, r: Outcome, emits: bool, decided: set<(nat, FaceId)>)
    requires SafeView(v, v.track, decided) && Decides(cfg, v, v', r, emits)
    requires Shape(v.track, r) && (r.track.known.Some? ==> r.track.window != [])
    ensures SafeView(v', v'.track, decided + Adds(r))
  {
    SafeTrackStep(v.track, r, decided);
    forall i | 0 <= i < |InFlight(v')| ensures Justified(InFlight(v')[i], v'.track.epoch, decided + Adds(r)) {
      InFlightParts(v', i);
      if i < |InFlight(v)| { InFlightParts(v, i); assert Justified(InFlight(v)[i], v.track.epoch, decided); }
    }
  }

  lemma DecidesUnopened(cfg: Config, v: View, v': View, r: Outcome, emits: bool, decided: set<(nat, FaceId)>,
                        swap: bool)
    requires SafeView(v, v.track, decided) && Decides(cfg, v, v', r, emits) && Shape(v.track, r)
    requires swap ==> Unopened(v, v.track)
    requires r.decision.reset ==> r.decision.transition == ToKnown
    requires swap || r.decision.reset
    ensures Unopened(v', v'.track)
  {
    forall i | 0 <= i < |InFlight(v')| && InFlight(v')[i].word == SayUnknown
      ensures InFlight(v')[i].epoch < v'.track.epoch
    {
      InFlightParts(v', i);
      if i < |InFlight(v)| { InFlightParts(v, i); assert Justified(InFlight(v)[i], v.track.epoch, decided); }
    }
  }

  lemma ExpiresSafe(cfg: Config, v: View, v': View, done: bool, emits: bool, last: TrackIdentity,
                    decided: set<(nat, FaceId)>)
    requires SafeView(v, last, decided) && Expires(cfg, v, v', done, emits)
    ensures SafeView(v', last, decided)
    ensures Unopened(v, last) ==> Unopened(v', last)
  {
    forall i | 0 <= i < |InFlight(v')|
      ensures Justified(InFlight(v')[i], last.epoch, decided)
      ensures Unopened(v, last) && InFlight(v')[i].word == SayUnknown ==> InFlight(v')[i].epoch < last.epoch
    {
      InFlightParts(v', i);
      if i < |InFlight(v)| { InFlightParts(v, i); assert Justified(InFlight(v)[i], last.epoch, decided); }
    }
  }

  lemma MovesSafe(v: View, v': View, last: TrackIdentity, decided: set<(nat, FaceId)>)
    requires SafeView(v, last, decided)
    requires Moves(v, v')
    ensures SafeView(v', last, decided) && v'.track == v.track
    ensures Unopened(v, last) ==> Unopened(v', last)
  {
    var w, w' := InFlight(v), InFlight(v');
    if Loses(v, v') {
      assert forall i :: 0 <= i < |w'| ==> w'[i] == w[i];
    } else if Sends(v, v') {
      assert w' == w;
    } else if Delivers(v, v') {
      assert w' == w[1..] && w[0] == v.wire[0];
      assert Justified(w[0], last.epoch, decided);
    }
  }

  ghost predicate SafeRun(cfg: Config, run: seq<Action>, t: nat)
    requires cfg.capacity >= 1
  {
    var v, last := Project(cfg, Exec(cfg, run), t), LastTrack(cfg, run, t);
    && SafeView(v, last, Decided(cfg, run, t))
    && (!Forgotten(cfg, run, t) ==> v.track == last)
    && (OpenedBySwap(cfg, run, t) ==> Unopened(v, last))
  }

  /** What evidence for `t` adds to the service's history of `t`. */
  lemma OwnHistory(cfg: Config, init: seq<Action>, a: Action, t: nat)
    requires cfg.capacity >= 1 && Concerns(a, t)
    ensures var run, r := init + [a], Resolved(Exec(cfg, init), a);
            && Exec(cfg, run) == Next(cfg, Exec(cfg, init), a)
            && LastTrack(cfg, run, t) == r.track
            && Decided(cfg, run, t) == Decided(cfg, init, t) + Adds(r)
            && OpenedBySwap(cfg, run, t)
               == (if r.decision.reset then r.decision.transition == ToKnown else OpenedBySwap(cfg, init, t))
            && Forgotten(cfg, run, t) == Forgotten(cfg, init, t)
  {
    var run := init + [a];
    assert run[..|run| - 1] == init && run[|run| - 1] == a;
  }

  lemma SafeDecision(cfg: Config, s: System, a: Action, t: nat, decided: set<(nat, FaceId)>)
    requires cfg.capacity >= 1 && Sound(cfg, s) && Concerns(a, t) && SafeView(Project(cfg, s, t), Track(s, t), decided)
    ensures var s' := Next(cfg, s, a); SafeView(Project(cfg, s', t), Track(s', t), decided + Adds(Resolved(s, a)))
  {
    var v, v', emits := Project(cfg, s, t), Project(cfg, Next(cfg, s, a), t), Emitted(EvidenceEvents(cfg, s, a)) != [];
    assert Ordered(cfg, v);
    EvidenceProjects(cfg, s, a, t);
    ResolveHasShape(v.track, a.x);
    DecidesSafe(cfg, v, v', Resolved(s, a), emits, decided);
  }

  lemma UnopenedDecision(cfg: Config, s: System, a: Action, t: nat, decided: set<(nat, FaceId)>, swap: bool)
    requires cfg.capacity >= 1 && Sound(cfg, s) && Concerns(a, t) && SafeView(Project(cfg, s, t), Track(s, t), decided)
    requires swap ==> Unopened(Project(cfg, s, t), Track(s, t))
    requires var d := Resolved(s, a).decision; if d.reset then d.transition == ToKnown else swap
    ensures Unopened(Project(cfg, Next(cfg, s, a), t), Resolved(s, a).track)
  {
    var v, v', emits := Project(cfg, s, t), Project(cfg, Next(cfg, s, a), t), Emitted(EvidenceEvents(cfg, s, a)) != [];
    assert Ordered(cfg, v);
    EvidenceProjects(cfg, s, a, t);
    ResolveHasShape(v.track, a.x);
    DecidesUnopened(cfg, v, v', Resolved(s, a), emits, decided, swap);
  }

  lemma TrackAfterEvidence(cfg: Config, s: System, a: Action, t: nat)
    requires cfg.capacity >= 1 && Concerns(a, t)
    ensures Track(Next(cfg, s, a), t) == Resolved(s, a).track
  {
  }

  lemma SafeEvidence(cfg: Config, init: seq<Action>, a: Action, t: nat)
    requires cfg.capacity >= 1 && SafeRun(cfg, init, t) && Sound(cfg, Exec(cfg, init))
    requires Concerns(a, t) && !Forgotten(cfg, init, t)
    ensures SafeRun(cfg, init + [a], t)
  {
    var s, decided := Exec(cfg, init), Decided(cfg, init, t);
    OwnHistory(cfg, init, a, t);
    TrackAfterEvidence(cfg, s, a, t);
    SafeDecision(cfg, s, a, t, decided);
    if OpenedBySwap(cfg, init + [a], t) {
      UnopenedDecision(cfg, s, a, t, decided, OpenedBySwap(cfg, init, t));
    }
  }

  /** A step that brings no evidence for `t` leaves the service's history of `t` alone. */
  lemma QuietHistory(cfg: Config, init: seq<Action>, a: Action, t: nat)
    requires cfg.capacity >= 1 && !Concerns(a, t)
    ensures var run := init + [a];
            && Exec(cfg, run) == Next(cfg, Exec(cfg, init), a)
            && LastTrack(cfg, run, t) == LastTrack(cfg, init, t)
            && Decided(cfg, run, t) == Decided(cfg, init, t)
            && OpenedBySwap(cfg, run, t) == OpenedBySwap(cfg, init, t)
            && Forgotten(cfg, run, t) == (Forgotten(cfg, init, t) || Forgets(cfg, Exec(cfg, init), a, t))
  {
    var run := init + [a];
    assert run[..|run| - 1] == init && run[|run| - 1] == a;
  }

  lemma SafeExpiry(cfg: Config, s: System, a: Action, t: nat, last: TrackIdentity, decided: set<(nat, FaceId)>)
    requires cfg.capacity >= 1 && Sound(cfg, s) && a.OnExpired? && a.tracker == t
    requires SafeView(Project(cfg, s, t), last, decided)
    ensures var v, v' := Project(cfg, s, t), Project(cfg, Next(cfg, s, a), t);
            && SafeView(v', last, decided)
            && (Unopened(v, last) ==> Unopened(v', last))
            && (!Forgets(cfg, s, a, t) ==> v'.track == v.track)
  {
    var v, v', step := Project(cfg, s, t), Project(cfg, Next(cfg, s, a), t), ExpiredEvents(cfg, s, a);
    assert Ordered(cfg, v);
    ExpiryProjects(cfg, s, a, t);
    ExpiresSafe(cfg, v, v', step.reply.Commands?, Emitted(step) != [], last, decided);
  }

  lemma SafeMove(cfg: Config, s: System, a: Action, t: nat, last: TrackIdentity, decided: set<(nat, FaceId)>)
    requires cfg.capacity >= 1 && Sound(cfg, s) && !Concerns(a, t) && !(a.OnExpired? && a.tracker == t)
    requires SafeView(Project(cfg, s, t), last, decided)
    ensures var v, v' := Project(cfg, s, t), Project(cfg, Next(cfg, s, a), t);
            && SafeView(v', last, decided)
            && (Unopened(v, last) ==> Unopened(v', last))
            && v'.track == v.track
  {
    var v, v' := Project(cfg, s, t), Project(cfg, Next(cfg, s, a), t);
    assert Moves(v, v') by { OtherProjects(cfg, s, a, t); }
    MovesSafe(v, v', last, decided);
  }

  lemma SafeOther(cfg: Config, init: seq<Action>, a: Action, t: nat)
    requires cfg.capacity >= 1 && SafeRun(cfg, init, t) && Sound(cfg, Exec(cfg, init))
    requires !Concerns(a, t)
    ensures SafeRun(cfg, init + [a], t)
  {
    var s, last, decided := Exec(cfg, init), LastTrack(cfg, init, t), Decided(cfg, init, t);
    QuietHistory(cfg, init, a, t);
    if a.OnExpired? && a.tracker == t {
      SafeExpiry(cfg, s, a, t, last, decided);
    } else {
      SafeMove(cfg, s, a, t, last, decided);
    }
  }

  lemma {:induction false} RunsAreSafe(cfg: Config, run: seq<Action>, t: nat)
    requires cfg.capacity >= 1 && NoReuse(cfg, run, t)
    ensures SafeRun(cfg, run, t)
  {
    if run == [] {
    } else {
      var init, a := run[..|run| - 1], run[|run| - 1];
      assert run == init + [a];
      RunsAreSafe(cfg, init, t);
      RunsAreSound(cfg, init);
      if Concerns(a, t) { SafeEvidence(cfg, init, a, t); } else { SafeOther(cfg, init, a, t); }
    }
  }
}

/** Every action of the whole system, seen from one tracker, is one of a few small steps. */
module LiveProjection {
  import opened Common
  import opened LiveIdentity
  import opened LiveEvents
  import opened AssignmentQueues
  import opened NativeIdentity
  import opened LiveSystem

  /** A list of fresh stamps for one tracker, numbered from `revision + 1`. */
  ghost predicate Numbered(list: seq<Assignment>, tracker: nat, generation: nat, revision: nat) {
    forall i :: 0 <= i < |list| ==>
      list[i].tracker == tracker && list[i].generation == generation && list[i].revision == revision + 1 + i
  }

  lemma AcceptEmits(cfg: Settings, st: EventState, ev: Evidence, d: Decision, rowStored: bool)
    requires d.transition == ToKnown ==> d.winner.Some? && d.reference.Some?
    ensures var step := AcceptDecision(cfg, st, ev.camera, ev.run, ev.generation, ev, d, rowStored);
            var list, old' := Emitted(step), Revision(st, ev.run, ev.tracker);
            && Numbered(list, ev.tracker, ev.generation, old')
            && Revision(step.state, ev.run, ev.tracker) == old' + |list|
            && (d.transition == Stay ==> list == [])
            && (d.transition == ToUnknown && list != [] ==>
                  |list| == 1 && Says(list[0], old' + 1, d.epoch, SayUnknown, None))
            && (d.transition == ToKnown && list != [] ==>
                  |list| == (if d.reset then 2 else 1)
                  && Says(list[|list| - 1], old' + |list|, d.epoch, SayKnown, Some(d.winner.value.face)))
  {
  }

  /** The event service touches the stamps and pending entries of the tracker it is called for only. */
  lemma AcceptFrame(cfg: Settings, st: EventState, ev: Evidence, d: Decision, rowStored: bool, t: nat)
    ensures var step := AcceptDecision(cfg, st, ev.camera, ev.run, ev.generation, ev, d, rowStored);
            && (t != ev.tracker ==>
                  && Revision(step.state, ev.run, t) == Revision(st, ev.run, t)
                  && ((ev.run, t) in step.state.pending <==> (ev.run, t) in st.pending)
                  && ((ev.run, t) in st.pending ==> step.state.pending[(ev.run, t)] == st.pending[(ev.run, t)]))
            && (d.transition == Stay && d.winner.None? ==>
                  (ev.run, ev.tracker) in step.state.pending && step.state.pending[(ev.run, ev.tracker)].1 == d)
            && (d.transition == ToUnknown ==> (ev.run, ev.tracker) !in step.state.pending)
            && ((d.transition == Stay && d.winner.Some?)
                || (d.transition == ToKnown && d.winner.Some? && d.reference.Some?) ==>
                  step.state.pending == st.pending)
  {
  }

  lemma NumberedIncreasing(list: seq<Assignment>, tracker: nat, generation: nat, revision: nat)
    requires Numbered(list, tracker, generation, revision)
    ensures forall i, j :: 0 <= i < j < |list| ==> list[i].revision < list[j].revision
  {
  }

  lemma SlotBelow(cfg: Config, v: View)
    requires Ordered(cfg, v) && v.slot.Some?
    ensures v.slot.value.revision <= v.revision
  {
    assert InFlight(v)[|v.wire|] == v.slot.value;
  }

  lemma ToKnownHasReference(t: TrackIdentity, x: Evaluation)
    ensures var d := ResolveTrack(t, x).decision; d.transition == ToKnown ==> d.winner.Some? && d.reference.Some?
  {
  }

  lemma QueueAfter(cfg: Config, s: System, list: seq<Assignment>, u: nat, t: nat)
    requires cfg.capacity >= 1 && WellFormed(s.queue, cfg.capacity)
    requires Ordered(cfg, Project(cfg, s, u))
    requires Numbered(list, u, cfg.generation, Revision(s.events, cfg.run, u))
    ensures var queue := PutAll(s.queue, list, cfg.capacity);
            && WellFormed(queue, cfg.capacity)
            && Slot(queue, u) == (if list == [] then Slot(s.queue, u) else Some(list[|list| - 1]))
            && (t != u ==> Slot(queue, t) in {Slot(s.queue, t), None})
  {
    NumberedIncreasing(list, u, cfg.generation, Revision(s.events, cfg.run, u));
    if Slot(s.queue, u).Some? { SlotBelow(cfg, Project(cfg, s, u)); }
    PutAllFresh(s.queue, list, cfg.capacity, u, t);
  }

  /** Everything an event-service call does to the queue, the stamps and the pending entries. */
  ghost predicate Effect(cfg: Config, s: System, s': System, u: nat, step: Step, list: seq<Assignment>)
    requires cfg.capacity >= 1
  {
    && s'.events == step.state && s'.stops == s.stops && s'.wire == s.wire && s'.native == s.native
    && s'.queue == PutAll(s.queue, list, cfg.capacity)
    && (forall t :: t != u ==>
          && Track(s', t) == Track(s, t)
          && Revision(step.state, cfg.run, t) == Revision(s.events, cfg.run, t)
          && ((cfg.run, t) in step.state.pending <==> (cfg.run, t) in s.events.pending)
          && ((cfg.run, t) in s.events.pending ==>
                step.state.pending[(cfg.run, t)] == s.events.pending[(cfg.run, t)]))
  }

  lemma OtherView(cfg: Config, s: System, s': System, u: nat, step: Step, list: seq<Assignment>, t: nat)
    requires cfg.capacity >= 1 && WellFormed(s.queue, cfg.capacity)
    requires Ordered(cfg, Project(cfg, s, u))
    requires Numbered(list, u, cfg.generation, Revision(s.events, cfg.run, u))
    requires Effect(cfg, s, s', u, step, list) && t != u
    ensures Project(cfg, s', t) == Project(cfg, s, t) || Loses(Project(cfg, s, t), Project(cfg, s', t))
  {
    QueueAfter(cfg, s, list, u, t);
  }

  lemma EvidenceEffect(cfg: Config, s: System, a: Action)
    requires a.OnEvidence? && cfg.capacity >= 1
    ensures var step := EvidenceEvents(cfg, s, a);
            && Effect(cfg, s, Next(cfg, s, a), a.tracker, step, Emitted(step))
            && Numbered(Emitted(step), a.tracker, cfg.generation, Revision(s.events, cfg.run, a.tracker))
  {
    var d, ev := Resolved(s, a).decision, EventOf(cfg, a);
    ToKnownHasReference(Track(s, a.tracker), a.x);
    AcceptEmits(cfg.settings, s.events, ev, d, a.rowStored);
    forall t | t != a.tracker {
      AcceptFrame(cfg.settings, s.events, ev, d, a.rowStored, t);
    }
  }

  /** The decision of an evidence event and what the event service made of it. */
  lemma EvidenceDecides(cfg: Config, s: System, a: Action)
    requires a.OnEvidence? && cfg.capacity >= 1 && WellFormed(s.queue, cfg.capacity)
    requires Ordered(cfg, Project(cfg, s, a.tracker))
    ensures WellFormed(Next(cfg, s, a).queue, cfg.capacity)
    ensures Decides(cfg, Project(cfg, s, a.tracker), Project(cfg, Next(cfg, s, a), a.tracker), Resolved(s, a),
                    Emitted(EvidenceEvents(cfg, s, a)) != [])
  {
    var d, ev := Resolved(s, a).decision, EventOf(cfg, a);
    ToKnownHasReference(Track(s, a.tracker), a.x);
    AcceptEmits(cfg.settings, s.events, ev, d, a.rowStored);
    AcceptFrame(cfg.settings, s.events, ev, d, a.rowStored, a.tracker);
    EvidenceEffect(cfg, s, a);
    QueueAfter(cfg, s, Emitted(EvidenceEvents(cfg, s, a)), a.tracker, a.tracker);
  }

  lemma EvidenceProjects(cfg: Config, s: System, a: Action, t: nat)
    requires a.OnEvidence? && cfg.capacity >= 1 && WellFormed(s.queue, cfg.capacity)
    requires Ordered(cfg, Project(cfg, s, a.tracker))
    ensures WellFormed(Next(cfg, s, a).queue, cfg.capacity)
    ensures var v, v' := Project(cfg, s, t), Project(cfg, Next(cfg, s, a), t);
            if t == a.tracker then Decides(cfg, v, v', Resolved(s, a), Emitted(EvidenceEvents(cfg, s, a)) != [])
            else v' == v || Loses(v, v')
  {
    EvidenceDecides(cfg, s, a);
    if t != a.tracker {
      EvidenceEffect(cfg, s, a);
      var step := EvidenceEvents(cfg, s, a);
      OtherView(cfg, s, Next(cfg, s, a), a.tracker, step, Emitted(step), t);
    }
  }

  lemma ExpireEffect(cfg: Settings, st: EventState, event: Evidence, rowStored: bool, t: nat)
    requires forall key :: key in st.pending ==>
               st.pending[key].0.run == key.0 && st.pending[key].0.tracker == key.1
               && st.pending[key].0.generation == event.generation
    ensures var step := ExpireTrack(cfg, st, event.camera, event.run, event.generation, event, rowStored);
            var list, old', key := Emitted(step), Revision(st, event.run, event.tracker), (event.run, event.tracker);
            && Numbered(list, event.tracker, event.generation, old')
            && Revision(step.state, event.run, event.tracker) == old' + |list|
            && |list| <= 1 && step.reply != StaleContext
            && (list != [] ==> key in st.pending && Says(list[0], old' + 1, st.pending[key].1.epoch, SayUnknown, None))
            && step.state.pending == st.pending - {key}
            && (t != event.tracker ==> Revision(step.state, event.run, t) == Revision(st, event.run, t))
  {
  }

  /** Pending entries are filed under their own track. */
  ghost predicate Filed(cfg: Config, pending: map<TrackRef, (Evidence, Decision)>) {
    forall key :: key in pending ==>
      pending[key].0.run == key.0 && pending[key].0.tracker == key.1 && pending[key].0.generation == cfg.generation
  }

  lemma AcceptPending(cfg: Settings, st: EventState, ev: Evidence, d: Decision, rowStored: bool)
    ensures var key := (ev.run, ev.tracker);
            AcceptDecision(cfg, st, ev.camera, ev.run, ev.generation, ev, d, rowStored).state.pending
              in {st.pending, st.pending[key := (ev, d)], st.pending - {key}}
  {
  }

  lemma FiledUpdate(cfg: Config, pending: map<TrackRef, (Evidence, Decision)>, ev: Evidence, d: Decision)
    requires Filed(cfg, pending) && ev.generation == cfg.generation
    ensures Filed(cfg, pending[(ev.run, ev.tracker) := (ev, d)]) && Filed(cfg, pending - {(ev.run, ev.tracker)})
  {
  }

  lemma FiledStep(cfg: Config, s: System, a: Action)
    requires cfg.capacity >= 1 && Filed(cfg, s.events.pending)
    ensures Filed(cfg, Next(cfg, s, a).events.pending)
  {
    if a.OnExpired? {
      ExpireEffect(cfg.settings, s.events, EventOf(cfg, a), a.rowStored, a.tracker);
    } else if a.OnEvidence? {
      AcceptPending(cfg.settings, s.events, EventOf(cfg, a), Resolved(s, a).decision, a.rowStored);
      FiledUpdate(cfg, s.events.pending, EventOf(cfg, a), Resolved(s, a).decision);
    }
  }

  lemma ExpiryEffect(cfg: Config, s: System, a: Action)
    requires a.OnExpired? && cfg.capacity >= 1 && Filed(cfg, s.events.pending)
    ensures var step := ExpiredEvents(cfg, s, a);
            && Effect(cfg, s, Next(cfg, s, a), a.tracker, step, Emitted(step))
            && Numbered(Emitted(step), a.tracker, cfg.generation, Revision(s.events, cfg.run, a.tracker))
  {
    forall t | t != a.tracker {
      ExpireEffect(cfg.settings, s.events, EventOf(cfg, a), a.rowStored, t);
    }
    ExpireEffect(cfg.settings, s.events, EventOf(cfg, a), a.rowStored, a.tracker);
  }

  lemma ExpiryProjects(cfg: Config, s: System, a: Action, t: nat)
    requires a.OnExpired? && cfg.capacity >= 1 && WellFormed(s.queue, cfg.capacity) && Filed(cfg, s.events.pending)
    requires Ordered(cfg, Project(cfg, s, a.tracker))
    ensures WellFormed(Next(cfg, s, a).queue, cfg.capacity)
    ensures var v, v' := Project(cfg, s, t), Project(cfg, Next(cfg, s, a), t);
            var step := ExpiredEvents(cfg, s, a);
            if t == a.tracker then Expires(cfg, v, v', step.reply.Commands?, Emitted(step) != [])
            else v' == v || Loses(v, v')
  {
    var step := ExpiredEvents(cfg, s, a);
    ExpiryEffect(cfg, s, a);
    QueueAfter(cfg, s, Emitted(step), a.tracker, a.tracker);
    if t == a.tracker {
      ExpireEffect(cfg.settings, s.events, EventOf(cfg, a), a.rowStored, t);
    } else {
      OtherView(cfg, s, Next(cfg, s, a), a.tracker, step, Emitted(step), t);
    }
  }

  /** Only stop commands wait in the priority lane. */
  ghost predicate StopsAreStops(s: System) {
    forall i :: 0 <= i < |s.stops| ==> s.stops[i].Stop?
  }

  lemma StopIsInvisible(wire: seq<Command>, c: Command, t: nat)
    requires c.Stop?
    ensures WireFor(wire + [c], t) == WireFor(wire, t)
  {
    WireForAppend(wire, c, t);
  }

  lemma SendStopProjects(cfg: Config, s: System, t: nat)
    requires cfg.capacity >= 1 && StopsAreStops(s) && s.stops != []
    ensures Next(cfg, s, Send).queue == s.queue && Project(cfg, Next(cfg, s, Send), t) == Project(cfg, s, t)
  {
    assert s.stops[0].Stop?;
    StopIsInvisible(s.wire, s.stops[0], t);
  }

  /** The oldest queued assignment moves from its tracker's slot to the end of that tracker's wire. */
  lemma SendEntry(queue: seq<Assignment>, wire: seq<Command>, t: nat)
    requires OnePerTracker(queue) && queue != []
    ensures Slot(queue, queue[0].tracker) == Some(queue[0])
    ensures if queue[0].tracker == t
            then Slot(queue[1..], t) == None && WireFor(wire + [Assign(queue[0])], t) == WireFor(wire, t) + [queue[0]]
            else Slot(queue[1..], t) == Slot(queue, t) && WireFor(wire + [Assign(queue[0])], t) == WireFor(wire, t)
  {
    TakeSlots(queue, t);
    WireForAppend(wire, Assign(queue[0]), t);
    assert WireFor(wire, t) + [] == WireFor(wire, t);
  }

  lemma SendAssignmentProjects(cfg: Config, s: System, t: nat)
    requires cfg.capacity >= 1 && OnePerTracker(s.queue) && s.stops == [] && s.queue != []
    ensures Next(cfg, s, Send).queue == s.queue[1..]
    ensures var v, v' := Project(cfg, s, t), Project(cfg, Next(cfg, s, Send), t); v' == v || Sends(v, v')
  {
    SendEntry(s.queue, s.wire, t);
  }

  lemma SendProjects(cfg: Config, s: System, t: nat)
    requires cfg.capacity >= 1 && WellFormed(s.queue, cfg.capacity) && StopsAreStops(s)
    ensures WellFormed(Next(cfg, s, Send).queue, cfg.capacity)
    ensures var v, v' := Project(cfg, s, t), Project(cfg, Next(cfg, s, Send), t); v' == v || Sends(v, v')
  {
    if s.stops != [] {
      SendStopProjects(cfg, s, t);
    } else if s.queue != [] {
      SendAssignmentProjects(cfg, s, t);
      TakeSlots(s.queue, t);
    }
  }

  /** A dispatch changes the context and the replica of its own tracker only, and there it applies. */
  lemma DispatchEffect(generation: nat, n: Native, a: Assignment, t: nat)
    requires a.tracker == t ==> a.generation == generation && a.revision > Get(n.context, t, 0)
    ensures var n' := DeliverAssignment(generation, n, a);
            && Get(n'.context, t, 0) == (if a.tracker == t then a.revision else Get(n.context, t, 0))
            && Get(n'.tracks, t, INITIAL)
               == (if a.tracker == t then Apply(Get(n.tracks, t, INITIAL), a) else Get(n.tracks, t, INITIAL))
  {
  }

  lemma DeliverProjects(cfg: Config, s: System, t: nat)
    requires cfg.capacity >= 1 && Ordered(cfg, Project(cfg, s, t))
    ensures Next(cfg, s, Deliver).queue == s.queue
    ensures var v, v' := Project(cfg, s, t), Project(cfg, Next(cfg, s, Deliver), t); v' == v || Delivers(v, v')
    ensures s.wire != [] && !s.native.stopped && s.wire[0].Assign? && s.wire[0].assignment.tracker == t ==>
              Delivers(Project(cfg, s, t), Project(cfg, Next(cfg, s, Deliver), t))
  {
    if s.wire != [] && !s.native.stopped {
      WireForHead(s.wire, t);
      if s.wire[0].Assign? {
        var v, a := Project(cfg, s, t), s.wire[0].assignment;
        if a.tracker == t {
          assert v.wire[0] == a == InFlight(v)[0];
          assert v.wire[1..] == WireFor(s.wire[1..], t);
        }
        DispatchEffect(cfg.generation, s.native, a, t);
      }
    }
  }

  // ----- stamps in order, in every run

  ghost predicate Sound(cfg: Config, s: System) {
    && WellFormed(s.queue, cfg.capacity) && Filed(cfg, s.events.pending) && StopsAreStops(s)
    && forall t :: Ordered(cfg, Project(cfg, s, t))
  }

  lemma DecidesOrdered(cfg: Config, v: View, v': View, r: Outcome, emits: bool)
    requires Ordered(cfg, v) && Decides(cfg, v, v', r, emits)
    ensures Ordered(cfg, v')
  {
    assert forall i :: 0 <= i < |v.wire| ==> InFlight(v)[i] == v.wire[i] == InFlight(v')[i];
  }

  lemma ExpiresOrdered(cfg: Config, v: View, v': View, done: bool, emits: bool)
    requires Ordered(cfg, v) && Expires(cfg, v, v', done, emits)
    ensures Ordered(cfg, v')
  {
    assert forall i :: 0 <= i < |v.wire| ==> InFlight(v)[i] == v.wire[i] == InFlight(v')[i];
  }

  lemma MovesOrdered(cfg: Config, v: View, v': View)
    requires Ordered(cfg, v)
    requires Moves(v, v')
    ensures Ordered(cfg, v')
  {
    var w, w' := InFlight(v), InFlight(v');
    if Loses(v, v') {
      assert forall i :: 0 <= i < |w'| ==> w'[i] == w[i];
    } else if Sends(v, v') {
      assert w' == w;
    } else if Delivers(v, v') {
      assert w' == w[1..] && w[0] == v.wire[0];
    }
  }

  ghost predicate Moves(v: View, v': View) {
    v' == v || Loses(v, v') || Sends(v, v') || Delivers(v, v')
  }

  /** Any action that is not addressed to `t` at most loses its queued entry, sends it or delivers one. */
  lemma OtherProjects(cfg: Config, s: System, a: Action, t: nat)
    requires cfg.capacity >= 1 && Sound(cfg, s)
    requires !((a.OnEvidence? || a.OnExpired?) && a.tracker == t)
    ensures WellFormed(Next(cfg, s, a).queue, cfg.capacity)
    ensures Moves(Project(cfg, s, t), Project(cfg, Next(cfg, s, a), t))
  {
    assert Ordered(cfg, Project(cfg, s, t));
    match a
    case OnEvidence(u, _, _, _, _, _) =>
      assert Ordered(cfg, Project(cfg, s, u));
      EvidenceProjects(cfg, s, a, t);
    case OnExpired(u, _, _, _, _) =>
      assert Ordered(cfg, Project(cfg, s, u));
      ExpiryProjects(cfg, s, a, t);
    case Send => SendProjects(cfg, s, t);
    case Deliver => DeliverProjects(cfg, s, t);
    case RequestStop(_, _) =>
    case Frame(_, _) =>
  }

  lemma NextOrdered(cfg: Config, s: System, a: Action, t: nat)
    requires cfg.capacity >= 1 && Sound(cfg, s)
    ensures WellFormed(Next(cfg, s, a).queue, cfg.capacity)
    ensures Ordered(cfg, Project(cfg, Next(cfg, s, a), t))
  {
    var v, v' := Project(cfg, s, t), Project(cfg, Next(cfg, s, a), t);
    assert Ordered(cfg, v);
    if a.OnEvidence? && a.tracker == t {
      EvidenceProjects(cfg, s, a, t);
      DecidesOrdered(cfg, v, v', Resolved(s, a), Emitted(EvidenceEvents(cfg, s, a)) != []);
    } else if a.OnExpired? && a.tracker == t {
      ExpiryProjects(cfg, s, a, t);
      var step := ExpiredEvents(cfg, s, a);
      ExpiresOrdered(cfg, v, v', step.reply.Commands?, Emitted(step) != []);
    } else {
      OtherProjects(cfg, s, a, t);
      MovesOrdered(cfg, v, v');
    }
  }

  lemma NextSound(cfg: Config, s: System, a: Action)
    requires cfg.capacity >= 1 && Sound(cfg, s)
    ensures Sound(cfg, Next(cfg, s, a))
  {
    FiledStep(cfg, s, a);
    forall t ensures Ordered(cfg, Project(cfg, Next(cfg, s, a), t)) {
      NextOrdered(cfg, s, a, t);
    }
    NextOrdered(cfg, s, a, 0);
  }

  lemma {:induction false} RunsAreSound(cfg: Config, run: seq<Action>)
    requires cfg.capacity >= 1
    ensures Sound(cfg, Exec(cfg, run))
  {
    if run == [] {
    } else {
      RunsAreSound(cfg, run[..|run| - 1]);
      NextSound(cfg, Exec(cfg, run[..|run| - 1]), run[|run| - 1]);
    }
  }
}

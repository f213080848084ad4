/**
  The live identity protocol as one state machine: identity service, event service, command
  queue, pipe and native process, for one run of one camera. A run is any sequence of actions;
  votes, reference lookups, database failures, queue pressure and scheduling are all arbitrary.
*/
module LiveSystem {
  import opened Common
  import opened LiveIdentity
  import opened LiveEvents
  import opened AssignmentQueues
  import opened NativeIdentity

  datatype Config = Config(camera: string, run: string, generation: nat, settings: Settings, capacity: nat)

  datatype Native = Native(context: map<nat, nat>, tracks: map<nat, NativeState>, osd: map<nat, Entry>, stopped: bool)

  datatype System = System(identities: map<nat, TrackIdentity>, events: EventState, stops: seq<Command>,
                           queue: seq<Assignment>, wire: seq<Command>, native: Native)

  const START := System(map[], EMPTY, [], [], [], Native(map[], map[], map[], false))

  datatype Action =
    | OnEvidence(tracker: nat, revision: nat, firstSeen: int, lastSeen: int, x: Evaluation, rowStored: bool)
    | OnExpired(tracker: nat, revision: nat, firstSeen: int, lastSeen: int, rowStored: bool)
    | RequestStop(reason: string, deadline: nat)
    | Send
    | Deliver
    | Frame(tracker: nat, score: real)

  function Track(s: System, t: nat): TrackIdentity { Get(s.identities, t, FRESH) }

  function NativeOf(s: System, t: nat): NativeState { Get(s.native.tracks, t, INITIAL) }

  function EventOf(cfg: Config, a: Action): Evidence
    requires a.OnEvidence? || a.OnExpired?
  {
    Evidence(cfg.camera, cfg.run, cfg.generation, a.tracker, a.revision, a.firstSeen, a.lastSeen)
  }

  function PutAll(queue: seq<Assignment>, list: seq<Assignment>, capacity: nat): seq<Assignment>
    requires capacity >= 1
  {
    if list == [] then queue else Put(PutAll(queue, list[..|list| - 1], capacity), list[|list| - 1], capacity)
  }

  function Emitted(step: Step): seq<Assignment> {
    if step.reply.Commands? then step.reply.list else []
  }

  /** What the two services do with one evidence event. */
  function Resolved(s: System, a: Action): Outcome
    requires a.OnEvidence?
  {
    ResolveTrack(Track(s, a.tracker), a.x)
  }

  function EvidenceEvents(cfg: Config, s: System, a: Action): Step
    requires a.OnEvidence?
  {
    AcceptDecision(cfg.settings, s.events, cfg.camera, cfg.run, cfg.generation, EventOf(cfg, a),
                   Resolved(s, a).decision, a.rowStored)
  }

  function ExpiredEvents(cfg: Config, s: System, a: Action): Step
    requires a.OnExpired?
  {
    ExpireTrack(cfg.settings, s.events, cfg.camera, cfg.run, cfg.generation, EventOf(cfg, a), a.rowStored)
  }

  /** The worker's dispatch of one assignment: decode context, hop, track replica, then display replica. */
  function DeliverAssignment(generation: nat, n: Native, a: Assignment): Native {
    if a.generation != generation || a.revision <= Get(n.context, a.tracker, 0) then n
    else
      var m := n.(context := n.context[a.tracker := a.revision]);
      var id := Get(m.tracks, a.tracker, INITIAL);
      if !Accepts(id, a) then m.(tracks := m.tracks[a.tracker := id])
      else m.(tracks := m.tracks[a.tracker := Apply(id, a)],
              osd := m.osd[a.tracker := OsdApply(Get(m.osd, a.tracker, BLANK), a)])
  }

  /** A raised error aborts the rest of the handler: nothing is queued and the track is not expired. */
  function Next(cfg: Config, s: System, a: Action): System
    requires cfg.capacity >= 1
  {
    match a
    case OnEvidence(t, _, _, _, _, _) =>
      var step := EvidenceEvents(cfg, s, a);
      s.(identities := s.identities[t := Resolved(s, a).track], events := step.state,
         queue := PutAll(s.queue, Emitted(step), cfg.capacity))
    case OnExpired(t, _, _, _, _) =>
      var step := ExpiredEvents(cfg, s, a);
      s.(identities := if step.reply.Commands? then s.identities - {t} else s.identities, events := step.state,
         queue := PutAll(s.queue, Emitted(step), cfg.capacity))
    case RequestStop(reason, deadline) => s.(stops := s.stops + [Stop(reason, deadline)])
    case Send =>
      if s.stops != [] then s.(stops := s.stops[1..], wire := s.wire + [s.stops[0]])
      else if s.queue != [] then s.(queue := s.queue[1..], wire := s.wire + [Assign(s.queue[0])])
      else s
    case Deliver =>
      if s.wire == [] || s.native.stopped then s
      else if s.wire[0].Stop? then s.(wire := s.wire[1..], native := s.native.(stopped := true))
      else s.(wire := s.wire[1..], native := DeliverAssignment(cfg.generation, s.native, s.wire[0].assignment))
    case Frame(t, score) =>
      if t in s.native.osd && s.native.osd[t].reference.Some? then
        s.(native := s.native.(osd := s.native.osd[t := OsdObserve(s.native.osd[t], score)]))
      else s
  }

  function Exec(cfg: Config, run: seq<Action>): System
    requires cfg.capacity >= 1
  {
    if run == [] then START else Next(cfg, Exec(cfg, run[..|run| - 1]), run[|run| - 1])
  }

  // ----- the system as seen by one tracker

  datatype View = View(track: TrackIdentity, pend: Option<Decision>, revision: nat, slot: Option<Assignment>,
                       wire: seq<Assignment>, context: nat, native: NativeState)

  /** The assignments for `t` on the pipe, oldest first. */
  function WireFor(wire: seq<Command>, t: nat): seq<Assignment> {
    if wire == [] then []
    else
      var c := wire[|wire| - 1];
      WireFor(wire[..|wire| - 1], t) + if c.Assign? && c.assignment.tracker == t then [c.assignment] else []
  }

  function Project(cfg: Config, s: System, t: nat): View {
    View(Track(s, t),
         if (cfg.run, t) in s.events.pending then Some(s.events.pending[(cfg.run, t)].1) else None,
         Revision(s.events, cfg.run, t), Slot(s.queue, t), WireFor(s.wire, t), Get(s.native.context, t, 0),
         NativeOf(s, t))
  }

  lemma WireForAppend(wire: seq<Command>, c: Command, t: nat)
    ensures WireFor(wire + [c], t)
         == WireFor(wire, t) + if c.Assign? && c.assignment.tracker == t then [c.assignment] else []
  {
    assert (wire + [c])[..|wire|] == wire;
  }

  lemma {:induction false} WireForHead(wire: seq<Command>, t: nat)
    requires wire != []
    ensures WireFor(wire, t)
         == (if wire[0].Assign? && wire[0].assignment.tracker == t then [wire[0].assignment] else [])
            + WireFor(wire[1..], t)
  {
    if |wire| > 1 {
      var init := wire[..|wire| - 1];
      WireForHead(init, t);
      assert wire[1..][..|wire| - 2] == init[1..];
    }
  }

  /** In flight towards native, in the order native would see it. */
  function InFlight(v: View): seq<Assignment> {
    v.wire + if v.slot.Some? then [v.slot.value] else []
  }

  ghost predicate Increasing(low: nat, w: seq<Assignment>, high: nat) {
    && low <= high
    && (forall i :: 0 <= i < |w| ==> low < w[i].revision <= high)
    && (forall i, j :: 0 <= i < j < |w| ==> w[i].revision < w[j].revision)
  }

  /** Nothing stale is in flight. */
  ghost predicate Ordered(cfg: Config, v: View) {
    && v.native.revision <= v.context
    && Increasing(v.context, InFlight(v), v.revision)
    && (forall i :: 0 <= i < |InFlight(v)| ==> InFlight(v)[i].generation == cfg.generation)
  }

  // ----- what one action can do to one tracker's view

  predicate Says(a: Assignment, revision: nat, epoch: nat, word: StateWord, face: Option<FaceId>) {
    a.revision == revision && a.epoch == epoch && a.word == word && a.face == face
  }

  /** The outcome `r` of an evaluation, stamped and queued when `emits`. */
  ghost predicate Decides(cfg: Config, v: View, v': View, r: Outcome, emits: bool) {
    var d := r.decision;
    && v'.track == r.track && v'.wire == v.wire && v'.context == v.context && v'.native == v.native
    && match d.transition
       case Stay =>
         && !emits && v'.slot == v.slot && v'.revision == v.revision
         && v'.pend == if d.winner.None? then Some(d) else v.pend
       case ToUnknown =>
         && v'.pend == None
         && (!emits ==> v'.slot == v.slot && v'.revision == v.revision)
         && (emits ==> v'.revision == v.revision + 1 && v'.slot.Some? && v'.slot.value.generation == cfg.generation
                       && Says(v'.slot.value, v'.revision, d.epoch, SayUnknown, None))
       case ToKnown =>
         && d.winner.Some? && v'.pend == v.pend
         && (!emits ==> v'.slot == v.slot && v'.revision == v.revision)
         && (emits ==> v'.revision == v.revision + (if d.reset then 2 else 1)
                       && v'.slot.Some? && v'.slot.value.generation == cfg.generation
                       && Says(v'.slot.value, v'.revision, d.epoch, SayKnown, Some(d.winner.value.face)))
  }

  ghost predicate Expires(cfg: Config, v: View, v': View, done: bool, emits: bool) {
    && v'.track == (if done then FRESH else v.track)
    && v'.wire == v.wire && v'.context == v.context && v'.native == v.native && v'.pend == None
    && (emits ==> done)
    && (!emits ==> v'.slot == v.slot && v'.revision == v.revision)
    && (emits ==> v.pend.Some? && v'.revision == v.revision + 1 && v'.slot.Some?
                  && v'.slot.value.generation == cfg.generation
                  && Says(v'.slot.value, v'.revision, v.pend.value.epoch, SayUnknown, None))
  }

  ghost predicate Sends(v: View, v': View) {
    v.slot.Some? && v' == v.(slot := None, wire := v.wire + [v.slot.value])
  }

  /** Delivery of an assignment that neither staleness check refuses. */
  ghost predicate Delivers(v: View, v': View) {
    && v.wire != []
    && v' == v.(wire := v.wire[1..], context := v.wire[0].revision, native := Apply(v.native, v.wire[0]))
  }

  ghost predicate Loses(v: View, v': View) {
    v.slot.Some? && v' == v.(slot := None)
  }

  lemma PutFresh(items: seq<Assignment>, a: Assignment, capacity: nat, t: nat)
    requires capacity >= 1 && WellFormed(items, capacity)
    requires Slot(items, a.tracker).Some? ==> Slot(items, a.tracker).value.revision < a.revision
    ensures WellFormed(Put(items, a, capacity), capacity)
    ensures Slot(Put(items, a, capacity), a.tracker) == Some(a)
    ensures t != a.tracker ==> Slot(Put(items, a, capacity), t) in {Slot(items, t), None}
  {
    PutSlots(items, a, capacity, t);
    PutSlots(items, a, capacity, a.tracker);
  }

  /** Fresh stamps for one tracker: the last one stays in the queue, and only eviction touches others. */
  lemma {:induction false} PutAllFresh(items: seq<Assignment>, list: seq<Assignment>, capacity: nat, u: nat, t: nat)
    requires capacity >= 1 && WellFormed(items, capacity)
    requires forall i :: 0 <= i < |list| ==> list[i].tracker == u
    requires forall i, j :: 0 <= i < j < |list| ==> list[i].revision < list[j].revision
    requires Slot(items, u).Some? ==> forall i :: 0 <= i < |list| ==> Slot(items, u).value.revision < list[i].revision
    ensures WellFormed(PutAll(items, list, capacity), capacity)
    ensures Slot(PutAll(items, list, capacity), u) == if list == [] then Slot(items, u) else Some(list[|list| - 1])
    ensures t != u ==> Slot(PutAll(items, list, capacity), t) in {Slot(items, t), None}
  {
    if list == [] {
    } else {
      var init := list[..|list| - 1];
      PutAllFresh(items, init, capacity, u, t);
      PutFresh(PutAll(items, init, capacity), list[|list| - 1], capacity, t);
    }
  }
}

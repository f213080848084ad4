/**
  The event service of the live pipeline: it persists known/unknown events under a per-face
  cooldown and stamps the identity assignments that go to the native process. Whether the
  database accepts a row is an input of each call.
*/
module LiveEvents {
  import opened Common
  import opened LiveIdentity

  /** `identity_state` on the wire is a string; anything but the two legal words is `Illegal`. */
  datatype StateWord = SayKnown | SayUnknown | Illegal

  datatype Assignment = Assignment(generation: nat, tracker: nat, revision: nat, epoch: nat, word: StateWord,
                                   name: Option<string>, face: Option<FaceId>, score: Option<real>,
                                   threshold: Option<real>, reference: Option<Embedding>, decisionSequence: nat)

  datatype Evidence = Evidence(camera: string, run: string, generation: nat, tracker: nat, revision: nat,
                               firstSeen: int, lastSeen: int)

  datatype Settings = Settings(cooldown: int, dwell: int, threshold: real)

  type TrackRef = (string, nat)
  type FaceRef = (string, FaceId)

  datatype EventState = EventState(revisions: map<TrackRef, nat>, pending: map<TrackRef, (Evidence, Decision)>,
                                   cooldowns: map<FaceRef, int>, suppressed: nat)

  const EMPTY := EventState(map[], map[], map[], 0)

  datatype StoredEvent = StoredEvent(known: bool, camera: string, run: string, tracker: nat, epoch: nat,
                                     face: Option<FaceId>, lastSeen: int)

  /** A call is refused for its context, raises because the row was not stored, or returns commands. */
  datatype Reply = StaleContext | Raised | Commands(list: seq<Assignment>)

  datatype Step = Step(state: EventState, reply: Reply, stored: seq<StoredEvent>)

  function Stored(known: bool, ev: Evidence, d: Decision): StoredEvent {
    StoredEvent(known, ev.camera, ev.run, ev.tracker, d.epoch,
                if d.winner.Some? then Some(d.winner.value.face) else None, ev.lastSeen)
  }

  function Revision(st: EventState, run: string, tracker: nat): nat {
    Get(st.revisions, (run, tracker), 0)
  }

  function Stamp(cfg: Settings, st: EventState, ev: Evidence, d: Decision, word: StateWord): Assignment {
    var m := if word == SayKnown then d.winner else None;
    Assignment(ev.generation, ev.tracker, Revision(st, ev.run, ev.tracker) + 1, d.epoch, word,
               if m.Some? then Some(m.value.name) else None,
               if m.Some? then Some(m.value.face) else None,
               if m.Some? then Some(m.value.score) else None,
               if m.Some? then Some(cfg.threshold) else None,
               if m.Some? then d.reference else None,
               ev.revision)
  }

  function Bump(st: EventState, ev: Evidence): EventState {
    st.(revisions := st.revisions[(ev.run, ev.tracker) := Revision(st, ev.run, ev.tracker) + 1])
  }

  predicate InContext(camera: string, run: string, generation: nat, ev: Evidence) {
    ev.camera == camera && ev.run == run && ev.generation == generation
  }

  function OnUnknown(cfg: Settings, st: EventState, ev: Evidence, d: Decision, rowStored: bool): Step {
    if rowStored then Step(Bump(st, ev), Commands([Stamp(cfg, st, ev, d, SayUnknown)]), [Stored(false, ev, d)])
    else Step(st, Raised, [])
  }

  predicate CoolingDown(cfg: Settings, st: EventState, ev: Evidence, face: FaceId) {
    (ev.camera, face) in st.cooldowns && ev.lastSeen - st.cooldowns[(ev.camera, face)] < cfg.cooldown
  }

  /** The commands of a known decision: an epoch that replaces another is opened by an "unknown". */
  function KnownCommands(cfg: Settings, st: EventState, ev: Evidence, d: Decision): (EventState, seq<Assignment>) {
    if d.reset then
      var first := Bump(st, ev);
      (Bump(first, ev), [Stamp(cfg, st, ev, d, SayUnknown), Stamp(cfg, first, ev, d, SayKnown)])
    else
      (Bump(st, ev), [Stamp(cfg, st, ev, d, SayKnown)])
  }

  function OnKnown(cfg: Settings, st: EventState, ev: Evidence, d: Decision, rowStored: bool): Step
    requires d.winner.Some?
  {
    var face := d.winner.value.face;
    if CoolingDown(cfg, st, ev, face) then
      var (next, list) := KnownCommands(cfg, st.(suppressed := st.suppressed + 1), ev, d);
      Step(next, Commands(list), [])
    else if rowStored then
      var (next, list) := KnownCommands(cfg, st.(cooldowns := st.cooldowns[(ev.camera, face) := ev.lastSeen]), ev, d);
      Step(next, Commands(list), [Stored(true, ev, d)])
    else
      Step(st, Raised, [])
  }

  function AcceptDecision(cfg: Settings, st: EventState, camera: string, run: string, generation: nat,
                          ev: Evidence, d: Decision, rowStored: bool): Step
  {
    if !InContext(camera, run, generation, ev) then Step(st, StaleContext, [])
    else if d.transition == Stay then
      Step(if d.winner.None? then st.(pending := st.pending[(run, ev.tracker) := (ev, d)]) else st, Commands([]), [])
    else if d.transition == ToUnknown then
      OnUnknown(cfg, st.(pending := st.pending - {(run, ev.tracker)}), ev, d, rowStored)
    else if d.winner.None? || d.reference.None? then
      Step(st.(pending := st.pending[(run, ev.tracker) := (ev, d)]), Commands([]), [])
    else OnKnown(cfg, st, ev, d, rowStored)
  }

  function ExpireTrack(cfg: Settings, st: EventState, camera: string, run: string, generation: nat,
                       event: Evidence, rowStored: bool): Step
  {
    var key := (run, event.tracker);
    if !InContext(camera, run, generation, event) then Step(st, StaleContext, [])
    else if key !in st.pending then Step(st, Commands([]), [])
    else
      var (ev, d) := st.pending[key];
      var popped := st.(pending := st.pending - {key});
      if event.lastSeen - event.firstSeen < cfg.dwell then Step(popped, Commands([]), [])
      else OnUnknown(cfg, popped, ev, d, rowStored)
  }

  class LiveEventService {
    const settings: Settings
    var revisions: map<TrackRef, nat>
    var pending: map<TrackRef, (Evidence, Decision)>
    var cooldowns: map<FaceRef, int>
    var suppressed: nat

    ghost function State(): EventState
      reads this
    {
      EventState(revisions, pending, cooldowns, suppressed)
    }

    constructor (settings: Settings)
      ensures State() == EMPTY && this.settings == settings
    {
      this.settings := settings;
      revisions, pending, cooldowns, suppressed := map[], map[], map[], 0;
    }

    method MakeAssignment(ev: Evidence, d: Decision, word: StateWord) returns (a: Assignment)
      modifies this`revisions
      ensures State() == Bump(old(State()), ev)
      ensures a == Stamp(settings, old(State()), ev, d, word)
    {
      var key := (ev.run, ev.tracker);
      var revision := Get(revisions, key, 0) + 1;
      revisions := revisions[key := revision];
      var m := if word == SayKnown then d.winner else None;
      a := Assignment(ev.generation, ev.tracker, revision, d.epoch, word,
                      if m.Some? then Some(m.value.name) else None,
                      if m.Some? then Some(m.value.face) else None,
                      if m.Some? then Some(m.value.score) else None,
                      if m.Some? then Some(settings.threshold) else None,
                      if m.Some? then d.reference else None,
                      ev.revision);
    }

    method Accept(camera: string, run: string, generation: nat, ev: Evidence, d: Decision, rowStored: bool)
      returns (reply: Reply, stored: seq<StoredEvent>)
      modifies this
      ensures Step(State(), reply, stored)
           == AcceptDecision(settings, old(State()), camera, run, generation, ev, d, rowStored)
    {
      stored := [];
      if ev.camera != camera || ev.run != run || ev.generation != generation {
        return StaleContext, stored;
      }
      var key := (run, ev.tracker);
      if d.transition == Stay {
        if d.winner.None? {
          pending := pending[key := (ev, d)];
        }
        return Commands([]), stored;
      }
      if d.transition == ToUnknown {
        pending := pending - {key};
        if !rowStored {
          return Raised, stored;
        }
        stored := [Stored(false, ev, d)];
        var a := MakeAssignment(ev, d, SayUnknown);
        return Commands([a]), stored;
      }
      if d.winner.None? || d.reference.None? {
        pending := pending[key := (ev, d)];
        return Commands([]), stored;
      }
      var coolKey := (camera, d.winner.value.face);
      if coolKey in cooldowns && ev.lastSeen - cooldowns[coolKey] < settings.cooldown {
        suppressed := suppressed + 1;
      } else {
        if !rowStored {
          return Raised, stored;
        }
        stored := [Stored(true, ev, d)];
        cooldowns := cooldowns[coolKey := ev.lastSeen];
      }
      var commands := [];
      if d.reset {
        var a := MakeAssignment(ev, d, SayUnknown);
        commands := [a];
      }
      var known := MakeAssignment(ev, d, SayKnown);
      assert d.reset ==> commands + [known] == [commands[0], known];
      assert !d.reset ==> commands + [known] == [known];
      reply := Commands(commands + [known]);
    }

    method Expire(camera: string, run: string, generation: nat, event: Evidence, rowStored: bool)
      returns (reply: Reply, stored: seq<StoredEvent>)
      modifies this
      ensures Step(State(), reply, stored)
           == ExpireTrack(settings, old(State()), camera, run, generation, event, rowStored)
    {
      stored := [];
      if event.camera != camera || event.run != run || event.generation != generation {
        return StaleContext, stored;
      }
      var key := (run, event.tracker);
      if key !in pending {
        return Commands([]), stored;
      }
      var (ev, d) := pending[key];
      pending := pending - {key};
      if event.lastSeen - event.firstSeen < settings.dwell {
        return Commands([]), stored;
      }
      if !rowStored {
        return Raised, stored;
      }
      stored := [Stored(false, ev, d)];
      var a := MakeAssignment(ev, d, SayUnknown);
      reply := Commands([a]);
    }
  }

  // ----- the cooldown over whole call sequences

  datatype Call =
    | AcceptCall(camera: string, run: string, generation: nat, ev: Evidence, d: Decision, rowStored: bool)
    | ExpireCall(camera: string, run: string, generation: nat, ev: Evidence, rowStored: bool)

  function Perform(cfg: Settings, st: EventState, c: Call): Step {
    match c
    case AcceptCall(camera, run, generation, ev, d, rowStored) =>
      AcceptDecision(cfg, st, camera, run, generation, ev, d, rowStored)
    case ExpireCall(camera, run, generation, ev, rowStored) =>
      ExpireTrack(cfg, st, camera, run, generation, ev, rowStored)
  }

  function StateAfter(cfg: Settings, calls: seq<Call>): EventState {
    if calls == [] then EMPTY
    else Perform(cfg, StateAfter(cfg, calls[..|calls| - 1]), calls[|calls| - 1]).state
  }

  /** Every row the calls stored, in order. */
  function Log(cfg: Settings, calls: seq<Call>): seq<StoredEvent> {
    if calls == [] then []
    else Log(cfg, calls[..|calls| - 1])
         + Perform(cfg, StateAfter(cfg, calls[..|calls| - 1]), calls[|calls| - 1]).stored
  }

  predicate KnownOf(e: StoredEvent, camera: string, face: FaceId) {
    e.known && e.camera == camera && e.face == Some(face)
  }

  /** The cooldown map holds the newest stored time of each face, and stored times are spaced. */
  ghost predicate Spaced(cfg: Settings, st: EventState, log: seq<StoredEvent>, camera: string, face: FaceId) {
    && (forall i :: 0 <= i < |log| && KnownOf(log[i], camera, face) ==>
          (camera, face) in st.cooldowns && log[i].lastSeen <= st.cooldowns[(camera, face)])
    && (forall i, j :: 0 <= i < j < |log| && KnownOf(log[i], camera, face) && KnownOf(log[j], camera, face) ==>
          log[j].lastSeen - log[i].lastSeen >= cfg.cooldown)
  }

  /** What a step that stores at most one row does to the cooldown of one face. */
  ghost predicate Cools(cfg: Settings, st: EventState, step: Step, camera: string, face: FaceId) {
    && |step.stored| <= 1
    && if step.stored != [] && KnownOf(step.stored[0], camera, face)
       then step.state.cooldowns == st.cooldowns[(camera, face) := step.stored[0].lastSeen]
            && ((camera, face) in st.cooldowns ==>
                  step.stored[0].lastSeen - st.cooldowns[(camera, face)] >= cfg.cooldown)
       else && ((camera, face) in step.state.cooldowns <==> (camera, face) in st.cooldowns)
            && ((camera, face) in st.cooldowns ==>
                  step.state.cooldowns[(camera, face)] == st.cooldowns[(camera, face)])
  }

  lemma PerformCools(cfg: Settings, st: EventState, c: Call, camera: string, face: FaceId)
    ensures Cools(cfg, st, Perform(cfg, st, c), camera, face)
  {
  }

  lemma SpacedStep(cfg: Settings, st: EventState, step: Step, log: seq<StoredEvent>, camera: string, face: FaceId)
    requires cfg.cooldown >= 0 && Spaced(cfg, st, log, camera, face) && Cools(cfg, st, step, camera, face)
    ensures Spaced(cfg, step.state, log + step.stored, camera, face)
  {
    if step.stored == [] { assert log + step.stored == log; }
  }

  /**
    Stored known events of one face at one camera lie at least the cooldown apart, in order, for
    every sequence of calls: decisions, evidence times (which may go backwards) and database
    failures are all arbitrary.
  */
  lemma {:induction false} KnownEventsAreSpaced(cfg: Settings, calls: seq<Call>, camera: string, face: FaceId)
    requires cfg.cooldown >= 0
    ensures Spaced(cfg, StateAfter(cfg, calls), Log(cfg, calls), camera, face)
  {
    if calls == [] {
    } else {
      var init := calls[..|calls| - 1];
      KnownEventsAreSpaced(cfg, init, camera, face);
      var st := StateAfter(cfg, init);
      var step := Perform(cfg, st, calls[|calls| - 1]);
      PerformCools(cfg, st, calls[|calls| - 1], camera, face);
      SpacedStep(cfg, st, step, Log(cfg, init), camera, face);
    }
  }

  // ----- exactly which known events are stored

  /** A known decision with a face and a reference, in the caller's context. */
  predicate IsKnownCall(c: Call) {
    && c.AcceptCall? && c.ev.camera == c.camera && c.ev.run == c.run && c.ev.generation == c.generation
    && c.d.transition == ToKnown && c.d.winner.Some? && c.d.reference.Some?
  }

  /** Some stored known row of the face at the camera lies less than the cooldown before `time`. */
  ghost predicate Recent(cfg: Settings, log: seq<StoredEvent>, camera: string, face: FaceId, time: int) {
    exists i :: 0 <= i < |log| && KnownOf(log[i], camera, face) && time - log[i].lastSeen < cfg.cooldown
  }

  /** The cooldown map has an entry for a face exactly when a row was stored, and it is the time of one. */
  ghost predicate Logged(st: EventState, log: seq<StoredEvent>, camera: string, face: FaceId) {
    && ((camera, face) in st.cooldowns <==> exists i :: 0 <= i < |log| && KnownOf(log[i], camera, face))
    && ((camera, face) in st.cooldowns ==>
          exists i :: 0 <= i < |log| && KnownOf(log[i], camera, face)
                      && log[i].lastSeen == st.cooldowns[(camera, face)])
  }

  lemma LoggedStep(cfg: Settings, st: EventState, step: Step, log: seq<StoredEvent>, camera: string, face: FaceId)
    requires Logged(st, log, camera, face) && Cools(cfg, st, step, camera, face)
    ensures Logged(step.state, log + step.stored, camera, face)
  {
    var all := log + step.stored;
    assert forall i :: 0 <= i < |log| ==> all[i] == log[i];
    if step.stored != [] { assert all[|log|] == step.stored[0]; }
    if (camera, face) in st.cooldowns {
      var i :| 0 <= i < |log| && KnownOf(log[i], camera, face) && log[i].lastSeen == st.cooldowns[(camera, face)];
      assert KnownOf(all[i], camera, face);
    }
  }

  lemma {:induction false} CooldownsAreLogged(cfg: Settings, calls: seq<Call>, camera: string, face: FaceId)
    ensures Logged(StateAfter(cfg, calls), Log(cfg, calls), camera, face)
  {
    if calls == [] {
    } else {
      var init := calls[..|calls| - 1];
      var st := StateAfter(cfg, init);
      CooldownsAreLogged(cfg, init, camera, face);
      PerformCools(cfg, st, calls[|calls| - 1], camera, face);
      LoggedStep(cfg, st, Perform(cfg, st, calls[|calls| - 1]), Log(cfg, init), camera, face);
    }
  }

  /** Since stored times only rise, the map's entry decides for the whole log. */
  lemma CoolingMeansRecent(cfg: Settings, st: EventState, log: seq<StoredEvent>, ev: Evidence, face: FaceId)
    requires Logged(st, log, ev.camera, face) && Spaced(cfg, st, log, ev.camera, face)
    ensures CoolingDown(cfg, st, ev, face) <==> Recent(cfg, log, ev.camera, face, ev.lastSeen)
  {
    if CoolingDown(cfg, st, ev, face) {
      var i :| 0 <= i < |log| && KnownOf(log[i], ev.camera, face)
               && log[i].lastSeen == st.cooldowns[(ev.camera, face)];
      assert KnownOf(log[i], ev.camera, face) && ev.lastSeen - log[i].lastSeen < cfg.cooldown;
    }
    if Recent(cfg, log, ev.camera, face, ev.lastSeen) {
      var i :| 0 <= i < |log| && KnownOf(log[i], ev.camera, face) && ev.lastSeen - log[i].lastSeen < cfg.cooldown;
    }
  }

  lemma KnownCallByCooling(cfg: Settings, st: EventState, c: Call)
    requires IsKnownCall(c)
    ensures var step, face := Perform(cfg, st, c), c.d.winner.value.face;
            && (CoolingDown(cfg, st, c.ev, face) ==>
                  step.stored == [] && step.reply.Commands? && step.state.suppressed == st.suppressed + 1)
            && (!CoolingDown(cfg, st, c.ev, face) ==>
                  && step.state.suppressed == st.suppressed && (step.reply.Raised? <==> !c.rowStored)
                  && step.stored == if c.rowStored then [KnownRow(c)] else [])
  {
  }

  /** The row of a known decision. */
  function KnownRow(c: Call): StoredEvent
    requires IsKnownCall(c)
  {
    StoredEvent(true, c.camera, c.run, c.ev.tracker, c.d.epoch, Some(c.d.winner.value.face), c.ev.lastSeen)
  }

  /**
    After any calls, a known decision stores its row exactly when no stored known row of that face at that
    camera lies less than the cooldown before it; otherwise it is suppressed and counted. It raises exactly
    when it should store and the row is refused.
  */
  lemma KnownIsStoredExactlyOutsideCooldown(cfg: Settings, calls: seq<Call>, c: Call)
    requires cfg.cooldown >= 0 && IsKnownCall(c)
    ensures var st := StateAfter(cfg, calls);
            var step := Perform(cfg, st, c);
            var recent := Recent(cfg, Log(cfg, calls), c.camera, c.d.winner.value.face, c.ev.lastSeen);
            && step.stored == (if !recent && c.rowStored then [KnownRow(c)] else [])
            && (step.reply.Raised? <==> !recent && !c.rowStored)
            && step.state.suppressed == st.suppressed + if recent then 1 else 0
  {
    var st, face := StateAfter(cfg, calls), c.d.winner.value.face;
    CooldownsAreLogged(cfg, calls, c.camera, face);
    KnownEventsAreSpaced(cfg, calls, c.camera, face);
    CoolingMeansRecent(cfg, st, Log(cfg, calls), c.ev, face);
    KnownCallByCooling(cfg, st, c);
  }

  /** How many known decisions came too soon after a stored one of the same face and camera. */
  ghost function TooSoon(cfg: Settings, calls: seq<Call>): nat {
    if calls == [] then 0
    else
      var init, c := calls[..|calls| - 1], calls[|calls| - 1];
      TooSoon(cfg, init)
      + if IsKnownCall(c) && Recent(cfg, Log(cfg, init), c.camera, c.d.winner.value.face, c.ev.lastSeen) then 1 else 0
  }

  lemma OthersAreNotSuppressed(cfg: Settings, st: EventState, c: Call)
    requires !IsKnownCall(c)
    ensures Perform(cfg, st, c).state.suppressed == st.suppressed
  {
  }

  /** The suppression counter counts exactly those. */
  lemma {:induction false} SuppressedCountsTooSoon(cfg: Settings, calls: seq<Call>)
    requires cfg.cooldown >= 0
    ensures StateAfter(cfg, calls).suppressed == TooSoon(cfg, calls)
  {
    if calls == [] {
    } else {
      var init, c := calls[..|calls| - 1], calls[|calls| - 1];
      SuppressedCountsTooSoon(cfg, init);
      if IsKnownCall(c) {
        KnownIsStoredExactlyOutsideCooldown(cfg, init, c);
      } else {
        OthersAreNotSuppressed(cfg, StateAfter(cfg, init), c);
      }
    }
  }

  // ----- exactly which unknown events are stored

  predicate CallInContext(c: Call) {
    c.ev.camera == c.camera && c.ev.run == c.run && c.ev.generation == c.generation
  }

  /** The decision that waits to be announced when the track expires. */
  function Waiting(calls: seq<Call>, run: string, tracker: nat): Option<(Evidence, Decision)> {
    if calls == [] then None
    else
      var before, c := Waiting(calls[..|calls| - 1], run, tracker), calls[|calls| - 1];
      if !CallInContext(c) || c.run != run || c.ev.tracker != tracker then before
      else if c.ExpireCall? || c.d.transition == ToUnknown then None
      else if c.d.winner.None? || (c.d.transition == ToKnown && c.d.reference.None?) then Some((c.ev, c.d))
      else before
  }

  lemma WaitingStep(cfg: Settings, st: EventState, c: Call, run: string, tracker: nat)
    ensures var before := if (run, tracker) in st.pending then Some(st.pending[(run, tracker)]) else None;
            var after' := Perform(cfg, st, c).state.pending;
            (if (run, tracker) in after' then Some(after'[(run, tracker)]) else None)
            == if !CallInContext(c) || c.run != run || c.ev.tracker != tracker then before
               else if c.ExpireCall? || c.d.transition == ToUnknown then None
               else if c.d.winner.None? || (c.d.transition == ToKnown && c.d.reference.None?) then Some((c.ev, c.d))
               else before
  {
  }

  lemma {:induction false} PendingIsWaiting(cfg: Settings, calls: seq<Call>, run: string, tracker: nat)
    ensures var pending := StateAfter(cfg, calls).pending;
            Waiting(calls, run, tracker)
            == if (run, tracker) in pending then Some(pending[(run, tracker)]) else None
  {
    if calls == [] {
    } else {
      var init := calls[..|calls| - 1];
      PendingIsWaiting(cfg, init, run, tracker);
      WaitingStep(cfg, StateAfter(cfg, init), calls[|calls| - 1], run, tracker);
    }
  }

  function UnknownRow(ev: Evidence, d: Decision): StoredEvent {
    StoredEvent(false, ev.camera, ev.run, ev.tracker, d.epoch,
                if d.winner.Some? then Some(d.winner.value.face) else None, ev.lastSeen)
  }

  /**
    After any calls, an expiry stores an unknown row exactly when a decision of the track waits, the track
    was seen for at least the dwell time, and the row is accepted; the row is that of the waiting decision.
  */
  lemma ExpiryStoresExactlyAfterDwell(cfg: Settings, calls: seq<Call>, c: Call)
    requires c.ExpireCall? && CallInContext(c)
    ensures var waits := Waiting(calls, c.run, c.ev.tracker);
            var step := Perform(cfg, StateAfter(cfg, calls), c);
            var due := waits.Some? && c.ev.lastSeen - c.ev.firstSeen >= cfg.dwell;
            && step.stored == (if due && c.rowStored then [UnknownRow(waits.value.0, waits.value.1)] else [])
            && (step.reply.Raised? <==> due && !c.rowStored)
            && (step.reply.Commands? ==> |step.reply.list| == if due then 1 else 0)
  {
    PendingIsWaiting(cfg, calls, c.run, c.ev.tracker);
  }

  /** A drop stores its unknown row whenever the row is accepted, and raises otherwise. */
  lemma DropIsStored(cfg: Settings, st: EventState, c: Call)
    requires c.AcceptCall? && CallInContext(c) && c.d.transition == ToUnknown
    ensures var step := Perform(cfg, st, c);
            && step.stored == (if c.rowStored then [UnknownRow(c.ev, c.d)] else [])
            && (step.reply.Raised? <==> !c.rowStored)
  {
  }

  // ----- what the commands carry

  /** A known assignment carries everything about the face, an unknown one nothing. */
  ghost predicate Carries(cfg: Settings, a: Assignment, ev: Evidence, d: Decision) {
    && a.generation == ev.generation && a.tracker == ev.tracker && a.epoch == d.epoch
    && a.decisionSequence == ev.revision
    && (a.word == SayKnown ==>
          && d.winner.Some? && a.name == Some(d.winner.value.name) && a.face == Some(d.winner.value.face)
          && a.score == Some(d.winner.value.score) && a.threshold == Some(cfg.threshold) && a.reference == d.reference)
    && (a.word == SayUnknown ==>
          a.name.None? && a.face.None? && a.score.None? && a.threshold.None? && a.reference.None?)
  }

  /** The words of the commands of each kind of decision, oldest first. */
  lemma CommandsSay(cfg: Settings, st: EventState, c: Call)
    requires c.AcceptCall? && Perform(cfg, st, c).reply.Commands?
    ensures var list := Perform(cfg, st, c).reply.list;
            && (forall i :: 0 <= i < |list| ==> Carries(cfg, list[i], c.ev, c.d))
            && (c.d.transition == Stay ==> list == [])
            && (c.d.transition == ToUnknown ==> |list| == 1 && list[0].word == SayUnknown)
            && (IsKnownCall(c) ==>
                  if c.d.reset then |list| == 2 && list[0].word == SayUnknown && list[1].word == SayKnown
                  else |list| == 1 && list[0].word == SayKnown)
  {
  }
}

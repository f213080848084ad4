/** The main results about labels: what native can show, and exactly when it agrees with the service. */
module LiveAgreement {
  import opened Common
  import opened Sorting
  import opened LiveIdentity
  import opened LiveEvents
  import opened AssignmentQueues
  import opened NativeIdentity
  import opened LiveSystem
  import opened LiveProjection
  import opened LiveSafety

  // ----- label safety, stated on the states of a run

  /** The service holds face `f` for `t` in epoch `e`. */
  predicate Holds(s: System, t: nat, e: nat, f: FaceId) {
    && t in s.identities && s.identities[t].epoch == e
    && s.identities[t].known.Some? && s.identities[t].known.value.face == f
  }

  predicate HoldsAt(cfg: Config, run: seq<Action>, i: nat, t: nat, e: nat, f: FaceId)
    requires cfg.capacity >= 1 && i <= |run|
  {
    Holds(Exec(cfg, run[..i]), t, e, f)
  }

  predicate Shows(s: System, t: nat, e: nat, f: FaceId) {
    NativeOf(s, t).state == Known && NativeOf(s, t).face == Some(f) && NativeOf(s, t).epoch == e
  }

  lemma {:induction false} DecidedWasHeld(cfg: Config, run: seq<Action>, t: nat, e: nat, f: FaceId) returns (i: nat)
    requires cfg.capacity >= 1 && NoReuse(cfg, run, t) && (e, f) in Decided(cfg, run, t)
    ensures i <= |run| && HoldsAt(cfg, run, i, t, e, f)
  {
    var init, a := run[..|run| - 1], run[|run| - 1];
    if (e, f) in Decided(cfg, init, t) {
      i := DecidedWasHeld(cfg, init, t, e, f);
      assert run[..i] == init[..i];
    } else {
      i := |run|;
      assert run[..i] == run;
      RunsAreSafe(cfg, init, t);
      ResolveHasShape(Track(Exec(cfg, init), t), a.x);
    }
  }

  lemma {:induction false} DecidedGrows(cfg: Config, run: seq<Action>, i: nat, t: nat)
    requires cfg.capacity >= 1 && i <= |run| && NoReuse(cfg, run, t)
    ensures Decided(cfg, run[..i], t) <= Decided(cfg, run, t) && NoReuse(cfg, run[..i], t)
    decreases |run|
  {
    if i == |run| {
      assert run[..i] == run;
    } else {
      assert run[..|run| - 1][..i] == run[..i];
      DecidedGrows(cfg, run[..|run| - 1], i, t);
    }
  }

  lemma {:induction false} ForgottenIsAbsent(cfg: Config, run: seq<Action>, t: nat)
    requires cfg.capacity >= 1 && NoReuse(cfg, run, t) && Forgotten(cfg, run, t)
    ensures t !in Exec(cfg, run).identities
  {
    var init := run[..|run| - 1];
    if Forgotten(cfg, init, t) {
      ForgottenIsAbsent(cfg, init, t);
    }
  }

  lemma HeldWasDecided(cfg: Config, run: seq<Action>, t: nat, e: nat, f: FaceId)
    requires cfg.capacity >= 1 && NoReuse(cfg, run, t) && Holds(Exec(cfg, run), t, e, f)
    ensures (e, f) in Decided(cfg, run, t)
  {
    RunsAreSafe(cfg, run, t);
    if Forgotten(cfg, run, t) { ForgottenIsAbsent(cfg, run, t); }
  }

  /**
    Label safety. In every run, under arbitrary coalescing, eviction, failed rows and scheduling:
    while the track lives, native is never in a newer epoch than the service, and a face native
    shows in an epoch was held by the service in that same epoch.
  */
  lemma LabelSafety(cfg: Config, run: seq<Action>, t: nat)
    requires cfg.capacity >= 1 && NoReuse(cfg, run, t)
    ensures !Forgotten(cfg, run, t) ==> NativeOf(Exec(cfg, run), t).epoch <= Track(Exec(cfg, run), t).epoch
    ensures NativeOf(Exec(cfg, run), t).state == Known ==>
              exists f, i: nat :: i <= |run| && Shows(Exec(cfg, run), t, NativeOf(Exec(cfg, run), t).epoch, f)
                             && HoldsAt(cfg, run, i, t, NativeOf(Exec(cfg, run), t).epoch, f)
  {
    RunsAreSafe(cfg, run, t);
    var n := NativeOf(Exec(cfg, run), t);
    if n.state == Known {
      var i := DecidedWasHeld(cfg, run, t, n.epoch, n.face.value);
      assert Shows(Exec(cfg, run), t, n.epoch, n.face.value);
    }
  }

  /** At no two moments of a run do service or native hold different faces in one epoch. */
  lemma OneFacePerEpoch(cfg: Config, run: seq<Action>, t: nat, i: nat, j: nat, e: nat, f: FaceId, g: FaceId)
    requires cfg.capacity >= 1 && NoReuse(cfg, run, t) && i <= |run| && j <= |run|
    requires HoldsAt(cfg, run, i, t, e, f) || Shows(Exec(cfg, run[..i]), t, e, f)
    requires HoldsAt(cfg, run, j, t, e, g) || Shows(Exec(cfg, run[..j]), t, e, g)
    ensures f == g
  {
    RunsAreSafe(cfg, run, t);
    DecidedGrows(cfg, run, i, t);
    DecidedGrows(cfg, run, j, t);
    RunsAreSafe(cfg, run[..i], t);
    RunsAreSafe(cfg, run[..j], t);
    if HoldsAt(cfg, run, i, t, e, f) { HeldWasDecided(cfg, run[..i], t, e, f); }
    if HoldsAt(cfg, run, j, t, e, g) { HeldWasDecided(cfg, run[..j], t, e, g); }
    assert (e, f) in Decided(cfg, run, t) && (e, g) in Decided(cfg, run, t);
  }

  // ----- agreement

  function ApplyAll(n: NativeState, list: seq<Assignment>): NativeState {
    if list == [] then n else Apply(ApplyAll(n, list[..|list| - 1]), list[|list| - 1])
  }

  lemma {:induction false} ApplyAllHead(n: NativeState, list: seq<Assignment>)
    requires list != []
    ensures ApplyAll(n, list) == ApplyAll(Apply(n, list[0]), list[1..])
  {
    if |list| > 1 {
      var init := list[..|list| - 1];
      ApplyAllHead(n, init);
      assert list[1..][..|list| - 2] == init[1..];
    }
  }

  /** Native once everything already on the pipe has arrived. */
  function OnceReceived(v: View): NativeState { ApplyAll(v.native, v.wire) }

  /** Native once everything in flight has arrived. */
  function OnceSettled(v: View): NativeState {
    if v.slot.Some? then Apply(OnceReceived(v), v.slot.value) else OnceReceived(v)
  }

  function ServiceFace(t: TrackIdentity): Option<FaceId> {
    if t.known.Some? then Some(t.known.value.face) else None
  }

  function NativeFace(n: NativeState): Option<FaceId> { if n.state == Known then n.face else None }

  predicate Agrees(t: TrackIdentity, n: NativeState) {
    n.epoch == t.epoch && NativeFace(n) == ServiceFace(t)
  }

  predicate Settled(v: View) { v.slot.None? && v.wire == [] }

  lemma {:induction false} ReceivedIsSafe(n: NativeState, w: seq<Assignment>, epoch: nat, decided: set<(nat, FaceId)>)
    requires SafeNative(n, epoch, decided)
    requires forall i :: 0 <= i < |w| ==> Justified(w[i], epoch, decided)
    ensures SafeNative(ApplyAll(n, w), epoch, decided)
  {
    if w == [] {
    } else {
      ReceivedIsSafe(n, w[..|w| - 1], epoch, decided);
      assert Justified(w[|w| - 1], epoch, decided);
    }
  }

  lemma {:induction false} ReceivedRevision(n: NativeState, w: seq<Assignment>, low: nat, high: nat)
    requires n.revision <= low && Increasing(low, w, high)
    ensures ApplyAll(n, w).revision <= if w == [] then low else w[|w| - 1].revision
  {
    if w == [] {
    } else {
      var init := w[..|w| - 1];
      ReceivedRevision(n, init, low, high);
      assert init != [] ==> init[|init| - 1].revision < w[|w| - 1].revision;
    }
  }

  lemma ReceivedFacts(cfg: Config, v: View, last: TrackIdentity, decided: set<(nat, FaceId)>)
    requires Ordered(cfg, v) && SafeView(v, last, decided)
    ensures SafeNative(OnceReceived(v), last.epoch, decided)
    ensures OnceReceived(v).revision <= v.revision
    ensures SafeNative(OnceSettled(v), last.epoch, decided)
  {
    assert forall i :: 0 <= i < |v.wire| ==> InFlight(v)[i] == v.wire[i];
    ReceivedIsSafe(v.native, v.wire, last.epoch, decided);
    ReceivedRevision(v.native, v.wire, v.context, v.revision);
    if v.slot.Some? {
      assert InFlight(v)[|v.wire|] == v.slot.value;
    }
  }

  /** Sending and delivering do not change where native will settle. */
  lemma MovingKeepsSettled(v: View, v': View)
    requires v' == v || Sends(v, v') || Delivers(v, v')
    ensures OnceSettled(v') == OnceSettled(v)
  {
    if Sends(v, v') {
      assert v'.wire[..|v'.wire| - 1] == v.wire;
    } else if Delivers(v, v') {
      ApplyAllHead(v.native, v.wire);
    }
  }

  /** Whether native will settle in agreement after one decision, for each kind of transition. */
  predicate WillAgree(v: View, d: Decision, emits: bool) {
    match d.transition
    case Stay => Agrees(v.track, OnceSettled(v))
    case ToUnknown => emits
    case ToKnown => emits && !d.reset && OnceReceived(v).epoch == v.track.epoch
  }

  /**
    Exactly when one decision leaves native bound for agreement: a drop whenever its row was stored,
    from any state at all; a first known face of an epoch when it was stored and the epoch-opening
    "unknown" is not still waiting in the queue; a replacement never; and otherwise as before.
  */
  lemma DecisionAgreesExactlyWhen(cfg: Config, v: View, v': View, r: Outcome, emits: bool, decided: set<(nat, FaceId)>)
    requires Ordered(cfg, v) && SafeView(v, v.track, decided)
    requires Decides(cfg, v, v', r, emits) && Shape(v.track, r)
    ensures Agrees(v'.track, OnceSettled(v')) <==> WillAgree(v, r.decision, emits)
  {
    ReceivedFacts(cfg, v, v.track, decided);
    var n := OnceReceived(v);
    assert OnceReceived(v') == n;
    if r.decision.transition == ToKnown && !r.decision.reset && n.epoch == v.track.epoch {
      assert n.state != Known;
    }
  }

  /** Queue pressure from other trackers throws the entry of `t` out. */
  predicate Evicts(cfg: Config, s: System, a: Action, t: nat)
    requires cfg.capacity >= 1
  {
    (a.OnEvidence? || a.OnExpired?) && Slot(s.queue, t).Some? && Slot(Next(cfg, s, a).queue, t).None?
  }

  /** The "unknown" that opens the current epoch of `t` still waits in the command queue. */
  predicate OpenerIsQueued(v: View) {
    v.slot.Some? && v.slot.value.word == SayUnknown && v.slot.value.epoch == v.track.epoch
  }

  /**
    The action loses nothing for `t`: its own decisions are stored, a first known face does not
    overwrite the "unknown" that opens its epoch, and its entry is not evicted. Replacements are allowed.
  */
  predicate LosesNothing(cfg: Config, s: System, a: Action, t: nat)
    requires cfg.capacity >= 1
  {
    if a.OnEvidence? && a.tracker == t then
      var d, v := Resolved(s, a).decision, Project(cfg, s, t);
      d.transition != Stay ==>
        && Emitted(EvidenceEvents(cfg, s, a)) != []
        && (d.transition == ToKnown && !d.reset ==> !OpenerIsQueued(v))
    else
      !(a.OnExpired? && a.tracker == t) && !Evicts(cfg, s, a, t)
  }

  /** A drop of `t` whose row was stored. */
  predicate StoredDrop(cfg: Config, s: System, a: Action, t: nat) {
    && a.OnEvidence? && a.tracker == t
    && Resolved(s, a).decision.transition == ToUnknown && Emitted(EvidenceEvents(cfg, s, a)) != []
  }

  predicate LosesNothingAt(cfg: Config, run: seq<Action>, i: nat, t: nat)
    requires cfg.capacity >= 1 && i < |run|
  {
    LosesNothing(cfg, Exec(cfg, run[..i]), run[i], t)
  }

  /** From position `k` on nothing is lost for `t`. */
  predicate LosesNothingFrom(cfg: Config, run: seq<Action>, k: nat, t: nat)
    requires cfg.capacity >= 1 && k <= |run|
  {
    forall i :: k <= i < |run| ==> LosesNothingAt(cfg, run, i, t)
  }

  /** The run is at its start, or just behind a stored drop of `t`. */
  predicate SyncPoint(cfg: Config, run: seq<Action>, k: nat, t: nat)
    requires cfg.capacity >= 1 && k <= |run|
  {
    k == 0 || StoredDrop(cfg, Exec(cfg, run[..k - 1]), run[k - 1], t)
  }

  predicate InStep(cfg: Config, run: seq<Action>, t: nat)
    requires cfg.capacity >= 1
  {
    Agrees(Track(Exec(cfg, run), t), OnceSettled(Project(cfg, Exec(cfg, run), t)))
  }

  lemma OwnDecision(cfg: Config, init: seq<Action>, a: Action, t: nat)
    requires cfg.capacity >= 1 && NoReuse(cfg, init + [a], t) && Concerns(a, t)
    ensures var s := Exec(cfg, init);
            InStep(cfg, init + [a], t) <==>
              WillAgree(Project(cfg, s, t), Resolved(s, a).decision, Emitted(EvidenceEvents(cfg, s, a)) != [])
    ensures Shape(Track(Exec(cfg, init), t), Resolved(Exec(cfg, init), a))
    ensures OpenedBySwap(cfg, init, t) ==> Track(Exec(cfg, init), t).known.Some?
    ensures !Forgotten(cfg, init + [a], t)
  {
    var s := Exec(cfg, init);
    assert (init + [a])[..|init|] == init;
    RunsAreSafe(cfg, init, t);
    RunsAreSound(cfg, init);
    var v, v' := Project(cfg, s, t), Project(cfg, Next(cfg, s, a), t);
    assert Ordered(cfg, v);
    EvidenceProjects(cfg, s, a, t);
    ResolveHasShape(v.track, a.x);
    DecisionAgreesExactlyWhen(cfg, v, v', Resolved(s, a), Emitted(EvidenceEvents(cfg, s, a)) != [],
                              Decided(cfg, init, t));
  }

  lemma NotLost(cfg: Config, s: System, a: Action, t: nat)
    requires cfg.capacity >= 1 && !Concerns(a, t) && LosesNothing(cfg, s, a, t)
    requires Moves(Project(cfg, s, t), Project(cfg, Next(cfg, s, a), t))
    ensures var v, v' := Project(cfg, s, t), Project(cfg, Next(cfg, s, a), t);
            v' == v || Sends(v, v') || Delivers(v, v')
  {
  }

  /** An action that neither concerns `t` nor loses anything leaves native bound for the same state. */
  lemma OtherSettles(cfg: Config, s: System, a: Action, t: nat)
    requires cfg.capacity >= 1 && Sound(cfg, s) && !Concerns(a, t) && LosesNothing(cfg, s, a, t)
    ensures var v, v' := Project(cfg, s, t), Project(cfg, Next(cfg, s, a), t);
            v'.track == v.track && OnceSettled(v') == OnceSettled(v)
  {
    OtherProjects(cfg, s, a, t);
    NotLost(cfg, s, a, t);
    MovingKeepsSettled(Project(cfg, s, t), Project(cfg, Next(cfg, s, a), t));
  }

  lemma OtherAction(cfg: Config, init: seq<Action>, a: Action, t: nat)
    requires cfg.capacity >= 1 && !Concerns(a, t)
    requires LosesNothing(cfg, Exec(cfg, init), a, t)
    ensures InStep(cfg, init + [a], t) <==> InStep(cfg, init, t)
    ensures Forgotten(cfg, init + [a], t) <==> Forgotten(cfg, init, t)
    ensures OpenedBySwap(cfg, init + [a], t) <==> OpenedBySwap(cfg, init, t)
  {
    QuietHistory(cfg, init, a, t);
    RunsAreSound(cfg, init);
    OtherSettles(cfg, Exec(cfg, init), a, t);
  }

  lemma OwnSwap(cfg: Config, init: seq<Action>, a: Action, t: nat)
    requires cfg.capacity >= 1 && Concerns(a, t)
    ensures var d := Resolved(Exec(cfg, init), a).decision;
            OpenedBySwap(cfg, init + [a], t) == if d.reset then d.transition == ToKnown else OpenedBySwap(cfg, init, t)
  {
    assert (init + [a])[..|init|] == init;
  }

  lemma DropInStep(cfg: Config, init: seq<Action>, a: Action, t: nat)
    requires cfg.capacity >= 1 && NoReuse(cfg, init + [a], t) && StoredDrop(cfg, Exec(cfg, init), a, t)
    ensures InStep(cfg, init + [a], t) && !OpenedBySwap(cfg, init + [a], t) && !Forgotten(cfg, init + [a], t)
  {
    OwnDecision(cfg, init, a, t);
    OwnSwap(cfg, init, a, t);
  }

  /** In agreement, and with the opener no longer queued, everything sent brings native into the epoch. */
  lemma OpenerIsSent(v: View)
    requires Agrees(v.track, OnceSettled(v)) && !OpenerIsQueued(v)
    ensures OnceReceived(v).epoch == v.track.epoch
  {
  }

  lemma OwnStepInStep(cfg: Config, init: seq<Action>, a: Action, t: nat)
    requires cfg.capacity >= 1 && NoReuse(cfg, init + [a], t) && Concerns(a, t)
    requires LosesNothing(cfg, Exec(cfg, init), a, t)
    requires InStep(cfg, init, t) <==> !OpenedBySwap(cfg, init, t)
    ensures InStep(cfg, init + [a], t) <==> !OpenedBySwap(cfg, init + [a], t)
    ensures !Forgotten(cfg, init + [a], t)
  {
    OwnDecision(cfg, init, a, t);
    OwnSwap(cfg, init, a, t);
    var s := Exec(cfg, init);
    var d, v := Resolved(s, a).decision, Project(cfg, s, t);
    if d.transition == ToKnown && !d.reset {
      assert !OpenedBySwap(cfg, init, t);
      OpenerIsSent(v);
    }
  }

  lemma StepInStep(cfg: Config, init: seq<Action>, a: Action, t: nat)
    requires cfg.capacity >= 1 && NoReuse(cfg, init + [a], t) && LosesNothing(cfg, Exec(cfg, init), a, t)
    requires InStep(cfg, init, t) <==> !OpenedBySwap(cfg, init, t)
    requires !Forgotten(cfg, init, t)
    ensures InStep(cfg, init + [a], t) <==> !OpenedBySwap(cfg, init + [a], t)
    ensures !Forgotten(cfg, init + [a], t)
  {
    if Concerns(a, t) {
      OwnStepInStep(cfg, init, a, t);
    } else {
      OtherAction(cfg, init, a, t);
    }
  }

  lemma SameLoss(cfg: Config, init: seq<Action>, a: Action, i: nat, t: nat)
    requires cfg.capacity >= 1 && i < |init|
    ensures LosesNothingAt(cfg, init + [a], i, t) == LosesNothingAt(cfg, init, i, t)
  {
    assert (init + [a])[..i] == init[..i] && (init + [a])[i] == init[i];
  }

  lemma ShorterLoss(cfg: Config, init: seq<Action>, a: Action, k: nat, t: nat)
    requires cfg.capacity >= 1 && k <= |init| && LosesNothingFrom(cfg, init + [a], k, t)
    ensures LosesNothingFrom(cfg, init, k, t)
  {
    forall i | k <= i < |init| ensures LosesNothingAt(cfg, init, i, t) {
      SameLoss(cfg, init, a, i, t);
    }
  }

  lemma ShorterSync(cfg: Config, init: seq<Action>, a: Action, k: nat, t: nat)
    requires cfg.capacity >= 1 && k <= |init| && SyncPoint(cfg, init + [a], k, t)
    ensures SyncPoint(cfg, init, k, t)
  {
    if k > 0 {
      assert (init + [a])[..k - 1] == init[..k - 1] && (init + [a])[k - 1] == init[k - 1];
    }
  }

  lemma LastLoss(cfg: Config, init: seq<Action>, a: Action, k: nat, t: nat)
    requires cfg.capacity >= 1 && k <= |init| && LosesNothingFrom(cfg, init + [a], k, t)
    ensures LosesNothing(cfg, Exec(cfg, init), a, t)
  {
    assert LosesNothingAt(cfg, init + [a], |init|, t);
    assert (init + [a])[..|init|] == init && (init + [a])[|init|] == a;
  }

  lemma NoReuseShorter(cfg: Config, init: seq<Action>, a: Action, t: nat)
    requires cfg.capacity >= 1 && NoReuse(cfg, init + [a], t)
    ensures NoReuse(cfg, init, t)
  {
    assert (init + [a])[..|init|] == init;
  }

  lemma InStepAtStart(cfg: Config, t: nat)
    requires cfg.capacity >= 1
    ensures InStep(cfg, [], t) && !OpenedBySwap(cfg, [], t) && !Forgotten(cfg, [], t)
  {
  }

  lemma DropAtEnd(cfg: Config, init: seq<Action>, a: Action, t: nat)
    requires cfg.capacity >= 1 && SyncPoint(cfg, init + [a], |init| + 1, t)
    ensures StoredDrop(cfg, Exec(cfg, init), a, t)
  {
    assert (init + [a])[..|init|] == init;
  }

  /**
    Agreement and resynchronisation. Start from the beginning of the run, or from a stored drop after
    any losses whatever; while nothing is lost for `t` from there on, native is bound for the service's
    epoch and face exactly when the current epoch was not opened by a replacement.
  */
  lemma {:induction false} InStepUnlessSwapped(cfg: Config, run: seq<Action>, k: nat, t: nat)
    requires cfg.capacity >= 1 && k <= |run| && NoReuse(cfg, run, t)
    requires SyncPoint(cfg, run, k, t) && LosesNothingFrom(cfg, run, k, t)
    ensures InStep(cfg, run, t) <==> !OpenedBySwap(cfg, run, t)
    ensures !Forgotten(cfg, run, t)
  {
    if run == [] {
      InStepAtStart(cfg, t);
    } else {
      var init, a := run[..|run| - 1], run[|run| - 1];
      assert run == init + [a];
      if k == |run| {
        DropAtEnd(cfg, init, a, t);
        DropInStep(cfg, init, a, t);
      } else {
        ShorterLoss(cfg, init, a, k, t);
        ShorterSync(cfg, init, a, k, t);
        LastLoss(cfg, init, a, k, t);
        NoReuseShorter(cfg, init, a, t);
        InStepUnlessSwapped(cfg, init, k, t);
        StepInStep(cfg, init, a, t);
      }
    }
  }

  /** With nothing in flight for `t`, what native shows is what it is bound for. */
  lemma SettledAgreement(cfg: Config, run: seq<Action>, k: nat, t: nat)
    requires cfg.capacity >= 1 && k <= |run| && NoReuse(cfg, run, t)
    requires SyncPoint(cfg, run, k, t) && LosesNothingFrom(cfg, run, k, t)
    requires Settled(Project(cfg, Exec(cfg, run), t))
    ensures Agrees(Track(Exec(cfg, run), t), NativeOf(Exec(cfg, run), t)) <==> !OpenedBySwap(cfg, run, t)
  {
    InStepUnlessSwapped(cfg, run, k, t);
  }

  lemma {:induction false} StaysUnopened(n: NativeState, w: seq<Assignment>, epoch: nat)
    requires n.epoch < epoch
    requires forall i :: 0 <= i < |w| && w[i].word == SayUnknown ==> w[i].epoch < epoch
    ensures ApplyAll(n, w).epoch < epoch
  {
    if w == [] {
    } else {
      StaysUnopened(n, w[..|w| - 1], epoch);
    }
  }

  /**
    The "unknown" and the "known" of a replacement are queued without a pause, so the second always
    coalesces over the first and native refuses it. Hence in every run, whatever is sent or delivered,
    native stays below an epoch that a replacement opened for as long as that epoch lasts.
  */
  lemma ReplacementNeverReachesNative(cfg: Config, run: seq<Action>, t: nat)
    requires cfg.capacity >= 1 && NoReuse(cfg, run, t) && OpenedBySwap(cfg, run, t)
    ensures NativeOf(Exec(cfg, run), t).epoch < LastTrack(cfg, run, t).epoch
    ensures OnceSettled(Project(cfg, Exec(cfg, run), t)).epoch < LastTrack(cfg, run, t).epoch
    ensures !Forgotten(cfg, run, t) ==> !InStep(cfg, run, t) && LastTrack(cfg, run, t) == Track(Exec(cfg, run), t)
  {
    RunsAreSafe(cfg, run, t);
    var v := Project(cfg, Exec(cfg, run), t);
    assert forall i :: 0 <= i < |v.wire| ==> InFlight(v)[i] == v.wire[i];
    StaysUnopened(v.native, v.wire, LastTrack(cfg, run, t).epoch);
    if v.slot.Some? { assert InFlight(v)[|v.wire|] == v.slot.value; }
  }

  // ----- at most one known event per epoch, attempts included

  function StoredBy(cfg: Config, s: System, a: Action): seq<StoredEvent> {
    if a.OnEvidence? then EvidenceEvents(cfg, s, a).stored
    else if a.OnExpired? then ExpiredEvents(cfg, s, a).stored
    else []
  }

  /** The rows an action tries to store: those it would store if nothing raised. */
  function AttemptedBy(cfg: Config, s: System, a: Action): seq<StoredEvent> {
    StoredBy(cfg, s, if a.OnEvidence? || a.OnExpired? then a.(rowStored := true) else a)
  }

  function RowsBy(cfg: Config, s: System, a: Action, attempts: bool): seq<StoredEvent> {
    if attempts then AttemptedBy(cfg, s, a) else StoredBy(cfg, s, a)
  }

  predicate IsKnownRow(rows: seq<StoredEvent>, t: nat) { rows != [] && rows[0].known && rows[0].tracker == t }

  /** The epochs of the known events stored for `t`, in order, or of all attempted ones, whether stored or raised. */
  function KnownEpochs(cfg: Config, run: seq<Action>, t: nat, attempts: bool): seq<nat>
    requires cfg.capacity >= 1
  {
    if run == [] then []
    else
      var rows := RowsBy(cfg, Exec(cfg, run[..|run| - 1]), run[|run| - 1], attempts);
      KnownEpochs(cfg, run[..|run| - 1], t, attempts) + if IsKnownRow(rows, t) then [rows[0].epoch] else []
  }

  lemma KnownRowIsDecision(cfg: Config, s: System, a: Action, t: nat, attempts: bool)
    ensures var rows := RowsBy(cfg, s, a, attempts);
            IsKnownRow(rows, t) ==>
              && Concerns(a, t) && Resolved(s, a).decision.transition == ToKnown
              && rows[0].epoch == Resolved(s, a).decision.epoch && Resolved(s, a).decision.winner.Some?
  {
  }

  function Epochs(decided: set<(nat, FaceId)>): set<nat> { set p | p in decided :: p.0 }

  ghost predicate OncePerEpoch(epochs: seq<nat>, used: set<nat>) {
    && (forall i, j :: 0 <= i < j < |epochs| ==> epochs[i] < epochs[j])
    && (forall i :: 0 <= i < |epochs| ==> epochs[i] in used)
  }

  lemma EpochsGrow(decided: set<(nat, FaceId)>, e: nat, f: FaceId)
    ensures Epochs(decided + {(e, f)}) == Epochs(decided) + {e}
  {
    assert (e, f) in decided + {(e, f)};
    forall x | x in Epochs(decided) ensures x in Epochs(decided + {(e, f)}) {
      var p :| p in decided && p.0 == x;
      assert p in decided + {(e, f)};
    }
  }

  lemma OncePerEpochKept(epochs: seq<nat>, decided: set<(nat, FaceId)>, more: set<(nat, FaceId)>)
    requires OncePerEpoch(epochs, Epochs(decided))
    ensures OncePerEpoch(epochs, Epochs(decided + more))
  {
    forall x | x in Epochs(decided) ensures x in Epochs(decided + more) {
      var p :| p in decided && p.0 == x;
      assert p in decided + more;
    }
  }

  lemma OncePerEpochGrows(epochs: seq<nat>, decided: set<(nat, FaceId)>, e: nat, f: FaceId)
    requires OncePerEpoch(epochs, Epochs(decided)) && forall p :: p in decided ==> p.0 < e
    ensures OncePerEpoch(epochs + [e], Epochs(decided + {(e, f)}))
  {
    EpochsGrow(decided, e, f);
    assert forall x :: x in Epochs(decided) ==> x < e;
  }

  /** A known transition opens an epoch above all decided so far. */
  lemma KnownIsNew(cfg: Config, init: seq<Action>, a: Action, t: nat)
    requires cfg.capacity >= 1 && NoReuse(cfg, init + [a], t) && Concerns(a, t)
    requires Resolved(Exec(cfg, init), a).decision.transition == ToKnown
    ensures var d := Resolved(Exec(cfg, init), a).decision;
            d.winner.Some? && forall p :: p in Decided(cfg, init, t) ==> p.0 < d.epoch
  {
    assert (init + [a])[..|init|] == init;
    RunsAreSafe(cfg, init, t);
    ResolveHasShape(Track(Exec(cfg, init), t), a.x);
  }

  lemma KnownEpochsNext(cfg: Config, init: seq<Action>, a: Action, t: nat, attempts: bool)
    requires cfg.capacity >= 1
    ensures var s := Exec(cfg, init);
            var rows := RowsBy(cfg, s, a, attempts);
            && Decided(cfg, init + [a], t)
               == Decided(cfg, init, t) + (if Concerns(a, t) then Adds(Resolved(s, a)) else {})
            && KnownEpochs(cfg, init + [a], t, attempts)
               == KnownEpochs(cfg, init, t, attempts) + (if IsKnownRow(rows, t) then [rows[0].epoch] else [])
  {
    assert (init + [a])[..|init|] == init;
  }

  /**
    Known events of one track carry strictly increasing epochs, at most one per epoch: those stored, and
    likewise all attempted ones, a raised row included.
  */
  lemma {:induction false} OneKnownEventPerEpoch(cfg: Config, run: seq<Action>, t: nat, attempts: bool)
    requires cfg.capacity >= 1 && NoReuse(cfg, run, t)
    ensures OncePerEpoch(KnownEpochs(cfg, run, t, attempts), Epochs(Decided(cfg, run, t)))
  {
    if run == [] {
    } else {
      var init, a := run[..|run| - 1], run[|run| - 1];
      assert run == init + [a];
      var s, epochs, decided := Exec(cfg, init), KnownEpochs(cfg, init, t, attempts), Decided(cfg, init, t);
      OneKnownEventPerEpoch(cfg, init, t, attempts);
      KnownEpochsNext(cfg, init, a, t, attempts);
      KnownRowIsDecision(cfg, s, a, t, attempts);
      if IsKnownRow(RowsBy(cfg, s, a, attempts), t) {
        var d := Resolved(s, a).decision;
        KnownIsNew(cfg, init, a, t);
        OncePerEpochGrows(epochs, decided, d.epoch, d.winner.value.face);
      } else {
        OncePerEpochKept(epochs, decided, if Concerns(a, t) then Adds(Resolved(s, a)) else {});
      }
    }
  }

  // ----- why a tracker id must not come back

  function Vote(face: FaceId, time: nat): Evaluation {
    Evaluation([Observation(time, [], 1.0)], Answer(Some(FaceMatch(face, face, face, 1.0)), Some(1.0)), Some([]))
  }

  /** Evidence names Ann, native shows her, the track expires, and the id comes back with evidence for Bob. */
  function ReusedId(): seq<Action> {
    [OnEvidence(7, 1, 0, 0, Vote("Ann", 0), true), Send, Deliver,
     OnExpired(7, 2, 0, 0, true), OnEvidence(7, 3, 0, 0, Vote("Bob", 1), true)]
  }

  lemma FirstVote(face: FaceId, time: nat)
    ensures var r := ResolveTrack(FRESH, Vote(face, time));
            && r.track.epoch == 1 && r.track.known.Some? && r.track.known.value.face == face && r.track.candidate.None?
            && r.decision.transition == ToKnown && r.decision.winner == r.track.known
            && r.decision.reference.Some? && !r.decision.reset && r.decision.epoch == 1
  {
    var x := Vote(face, time);
    assert x.batch[..0] == [];
    assert StableSort(Earlier, x.batch) == x.batch;
    assert FreshOnes({}, x.batch) == x.batch;
  }

  /** A vote for a face other than the held one is counted, and the third in a row replaces. */
  lemma OtherVote(t: TrackIdentity, face: FaceId, time: nat)
    requires t.window != [] && t.known.Some? && t.known.value.face != face
    ensures var r, wins := ResolveTrack(t, Vote(face, time)), if t.candidate == Some(face) then t.wins + 1 else 1;
            && r.track.window != []
            && if wins < 3
               then r.track.known == t.known && r.track.epoch == t.epoch && r.track.candidate == Some(face)
                    && r.track.wins == wins && !r.decision.reset
               else r.track.known.Some? && r.track.known.value.face == face && r.track.epoch == t.epoch + 1
                    && r.decision.reset && r.decision.transition == ToKnown
  {
    VoteKeepsWindow(t, Vote(face, time));
  }

  /** Evidence names Ann once and then Bob three times. */
  function Swapped(): seq<Action> {
    [OnEvidence(7, 1, 0, 0, Vote("Ann", 0), true), OnEvidence(7, 2, 0, 0, Vote("Bob", 1), true),
     OnEvidence(7, 3, 0, 0, Vote("Bob", 2), true), OnEvidence(7, 4, 0, 0, Vote("Bob", 3), true)]
  }

  lemma EvidenceOnly(cfg: Config, run: seq<Action>, t: nat)
    requires cfg.capacity >= 1 && forall i :: 0 <= i < |run| ==> run[i].OnEvidence?
    ensures !Forgotten(cfg, run, t) && NoReuse(cfg, run, t)
  {
    if run == [] {
    } else {
      EvidenceOnly(cfg, run[..|run| - 1], t);
    }
  }

  lemma SwapHolds(cfg: Config, s: System, a: Action, b: Action, c: Action)
    requires cfg.capacity >= 1 && Holds(s, 7, 1, "Ann")
    requires s.identities[7].window != [] && s.identities[7].candidate.None?
    requires a.OnEvidence? && a.tracker == 7 && a.x == Vote("Bob", 1)
    requires b.OnEvidence? && b.tracker == 7 && b.x == Vote("Bob", 2)
    requires c.OnEvidence? && c.tracker == 7 && c.x == Vote("Bob", 3)
    ensures var s2 := Next(cfg, Next(cfg, s, a), b);
            && Holds(Next(cfg, s2, c), 7, 2, "Bob")
            && Resolved(s2, c).decision.reset && Resolved(s2, c).decision.transition == ToKnown
  {
    var s1 := Next(cfg, s, a);
    var s2 := Next(cfg, s1, b);
    OtherVote(Track(s, 7), "Bob", 1);
    TrackAfterEvidence(cfg, s, a, 7);
    OtherVote(Track(s1, 7), "Bob", 2);
    TrackAfterEvidence(cfg, s1, b, 7);
    OtherVote(Track(s2, 7), "Bob", 3);
    TrackAfterEvidence(cfg, s2, c, 7);
  }

  lemma AnnIsHeld(cfg: Config, a: Action)
    requires cfg.capacity >= 1 && a.OnEvidence? && a.tracker == 7 && a.x == Vote("Ann", 0)
    ensures var s := Next(cfg, START, a);
            Holds(s, 7, 1, "Ann") && s.identities[7].window != [] && s.identities[7].candidate.None?
  {
    FirstVote("Ann", 0);
    ResolveHasShape(FRESH, Vote("Ann", 0));
  }

  lemma ExecFour(cfg: Config, run: seq<Action>)
    requires cfg.capacity >= 1 && |run| == 4
    ensures Exec(cfg, run[..3]) == Next(cfg, Next(cfg, Next(cfg, START, run[0]), run[1]), run[2])
    ensures Exec(cfg, run) == Next(cfg, Exec(cfg, run[..3]), run[3])
  {
    ExecNext(cfg, run, 0);
    ExecNext(cfg, run, 1);
    ExecNext(cfg, run, 2);
    ExecNext(cfg, run, 3);
    assert run[..0] == [] && run[..4] == run;
  }

  lemma ExecNext(cfg: Config, run: seq<Action>, i: nat)
    requires cfg.capacity >= 1 && i < |run|
    ensures Exec(cfg, run[..i + 1]) == Next(cfg, Exec(cfg, run[..i]), run[i])
  {
    var head := run[..i + 1];
    assert head[..|head| - 1] == run[..i] && head[|head| - 1] == run[i];
  }

  lemma LastSwaps(cfg: Config, run: seq<Action>, t: nat)
    requires cfg.capacity >= 1 && run != [] && Concerns(run[|run| - 1], t)
    requires var d := Resolved(Exec(cfg, run[..|run| - 1]), run[|run| - 1]).decision; d.reset && d.transition == ToKnown
    ensures OpenedBySwap(cfg, run, t)
  {
  }

  /** A run that ends in a replacement: the service holds Bob in epoch 2, which native will not reach. */
  lemma SwapIsNotShown(cfg: Config)
    requires cfg.capacity >= 1
    ensures var run := Swapped();
            && NoReuse(cfg, run, 7) && OpenedBySwap(cfg, run, 7) && Holds(Exec(cfg, run), 7, 2, "Bob")
            && OnceSettled(Project(cfg, Exec(cfg, run), 7)).epoch < 2
  {
    SwapHappens(cfg, Swapped());
    SwapIsLost(cfg, Swapped());
  }

  lemma SwapHappens(cfg: Config, run: seq<Action>)
    requires cfg.capacity >= 1 && run == Swapped()
    ensures OpenedBySwap(cfg, run, 7) && Holds(Exec(cfg, run), 7, 2, "Bob")
  {
    ExecFour(cfg, run);
    AnnIsHeld(cfg, run[0]);
    SwapHolds(cfg, Next(cfg, START, run[0]), run[1], run[2], run[3]);
    LastSwaps(cfg, run, 7);
  }

  lemma SwapIsLost(cfg: Config, run: seq<Action>)
    requires cfg.capacity >= 1 && OpenedBySwap(cfg, run, 7) && Holds(Exec(cfg, run), 7, 2, "Bob")
    requires forall i :: 0 <= i < |run| ==> run[i].OnEvidence?
    ensures NoReuse(cfg, run, 7) && OnceSettled(Project(cfg, Exec(cfg, run), 7)).epoch < 2
  {
    EvidenceOnly(cfg, run, 7);
    ReplacementNeverReachesNative(cfg, run, 7);
  }

  lemma AnnIsQueued(cfg: Config) returns (a: Assignment)
    requires cfg.capacity >= 1
    ensures var s := Next(cfg, START, ReusedId()[0]);
            && s.queue == [a] && s.stops == [] && s.wire == [] && s.native == START.native
            && s.events.pending == map[] && Holds(s, 7, 1, "Ann")
    ensures a.tracker == 7 && a.generation == cfg.generation && Says(a, 1, 1, SayKnown, Some("Ann"))
  {
    FirstVote("Ann", 0);
    var first := ReusedId()[0];
    a := Stamp(cfg.settings, EMPTY, EventOf(cfg, first), Resolved(START, first).decision, SayKnown);
    assert Emitted(EvidenceEvents(cfg, START, first)) == [a];
    assert [a][..0] == [] && PutAll([], [], cfg.capacity) == [];
  }

  lemma AnnIsShown(cfg: Config, s: System, a: Assignment)
    requires cfg.capacity >= 1 && s.queue == [a] && s.stops == [] && s.wire == [] && s.native == START.native
    requires a.tracker == 7 && a.generation == cfg.generation && Says(a, 1, 1, SayKnown, Some("Ann"))
    ensures var r := Next(cfg, Next(cfg, s, Send), Deliver); Shows(r, 7, 1, "Ann") && r.events == s.events
  {
    assert Next(cfg, s, Send).wire == [Assign(a)];
  }

  lemma BobIsHeld(cfg: Config, s: System)
    requires cfg.capacity >= 1 && s.events.pending == map[]
    ensures var r := Next(cfg, s, ReusedId()[3]);
            && Forgets(cfg, s, ReusedId()[3], 7)
            && Holds(Next(cfg, r, ReusedId()[4]), 7, 1, "Bob")
            && Next(cfg, r, ReusedId()[4]).native == s.native
  {
    FirstVote("Bob", 1);
  }

  lemma ExecFive(cfg: Config, run: seq<Action>)
    requires cfg.capacity >= 1 && |run| == 5
    ensures Exec(cfg, run[..1]) == Next(cfg, START, run[0])
    ensures Exec(cfg, run[..3]) == Next(cfg, Next(cfg, Exec(cfg, run[..1]), run[1]), run[2])
    ensures Exec(cfg, run[..4]) == Next(cfg, Exec(cfg, run[..3]), run[3])
    ensures Exec(cfg, run[..5]) == Next(cfg, Exec(cfg, run[..4]), run[4]) && run[..5] == run
    ensures Forgets(cfg, Exec(cfg, run[..3]), run[3], 7) ==> Forgotten(cfg, run[..4], 7)
    ensures Forgotten(cfg, run[..4], 7) && Concerns(run[4], 7) ==> !NoReuse(cfg, run, 7)
  {
    assert run[..5][..4] == run[..4] && run[..4][..3] == run[..3];
    assert run[..3][..2] == run[..2] && run[..2][..1] == run[..1] && run[..1][..0] == [];
  }

  /** Without that condition one epoch can carry two faces, and native goes on showing the wrong one. */
  lemma ReuseBreaksLabelSafety(cfg: Config)
    requires cfg.capacity >= 1
    ensures var run := ReusedId();
            && !NoReuse(cfg, run, 7)
            && HoldsAt(cfg, run, 1, 7, 1, "Ann") && HoldsAt(cfg, run, 5, 7, 1, "Bob")
            && Shows(Exec(cfg, run), 7, 1, "Ann")
  {
    var run := ReusedId();
    ExecFive(cfg, run);
    var a := AnnIsQueued(cfg);
    AnnIsShown(cfg, Exec(cfg, run[..1]), a);
    BobIsHeld(cfg, Exec(cfg, run[..3]));
  }
}

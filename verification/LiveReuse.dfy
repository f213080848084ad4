/** Exactly when a tracker id that the service has forgotten may come back without breaking label safety. */
module LiveReuse {
  import opened Common
  import opened LiveIdentity
  import opened LiveEvents
  import opened NativeIdentity
  import opened LiveSystem
  import opened LiveProjection
  import opened LiveSafety
  import opened LiveAgreement

  // ----- what a left-over assignment can do

  /** Native is in its first epoch and holds no face. */
  predicate Blank(n: NativeState) { n.epoch == 1 && n.state != Known }

  /** A blank native stays blank: it takes an "unknown" of its own epoch and refuses a "known" of a later one. */
  predicate Harmless(a: Assignment) {
    (a.word == SayUnknown && a.epoch <= 1) || (a.word == SayKnown && a.epoch >= 2)
  }

  /** What every assignment on its way satisfies. */
  predicate Legal(a: Assignment) {
    a.epoch >= 1 && a.word != Illegal && (a.word == SayKnown ==> a.face.Some?)
  }

  lemma BlankStaysExactlyIfHarmless(n: NativeState, a: Assignment)
    requires Blank(n) && Legal(a) && a.revision > n.revision
    ensures Blank(Apply(n, a)) <==> Harmless(a)
  {
  }

  /** Native is blank, and everything under way leaves it so. */
  ghost predicate Clean(v: View) {
    Blank(v.native) && forall i :: 0 <= i < |InFlight(v)| ==> Harmless(InFlight(v)[i])
  }

  // ----- everything on its way is legal

  ghost predicate LegalView(v: View) {
    && v.track.epoch >= 1 && (v.track.known.Some? ==> v.track.window != [])
    && (v.pend.Some? ==> v.pend.value.epoch >= 1)
    && (forall i :: 0 <= i < |InFlight(v)| ==> Legal(InFlight(v)[i]))
    && v.native.epoch >= 1
  }

  lemma DecidesLegal(cfg: Config, v: View, v': View, r: Outcome, emits: bool)
    requires LegalView(v) && Decides(cfg, v, v', r, emits)
    requires Shape(v.track, r) && (r.track.known.Some? ==> r.track.window != [])
    ensures LegalView(v')
  {
    forall i | 0 <= i < |InFlight(v')| ensures Legal(InFlight(v')[i]) {
      InFlightParts(v', i);
      if i < |InFlight(v)| { InFlightParts(v, i); assert Legal(InFlight(v)[i]); }
    }
  }

  lemma ExpiresLegal(cfg: Config, v: View, v': View, done: bool, emits: bool)
    requires LegalView(v) && Expires(cfg, v, v', done, emits)
    ensures LegalView(v')
  {
    forall i | 0 <= i < |InFlight(v')| ensures Legal(InFlight(v')[i]) {
      InFlightParts(v', i);
      if i < |InFlight(v)| { InFlightParts(v, i); assert Legal(InFlight(v)[i]); }
    }
  }

  lemma MovesLegal(v: View, v': View)
    requires LegalView(v) && Moves(v, v')
    ensures LegalView(v')
  {
    var w, w' := InFlight(v), InFlight(v');
    if Loses(v, v') {
      assert forall i :: 0 <= i < |w'| ==> w'[i] == w[i];
    } else if Sends(v, v') {
      assert w' == w;
    } else if Delivers(v, v') {
      assert w' == w[1..] && w[0] == v.wire[0];
      assert Legal(w[0]);
    }
  }

  lemma NextLegal(cfg: Config, s: System, a: Action, t: nat)
    requires cfg.capacity >= 1 && Sound(cfg, s) && LegalView(Project(cfg, s, t))
    ensures LegalView(Project(cfg, Next(cfg, s, a), t))
  {
    var v, v' := Project(cfg, s, t), Project(cfg, Next(cfg, s, a), t);
    assert Ordered(cfg, v);
    if Concerns(a, t) {
      EvidenceProjects(cfg, s, a, t);
      ResolveHasShape(v.track, a.x);
      DecidesLegal(cfg, v, v', Resolved(s, a), Emitted(EvidenceEvents(cfg, s, a)) != []);
    } else if a.OnExpired? && a.tracker == t {
      ExpiryProjects(cfg, s, a, t);
      var step := ExpiredEvents(cfg, s, a);
      ExpiresLegal(cfg, v, v', step.reply.Commands?, Emitted(step) != []);
    } else {
      OtherProjects(cfg, s, a, t);
      MovesLegal(v, v');
    }
  }

  /** In every run, ids reused or not. */
  lemma {:induction false} RunsAreLegal(cfg: Config, run: seq<Action>, t: nat)
    requires cfg.capacity >= 1
    ensures LegalView(Project(cfg, Exec(cfg, run), t))
  {
    if run == [] {
    } else {
      RunsAreLegal(cfg, run[..|run| - 1], t);
      RunsAreSound(cfg, run[..|run| - 1]);
      NextLegal(cfg, Exec(cfg, run[..|run| - 1]), run[|run| - 1], t);
    }
  }

  // ----- a forgotten id has nothing pending

  lemma IdentitiesOfOthers(cfg: Config, s: System, a: Action, t: nat)
    requires cfg.capacity >= 1 && !Concerns(a, t) && !(a.OnExpired? && a.tracker == t)
    ensures t in Next(cfg, s, a).identities <==> t in s.identities
  {
  }

  lemma ExpiryClearsPending(cfg: Config, s: System, a: Action, t: nat)
    requires cfg.capacity >= 1 && Sound(cfg, s) && a.OnExpired? && a.tracker == t
    ensures Project(cfg, Next(cfg, s, a), t).pend.None?
  {
    assert Ordered(cfg, Project(cfg, s, t));
    ExpiryProjects(cfg, s, a, t);
  }

  lemma OthersKeepPending(cfg: Config, s: System, a: Action, t: nat)
    requires cfg.capacity >= 1 && Sound(cfg, s) && !Concerns(a, t) && !(a.OnExpired? && a.tracker == t)
    ensures Project(cfg, Next(cfg, s, a), t).pend == Project(cfg, s, t).pend
  {
    OtherProjects(cfg, s, a, t);
  }

  lemma AbsentStep(cfg: Config, s: System, a: Action, t: nat)
    requires cfg.capacity >= 1 && Sound(cfg, s)
    requires t !in s.identities ==> Project(cfg, s, t).pend.None?
    ensures t !in Next(cfg, s, a).identities ==> Project(cfg, Next(cfg, s, a), t).pend.None?
  {
    if a.OnExpired? && a.tracker == t {
      ExpiryClearsPending(cfg, s, a, t);
    } else if !Concerns(a, t) {
      IdentitiesOfOthers(cfg, s, a, t);
      OthersKeepPending(cfg, s, a, t);
    }
  }

  lemma {:induction false} AbsentHasNothingPending(cfg: Config, run: seq<Action>, t: nat)
    requires cfg.capacity >= 1
    ensures t !in Exec(cfg, run).identities ==> Project(cfg, Exec(cfg, run), t).pend.None?
  {
    if run == [] {
    } else {
      AbsentHasNothingPending(cfg, run[..|run| - 1], t);
      RunsAreSound(cfg, run[..|run| - 1]);
      AbsentStep(cfg, Exec(cfg, run[..|run| - 1]), run[|run| - 1], t);
    }
  }

  // ----- sufficiency

  /** Every (epoch, face) decided for `t` from position `k` on. */
  function DecidedSince(cfg: Config, run: seq<Action>, k: nat, t: nat): set<(nat, FaceId)>
    requires cfg.capacity >= 1 && k <= |run|
    decreases |run|
  {
    if k == |run| then {}
    else
      var init, a := run[..|run| - 1], run[|run| - 1];
      DecidedSince(cfg, init, k, t) + if Concerns(a, t) then Adds(Resolved(Exec(cfg, init), a)) else {}
  }

  /** From position `k` on the track of `t` does not expire. */
  predicate KeptSince(cfg: Config, run: seq<Action>, k: nat, t: nat)
    requires cfg.capacity >= 1 && k <= |run|
    decreases |run|
  {
    k == |run| || (KeptSince(cfg, run[..|run| - 1], k, t)
                   && !Forgets(cfg, Exec(cfg, run[..|run| - 1]), run[|run| - 1], t))
  }

  /**
    Label safety of the life of `t` that begins at `k`: native is in no newer epoch than the service, a face
    it shows was decided since, and no epoch has two faces.
  */
  ghost predicate LabelSafeSince(cfg: Config, run: seq<Action>, k: nat, t: nat)
    requires cfg.capacity >= 1 && k <= |run|
  {
    var n, decided := NativeOf(Exec(cfg, run), t), DecidedSince(cfg, run, k, t);
    && SafeNative(n, Track(Exec(cfg, run), t).epoch, decided)
    && forall p, q :: p in decided && q in decided && p.0 == q.0 ==> p.1 == q.1
  }

  /** The first `n` in flight are left over and harmless, and native is blank while there are any. */
  ghost predicate SafeBehind(v: View, last: TrackIdentity, decided: set<(nat, FaceId)>, n: nat) {
    && SafeTrack(last, decided)
    && (v.pend.Some? ==> v.pend.value.epoch <= last.epoch)
    && SafeNative(v.native, last.epoch, decided)
    && n <= |InFlight(v)| && (n > 0 ==> Blank(v.native))
    && (forall i :: 0 <= i < n ==> Harmless(InFlight(v)[i]))
    && (forall i :: n <= i < |InFlight(v)| ==> Justified(InFlight(v)[i], last.epoch, decided))
  }

  lemma CleanIsSafe(v: View)
    requires Clean(v) && v.track == FRESH && v.pend.None?
    ensures SafeBehind(v, FRESH, {}, |InFlight(v)|)
  {
  }

  lemma DecidesBehind(cfg: Config, v: View, v': View, r: Outcome, emits: bool, decided: set<(nat, FaceId)>, n: nat)
    requires SafeBehind(v, v.track, decided, n) && Decides(cfg, v, v', r, emits)
    requires Shape(v.track, r) && (r.track.known.Some? ==> r.track.window != [])
    ensures SafeBehind(v', v'.track, decided + Adds(r), if emits && n > |v.wire| then |v.wire| else n)
  {
    var n' := if emits && n > |v.wire| then |v.wire| else n;
    SafeTrackStep(v.track, r, decided);
    forall i | 0 <= i < |InFlight(v')|
      ensures if i < n' then Harmless(InFlight(v')[i])
              else Justified(InFlight(v')[i], v'.track.epoch, decided + Adds(r))
    {
      InFlightParts(v', i);
      if i < |InFlight(v)| {
        InFlightParts(v, i);
        assert if i < n then Harmless(InFlight(v)[i]) else Justified(InFlight(v)[i], v.track.epoch, decided);
      }
    }
  }

  lemma DeliversBehind(v: View, v': View, last: TrackIdentity, decided: set<(nat, FaceId)>, n: nat)
    requires SafeBehind(v, last, decided, n) && Delivers(v, v')
    ensures SafeBehind(v', last, decided, if n == 0 then 0 else n - 1)
  {
    var w, w' := InFlight(v), InFlight(v');
    assert w' == w[1..] && w[0] == v.wire[0];
    if n == 0 { assert Justified(w[0], last.epoch, decided); } else { assert Harmless(w[0]); }
  }

  lemma MovesBehind(v: View, v': View, last: TrackIdentity, decided: set<(nat, FaceId)>, n: nat) returns (n': nat)
    requires SafeBehind(v, last, decided, n) && Moves(v, v')
    ensures SafeBehind(v', last, decided, n') && v'.track == v.track
  {
    n' := n;
    if Loses(v, v') {
      n' := if n > |v.wire| then |v.wire| else n;
      assert forall i :: 0 <= i < |v.wire| ==> InFlight(v')[i] == InFlight(v)[i];
    } else if Sends(v, v') {
      assert InFlight(v') == InFlight(v);
    } else if Delivers(v, v') {
      n' := if n == 0 then 0 else n - 1;
      DeliversBehind(v, v', last, decided, n);
    }
  }

  lemma SafeOwn(cfg: Config, s: System, a: Action, t: nat, decided: set<(nat, FaceId)>, n: nat) returns (n': nat)
    requires cfg.capacity >= 1 && Sound(cfg, s) && Concerns(a, t)
    requires SafeBehind(Project(cfg, s, t), Track(s, t), decided, n)
    ensures var s' := Next(cfg, s, a);
            SafeBehind(Project(cfg, s', t), Track(s', t), decided + Adds(Resolved(s, a)), n')
  {
    var v, v', emits := Project(cfg, s, t), Project(cfg, Next(cfg, s, a), t), Emitted(EvidenceEvents(cfg, s, a)) != [];
    assert Ordered(cfg, v);
    EvidenceProjects(cfg, s, a, t);
    ResolveHasShape(v.track, a.x);
    DecidesBehind(cfg, v, v', Resolved(s, a), emits, decided, n);
    n' := if emits && n > |v.wire| then |v.wire| else n;
  }

  /** An expiry that raised changes no more than the pending entry. */
  lemma SafeRaised(cfg: Config, s: System, a: Action, t: nat, decided: set<(nat, FaceId)>, n: nat)
    requires cfg.capacity >= 1 && Sound(cfg, s) && a.OnExpired? && a.tracker == t && !Forgets(cfg, s, a, t)
    requires SafeBehind(Project(cfg, s, t), Track(s, t), decided, n)
    ensures var s' := Next(cfg, s, a); SafeBehind(Project(cfg, s', t), Track(s', t), decided, n)
  {
    var v, v' := Project(cfg, s, t), Project(cfg, Next(cfg, s, a), t);
    assert Ordered(cfg, v);
    ExpiryProjects(cfg, s, a, t);
    assert InFlight(v') == InFlight(v);
  }

  lemma SafeAction(cfg: Config, s: System, a: Action, t: nat, decided: set<(nat, FaceId)>, n: nat) returns (n': nat)
    requires cfg.capacity >= 1 && Sound(cfg, s) && !Forgets(cfg, s, a, t)
    requires SafeBehind(Project(cfg, s, t), Track(s, t), decided, n)
    ensures var s' := Next(cfg, s, a);
            SafeBehind(Project(cfg, s', t), Track(s', t),
                       decided + if Concerns(a, t) then Adds(Resolved(s, a)) else {}, n')
  {
    assert decided + {} == decided;
    if Concerns(a, t) {
      n' := SafeOwn(cfg, s, a, t, decided, n);
    } else if a.OnExpired? && a.tracker == t {
      SafeRaised(cfg, s, a, t, decided, n);
      n' := n;
    } else {
      OtherProjects(cfg, s, a, t);
      n' := MovesBehind(Project(cfg, s, t), Project(cfg, Next(cfg, s, a), t), Track(s, t), decided, n);
    }
  }

  lemma {:induction false} SafeSince(cfg: Config, run: seq<Action>, k: nat, t: nat) returns (n: nat)
    requires cfg.capacity >= 1 && k <= |run| && KeptSince(cfg, run, k, t)
    requires t !in Exec(cfg, run[..k]).identities && Clean(Project(cfg, Exec(cfg, run[..k]), t))
    ensures SafeBehind(Project(cfg, Exec(cfg, run), t), Track(Exec(cfg, run), t), DecidedSince(cfg, run, k, t), n)
    decreases |run|
  {
    if k == |run| {
      assert run[..k] == run;
      n := |InFlight(Project(cfg, Exec(cfg, run), t))|;
      AbsentHasNothingPending(cfg, run, t);
      CleanIsSafe(Project(cfg, Exec(cfg, run), t));
    } else {
      var init, a := run[..|run| - 1], run[|run| - 1];
      assert init[..k] == run[..k];
      n := SafeSince(cfg, init, k, t);
      RunsAreSound(cfg, init);
      n := SafeAction(cfg, Exec(cfg, init), a, t, DecidedSince(cfg, init, k, t), n);
    }
  }

  /** From a clean state on, until the next expiry, labels are safe, whatever happened before under the same id. */
  lemma CleanReuseIsHarmless(cfg: Config, run: seq<Action>, k: nat, t: nat)
    requires cfg.capacity >= 1 && k <= |run| && KeptSince(cfg, run, k, t)
    requires t !in Exec(cfg, run[..k]).identities && Clean(Project(cfg, Exec(cfg, run[..k]), t))
    ensures LabelSafeSince(cfg, run, k, t)
  {
    var n := SafeSince(cfg, run, k, t);
  }

  // ----- necessity

  /** Native is running and no stop is on its way to it. */
  ghost predicate NoStopUnderWay(s: System) {
    !s.native.stopped && s.stops == [] && forall i :: 0 <= i < |s.wire| ==> s.wire[i].Assign?
  }

  /** Nothing but sending and delivering. */
  ghost predicate OnlyTransport(tail: seq<Action>) {
    forall i :: 0 <= i < |tail| ==> tail[i] == Send || tail[i] == Deliver
  }

  lemma TransportStep(cfg: Config, s: System, a: Action, t: nat)
    requires cfg.capacity >= 1 && NoStopUnderWay(s) && (a == Send || a == Deliver)
    ensures NoStopUnderWay(Next(cfg, s, a)) && Next(cfg, s, a).identities == s.identities
  {
  }

  lemma {:induction false} ExecAppend(cfg: Config, run: seq<Action>, a: Action)
    requires cfg.capacity >= 1
    ensures Exec(cfg, run + [a]) == Next(cfg, Exec(cfg, run), a)
  {
    assert (run + [a])[..|run|] == run;
  }

  /** Delivering the oldest command brings the first in flight to native, or leaves `t` alone. */
  lemma DeliverArrives(cfg: Config, s: System, t: nat)
    requires cfg.capacity >= 1 && Sound(cfg, s) && NoStopUnderWay(s) && s.wire != []
    ensures var v, v' := Project(cfg, s, t), Project(cfg, Next(cfg, s, Deliver), t);
            || (InFlight(v') == InFlight(v) && v'.native == v.native)
            || (InFlight(v) != [] && InFlight(v') == InFlight(v)[1..] && v'.native == Apply(v.native, InFlight(v)[0]))
    ensures |Next(cfg, s, Deliver).wire| == |s.wire| - 1 && Next(cfg, s, Deliver).queue == s.queue
  {
    var v, v' := Project(cfg, s, t), Project(cfg, Next(cfg, s, Deliver), t);
    assert Ordered(cfg, v);
    DeliverProjects(cfg, s, t);
    if Delivers(v, v') {
      assert InFlight(v') == InFlight(v)[1..] && InFlight(v)[0] == v.wire[0];
    }
  }

  lemma SendKeepsInFlight(cfg: Config, s: System, t: nat)
    requires cfg.capacity >= 1 && Sound(cfg, s) && NoStopUnderWay(s) && s.queue != []
    ensures var v, v' := Project(cfg, s, t), Project(cfg, Next(cfg, s, Send), t);
            InFlight(v') == InFlight(v) && v'.native == v.native
    ensures |Next(cfg, s, Send).queue| == |s.queue| - 1 && |Next(cfg, s, Send).wire| == |s.wire| + 1
  {
    SendProjects(cfg, s, t);
  }

  lemma NothingLeft(cfg: Config, s: System, t: nat)
    requires s.wire == [] && s.queue == []
    ensures InFlight(Project(cfg, s, t)) == []
  {
  }

  /** The first `i` in flight can be brought to native by sending and delivering alone. */
  lemma {:induction false} Arrive(cfg: Config, run: seq<Action>, t: nat, i: nat) returns (tail: seq<Action>)
    requires cfg.capacity >= 1 && NoStopUnderWay(Exec(cfg, run))
    requires i <= |InFlight(Project(cfg, Exec(cfg, run), t))|
    ensures var v := Project(cfg, Exec(cfg, run), t);
            && OnlyTransport(tail)
            && NativeOf(Exec(cfg, run + tail), t) == ApplyAll(v.native, InFlight(v)[..i])
            && Exec(cfg, run + tail).identities == Exec(cfg, run).identities
    decreases |Exec(cfg, run).wire| + 2 * |Exec(cfg, run).queue|
  {
    var s := Exec(cfg, run);
    var v := Project(cfg, s, t);
    RunsAreSound(cfg, run);
    if i == 0 {
      tail := [];
      assert run + tail == run && InFlight(v)[..0] == [];
    } else if s.wire != [] {
      DeliverArrives(cfg, s, t);
      TransportStep(cfg, s, Deliver, t);
      ExecAppend(cfg, run, Deliver);
      if InFlight(Project(cfg, Next(cfg, s, Deliver), t)) == InFlight(v) {
        var rest := Arrive(cfg, run + [Deliver], t, i);
        tail := Joined(run, Deliver, rest);
      } else {
        var rest := Arrive(cfg, run + [Deliver], t, i - 1);
        tail := Joined(run, Deliver, rest);
        FirstThenRest(v.native, InFlight(v), i);
      }
    } else if s.queue != [] {
      SendKeepsInFlight(cfg, s, t);
      TransportStep(cfg, s, Send, t);
      ExecAppend(cfg, run, Send);
      var rest := Arrive(cfg, run + [Send], t, i);
      tail := Joined(run, Send, rest);
    } else {
      NothingLeft(cfg, s, t);
      assert false;
    }
  }

  lemma Joined(run: seq<Action>, a: Action, rest: seq<Action>) returns (tail: seq<Action>)
    requires OnlyTransport(rest) && (a == Send || a == Deliver)
    ensures OnlyTransport(tail) && run + tail == run + [a] + rest
  {
    tail := [a] + rest;
  }

  lemma FirstThenRest(n: NativeState, w: seq<Assignment>, i: nat)
    requires 0 < i <= |w|
    ensures ApplyAll(n, w[..i]) == ApplyAll(Apply(n, w[0]), w[1..][..i - 1])
  {
    ApplyAllHead(n, w[..i]);
    assert w[..i][1..] == w[1..][..i - 1];
  }

  /** Harmless left-overs leave a blank native blank, and no newer than what arrived. */
  lemma {:induction false} HarmlessLeaveBlank(n: NativeState, w: seq<Assignment>, i: nat, low: nat, high: nat)
    requires Blank(n) && n.revision <= low && Increasing(low, w, high) && i <= |w|
    requires forall j :: 0 <= j < i ==> Harmless(w[j])
    ensures var r := ApplyAll(n, w[..i]); Blank(r) && (i < |w| ==> r.revision < w[i].revision)
  {
    if i == 0 {
      assert w[..0] == [];
    } else {
      HarmlessLeaveBlank(n, w, i - 1, low, high);
      assert w[..i][..i - 1] == w[..i - 1] && Harmless(w[i - 1]);
      if i < |w| { assert w[i - 1].revision < w[i].revision; }
    }
  }

  lemma FirstHarmful(w: seq<Assignment>) returns (i: nat)
    requires exists j :: 0 <= j < |w| && !Harmless(w[j])
    ensures i < |w| && !Harmless(w[i]) && forall j :: 0 <= j < i ==> Harmless(w[j])
  {
    i := 0;
    while Harmless(w[i])
      invariant i < |w| && forall j :: 0 <= j < i ==> Harmless(w[j])
      invariant exists j :: i <= j < |w| && !Harmless(w[j])
      decreases |w| - i
    {
      i := i + 1;
    }
  }

  /** Once the first harmful left-over has arrived, native is Known or above its first epoch. */
  lemma HarmfulArrives(cfg: Config, v: View, i: nat)
    requires Ordered(cfg, v) && LegalView(v) && Blank(v.native) && i < |InFlight(v)| && !Harmless(InFlight(v)[i])
    requires forall j :: 0 <= j < i ==> Harmless(InFlight(v)[j])
    ensures !Blank(ApplyAll(v.native, InFlight(v)[..i + 1])) && ApplyAll(v.native, InFlight(v)[..i + 1]).epoch >= 1
  {
    var w := InFlight(v);
    HarmlessLeaveBlank(v.native, w, i, v.context, v.revision);
    assert w[..i + 1][..i] == w[..i];
    assert Legal(w[i]);
    BlankStaysExactlyIfHarmless(ApplyAll(v.native, w[..i]), w[i]);
  }

  lemma {:induction false} TransportDecidesNothing(cfg: Config, run: seq<Action>, tail: seq<Action>, t: nat)
    requires cfg.capacity >= 1 && OnlyTransport(tail)
    ensures DecidedSince(cfg, run + tail, |run|, t) == {} && KeptSince(cfg, run + tail, |run|, t)
    decreases |tail|
  {
    if tail == [] {
      assert run + tail == run;
    } else {
      var init := tail[..|tail| - 1];
      assert (run + tail)[..|run + tail| - 1] == run + init;
      TransportDecidesNothing(cfg, run, init, t);
    }
  }

  /** A native that is not blank under an id the service has forgotten is unsafe at once. */
  lemma NotBlankIsUnsafe(cfg: Config, run: seq<Action>, tail: seq<Action>, t: nat)
    requires cfg.capacity >= 1 && OnlyTransport(tail) && t !in Exec(cfg, run + tail).identities
    requires !Blank(NativeOf(Exec(cfg, run + tail), t)) && NativeOf(Exec(cfg, run + tail), t).epoch >= 1
    ensures KeptSince(cfg, run + tail, |run|, t) && !LabelSafeSince(cfg, run + tail, |run|, t)
  {
    TransportDecidesNothing(cfg, run, tail, t);
  }

  /** Unless the state is clean, sending and delivering what is left over breaks label safety. */
  lemma UncleanReuseIsUnsafe(cfg: Config, run: seq<Action>, t: nat) returns (tail: seq<Action>)
    requires cfg.capacity >= 1 && t !in Exec(cfg, run).identities && NoStopUnderWay(Exec(cfg, run))
    requires !Clean(Project(cfg, Exec(cfg, run), t))
    ensures OnlyTransport(tail) && KeptSince(cfg, run + tail, |run|, t) && !LabelSafeSince(cfg, run + tail, |run|, t)
  {
    var v := Project(cfg, Exec(cfg, run), t);
    RunsAreLegal(cfg, run, t);
    RunsAreSound(cfg, run);
    assert Ordered(cfg, v);
    if Blank(v.native) {
      var i := FirstHarmful(InFlight(v));
      HarmfulArrives(cfg, v, i);
      tail := Arrive(cfg, run, t, i + 1);
    } else {
      tail := [];
      assert run + tail == run;
    }
    NotBlankIsUnsafe(cfg, run, tail, t);
  }

  /** Labels are safe in every continuation of `run` in which the track of `t` does not expire again. */
  ghost predicate SafeFromHere(cfg: Config, run: seq<Action>, t: nat)
    requires cfg.capacity >= 1
  {
    forall tail :: KeptSince(cfg, run + tail, |run|, t) ==> LabelSafeSince(cfg, run + tail, |run|, t)
  }

  /**
    A forgotten id may come back exactly when native is blank and everything left over under way is harmless.
    A stop under way only makes it safer: then the condition is sufficient, as `CleanReuseIsHarmless` states.
  */
  lemma ReuseIsSafeExactlyWhenClean(cfg: Config, run: seq<Action>, t: nat)
    requires cfg.capacity >= 1 && t !in Exec(cfg, run).identities && NoStopUnderWay(Exec(cfg, run))
    ensures SafeFromHere(cfg, run, t) <==> Clean(Project(cfg, Exec(cfg, run), t))
  {
    if Clean(Project(cfg, Exec(cfg, run), t)) {
      forall tail | KeptSince(cfg, run + tail, |run|, t) ensures LabelSafeSince(cfg, run + tail, |run|, t) {
        assert (run + tail)[..|run|] == run;
        CleanReuseIsHarmless(cfg, run + tail, |run|, t);
      }
    } else {
      var tail := UncleanReuseIsUnsafe(cfg, run, t);
    }
  }
}

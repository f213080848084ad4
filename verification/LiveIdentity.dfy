/**
  The identity service of the live pipeline: one small state machine per tracked person that
  turns a stream of gallery votes into known/unknown decisions with hysteresis and an epoch.
  The gallery query and the reference lookup are inputs of each evaluation.
*/
module LiveIdentity {
  import opened Common
  import opened Sorting

  datatype FaceMatch = FaceMatch(face: FaceId, name: string, sample: string, score: real)

  datatype Observation = Observation(timestamp: nat, embedding: Embedding, confidence: real)

  /** What the voter said: it raised, or it answered with or without a match. */
  datatype Query = Failed | Answer(winner: Option<FaceMatch>, score: Option<real>)

  datatype Verdict = Known | Pending | Unknown

  datatype Transition = Stay | ToKnown | ToUnknown

  datatype Decision = Decision(verdict: Verdict, winner: Option<FaceMatch>, nearest: Option<real>, epoch: nat,
                               reset: bool, reference: Option<Embedding>, transition: Transition, sequence: nat)

  datatype TrackIdentity = TrackIdentity(epoch: nat, seen: set<nat>, window: seq<Observation>,
                                         known: Option<FaceMatch>, nearest: Option<real>,
                                         reference: Option<Embedding>, candidate: Option<FaceId>,
                                         wins: nat, rejected: nat, evaluations: nat)

  const FRESH := TrackIdentity(1, {}, [], None, None, None, None, 0, 0, 0)

  const WINDOW: nat := 5

  datatype Outcome = Outcome(track: TrackIdentity, decision: Decision)

  predicate Earlier(a: Observation, b: Observation) { a.timestamp < b.timestamp }

  function Current(t: TrackIdentity): Decision {
    Decision(if t.known.Some? then Known else Pending, t.known, t.nearest, t.epoch, false, t.reference, Stay,
             t.evaluations)
  }

  // ----- the observation window

  /** The observations of `batch` whose timestamps are new, first occurrences only. */
  function FreshOnes(seen: set<nat>, batch: seq<Observation>): seq<Observation>
    decreases |batch|
  {
    if batch == [] then []
    else if batch[0].timestamp in seen then FreshOnes(seen, batch[1..])
    else [batch[0]] + FreshOnes(seen + {batch[0].timestamp}, batch[1..])
  }

  function SeenAll(seen: set<nat>, batch: seq<Observation>): set<nat>
    decreases |batch|
  {
    if batch == [] then seen else SeenAll(seen + {batch[0].timestamp}, batch[1..])
  }

  function Accept(t: TrackIdentity, batch: seq<Observation>): TrackIdentity {
    var sorted := StableSort(Earlier, batch);
    t.(window := LastN(t.window + FreshOnes(t.seen, sorted), WINDOW), seen := SeenAll(t.seen, sorted))
  }

  /** Truncating after every append gives the same window as truncating once at the end. */
  lemma LastNAbsorbs<T>(a: seq<T>, b: seq<T>, n: nat)
    ensures LastN(LastN(a, n) + b, n) == LastN(a + b, n)
  {
  }

  function Push(window: seq<Observation>, seen: set<nat>, o: Observation): seq<Observation> {
    if o.timestamp in seen then window else LastN(window + [o], WINDOW)
  }

  lemma PushAhead(window: seq<Observation>, seen: set<nat>, rest: seq<Observation>)
    requires rest != []
    ensures LastN(window + FreshOnes(seen, rest), WINDOW)
         == LastN(Push(window, seen, rest[0]) + FreshOnes(seen + {rest[0].timestamp}, rest[1..]), WINDOW)
  {
    var o := rest[0];
    if o.timestamp in seen {
      assert seen + {o.timestamp} == seen;
    } else {
      var tail := FreshOnes(seen + {o.timestamp}, rest[1..]);
      assert window + ([o] + tail) == window + [o] + tail;
      LastNAbsorbs(window + [o], tail, WINDOW);
    }
  }

  /** The append-and-pop loop over one batch computes `Accept`. */
  method AcceptNewObservations(t: TrackIdentity, batch: seq<Observation>) returns (r: TrackIdentity)
    requires |t.window| <= WINDOW
    ensures r == Accept(t, batch)
  {
    var rest := StableSort(Earlier, batch);
    var window, seen := t.window, t.seen;
    ghost var goal, all := LastN(t.window + FreshOnes(t.seen, rest), WINDOW), SeenAll(t.seen, rest);
    while rest != []
      invariant |window| <= WINDOW
      invariant LastN(window + FreshOnes(seen, rest), WINDOW) == goal && SeenAll(seen, rest) == all
      decreases |rest|
    {
      var observation := rest[0];
      PushAhead(window, seen, rest);
      if observation.timestamp !in seen {
        window := window + [observation];
        if |window| > WINDOW {
          window := window[1..];
        }
      }
      seen := seen + {observation.timestamp};
      rest := rest[1..];
    }
    assert window + [] == window;
    r := t.(window := window, seen := seen);
  }

  // ----- one evaluation

  function OnNoMatch(t: TrackIdentity, score: Option<real>): Outcome {
    var u := t.(nearest := score, candidate := None, wins := 0, rejected := t.rejected + 1);
    if u.known.Some? && u.rejected >= 3 then
      var d := u.(epoch := u.epoch + 1, known := None, reference := None, rejected := 0);
      Outcome(d, Decision(Unknown, None, score, d.epoch, true, None, ToUnknown, d.evaluations))
    else
      Outcome(u, Current(u))
  }

  function OnMatch(t: TrackIdentity, m: FaceMatch, score: Option<real>, lookup: Option<Embedding>): Outcome {
    var u := t.(nearest := score, rejected := 0);
    if u.known.Some? && u.known.value.face == m.face then
      var v := u.(candidate := None, wins := 0);
      Outcome(v, Current(v))
    else
      var v := if u.known.None? then u
               else if u.candidate == Some(m.face) then u.(wins := u.wins + 1)
               else u.(candidate := Some(m.face), wins := 1);
      if (v.known.Some? && v.wins < 3) || lookup.None? then
        Outcome(v, Current(v))
      else
        var replacing := v.known.Some?;
        var w := v.(epoch := if replacing then v.epoch + 1 else v.epoch, known := Some(m), reference := lookup,
                    candidate := None, wins := 0);
        Outcome(w, Decision(Known, Some(m), score, w.epoch, replacing, lookup, ToKnown, w.evaluations))
  }

  datatype Evaluation = Evaluation(batch: seq<Observation>, query: Query, lookup: Option<Embedding>)

  function ResolveTrack(t: TrackIdentity, x: Evaluation): Outcome {
    var u := Accept(t, x.batch).(evaluations := t.evaluations + 1);
    if u.window == [] then
      Outcome(u, Decision(Pending, None, None, u.epoch, false, None, Stay, u.evaluations))
    else
      match x.query
      case Failed => Outcome(u, Current(u))
      case Answer(None, score) => OnNoMatch(u, score)
      case Answer(Some(m), score) => OnMatch(u, m, score, x.lookup)
  }

  datatype TrackKey = TrackKey(camera: string, run: string, generation: nat, tracker: nat)

  class LiveIdentityService {
    var tracks: map<TrackKey, TrackIdentity>

    ghost predicate Valid()
      reads this
    {
      forall key :: key in tracks ==> |tracks[key].window| <= WINDOW
    }

    constructor ()
      ensures Valid() && tracks == map[]
    {
      tracks := map[];
    }

    method Resolve(key: TrackKey, x: Evaluation) returns (decision: Decision)
      requires Valid()
      modifies this
      ensures Valid()
      ensures tracks == old(tracks)[key := ResolveTrack(Get(old(tracks), key, FRESH), x).track]
      ensures decision == ResolveTrack(Get(old(tracks), key, FRESH), x).decision
    {
      var state := Get(tracks, key, FRESH);
      state := AcceptNewObservations(state, x.batch);
      state := state.(evaluations := state.evaluations + 1);
      decision := Current(state);
      if state.window == [] {
        decision := Decision(Pending, None, None, state.epoch, false, None, Stay, state.evaluations);
      } else if x.query.Answer? {
        state := state.(nearest := x.query.score);
        if x.query.winner.None? {
          state := state.(candidate := None, wins := 0, rejected := state.rejected + 1);
          decision := Current(state);
          if state.known.Some? && state.rejected >= 3 {
            state := state.(epoch := state.epoch + 1, known := None, reference := None, rejected := 0);
            decision := Decision(Unknown, None, x.query.score, state.epoch, true, None, ToUnknown, state.evaluations);
          }
        } else {
          var m := x.query.winner.value;
          state := state.(rejected := 0);
          if state.known.Some? && state.known.value.face == m.face {
            state := state.(candidate := None, wins := 0);
            decision := Current(state);
          } else {
            if state.known.Some? {
              if state.candidate == Some(m.face) {
                state := state.(wins := state.wins + 1);
              } else {
                state := state.(candidate := Some(m.face), wins := 1);
              }
            }
            decision := Current(state);
            if (state.known.None? || state.wins >= 3) && x.lookup.Some? {
              var replacing := state.known.Some?;
              if replacing {
                state := state.(epoch := state.epoch + 1);
              }
              state := state.(known := Some(m), reference := x.lookup, candidate := None, wins := 0);
              decision := Decision(Known, Some(m), x.query.score, state.epoch, replacing, x.lookup, ToKnown,
                                   state.evaluations);
            }
          }
        }
      }
      tracks := tracks[key := state];
    }

    method Expire(key: TrackKey)
      requires Valid()
      modifies this
      ensures Valid() && tracks == old(tracks) - {key}
    {
      tracks := tracks - {key};
    }
  }

  // ----- whole histories of one track

  function TrackAfter(h: seq<Evaluation>): (t: TrackIdentity) {
    if h == [] then FRESH else ResolveTrack(TrackAfter(h[..|h| - 1]), h[|h| - 1]).track
  }

  function DecisionAt(h: seq<Evaluation>, i: nat): Decision
    requires i < |h|
  {
    ResolveTrack(TrackAfter(h[..i]), h[i]).decision
  }

  /** Every observation ever accepted for the track, in acceptance order. */
  function Accepted(h: seq<Evaluation>): seq<Observation> {
    if h == [] then []
    else
      var init := h[..|h| - 1];
      Accepted(init) + FreshOnes(TrackAfter(init).seen, StableSort(Earlier, h[|h| - 1].batch))
  }

  lemma VoteKeepsWindow(t: TrackIdentity, x: Evaluation)
    ensures ResolveTrack(t, x).track.window == Accept(t, x.batch).window
    ensures ResolveTrack(t, x).track.seen == Accept(t, x.batch).seen
  {
  }

  /** The window is the last five of all accepted observations, however they were batched. */
  lemma {:induction false} WindowIsLastFiveAccepted(h: seq<Evaluation>)
    ensures TrackAfter(h).window == LastN(Accepted(h), WINDOW)
  {
    if h == [] {
    } else {
      var init, x := h[..|h| - 1], h[|h| - 1];
      WindowIsLastFiveAccepted(init);
      var t := TrackAfter(init);
      VoteKeepsWindow(t, x);
      LastNAbsorbs(Accepted(init), FreshOnes(t.seen, StableSort(Earlier, x.batch)), WINDOW);
    }
  }

  /** A vote counts when the window is not empty and the query answered. */
  predicate Counts(t: TrackIdentity, x: Evaluation) {
    Accept(t, x.batch).window != [] && x.query.Answer?
  }

  function VotedFor(x: Evaluation): Option<FaceId>
    requires x.query.Answer?
  {
    if x.query.winner.Some? then Some(x.query.winner.value.face) else None
  }

  /** The votes of a history that count, oldest first; failed queries leave no trace. */
  function Votes(h: seq<Evaluation>): seq<Option<FaceId>> {
    if h == [] then []
    else
      var init, x := h[..|h| - 1], h[|h| - 1];
      Votes(init) + if Counts(TrackAfter(init), x) then [VotedFor(x)] else []
  }

  /** How many of the newest votes in a row are equal to `v`. */
  function Streak(votes: seq<Option<FaceId>>, v: Option<FaceId>): nat {
    if votes == [] || votes[|votes| - 1] != v then 0 else Streak(votes[..|votes| - 1], v) + 1
  }

  lemma StreakAppend(votes: seq<Option<FaceId>>, x: Option<FaceId>, v: Option<FaceId>)
    ensures Streak(votes + [x], v) == if x == v then Streak(votes, v) + 1 else 0
  {
    assert (votes + [x])[..|votes|] == votes;
  }

  /** What the counters mean: while a face is held they are lengths of streaks of counted votes. */
  ghost predicate CountersAreStreaks(t: TrackIdentity, votes: seq<Option<FaceId>>) {
    && t.epoch >= 1
    && (t.candidate.Some? ==>
          && t.known.Some? && t.candidate.value != t.known.value.face
          && t.wins == Streak(votes, t.candidate) >= 1)
    && (t.known.Some? ==>
          && t.reference.Some?
          && t.rejected == Streak(votes, None)
          && (t.candidate.None? ==> votes != [] && votes[|votes| - 1] in {None, Some(t.known.value.face)}))
  }

  lemma CountersStep(t: TrackIdentity, votes: seq<Option<FaceId>>, x: Evaluation)
    requires CountersAreStreaks(t, votes)
    ensures CountersAreStreaks(ResolveTrack(t, x).track, if Counts(t, x) then votes + [VotedFor(x)] else votes)
  {
    if Counts(t, x) {
      var v := VotedFor(x);
      StreakAppend(votes, v, None);
      StreakAppend(votes, v, v);
      if t.candidate.Some? { StreakAppend(votes, v, t.candidate); }
      if t.candidate.None? && t.known.Some? && v.Some? && v.value != t.known.value.face {
        assert Streak(votes, v) == 0;
      }
    }
  }

  lemma {:induction false} CountersInHistory(h: seq<Evaluation>)
    ensures CountersAreStreaks(TrackAfter(h), Votes(h))
  {
    if h == [] {
    } else {
      var init := h[..|h| - 1];
      CountersInHistory(init);
      CountersStep(TrackAfter(init), Votes(init), h[|h| - 1]);
      assert Votes(init) + [] == Votes(init);
    }
  }

  /** One more evaluation makes three successive no-match votes against a held face. */
  ghost predicate Drops(t: TrackIdentity, votes: seq<Option<FaceId>>, x: Evaluation) {
    && t.known.Some? && Counts(t, x) && VotedFor(x).None?
    && Streak(votes, None) >= 2
  }

  /** It makes at least three successive votes for one other face, whose reference is available. */
  ghost predicate Supersedes(t: TrackIdentity, votes: seq<Option<FaceId>>, x: Evaluation) {
    && t.known.Some? && Counts(t, x) && VotedFor(x).Some? && VotedFor(x).value != t.known.value.face
    && Streak(votes, VotedFor(x)) >= 2
    && x.lookup.Some?
  }

  /** Nothing is held and a counted vote names a face whose reference is available. */
  ghost predicate Acquires(t: TrackIdentity, x: Evaluation) {
    t.known.None? && Counts(t, x) && VotedFor(x).Some? && x.lookup.Some?
  }

  ghost predicate Hysteresis(t: TrackIdentity, votes: seq<Option<FaceId>>, x: Evaluation, r: Outcome) {
    var drops, supersedes, acquires := Drops(t, votes, x), Supersedes(t, votes, x), Acquires(t, x);
    && r.track.epoch == t.epoch + (if drops || supersedes then 1 else 0)
    && r.decision.epoch == r.track.epoch
    && (drops ==> r.track.known.None? && r.decision.transition == ToUnknown && r.decision.winner.None?)
    && (supersedes || acquires ==>
          && r.track.known == x.query.winner == r.decision.winner && r.decision.transition == ToKnown
          && r.decision.reference == x.lookup)
    && (!drops && !supersedes && !acquires ==>
          && r.track.known == t.known && r.decision.transition == Stay && r.decision.winner == t.known)
    && r.decision.reset == (drops || supersedes)
  }

  lemma HysteresisStep(t: TrackIdentity, votes: seq<Option<FaceId>>, x: Evaluation)
    requires CountersAreStreaks(t, votes)
    requires t.window != [] || t.known.None?
    ensures Hysteresis(t, votes, x, ResolveTrack(t, x))
  {
    if Counts(t, x) && x.query.winner.Some? && t.known.Some? && t.candidate.None? {
      assert VotedFor(x).value != t.known.value.face ==> Streak(votes, VotedFor(x)) == 0;
    }
  }

  lemma {:induction false} HeldImpliesWindow(h: seq<Evaluation>)
    ensures TrackAfter(h).known.Some? ==> TrackAfter(h).window != []
  {
    if h == [] {
    } else {
      HeldImpliesWindow(h[..|h| - 1]);
      VoteKeepsWindow(TrackAfter(h[..|h| - 1]), h[|h| - 1]);
    }
  }

  /**
    Hysteresis, for every history and every next evaluation: the epoch rises by one exactly when
    the held face is dropped or replaced, and those happen exactly on the third (or a later)
    successive counted vote, whatever failed queries lie between.
  */
  lemma EpochRisesExactlyOnDropOrReplace(h: seq<Evaluation>, x: Evaluation)
    ensures Hysteresis(TrackAfter(h), Votes(h), x, ResolveTrack(TrackAfter(h), x))
    ensures TrackAfter(h + [x]) == ResolveTrack(TrackAfter(h), x).track
  {
    assert (h + [x])[..|h + [x]| - 1] == h;
    CountersInHistory(h);
    HeldImpliesWindow(h);
    HysteresisStep(TrackAfter(h), Votes(h), x);
  }

  /** The score of the newest counted vote. */
  function LastScore(h: seq<Evaluation>): Option<real> {
    if h == [] then None
    else if Counts(TrackAfter(h[..|h| - 1]), h[|h| - 1]) then h[|h| - 1].query.score
    else LastScore(h[..|h| - 1])
  }

  /** The reference that came with the held face, if any. */
  ghost function HeldReference(h: seq<Evaluation>): Option<Embedding> {
    if h == [] then None
    else
      var init, x := h[..|h| - 1], h[|h| - 1];
      if Drops(TrackAfter(init), Votes(init), x) then None
      else if Supersedes(TrackAfter(init), Votes(init), x) || Acquires(TrackAfter(init), x) then x.lookup
      else HeldReference(init)
  }

  lemma KindsOfTransition(t: TrackIdentity, votes: seq<Option<FaceId>>, x: Evaluation, r: Outcome)
    requires Hysteresis(t, votes, x, r)
    ensures r.decision.transition == ToUnknown <==> Drops(t, votes, x)
    ensures r.decision.transition == ToKnown <==> Supersedes(t, votes, x) || Acquires(t, x)
  {
  }

  lemma TransitionExactly(h: seq<Evaluation>, x: Evaluation)
    ensures var d := ResolveTrack(TrackAfter(h), x).decision;
            && (d.transition == ToUnknown <==> Drops(TrackAfter(h), Votes(h), x))
            && (d.transition == ToKnown <==> Supersedes(TrackAfter(h), Votes(h), x) || Acquires(TrackAfter(h), x))
  {
    EpochRisesExactlyOnDropOrReplace(h, x);
    KindsOfTransition(TrackAfter(h), Votes(h), x, ResolveTrack(TrackAfter(h), x));
  }

  lemma {:induction false} TrackReports(h: seq<Evaluation>)
    ensures var t := TrackAfter(h);
            t.evaluations == |h| && t.nearest == LastScore(h) && t.reference == HeldReference(h)
  {
    if h == [] {
    } else {
      var init, x := h[..|h| - 1], h[|h| - 1];
      TrackReports(init);
      TransitionExactly(init, x);
      ReportsStep(TrackAfter(init), x);
    }
  }

  /** What one evaluation does to the reported fields, by kind of transition. */
  lemma ReportsStep(t: TrackIdentity, x: Evaluation)
    ensures var r := ResolveTrack(t, x);
            && r.track.evaluations == t.evaluations + 1
            && r.track.nearest == (if Counts(t, x) then x.query.score else t.nearest)
            && r.track.reference == (match r.decision.transition
                                     case Stay => t.reference
                                     case ToUnknown => None
                                     case ToKnown => x.lookup)
  {
  }

  lemma DecisionCopies(t: TrackIdentity, x: Evaluation)
    ensures var r := ResolveTrack(t, x);
            && r.decision.sequence == r.track.evaluations
            && (r.track.window != [] ==>
                  r.decision.nearest == r.track.nearest && r.decision.reference == r.track.reference)
            && (r.track.window == [] ==> r.decision.nearest.None? && r.decision.reference.None?)
            && r.decision.verdict == (if r.decision.transition == ToUnknown then Unknown
                                      else if r.decision.winner.Some? then Known else Pending)
  {
  }

  lemma VerdictExactly(t: TrackIdentity, votes: seq<Option<FaceId>>, x: Evaluation, r: Outcome)
    requires Hysteresis(t, votes, x, r)
    requires r.decision.verdict == (if r.decision.transition == ToUnknown then Unknown
                                    else if r.decision.winner.Some? then Known else Pending)
    ensures r.decision.verdict == Unknown <==> Drops(t, votes, x)
    ensures r.decision.verdict == Known <==> r.track.known.Some?
  {
  }

  lemma AfterOneMore(h: seq<Evaluation>, x: Evaluation)
    ensures TrackAfter(h + [x]) == ResolveTrack(TrackAfter(h), x).track
  {
    assert (h + [x])[..|h|] == h;
  }

  /**
    What every decision reports besides the face: how many evaluations there were, the score of the newest
    counted vote, the reference that came with the held face, and "unknown" exactly when a face is dropped.
  */
  lemma DecisionReports(h: seq<Evaluation>, x: Evaluation)
    ensures var d, all := ResolveTrack(TrackAfter(h), x).decision, h + [x];
            && d.sequence == |h| + 1
            && (TrackAfter(all).window != [] ==> d.nearest == LastScore(all) && d.reference == HeldReference(all))
            && (TrackAfter(all).window == [] ==> d.nearest.None? && d.reference.None?)
  {
    AfterOneMore(h, x);
    TrackReports(h + [x]);
    DecisionCopies(TrackAfter(h), x);
  }

  lemma DecisionVerdict(h: seq<Evaluation>, x: Evaluation)
    ensures var r := ResolveTrack(TrackAfter(h), x);
            && (r.decision.verdict == Unknown <==> Drops(TrackAfter(h), Votes(h), x))
            && (r.decision.verdict == Known <==> r.track.known.Some?)
  {
    EpochRisesExactlyOnDropOrReplace(h, x);
    DecisionCopies(TrackAfter(h), x);
    VerdictExactly(TrackAfter(h), Votes(h), x, ResolveTrack(TrackAfter(h), x));
  }

  lemma EpochStep(t: TrackIdentity, x: Evaluation)
    ensures t.epoch <= ResolveTrack(t, x).track.epoch <= t.epoch + 1
    ensures ResolveTrack(t, x).track.epoch == t.epoch && t.known.Some? ==> ResolveTrack(t, x).track.known == t.known
    ensures ResolveTrack(t, x).decision.transition == ToKnown ==>
              && ResolveTrack(t, x).track.known.Some?
              && ResolveTrack(t, x).decision.epoch == ResolveTrack(t, x).track.epoch
              && (t.known.Some? ==> t.epoch < ResolveTrack(t, x).track.epoch)
  {
  }

  lemma {:induction false} EpochMonotone(h: seq<Evaluation>, i: nat)
    requires i <= |h|
    ensures TrackAfter(h[..i]).epoch <= TrackAfter(h).epoch
    ensures TrackAfter(h[..i]).epoch == TrackAfter(h).epoch && TrackAfter(h[..i]).known.Some? ==>
              TrackAfter(h).known == TrackAfter(h[..i]).known
    decreases |h|
  {
    if i == |h| {
      assert h[..i] == h;
    } else {
      var init := h[..|h| - 1];
      assert init[..i] == h[..i];
      EpochMonotone(init, i);
      EpochStep(TrackAfter(init), h[|h| - 1]);
    }
  }

  /** Two known transitions of one track never carry the same epoch. */
  lemma KnownOncePerEpoch(h: seq<Evaluation>, i: nat, j: nat)
    requires i < j < |h|
    requires DecisionAt(h, i).transition == ToKnown && DecisionAt(h, j).transition == ToKnown
    ensures DecisionAt(h, i).epoch < DecisionAt(h, j).epoch
  {
    assert h[..j][..i + 1] == h[..i + 1] && h[..i + 1][..i] == h[..i];
    EpochMonotone(h[..j], i + 1);
    EpochStep(TrackAfter(h[..i]), h[i]);
    EpochStep(TrackAfter(h[..j]), h[j]);
  }
}

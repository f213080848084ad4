/** The native side of an assignment: the per-track identity state and the on-screen display. */
module NativeIdentity {
  import opened Common
  import opened LiveIdentity
  import opened LiveEvents

  datatype NativeState = NativeState(state: Verdict, face: Option<FaceId>, revision: nat, epoch: nat)

  const INITIAL := NativeState(Pending, None, 0, 1)

  /** When `apply` returns true. */
  predicate Accepts(n: NativeState, a: Assignment) {
    && a.revision > n.revision
    && a.epoch >= n.epoch
    && a.word != Illegal
    && (a.epoch > n.epoch ==> a.word == SayUnknown)
    && (a.epoch == n.epoch && n.state == Known ==> a.word == SayKnown && a.face == n.face)
    && (a.word == SayKnown ==> a.face.Some?)
  }

  function Apply(n: NativeState, a: Assignment): NativeState {
    if !Accepts(n, a) then n
    else if a.word == SayKnown then NativeState(Known, a.face, a.revision, a.epoch)
    else NativeState(Unknown, None, a.revision, a.epoch)
  }

  /**
    Which assignments suit what native holds: in a newer epoch only "unknown"; in the same epoch anything while
    no face is held, and only the held face once one is; never an older epoch.
  */
  predicate Fits(n: NativeState, a: Assignment) {
    || (a.epoch > n.epoch && a.word == SayUnknown)
    || (a.epoch == n.epoch && n.state != Known)
    || (a.epoch == n.epoch && n.state == Known && a.word == SayKnown && a.face == n.face)
  }

  class IdentityAssignmentState {
    var state: Verdict
    var face: Option<FaceId>
    var revision: nat
    var epoch: nat

    ghost function Value(): NativeState
      reads this
    {
      NativeState(state, face, revision, epoch)
    }

    constructor ()
      ensures Value() == INITIAL
    {
      state, face, revision, epoch := Pending, None, 0, 1;
    }

    /** Fields are written before the last check; still a refusal changes nothing. */
    method ApplyAssignment(a: Assignment) returns (applied: bool)
      modifies this
      ensures applied == Accepts(old(Value()), a)
      ensures Value() == Apply(old(Value()), a)
      ensures applied <==> a.revision > old(revision) && a.word in {SayKnown, SayUnknown}
                           && Fits(old(Value()), a) && (a.word == SayKnown ==> a.face.Some?)
      ensures applied ==> revision == a.revision && epoch == a.epoch
                          && (a.word == SayKnown ==> state == Known && face == a.face)
                          && (a.word == SayUnknown ==> state == Unknown && face == None)
      ensures !applied ==> Value() == old(Value())
    {
      if a.revision <= revision { return false; }
      if a.epoch < epoch { return false; }
      if a.word != SayKnown && a.word != SayUnknown { return false; }
      if a.epoch > epoch {
        if a.word != SayUnknown { return false; }
        epoch := a.epoch;
        state := Pending;
        face := None;
      }
      if state == Known {
        if a.word != SayKnown || a.face != face { return false; }
      }
      if a.word == SayKnown {
        if a.face.None? { return false; }
        state := Known;
        face := a.face;
      } else {
        state := Unknown;
        face := None;
      }
      revision := a.revision;
      return true;
    }
  }

  // ----- on-screen display

  datatype Entry = Entry(identity: NativeState, name: string, reference: Option<Embedding>,
                         threshold: Option<real>, score: Option<real>, visible: bool, high: nat, low: nat)

  const BLANK := Entry(INITIAL, "", None, None, None, false, 0, 0)

  predicate Printable(c: char) { !(c < ' ' || c as int == 0x7F) }

  const NAME_LIMIT: nat := 80

  function SanitizedName(name: Option<string>): string {
    if name.None? then "" else FirstN(Filter(Printable, name.value), NAME_LIMIT)
  }

  lemma {:induction false} FilterPrefix(s: string, i: nat)
    requires i <= |s|
    ensures Filter(Printable, s[..i]) <= Filter(Printable, s)
  {
    assert s == s[..i] + s[i..];
    FilterAppend(Printable, s[..i], s[i..]);
  }

  lemma FilterNext(s: string, i: nat)
    requires i < |s|
    ensures Filter(Printable, s[..i + 1]) == Filter(Printable, s[..i]) + if Printable(s[i]) then [s[i]] else []
  {
    assert s[..i + 1][..i] == s[..i];
  }

  /** The byte loop that stops after eighty kept characters. */
  method SanitizeName(name: Option<string>) returns (result: string)
    ensures result == SanitizedName(name)
    ensures |result| <= 80 && forall c :: c in result ==> c >= ' ' && c as int != 0x7F
  {
    result := "";
    if name.Some? {
      var s := name.value;
      var i := 0;
      while i < |s|
        invariant 0 <= i <= |s|
        invariant result == Filter(Printable, s[..i]) && |result| < NAME_LIMIT
      {
        FilterNext(s, i);
        if Printable(s[i]) {
          result := result + [s[i]];
          if |result| == NAME_LIMIT {
            FilterPrefix(s, i + 1);
            return;
          }
        }
        i := i + 1;
      }
      assert s[..i] == s;
    }
  }

  function OsdApply(e: Entry, a: Assignment): Entry {
    if !Accepts(e.identity, a) then e
    else Entry(Apply(e.identity, a), SanitizedName(a.name), a.reference, a.threshold, None, a.word == SayKnown, 0, 0)
  }

  function Clamp(x: real): real { if x < -1.0 then -1.0 else if x > 1.0 then 1.0 else x }

  function Saturate(n: nat): nat { if n < 3 then n + 1 else 3 }

  /** A frame whose similarity to the reference is `score`. */
  function OsdObserve(e: Entry, score: real): Entry {
    if e.threshold.None? then e
    else if score >= e.threshold.value then
      e.(score := Some(score), low := 0, high := Saturate(e.high),
         visible := if Saturate(e.high) == 3 then true else e.visible)
    else
      e.(score := Some(score), high := 0, low := Saturate(e.low),
         visible := if Saturate(e.low) == 3 then false else e.visible)
  }

  datatype LabelText = PendingLabel | NamedLabel(name: string, score: Option<real>) | UnknownLabel(score: Option<real>)

  class LiveOsdState {
    const generation: nat
    const dimensions: nat
    var entries: map<nat, Entry>

    /** References decoded from the wire all have the embedding's dimension. */
    ghost predicate Valid()
      reads this
    {
      forall t :: t in entries && entries[t].reference.Some? ==> |entries[t].reference.value| == dimensions
    }

    constructor (generation: nat, dimensions: nat)
      ensures Valid() && entries == map[] && this.generation == generation && this.dimensions == dimensions
    {
      this.generation, this.dimensions := generation, dimensions;
      entries := map[];
    }

    method ApplyAssignment(a: Assignment) returns (applied: bool)
      requires Valid()
      requires a.reference.Some? ==> |a.reference.value| == dimensions
      modifies this
      ensures Valid()
      ensures applied == (a.generation == generation && Accepts(Get(old(entries), a.tracker, BLANK).identity, a))
      ensures a.generation != generation ==> entries == old(entries)
      ensures a.generation == generation ==>
                entries == old(entries)[a.tracker := OsdApply(Get(old(entries), a.tracker, BLANK), a)]
    {
      if a.generation != generation { return false; }
      var entry := Get(entries, a.tracker, BLANK);
      entries := entries[a.tracker := entry];
      var name := SanitizeName(a.name);
      if !Accepts(entry.identity, a) { return false; }
      entry := entry.(identity := Apply(entry.identity, a));
      entry := entry.(name := name, reference := a.reference, threshold := a.threshold, score := None);
      entry := entry.(high := 0, low := 0, visible := a.word == SayKnown);
      entries := entries[a.tracker := entry];
      applied := true;
    }

    method Observe(tracker: nat, embedding: Embedding) returns (observed: bool)
      requires Valid() && |embedding| == dimensions
      modifies this
      ensures Valid()
      ensures var e := Get(old(entries), tracker, BLANK);
              && observed == (e.reference.Some? && e.threshold.Some?)
              && entries == if !observed then old(entries)
                            else old(entries)[tracker := OsdObserve(e, Clamp(Dot(embedding, e.reference.value)))]
    {
      if tracker !in entries { return false; }
      var entry := entries[tracker];
      if entry.reference.None? || entry.threshold.None? { return false; }
      var score := Clamp(Dot(embedding, entry.reference.value));
      entry := entry.(score := Some(score));
      if score >= entry.threshold.value {
        entry := entry.(low := 0, high := Saturate(entry.high));
        if entry.high == 3 { entry := entry.(visible := true); }
      } else {
        entry := entry.(high := 0, low := Saturate(entry.low));
        if entry.low == 3 { entry := entry.(visible := false); }
      }
      entries := entries[tracker := entry];
      observed := true;
    }

    /** A name is drawn only for a held and currently visible identity. */
    method LabelFor(tracker: nat) returns (text: LabelText)
      ensures var e := Get(entries, tracker, BLANK);
              && (text.PendingLabel? <==> e.identity.state == Pending)
              && (text.NamedLabel? <==> e.identity.state == Known && e.visible)
              && (text.NamedLabel? ==> text.name == (if e.name == "" then "Known" else e.name) && text.score == e.score)
              && (text.UnknownLabel? ==> text.score == e.score)
    {
      if tracker !in entries || entries[tracker].identity.state == Pending { return PendingLabel; }
      var entry := entries[tracker];
      if entry.identity.state == Known && entry.visible {
        text := NamedLabel(if entry.name == "" then "Known" else entry.name, entry.score);
      } else {
        text := UnknownLabel(entry.score);
      }
    }
  }

  // ----- visibility as a rule over the scores since the last applied assignment

  function ObserveAll(e: Entry, scores: seq<real>): Entry {
    if scores == [] then e else OsdObserve(ObserveAll(e, scores[..|scores| - 1]), scores[|scores| - 1])
  }

  /** Side of the threshold a score falls on. */
  predicate High(e: Entry, score: real)
    requires e.threshold.Some?
  {
    score >= e.threshold.value
  }

  /** The side of the newest three-in-a-row, or `start` when there never was one. */
  function LastTriple(e: Entry, scores: seq<real>, start: bool): bool
    requires e.threshold.Some?
  {
    var n := |scores|;
    if n < 3 then start
    else if High(e, scores[n - 1]) == High(e, scores[n - 2]) == High(e, scores[n - 3]) then High(e, scores[n - 1])
    else LastTriple(e, scores[..n - 1], start)
  }

  /** Length of the newest run of scores on one side, capped at three. */
  function Run(e: Entry, scores: seq<real>, side: bool): (r: nat)
    requires e.threshold.Some?
    ensures r <= 3
  {
    if scores == [] || High(e, scores[|scores| - 1]) != side then 0
    else Saturate(Run(e, scores[..|scores| - 1], side))
  }

  lemma {:induction false} CountersAreRuns(e: Entry, scores: seq<real>)
    requires e.threshold.Some? && e.high == 0 && e.low == 0
    ensures var r := ObserveAll(e, scores);
            && r.threshold == e.threshold && r.identity == e.identity && r.name == e.name
            && r.high == Run(e, scores, true) && r.low == Run(e, scores, false)
  {
    if scores == [] {
    } else {
      CountersAreRuns(e, scores[..|scores| - 1]);
    }
  }

  lemma RunOfThree(e: Entry, scores: seq<real>, side: bool)
    requires e.threshold.Some?
    ensures Run(e, scores, side) == 3 <==>
              |scores| >= 3 && High(e, scores[|scores| - 1]) == side && High(e, scores[|scores| - 2]) == side
              && High(e, scores[|scores| - 3]) == side
  {
    var n := |scores|;
    if n >= 1 {
      var s1 := scores[..n - 1];
      if n >= 2 {
        var s2 := s1[..n - 2];
        assert s1[n - 2] == scores[n - 2];
        if n >= 3 { assert s2[n - 3] == scores[n - 3]; }
        assert Run(e, s1, side) >= 2 <==> High(e, scores[n - 2]) == side && Run(e, s2, side) >= 1;
      }
    }
  }

  /**
    From a freshly applied assignment, for every sequence of scores: the saturating counters make
    visibility the side of the newest three-in-a-row, and before any such run what the assignment said.
  */
  lemma {:induction false} VisibilityIsLastTriple(e: Entry, scores: seq<real>)
    requires e.threshold.Some? && e.high == 0 && e.low == 0
    ensures ObserveAll(e, scores).visible == LastTriple(e, scores, e.visible)
  {
    if scores == [] {
    } else {
      var init := scores[..|scores| - 1];
      VisibilityIsLastTriple(e, init);
      CountersAreRuns(e, init);
      RunOfThree(e, scores, true);
      RunOfThree(e, scores, false);
    }
  }

  /** Clamping is the identity on [-1, 1] and moves anything else to the nearer end. */
  lemma ClampIsNearest(x: real)
    ensures -1.0 <= Clamp(x) <= 1.0
    ensures forall y: real :: -1.0 <= y <= 1.0 ==> Distance(x, Clamp(x)) <= Distance(x, y)
    ensures -1.0 <= x <= 1.0 ==> Clamp(x) == x
  {
  }

  function Distance(x: real, y: real): real { if x >= y then x - y else y - x }

  /** A frame observes the similarity itself, and one exactly at the threshold speaks for the face. */
  lemma ScoreAtThresholdCountsHigh(e: Entry, score: real)
    requires e.threshold.Some?
    ensures OsdObserve(e, score).score == Some(score)
    ensures score >= e.threshold.value ==> OsdObserve(e, score).low == 0 && OsdObserve(e, score).high >= 1
    ensures score < e.threshold.value ==> OsdObserve(e, score).high == 0 && OsdObserve(e, score).low >= 1
  {
  }

  /** Three scores in a row on one side decide, for any entry and whatever came before. */
  lemma ThreeInARowDecide(e: Entry, a: real, b: real, c: real)
    requires e.threshold.Some?
    ensures var r := OsdObserve(OsdObserve(OsdObserve(e, a), b), c);
            && (a >= e.threshold.value && b >= e.threshold.value && c >= e.threshold.value ==> r.visible)
            && (a < e.threshold.value && b < e.threshold.value && c < e.threshold.value ==> !r.visible)
  {
  }

  /** A name of at most eighty printable characters is shown as it is; without a name nothing is. */
  lemma {:induction false} CleanNameIsKept(name: string)
    requires |name| <= 80 && forall i :: 0 <= i < |name| ==> name[i] >= ' ' && name[i] as int != 0x7F
    ensures SanitizedName(Some(name)) == name && SanitizedName(None) == ""
  {
    if name == "" {
    } else {
      CleanNameIsKept(name[..|name| - 1]);
    }
  }

  /** Control characters are dropped wherever they stand. */
  lemma ControlIsDropped(before: string, c: char, after': string)
    requires c < ' ' || c as int == 0x7F
    ensures SanitizedName(Some(before + [c] + after')) == SanitizedName(Some(before + after'))
  {
    FilterAppend(Printable, before + [c], after');
    FilterAppend(Printable, before, [c]);
    FilterAppend(Printable, before, after');
    assert [c][..0] == "" && Filter(Printable, [c]) == "";
  }
}

/**
  Finalising a video job: each canonical track gets the face its vote matched, unless that face is
  already taken by a track seen at the same time, and otherwise a newly minted one. The votes and
  the minted ids (name-based, so the same for every attempt of a job) are inputs.
*/
module VideoResults {
  import opened Common

  datatype Track = Track(firstSeen: real, lastSeen: real)

  /** One track with its vote and the id it would be given as a new face. */
  datatype Entry = Entry(track: Track, matched: Option<FaceId>, minted: FaceId)

  predicate Overlap(a: Track, b: Track) { a.firstSeen <= b.lastSeen && b.firstSeen <= a.lastSeen }

  type Assigned = map<FaceId, seq<Track>>

  predicate Blocked(taken: Assigned, face: FaceId, t: Track) {
    exists i :: 0 <= i < |Get(taken, face, [])| && Overlap(t, Get(taken, face, [])[i])
  }

  function FaceFor(taken: Assigned, e: Entry): FaceId {
    if e.matched.Some? && !Blocked(taken, e.matched.value, e.track) then e.matched.value else e.minted
  }

  function Assign(taken: Assigned, face: FaceId, t: Track): Assigned {
    taken[face := Get(taken, face, []) + [t]]
  }

  function AssignedBy(entries: seq<Entry>): Assigned {
    if entries == [] then map[]
    else
      var init, e := AssignedBy(entries[..|entries| - 1]), entries[|entries| - 1];
      Assign(init, FaceFor(init, e), e.track)
  }

  function FaceAt(entries: seq<Entry>, i: nat): FaceId
    requires i < |entries|
  {
    FaceFor(AssignedBy(entries[..i]), entries[i])
  }

  lemma FaceAtPrefix(entries: seq<Entry>, n: nat, i: nat)
    requires i < n <= |entries|
    ensures FaceAt(entries[..n], i) == FaceAt(entries, i) && entries[..n][i] == entries[i]
  {
    assert entries[..n][..i] == entries[..i];
  }

  /** Track `t` was given `face` by one of the first entries. */
  ghost predicate Given(entries: seq<Entry>, face: FaceId, t: Track) {
    exists i :: 0 <= i < |entries| && FaceAt(entries, i) == face && entries[i].track == t
  }

  lemma GivenStep(entries: seq<Entry>, face: FaceId, t: Track)
    requires entries != []
    ensures var n := |entries| - 1;
            Given(entries, face, t) <==>
              Given(entries[..n], face, t) || (FaceAt(entries, n) == face && entries[n].track == t)
  {
    var n := |entries| - 1;
    if i :| 0 <= i < n && FaceAt(entries[..n], i) == face && entries[..n][i].track == t {
      FaceAtPrefix(entries, n, i);
      assert FaceAt(entries, i) == face && entries[i].track == t;
    }
    if i :| 0 <= i < n && FaceAt(entries, i) == face && entries[i].track == t {
      FaceAtPrefix(entries, n, i);
      assert FaceAt(entries[..n], i) == face && entries[..n][i].track == t;
    }
  }

  /** The assignment table lists, face by face, exactly the tracks that were given that face. */
  lemma {:induction false} AssignedTracks(entries: seq<Entry>, face: FaceId, t: Track)
    ensures t in Get(AssignedBy(entries), face, []) <==> Given(entries, face, t)
  {
    if entries == [] {
    } else {
      AssignedTracks(entries[..|entries| - 1], face, t);
      GivenStep(entries, face, t);
    }
  }

  lemma BlockedMeans(entries: seq<Entry>, j: nat, face: FaceId)
    requires j < |entries|
    ensures Blocked(AssignedBy(entries[..j]), face, entries[j].track) <==>
              exists i :: 0 <= i < j && FaceAt(entries, i) == face && Overlap(entries[j].track, entries[i].track)
  {
    var head := entries[..j];
    var listed := Get(AssignedBy(head), face, []);
    if k :| 0 <= k < |listed| && Overlap(entries[j].track, listed[k]) {
      AssignedTracks(head, face, listed[k]);
      var i :| 0 <= i < j && FaceAt(head, i) == face && head[i].track == listed[k];
      FaceAtPrefix(entries, j, i);
    }
    if i :| 0 <= i < j && FaceAt(entries, i) == face && Overlap(entries[j].track, entries[i].track) {
      FaceAtPrefix(entries, j, i);
      assert FaceAt(head, i) == face && head[i].track == entries[i].track;
      AssignedTracks(head, face, entries[i].track);
      var k :| 0 <= k < |listed| && listed[k] == entries[i].track;
    }
  }

  /** No face is given to two tracks seen at the same time. */
  ghost predicate NoDoublePresence(entries: seq<Entry>) {
    forall i, j :: 0 <= i < j < |entries| && FaceAt(entries, i) == FaceAt(entries, j) ==>
      !Overlap(entries[j].track, entries[i].track)
  }

  /** Track `j` falls back to its minted id. */
  predicate Mints(entries: seq<Entry>, j: nat)
    requires j < |entries|
  {
    entries[j].matched.None? || Blocked(AssignedBy(entries[..j]), entries[j].matched.value, entries[j].track)
  }

  /**
    For all inputs: faces are never shared by overlapping tracks exactly when no track falls back to a
    minted id that an earlier, overlapping track already carries.
  */
  lemma DoublePresenceExactlyByMinting(entries: seq<Entry>)
    ensures NoDoublePresence(entries) <==>
            forall j :: 0 <= j < |entries| && Mints(entries, j) ==>
              !Blocked(AssignedBy(entries[..j]), entries[j].minted, entries[j].track)
  {
    forall j | 0 <= j < |entries| && Mints(entries, j)
               && Blocked(AssignedBy(entries[..j]), entries[j].minted, entries[j].track)
      ensures !NoDoublePresence(entries)
    {
      BlockedMeans(entries, j, entries[j].minted);
      assert FaceAt(entries, j) == entries[j].minted;
    }
    forall i, j | 0 <= i < j < |entries| && FaceAt(entries, i) == FaceAt(entries, j)
                  && Overlap(entries[j].track, entries[i].track)
      ensures Mints(entries, j) && Blocked(AssignedBy(entries[..j]), entries[j].minted, entries[j].track)
    {
      BlockedMeans(entries, j, FaceAt(entries, j));
    }
  }

  /**
    The id a track would mint is neither minted nor matched by an earlier track seen at the same time. A
    retried track that matches the id it minted itself is fine, and so is any match of an earlier track's id.
  */
  predicate FreshIds(entries: seq<Entry>) {
    forall i, j :: 0 <= i < j < |entries| && Overlap(entries[j].track, entries[i].track) ==>
      entries[i].minted != entries[j].minted && entries[i].matched != Some(entries[j].minted)
  }

  /** With fresh ids nobody is in two places at once. */
  lemma FreshIdsPreventDoublePresence(entries: seq<Entry>)
    requires FreshIds(entries)
    ensures NoDoublePresence(entries)
  {
    forall j | 0 <= j < |entries| && Mints(entries, j)
      ensures !Blocked(AssignedBy(entries[..j]), entries[j].minted, entries[j].track)
    {
      BlockedMeans(entries, j, entries[j].minted);
      assert forall i :: 0 <= i < j && Overlap(entries[j].track, entries[i].track) ==>
               FaceAt(entries, i) == entries[i].minted || entries[i].matched == Some(FaceAt(entries, i));
    }
    DoublePresenceExactlyByMinting(entries);
  }

  /**
    Ids are name-based, so a second attempt of a job mints the ids of the first one, which by then are
    in the gallery: here track 0 matches the id that track 1, seen at the same time, is about to mint.
  */
  lemma RetriedJobCanShareFace()
    ensures var entries := [Entry(Track(0.0, 2.0), Some("b"), "a"), Entry(Track(1.0, 3.0), None, "b")];
            !NoDoublePresence(entries)
  {
    var entries := [Entry(Track(0.0, 2.0), Some("b"), "a"), Entry(Track(1.0, 3.0), None, "b")];
    assert entries[..0] == [] && FaceAt(entries, 0) == "b" && FaceAt(entries, 1) == "b";
    assert Overlap(entries[1].track, entries[0].track);
  }

  /** An ordinary retry: every track that matches anything matches the id it minted before, and shares nothing. */
  lemma OwnMatchesAreFresh(entries: seq<Entry>)
    requires forall i, j :: 0 <= i < j < |entries| ==> entries[i].minted != entries[j].minted
    requires forall i :: 0 <= i < |entries| ==>
               entries[i].matched.None? || entries[i].matched == Some(entries[i].minted)
    ensures FreshIds(entries) && NoDoublePresence(entries)
  {
    FreshIdsPreventDoublePresence(entries);
  }

  /** The assignment loop. */
  method Finalize(entries: seq<Entry>) returns (faces: seq<FaceId>)
    ensures |faces| == |entries| && forall i :: 0 <= i < |entries| ==> faces[i] == FaceAt(entries, i)
    ensures FreshIds(entries) ==>
              forall i, j :: 0 <= i < j < |entries| && faces[i] == faces[j] ==>
                !Overlap(entries[j].track, entries[i].track)
  {
    faces := [];
    var taken: Assigned := map[];
    var n := 0;
    while n < |entries|
      invariant 0 <= n <= |entries| && taken == AssignedBy(entries[..n])
      invariant |faces| == n && forall i :: 0 <= i < n ==> faces[i] == FaceAt(entries, i)
    {
      var e := entries[n];
      var decision := e.matched;
      if decision.Some? && Blocked(taken, decision.value, e.track) {
        decision := None;
      }
      var face := if decision.Some? then decision.value else e.minted;
      assert entries[..n + 1][..n] == entries[..n];
      taken := taken[face := Get(taken, face, []) + [e.track]];
      faces := faces + [face];
      n := n + 1;
    }
    if FreshIds(entries) { FreshIdsPreventDoublePresence(entries); }
  }

  // ----- what the comparisons mean

  predicate Present(t: Track, instant: real) { t.firstSeen <= instant <= t.lastSeen }

  /** Two tracks overlap exactly when both are present at some instant. */
  lemma OverlapIsSharedInstant(a: Track, b: Track)
    requires a.firstSeen <= a.lastSeen && b.firstSeen <= b.lastSeen
    ensures Overlap(a, b) <==> exists instant: real :: Present(a, instant) && Present(b, instant)
  {
    if Overlap(a, b) {
      var instant := if a.firstSeen >= b.firstSeen then a.firstSeen else b.firstSeen;
      assert Present(a, instant) && Present(b, instant);
    }
  }

  /** A track keeps the face it matched exactly when no earlier track given that face overlaps it. */
  lemma KeepsMatchExactly(entries: seq<Entry>, j: nat)
    requires j < |entries|
    ensures var e := entries[j];
            FaceAt(entries, j)
            == if e.matched.Some? && (forall i :: 0 <= i < j && FaceAt(entries, i) == e.matched.value ==>
                                        !Overlap(e.track, entries[i].track))
               then e.matched.value else e.minted
  {
    if entries[j].matched.Some? { BlockedMeans(entries, j, entries[j].matched.value); }
  }
}

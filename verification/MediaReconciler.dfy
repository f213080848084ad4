/**
  The control loop that keeps the media server's ingress paths as desired. The server's contents,
  the desired generations, the clock, failing calls and the order in which a set is iterated are
  inputs of each pass.
*/
module MediaReconciler {
  import opened Common

  type Path = string

  /** What the server stores for a path; a transport is always stored, be it a default. */
  datatype Stored = Stored(source: string, transport: string)

  /** What the service wants; only RTSP sources ask for a transport. */
  datatype Desired = Desired(source: string, transport: Option<string>)

  datatype SourceType = WhipPush | RtspPull | WhepPull | Unsupported

  datatype Generation = Generation(path: Path, kind: SourceType, url: Option<string>)

  predicate StartsWith(s: string, p: string) { |p| <= |s| && s[..|p|] == p }

  predicate IsRtsp(s: string) { StartsWith(s, "rtsp://") || StartsWith(s, "rtsps://") }

  predicate IsWhep(s: string) { StartsWith(s, "whep://") || StartsWith(s, "wheps://") }

  /** The configuration a generation asks for, or `None` when it is refused; schemes are checked in lower case. */
  function Ingress(g: Generation): Option<Desired> {
    match g.kind
    case WhipPush => Some(Desired("publisher", None))
    case RtspPull => if g.url.Some? && IsRtsp(Lower(g.url.value)) then Some(Desired(g.url.value, Some("tcp"))) else None
    case WhepPull => if g.url.Some? && IsWhep(Lower(g.url.value)) then Some(Desired(g.url.value, None)) else None
    case Unsupported => None
  }

  /** The part of a stored configuration that is compared; here the scheme is checked as written. */
  function Normalized(c: Stored): Desired { Desired(c.source, if IsRtsp(c.source) then Some(c.transport) else None) }

  /** What writing `d` leaves on the server. */
  function Written(d: Desired, default: string): Stored {
    Stored(d.source, if d.transport.Some? then d.transport.value else default)
  }

  /** A call that raises: before the write, in a write that took effect all the same, or after it. */
  datatype Fault = NoFault | BeforeWrite | InWrite | AfterWrite

  datatype Counts = Counts(added: nat, replaced: nat, failed: nat)

  datatype Applied = Applied(remote: map<Path, Stored>, counts: Counts)

  /** One generation: compare, add or replace, and count; a failing call counts as failed. */
  function ApplyOne(a: Applied, g: Generation, fault: Fault, default: string): Applied {
    if Ingress(g).None? || fault == BeforeWrite then Applied(a.remote, Failing(a.counts))
    else if g.path in a.remote && Normalized(a.remote[g.path]) == Ingress(g).value then
      if fault == AfterWrite then Applied(a.remote, Failing(a.counts)) else a
    else
      var written := a.remote[g.path := Written(Ingress(g).value, default)];
      if fault == InWrite then Applied(written, Failing(a.counts))
      else
        var counts := if g.path in a.remote then a.counts.(replaced := a.counts.replaced + 1)
                      else a.counts.(added := a.counts.added + 1);
        Applied(written, if fault == AfterWrite then Failing(counts) else counts)
  }

  function Failing(c: Counts): Counts { c.(failed := c.failed + 1) }

  function ApplyAll(a: Applied, gens: seq<Generation>, faults: seq<Fault>, default: string): Applied
    requires |gens| == |faults|
  {
    if gens == [] then a
    else ApplyOne(ApplyAll(a, gens[..|gens| - 1], faults[..|faults| - 1], default),
                  gens[|gens| - 1], faults[|faults| - 1], default)
  }

  // ----- convergence

  predicate DistinctPaths(gens: seq<Generation>) {
    forall i, j :: 0 <= i < j < |gens| ==> gens[i].path != gens[j].path
  }

  predicate AllValid(gens: seq<Generation>) { forall i :: 0 <= i < |gens| ==> Ingress(gens[i]).Some? }

  function NoFaults(n: nat): seq<Fault> { seq(n, _ => NoFault) }

  /** An RTSP source whose scheme is not written in lower case. */
  predicate MixedCase(g: Generation) { g.kind == RtspPull && g.url.Some? && !IsRtsp(g.url.value) }

  function MixedCount(gens: seq<Generation>): nat {
    if gens == [] then 0 else MixedCount(gens[..|gens| - 1]) + if MixedCase(gens[|gens| - 1]) then 1 else 0
  }

  lemma PrefixAt(s: string, p: string, i: nat)
    requires StartsWith(s, p) && i < |p|
    ensures i < |s| && s[i] == p[i]
  {
    assert s[..|p|][i] == s[i];
  }

  lemma WhepIsNotRtsp(s: string)
    requires IsWhep(Lower(s))
    ensures !IsRtsp(s)
  {
    var l := Lower(s);
    PrefixAt(l, if StartsWith(l, "whep://") then "whep://" else "wheps://", 0);
    if IsRtsp(s) { PrefixAt(s, if StartsWith(s, "rtsp://") then "rtsp://" else "rtsps://", 0); }
  }

  lemma PublisherIsNotRtsp()
    ensures !IsRtsp("publisher")
  {
    if IsRtsp("publisher") {
      PrefixAt("publisher", if StartsWith("publisher", "rtsp://") then "rtsp://" else "rtsps://", 0);
    }
  }

  /** What was written is recognised again exactly when an RTSP scheme is in lower case. */
  lemma WrittenIsRecognised(g: Generation, default: string)
    requires Ingress(g).Some?
    ensures Normalized(Written(Ingress(g).value, default)) == Ingress(g).value <==> !MixedCase(g)
  {
    if g.kind == WhepPull { WhepIsNotRtsp(g.url.value); }
    PublisherIsNotRtsp();
  }

  /** The path holds what its generation asks for. */
  ghost predicate Holds(remote: map<Path, Stored>, g: Generation) {
    && g.path in remote && Ingress(g).Some? && remote[g.path].source == Ingress(g).value.source
    && (Ingress(g).value.transport.Some? ==> remote[g.path].transport == Ingress(g).value.transport.value)
    && (MixedCase(g) <==> Normalized(remote[g.path]) != Ingress(g).value)
  }

  lemma RecognisedHolds(remote: map<Path, Stored>, g: Generation)
    requires g.path in remote && Ingress(g).Some? && Normalized(remote[g.path]) == Ingress(g).value
    ensures Holds(remote, g)
  {
    if g.kind == RtspPull { assert Ingress(g).value.transport.Some?; }
  }

  /** An error-free pass. */
  function ApplyClean(a: Applied, gens: seq<Generation>, default: string): Applied {
    if gens == [] then a else ApplyOne(ApplyClean(a, gens[..|gens| - 1], default), gens[|gens| - 1], NoFault, default)
  }

  lemma {:induction false} CleanIsFaultless(a: Applied, gens: seq<Generation>, default: string)
    ensures ApplyAll(a, gens, NoFaults(|gens|), default) == ApplyClean(a, gens, default)
  {
    if gens == [] {
    } else {
      assert NoFaults(|gens|)[..|gens| - 1] == NoFaults(|gens| - 1);
      CleanIsFaultless(a, gens[..|gens| - 1], default);
    }
  }

  /** A generation applied without fault holds its path, and touches no other. */
  lemma ApplyOneHolds(before: Applied, g: Generation, default: string)
    requires Ingress(g).Some?
    ensures var after := ApplyOne(before, g, NoFault, default);
            && Holds(after.remote, g) && after.counts.failed == before.counts.failed
            && after.remote.Keys == before.remote.Keys + {g.path}
            && (forall p :: p in before.remote && p != g.path ==> after.remote[p] == before.remote[p])
  {
    WrittenIsRecognised(g, default);
    if g.path in before.remote && Normalized(before.remote[g.path]) == Ingress(g).value {
      RecognisedHolds(before.remote, g);
    }
  }

  lemma HoldsElsewhere(before: map<Path, Stored>, after: map<Path, Stored>, g: Generation)
    requires Holds(before, g) && g.path in after && after[g.path] == before[g.path]
    ensures Holds(after, g)
  {
  }

  ghost predicate Untouched(gens: seq<Generation>, p: Path) { forall i :: 0 <= i < |gens| ==> gens[i].path != p }

  ghost predicate AllHold(remote: map<Path, Stored>, gens: seq<Generation>) {
    forall i :: 0 <= i < |gens| ==> Holds(remote, gens[i])
  }

  lemma AllHoldStep(before: map<Path, Stored>, after: map<Path, Stored>, gens: seq<Generation>)
    requires gens != [] && DistinctPaths(gens) && AllHold(before, gens[..|gens| - 1]) && Holds(after, gens[|gens| - 1])
    requires forall p :: p in before && p != gens[|gens| - 1].path ==> p in after && after[p] == before[p]
    ensures AllHold(after, gens)
  {
    forall i | 0 <= i < |gens| ensures Holds(after, gens[i]) {
      if i < |gens| - 1 {
        assert Holds(before, gens[..|gens| - 1][i]) && gens[i].path != gens[|gens| - 1].path;
        HoldsElsewhere(before, after, gens[i]);
      }
    }
  }

  lemma {:induction false} OthersUntouched(a: Applied, gens: seq<Generation>, default: string, p: Path)
    requires AllValid(gens) && p in a.remote && Untouched(gens, p)
    ensures var r := ApplyClean(a, gens, default).remote; p in r && r[p] == a.remote[p]
  {
    if gens == [] {
    } else {
      var init := gens[..|gens| - 1];
      assert forall i :: 0 <= i < |init| ==> init[i] == gens[i];
      OthersUntouched(a, init, default, p);
      ApplyOneHolds(ApplyClean(a, init, default), gens[|gens| - 1], default);
    }
  }

  /** One error-free pass from any server contents gives every desired path its desired configuration. */
  lemma {:induction false} OnePassConverges(a: Applied, gens: seq<Generation>, default: string)
    requires DistinctPaths(gens) && AllValid(gens)
    ensures var r := ApplyClean(a, gens, default); AllHold(r.remote, gens) && r.counts.failed == a.counts.failed
  {
    if gens == [] {
    } else {
      var init := gens[..|gens| - 1];
      OnePassConverges(a, init, default);
      var before := ApplyClean(a, init, default);
      ApplyOneHolds(before, gens[|gens| - 1], default);
      AllHoldStep(before.remote, ApplyOne(before, gens[|gens| - 1], NoFault, default).remote, gens);
    }
  }

  lemma HeldIsReplacedIfMixed(before: Applied, g: Generation, default: string)
    requires Holds(before.remote, g)
    ensures var after := ApplyOne(before, g, NoFault, default);
            && after.counts == before.counts.(replaced := before.counts.replaced + if MixedCase(g) then 1 else 0)
            && after.remote.Keys == before.remote.Keys && (!MixedCase(g) ==> after.remote == before.remote)
  {
    assert MixedCase(g) ==> ApplyOne(before, g, NoFault, default).remote.Keys == before.remote.Keys;
  }

  /**
    A second pass over paths that hold what they should adds nothing and replaces exactly the mixed-case
    RTSP sources: it is idle exactly when every RTSP scheme is written in lower case.
  */
  lemma {:induction false} SecondPassReplacesMixedCase(a: Applied, gens: seq<Generation>, default: string)
    requires DistinctPaths(gens) && AllValid(gens) && AllHold(a.remote, gens)
    ensures var r := ApplyClean(a, gens, default);
            && r.counts == a.counts.(replaced := a.counts.replaced + MixedCount(gens))
            && r.remote.Keys == a.remote.Keys && (MixedCount(gens) == 0 ==> r.remote == a.remote)
  {
    if gens == [] {
    } else {
      var init, g := gens[..|gens| - 1], gens[|gens| - 1];
      assert forall i :: 0 <= i < |init| ==> init[i] == gens[i];
      SecondPassReplacesMixedCase(a, init, default);
      var before := ApplyClean(a, init, default);
      assert Holds(a.remote, g) && Untouched(init, g.path);
      OthersUntouched(a, init, default, g.path);
      HoldsElsewhere(a.remote, before.remote, g);
      HeldIsReplacedIfMixed(before, g, default);
    }
  }

  lemma {:induction false} MixedCountZero(gens: seq<Generation>)
    ensures MixedCount(gens) == 0 <==> forall i :: 0 <= i < |gens| ==> !MixedCase(gens[i])
  {
    if gens == [] {
    } else {
      var init := gens[..|gens| - 1];
      MixedCountZero(init);
      assert forall i :: 0 <= i < |init| ==> init[i] == gens[i];
    }
  }

  /** After one error-free pass an immediate second one is idle exactly when every RTSP scheme is in lower case. */
  lemma SecondPassIsIdleExactlyOnLowerCase(remote: map<Path, Stored>, gens: seq<Generation>, default: string)
    requires DistinctPaths(gens) && AllValid(gens)
    ensures var none := Counts(0, 0, 0);
            var first := ApplyAll(Applied(remote, none), gens, NoFaults(|gens|), default);
            var second := ApplyAll(Applied(first.remote, none), gens, NoFaults(|gens|), default);
            && AllHold(first.remote, gens)
            && second.counts == none.(replaced := MixedCount(gens))
            && (second.counts == none <==> forall i :: 0 <= i < |gens| ==> !MixedCase(gens[i]))
  {
    var none := Counts(0, 0, 0);
    CleanIsFaultless(Applied(remote, none), gens, default);
    OnePassConverges(Applied(remote, none), gens, default);
    var first := ApplyClean(Applied(remote, none), gens, default);
    CleanIsFaultless(Applied(first.remote, none), gens, default);
    SecondPassReplacesMixedCase(Applied(first.remote, none), gens, default);
    MixedCountZero(gens);
  }

  /** A path is owned exactly when it continues the prefix. */
  lemma OwnedExactly(prefix: string, p: Path)
    ensures OwnedPrefix(prefix, p) <==> exists rest: string :: p == prefix + rest
  {
    if OwnedPrefix(prefix, p) { assert p == prefix + p[|prefix|..]; }
  }

  /** What a generation asks for, by kind; a pull needs a URL of its scheme, in any case. */
  lemma IngressExactly(g: Generation)
    ensures g.kind == WhipPush ==> Ingress(g) == Some(Desired("publisher", None))
    ensures g.kind == RtspPull ==>
              Ingress(g) == if g.url.Some? && (StartsWith(Lower(g.url.value), "rtsp://")
                                               || StartsWith(Lower(g.url.value), "rtsps://"))
                            then Some(Desired(g.url.value, Some("tcp"))) else None
    ensures g.kind == WhepPull ==>
              Ingress(g) == if g.url.Some? && (StartsWith(Lower(g.url.value), "whep://")
                                               || StartsWith(Lower(g.url.value), "wheps://"))
                            then Some(Desired(g.url.value, None)) else None
    ensures g.kind == Unsupported ==> Ingress(g) == None
  {
  }

  /** After an error-free pass from any server contents, the stored configuration of every desired path. */
  lemma PassStores(remote: map<Path, Stored>, gens: seq<Generation>, default: string, i: nat)
    requires DistinctPaths(gens) && AllValid(gens) && i < |gens|
    ensures var r, g := ApplyClean(Applied(remote, Counts(0, 0, 0)), gens, default).remote, gens[i];
            && g.path in r
            && (g.kind == WhipPush ==> r[g.path].source == "publisher")
            && (g.kind == RtspPull ==> g.url.Some? && r[g.path] == Stored(g.url.value, "tcp"))
            && (g.kind == WhepPull ==> g.url.Some? && r[g.path].source == g.url.value)
  {
    OnePassConverges(Applied(remote, Counts(0, 0, 0)), gens, default);
    assert Holds(ApplyClean(Applied(remote, Counts(0, 0, 0)), gens, default).remote, gens[i]);
  }

  /** A generation asks for a write when its path is absent or differs from what it wants. */
  predicate NeedsWrite(remote: map<Path, Stored>, g: Generation)
    requires Ingress(g).Some?
  {
    g.path !in remote || Normalized(remote[g.path]) != Ingress(g).value
  }

  /** What one generation adds to each counter, and when the server changes. */
  lemma CountsExactly(a: Applied, g: Generation, fault: Fault, default: string)
    ensures var r := ApplyOne(a, g, fault, default);
            var writes := Ingress(g).Some? && fault != BeforeWrite && NeedsWrite(a.remote, g);
            && r.counts.failed - a.counts.failed
               == (if Ingress(g).None? || fault in {BeforeWrite, AfterWrite} || (fault == InWrite && writes)
                   then 1 else 0)
            && r.counts.added - a.counts.added
               == (if writes && fault != InWrite && g.path !in a.remote then 1 else 0)
            && r.counts.replaced - a.counts.replaced
               == (if writes && fault != InWrite && g.path in a.remote then 1 else 0)
            && (!writes ==> r.remote == a.remote)
            && (writes ==> r.remote == a.remote[g.path := Written(Ingress(g).value, default)])
  {
  }

  /** An accepted source that every pass writes again. */
  lemma MixedCaseIsWrittenAgain(remote: map<Path, Stored>, default: string)
    ensures var gens := [Generation("ingress/a", RtspPull, Some("RTSP://h"))];
            var none := Counts(0, 0, 0);
            var first := ApplyAll(Applied(remote, none), gens, [NoFault], default);
            && AllValid(gens) && MixedCase(gens[0])
            && ApplyAll(Applied(first.remote, none), gens, [NoFault], default).counts == none.(replaced := 1)
  {
    var g := Generation("ingress/a", RtspPull, Some("RTSP://h"));
    assert Lower("RTSP://h") == "rtsp://h" && StartsWith("rtsp://h", "rtsp://");
    if IsRtsp("RTSP://h") {
      PrefixAt("RTSP://h", if StartsWith("RTSP://h", "rtsp://") then "rtsp://" else "rtsps://", 0);
      assert false;
    }
    assert [g][..0] == [] && MixedCount([g]) == 1;
    assert NoFaults(1) == [NoFault];
    SecondPassIsIdleExactlyOnLowerCase(remote, [g], default);
  }

  // ----- removing stale paths

  datatype Sweep = Sweep(stale: map<Path, int>, deleted: seq<Path>, aborted: bool)

  function Names(list: seq<Path>): set<Path> { set name | name in list }

  lemma RemoveOne<V>(remote: map<Path, V>, gone: seq<Path>, name: Path)
    ensures remote - Names(gone + [name]) == remote - Names(gone) - {name}
  {
    assert Names(gone + [name]) == Names(gone) + {name};
  }

  /** One visit of the sweep. */
  function Visit(s: Sweep, name: Path, now: int, grace: int, failing: set<Path>): Sweep {
    if s.aborted then s
    else
      var first := Get(s.stale, name, now);
      if now - first < grace then s.(stale := s.stale[name := first])
      else if name in failing then Sweep(s.stale[name := first], s.deleted, true)
      else Sweep(s.stale - {name}, s.deleted + [name], false)
  }

  /** Visit the owned, undesired paths; a failing deletion aborts the pass. */
  function SweepStale(stale: map<Path, int>, order: seq<Path>, now: int, grace: int, failing: set<Path>): Sweep {
    if order == [] then Sweep(stale, [], false)
    else Visit(SweepStale(stale, order[..|order| - 1], now, grace, failing), order[|order| - 1], now, grace, failing)
  }

  /** One pass as far as stale paths go. `order` lists the owned names configured but not desired. */
  datatype Pass = Pass(desired: set<Path>, configured: set<Path>, order: seq<Path>, now: int, listed: bool,
                       failing: set<Path>)

  predicate OwnedPrefix(prefix: string, p: Path) { StartsWith(p, prefix) }

  ghost predicate WellFormed(prefix: string, p: Pass) {
    && (forall name :: name in p.order <==> name in p.configured && name !in p.desired)
    && (forall name :: name in p.configured ==> OwnedPrefix(prefix, name))
  }

  function AfterPass(stale: map<Path, int>, p: Pass, grace: int): Sweep {
    if !p.listed then Sweep(stale, [], false)
    else
      var s := SweepStale(stale, p.order, p.now, grace, p.failing);
      if s.aborted then s
      else s.(stale := map name | name in s.stale && name !in p.desired && name in p.configured :: s.stale[name])
  }

  function StaleAfter(passes: seq<Pass>, grace: int): map<Path, int> {
    if passes == [] then map[]
    else AfterPass(StaleAfter(passes[..|passes| - 1], grace), passes[|passes| - 1], grace).stale
  }

  function DeletedAt(passes: seq<Pass>, k: nat, grace: int): seq<Path>
    requires k < |passes|
  {
    AfterPass(StaleAfter(passes[..k], grace), passes[k], grace).deleted
  }

  lemma {:induction false} SweepEffectOn(stale: map<Path, int>, order: seq<Path>, now: int, grace: int,
                                         failing: set<Path>, n: Path)
    requires Distinct(order)
    ensures var s := SweepStale(stale, order, now, grace, failing);
            && (n in s.stale ==>
                  (n in stale && s.stale[n] == stale[n]) || (n in order && n !in stale && s.stale[n] == now))
            && (n in stale && n !in order ==> n in s.stale)
            && (n in s.deleted ==> n in order && n !in s.stale && now - Get(stale, n, now) >= grace)
  {
    if order == [] {
    } else {
      var init, name := order[..|order| - 1], order[|order| - 1];
      SweepEffectOn(stale, init, now, grace, failing, n);
      assert name !in init;
    }
  }

  /** Visited once, a name keeps or gets its first time; what is deleted was first seen a grace period ago. */
  lemma SweepEffect(stale: map<Path, int>, order: seq<Path>, now: int, grace: int, failing: set<Path>)
    requires Distinct(order)
    ensures var s := SweepStale(stale, order, now, grace, failing);
            && (forall n :: n in s.stale ==>
                  (n in stale && s.stale[n] == stale[n]) || (n in order && n !in stale && s.stale[n] == now))
            && (forall n :: n in stale && n !in order ==> n in s.stale)
            && (forall n :: n in s.deleted ==> n in order && n !in s.stale && now - Get(stale, n, now) >= grace)
  {
    var s := SweepStale(stale, order, now, grace, failing);
    forall n: Path
      ensures n in s.stale ==>
                (n in stale && s.stale[n] == stale[n]) || (n in order && n !in stale && s.stale[n] == now)
      ensures n in stale && n !in order ==> n in s.stale
      ensures n in s.deleted ==> n in order && n !in s.stale && now - Get(stale, n, now) >= grace
    {
      SweepEffectOn(stale, order, now, grace, failing, n);
    }
  }

  /** The listing of pass `k` was swept, but a failing deletion ended the pass before its clean-up. */
  predicate AbortedAt(passes: seq<Pass>, k: nat, grace: int)
    requires k < |passes|
  {
    passes[k].listed && AfterPass(StaleAfter(passes[..k], grace), passes[k], grace).aborted
  }

  /** The pass listed the paths, swept them all and tidied up what it remembers. */
  predicate Completed(passes: seq<Pass>, k: nat, grace: int)
    requires k < |passes|
  {
    passes[k].listed && !AbortedAt(passes, k, grace)
  }

  predicate UndesiredAt(p: Pass, name: Path) { name in p.configured && name !in p.desired }

  /** Stale since pass `j`: listed and undesired then, and at every listing since that was swept to the end. */
  ghost predicate StaleSincePass(passes: seq<Pass>, j: nat, name: Path, grace: int) {
    && j < |passes| && passes[j].listed && UndesiredAt(passes[j], name)
    && forall i :: j <= i < |passes| && Completed(passes, i, grace) ==> UndesiredAt(passes[i], name)
  }

  ghost predicate AllWellFormed(prefix: string, passes: seq<Pass>) {
    forall i :: 0 <= i < |passes| ==> WellFormed(prefix, passes[i]) && Distinct(passes[i].order)
  }

  lemma StaleSinceExtends(passes: seq<Pass>, p: Pass, j: nat, name: Path, grace: int)
    requires StaleSincePass(passes, j, name, grace)
    requires Completed(passes + [p], |passes|, grace) ==> UndesiredAt(p, name)
    ensures StaleSincePass(passes + [p], j, name, grace)
  {
    var all := passes + [p];
    assert forall i :: 0 <= i < |passes| ==> all[i] == passes[i] && all[..i] == passes[..i];
    assert forall i :: 0 <= i < |passes| ==> Completed(all, i, grace) == Completed(passes, i, grace);
  }

  /** Every remembered first time is the time of a pass since which the name has been stale. */
  lemma {:induction false} RememberedIsStale(prefix: string, passes: seq<Pass>, grace: int, name: Path) returns (j: nat)
    requires AllWellFormed(prefix, passes) && name in StaleAfter(passes, grace)
    ensures StaleSincePass(passes, j, name, grace) && StaleAfter(passes, grace)[name] == passes[j].now
  {
    var n := |passes| - 1;
    var init, p := passes[..n], passes[n];
    var before := StaleAfter(init, grace);
    assert passes == init + [p] && WellFormed(prefix, p);
    assert forall i :: 0 <= i < |init| ==> init[i] == passes[i];
    if p.listed { SweepEffect(before, p.order, p.now, grace, p.failing); }
    if name in before && StaleAfter(passes, grace)[name] == before[name] {
      j := RememberedIsStale(prefix, init, grace, name);
      StaleSinceExtends(init, p, j, name, grace);
    } else {
      j := n;
      assert name in p.order;
    }
  }

  /**
    Over all runs: a deleted path is owned and undesired, and some pass at least the grace period ago,
    like every listing since that was swept to the end, already found it so.
  */
  lemma DeletedOnlyAfterGrace(prefix: string, passes: seq<Pass>, k: nat, grace: int, name: Path) returns (j: nat)
    requires AllWellFormed(prefix, passes) && k < |passes| && name in DeletedAt(passes, k, grace)
    ensures OwnedPrefix(prefix, name) && UndesiredAt(passes[k], name)
    ensures j <= k && passes[k].now - passes[j].now >= grace
    ensures passes[j].listed && UndesiredAt(passes[j], name)
    ensures forall i :: j <= i < k && Completed(passes, i, grace) ==> UndesiredAt(passes[i], name)
  {
    var head, p := passes[..k], passes[k];
    var before := StaleAfter(head, grace);
    assert WellFormed(prefix, p);
    SweepEffect(before, p.order, p.now, grace, p.failing);
    assert name in p.order;
    if name in before {
      assert forall i :: 0 <= i < k ==> head[i] == passes[i] && head[..i] == passes[..i];
      j := RememberedIsStale(prefix, head, grace, name);
      assert forall i :: 0 <= i < k ==> Completed(head, i, grace) == Completed(passes, i, grace);
    } else {
      j := k;
    }
  }

  /** Pass `i` is less than the grace period older than pass `k`. */
  predicate InGrace(passes: seq<Pass>, i: nat, k: nat, grace: int)
    requires i < |passes| && k < |passes|
  {
    passes[k].now - passes[i].now < grace
  }

  /**
    A deleted path was undesired at every completed pass since `j`, and, whatever happened before, at
    every completed pass of the last grace period. So if all passes of that period were completed, listing
    and clean-up alike, it was undesired throughout.
  */
  lemma DeletedOnlyIfAlwaysStale(prefix: string, passes: seq<Pass>, k: nat, grace: int, name: Path) returns (j: nat)
    requires AllWellFormed(prefix, passes) && Monotone(passes) && k < |passes| && name in DeletedAt(passes, k, grace)
    ensures j <= k && passes[k].now - passes[j].now >= grace && passes[j].listed && UndesiredAt(passes[j], name)
    ensures forall i :: j <= i <= k && (i == k || Completed(passes, i, grace)) ==> UndesiredAt(passes[i], name)
    ensures forall i :: 0 <= i <= k && InGrace(passes, i, k, grace) && (i == k || Completed(passes, i, grace)) ==>
              UndesiredAt(passes[i], name)
    ensures (forall i :: 0 <= i < k && InGrace(passes, i, k, grace) ==> Completed(passes, i, grace)) ==>
              forall i :: 0 <= i <= k && InGrace(passes, i, k, grace) ==> UndesiredAt(passes[i], name)
  {
    j := DeletedOnlyAfterGrace(prefix, passes, k, grace, name);
    forall i | 0 <= i <= k && InGrace(passes, i, k, grace) ensures j <= i {
      EarlierIsOlder(passes, i, j);
    }
  }

  lemma EarlierIsOlder(passes: seq<Pass>, i: nat, j: nat)
    requires Monotone(passes) && i < |passes| && j < |passes|
    ensures i < j ==> passes[i].now <= passes[j].now
  {
  }

  /** A pass in which no deletion fails does not end early. */
  lemma NoFailureNoAbort(passes: seq<Pass>, k: nat, grace: int)
    requires k < |passes| && passes[k].failing == {}
    ensures !AbortedAt(passes, k, grace)
  {
    NothingFailsNothingAborts(StaleAfter(passes[..k], grace), passes[k].order, passes[k].now, grace);
  }

  lemma {:induction false} NothingFailsNothingAborts(stale: map<Path, int>, order: seq<Path>, now: int, grace: int)
    ensures !SweepStale(stale, order, now, grace, {}).aborted
  {
    if order == [] {
    } else {
      NothingFailsNothingAborts(stale, order[..|order| - 1], now, grace);
    }
  }

  /** What was remembered stays so or is deleted; a completed sweep deletes exactly what is old enough. */
  lemma {:induction false} SweepKeeps(stale: map<Path, int>, order: seq<Path>, now: int, grace: int,
                                      failing: set<Path>, n: Path)
    requires Distinct(order)
    ensures var s := SweepStale(stale, order, now, grace, failing);
            && (n in stale && n !in s.deleted ==> n in s.stale && s.stale[n] == stale[n])
            && (n in order && !s.aborted ==>
                  && (n in s.deleted <==> now - Get(stale, n, now) >= grace)
                  && (n !in s.deleted ==> n in s.stale && s.stale[n] == Get(stale, n, now)))
            && (n !in order ==> n !in s.deleted && Get(s.stale, n, now) == Get(stale, n, now))
  {
    if order == [] {
    } else {
      var init, name := order[..|order| - 1], order[|order| - 1];
      SweepKeeps(stale, init, now, grace, failing, n);
      assert name !in init;
    }
  }

  predicate Monotone(passes: seq<Pass>) { forall i, j :: 0 <= i <= j < |passes| ==> passes[i].now <= passes[j].now }

  /** The service remembers `name` as stale since `time` or earlier. */
  predicate Remembers(passes: seq<Pass>, grace: int, name: Path, time: int) {
    name in StaleAfter(passes, grace) && StaleAfter(passes, grace)[name] <= time
  }

  /** A swept listing that finds the path undesired deletes it or remembers it. */
  lemma SweptIsRemembered(prefix: string, passes: seq<Pass>, k: nat, grace: int, name: Path)
    requires AllWellFormed(prefix, passes) && Monotone(passes) && k < |passes|
    requires Completed(passes, k, grace) && UndesiredAt(passes[k], name)
    ensures name in DeletedAt(passes, k, grace) || Remembers(passes[..k + 1], grace, name, passes[k].now)
    ensures grace <= 0 ==> name in DeletedAt(passes, k, grace)
  {
    var head, p := passes[..k], passes[k];
    assert passes[..k + 1][..k] == head;
    assert WellFormed(prefix, p) && name in p.order;
    SweepKeeps(StaleAfter(head, grace), p.order, p.now, grace, p.failing, name);
    if name in StaleAfter(head, grace) {
      assert forall i :: 0 <= i < k ==> head[i] == passes[i];
      var j := RememberedIsStale(prefix, head, grace, name);
    }
  }

  /** A later pass deletes a remembered path or goes on remembering it. */
  lemma RememberedStays(prefix: string, passes: seq<Pass>, k: nat, grace: int, name: Path, time: int)
    requires AllWellFormed(prefix, passes) && k < |passes| && Remembers(passes[..k], grace, name, time)
    requires passes[k].listed ==> UndesiredAt(passes[k], name)
    ensures name in DeletedAt(passes, k, grace) || Remembers(passes[..k + 1], grace, name, time)
    ensures Completed(passes, k, grace) && passes[k].now - time >= grace ==>
              name in DeletedAt(passes, k, grace)
  {
    var head, p := passes[..k], passes[k];
    assert passes[..k + 1][..k] == head;
    assert WellFormed(prefix, p);
    SweepKeeps(StaleAfter(head, grace), p.order, p.now, grace, p.failing, name);
  }

  /** From a swept listing on, a path that stays undesired is remembered until a pass deletes it. */
  lemma {:induction false} RememberedUntilDeleted(prefix: string, passes: seq<Pass>, j: nat, k: nat, grace: int,
                                                  name: Path)
    requires AllWellFormed(prefix, passes) && Monotone(passes) && j <= k < |passes|
    requires Completed(passes, j, grace)
    requires forall i :: j <= i <= k && passes[i].listed ==> UndesiredAt(passes[i], name)
    ensures (exists i :: j <= i <= k && name in DeletedAt(passes, i, grace))
            || Remembers(passes[..k + 1], grace, name, passes[j].now)
    decreases k
  {
    if k == j {
      SweptIsRemembered(prefix, passes, k, grace, name);
    } else {
      RememberedUntilDeleted(prefix, passes, j, k - 1, grace, name);
      if Remembers(passes[..k], grace, name, passes[j].now) {
        RememberedStays(prefix, passes, k, grace, name, passes[j].now);
      }
    }
  }

  /**
    The other direction: a path found undesired by a swept listing and by every listing since is deleted
    by the time a swept listing comes at least the grace period later.
  */
  lemma LongStaleIsDeleted(prefix: string, passes: seq<Pass>, j: nat, k: nat, grace: int, name: Path)
    requires AllWellFormed(prefix, passes) && Monotone(passes) && j <= k < |passes|
    requires Completed(passes, j, grace) && Completed(passes, k, grace)
    requires forall i :: j <= i <= k && passes[i].listed ==> UndesiredAt(passes[i], name)
    requires passes[k].now - passes[j].now >= grace
    ensures exists i :: j <= i <= k && name in DeletedAt(passes, i, grace)
  {
    if j == k {
      SweptIsRemembered(prefix, passes, k, grace, name);
    } else {
      RememberedUntilDeleted(prefix, passes, j, k - 1, grace, name);
      if Remembers(passes[..k], grace, name, passes[j].now) {
        RememberedStays(prefix, passes, k, grace, name, passes[j].now);
      }
    }
  }

  /** `name` is desired, or not there, at pass `i`, and every listing after it up to `k` finds it undesired. */
  ghost predicate LastSparedAt(passes: seq<Pass>, i: nat, k: nat, name: Path)
    requires k < |passes|
  {
    && i < k && !UndesiredAt(passes[i], name)
    && forall m :: i < m <= k && passes[m].listed ==> UndesiredAt(passes[m], name)
  }

  /** A pass at which the path is desired, or not there, forgets it exactly when the pass is completed. */
  lemma SparedIsForgotten(prefix: string, passes: seq<Pass>, i: nat, grace: int, name: Path)
    requires AllWellFormed(prefix, passes) && i < |passes| && !UndesiredAt(passes[i], name)
    ensures name !in DeletedAt(passes, i, grace)
    ensures var before, after := StaleAfter(passes[..i], grace), StaleAfter(passes[..i + 1], grace);
            if Completed(passes, i, grace) then name !in after
            else (name in after <==> name in before) && (name in before ==> after[name] == before[name])
  {
    var p := passes[i];
    assert passes[..i + 1][..i] == passes[..i];
    assert WellFormed(prefix, p);
    SweepEffect(StaleAfter(passes[..i], grace), p.order, p.now, grace, p.failing);
    SweepKeeps(StaleAfter(passes[..i], grace), p.order, p.now, grace, p.failing, name);
  }

  /** The path is remembered since `time` from before pass `i`, which did not forget it. */
  ghost predicate Carried(passes: seq<Pass>, i: nat, time: int, grace: int, name: Path)
    requires i < |passes|
  {
    && !Completed(passes, i, grace)
    && name in StaleAfter(passes[..i], grace) && StaleAfter(passes[..i], grace)[name] == time
  }

  /** What is remembered after a pass was remembered before it or is new. */
  lemma RememberedBefore(prefix: string, passes: seq<Pass>, k: nat, grace: int, name: Path)
    requires AllWellFormed(prefix, passes) && k < |passes| && name in StaleAfter(passes[..k + 1], grace)
    ensures var before, time := StaleAfter(passes[..k], grace), StaleAfter(passes[..k + 1], grace)[name];
            (name in before && time == before[name]) || time == passes[k].now
  {
    var p := passes[k];
    assert passes[..k + 1][..k] == passes[..k];
    assert WellFormed(prefix, p);
    SweepEffect(StaleAfter(passes[..k], grace), p.order, p.now, grace, p.failing);
  }

  lemma {:induction false} RememberedComesFrom(prefix: string, passes: seq<Pass>, i: nat, k: nat, grace: int,
                                               name: Path)
    requires AllWellFormed(prefix, passes) && Monotone(passes) && i < k <= |passes|
    requires !UndesiredAt(passes[i], name) && name in StaleAfter(passes[..k], grace)
    ensures var time := StaleAfter(passes[..k], grace)[name];
            Carried(passes, i, time, grace, name) || (i + 1 < k && time >= passes[i + 1].now)
    decreases k
  {
    if k == i + 1 {
      SparedIsForgotten(prefix, passes, i, grace, name);
    } else {
      var before := StaleAfter(passes[..k - 1], grace);
      RememberedBefore(prefix, passes, k - 1, grace, name);
      if name in before && StaleAfter(passes[..k], grace)[name] == before[name] {
        RememberedComesFrom(prefix, passes, i, k - 1, grace, name);
      } else {
        assert passes[i + 1].now <= passes[k - 1].now;
      }
    }
  }

  lemma {:induction false} CarriedOn(prefix: string, passes: seq<Pass>, i: nat, k: nat, grace: int, name: Path,
                                     time: int)
    requires AllWellFormed(prefix, passes) && k < |passes| && LastSparedAt(passes, i, k, name)
    requires !Completed(passes, i, grace) && Remembers(passes[..i], grace, name, time)
    ensures (exists m :: i < m < k && name in DeletedAt(passes, m, grace)) || Remembers(passes[..k], grace, name, time)
    decreases k
  {
    if k == i + 1 {
      SparedIsForgotten(prefix, passes, i, grace, name);
    } else {
      CarriedOn(prefix, passes, i, k - 1, grace, name, time);
      if Remembers(passes[..k - 1], grace, name, time) {
        RememberedStays(prefix, passes, k - 1, grace, name, time);
      }
    }
  }

  lemma EarlyDeletionNeedsIncomplete(prefix: string, passes: seq<Pass>, i: nat, m: nat, grace: int, name: Path)
    requires AllWellFormed(prefix, passes) && Monotone(passes) && i < m < |passes|
    requires !UndesiredAt(passes[i], name) && name in DeletedAt(passes, m, grace)
    requires InGrace(passes, i + 1, m, grace)
    ensures !Completed(passes, i, grace) && Remembers(passes[..i], grace, name, passes[m].now - grace)
  {
    var before, p := StaleAfter(passes[..m], grace), passes[m];
    SweepEffect(before, p.order, p.now, grace, p.failing);
    assert passes[i + 1].now <= p.now;
    RememberedComesFrom(prefix, passes, i, m, grace, name);
  }

  /**
    Exactly when a path is deleted too early, that is less than the grace period after the pass behind the
    last one that desired it (or did not find it): that last pass was not completed, because its listing or
    one of its deletions failed, and the path was remembered as stale from before it, for long enough.
  */
  lemma EarlyDeletionExactlyWhen(prefix: string, passes: seq<Pass>, i: nat, k: nat, grace: int, name: Path)
    requires AllWellFormed(prefix, passes) && Monotone(passes) && k < |passes| && LastSparedAt(passes, i, k, name)
    requires Completed(passes, k, grace) && InGrace(passes, i + 1, k, grace)
    ensures (exists m :: i < m <= k && name in DeletedAt(passes, m, grace)) <==>
              !Completed(passes, i, grace) && Remembers(passes[..i], grace, name, passes[k].now - grace)
  {
    var time := passes[k].now - grace;
    if m :| i < m <= k && name in DeletedAt(passes, m, grace) {
      EarlierIsOlder(passes, m, k);
      EarlyDeletionNeedsIncomplete(prefix, passes, i, m, grace, name);
    }
    if !Completed(passes, i, grace) && Remembers(passes[..i], grace, name, time) {
      CarriedOn(prefix, passes, i, k, grace, name, time);
      if Remembers(passes[..k], grace, name, time) {
        RememberedStays(prefix, passes, k, grace, name, time);
      }
    }
  }

  /** Three passes: "b" is stale, becomes desired while the deletion of "a" fails, and is dropped again. */
  function AbortedCleanUp(): seq<Pass> {
    [Pass({}, {"a", "b"}, ["a", "b"], 0, true, {}),
     Pass({"b"}, {"a", "b"}, ["a"], 30, true, {"a"}),
     Pass({}, {"a", "b"}, ["b", "a"], 31, true, {})]
  }

  /** Without that condition a path can be deleted one second after it was last desired. */
  lemma AbortedCleanUpDeletesEarly()
    ensures var passes := AbortedCleanUp();
            "b" in DeletedAt(passes, 2, 30) && "b" in passes[1].desired && passes[1].listed
            && passes[2].now - passes[1].now == 1
  {
    var passes := AbortedCleanUp();
    assert passes[..2][..1] == passes[..1] && passes[..1][..0] == [];
    var s0 := SweepStale(map[], ["a", "b"], 0, 30, {});
    assert ["a", "b"][..1] == ["a"] && ["a"][..0] == [];
    assert SweepStale(map[], ["a"], 0, 30, {}).stale == map["a" := 0];
    assert s0.stale == map["a" := 0, "b" := 0] && !s0.aborted;
    assert StaleAfter(passes[..1], 30) == map["a" := 0, "b" := 0];
    var s1 := SweepStale(map["a" := 0, "b" := 0], ["a"], 30, 30, {"a"});
    assert s1.aborted && s1.stale == map["a" := 0, "b" := 0];
    assert StaleAfter(passes[..2], 30) == map["a" := 0, "b" := 0];
    var order := ["b", "a"];
    assert order[..1] == ["b"] && ["b"][..0] == [];
    var s2 := SweepStale(map["a" := 0, "b" := 0], ["b"], 31, 30, {});
    assert s2.deleted == [] + ["b"] && !s2.aborted;
  }

  /** Three passes: "b" is stale, becomes desired while the listing fails, and is dropped again. */
  function FailedListing(): seq<Pass> {
    [Pass({}, {"b"}, ["b"], 0, true, {}), Pass({"b"}, {"b"}, [], 30, false, {}), Pass({}, {"b"}, ["b"], 31, true, {})]
  }

  /** A failed listing does the same without any failing deletion. */
  lemma FailedListingDeletesEarly()
    ensures var passes := FailedListing();
            && "b" in DeletedAt(passes, 2, 30) && "b" in passes[1].desired && passes[2].now - passes[1].now == 1
            && forall i :: 0 <= i < 3 ==> !AbortedAt(passes, i, 30)
  {
    var passes := FailedListing();
    assert passes[..2][..1] == passes[..1] && passes[..1][..0] == [];
    assert ["b"][..0] == [];
    assert SweepStale(map[], ["b"], 0, 30, {}).stale == map["b" := 0];
    assert StaleAfter(passes[..1], 30) == map["b" := 0];
    assert StaleAfter(passes[..2], 30) == map["b" := 0];
    assert SweepStale(map["b" := 0], ["b"], 31, 30, {}).deleted == [] + ["b"];
    forall i | 0 <= i < 3 ensures !AbortedAt(passes, i, 30) { NoFailureNoAbort(passes, i, 30); }
  }

  // ----- the pass as code

  function Paths(gens: seq<Generation>): set<Path> { set i | 0 <= i < |gens| :: gens[i].path }

  /** The clean-up deletes undesired paths only, so it takes away nothing the first half established. */
  lemma CleanUpKeepsDesired(stale: map<Path, int>, p: Pass, grace: int, remote: map<Path, Stored>,
                            gens: seq<Generation>)
    requires Distinct(p.order) && p.desired == Paths(gens) && AllHold(remote, gens)
    requires forall name :: name in p.order ==> name !in p.desired
    ensures AllHold(remote - Names(AfterPass(stale, p, grace).deleted), gens)
  {
    var deleted := AfterPass(stale, p, grace).deleted;
    if p.listed { SweepEffect(stale, p.order, p.now, grace, p.failing); }
    forall i | 0 <= i < |gens| ensures Holds(remote - Names(deleted), gens[i]) {
      assert gens[i].path in p.desired && Holds(remote, gens[i]);
      HoldsElsewhere(remote, remote - Names(deleted), gens[i]);
    }
  }

  /** The names of a set in some order. */
  method ListNames(names: set<Path>) returns (order: seq<Path>)
    ensures Distinct(order) && forall name :: name in order <==> name in names
  {
    order := [];
    var todo := names;
    while todo != {}
      invariant todo <= names && Distinct(order)
      invariant forall name :: name in order <==> name in names && name !in todo
      decreases todo
    {
      var name :| name in todo;
      order := order + [name];
      todo := todo - {name};
    }
  }

  /** The paths of the service's own prefix. */
  function Owned(prefix: string, remote: map<Path, Stored>): set<Path> {
    set name | name in remote && OwnedPrefix(prefix, name)
  }

  class MediaMtxReconciler {
    const grace: int
    const default: string
    var remote: map<Path, Stored>
    var staleSince: map<Path, int>

    constructor (grace: int, default: string, remote: map<Path, Stored>)
      ensures this.grace == grace && this.default == default && this.remote == remote && staleSince == map[]
    {
      this.grace, this.default := grace, default;
      this.remote, staleSince := remote, map[];
    }

    method ApplyDesired(gens: seq<Generation>, faults: seq<Fault>) returns (counts: Counts)
      requires |gens| == |faults|
      modifies this`remote
      ensures Applied(remote, counts) == ApplyAll(Applied(old(remote), Counts(0, 0, 0)), gens, faults, default)
    {
      counts := Counts(0, 0, 0);
      var i := 0;
      while i < |gens|
        invariant 0 <= i <= |gens|
        invariant Applied(remote, counts)
               == ApplyAll(Applied(old(remote), Counts(0, 0, 0)), gens[..i], faults[..i], default)
      {
        var g, fault := gens[i], faults[i];
        assert gens[..i + 1][..i] == gens[..i] && faults[..i + 1][..i] == faults[..i];
        ghost var goal := ApplyOne(Applied(remote, counts), g, fault, default);
        var desired := Ingress(g);
        var raised := desired.None? || fault == BeforeWrite;
        if !raised {
          if g.path !in remote {
            remote := remote[g.path := Written(desired.value, default)];
            raised := fault == InWrite;
            if !raised { counts := counts.(added := counts.added + 1); }
          } else if Normalized(remote[g.path]) != desired.value {
            remote := remote[g.path := Written(desired.value, default)];
            raised := fault == InWrite;
            if !raised { counts := counts.(replaced := counts.replaced + 1); }
          }
          raised := raised || fault == AfterWrite;
        }
        if raised {
          counts := counts.(failed := counts.failed + 1);
        }
        assert Applied(remote, counts) == goal;
        i := i + 1;
      }
      assert gens[..i] == gens && faults[..i] == faults;
    }

    method RemoveStale(p: Pass) returns (deleted: seq<Path>, aborted: bool)
      modifies this
      ensures Sweep(staleSince, deleted, aborted) == AfterPass(old(staleSince), p, grace)
      ensures remote == old(remote) - Names(deleted)
    {
      deleted, aborted := [], false;
      if !p.listed { return; }
      var i := 0;
      while i < |p.order|
        invariant 0 <= i <= |p.order| && !aborted
        invariant Sweep(staleSince, deleted, false)
                  == SweepStale(old(staleSince), p.order[..i], p.now, grace, p.failing)
        invariant remote == old(remote) - Names(deleted)
      {
        var name := p.order[i];
        assert p.order[..i + 1][..i] == p.order[..i];
        assert SweepStale(old(staleSince), p.order[..i + 1], p.now, grace, p.failing)
            == Visit(Sweep(staleSince, deleted, false), name, p.now, grace, p.failing);
        var first := Get(staleSince, name, p.now);
        staleSince := staleSince[name := first];
        if p.now - first >= grace {
          if name in p.failing {
            SweepStaysAborted(old(staleSince), p.order, i + 1, p.now, grace, p.failing);
            aborted := true;
            return;
          }
          RemoveOne(old(remote), deleted, name);
          remote := remote - {name};
          staleSince := staleSince - {name};
          deleted := deleted + [name];
        }
        i := i + 1;
      }
      assert p.order[..i] == p.order;
      staleSince := map name | name in staleSince && name !in p.desired && name in p.configured :: staleSince[name];
    }

    /** One whole pass: the desired generations, then the clean-up of what the server lists. */
    method ReconcileOnce(prefix: string, gens: seq<Generation>, faults: seq<Fault>, now: int, listed: bool,
                         failing: set<Path>)
      returns (counts: Counts, deleted: seq<Path>, aborted: bool, ghost p: Pass)
      requires |gens| == |faults|
      modifies this
      ensures var first := ApplyAll(Applied(old(remote), Counts(0, 0, 0)), gens, faults, default);
              && p.desired == Paths(gens) && p.configured == Owned(prefix, first.remote)
              && p.now == now && p.listed == listed && p.failing == failing
              && counts == first.counts && remote == first.remote - Names(deleted)
              && (AllHold(first.remote, gens) ==> AllHold(remote, gens))
      ensures WellFormed(prefix, p) && Distinct(p.order)
      ensures Sweep(staleSince, deleted, aborted) == AfterPass(old(staleSince), p, grace)
    {
      counts := ApplyDesired(gens, faults);
      var desired, configured := Paths(gens), Owned(prefix, remote);
      var order := ListNames(configured - desired);
      var pass := Pass(desired, configured, order, now, listed, failing);
      p := pass;
      ghost var between := remote;
      deleted, aborted := RemoveStale(pass);
      if AllHold(between, gens) { CleanUpKeepsDesired(old(staleSince), p, grace, between, gens); }
    }
  }

  /** An error-free first half and any clean-up: every desired path ends up with its configuration. */
  lemma WholePassConverges(remote: map<Path, Stored>, stale: map<Path, int>, p: Pass, grace: int, gens: seq<Generation>,
                           default: string)
    requires DistinctPaths(gens) && AllValid(gens) && Distinct(p.order) && p.desired == Paths(gens)
    requires forall name :: name in p.order ==> name !in p.desired
    ensures var first := ApplyAll(Applied(remote, Counts(0, 0, 0)), gens, NoFaults(|gens|), default);
            AllHold(first.remote - Names(AfterPass(stale, p, grace).deleted), gens)
  {
    CleanIsFaultless(Applied(remote, Counts(0, 0, 0)), gens, default);
    OnePassConverges(Applied(remote, Counts(0, 0, 0)), gens, default);
    CleanUpKeepsDesired(stale, p, grace, ApplyClean(Applied(remote, Counts(0, 0, 0)), gens, default).remote, gens);
  }

  lemma {:induction false} SweepStaysAborted(stale: map<Path, int>, order: seq<Path>, k: nat, now: int, grace: int,
                                             failing: set<Path>)
    requires k <= |order| && SweepStale(stale, order[..k], now, grace, failing).aborted
    ensures SweepStale(stale, order, now, grace, failing) == SweepStale(stale, order[..k], now, grace, failing)
    decreases |order|
  {
    if k == |order| {
      assert order[..k] == order;
    } else {
      assert order[..|order| - 1][..k] == order[..k];
      SweepStaysAborted(stale, order[..|order| - 1], k, now, grace, failing);
    }
  }
}

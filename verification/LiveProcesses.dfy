/**
  The running objects behind the state machine: the supervisor that drives the two services and
  the command queue, and the native worker that dispatches what it reads. Each handler is shown
  to carry out exactly one action of `LiveSystem`.
*/
module LiveProcesses {
  import opened Common
  import opened LiveIdentity
  import opened LiveEvents
  import opened AssignmentQueues
  import opened NativeIdentity
  import opened LiveSystem
  import opened LiveSafety

  class LiveSupervisor {
    const cfg: Config
    const identities: LiveIdentityService
    const events: LiveEventService
    const commands: LiveCommandQueue

    constructor (cfg: Config)
      requires cfg.capacity >= 1
      ensures fresh(identities) && fresh(events) && fresh(commands)
      ensures this.cfg == cfg && Valid() && Represents(START)
    {
      this.cfg := cfg;
      identities := new LiveIdentityService();
      events := new LiveEventService(cfg.settings);
      commands := new LiveCommandQueue(cfg.capacity);
    }

    ghost predicate Valid()
      reads identities, events, commands
    {
      identities.Valid() && commands.Valid() && commands.capacity == cfg.capacity && events.settings == cfg.settings
    }

    function Key(t: nat): TrackKey { TrackKey(cfg.camera, cfg.run, cfg.generation, t) }

    /** The objects hold the supervisor's half of `s`. */
    ghost predicate Represents(s: System)
      reads identities, events, commands
    {
      && s.events == events.State()
      && s.queue == commands.assignments && s.stops == commands.controls
      && Mirrors(s.identities, identities.tracks)
    }

    /** `mine` is this run's part of the identity service's dictionary. */
    ghost predicate Mirrors(mine: map<nat, TrackIdentity>, tracks: map<TrackKey, TrackIdentity>) {
      && (forall t :: t in mine <==> Key(t) in tracks)
      && (forall t :: t in mine ==> mine[t] == tracks[Key(t)])
    }

    lemma MirrorUpdate(mine: map<nat, TrackIdentity>, tracks: map<TrackKey, TrackIdentity>, t: nat, id: TrackIdentity)
      requires Mirrors(mine, tracks)
      ensures Mirrors(mine[t := id], tracks[Key(t) := id])
    {
    }

    lemma MirrorRemove(mine: map<nat, TrackIdentity>, tracks: map<TrackKey, TrackIdentity>, t: nat)
      requires Mirrors(mine, tracks)
      ensures Mirrors(mine - {t}, tracks - {Key(t)})
    {
    }

    method PutEach(list: seq<Assignment>)
      requires Valid()
      modifies commands
      ensures Valid()
      ensures commands.assignments == PutAll(old(commands.assignments), list, cfg.capacity)
      ensures commands.controls == old(commands.controls)
    {
      var i := 0;
      while i < |list|
        invariant 0 <= i <= |list| && Valid()
        invariant commands.assignments == PutAll(old(commands.assignments), list[..i], cfg.capacity)
        invariant commands.controls == old(commands.controls)
      {
        var accepted := commands.PutNowait(Assign(list[i]));
        assert list[..i + 1][..i] == list[..i];
        i := i + 1;
      }
      assert list[..i] == list;
    }

    /** One evidence event through resolve, accept and queueing; a raised error ends the handler. */
    method ProcessEvidence(a: Action, ghost s: System)
      requires a.OnEvidence? && Valid() && Represents(s)
      modifies identities, events, commands
      ensures Valid() && Represents(Next(cfg, s, a))
    {
      var decision := identities.Resolve(Key(a.tracker), a.x);
      assert decision == Resolved(s, a).decision;
      var reply, stored := events.Accept(cfg.camera, cfg.run, cfg.generation, EventOf(cfg, a), decision, a.rowStored);
      assert events.State() == EvidenceEvents(cfg, s, a).state && reply == EvidenceEvents(cfg, s, a).reply;
      if reply.Commands? {
        PutEach(reply.list);
      }
      MirrorUpdate(s.identities, old(identities.tracks), a.tracker, Resolved(s, a).track);
    }

    /** One expiry event; the identity is dropped only when nothing was raised. */
    method ProcessExpired(a: Action, ghost s: System)
      requires a.OnExpired? && Valid() && Represents(s)
      modifies identities, events, commands
      ensures Valid() && Represents(Next(cfg, s, a))
    {
      var reply, stored := events.Expire(cfg.camera, cfg.run, cfg.generation, EventOf(cfg, a), a.rowStored);
      if reply.Commands? {
        identities.Expire(Key(a.tracker));
        MirrorRemove(s.identities, old(identities.tracks), a.tracker);
        PutEach(reply.list);
      }
    }

    /** The writer task takes one command and hands it to the pipe. */
    method WriteNext(ghost s: System) returns (command: Option<Command>)
      requires Valid() && Represents(s)
      modifies commands
      ensures Valid() && Represents(Next(cfg, s, Send))
      ensures Next(cfg, s, Send).wire == s.wire + if command.Some? then [command.value] else []
    {
      command := commands.GetNowait();
    }
  }

  class NativeWorker {
    const generation: nat
    const hop: LiveAssignmentQueue
    const osd: LiveOsdState
    var context: map<nat, nat>
    var tracks: map<nat, NativeState>
    var stopped: bool

    constructor (generation: nat, dimensions: nat)
      ensures fresh(hop) && fresh(osd)
      ensures this.generation == generation && osd.dimensions == dimensions && Valid() && Value() == START.native
    {
      this.generation := generation;
      hop := new LiveAssignmentQueue();
      osd := new LiveOsdState(generation, dimensions);
      context, tracks, stopped := map[], map[], false;
    }

    /** Both replicas hold the same identity for every tracker. */
    ghost predicate Valid()
      reads this, hop, osd
    {
      && hop.Valid() && hop.order == [] && osd.Valid() && osd.generation == generation
      && forall t :: Twins(Value(), t)
    }

    ghost function Value(): Native
      reads this, osd
    {
      Native(context, tracks, osd.entries, stopped)
    }

    /** Decode context, hop, track replica, then display replica. */
    method OnAssignment(a: Assignment) returns (applied: bool)
      requires Valid() && (a.reference.Some? ==> |a.reference.value| == osd.dimensions)
      modifies this, hop, osd
      ensures Valid() && Value() == DeliverAssignment(generation, old(Value()), a)
      ensures applied == (&& a.generation == generation && a.revision > Get(old(context), a.tracker, 0)
                          && Accepts(Get(old(tracks), a.tracker, INITIAL), a))
    {
      ghost var goal := DeliverAssignment(generation, Value(), a);
      forall t ensures Twins(goal, t) {
        DispatchKeepsTwins(generation, Value(), a, t);
      }
      assert Twins(Value(), a.tracker);
      if a.generation != generation { return false; }
      if a.revision <= Get(context, a.tracker, 0) { return false; }
      context := context[a.tracker := a.revision];
      var queued, next := hop.Hop(a);
      if !queued || next.None? { return false; }
      var identity := Get(tracks, a.tracker, INITIAL);
      applied := Accepts(identity, next.value);
      tracks := tracks[a.tracker := Apply(identity, next.value)];
      if applied {
        applied := osd.ApplyAssignment(next.value);
      }
      assert Value() == goal;
    }
  }
}

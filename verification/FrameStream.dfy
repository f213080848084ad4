/**
  Length-prefixed frames on the pipe, the decode context, the reader of the native process's
  output and the writer that numbers it. MessagePack itself is a parameter.
*/
module FrameStream {
  import opened Common
  import opened Wire
  import opened LiveMessages
  import opened RoundTrips

  type Byte = x: int | 0 <= x < 256

  const HEADER_SIZE: nat := 4
  const MAX_FRAME: nat := 4 * 1024 * 1024

  /** The serialiser: packs payloads, and unpacks bytes to a value or fails. */
  datatype Packer = Packer(pack: Payload -> seq<Byte>, unpack: seq<Byte> -> Read<Value>)

  ghost predicate Faithful(c: Packer) { forall p :: c.unpack(c.pack(p)) == Good(Dict(p)) }

  function BigEndian(n: nat): (r: seq<Byte>)
    requires n < 0x1_0000_0000
    ensures |r| == HEADER_SIZE
  {
    [n / 0x100_0000, n / 0x1_0000 % 0x100, n / 0x100 % 0x100, n % 0x100]
  }

  function FromBigEndian(b: seq<Byte>): nat
    requires |b| == HEADER_SIZE
  {
    ((b[0] as int * 0x100 + b[1]) * 0x100 + b[2]) * 0x100 + b[3]
  }

  lemma LengthRoundTrip(n: nat)
    requires n < 0x1_0000_0000
    ensures FromBigEndian(BigEndian(n)) == n
  {
  }

  datatype Error =
    | TruncatedFrame | FrameTooLarge | InvalidMessagepack | InvalidPayload
    | WrongSession | WrongCamera | WrongRun | WrongGeneration | WrongRuntimeAttempt | StaleAssignmentRevision
    | OutOfOrderSequence

  datatype Result<+T> = Ok(value: T) | Err(error: Error)

  predicate Fits(c: Packer, m: Message) { |c.pack(Encode(m))| <= MAX_FRAME }

  function EncodeFrame(c: Packer, m: Message): Result<seq<Byte>> {
    var packed := c.pack(Encode(m));
    if |packed| > MAX_FRAME then Err(FrameTooLarge) else Ok(BigEndian(|packed|) + packed)
  }

  function DecodeFrame(c: Packer, frame: seq<Byte>): Result<Message> {
    if |frame| < HEADER_SIZE then Err(TruncatedFrame)
    else
      var size := FromBigEndian(frame[..HEADER_SIZE]);
      if size > MAX_FRAME then Err(FrameTooLarge)
      else if |frame| != HEADER_SIZE + size then Err(TruncatedFrame)
      else match c.unpack(frame[HEADER_SIZE..])
        case Bad => Err(InvalidMessagepack)
        case Good(v) =>
          if !v.Dict? then Err(InvalidPayload)
          else match Decode(v.entries)
            case Bad => Err(InvalidPayload)
            case Good(m) => Ok(m)
  }

  datatype Identity = Identity(session: string, camera: string, run: string, generation: int, attempt: int)

  type Revisions = map<int, int>

  /** The first context check that fails, in the order they are made. */
  function ContextError(id: Identity, revisions: Revisions, m: Message): Option<Error> {
    if m.header.session != id.session then Some(WrongSession)
    else if m.header.camera != id.camera then Some(WrongCamera)
    else if m.header.run != id.run then Some(WrongRun)
    else if m.header.generation != id.generation then Some(WrongGeneration)
    else if m.header.runtimeAttempt != id.attempt then Some(WrongRuntimeAttempt)
    else if m.body.AssignmentBody? && m.body.revision <= Get(revisions, m.body.assignedTracker, 0) then
      Some(StaleAssignmentRevision)
    else None
  }

  function Recorded(revisions: Revisions, m: Message): Revisions {
    if m.body.AssignmentBody? then revisions[m.body.assignedTracker := m.body.revision] else revisions
  }

  /** How one whole frame is decoded, apart from the context. */
  type Decoder = seq<Byte> -> Result<Message>

  function DecoderOf(c: Packer): Decoder { frame => DecodeFrame(c, frame) }

  class DecodeContext {
    const decoder: Decoder
    const id: Identity
    var revisions: Revisions

    constructor (decoder: Decoder, id: Identity)
      ensures this.decoder == decoder && this.id == id && revisions == map[]
    {
      this.decoder, this.id := decoder, id;
      revisions := map[];
    }

    method Decode(frame: seq<Byte>) returns (r: Result<Message>)
      modifies this
      ensures match decoder(frame)
              case Err(e) => r == Err(e) && revisions == old(revisions)
              case Ok(m) =>
                match ContextError(id, old(revisions), m)
                case Some(e) => r == Err(e) && revisions == old(revisions)
                case None => r == Ok(m) && revisions == Recorded(old(revisions), m)
    {
      r := decoder(frame);
      if r.Err? { return; }
      var m := r.value;
      if m.header.session != id.session { return Err(WrongSession); }
      if m.header.camera != id.camera { return Err(WrongCamera); }
      if m.header.run != id.run { return Err(WrongRun); }
      if m.header.generation != id.generation { return Err(WrongGeneration); }
      if m.header.runtimeAttempt != id.attempt { return Err(WrongRuntimeAttempt); }
      if m.body.AssignmentBody? {
        if m.body.revision <= Get(revisions, m.body.assignedTracker, 0) { return Err(StaleAssignmentRevision); }
        revisions := revisions[m.body.assignedTracker := m.body.revision];
      }
    }
  }

  // ----- the reader

  datatype End = Finished(stopped: Option<Message>) | Raised(error: Error)

  /** The events handed on, and how reading ended. */
  datatype Reading = Reading(events: seq<Message>, end: End)

  datatype Cursor = Cursor(revisions: Revisions, previous: int, stopped: Option<Message>)

  /** One frame at the head of the stream: its size, or why it cannot be cut off. */
  function FrameSize(stream: seq<Byte>): Result<nat> {
    if |stream| < HEADER_SIZE then Err(TruncatedFrame)
    else
      var size := FromBigEndian(stream[..HEADER_SIZE]);
      if size > MAX_FRAME then Err(FrameTooLarge)
      else if |stream| < HEADER_SIZE + size then Err(TruncatedFrame)
      else Ok(HEADER_SIZE + size)
  }

  function Advance(at: Cursor, m: Message): Cursor {
    Cursor(Recorded(at.revisions, m), m.header.sequence, if m.body.StoppedBody? then Some(m) else at.stopped)
  }

  /** The complaint about a decoded message, if any. */
  function Complaint(id: Identity, at: Cursor, m: Message): Option<Error> {
    if ContextError(id, at.revisions, m).Some? then ContextError(id, at.revisions, m)
    else if m.header.sequence <= at.previous then Some(OutOfOrderSequence)
    else None
  }

  function ReadAll(decode: Decoder, id: Identity, at: Cursor, stream: seq<Byte>): Reading
    decreases |stream|
  {
    if stream == [] then Reading([], Finished(at.stopped))
    else match FrameSize(stream)
      case Err(e) => Reading([], Raised(e))
      case Ok(n) =>
        match decode(stream[..n])
        case Err(e) => Reading([], Raised(e))
        case Ok(m) =>
          match Complaint(id, at, m)
          case Some(e) => Reading([], Raised(e))
          case None =>
            var rest := ReadAll(decode, id, Advance(at, m), stream[n..]);
            Reading([m] + rest.events, rest.end)
  }

  const FROM_START := Cursor(map[], -1, None)

  function Then(events: seq<Message>, rest: Reading): Reading { Reading(events + rest.events, rest.end) }

  lemma ThenEnds(events: seq<Message>, end: End)
    ensures Then(events, Reading([], end)) == Reading(events, end)
  {
  }

  lemma ThenMore(events: seq<Message>, m: Message, rest: Reading)
    ensures Then(events, Reading([m] + rest.events, rest.end)) == Then(events + [m], rest)
  {
    assert events + ([m] + rest.events) == events + [m] + rest.events;
  }

  lemma TailSlice(stream: seq<Byte>, pos: nat, n: nat)
    requires pos + n <= |stream|
    ensures stream[pos..][..n] == stream[pos..pos + n] && stream[pos..][n..] == stream[pos + n..]
  {
  }

  /** The reader's loop over the native process's whole output. */
  method ReadEvents(context: DecodeContext, stream: seq<Byte>) returns (events: seq<Message>, end: End)
    modifies context
    ensures Reading(events, end)
         == ReadAll(context.decoder, context.id, FROM_START.(revisions := old(context.revisions)), stream)
  {
    events := [];
    var previous, stopped, pos := -1, None, 0;
    ghost var goal := ReadAll(context.decoder, context.id, FROM_START.(revisions := context.revisions), stream);
    assert stream[0..] == stream;
    while true
      invariant 0 <= pos <= |stream|
      invariant goal == Then(events, ReadAll(context.decoder, context.id,
                                             Cursor(context.revisions, previous, stopped), stream[pos..]))
      decreases |stream| - pos
    {
      ghost var tail, at := stream[pos..], Cursor(context.revisions, previous, stopped);
      ghost var rest := ReadAll(context.decoder, context.id, at, tail);
      ThenEnds(events, rest.end);
      if |stream| - pos < HEADER_SIZE {
        if pos == |stream| { return events, Finished(stopped); }
        return events, Raised(TruncatedFrame);
      }
      var size := FromBigEndian(stream[pos..pos + HEADER_SIZE]);
      TailSlice(stream, pos, HEADER_SIZE);
      if size > MAX_FRAME { return events, Raised(FrameTooLarge); }
      if |stream| - pos - HEADER_SIZE < size { return events, Raised(TruncatedFrame); }
      var next := pos + HEADER_SIZE + size;
      TailSlice(stream, pos, HEADER_SIZE + size);
      var r := context.Decode(stream[pos..next]);
      if r.Err? { return events, Raised(r.error); }
      var event := r.value;
      if event.header.sequence <= previous { return events, Raised(OutOfOrderSequence); }
      ThenMore(events, event, ReadAll(context.decoder, context.id, Advance(at, event), stream[next..]));
      previous := event.header.sequence;
      events := events + [event];
      if event.body.StoppedBody? { stopped := Some(event); }
      pos := next;
    }
  }

  // ----- what the reader makes of well-formed output

  /** The messages a reader at `at` takes without complaint. */
  ghost predicate Acceptable(id: Identity, at: Cursor, msgs: seq<Message>)
    decreases |msgs|
  {
    msgs == [] || (Complaint(id, at, msgs[0]).None? && Acceptable(id, Advance(at, msgs[0]), msgs[1..]))
  }

  function AdvanceAll(at: Cursor, msgs: seq<Message>): Cursor
    decreases |msgs|
  {
    if msgs == [] then at else AdvanceAll(Advance(at, msgs[0]), msgs[1..])
  }

  function Concat(frames: seq<seq<Byte>>): seq<Byte> {
    if frames == [] then [] else frames[0] + Concat(frames[1..])
  }

  /** A frame whose length prefix is right and that decodes to `m`. */
  ghost predicate FrameOf(decode: Decoder, f: seq<Byte>, m: Message) {
    |f| >= HEADER_SIZE && FromBigEndian(f[..HEADER_SIZE]) == |f| - HEADER_SIZE <= MAX_FRAME && decode(f) == Ok(m)
  }

  ghost predicate FramesOf(decode: Decoder, frames: seq<seq<Byte>>, msgs: seq<Message>) {
    |frames| == |msgs| && forall i :: 0 <= i < |msgs| ==> FrameOf(decode, frames[i], msgs[i])
  }

  lemma OneFrameReadsBack(decode: Decoder, id: Identity, at: Cursor, f: seq<Byte>, m: Message, after: seq<Byte>)
    requires FrameOf(decode, f, m) && Complaint(id, at, m).None?
    ensures ReadAll(decode, id, at, f + after) == Then([m], ReadAll(decode, id, Advance(at, m), after))
  {
    var stream := f + after;
    assert stream[..HEADER_SIZE] == f[..HEADER_SIZE];
    assert stream[..|f|] == f && stream[|f|..] == after;
  }

  lemma ThenTwice(msgs: seq<Message>, rest: Reading)
    requires msgs != []
    ensures Then([msgs[0]], Then(msgs[1..], rest)) == Then(msgs, rest)
  {
    assert [msgs[0]] + (msgs[1..] + rest.events) == msgs + rest.events;
  }

  lemma ConcatHead(frames: seq<seq<Byte>>, tail: seq<Byte>)
    requires frames != []
    ensures Concat(frames) + tail == frames[0] + (Concat(frames[1..]) + tail)
  {
  }

  /** Any concatenation of acceptable frames is read back as exactly those messages, then reading goes on. */
  lemma {:induction false} FramesReadBack(decode: Decoder, id: Identity, at: Cursor, frames: seq<seq<Byte>>,
                                          msgs: seq<Message>, tail: seq<Byte>)
    requires FramesOf(decode, frames, msgs) && Acceptable(id, at, msgs)
    ensures ReadAll(decode, id, at, Concat(frames) + tail)
            == Then(msgs, ReadAll(decode, id, AdvanceAll(at, msgs), tail))
    decreases |msgs|
  {
    if msgs == [] {
      assert Concat(frames) + tail == tail;
    } else {
      var m := msgs[0];
      assert FrameOf(decode, frames[0], m);
      ConcatHead(frames, tail);
      OneFrameReadsBack(decode, id, at, frames[0], m, Concat(frames[1..]) + tail);
      assert FramesOf(decode, frames[1..], msgs[1..]);
      FramesReadBack(decode, id, Advance(at, m), frames[1..], msgs[1..], tail);
      ThenTwice(msgs, ReadAll(decode, id, AdvanceAll(at, msgs), tail));
    }
  }

  /** A proper, non-empty beginning of a frame is always reported as truncated. */
  lemma BeginningIsTruncated(decode: Decoder, id: Identity, at: Cursor, f: seq<Byte>, m: Message, cut: nat)
    requires FrameOf(decode, f, m) && 0 < cut < |f|
    ensures ReadAll(decode, id, at, f[..cut]) == Reading([], Raised(TruncatedFrame))
  {
    if cut >= HEADER_SIZE {
      assert f[..cut][..HEADER_SIZE] == f[..HEADER_SIZE];
    }
  }

  // ----- frames the encoder makes

  function Frame(c: Packer, m: Message): seq<Byte>
    requires Fits(c, m)
  {
    EncodeFrame(c, m).value
  }

  predicate AllFit(c: Packer, msgs: seq<Message>) { forall i :: 0 <= i < |msgs| ==> Fits(c, msgs[i]) }

  predicate AllValid(msgs: seq<Message>) { forall i :: 0 <= i < |msgs| ==> ValidMessage(msgs[i]) }

  function Frames(c: Packer, msgs: seq<Message>): seq<seq<Byte>>
    requires AllFit(c, msgs)
  {
    seq(|msgs|, i requires 0 <= i < |msgs| => Frame(c, msgs[i]))
  }

  lemma EncodedFrame(c: Packer, m: Message)
    requires Faithful(c) && Fits(c, m) && ValidMessage(m)
    ensures FrameOf(DecoderOf(c), Frame(c, m), m)
  {
    var packed, f := c.pack(Encode(m)), Frame(c, m);
    LengthRoundTrip(|packed|);
    assert f[..HEADER_SIZE] == BigEndian(|packed|) && f[HEADER_SIZE..] == packed;
    DecodeUndoesEncode(m);
    assert c.unpack(packed) == Good(Dict(Encode(m)));
    assert DecodeFrame(c, f) == Ok(m);
  }

  lemma EncodedFrames(c: Packer, msgs: seq<Message>)
    requires Faithful(c) && AllFit(c, msgs) && AllValid(msgs)
    ensures FramesOf(DecoderOf(c), Frames(c, msgs), msgs)
  {
    forall i | 0 <= i < |msgs| ensures FrameOf(DecoderOf(c), Frames(c, msgs)[i], msgs[i]) {
      EncodedFrame(c, msgs[i]);
    }
  }

  /** The whole output is read back, and the reader returns the last stopped event. */
  lemma WholeOutputReadsBack(c: Packer, id: Identity, msgs: seq<Message>)
    requires Faithful(c) && AllFit(c, msgs) && AllValid(msgs) && Acceptable(id, FROM_START, msgs)
    ensures ReadAll(DecoderOf(c), id, FROM_START, Concat(Frames(c, msgs)))
         == Reading(msgs, Finished(AdvanceAll(FROM_START, msgs).stopped))
  {
    var out, end := Concat(Frames(c, msgs)), AdvanceAll(FROM_START, msgs);
    EncodedFrames(c, msgs);
    FramesReadBack(DecoderOf(c), id, FROM_START, Frames(c, msgs), msgs, []);
    assert out + [] == out;
    ThenEnds(msgs, Finished(end.stopped));
  }

  /** Output that ends inside a frame is always reported as truncated, after every whole frame was handed on. */
  lemma CutInsideFrameIsDetected(c: Packer, id: Identity, msgs: seq<Message>, last: Message, cut: nat)
    requires Faithful(c) && AllFit(c, msgs) && AllValid(msgs) && Acceptable(id, FROM_START, msgs)
    requires Fits(c, last) && ValidMessage(last) && 0 < cut < |Frame(c, last)|
    ensures ReadAll(DecoderOf(c), id, FROM_START, Concat(Frames(c, msgs)) + Frame(c, last)[..cut])
         == Reading(msgs, Raised(TruncatedFrame))
  {
    EncodedFrames(c, msgs);
    EncodedFrame(c, last);
    FramesReadBack(DecoderOf(c), id, FROM_START, Frames(c, msgs), msgs, Frame(c, last)[..cut]);
    BeginningIsTruncated(DecoderOf(c), id, AdvanceAll(FROM_START, msgs), Frame(c, last), last, cut);
    ThenEnds(msgs, Raised(TruncatedFrame));
  }

  // ----- the writer

  const FIRST_SEQUENCE := 100

  function Renumber(m: Message, sequence: int): Message { m.(header := m.header.(sequence := sequence)) }

  function Numbered(msgs: seq<Message>): seq<Message> {
    seq(|msgs|, i requires 0 <= i < |msgs| => Renumber(msgs[i], FIRST_SEQUENCE + i))
  }

  /** An event of this run; the native process sends no assignments. */
  predicate FromRun(id: Identity, m: Message) {
    ContextError(id, map[], m).None? && !m.body.AssignmentBody?
  }

  predicate AllFromRun(id: Identity, msgs: seq<Message>) { forall i :: 0 <= i < |msgs| ==> FromRun(id, msgs[i]) }

  ghost predicate CountsFrom(msgs: seq<Message>, first: int) {
    forall i :: 0 <= i < |msgs| ==> msgs[i].header.sequence == first + i
  }

  lemma {:induction false} ConcatAppend(frames: seq<seq<Byte>>, f: seq<Byte>)
    ensures Concat(frames + [f]) == Concat(frames) + f
  {
    if frames == [] {
      assert frames + [f] == [f] && [f][1..] == [];
    } else {
      assert (frames + [f])[1..] == frames[1..] + [f];
      ConcatAppend(frames[1..], f);
    }
  }

  lemma FramesAppend(c: Packer, msgs: seq<Message>, n: nat)
    requires n < |msgs| && AllFit(c, msgs[..n]) && Fits(c, msgs[n])
    ensures AllFit(c, msgs[..n + 1])
            && Concat(Frames(c, msgs[..n + 1])) == Concat(Frames(c, msgs[..n])) + Frame(c, msgs[n])
  {
    assert msgs[..n + 1] == msgs[..n] + [msgs[n]];
    assert Frames(c, msgs[..n + 1]) == Frames(c, msgs[..n]) + [Frame(c, msgs[n])];
    ConcatAppend(Frames(c, msgs[..n]), Frame(c, msgs[n]));
  }

  /**
    The writer's loop: take events in order, overwrite their numbers, write the frames. An event too
    large for a frame ends it; `written` tells how many went out before.
  */
  method WriteEvents(c: Packer, queued: seq<Message>) returns (out: seq<Byte>, written: nat)
    ensures written <= |queued| && AllFit(c, Numbered(queued)[..written])
    ensures out == Concat(Frames(c, Numbered(queued)[..written]))
    ensures written < |queued| ==> !Fits(c, Numbered(queued)[written])
  {
    out, written := [], 0;
    var sequence := FIRST_SEQUENCE;
    ghost var sent := Numbered(queued);
    while written < |queued|
      invariant written <= |queued| && sequence == FIRST_SEQUENCE + written
      invariant AllFit(c, sent[..written]) && out == Concat(Frames(c, sent[..written]))
    {
      var outbound := Renumber(queued[written], sequence);
      sequence := sequence + 1;
      assert outbound == sent[written];
      var frame := EncodeFrame(c, outbound);
      if frame.Err? { return; }
      FramesAppend(c, sent, written);
      out := out + frame.value;
      written := written + 1;
    }
  }

  /** How many of the messages the reader takes before the first one whose context it refuses. */
  function Taken(id: Identity, at: Cursor, msgs: seq<Message>): (n: nat)
    ensures n <= |msgs|
    decreases |msgs|
  {
    if msgs == [] || ContextError(id, at.revisions, msgs[0]).Some? then 0
    else Taken(id, Advance(at, msgs[0]), msgs[1..]) + 1
  }

  /** The context error of the message behind those `n`. */
  function RefusalAt(id: Identity, at: Cursor, msgs: seq<Message>, n: nat): Option<Error>
    requires n < |msgs|
  {
    ContextError(id, AdvanceAll(at, msgs[..n]).revisions, msgs[n])
  }

  lemma AdvanceAllHead(at: Cursor, msgs: seq<Message>, n: nat)
    requires 0 < n <= |msgs|
    ensures AdvanceAll(at, msgs[..n]) == AdvanceAll(Advance(at, msgs[0]), msgs[1..][..n - 1])
  {
    assert msgs[..n][1..] == msgs[1..][..n - 1];
  }

  lemma {:induction false} TakenStopsAtRefusal(id: Identity, at: Cursor, msgs: seq<Message>)
    ensures var n := Taken(id, at, msgs); n < |msgs| ==> RefusalAt(id, at, msgs, n).Some?
    decreases |msgs|
  {
    if msgs == [] {
    } else if ContextError(id, at.revisions, msgs[0]).Some? {
      assert msgs[..0] == [];
    } else {
      var n := Taken(id, at, msgs);
      TakenStopsAtRefusal(id, Advance(at, msgs[0]), msgs[1..]);
      AdvanceAllHead(at, msgs, n);
    }
  }

  /** Numbered upwards, those taken draw no complaint at all. */
  lemma {:induction false} TakenIsAcceptable(id: Identity, at: Cursor, msgs: seq<Message>, first: int)
    requires CountsFrom(msgs, first) && at.previous < first
    ensures Acceptable(id, at, msgs[..Taken(id, at, msgs)])
    decreases |msgs|
  {
    var n := Taken(id, at, msgs);
    if n == 0 {
    } else {
      TakenIsAcceptable(id, Advance(at, msgs[0]), msgs[1..], first + 1);
      assert msgs[..n][1..] == msgs[1..][..n - 1];
    }
  }

  /** The event carries this run's header. */
  predicate SameRun(id: Identity, m: Message) {
    && m.header.session == id.session && m.header.camera == id.camera && m.header.run == id.run
    && m.header.generation == id.generation && m.header.runtimeAttempt == id.attempt
  }

  /** Everything taken is of the run; an event that is refused and is no assignment is not. */
  lemma {:induction false} TakenIsOfTheRun(id: Identity, at: Cursor, msgs: seq<Message>, i: nat)
    requires i < |msgs|
    ensures var n := Taken(id, at, msgs);
            (i < n ==> SameRun(id, msgs[i])) && (i == n && !msgs[i].body.AssignmentBody? ==> !SameRun(id, msgs[i]))
    decreases |msgs|
  {
    if i == 0 || ContextError(id, at.revisions, msgs[0]).Some? {
    } else {
      TakenIsOfTheRun(id, Advance(at, msgs[0]), msgs[1..], i - 1);
    }
  }

  lemma {:induction false} AllOfTheRunIsTaken(id: Identity, at: Cursor, msgs: seq<Message>)
    requires AllFromRun(id, msgs)
    ensures Taken(id, at, msgs) == |msgs|
    decreases |msgs|
  {
    if msgs == [] {
    } else {
      assert FromRun(id, msgs[0]);
      AllOfTheRunIsTaken(id, Advance(at, msgs[0]), msgs[1..]);
    }
  }

  lemma {:induction false} ConcatSplit(frames: seq<seq<Byte>>, n: nat)
    requires n <= |frames|
    ensures Concat(frames) == Concat(frames[..n]) + Concat(frames[n..])
  {
    if n == 0 {
      assert frames[..0] == [] && frames[0..] == frames;
    } else {
      ConcatSplit(frames[1..], n - 1);
      assert frames[..n][1..] == frames[1..][..n - 1] && frames[1..][n - 1..] == frames[n..];
    }
  }

  lemma RefusedFrame(decode: Decoder, id: Identity, at: Cursor, f: seq<Byte>, m: Message, after: seq<Byte>)
    requires FrameOf(decode, f, m) && ContextError(id, at.revisions, m).Some?
    ensures ReadAll(decode, id, at, f + after) == Reading([], Raised(ContextError(id, at.revisions, m).value))
  {
    var stream := f + after;
    assert stream[..HEADER_SIZE] == f[..HEADER_SIZE];
    assert stream[..|f|] == f;
  }

  /** Numbered frames are read up to the first one whose context is refused. */
  lemma NumberedReadsTaken(decode: Decoder, id: Identity, at: Cursor, frames: seq<seq<Byte>>, msgs: seq<Message>,
                           first: int)
    requires FramesOf(decode, frames, msgs) && CountsFrom(msgs, first) && at.previous < first
    ensures var n := Taken(id, at, msgs);
            && (n < |msgs| ==> RefusalAt(id, at, msgs, n).Some?)
            && ReadAll(decode, id, at, Concat(frames))
               == Reading(msgs[..n], if n == |msgs| then Finished(AdvanceAll(at, msgs).stopped)
                                     else Raised(RefusalAt(id, at, msgs, n).value))
  {
    var n := Taken(id, at, msgs);
    var rest, end := Concat(frames[n..]), AdvanceAll(at, msgs[..n]);
    TakenStopsAtRefusal(id, at, msgs);
    TakenIsAcceptable(id, at, msgs, first);
    ConcatSplit(frames, n);
    FramesReadBack(decode, id, at, frames[..n], msgs[..n], rest);
    if n == |msgs| {
      assert frames[n..] == [] && msgs[..n] == msgs;
      ThenEnds(msgs, Finished(end.stopped));
    } else {
      ConcatHead(frames[n..], []);
      assert rest + [] == rest && Concat(frames[n..][1..]) + [] == Concat(frames[n..][1..]);
      assert FrameOf(decode, frames[n], msgs[n]);
      RefusedFrame(decode, id, end, frames[n], msgs[n], Concat(frames[n..][1..]));
      ThenEnds(msgs[..n], Raised(RefusalAt(id, at, msgs, n).value));
    }
  }

  lemma PrefixCounts(queued: seq<Message>, written: nat)
    requires written <= |queued|
    ensures CountsFrom(Numbered(queued)[..written], FIRST_SEQUENCE)
  {
  }

  lemma PrefixOfTheRun(id: Identity, queued: seq<Message>, written: nat)
    requires written <= |queued| && AllFromRun(id, queued)
    ensures AllFromRun(id, Numbered(queued)[..written])
  {
    forall i | 0 <= i < written ensures FromRun(id, Numbered(queued)[i]) { assert FromRun(id, queued[i]); }
  }

  /**
    From writer to reader, whatever valid events are queued, also with a foreign header: the reader receives
    those before the first one whose context it refuses, renumbered, and then raises that context error; it
    receives all that were written when they are all of the run.
  */
  lemma WriterToReader(c: Packer, id: Identity, queued: seq<Message>, written: nat)
    requires Faithful(c) && written <= |queued|
    requires AllFit(c, Numbered(queued)[..written]) && AllValid(Numbered(queued)[..written])
    ensures var sent := Numbered(queued)[..written];
            var n := Taken(id, FROM_START, sent);
            && (n < |sent| ==> RefusalAt(id, FROM_START, sent, n).Some?)
            && ReadAll(DecoderOf(c), id, FROM_START, Concat(Frames(c, sent)))
               == Reading(sent[..n], if n == |sent| then Finished(AdvanceAll(FROM_START, sent).stopped)
                                     else Raised(RefusalAt(id, FROM_START, sent, n).value))
            && (AllFromRun(id, queued) ==> n == |sent|)
  {
    var sent := Numbered(queued)[..written];
    EncodedFrames(c, sent);
    PrefixCounts(queued, written);
    NumberedReadsTaken(DecoderOf(c), id, FROM_START, Frames(c, sent), sent, FIRST_SEQUENCE);
    if AllFromRun(id, queued) {
      PrefixOfTheRun(id, queued, written);
      AllOfTheRunIsTaken(id, FROM_START, sent);
    }
  }

  // ----- the numbers alone

  /** The length prefix is right. */
  ghost predicate Sized(f: seq<Byte>) {
    |f| >= HEADER_SIZE && FromBigEndian(f[..HEADER_SIZE]) == |f| - HEADER_SIZE <= MAX_FRAME
  }

  /** Whatever the frame decodes to carries the number, and decoding itself does not complain of the order. */
  ghost predicate Carries(decode: Decoder, f: seq<Byte>, number: int) {
    match decode(f)
    case Ok(m) => m.header.sequence == number
    case Err(e) => e != OutOfOrderSequence
  }

  ghost predicate AllCarry(decode: Decoder, frames: seq<seq<Byte>>, first: int) {
    forall i :: 0 <= i < |frames| ==> Sized(frames[i]) && Carries(decode, frames[i], first + i)
  }

  lemma {:induction false} NeverOutOfOrder(decode: Decoder, id: Identity, at: Cursor, frames: seq<seq<Byte>>,
                                           first: int)
    requires AllCarry(decode, frames, first) && at.previous < first
    ensures ReadAll(decode, id, at, Concat(frames)).end != Raised(OutOfOrderSequence)
    decreases |frames|
  {
    if frames == [] {
    } else {
      var f, stream := frames[0], Concat(frames);
      assert Sized(f) && Carries(decode, f, first + 0);
      assert stream[..HEADER_SIZE] == f[..HEADER_SIZE] && stream[..|f|] == f && stream[|f|..] == Concat(frames[1..]);
      if decode(f).Ok? && Complaint(id, at, decode(f).value).None? {
        LaterCarry(decode, frames, first);
        NeverOutOfOrder(decode, id, Advance(at, decode(f).value), frames[1..], first + 1);
      }
    }
  }

  lemma LaterCarry(decode: Decoder, frames: seq<seq<Byte>>, first: int)
    requires AllCarry(decode, frames, first) && frames != []
    ensures AllCarry(decode, frames[1..], first + 1)
  {
    forall i | 0 <= i < |frames[1..]| ensures Sized(frames[1..][i]) && Carries(decode, frames[1..][i], first + 1 + i) {
      assert frames[1..][i] == frames[i + 1] && Carries(decode, frames[i + 1], first + (i + 1));
    }
  }

  lemma ReadSequence(p: Payload)
    requires HasHeader(p) && DecodeHeader(p).Good?
    ensures Int(DecodeHeader(p).value.sequence) == p[SEQUENCE]
  {
  }

  lemma WrittenSequence(m: Message)
    ensures SEQUENCE in Encode(m) && Encode(m)[SEQUENCE] == Int(m.header.sequence)
  {
  }

  /** Valid or not, a message keeps its number on the way. */
  lemma SequenceSurvives(m: Message)
    ensures Decode(Encode(m)).Good? ==> Decode(Encode(m)).value.header.sequence == m.header.sequence
  {
    WrittenSequence(m);
    if Decode(Encode(m)).Good? {
      DecodedHeader(Encode(m));
      ReadSequence(Encode(m));
    }
  }

  lemma EncodedCarries(c: Packer, m: Message)
    requires Faithful(c) && Fits(c, m)
    ensures Sized(Frame(c, m)) && Carries(DecoderOf(c), Frame(c, m), m.header.sequence)
  {
    var packed, f := c.pack(Encode(m)), Frame(c, m);
    LengthRoundTrip(|packed|);
    assert f[..HEADER_SIZE] == BigEndian(|packed|) && f[HEADER_SIZE..] == packed;
    assert c.unpack(packed) == Good(Dict(Encode(m)));
    SequenceSurvives(m);
  }

  lemma FramesCarry(c: Packer, msgs: seq<Message>, first: int)
    requires Faithful(c) && AllFit(c, msgs) && CountsFrom(msgs, first)
    ensures AllCarry(DecoderOf(c), Frames(c, msgs), first)
  {
    forall i | 0 <= i < |msgs|
      ensures Sized(Frames(c, msgs)[i]) && Carries(DecoderOf(c), Frames(c, msgs)[i], first + i)
    {
      EncodedCarries(c, msgs[i]);
    }
  }

  /** Whatever is queued, valid or not and of any run, the reader never reports an out-of-order sequence. */
  lemma WriterIsNeverOutOfOrder(c: Packer, id: Identity, queued: seq<Message>, written: nat)
    requires Faithful(c) && written <= |queued| && AllFit(c, Numbered(queued)[..written])
    ensures ReadAll(DecoderOf(c), id, FROM_START, Concat(Frames(c, Numbered(queued)[..written]))).end
            != Raised(OutOfOrderSequence)
  {
    var sent := Numbered(queued)[..written];
    PrefixCounts(queued, written);
    FramesCarry(c, sent, FIRST_SEQUENCE);
    NeverOutOfOrder(DecoderOf(c), id, FROM_START, Frames(c, sent), FIRST_SEQUENCE);
  }

  // ----- what the context accepts

  /** The length is sent most significant byte first. */
  lemma MostSignificantFirst(b: seq<Byte>)
    requires |b| == 4
    ensures FromBigEndian(b) == b[0] as int * 16777216 + b[1] as int * 65536 + b[2] as int * 256 + b[3] as int
  {
  }

  /** Frames of up to four mebibytes are written, larger ones refused. */
  lemma FrameLimit(c: Packer, m: Message)
    ensures EncodeFrame(c, m).Err? <==> |c.pack(Encode(m))| > 4194304
  {
  }

  /** The first number the writer gives is one hundred, and numbers rise by one. */
  lemma NumbersRiseFromHundred(queued: seq<Message>, i: nat)
    requires i < |queued|
    ensures Numbered(queued)[i].header.sequence == 100 + i && Numbered(queued)[i].body == queued[i].body
    ensures Numbered(queued)[i].header.(sequence := 0) == queued[i].header.(sequence := 0)
  {
  }

  /** A context refuses exactly foreign headers and assignments that are not newer than the last accepted one. */
  lemma ContextRefusesExactly(id: Identity, revisions: Revisions, m: Message)
    ensures ContextError(id, revisions, m).None? <==>
              && SameRun(id, m)
              && (m.body.AssignmentBody? ==>
                    if m.body.assignedTracker in revisions then m.body.revision > revisions[m.body.assignedTracker]
                    else m.body.revision > 0)
  {
  }

  /** The newest revision accepted for a tracker. */
  function NewestAccepted(msgs: seq<Message>, tracker: int): Option<int> {
    if msgs == [] then None
    else
      var m := msgs[|msgs| - 1];
      if m.body.AssignmentBody? && m.body.assignedTracker == tracker then Some(m.body.revision)
      else NewestAccepted(msgs[..|msgs| - 1], tracker)
  }

  lemma {:induction false} AdvanceAllAppend(at: Cursor, msgs: seq<Message>, m: Message)
    ensures AdvanceAll(at, msgs + [m]) == Advance(AdvanceAll(at, msgs), m)
    decreases |msgs|
  {
    if msgs == [] {
      assert msgs + [m] == [m] && [m][1..] == [];
    } else {
      assert (msgs + [m])[1..] == msgs[1..] + [m];
      AdvanceAllAppend(Advance(at, msgs[0]), msgs[1..], m);
    }
  }

  /** The context remembers exactly that. */
  lemma {:induction false} RevisionsAreNewest(msgs: seq<Message>, tracker: int)
    ensures var revisions := AdvanceAll(FROM_START, msgs).revisions;
            NewestAccepted(msgs, tracker) == if tracker in revisions then Some(revisions[tracker]) else None
  {
    if msgs == [] {
    } else {
      var init, m := msgs[..|msgs| - 1], msgs[|msgs| - 1];
      assert msgs == init + [m];
      RevisionsAreNewest(init, tracker);
      AdvanceAllAppend(FROM_START, init, m);
    }
  }

  /** The newest stopped event. */
  function LastStopped(msgs: seq<Message>): Option<Message> {
    if msgs == [] then None
    else if msgs[|msgs| - 1].body.StoppedBody? then Some(msgs[|msgs| - 1])
    else LastStopped(msgs[..|msgs| - 1])
  }

  /** The reader's answer at the end of the output is the newest stopped event it read. */
  lemma {:induction false} AnswerIsLastStopped(msgs: seq<Message>)
    ensures AdvanceAll(FROM_START, msgs).stopped == LastStopped(msgs)
  {
    if msgs == [] {
    } else {
      var init, m := msgs[..|msgs| - 1], msgs[|msgs| - 1];
      assert msgs == init + [m];
      AnswerIsLastStopped(init);
      AdvanceAllAppend(FROM_START, init, m);
    }
  }

  /** The context reports the first header field that differs, in this order, and staleness last. */
  lemma ContextReportsFirst(id: Identity, revisions: Revisions, m: Message)
    ensures var h, e := m.header, ContextError(id, revisions, m);
            && (e == Some(WrongSession) <==> h.session != id.session)
            && (e == Some(WrongCamera) <==> h.session == id.session && h.camera != id.camera)
            && (e == Some(WrongRun) <==> h.session == id.session && h.camera == id.camera && h.run != id.run)
            && (e == Some(WrongGeneration) <==>
                  h.session == id.session && h.camera == id.camera && h.run == id.run && h.generation != id.generation)
            && (e == Some(StaleAssignmentRevision) ==> SameRun(id, m) && m.body.AssignmentBody?)
  {
  }
}

/** Decoding undoes encoding on every valid message, and encoding undoes decoding exactly on canonical payloads. */
module RoundTrips {
  import opened Common
  import opened Wire
  import opened LiveMessages
  import TraceState

  // ----- what a message must satisfy

  predicate ValidHeader(h: Header) {
    && h.version == VERSION && LowerUuid(h.session) && LowerUuid(h.camera) && LowerUuid(h.run)
    && h.generation >= 1 && h.runtimeAttempt >= 1 && h.sequence >= 0
    && TraceState.ValidTraceparent(h.traceparent)
    && (h.tracestate.Some? ==> TraceState.PythonAccepts(h.tracestate.value))
  }

  predicate ValidEmbedding(e: seq<real>) { |e| == DIMENSIONS && UnitNorm(e) }

  predicate ValidObservation(o: Observation) {
    && o.timestampNs >= 0 && |o.bbox| == 4 && |o.landmarks| == 10 && |o.landmarkConfidences| == 5
    && o.rejectMask >= 0 && ValidEmbedding(o.embedding)
  }

  predicate ValidBody(b: Body) {
    match KindOf(b)
    case StartKind =>
      && b.gpuId >= 0 && b.udpPort >= 1 && b.rtspPort >= 1 && b.profileVersion >= 1 && b.mode in MODES
      && b.sampleEveryN >= 1 && b.trackGapNs >= 1 && b.latencyMs >= 0 && b.reconnectInterval >= 0
      && b.reconnectAttempts >= -1 && b.frameTimeoutNs >= 1
      && Unit(b.detectorThreshold) && Unit(b.startThreshold) && Unit(b.top2Margin)
    case AssignmentKind =>
      && b.assignedTracker >= 0 && b.revision >= 1 && b.epoch >= 1 && b.decisionSequence >= 0
      && b.identityState in VERDICTS && AllOrNothing(b)
      && (b.face.Some? ==> LowerUuid(b.face.value)) && (b.reference.Some? ==> ValidEmbedding(b.reference.value))
    case StopKind => b.deadlineNs >= 1
    case HelloKind => true
    case StateKind => b.state in RUNTIME_STATES
    case OutputReadyKind => true
    case EvidenceKind =>
      && b.tracker >= 0 && b.evidenceRevision >= 1 && b.firstSeenNs >= 0 && b.lastSeenNs >= 0
      && |b.observations| <= OBSERVATION_LIMIT && |b.jpeg| <= JPEG_LIMIT
      && forall i :: 0 <= i < |b.observations| ==> ValidObservation(b.observations[i])
    case ExpiredKind => b.tracker >= 0 && b.evidenceRevision >= 1 && b.firstSeenNs >= 0 && b.lastSeenNs >= 0
    case MetricsKind => forall n :: n in b.counters ==> b.counters[n] >= 0
    case FailedKind => true
    case StoppedKind => b.decodedFrames >= 0 && b.emittedEvidence >= 0 && b.droppedEvents >= 0
    case OperationKind =>
      && b.operation in OPERATIONS && b.status in STATUSES && b.startedNs >= 0
      && OperationConsistent(b) && ValidAttributes(b.attributes)
  }

  predicate ValidMessage(m: Message) {
    ValidHeader(m.header) && ValidBody(m.body) && m.header.kind == KindOf(m.body)
  }

  // ----- canonical payloads

  predicate CanonicalUuid(v: Value) { v.Nil? || (v.Str? && Lower(v.text) == v.text) }

  predicate CanonicalNumber(v: Value) { v.Nil? || v.Float? }

  predicate CanonicalNumbers(v: Value) { v.Nil? || (v.List? && AllFloats(v.items)) }

  predicate CanonicalObservationField(n: Name, v: Value) {
    if n == BBOX || n == LANDMARKS || n == LANDMARK_CONFIDENCES || n == EMBEDDING then CanonicalNumbers(v)
    else if n == DETECTOR_CONFIDENCE || n == QUALITY_SCORE then CanonicalNumber(v)
    else true
  }

  predicate CanonicalObservation(v: Value) {
    v.Dict? && forall n :: n in v.entries ==> CanonicalObservationField(n, v.entries[n])
  }

  predicate AllCanonical(items: seq<Value>) { forall i :: 0 <= i < |items| ==> CanonicalObservation(items[i]) }

  predicate AllFloatEntries(entries: Payload) { forall n :: n in entries ==> entries[n].Float? }

  /**
    A field written the way the encoder writes it: identifiers in lower case, numbers of float
    fields as floats (the decoder also takes integers, and bytes for some number lists).
  */
  predicate CanonicalField(n: Name, v: Value) {
    if n == SESSION_ID || n == CAMERA_ID || n == RUN_ID || n == FACE_ID then CanonicalUuid(v)
    else if n == DETECTOR_THRESHOLD || n == RECOGNITION_THRESHOLD || n == TOP2_MARGIN || n == MATCH_SCORE then
      CanonicalNumber(v)
    else if n == REFERENCE_EMBEDDING then CanonicalNumbers(v)
    else if n == OBSERVATIONS then v.List? && AllCanonical(v.items)
    else if n == GAUGES then v.Dict? && AllFloatEntries(v.entries)
    else true
  }

  predicate Canonical(p: Payload) { forall n :: n in p ==> CanonicalField(n, p[n]) }

  // ----- fields

  lemma UuidReads(v: Value)
    requires Uuid(v).Good?
    ensures LowerUuid(Uuid(v).value) && (Str(Uuid(v).value) == v <==> CanonicalUuid(v))
  {
    var s, l := v.text, Lower(v.text);
    assert forall i :: 0 <= i < |s| ==> LowerChar(l[i]) == l[i] == LowerChar(s[i]);
    assert Lower(l) == l;
  }

  lemma EmbeddingReads(v: Value)
    requires ReadEmbedding(v).Good?
    ensures ValidEmbedding(ReadEmbedding(v).value) && (Reals(ReadEmbedding(v).value) == v <==> CanonicalNumbers(v))
  {
    NumbersCanonical(v, DIMENSIONS);
  }

  lemma EmbeddingWrites(e: seq<real>)
    requires ValidEmbedding(e)
    ensures ReadEmbedding(Reals(e)) == Good(e)
  {
    NumbersRoundTrip(e);
  }

  lemma ObservationWrites(o: Observation)
    requires ValidObservation(o)
    ensures ReadObservation(Dict(ObservationPayload(o))) == Good(o)
  {
    NumbersRoundTrip(o.bbox);
    NumbersRoundTrip(o.landmarks);
    NumbersRoundTrip(o.landmarkConfidences);
    EmbeddingWrites(o.embedding);
  }

  lemma ObservationFieldReads(v: Value, n: Name)
    requires ObservationReadable(v) && ObservationName(n)
    ensures ObservationField(ReadObservation(v).value, n) == v.entries[n] <==>
            CanonicalObservationField(n, v.entries[n])
  {
    var p := v.entries;
    if n == BBOX { NumbersCanonical(p[n], 4); }
    else if n == LANDMARKS { NumbersCanonical(p[n], 10); }
    else if n == LANDMARK_CONFIDENCES { NumbersCanonical(p[n], 5); }
    else if n == EMBEDDING { EmbeddingReads(p[n]); }
  }

  lemma ObservationReads(v: Value)
    requires ReadObservation(v).Good?
    ensures ValidObservation(ReadObservation(v).value)
    ensures Dict(ObservationPayload(ReadObservation(v).value)) == v <==> CanonicalObservation(v)
  {
    var p, o := v.entries, ReadObservation(v).value;
    NumbersCanonical(p[BBOX], 4);
    NumbersCanonical(p[LANDMARKS], 10);
    NumbersCanonical(p[LANDMARK_CONFIDENCES], 5);
    EmbeddingReads(p[EMBEDDING]);
    var q := ObservationPayload(o);
    assert q.Keys == p.Keys;
    forall n | n in p ensures q[n] == p[n] <==> CanonicalObservationField(n, p[n]) {
      ObservationFieldReads(v, n);
    }
    assert q == p <==> forall n :: n in p ==> q[n] == p[n];
  }

  ghost predicate ReadsAs(v: Value, o: Observation) { ReadObservation(v) == Good(o) }

  lemma {:induction false} EachReadsAs(items: seq<Value>, os: seq<Observation>)
    requires |items| == |os| && forall i :: 0 <= i < |os| ==> ReadsAs(items[i], os[i])
    ensures ReadEach(items) == Good(os)
  {
    if os == [] {
    } else {
      assert ReadsAs(items[0], os[0]);
      EachReadsAs(items[1..], os[1..]);
      assert os == [os[0]] + os[1..];
    }
  }

  lemma ObservationsWrite(os: seq<Observation>)
    requires forall i :: 0 <= i < |os| ==> ValidObservation(os[i])
    ensures ReadEach(ObservationList(os)) == Good(os)
  {
    forall i | 0 <= i < |os| ensures ReadsAs(ObservationList(os)[i], os[i]) {
      ObservationWrites(os[i]);
    }
    EachReadsAs(ObservationList(os), os);
  }

  lemma MapsEqual<K, V>(a: map<K, V>, b: map<K, V>)
    requires forall k :: k in a <==> k in b
    ensures a == b <==> forall k :: k in a ==> a[k] == b[k]
  {
    assert a.Keys == b.Keys;
  }

  lemma HeadAndTail<T>(a: seq<T>, b: seq<T>)
    requires a != [] && |a| == |b|
    ensures a == b <==> a[0] == b[0] && a[1..] == b[1..]
  {
    assert a == [a[0]] + a[1..] && b == [b[0]] + b[1..];
  }

  lemma AllCanonicalSplits(items: seq<Value>)
    requires items != []
    ensures AllCanonical(items) <==> CanonicalObservation(items[0]) && AllCanonical(items[1..])
  {
    assert forall i :: 0 <= i < |items| - 1 ==> items[1..][i] == items[i + 1];
    if CanonicalObservation(items[0]) && AllCanonical(items[1..]) {
      forall i | 0 <= i < |items| ensures CanonicalObservation(items[i]) {
        if i > 0 { assert items[1..][i - 1] == items[i]; }
      }
    }
  }

  lemma {:induction false} ObservationsRead(items: seq<Value>)
    requires ReadEach(items).Good?
    ensures var os := ReadEach(items).value;
            && |os| == |items| && (forall i :: 0 <= i < |os| ==> ValidObservation(os[i]))
            && (ObservationList(os) == items <==> AllCanonical(items))
  {
    if items == [] {
    } else {
      ObservationReads(items[0]);
      ObservationsRead(items[1..]);
      var os, tail := ReadEach(items).value, ReadEach(items[1..]).value;
      assert os == [ReadObservation(items[0]).value] + tail;
      var l := ObservationList(os);
      assert l[1..] == ObservationList(tail);
      HeadAndTail(l, items);
      AllCanonicalSplits(items);
    }
  }

  // ----- headers and bodies

  ghost predicate HeaderWritten(p: Payload, h: Header) {
    HasHeader(p) && forall n :: HeaderName(n) && n in p ==> p[n] == HeaderField(h, n)
  }

  ghost predicate BodyWritten(p: Payload, b: Body) {
    HasBody(KindOf(b), p) && forall n :: BodyName(KindOf(b), n) && n in p ==> p[n] == BodyField(b, n)
  }

  lemma HeaderWrites(h: Header, p: Payload)
    requires ValidHeader(h) && HeaderWritten(p, h)
    ensures DecodeHeader(p) == Good(h)
  {
    KindsParse(KindWord(h.kind), h.kind);
  }

  ghost predicate StartWritten(p: Payload, b: Body)
    requires b.StartBody?
  {
    forall n :: URI <= n <= ANNOTATED_ENABLED ==> n in p && p[n] == StartField(b, n)
  }

  lemma StartSourceIsReadable(b: Body, p: Payload)
    requires b.StartBody? && ValidBody(b) && HasBody(StartKind, p) && StartWritten(p, b)
    ensures StartSourceReadable(p)
  {
  }

  lemma StartTuningIsReadable(b: Body, p: Payload)
    requires b.StartBody? && ValidBody(b) && HasBody(StartKind, p) && StartWritten(p, b)
    ensures StartTuningReadable(p)
  {
  }

  lemma StartIsRead(b: Body, p: Payload)
    requires b.StartBody? && ValidBody(b) && HasBody(StartKind, p) && StartWritten(p, b) && StartReadable(p)
    ensures DecodeStart(p) == Good(b)
  {
  }

  lemma StartWrites(b: Body, p: Payload)
    requires b.StartBody? && ValidBody(b) && BodyWritten(p, b)
    ensures DecodeStart(p) == Good(b)
  {
    assert StartWritten(p, b);
    StartSourceIsReadable(b, p);
    StartTuningIsReadable(b, p);
    StartIsRead(b, p);
  }

  lemma AssignmentIsReadable(b: Body, p: Payload)
    requires b.AssignmentBody? && ValidBody(b) && BodyWritten(p, b)
    ensures AssignmentReadable(p)
  {
    if b.reference.Some? { EmbeddingWrites(b.reference.value); }
  }

  lemma AssignmentWrites(b: Body, p: Payload)
    requires b.AssignmentBody? && ValidBody(b) && BodyWritten(p, b)
    ensures DecodeAssignment(p) == Good(b)
  {
    AssignmentIsReadable(b, p);
    if b.reference.Some? { EmbeddingWrites(b.reference.value); }
  }

  lemma ObservationFieldWrites(os: seq<Observation>)
    requires |os| <= OBSERVATION_LIMIT && forall i :: 0 <= i < |os| ==> ValidObservation(os[i])
    ensures ReadObservations(List(ObservationList(os))) == Good(os)
  {
    ObservationsWrite(os);
  }

  lemma EvidenceFields(b: Body, p: Payload)
    requires b.EvidenceBody? && BodyWritten(p, b)
    ensures p[TRACKER_ID] == Int(b.tracker) && p[EVIDENCE_REVISION] == Int(b.evidenceRevision)
    ensures p[FIRST_SEEN_NS] == Int(b.firstSeenNs) && p[LAST_SEEN_NS] == Int(b.lastSeenNs)
    ensures p[OBSERVATIONS] == List(ObservationList(b.observations)) && p[REPRESENTATIVE_ALIGNED_JPEG] == Bin(b.jpeg)
  {
  }

  lemma EvidenceWrites(b: Body, p: Payload)
    requires b.EvidenceBody? && ValidBody(b) && BodyWritten(p, b)
    ensures DecodeEvidence(p) == Good(b)
  {
    EvidenceFields(b, p);
    ObservationFieldWrites(b.observations);
  }

  lemma CountersWrite(counters: map<Name, int>, gauges: map<Name, real>)
    requires forall n :: n in counters ==> counters[n] >= 0
    ensures ReadCounters(Dict(CounterEntries(counters))) == Good(counters)
    ensures ReadGauges(Dict(GaugeEntries(gauges))) == Good(gauges)
  {
    assert ReadCounters(Dict(CounterEntries(counters))).value == counters;
    assert ReadGauges(Dict(GaugeEntries(gauges))).value == gauges;
  }

  lemma MetricsWrites(b: Body, p: Payload)
    requires b.MetricsBody? && ValidBody(b) && BodyWritten(p, b)
    ensures DecodeMetrics(p) == Good(b)
  {
    CountersWrite(b.counters, b.gauges);
  }

  lemma OperationWrites(b: Body, p: Payload)
    requires b.OperationBody? && ValidBody(b) && BodyWritten(p, b)
    ensures DecodeOperation(p) == Good(b)
  {
  }

  lemma EventWrites(b: Body, p: Payload)
    requires b.StopBody? || b.HelloBody? || b.StateBody? || b.OutputReadyBody? || b.ExpiredBody? || b.FailedBody?
             || b.StoppedBody?
    requires ValidBody(b) && BodyWritten(p, b)
    ensures DecodeBody(KindOf(b), p) == Good(b)
  {
  }

  lemma BodyWrites(b: Body, p: Payload)
    requires ValidBody(b) && BodyWritten(p, b)
    ensures DecodeBody(KindOf(b), p) == Good(b)
  {
    match KindOf(b)
    case StartKind => StartWrites(b, p);
    case AssignmentKind => AssignmentWrites(b, p);
    case EvidenceKind => EvidenceWrites(b, p);
    case MetricsKind => MetricsWrites(b, p);
    case OperationKind => OperationWrites(b, p);
    case _ => EventWrites(b, p);
  }

  lemma NamesApart(k: Kind, n: Name)
    ensures BodyName(k, n) ==> !HeaderName(n) && n <= NAME_LIMIT
  {
  }

  lemma Written(m: Message)
    ensures HeaderWritten(Encode(m), m.header) && BodyWritten(Encode(m), m.body)
    ensures forall n :: n in Encode(m) <==> HeaderName(n) || BodyName(KindOf(m.body), n)
  {
    var p, k := Encode(m), KindOf(m.body);
    forall n ensures n in p <==> HeaderName(n) || BodyName(k, n) {
      NamesApart(k, n);
    }
    forall n | BodyName(k, n) ensures p[n] == BodyField(m.body, n) {
      NamesApart(k, n);
    }
  }

  /** Decoding undoes encoding for every valid message of all twelve kinds. */
  lemma DecodeUndoesEncode(m: Message)
    requires ValidMessage(m)
    ensures Decode(Encode(m)) == Good(m)
  {
    Written(m);
    HeaderWrites(m.header, Encode(m));
    BodyWrites(m.body, Encode(m));
  }

  // ----- the other way round

  lemma HeaderFieldReads(p: Payload, n: Name)
    requires HasHeader(p) && DecodeHeader(p).Good? && HeaderName(n)
    ensures HeaderField(DecodeHeader(p).value, n) == p[n] <==> CanonicalField(n, p[n])
  {
    if n == SESSION_ID || n == CAMERA_ID || n == RUN_ID { UuidReads(p[n]); }
    else if n == MESSAGE_TYPE { KindsParse(p[n].text, DecodeHeader(p).value.kind); }
  }

  lemma HeaderReads(p: Payload)
    requires HasHeader(p) && DecodeHeader(p).Good?
    ensures ValidHeader(DecodeHeader(p).value)
    ensures forall n :: HeaderName(n) && n in p ==>
              (HeaderField(DecodeHeader(p).value, n) == p[n] <==> CanonicalField(n, p[n]))
  {
    UuidReads(p[SESSION_ID]);
    UuidReads(p[CAMERA_ID]);
    UuidReads(p[RUN_ID]);
    forall n: Name | HeaderName(n) && n in p
      ensures HeaderField(DecodeHeader(p).value, n) == p[n] <==> CanonicalField(n, p[n])
    {
      HeaderFieldReads(p, n);
    }
  }

  /** The body fields are written back as they were read exactly when they were canonical. */
  ghost predicate BodyMatches(p: Payload, b: Body) {
    forall n :: BodyName(KindOf(b), n) && n in p ==> (BodyField(b, n) == p[n] <==> CanonicalField(n, p[n]))
  }

  lemma StartReadsFirst(p: Payload, n: Name)
    requires HasBody(StartKind, p) && DecodeStart(p).Good? && URI <= n <= OUTPUT_RTSP_PORT
    ensures StartField(DecodeStart(p).value, n) == p[n]
  {
  }

  lemma StartReadsRest(p: Payload, n: Name)
    requires HasBody(StartKind, p) && DecodeStart(p).Good? && OUTPUT_RTSP_PORT < n <= ANNOTATED_ENABLED
    ensures StartField(DecodeStart(p).value, n) == p[n] <==> CanonicalField(n, p[n])
  {
  }

  lemma StartReads(p: Payload)
    requires HasBody(StartKind, p) && DecodeStart(p).Good?
    ensures var b := DecodeStart(p).value; ValidBody(b) && BodyMatches(p, b)
  {
    var b := DecodeStart(p).value;
    forall n: Name | StartName(n) && n in p ensures BodyField(b, n) == p[n] <==> CanonicalField(n, p[n]) {
      if n <= OUTPUT_RTSP_PORT { StartReadsFirst(p, n); } else { StartReadsRest(p, n); }
    }
  }

  lemma AssignmentReads(p: Payload)
    requires HasBody(AssignmentKind, p) && DecodeAssignment(p).Good?
    ensures var b := DecodeAssignment(p).value; ValidBody(b) && BodyMatches(p, b)
  {
    if !p[FACE_ID].Nil? { UuidReads(p[FACE_ID]); }
    if !p[REFERENCE_EMBEDDING].Nil? { EmbeddingReads(p[REFERENCE_EMBEDDING]); }
  }

  lemma ObservationFieldReadsBack(v: Value)
    requires ReadObservations(v).Good?
    ensures var os := ReadObservations(v).value;
            && |os| <= OBSERVATION_LIMIT && (forall i :: 0 <= i < |os| ==> ValidObservation(os[i]))
            && (List(ObservationList(os)) == v <==> AllCanonical(v.items))
  {
    ObservationsRead(v.items);
  }

  lemma EvidenceFieldReads(p: Payload, n: Name)
    requires HasBody(EvidenceKind, p) && DecodeEvidence(p).Good? && EvidenceName(n)
    ensures EvidenceField(DecodeEvidence(p).value, n) == p[n] <==> CanonicalField(n, p[n])
  {
    if n == OBSERVATIONS { ObservationFieldReadsBack(p[OBSERVATIONS]); }
  }

  lemma EvidenceReads(p: Payload)
    requires HasBody(EvidenceKind, p) && DecodeEvidence(p).Good?
    ensures var b := DecodeEvidence(p).value; ValidBody(b) && BodyMatches(p, b)
  {
    ObservationFieldReadsBack(p[OBSERVATIONS]);
    forall n: Name | EvidenceName(n)
      ensures EvidenceField(DecodeEvidence(p).value, n) == p[n] <==> CanonicalField(n, p[n])
    {
      EvidenceFieldReads(p, n);
    }
  }

  lemma CountersRead(v: Value)
    requires ReadCounters(v).Good?
    ensures Dict(CounterEntries(ReadCounters(v).value)) == v
    ensures forall n :: n in ReadCounters(v).value ==> ReadCounters(v).value[n] >= 0
  {
    assert CounterEntries(ReadCounters(v).value) == v.entries;
  }

  lemma GaugesRead(v: Value)
    requires ReadGauges(v).Good?
    ensures Dict(GaugeEntries(ReadGauges(v).value)) == v <==> AllFloatEntries(v.entries)
  {
    var g := GaugeEntries(ReadGauges(v).value);
    assert g.Keys == v.entries.Keys;
    assert forall n :: n in g ==> (g[n] == v.entries[n] <==> v.entries[n].Float?);
    assert g == v.entries <==> forall n :: n in g ==> g[n] == v.entries[n];
  }

  lemma MetricsReads(p: Payload)
    requires HasBody(MetricsKind, p) && DecodeMetrics(p).Good?
    ensures var b := DecodeMetrics(p).value; ValidBody(b) && BodyMatches(p, b)
  {
    CountersRead(p[COUNTERS]);
    GaugesRead(p[GAUGES]);
  }

  lemma OperationFieldReads(p: Payload, n: Name)
    requires HasBody(OperationKind, p) && DecodeOperation(p).Good? && OperationName(n)
    ensures OperationField(DecodeOperation(p).value, n) == p[n]
  {
  }

  lemma OperationReads(p: Payload)
    requires HasBody(OperationKind, p) && DecodeOperation(p).Good?
    ensures var b := DecodeOperation(p).value; ValidBody(b) && BodyMatches(p, b)
  {
    forall n: Name | OperationName(n) ensures OperationField(DecodeOperation(p).value, n) == p[n] {
      OperationFieldReads(p, n);
    }
  }

  lemma EventReads(k: Kind, p: Payload)
    requires k in {StopKind, HelloKind, StateKind, OutputReadyKind, ExpiredKind, FailedKind, StoppedKind}
    requires HasBody(k, p) && DecodeBody(k, p).Good?
    ensures var b := DecodeBody(k, p).value; KindOf(b) == k && ValidBody(b) && BodyMatches(p, b)
  {
  }

  lemma BodyReads(k: Kind, p: Payload)
    requires HasBody(k, p) && DecodeBody(k, p).Good?
    ensures var b := DecodeBody(k, p).value; KindOf(b) == k && ValidBody(b) && BodyMatches(p, b)
  {
    match k
    case StartKind => StartReads(p);
    case AssignmentKind => AssignmentReads(p);
    case EvidenceKind => EvidenceReads(p);
    case MetricsKind => MetricsReads(p);
    case OperationKind => OperationReads(p);
    case _ => EventReads(k, p);
  }

  lemma FieldReadsBack(p: Payload, n: Name)
    requires Decode(p).Good? && n in p
    ensures n in Encode(Decode(p).value)
    ensures Encode(Decode(p).value)[n] == p[n] <==> CanonicalField(n, p[n])
  {
    var m := Decode(p).value;
    HeaderReads(p);
    BodyReads(m.header.kind, p);
    NamesApart(m.header.kind, n);
  }

  lemma NothingAdded(p: Payload, n: Name)
    requires Decode(p).Good? && n in Encode(Decode(p).value)
    ensures n in p
  {
    var m := Decode(p).value;
    BodyReads(m.header.kind, p);
  }

  /** The decoder yields valid messages only, and encoding gives the payload back exactly when it is canonical. */
  lemma EncodeUndoesDecodeExactlyOnCanonical(p: Payload)
    requires Decode(p).Good?
    ensures ValidMessage(Decode(p).value)
    ensures Encode(Decode(p).value) == p <==> Canonical(p)
  {
    var m := Decode(p).value;
    var q := Encode(m);
    HeaderReads(p);
    BodyReads(m.header.kind, p);
    forall n | n in p ensures n in q && (q[n] == p[n] <==> CanonicalField(n, p[n])) { FieldReadsBack(p, n); }
    forall n | n in q ensures n in p { NothingAdded(p, n); }
    MapsEqual(q, p);
  }

  lemma DecodedHeader(p: Payload)
    requires Decode(p).Good?
    ensures HasHeader(p) && DecodeHeader(p) == Good(Decode(p).value.header)
  {
  }

  // ----- accepted, but not canonical

  lemma OtherSpellingOfSession(m: Message, s: string)
    requires ValidHeader(m.header) && UuidShape(s) && Lower(s) == m.header.session
    ensures var p := Encode(m)[SESSION_ID := Str(s)]; HasHeader(p) && DecodeHeader(p) == Good(m.header)
  {
    Written(m);
    HeaderWithSession(m.header, Encode(m), Encode(m)[SESSION_ID := Str(s)], s);
  }

  /** Only the session field of the header is read differently. */
  lemma HeaderWithSession(h: Header, p: Payload, q: Payload, s: string)
    requires ValidHeader(h) && HeaderWritten(p, h) && q == p[SESSION_ID := Str(s)]
    requires UuidShape(s) && Lower(s) == h.session
    ensures HasHeader(q) && DecodeHeader(q) == Good(h)
  {
    HeaderWrites(h, p);
    SessionApart(p, q, s);
  }

  lemma SessionApart(p: Payload, q: Payload, s: string)
    requires HasHeader(p) && HeaderReadable(p) && q == p[SESSION_ID := Str(s)]
    requires UuidShape(s) && Uuid(p[SESSION_ID]) == Good(Lower(s))
    ensures HasHeader(q) && DecodeHeader(q) == DecodeHeader(p)
  {
    assert forall n :: 0 <= n <= TRACESTATE && n != SESSION_ID ==> q[n] == p[n];
  }

  lemma BodyOfOtherSpelling(m: Message, s: string)
    requires ValidBody(m.body)
    ensures var p := Encode(m)[SESSION_ID := Str(s)];
            HasBody(KindOf(m.body), p) && DecodeBody(KindOf(m.body), p) == Good(m.body)
  {
    Written(m);
    NamesApart(KindOf(m.body), SESSION_ID);
    BodyWrites(m.body, Encode(m)[SESSION_ID := Str(s)]);
  }

  lemma NamesOfOtherSpelling(m: Message, s: string, n: Name)
    ensures n in Encode(m)[SESSION_ID := Str(s)] <==> HeaderName(n) || BodyName(KindOf(m.body), n)
  {
    Written(m);
  }

  /** What decoding comes to once header, body and names are known. */
  lemma DecodeIs(p: Payload, m: Message)
    requires HasHeader(p) && DecodeHeader(p) == Good(m.header)
    requires HasBody(m.header.kind, p) && DecodeBody(m.header.kind, p) == Good(m.body)
    requires forall n :: n in p ==> HeaderName(n) || BodyName(m.header.kind, n)
    ensures Decode(p) == Good(m)
  {
  }

  lemma OtherSpellingDecodes(m: Message, s: string)
    requires ValidMessage(m) && UuidShape(s) && Lower(s) == m.header.session
    ensures Decode(Encode(m)[SESSION_ID := Str(s)]) == Good(m)
  {
    var p := Encode(m)[SESSION_ID := Str(s)];
    OtherSpellingOfSession(m, s);
    BodyOfOtherSpelling(m, s);
    forall n | n in p ensures HeaderName(n) || BodyName(m.header.kind, n) { NamesOfOtherSpelling(m, s, n); }
    DecodeIs(p, m);
  }

  /** Any other spelling of a session id is accepted as the same message, and is not written back. */
  lemma OtherSpellingIsAccepted(m: Message, s: string)
    requires ValidMessage(m) && UuidShape(s) && Lower(s) == m.header.session && s != m.header.session
    ensures var p := Encode(m)[SESSION_ID := Str(s)];
            Decode(p) == Good(m) && !Canonical(p) && Encode(m) != p
  {
    var p := Encode(m)[SESSION_ID := Str(s)];
    OtherSpellingDecodes(m, s);
    assert SESSION_ID in p && p[SESSION_ID] == Str(s) && !CanonicalField(SESSION_ID, p[SESSION_ID]);
    EncodeUndoesDecodeExactlyOnCanonical(p);
  }

  function Uniform(c: char): string {
    seq(36, i requires 0 <= i < 36 => if i == 8 || i == 13 || i == 18 || i == 23 then '-' else c)
  }

  function UniformTrace(): string {
    seq(55, i requires 0 <= i < 55 => if i < 2 then '0' else if i == 2 || i == 35 || i == 52 then '-' else '1')
  }

  /** A stop command of a session whose id consists of the letter "a". */
  function StopOfSessionA(): Message {
    var id := Uniform('a');
    Message(Header(VERSION, StopKind, id, id, id, 1, 1, 0, UniformTrace(), None), StopBody("shutdown", 1))
  }

  lemma UniformIsUuid()
    ensures LowerUuid(Uniform('a')) && UuidShape(Uniform('A')) && Lower(Uniform('A')) == Uniform('a') != Uniform('A')
  {
    assert Uniform('a')[0] == 'a' && Uniform('A')[0] == 'A';
  }

  lemma TraceIsValid()
    ensures TraceState.ValidTraceparent(UniformTrace())
  {
    var s := UniformTrace();
    assert s[3..35][0] == '1' && s[36..52][0] == '1';
  }

  /** The same command with the session id in upper case: accepted, and re-encoded differently. */
  lemma UpperCaseSessionIsNotWrittenBack()
    ensures var m := StopOfSessionA();
            var p := Encode(m)[SESSION_ID := Str(Uniform('A'))];
            ValidMessage(m) && Decode(p) == Good(m) && !Canonical(p) && Encode(Decode(p).value) != p
  {
    UniformIsUuid();
    TraceIsValid();
    OtherSpellingIsAccepted(StopOfSessionA(), Uniform('A'));
  }

  // ----- the checks across fields

  /** An accepted assignment carries all of name, face, score, threshold and reference if known, else none. */
  lemma KnownCarriesAll(b: Body)
    requires b.AssignmentBody?
    ensures AllOrNothing(b) <==>
              || (b.identityState == "known" && b.name.Some? && b.face.Some? && b.score.Some? && b.threshold.Some?
                  && b.reference.Some?)
              || (b.identityState != "known" && b.name.None? && b.face.None? && b.score.None? && b.threshold.None?
                  && b.reference.None?)
  {
  }

  /** An accepted operation ends no earlier than it starts and names an error exactly when it failed. */
  lemma OperationsAreConsistent(b: Body)
    requires b.OperationBody? && ValidBody(b)
    ensures b.startedNs <= b.endedNs && |b.attributes| <= 16
    ensures b.status == "error" <==> b.operationError.Some?
    ensures b.operationError.Some? ==> 1 <= |b.operationError.value| <= 64 && 'A' <= b.operationError.value[0] <= 'Z'
  {
  }

  /** Evidence carries at most ten observations and half a mebibyte of picture, and up to that it may. */
  lemma EvidenceLimits(b: Body)
    requires b.EvidenceBody? && b.tracker >= 0 && b.evidenceRevision >= 1 && b.firstSeenNs >= 0 && b.lastSeenNs >= 0
    requires forall i :: 0 <= i < |b.observations| ==> ValidObservation(b.observations[i])
    ensures ValidBody(b) <==> |b.observations| <= 10 && |b.jpeg| <= 524288
  {
  }
}

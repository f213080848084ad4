/** The twelve live messages, their payloads, and the decoder that validates them. */
module LiveMessages {
  import opened Common
  import opened Wire
  import TraceState

  datatype Kind =
    | StartKind | AssignmentKind | StopKind | HelloKind | StateKind | OutputReadyKind
    | EvidenceKind | ExpiredKind | MetricsKind | FailedKind | StoppedKind | OperationKind

  function KindWord(k: Kind): string {
    match k
    case StartKind => "start"
    case AssignmentKind => "identity_assignment"
    case StopKind => "stop"
    case HelloKind => "hello"
    case StateKind => "state"
    case OutputReadyKind => "output_ready"
    case EvidenceKind => "track_evidence"
    case ExpiredKind => "track_expired"
    case MetricsKind => "metrics"
    case FailedKind => "failed"
    case StoppedKind => "stopped"
    case OperationKind => "native_operation"
  }

  function ParseKind(s: string): Read<Kind> {
    if s == "start" then Good(StartKind)
    else if s == "identity_assignment" then Good(AssignmentKind)
    else if s == "stop" then Good(StopKind)
    else if s == "hello" then Good(HelloKind)
    else if s == "state" then Good(StateKind)
    else if s == "output_ready" then Good(OutputReadyKind)
    else if s == "track_evidence" then Good(EvidenceKind)
    else if s == "track_expired" then Good(ExpiredKind)
    else if s == "metrics" then Good(MetricsKind)
    else if s == "failed" then Good(FailedKind)
    else if s == "stopped" then Good(StoppedKind)
    else if s == "native_operation" then Good(OperationKind)
    else Bad
  }

  lemma KindsParse(s: string, k: Kind)
    ensures ParseKind(s) == Good(k) <==> s == KindWord(k)
  {
  }

  datatype Header = Header(version: int, kind: Kind, session: string, camera: string, run: string, generation: int,
                           runtimeAttempt: int, sequence: int, traceparent: string, tracestate: Option<string>)

  datatype Observation = Observation(timestampNs: int, bbox: seq<real>, confidence: real, landmarks: seq<real>,
                                     landmarkConfidences: seq<real>, quality: real, rejectMask: int,
                                     embedding: seq<real>)

  datatype Body =
    | StartBody(uri: string, gpuId: int, pgiePath: string, preprocessPath: string, sgiePath: string,
                trackerPath: string, startMount: string, udpPort: int, rtspPort: int, profileVersion: int, mode: string,
                sampleEveryN: int, detectorThreshold: real, startThreshold: real, top2Margin: real, trackGapNs: int,
                latencyMs: int, reconnectInterval: int, reconnectAttempts: int, frameTimeoutNs: int, recording: bool,
                annotated: bool)
    | AssignmentBody(assignedTracker: int, revision: int, epoch: int, identityState: string, name: Option<string>,
                     face: Option<string>, score: Option<real>, threshold: Option<real>,
                     reference: Option<seq<real>>, decisionSequence: int)
    | StopBody(stopReason: string, deadlineNs: int)
    | HelloBody(buildId: string, gstreamer: string, deepstream: string)
    | StateBody(state: string, stateReason: Option<string>)
    | OutputReadyBody(mount: string, codec: string, caps: string)
    | EvidenceBody(tracker: int, evidenceRevision: int, firstSeenNs: int, lastSeenNs: int,
                   observations: seq<Observation>, jpeg: seq<nat>)
    | ExpiredBody(tracker: int, evidenceRevision: int, firstSeenNs: int, lastSeenNs: int, expiredReason: string)
    | MetricsBody(counters: map<Name, int>, gauges: map<Name, real>)
    | FailedBody(errorCode: string, text: string)
    | StoppedBody(decodedFrames: int, emittedEvidence: int, droppedEvents: int, clean: bool, stoppedReason: string)
    | OperationBody(operation: string, startedNs: int, endedNs: int, status: string, operationError: Option<string>,
                    attributes: map<Name, Value>)

  datatype Message = Message(header: Header, body: Body)

  function KindOf(b: Body): Kind {
    match b
    case StartBody(_, _, _, _, _, _, _, _, _, _, _, _, _, _, _, _, _, _, _, _, _, _) => StartKind
    case AssignmentBody(_, _, _, _, _, _, _, _, _, _) => AssignmentKind
    case StopBody(_, _) => StopKind
    case HelloBody(_, _, _) => HelloKind
    case StateBody(_, _) => StateKind
    case OutputReadyBody(_, _, _) => OutputReadyKind
    case EvidenceBody(_, _, _, _, _, _) => EvidenceKind
    case ExpiredBody(_, _, _, _, _) => ExpiredKind
    case MetricsBody(_, _) => MetricsKind
    case FailedBody(_, _) => FailedKind
    case StoppedBody(_, _, _, _, _) => StoppedKind
    case OperationBody(_, _, _, _, _, _) => OperationKind
  }

  const VERSION := 2
  const OBSERVATION_LIMIT: nat := 10
  const JPEG_LIMIT: nat := 512 * 1024
  const ATTRIBUTE_LIMIT: nat := 16

  // ----- field names

  predicate HeaderName(n: Name) { n <= TRACESTATE }

  predicate StartName(n: Name) { URI <= n <= ANNOTATED_ENABLED }

  predicate AssignmentName(n: Name) {
    n == TRACKER_ID || n == ASSIGNMENT_REVISION || n == IDENTITY_EPOCH || n == IDENTITY_STATE ||
    n == DISPLAY_NAME || n == FACE_ID || n == MATCH_SCORE || n == RECOGNITION_THRESHOLD ||
    n == REFERENCE_EMBEDDING || n == DECISION_SEQUENCE
  }

  predicate StopName(n: Name) { n == REASON || n == SHUTDOWN_DEADLINE_NS }

  predicate HelloName(n: Name) { n == BUILD_ID || n == GSTREAMER_VERSION || n == DEEPSTREAM_VERSION }

  predicate StateName(n: Name) { n == STATE || n == REASON }

  predicate OutputReadyName(n: Name) { n == MOUNT_PATH || n == CODEC || n == CAPS }

  predicate EvidenceName(n: Name) {
    n == TRACKER_ID || n == EVIDENCE_REVISION || n == FIRST_SEEN_NS || n == LAST_SEEN_NS || n == OBSERVATIONS ||
    n == REPRESENTATIVE_ALIGNED_JPEG
  }

  predicate ExpiredName(n: Name) {
    n == TRACKER_ID || n == EVIDENCE_REVISION || n == FIRST_SEEN_NS || n == LAST_SEEN_NS || n == REASON
  }

  predicate MetricsName(n: Name) { n == COUNTERS || n == GAUGES }

  predicate FailedName(n: Name) { n == ERROR_CODE || n == MESSAGE }

  predicate StoppedName(n: Name) {
    n == DECODED_FRAMES || n == EMITTED_EVIDENCE || n == DROPPED_EVENTS || n == CLEAN_SHUTDOWN || n == REASON
  }

  predicate OperationName(n: Name) {
    n == OPERATION || n == STARTED_MONOTONIC_NS || n == ENDED_MONOTONIC_NS || n == STATUS || n == ERROR_CODE ||
    n == ATTRIBUTES
  }

  predicate BodyName(k: Kind, n: Name) {
    match k
    case StartKind => StartName(n)
    case AssignmentKind => AssignmentName(n)
    case StopKind => StopName(n)
    case HelloKind => HelloName(n)
    case StateKind => StateName(n)
    case OutputReadyKind => OutputReadyName(n)
    case EvidenceKind => EvidenceName(n)
    case ExpiredKind => ExpiredName(n)
    case MetricsKind => MetricsName(n)
    case FailedKind => FailedName(n)
    case StoppedKind => StoppedName(n)
    case OperationKind => OperationName(n)
  }

  /** Every name of the header and of the message kind is there. */
  predicate HasHeader(p: Payload) { forall n :: 0 <= n <= TRACESTATE ==> n in p }

  predicate HasBody(k: Kind, p: Payload) {
    match k
    case StartKind => forall n :: URI <= n <= ANNOTATED_ENABLED ==> n in p
    case AssignmentKind =>
      TRACKER_ID in p && ASSIGNMENT_REVISION in p && IDENTITY_EPOCH in p && IDENTITY_STATE in p &&
      DISPLAY_NAME in p && FACE_ID in p && MATCH_SCORE in p && RECOGNITION_THRESHOLD in p &&
      REFERENCE_EMBEDDING in p && DECISION_SEQUENCE in p
    case StopKind => REASON in p && SHUTDOWN_DEADLINE_NS in p
    case HelloKind => BUILD_ID in p && GSTREAMER_VERSION in p && DEEPSTREAM_VERSION in p
    case StateKind => STATE in p && REASON in p
    case OutputReadyKind => MOUNT_PATH in p && CODEC in p && CAPS in p
    case EvidenceKind =>
      TRACKER_ID in p && EVIDENCE_REVISION in p && FIRST_SEEN_NS in p && LAST_SEEN_NS in p && OBSERVATIONS in p &&
      REPRESENTATIVE_ALIGNED_JPEG in p
    case ExpiredKind =>
      TRACKER_ID in p && EVIDENCE_REVISION in p && FIRST_SEEN_NS in p && LAST_SEEN_NS in p && REASON in p
    case MetricsKind => COUNTERS in p && GAUGES in p
    case FailedKind => ERROR_CODE in p && MESSAGE in p
    case StoppedKind =>
      DECODED_FRAMES in p && EMITTED_EVIDENCE in p && DROPPED_EVENTS in p && CLEAN_SHUTDOWN in p && REASON in p
    case OperationKind =>
      OPERATION in p && STARTED_MONOTONIC_NS in p && ENDED_MONOTONIC_NS in p && STATUS in p && ERROR_CODE in p &&
      ATTRIBUTES in p
  }

  predicate ObservationName(n: Name) { TIMESTAMP_NS <= n <= EMBEDDING }

  // ----- words and patterns

  const MODES := {"detect", "detectTrack", "recognize"}
  const VERDICTS := {"known", "unknown"}
  const STATUSES := {"ok", "error"}
  const RUNTIME_STATES := {"STARTING", "ACTIVE", "RECONNECTING", "STOPPING", "STOPPED", "FAILED"}
  const OPERATIONS :=
    {"source_connect", "first_frame", "reconnect", "graph_rebuild", "inference_window", "output_start", "output_stop",
     "teardown"}

  predicate AttributeName(n: Name) {
    n == ATTEMPT || n == REASON || n == STATE || n == OUTCOME || n == BATCH_SIZE || n == OBJECT_COUNT
  }

  /** `^[a-z][a-z0-9_]{0,63}$`, or the same in capitals. */
  predicate Identifier(s: string, first: char, last: char) {
    && 1 <= |s| <= 64 && first <= s[0] <= last
    && forall i :: 1 <= i < |s| ==> first <= s[i] <= last || '0' <= s[i] <= '9' || s[i] == '_'
  }

  predicate AttributeAccepted(v: Value) {
    || (v.Str? && Identifier(v.text, 'a', 'z'))
    || v.Int?
    || (v.Float? && v.double.Real?)
  }

  predicate ValidAttributes(attributes: map<Name, Value>) {
    && |attributes| <= ATTRIBUTE_LIMIT
    && forall n :: n in attributes ==> AttributeName(n) && AttributeAccepted(attributes[n])
  }

  // ----- encoding

  function R(x: real): Value { Float(Real(x)) }

  function OptStr(s: Option<string>): Value { if s.Some? then Str(s.value) else Nil }

  function OptReal(x: Option<real>): Value { if x.Some? then R(x.value) else Nil }

  function OptReals(e: Option<seq<real>>): Value { if e.Some? then Reals(e.value) else Nil }

  /** The value each header field is written with. */
  function HeaderField(h: Header, n: Name): Value {
    if n == PROTOCOL_VERSION then Int(h.version)
    else if n == MESSAGE_TYPE then Str(KindWord(h.kind))
    else if n == SESSION_ID then Str(h.session)
    else if n == CAMERA_ID then Str(h.camera)
    else if n == RUN_ID then Str(h.run)
    else if n == GENERATION then Int(h.generation)
    else if n == RUNTIME_ATTEMPT then Int(h.runtimeAttempt)
    else if n == SEQUENCE then Int(h.sequence)
    else if n == TRACEPARENT then Str(h.traceparent)
    else OptStr(h.tracestate)
  }

  function ObservationField(o: Observation, n: Name): Value {
    if n == TIMESTAMP_NS then Int(o.timestampNs)
    else if n == BBOX then Reals(o.bbox)
    else if n == DETECTOR_CONFIDENCE then R(o.confidence)
    else if n == LANDMARKS then Reals(o.landmarks)
    else if n == LANDMARK_CONFIDENCES then Reals(o.landmarkConfidences)
    else if n == QUALITY_SCORE then R(o.quality)
    else if n == REJECT_MASK then Int(o.rejectMask)
    else Reals(o.embedding)
  }

  function ObservationPayload(o: Observation): Payload {
    map n | TIMESTAMP_NS <= n <= EMBEDDING :: ObservationField(o, n)
  }

  function ObservationList(os: seq<Observation>): seq<Value> {
    seq(|os|, i requires 0 <= i < |os| => Dict(ObservationPayload(os[i])))
  }

  function CounterEntries(counters: map<Name, int>): Payload { map n | n in counters :: Int(counters[n]) }

  function GaugeEntries(gauges: map<Name, real>): Payload { map n | n in gauges :: R(gauges[n]) }

  function StartField(b: Body, n: Name): Value
    requires b.StartBody?
  {
    if n == URI then Str(b.uri)
    else if n == GPU_ID then Int(b.gpuId)
    else if n == PGIE_CONFIG_PATH then Str(b.pgiePath)
    else if n == PREPROCESS_CONFIG_PATH then Str(b.preprocessPath)
    else if n == SGIE_CONFIG_PATH then Str(b.sgiePath)
    else if n == TRACKER_CONFIG_PATH then Str(b.trackerPath)
    else if n == OUTPUT_MOUNT_PATH then Str(b.startMount)
    else if n == OUTPUT_UDP_PORT then Int(b.udpPort)
    else if n == OUTPUT_RTSP_PORT then Int(b.rtspPort)
    else if n == PROFILE_VERSION then Int(b.profileVersion)
    else if n == ANALYTICS_MODE then Str(b.mode)
    else if n == SAMPLE_EVERY_N then Int(b.sampleEveryN)
    else if n == DETECTOR_THRESHOLD then R(b.detectorThreshold)
    else if n == RECOGNITION_THRESHOLD then R(b.startThreshold)
    else if n == TOP2_MARGIN then R(b.top2Margin)
    else if n == TRACK_GAP_NS then Int(b.trackGapNs)
    else if n == LATENCY_MS then Int(b.latencyMs)
    else if n == RECONNECT_INTERVAL_SECONDS then Int(b.reconnectInterval)
    else if n == RECONNECT_ATTEMPTS then Int(b.reconnectAttempts)
    else if n == FRAME_TIMEOUT_NS then Int(b.frameTimeoutNs)
    else if n == RECORDING_ENABLED then Bool(b.recording)
    else Bool(b.annotated)
  }

  function AssignmentField(b: Body, n: Name): Value
    requires b.AssignmentBody?
  {
    if n == TRACKER_ID then Int(b.assignedTracker)
    else if n == ASSIGNMENT_REVISION then Int(b.revision)
    else if n == IDENTITY_EPOCH then Int(b.epoch)
    else if n == IDENTITY_STATE then Str(b.identityState)
    else if n == DISPLAY_NAME then OptStr(b.name)
    else if n == FACE_ID then OptStr(b.face)
    else if n == MATCH_SCORE then OptReal(b.score)
    else if n == RECOGNITION_THRESHOLD then OptReal(b.threshold)
    else if n == REFERENCE_EMBEDDING then OptReals(b.reference)
    else Int(b.decisionSequence)
  }

  function StopField(b: Body, n: Name): Value
    requires b.StopBody?
  {
    if n == REASON then Str(b.stopReason) else Int(b.deadlineNs)
  }

  function HelloField(b: Body, n: Name): Value
    requires b.HelloBody?
  {
    if n == BUILD_ID then Str(b.buildId) else if n == GSTREAMER_VERSION then Str(b.gstreamer) else
    Str(b.deepstream)
  }

  function StateField(b: Body, n: Name): Value
    requires b.StateBody?
  {
    if n == STATE then Str(b.state) else OptStr(b.stateReason)
  }

  function OutputReadyField(b: Body, n: Name): Value
    requires b.OutputReadyBody?
  {
    if n == MOUNT_PATH then Str(b.mount) else if n == CODEC then Str(b.codec) else Str(b.caps)
  }

  function EvidenceField(b: Body, n: Name): Value
    requires b.EvidenceBody?
  {
    if n == TRACKER_ID then Int(b.tracker)
    else if n == EVIDENCE_REVISION then Int(b.evidenceRevision)
    else if n == FIRST_SEEN_NS then Int(b.firstSeenNs)
    else if n == LAST_SEEN_NS then Int(b.lastSeenNs)
    else if n == OBSERVATIONS then List(ObservationList(b.observations))
    else Bin(b.jpeg)
  }

  function ExpiredField(b: Body, n: Name): Value
    requires b.ExpiredBody?
  {
    if n == TRACKER_ID then Int(b.tracker)
    else if n == EVIDENCE_REVISION then Int(b.evidenceRevision)
    else if n == FIRST_SEEN_NS then Int(b.firstSeenNs)
    else if n == LAST_SEEN_NS then Int(b.lastSeenNs)
    else Str(b.expiredReason)
  }

  function MetricsField(b: Body, n: Name): Value
    requires b.MetricsBody?
  {
    if n == COUNTERS then Dict(CounterEntries(b.counters)) else Dict(GaugeEntries(b.gauges))
  }

  function FailedField(b: Body, n: Name): Value
    requires b.FailedBody?
  {
    if n == ERROR_CODE then Str(b.errorCode) else Str(b.text)
  }

  function StoppedField(b: Body, n: Name): Value
    requires b.StoppedBody?
  {
    if n == DECODED_FRAMES then Int(b.decodedFrames)
    else if n == EMITTED_EVIDENCE then Int(b.emittedEvidence)
    else if n == DROPPED_EVENTS then Int(b.droppedEvents)
    else if n == CLEAN_SHUTDOWN then Bool(b.clean)
    else Str(b.stoppedReason)
  }

  function OperationField(b: Body, n: Name): Value
    requires b.OperationBody?
  {
    if n == OPERATION then Str(b.operation)
    else if n == STARTED_MONOTONIC_NS then Int(b.startedNs)
    else if n == ENDED_MONOTONIC_NS then Int(b.endedNs)
    else if n == STATUS then Str(b.status)
    else if n == ERROR_CODE then OptStr(b.operationError)
    else Dict(b.attributes)
  }

  /** The value each body field is written with. */
  function BodyField(b: Body, n: Name): Value {
    match KindOf(b)
    case StartKind => StartField(b, n)
    case AssignmentKind => AssignmentField(b, n)
    case StopKind => StopField(b, n)
    case HelloKind => HelloField(b, n)
    case StateKind => StateField(b, n)
    case OutputReadyKind => OutputReadyField(b, n)
    case EvidenceKind => EvidenceField(b, n)
    case ExpiredKind => ExpiredField(b, n)
    case MetricsKind => MetricsField(b, n)
    case FailedKind => FailedField(b, n)
    case StoppedKind => StoppedField(b, n)
    case OperationKind => OperationField(b, n)
  }

  const NAME_LIMIT: Name := OBJECT_COUNT

  function Encode(m: Message): Payload {
    map n | 0 <= n <= NAME_LIMIT && (HeaderName(n) || BodyName(KindOf(m.body), n)) ::
      if HeaderName(n) then HeaderField(m.header, n) else BodyField(m.body, n)
  }

  // ----- decoding

  predicate HeaderReadable(p: Payload)
    requires HasHeader(p)
  {
    && Integer(p[PROTOCOL_VERSION], 1) == Good(VERSION)
    && Text(p[MESSAGE_TYPE]).Good? && ParseKind(p[MESSAGE_TYPE].text).Good?
    && Uuid(p[SESSION_ID]).Good? && Uuid(p[CAMERA_ID]).Good? && Uuid(p[RUN_ID]).Good?
    && Integer(p[GENERATION], 1).Good? && Integer(p[RUNTIME_ATTEMPT], 1).Good? && Integer(p[SEQUENCE], 0).Good?
    && Text(p[TRACEPARENT]).Good? && TraceState.ValidTraceparent(p[TRACEPARENT].text)
    && OptionalText(p[TRACESTATE]).Good?
    && (p[TRACESTATE].Str? ==> TraceState.PythonAccepts(p[TRACESTATE].text))
  }

  function DecodeHeader(p: Payload): Read<Header>
    requires HasHeader(p)
  {
    if HeaderReadable(p) then
      Good(Header(VERSION, ParseKind(p[MESSAGE_TYPE].text).value, Uuid(p[SESSION_ID]).value, Uuid(p[CAMERA_ID]).value,
                  Uuid(p[RUN_ID]).value, p[GENERATION].number, p[RUNTIME_ATTEMPT].number, p[SEQUENCE].number,
                  p[TRACEPARENT].text, OptionalText(p[TRACESTATE]).value))
    else Bad
  }

  predicate Unit(x: real) { 0.0 <= x <= 1.0 }

  /** A known assignment carries name, face, score, threshold and reference; an unknown one none of them. */
  predicate AllOrNothing(b: Body)
    requires b.AssignmentBody?
  {
    var known := b.identityState == "known";
    && (b.name.Some? <==> known) && (b.face.Some? <==> known) && (b.score.Some? <==> known)
    && (b.threshold.Some? <==> known) && (b.reference.Some? <==> known)
  }

  predicate OperationConsistent(b: Body)
    requires b.OperationBody?
  {
    && b.startedNs <= b.endedNs && (b.status == "error" <==> b.operationError.Some?)
    && (b.operationError.Some? ==> Identifier(b.operationError.value, 'A', 'Z'))
  }

  predicate ObservationReadable(v: Value) {
    && v.Dict?
    && (forall n :: TIMESTAMP_NS <= n <= EMBEDDING ==> n in v.entries)
    && (forall n :: n in v.entries ==> ObservationName(n))
    && Numbers(v.entries[BBOX], 4).Good? && Numbers(v.entries[LANDMARKS], 10).Good?
    && Numbers(v.entries[LANDMARK_CONFIDENCES], 5).Good? && ReadEmbedding(v.entries[EMBEDDING]).Good?
    && Integer(v.entries[TIMESTAMP_NS], 0).Good? && Integer(v.entries[REJECT_MASK], 0).Good?
    && Finite(v.entries[DETECTOR_CONFIDENCE]).Good? && Finite(v.entries[QUALITY_SCORE]).Good?
  }

  function ReadObservation(v: Value): Read<Observation> {
    if ObservationReadable(v) then
      var p := v.entries;
      Good(Observation(p[TIMESTAMP_NS].number, Numbers(p[BBOX], 4).value, Finite(p[DETECTOR_CONFIDENCE]).value,
                       Numbers(p[LANDMARKS], 10).value, Numbers(p[LANDMARK_CONFIDENCES], 5).value,
                       Finite(p[QUALITY_SCORE]).value, p[REJECT_MASK].number, ReadEmbedding(p[EMBEDDING]).value))
    else Bad
  }

  function ReadEach(items: seq<Value>): Read<seq<Observation>> {
    if items == [] then Good([])
    else
      var head :- ReadObservation(items[0]);
      var tail :- ReadEach(items[1..]);
      Good([head] + tail)
  }

  function ReadObservations(v: Value): Read<seq<Observation>> {
    if !v.List? then Bad
    else
      var r :- ReadEach(v.items);
      if |r| <= OBSERVATION_LIMIT then Good(r) else Bad
  }

  function Jpeg(v: Value): Read<seq<nat>> { if v.Bin? && |v.bytes| <= JPEG_LIMIT then Good(v.bytes) else Bad }

  function ReadCounters(v: Value): Read<map<Name, int>> {
    if v.Dict? && forall n :: n in v.entries ==> Integer(v.entries[n], 0).Good?
    then Good(map n | n in v.entries :: Integer(v.entries[n], 0).value) else Bad
  }

  function ReadGauges(v: Value): Read<map<Name, real>> {
    if v.Dict? && forall n :: n in v.entries ==> Finite(v.entries[n]).Good?
    then Good(map n | n in v.entries :: Finite(v.entries[n]).value) else Bad
  }

  function ReadAttributes(v: Value): Read<map<Name, Value>> {
    if v.Dict? && ValidAttributes(v.entries) then Good(v.entries) else Bad
  }

  predicate StartSourceReadable(p: Payload)
    requires HasBody(StartKind, p)
  {
    && Text(p[URI]).Good? && Integer(p[GPU_ID], 0).Good? && Text(p[PGIE_CONFIG_PATH]).Good?
    && Text(p[PREPROCESS_CONFIG_PATH]).Good? && Text(p[SGIE_CONFIG_PATH]).Good?
    && Text(p[TRACKER_CONFIG_PATH]).Good? && Text(p[OUTPUT_MOUNT_PATH]).Good?
    && Integer(p[OUTPUT_UDP_PORT], 1).Good? && Integer(p[OUTPUT_RTSP_PORT], 1).Good?
    && Integer(p[PROFILE_VERSION], 1).Good? && Word(p[ANALYTICS_MODE], MODES).Good?
  }

  predicate StartTuningReadable(p: Payload)
    requires HasBody(StartKind, p)
  {
    && Integer(p[SAMPLE_EVERY_N], 1).Good? && Finite(p[DETECTOR_THRESHOLD]).Good?
    && Finite(p[RECOGNITION_THRESHOLD]).Good? && Finite(p[TOP2_MARGIN]).Good? && Integer(p[TRACK_GAP_NS], 1).Good?
    && Integer(p[LATENCY_MS], 0).Good? && Integer(p[RECONNECT_INTERVAL_SECONDS], 0).Good?
    && Integer(p[RECONNECT_ATTEMPTS], -1).Good? && Integer(p[FRAME_TIMEOUT_NS], 1).Good?
    && Flag(p[RECORDING_ENABLED]).Good? && Flag(p[ANNOTATED_ENABLED]).Good?
  }

  predicate StartReadable(p: Payload)
    requires HasBody(StartKind, p)
  {
    StartSourceReadable(p) && StartTuningReadable(p)
  }

  function DecodeStart(p: Payload): Read<Body>
    requires HasBody(StartKind, p)
  {
    if !StartReadable(p) then Bad
    else
      var b := StartBody(
        Text(p[URI]).value, Integer(p[GPU_ID], 0).value, Text(p[PGIE_CONFIG_PATH]).value,
        Text(p[PREPROCESS_CONFIG_PATH]).value, Text(p[SGIE_CONFIG_PATH]).value, Text(p[TRACKER_CONFIG_PATH]).value,
        Text(p[OUTPUT_MOUNT_PATH]).value, Integer(p[OUTPUT_UDP_PORT], 1).value,
        Integer(p[OUTPUT_RTSP_PORT], 1).value, Integer(p[PROFILE_VERSION], 1).value,
        Word(p[ANALYTICS_MODE], MODES).value, Integer(p[SAMPLE_EVERY_N], 1).value,
        Finite(p[DETECTOR_THRESHOLD]).value, Finite(p[RECOGNITION_THRESHOLD]).value, Finite(p[TOP2_MARGIN]).value,
        Integer(p[TRACK_GAP_NS], 1).value, Integer(p[LATENCY_MS], 0).value,
        Integer(p[RECONNECT_INTERVAL_SECONDS], 0).value, Integer(p[RECONNECT_ATTEMPTS], -1).value,
        Integer(p[FRAME_TIMEOUT_NS], 1).value, Flag(p[RECORDING_ENABLED]).value, Flag(p[ANNOTATED_ENABLED]).value);
      if Unit(b.detectorThreshold) && Unit(b.startThreshold) && Unit(b.top2Margin) then Good(b) else Bad
  }

  predicate AssignmentReadable(p: Payload)
    requires HasBody(AssignmentKind, p)
  {
    && Integer(p[TRACKER_ID], 0).Good? && Integer(p[ASSIGNMENT_REVISION], 1).Good?
    && Integer(p[IDENTITY_EPOCH], 1).Good? && Word(p[IDENTITY_STATE], VERDICTS).Good?
    && OptionalText(p[DISPLAY_NAME]).Good? && OptionalUuid(p[FACE_ID]).Good? && OptionalFinite(p[MATCH_SCORE]).Good?
    && OptionalFinite(p[RECOGNITION_THRESHOLD]).Good? && OptionalEmbedding(p[REFERENCE_EMBEDDING]).Good?
    && Integer(p[DECISION_SEQUENCE], 0).Good?
  }

  function DecodeAssignment(p: Payload): Read<Body>
    requires HasBody(AssignmentKind, p)
  {
    if !AssignmentReadable(p) then Bad
    else
      var b := AssignmentBody(
        Integer(p[TRACKER_ID], 0).value, Integer(p[ASSIGNMENT_REVISION], 1).value,
        Integer(p[IDENTITY_EPOCH], 1).value, Word(p[IDENTITY_STATE], VERDICTS).value,
        OptionalText(p[DISPLAY_NAME]).value, OptionalUuid(p[FACE_ID]).value, OptionalFinite(p[MATCH_SCORE]).value,
        OptionalFinite(p[RECOGNITION_THRESHOLD]).value, OptionalEmbedding(p[REFERENCE_EMBEDDING]).value,
        Integer(p[DECISION_SEQUENCE], 0).value);
      if AllOrNothing(b) then Good(b) else Bad
  }

  predicate StopReadable(p: Payload)
    requires HasBody(StopKind, p)
  {
    && Text(p[REASON]).Good? && Integer(p[SHUTDOWN_DEADLINE_NS], 1).Good?
  }

  function DecodeStop(p: Payload): Read<Body>
    requires HasBody(StopKind, p)
  {
    if !StopReadable(p) then Bad
    else Good(StopBody(
      Text(p[REASON]).value, Integer(p[SHUTDOWN_DEADLINE_NS], 1).value))
  }

  predicate HelloReadable(p: Payload)
    requires HasBody(HelloKind, p)
  {
    && Text(p[BUILD_ID]).Good? && Text(p[GSTREAMER_VERSION]).Good? && Text(p[DEEPSTREAM_VERSION]).Good?
  }

  function DecodeHello(p: Payload): Read<Body>
    requires HasBody(HelloKind, p)
  {
    if !HelloReadable(p) then Bad
    else Good(HelloBody(
      Text(p[BUILD_ID]).value, Text(p[GSTREAMER_VERSION]).value, Text(p[DEEPSTREAM_VERSION]).value))
  }

  predicate StateReadable(p: Payload)
    requires HasBody(StateKind, p)
  {
    && Word(p[STATE], RUNTIME_STATES).Good? && OptionalText(p[REASON]).Good?
  }

  function DecodeState(p: Payload): Read<Body>
    requires HasBody(StateKind, p)
  {
    if !StateReadable(p) then Bad
    else Good(StateBody(
      Word(p[STATE], RUNTIME_STATES).value, OptionalText(p[REASON]).value))
  }

  predicate OutputReadyReadable(p: Payload)
    requires HasBody(OutputReadyKind, p)
  {
    && Text(p[MOUNT_PATH]).Good? && Text(p[CODEC]).Good? && Text(p[CAPS]).Good?
  }

  function DecodeOutputReady(p: Payload): Read<Body>
    requires HasBody(OutputReadyKind, p)
  {
    if !OutputReadyReadable(p) then Bad
    else Good(OutputReadyBody(
      Text(p[MOUNT_PATH]).value, Text(p[CODEC]).value, Text(p[CAPS]).value))
  }

  predicate EvidenceReadable(p: Payload)
    requires HasBody(EvidenceKind, p)
  {
    && Integer(p[TRACKER_ID], 0).Good? && Integer(p[EVIDENCE_REVISION], 1).Good?
    && Integer(p[FIRST_SEEN_NS], 0).Good? && Integer(p[LAST_SEEN_NS], 0).Good?
    && ReadObservations(p[OBSERVATIONS]).Good? && Jpeg(p[REPRESENTATIVE_ALIGNED_JPEG]).Good?
  }

  function DecodeEvidence(p: Payload): Read<Body>
    requires HasBody(EvidenceKind, p)
  {
    if !EvidenceReadable(p) then Bad
    else Good(EvidenceBody(
      Integer(p[TRACKER_ID], 0).value, Integer(p[EVIDENCE_REVISION], 1).value, Integer(p[FIRST_SEEN_NS], 0).value,
      Integer(p[LAST_SEEN_NS], 0).value, ReadObservations(p[OBSERVATIONS]).value,
      Jpeg(p[REPRESENTATIVE_ALIGNED_JPEG]).value))
  }

  predicate ExpiredReadable(p: Payload)
    requires HasBody(ExpiredKind, p)
  {
    && Integer(p[TRACKER_ID], 0).Good? && Integer(p[EVIDENCE_REVISION], 1).Good?
    && Integer(p[FIRST_SEEN_NS], 0).Good? && Integer(p[LAST_SEEN_NS], 0).Good? && Text(p[REASON]).Good?
  }

  function DecodeExpired(p: Payload): Read<Body>
    requires HasBody(ExpiredKind, p)
  {
    if !ExpiredReadable(p) then Bad
    else Good(ExpiredBody(
      Integer(p[TRACKER_ID], 0).value, Integer(p[EVIDENCE_REVISION], 1).value, Integer(p[FIRST_SEEN_NS], 0).value,
      Integer(p[LAST_SEEN_NS], 0).value, Text(p[REASON]).value))
  }

  predicate MetricsReadable(p: Payload)
    requires HasBody(MetricsKind, p)
  {
    && ReadCounters(p[COUNTERS]).Good? && ReadGauges(p[GAUGES]).Good?
  }

  function DecodeMetrics(p: Payload): Read<Body>
    requires HasBody(MetricsKind, p)
  {
    if !MetricsReadable(p) then Bad
    else Good(MetricsBody(
      ReadCounters(p[COUNTERS]).value, ReadGauges(p[GAUGES]).value))
  }

  predicate FailedReadable(p: Payload)
    requires HasBody(FailedKind, p)
  {
    && Text(p[ERROR_CODE]).Good? && Text(p[MESSAGE]).Good?
  }

  function DecodeFailed(p: Payload): Read<Body>
    requires HasBody(FailedKind, p)
  {
    if !FailedReadable(p) then Bad
    else Good(FailedBody(
      Text(p[ERROR_CODE]).value, Text(p[MESSAGE]).value))
  }

  predicate StoppedReadable(p: Payload)
    requires HasBody(StoppedKind, p)
  {
    && Integer(p[DECODED_FRAMES], 0).Good? && Integer(p[EMITTED_EVIDENCE], 0).Good?
    && Integer(p[DROPPED_EVENTS], 0).Good? && Flag(p[CLEAN_SHUTDOWN]).Good? && Text(p[REASON]).Good?
  }

  function DecodeStopped(p: Payload): Read<Body>
    requires HasBody(StoppedKind, p)
  {
    if !StoppedReadable(p) then Bad
    else Good(StoppedBody(
      Integer(p[DECODED_FRAMES], 0).value, Integer(p[EMITTED_EVIDENCE], 0).value,
      Integer(p[DROPPED_EVENTS], 0).value, Flag(p[CLEAN_SHUTDOWN]).value, Text(p[REASON]).value))
  }

  predicate OperationReadable(p: Payload)
    requires HasBody(OperationKind, p)
  {
    && Word(p[OPERATION], OPERATIONS).Good? && Integer(p[STARTED_MONOTONIC_NS], 0).Good?
    && Integer(p[ENDED_MONOTONIC_NS], 0).Good? && Word(p[STATUS], STATUSES).Good?
    && OptionalText(p[ERROR_CODE]).Good? && ReadAttributes(p[ATTRIBUTES]).Good?
  }

  function DecodeOperation(p: Payload): Read<Body>
    requires HasBody(OperationKind, p)
  {
    if !OperationReadable(p) then Bad
    else
      var b := OperationBody(
        Word(p[OPERATION], OPERATIONS).value, Integer(p[STARTED_MONOTONIC_NS], 0).value,
        Integer(p[ENDED_MONOTONIC_NS], 0).value, Word(p[STATUS], STATUSES).value,
        OptionalText(p[ERROR_CODE]).value, ReadAttributes(p[ATTRIBUTES]).value);
      if OperationConsistent(b) then Good(b) else Bad
  }

  function DecodeBody(k: Kind, p: Payload): Read<Body>
    requires HasBody(k, p)
  {
    match k
    case StartKind => DecodeStart(p)
    case AssignmentKind => DecodeAssignment(p)
    case StopKind => DecodeStop(p)
    case HelloKind => DecodeHello(p)
    case StateKind => DecodeState(p)
    case OutputReadyKind => DecodeOutputReady(p)
    case EvidenceKind => DecodeEvidence(p)
    case ExpiredKind => DecodeExpired(p)
    case MetricsKind => DecodeMetrics(p)
    case FailedKind => DecodeFailed(p)
    case StoppedKind => DecodeStopped(p)
    case OperationKind => DecodeOperation(p)
  }

  /** Every field of the header and of the named message must be there, and no other. */
  function Decode(p: Payload): Read<Message> {
    if !HasHeader(p) || DecodeHeader(p).Bad? then Bad
    else
      var header := DecodeHeader(p).value;
      if !HasBody(header.kind, p) || exists n :: n in p && !HeaderName(n) && !BodyName(header.kind, n) then Bad
      else if DecodeBody(header.kind, p).Bad? then Bad
      else Good(Message(header, DecodeBody(header.kind, p).value))
  }
}

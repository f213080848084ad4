/**
  The wire format, field by field: under which name each part of a message travels. Round trips alone
  would not notice two fields exchanged on both sides.
*/
module WireFormat {
  import opened Wire
  import opened LiveMessages
  import opened RoundTrips

  lemma StartFieldIs(m: Message, n: Name)
    requires m.body.StartBody? && StartName(n)
    ensures n in Encode(m) && Encode(m)[n] == StartField(m.body, n)
  {
    Written(m);
  }

  lemma StartSourceFormat(m: Message)
    requires m.body.StartBody?
    ensures var p, b := Encode(m), m.body;
            && p[URI] == Str(b.uri) && p[GPU_ID] == Int(b.gpuId) && p[PGIE_CONFIG_PATH] == Str(b.pgiePath)
            && p[PREPROCESS_CONFIG_PATH] == Str(b.preprocessPath) && p[SGIE_CONFIG_PATH] == Str(b.sgiePath)
            && p[TRACKER_CONFIG_PATH] == Str(b.trackerPath) && p[OUTPUT_MOUNT_PATH] == Str(b.startMount)
            && p[OUTPUT_UDP_PORT] == Int(b.udpPort) && p[OUTPUT_RTSP_PORT] == Int(b.rtspPort)
  {
    StartFieldIs(m, URI);
    StartFieldIs(m, GPU_ID);
    StartFieldIs(m, PGIE_CONFIG_PATH);
    StartFieldIs(m, PREPROCESS_CONFIG_PATH);
    StartFieldIs(m, SGIE_CONFIG_PATH);
    StartFieldIs(m, TRACKER_CONFIG_PATH);
    StartFieldIs(m, OUTPUT_MOUNT_PATH);
    StartFieldIs(m, OUTPUT_UDP_PORT);
    StartFieldIs(m, OUTPUT_RTSP_PORT);
  }

  lemma StartTuningFormat(m: Message)
    requires m.body.StartBody?
    ensures var p, b := Encode(m), m.body;
            && p[PROFILE_VERSION] == Int(b.profileVersion) && p[ANALYTICS_MODE] == Str(b.mode)
            && p[SAMPLE_EVERY_N] == Int(b.sampleEveryN) && p[DETECTOR_THRESHOLD] == R(b.detectorThreshold)
            && p[RECOGNITION_THRESHOLD] == R(b.startThreshold) && p[TOP2_MARGIN] == R(b.top2Margin)
            && p[TRACK_GAP_NS] == Int(b.trackGapNs) && p[LATENCY_MS] == Int(b.latencyMs)
  {
    StartFieldIs(m, PROFILE_VERSION);
    StartFieldIs(m, ANALYTICS_MODE);
    StartFieldIs(m, SAMPLE_EVERY_N);
    StartFieldIs(m, DETECTOR_THRESHOLD);
    StartFieldIs(m, RECOGNITION_THRESHOLD);
    StartFieldIs(m, TOP2_MARGIN);
    StartFieldIs(m, TRACK_GAP_NS);
    StartFieldIs(m, LATENCY_MS);
  }

  lemma StartTimingFormat(m: Message)
    requires m.body.StartBody?
    ensures var p, b := Encode(m), m.body;
            && p[RECONNECT_INTERVAL_SECONDS] == Int(b.reconnectInterval)
            && p[RECONNECT_ATTEMPTS] == Int(b.reconnectAttempts) && p[FRAME_TIMEOUT_NS] == Int(b.frameTimeoutNs)
            && p[RECORDING_ENABLED] == Bool(b.recording) && p[ANNOTATED_ENABLED] == Bool(b.annotated)
  {
    StartFieldIs(m, RECONNECT_INTERVAL_SECONDS);
    StartFieldIs(m, RECONNECT_ATTEMPTS);
    StartFieldIs(m, FRAME_TIMEOUT_NS);
    StartFieldIs(m, RECORDING_ENABLED);
    StartFieldIs(m, ANNOTATED_ENABLED);
  }

  lemma AssignmentFormat(m: Message)
    requires m.body.AssignmentBody?
    ensures var p, b := Encode(m), m.body;
            && p[TRACKER_ID] == Int(b.assignedTracker) && p[ASSIGNMENT_REVISION] == Int(b.revision)
            && p[IDENTITY_EPOCH] == Int(b.epoch) && p[IDENTITY_STATE] == Str(b.identityState)
            && p[DISPLAY_NAME] == OptStr(b.name) && p[FACE_ID] == OptStr(b.face)
            && p[MATCH_SCORE] == OptReal(b.score) && p[RECOGNITION_THRESHOLD] == OptReal(b.threshold)
            && p[REFERENCE_EMBEDDING] == OptReals(b.reference)
            && p[DECISION_SEQUENCE] == Int(b.decisionSequence)
  {
    Written(m);
  }

  lemma StopFormat(m: Message)
    requires m.body.StopBody?
    ensures var p, b := Encode(m), m.body;
            && p[REASON] == Str(b.stopReason) && p[SHUTDOWN_DEADLINE_NS] == Int(b.deadlineNs)
  {
    Written(m);
  }

  lemma HelloFormat(m: Message)
    requires m.body.HelloBody?
    ensures var p, b := Encode(m), m.body;
            && p[BUILD_ID] == Str(b.buildId) && p[GSTREAMER_VERSION] == Str(b.gstreamer)
            && p[DEEPSTREAM_VERSION] == Str(b.deepstream)
  {
    Written(m);
  }

  lemma StateFormat(m: Message)
    requires m.body.StateBody?
    ensures var p, b := Encode(m), m.body;
            && p[STATE] == Str(b.state) && p[REASON] == OptStr(b.stateReason)
  {
    Written(m);
  }

  lemma OutputReadyFormat(m: Message)
    requires m.body.OutputReadyBody?
    ensures var p, b := Encode(m), m.body;
            && p[MOUNT_PATH] == Str(b.mount) && p[CODEC] == Str(b.codec) && p[CAPS] == Str(b.caps)
  {
    Written(m);
  }

  lemma EvidenceFormat(m: Message)
    requires m.body.EvidenceBody?
    ensures var p, b := Encode(m), m.body;
            && p[TRACKER_ID] == Int(b.tracker) && p[EVIDENCE_REVISION] == Int(b.evidenceRevision)
            && p[FIRST_SEEN_NS] == Int(b.firstSeenNs) && p[LAST_SEEN_NS] == Int(b.lastSeenNs)
            && p[OBSERVATIONS] == List(ObservationList(b.observations))
            && p[REPRESENTATIVE_ALIGNED_JPEG] == Bin(b.jpeg)
  {
    Written(m);
  }

  lemma ExpiredFormat(m: Message)
    requires m.body.ExpiredBody?
    ensures var p, b := Encode(m), m.body;
            && p[TRACKER_ID] == Int(b.tracker) && p[EVIDENCE_REVISION] == Int(b.evidenceRevision)
            && p[FIRST_SEEN_NS] == Int(b.firstSeenNs) && p[LAST_SEEN_NS] == Int(b.lastSeenNs)
            && p[REASON] == Str(b.expiredReason)
  {
    Written(m);
  }

  lemma MetricsFormat(m: Message)
    requires m.body.MetricsBody?
    ensures var p, b := Encode(m), m.body;
            && p[COUNTERS] == Dict(CounterEntries(b.counters)) && p[GAUGES] == Dict(GaugeEntries(b.gauges))
  {
    Written(m);
  }

  lemma FailedFormat(m: Message)
    requires m.body.FailedBody?
    ensures var p, b := Encode(m), m.body;
            && p[ERROR_CODE] == Str(b.errorCode) && p[MESSAGE] == Str(b.text)
  {
    Written(m);
  }

  lemma StoppedFormat(m: Message)
    requires m.body.StoppedBody?
    ensures var p, b := Encode(m), m.body;
            && p[DECODED_FRAMES] == Int(b.decodedFrames) && p[EMITTED_EVIDENCE] == Int(b.emittedEvidence)
            && p[DROPPED_EVENTS] == Int(b.droppedEvents) && p[CLEAN_SHUTDOWN] == Bool(b.clean)
            && p[REASON] == Str(b.stoppedReason)
  {
    Written(m);
  }

  lemma OperationFormat(m: Message)
    requires m.body.OperationBody?
    ensures var p, b := Encode(m), m.body;
            && p[OPERATION] == Str(b.operation) && p[STARTED_MONOTONIC_NS] == Int(b.startedNs)
            && p[ENDED_MONOTONIC_NS] == Int(b.endedNs) && p[STATUS] == Str(b.status)
            && p[ERROR_CODE] == OptStr(b.operationError) && p[ATTRIBUTES] == Dict(b.attributes)
  {
    Written(m);
  }

  lemma HeaderFormat(m: Message)
    ensures var p, h := Encode(m), m.header;
            && p[PROTOCOL_VERSION] == Int(h.version) && p[MESSAGE_TYPE] == Str(KindWord(h.kind))
            && p[SESSION_ID] == Str(h.session) && p[CAMERA_ID] == Str(h.camera) && p[RUN_ID] == Str(h.run)
            && p[GENERATION] == Int(h.generation) && p[RUNTIME_ATTEMPT] == Int(h.runtimeAttempt)
            && p[SEQUENCE] == Int(h.sequence) && p[TRACEPARENT] == Str(h.traceparent)
            && p[TRACESTATE] == OptStr(h.tracestate)
  {
    Written(m);
  }

  lemma ObservationFormat(o: Observation)
    ensures var p := ObservationPayload(o);
            && p[TIMESTAMP_NS] == Int(o.timestampNs) && p[BBOX] == Reals(o.bbox)
            && p[DETECTOR_CONFIDENCE] == R(o.confidence) && p[LANDMARKS] == Reals(o.landmarks)
            && p[LANDMARK_CONFIDENCES] == Reals(o.landmarkConfidences) && p[QUALITY_SCORE] == R(o.quality)
            && p[REJECT_MASK] == Int(o.rejectMask) && p[EMBEDDING] == Reals(o.embedding)
  {
  }

  /** A decoded header has the protocol version 2. */
  lemma DecodedVersion(p: Payload)
    requires Decode(p).Good?
    ensures Decode(p).value.header.version == 2 && PROTOCOL_VERSION in p && p[PROTOCOL_VERSION] == Int(2)
  {
    DecodedHeader(p);
    VersionIsRead(p);
  }

  lemma VersionIsRead(p: Payload)
    requires HasHeader(p) && DecodeHeader(p).Good?
    ensures DecodeHeader(p).value.version == 2 && p[PROTOCOL_VERSION] == Int(2)
  {
  }
}

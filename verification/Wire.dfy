/**
  The live protocol's payloads. A payload is what MessagePack carries: a dictionary from names to
  values.
*/
module Wire {
  import opened Common
  import TraceState

  /** Field names, coded as numbers: any injective coding of strings does, as names are only compared. */
  type Name = nat

  const PROTOCOL_VERSION: Name := 0
  const MESSAGE_TYPE: Name := 1
  const SESSION_ID: Name := 2
  const CAMERA_ID: Name := 3
  const RUN_ID: Name := 4
  const GENERATION: Name := 5
  const RUNTIME_ATTEMPT: Name := 6
  const SEQUENCE: Name := 7
  const TRACEPARENT: Name := 8
  const TRACESTATE: Name := 9
  const URI: Name := 10
  const GPU_ID: Name := 11
  const PGIE_CONFIG_PATH: Name := 12
  const PREPROCESS_CONFIG_PATH: Name := 13
  const SGIE_CONFIG_PATH: Name := 14
  const TRACKER_CONFIG_PATH: Name := 15
  const OUTPUT_MOUNT_PATH: Name := 16
  const OUTPUT_UDP_PORT: Name := 17
  const OUTPUT_RTSP_PORT: Name := 18
  const PROFILE_VERSION: Name := 19
  const ANALYTICS_MODE: Name := 20
  const SAMPLE_EVERY_N: Name := 21
  const DETECTOR_THRESHOLD: Name := 22
  const RECOGNITION_THRESHOLD: Name := 23
  const TOP2_MARGIN: Name := 24
  const TRACK_GAP_NS: Name := 25
  const LATENCY_MS: Name := 26
  const RECONNECT_INTERVAL_SECONDS: Name := 27
  const RECONNECT_ATTEMPTS: Name := 28
  const FRAME_TIMEOUT_NS: Name := 29
  const RECORDING_ENABLED: Name := 30
  const ANNOTATED_ENABLED: Name := 31
  const TRACKER_ID: Name := 32
  const ASSIGNMENT_REVISION: Name := 33
  const IDENTITY_EPOCH: Name := 34
  const IDENTITY_STATE: Name := 35
  const DISPLAY_NAME: Name := 36
  const FACE_ID: Name := 37
  const MATCH_SCORE: Name := 38
  const REFERENCE_EMBEDDING: Name := 39
  const DECISION_SEQUENCE: Name := 40
  const REASON: Name := 41
  const SHUTDOWN_DEADLINE_NS: Name := 42
  const BUILD_ID: Name := 43
  const GSTREAMER_VERSION: Name := 44
  const DEEPSTREAM_VERSION: Name := 45
  const STATE: Name := 46
  const MOUNT_PATH: Name := 47
  const CODEC: Name := 48
  const CAPS: Name := 49
  const EVIDENCE_REVISION: Name := 50
  const FIRST_SEEN_NS: Name := 51
  const LAST_SEEN_NS: Name := 52
  const OBSERVATIONS: Name := 53
  const REPRESENTATIVE_ALIGNED_JPEG: Name := 54
  const COUNTERS: Name := 55
  const GAUGES: Name := 56
  const ERROR_CODE: Name := 57
  const MESSAGE: Name := 58
  const DECODED_FRAMES: Name := 59
  const EMITTED_EVIDENCE: Name := 60
  const DROPPED_EVENTS: Name := 61
  const CLEAN_SHUTDOWN: Name := 62
  const OPERATION: Name := 63
  const STARTED_MONOTONIC_NS: Name := 64
  const ENDED_MONOTONIC_NS: Name := 65
  const STATUS: Name := 66
  const ATTRIBUTES: Name := 67
  const TIMESTAMP_NS: Name := 68
  const BBOX: Name := 69
  const DETECTOR_CONFIDENCE: Name := 70
  const LANDMARKS: Name := 71
  const LANDMARK_CONFIDENCES: Name := 72
  const QUALITY_SCORE: Name := 73
  const REJECT_MASK: Name := 74
  const EMBEDDING: Name := 75
  const ATTEMPT: Name := 76
  const OUTCOME: Name := 77
  const BATCH_SIZE: Name := 78
  const OBJECT_COUNT: Name := 79

  /** A double is a real number, or an infinity or NaN. */
  datatype Double = Real(value: real) | NotFinite

  datatype Value =
    | Nil
    | Bool(flag: bool)
    | Int(number: int)
    | Float(double: Double)
    | Str(text: string)
    | Bin(bytes: seq<nat>)
    | List(items: seq<Value>)
    | Dict(entries: map<Name, Value>)

  type Payload = map<Name, Value>

  /** A field is read or the whole payload is refused. */
  datatype Read<+T> = Bad | Good(value: T) {
    predicate IsFailure() { Bad? }
    function PropagateFailure<U>(): Read<U> requires Bad? { Bad }
    function Extract(): T requires Good? { value }
  }

  // ----- scalar readers

  function Integer(v: Value, minimum: int): Read<int> {
    if v.Int? && v.number >= minimum then Good(v.number) else Bad
  }

  function Finite(v: Value): Read<real> {
    if v.Int? then Good(v.number as real)
    else if v.Float? && v.double.Real? then Good(v.double.value)
    else Bad
  }

  function Text(v: Value): Read<string> { if v.Str? then Good(v.text) else Bad }

  function OptionalText(v: Value): Read<Option<string>> {
    if v.Nil? then Good(None) else if v.Str? then Good(Some(v.text)) else Bad
  }

  function OptionalFinite(v: Value): Read<Option<real>> {
    if v.Nil? then Good(None) else match Finite(v) case Bad => Bad case Good(x) => Good(Some(x))
  }

  function Flag(v: Value): Read<bool> { if v.Bool? then Good(v.flag) else Bad }

  function Word(v: Value, words: set<string>): Read<string> {
    if v.Str? && v.text in words then Good(v.text) else Bad
  }

  predicate UuidShape(s: string) {
    && |s| == 36
    && forall i :: 0 <= i < 36 ==>
         if i == 8 || i == 13 || i == 18 || i == 23 then s[i] == '-' else TraceState.Hex(LowerChar(s[i]))
  }

  predicate LowerUuid(s: string) { UuidShape(s) && Lower(s) == s }

  /** Hexadecimal of either case is accepted and folded to lower case. */
  function Uuid(v: Value): Read<string> {
    if v.Str? && UuidShape(v.text) then Good(Lower(v.text)) else Bad
  }

  function OptionalUuid(v: Value): Read<Option<string>> {
    if v.Nil? then Good(None) else match Uuid(v) case Bad => Bad case Good(u) => Good(Some(u))
  }

  // ----- sequences of numbers

  function FiniteAll(items: seq<Value>): Read<seq<real>> {
    if items == [] then Good([])
    else
      var head :- Finite(items[0]);
      var tail :- FiniteAll(items[1..]);
      Good([head] + tail)
  }

  /** Iterating a byte string yields its bytes as integers; other iterables yield no numbers. */
  function Numbers(v: Value, length: nat): Read<seq<real>> {
    match v
    case List(items) =>
      var r :- FiniteAll(items);
      if |r| == length then Good(r) else Bad
    case Bin(bytes) =>
      if |bytes| == length then Good(seq(|bytes|, i requires 0 <= i < |bytes| => bytes[i] as real)) else Bad
    case _ => Bad
  }

  function SumSquares(e: seq<real>): real { if e == [] then 0.0 else e[0] * e[0] + SumSquares(e[1..]) }

  const DIMENSIONS: nat := 512

  /** A norm between 0.99 and 1.01, squared to avoid the root. */
  predicate UnitNorm(e: seq<real>) { 0.9801 <= SumSquares(e) <= 1.0201 }

  function ReadEmbedding(v: Value): Read<seq<real>> {
    if !v.List? then Bad
    else
      var r :- Numbers(v, DIMENSIONS);
      if UnitNorm(r) then Good(r) else Bad
  }

  function OptionalEmbedding(v: Value): Read<Option<seq<real>>> {
    if v.Nil? then Good(None) else match ReadEmbedding(v) case Bad => Bad case Good(e) => Good(Some(e))
  }

  function Reals(e: seq<real>): Value { List(seq(|e|, i requires 0 <= i < |e| => Float(Real(e[i])))) }

  predicate AllFloats(items: seq<Value>) { forall i :: 0 <= i < |items| ==> items[i].Float? }

  lemma {:induction false} FiniteAllOfReals(e: seq<real>)
    ensures FiniteAll(Reals(e).items) == Good(e)
  {
    if e == [] {
    } else {
      FiniteAllOfReals(e[1..]);
      assert Reals(e).items[1..] == Reals(e[1..]).items;
      assert e == [e[0]] + e[1..];
    }
  }

  lemma {:induction false} FiniteAllGives(items: seq<Value>)
    requires FiniteAll(items).Good?
    ensures var r := FiniteAll(items).value;
            |r| == |items| && (Reals(r) == List(items) <==> AllFloats(items))
  {
    if items == [] {
    } else {
      FiniteAllGives(items[1..]);
      var r, t := FiniteAll(items).value, FiniteAll(items[1..]).value;
      assert r[1..] == t;
      assert forall i :: 0 <= i < |t| ==> Reals(r).items[i + 1] == Reals(t).items[i];
      assert forall i :: 0 <= i < |items[1..]| ==> items[1..][i] == items[i + 1];
      if Reals(r) == List(items) {
        assert forall i :: 0 <= i < |items| ==> items[i] == Reals(r).items[i];
      }
      if AllFloats(items) {
        assert AllFloats(items[1..]);
        assert items[0] == Reals(r).items[0];
        assert forall i :: 0 < i < |items| ==> items[i] == items[1..][i - 1] == Reals(t).items[i - 1];
        assert Reals(r).items == items;
      }
    }
  }

  lemma NumbersRoundTrip(e: seq<real>)
    ensures Numbers(Reals(e), |e|) == Good(e)
  {
    FiniteAllOfReals(e);
  }

  lemma NumbersCanonical(v: Value, length: nat)
    requires Numbers(v, length).Good?
    ensures |Numbers(v, length).value| == length
    ensures Reals(Numbers(v, length).value) == v <==> v.List? && AllFloats(v.items)
  {
    if v.List? { FiniteAllGives(v.items); }
  }

  /** Hexadecimal digits of either case. */
  predicate IsHexOfEitherCase(s: string, n: nat) {
    |s| == n && forall i :: 0 <= i < n ==> '0' <= s[i] <= '9' || 'a' <= s[i] <= 'f' || 'A' <= s[i] <= 'F'
  }

  ghost predicate HasGroups(s: string, a: string, b: string, c: string, d: string, e: string) {
    && s == a + "-" + b + "-" + c + "-" + d + "-" + e
    && IsHexOfEitherCase(a, 8) && IsHexOfEitherCase(b, 4) && IsHexOfEitherCase(c, 4) && IsHexOfEitherCase(d, 4)
    && IsHexOfEitherCase(e, 12)
  }

  lemma HexOfEitherCase(c: char)
    ensures TraceState.Hex(LowerChar(c)) <==> '0' <= c <= '9' || 'a' <= c <= 'f' || 'A' <= c <= 'F'
  {
  }

  lemma GroupsOfShape(s: string)
    requires UuidShape(s)
    ensures HasGroups(s, s[..8], s[9..13], s[14..18], s[19..23], s[24..])
  {
    forall i | 0 <= i < 36 { HexOfEitherCase(s[i]); }
    assert s == s[..8] + s[8..9] + s[9..13] + s[13..14] + s[14..18] + s[18..19] + s[19..23] + s[23..24] + s[24..];
    assert s[8..9] == [s[8]] && s[13..14] == [s[13]] && s[18..19] == [s[18]] && s[23..24] == [s[23]];
  }

  lemma SlicesOfGroups(s: string, a: string, b: string, c: string, d: string, e: string)
    requires |a| == 8 && |b| == 4 && |c| == 4 && |d| == 4 && |e| == 12
    requires s == a + "-" + b + "-" + c + "-" + d + "-" + e
    ensures |s| == 36 && s[8] == '-' && s[13] == '-' && s[18] == '-' && s[23] == '-'
    ensures s[..8] == a && s[9..13] == b && s[14..18] == c && s[19..23] == d && s[24..] == e
  {
  }

  lemma ShapeOfGroups(s: string, a: string, b: string, c: string, d: string, e: string)
    requires HasGroups(s, a, b, c, d, e)
    ensures UuidShape(s)
  {
    SlicesOfGroups(s, a, b, c, d, e);
    forall i | 0 <= i < 36 && i != 8 && i != 13 && i != 18 && i != 23 ensures TraceState.Hex(LowerChar(s[i])) {
      HexOfEitherCase(s[i]);
      if i < 8 { assert s[i] == a[i]; }
      else if i < 13 { assert s[i] == b[i - 9]; }
      else if i < 18 { assert s[i] == c[i - 14]; }
      else if i < 23 { assert s[i] == d[i - 19]; }
      else { assert s[i] == e[i - 24]; }
    }
  }

  /** An identifier is five groups of 8, 4, 4, 4 and 12 hexadecimal digits. */
  lemma UuidHasGroups(s: string)
    ensures UuidShape(s) <==> exists a, b, c, d, e :: HasGroups(s, a, b, c, d, e)
  {
    if UuidShape(s) { GroupsOfShape(s); }
    if a, b, c, d, e :| HasGroups(s, a, b, c, d, e) { ShapeOfGroups(s, a, b, c, d, e); }
  }

  /** The length of an embedding is its product with itself. */
  lemma {:induction false} SumSquaresIsDot(e: seq<real>)
    ensures SumSquares(e) == Dot(e, e)
  {
    if e == [] {
    } else {
      SumSquaresIsDot(e[1..]);
    }
  }

  /** Accepted embeddings have 512 finite numbers and a length between 0.99 and 1.01. */
  lemma EmbeddingIsUnit(v: Value)
    requires ReadEmbedding(v).Good?
    ensures var e := ReadEmbedding(v).value; |e| == 512 && 0.99 * 0.99 <= Dot(e, e) <= 1.01 * 1.01
  {
    SumSquaresIsDot(ReadEmbedding(v).value);
  }
}

/** The broker's response envelope: what its constructors and its deserializer let through, and its
    way through a frame and back. */
module Responses {
  import opened Wrappers
  import opened Json
  import opened Frame

  datatype ErrorCode =
    | InvalidRequest
    | RuntimeUnavailable
    | AuthenticationDenied
    | ScopeDenied
    | PolicyBlocked
    | OperationExpired
    | OperationConflict
    | Cancelled
    | Timeout
    | TargetExecutionFailed
    | ProtocolMismatch
    | ResponseTooLarge
    | Internal

  function WireCode(code: ErrorCode): string {
    match code
    case InvalidRequest => "invalid_request"
    case RuntimeUnavailable => "runtime_unavailable"
    case AuthenticationDenied => "authentication_denied"
    case ScopeDenied => "scope_denied"
    case PolicyBlocked => "policy_blocked"
    case OperationExpired => "operation_expired"
    case OperationConflict => "operation_conflict"
    case Cancelled => "cancelled"
    case Timeout => "timeout"
    case TargetExecutionFailed => "target_execution_failed"
    case ProtocolMismatch => "protocol_mismatch"
    case ResponseTooLarge => "response_too_large"
    case Internal => "internal"
  }

  const ALL_CODES: seq<ErrorCode> := [
    InvalidRequest, RuntimeUnavailable, AuthenticationDenied, ScopeDenied, PolicyBlocked, OperationExpired,
    OperationConflict, Cancelled, Timeout, TargetExecutionFailed, ProtocolMismatch, ResponseTooLarge, Internal]

  function SafeMessage(code: ErrorCode): string {
    match code
    case InvalidRequest => "the request is invalid"
    case RuntimeUnavailable => "the DopeDB runtime is unavailable"
    case AuthenticationDenied => "runtime authentication was denied"
    case ScopeDenied => "the requested resource is outside the active scope"
    case PolicyBlocked => "the operation is blocked by the active safety policy"
    case OperationExpired => "the operation has expired"
    case OperationConflict => "the operation state changed before it could be claimed"
    case Cancelled => "the operation was cancelled"
    case Timeout => "the operation timed out"
    case TargetExecutionFailed => "the target database operation failed"
    case ProtocolMismatch => "the client and runtime protocols are incompatible"
    case ResponseTooLarge => "the response exceeds the configured limit"
    case Internal => "the DopeDB runtime encountered an internal error"
  }

  datatype ProtocolError = ProtocolError(code: ErrorCode, message: string, retryable: bool)

  function NewError(code: ErrorCode, retryable: bool): ProtocolError {
    ProtocolError(code, SafeMessage(code), retryable)
  }

  datatype Response = Response(protocolVersion: nat, requestId: int, ok: bool,
                               result: Option<Value>, error: Option<ProtocolError>)

  function Success(version: nat, id: int, result: Value): Response {
    Response(version, id, true, Some(result), None)
  }

  function Failure(version: nat, id: int, error: ProtocolError): Response {
    Response(version, id, false, None, Some(error))
  }

  predicate Validate(r: Response) {
    (r.ok && r.result.Some? && r.error.None?) || (!r.ok && r.result.None? && r.error.Some?)
  }

  /** What the private fields and the two constructors allow: a 16-bit version, exactly one of
      result and error, and an error that carries its code's stable message. */
  predicate WellMade(r: Response) {
    && r.protocolVersion < 0x1_0000 && Validate(r)
    && (r.error.Some? ==> r.error.value.message == SafeMessage(r.error.value.code))
  }

  /** The results of the two constructors, an error being made from its code. */
  ghost predicate Constructed(r: Response) {
    || (exists result: Value :: r == Success(r.protocolVersion, r.requestId, result))
    || (exists code: ErrorCode, retryable: bool ::
          r == Failure(r.protocolVersion, r.requestId, NewError(code, retryable)))
  }

  /** The envelopes that are well made are the results of the constructors, no more and no fewer. */
  lemma ConstructorsMakeExactly(r: Response)
    ensures WellMade(r) <==> r.protocolVersion < 0x1_0000 && Constructed(r)
  {
    hide SafeMessage;
    if WellMade(r) {
      if r.ok {
        assert r == Success(r.protocolVersion, r.requestId, r.result.value);
      } else {
        var e := r.error.value;
        assert r == Failure(r.protocolVersion, r.requestId, NewError(e.code, e.retryable));
      }
    }
  }

  // ---- Writing -----------------------------------------------------------------------------------------------

  /** How request ids are written and read. */
  datatype Ids = Ids(show: int -> string, read: string -> Option<int>)

  function ErrorToJson(e: ProtocolError): Value {
    Object([Entry("code", String(WireCode(e.code))), Entry("message", String(e.message)),
            Entry("retryable", Bool(e.retryable))])
  }

  function ErrorEntries(r: Response): seq<Entry> {
    if r.error.Some? then [Entry("error", ErrorToJson(r.error.value))] else []
  }

  function ResultEntries(r: Response): seq<Entry> {
    if r.result.Some? then [Entry("result", r.result.value)] else []
  }

  /** The envelope as a JSON value; a map iterates over its keys in order. */
  function ToJson(r: Response, ids: Ids): Value {
    Object(ErrorEntries(r)
           + [Entry("ok", Bool(r.ok)), Entry("protocolVersion", Int(r.protocolVersion)),
              Entry("requestId", String(ids.show(r.requestId)))]
           + ResultEntries(r))
  }

  // ---- Reading -------------------------------------------------------------------------------------------------

  function Lookup(entries: seq<Entry>, key: string): Option<Value> {
    if entries == [] then None
    else if entries[0].key == key then Some(entries[0].value)
    else Lookup(entries[1..], key)
  }

  predicate KnownKeys(entries: seq<Entry>, known: set<string>) {
    forall i :: 0 <= i < |entries| ==> entries[i].key in known
  }

  function CodeNamed(name: string, n: nat): Option<ErrorCode>
    requires n <= |ALL_CODES|
  {
    if n == 0 then None
    else if WireCode(ALL_CODES[n - 1]) == name then Some(ALL_CODES[n - 1])
    else CodeNamed(name, n - 1)
  }

  /** A unit variant is read from its name, or from an object that maps its name to null. */
  function ReadCode(v: Value): Option<ErrorCode> {
    match v
    case String(name) => CodeNamed(name, |ALL_CODES|)
    case Object(entries) =>
      if |entries| == 1 && entries[0].value == Null then CodeNamed(entries[0].key, |ALL_CODES|) else None
    case _ => None
  }

  function ErrorOf(code: Option<Value>, message: Option<Value>, retryable: Option<Value>): Option<ProtocolError> {
    if code.None? || message.None? || retryable.None? then None
    else
      match ReadCode(code.value)
      case None => None
      case Some(c) =>
        if message.value == String(SafeMessage(c)) && retryable.value.Bool? then Some(NewError(c, retryable.value.b))
        else None
  }

  /** A protocol error: an object of exactly its fields, or those fields in an array, with the
      message that belongs to its code. */
  function ReadError(v: Value): Option<ProtocolError> {
    match v
    case Object(entries) =>
      if KnownKeys(entries, {"code", "message", "retryable"}) then
        ErrorOf(Lookup(entries, "code"), Lookup(entries, "message"), Lookup(entries, "retryable"))
      else None
    case Array(items) =>
      if |items| == 3 then ErrorOf(Some(items[0]), Some(items[1]), Some(items[2])) else None
    case _ => None
  }

  function ReadVersion(v: Option<Value>): Option<nat> {
    if v.Some? && v.value.Int? && 0 <= v.value.n < 0x1_0000 then Some(v.value.n) else None
  }

  function ReadId(v: Option<Value>, ids: Ids): Option<int> {
    if v.Some? && v.value.String? then ids.read(v.value.text) else None
  }

  const FIELDS := {"protocolVersion", "requestId", "ok", "result", "error"}

  /** Deserialization. An optional field that is null is read as absent, so the presence of "result"
      is taken from the object itself, and a present error must not have been null. */
  function FromJson(v: Value, ids: Ids): Option<Response> {
    if !v.Object? then None
    else
      var result, error := Lookup(v.entries, "result"), Lookup(v.entries, "error");
      var version := ReadVersion(Lookup(v.entries, "protocolVersion"));
      var id := ReadId(Lookup(v.entries, "requestId"), ids);
      var ok := Lookup(v.entries, "ok");
      if !KnownKeys(v.entries, FIELDS) || version.None? || id.None? || ok.None? || !ok.value.Bool? then None
      else
        var wireResult := if result.Some? && result.value != Null then result else None;
        var wireError := if error.Some? && error.value != Null then ReadError(error.value) else None;
        if error.Some? && error.value != Null && wireError.None? then None
        else
          var kept := if result.Some? then Some(if wireResult.Some? then wireResult.value else Null) else None;
          var r := Response(version.value, id.value, ok.value.b, kept, wireError);
          if error.Some? && r.error.None? then None
          else if Validate(r) then Some(r) else None
  }

  // ---- Round trip ----------------------------------------------------------------------------------------------

  lemma {:induction false} LookupSkips(a: seq<Entry>, b: seq<Entry>, key: string)
    requires forall i :: 0 <= i < |a| ==> a[i].key != key
    ensures Lookup(a + b, key) == Lookup(b, key)
    decreases |a|
  {
    if a == [] {
      assert a + b == b;
    } else {
      assert (a + b)[1..] == a[1..] + b;
      LookupSkips(a[1..], b, key);
    }
  }

  lemma LookupAt(a: seq<Entry>, e: Entry, b: seq<Entry>)
    requires forall i :: 0 <= i < |a| ==> a[i].key != e.key
    ensures Lookup(a + ([e] + b), e.key) == Some(e.value)
  {
    LookupSkips(a, [e] + b, e.key);
  }

  function CodeIndex(code: ErrorCode): (k: nat)
    ensures k < |ALL_CODES| && ALL_CODES[k] == code
  {
    match code
    case InvalidRequest => 0
    case RuntimeUnavailable => 1
    case AuthenticationDenied => 2
    case ScopeDenied => 3
    case PolicyBlocked => 4
    case OperationExpired => 5
    case OperationConflict => 6
    case Cancelled => 7
    case Timeout => 8
    case TargetExecutionFailed => 9
    case ProtocolMismatch => 10
    case ResponseTooLarge => 11
    case Internal => 12
  }

  lemma CodesReadBack(code: ErrorCode)
    ensures ReadCode(String(WireCode(code))) == Some(code)
  {
    CodeFound(WireCode(code), |ALL_CODES|, CodeIndex(code));
  }

  lemma {:induction false} CodeFound(name: string, n: nat, k: nat)
    requires k < n <= |ALL_CODES| && WireCode(ALL_CODES[k]) == name
    ensures CodeNamed(name, n).Some? && WireCode(CodeNamed(name, n).value) == name
    ensures CodeNamed(name, n) == Some(ALL_CODES[k])
  {
    hide ALL_CODES;
    if WireCode(ALL_CODES[n - 1]) != name {
      CodeFound(name, n - 1, k);
    } else {
      WireCodesDiffer(ALL_CODES[n - 1], ALL_CODES[k]);
    }
  }

  lemma WireCodesDiffer(a: ErrorCode, b: ErrorCode)
    requires WireCode(a) == WireCode(b)
    ensures a == b
  {
    var x, y := WireCode(a), WireCode(b);
    assert |x| == |y| && x[0] == y[0] && x[1] == y[1] && x[|x| - 1] == y[|y| - 1];
  }

  lemma ErrorReadsBack(e: ProtocolError)
    requires e.message == SafeMessage(e.code)
    ensures ReadError(ErrorToJson(e)) == Some(e)
  {
    hide ReadCode, WireCode, SafeMessage;
    CodesReadBack(e.code);
    var code, message := Entry("code", String(WireCode(e.code))), Entry("message", String(e.message));
    var retryable := Entry("retryable", Bool(e.retryable));
    var es := ErrorToJson(e).entries;
    assert es == [] + ([code] + [message, retryable]);
    LookupAt([], code, [message, retryable]);
    assert es == [code] + ([message] + [retryable]);
    LookupAt([code], message, [retryable]);
    assert es == [code, message] + ([retryable] + []);
    LookupAt([code, message], retryable, []);
  }

  lemma EnvelopeFields(r: Response, ids: Ids)
    ensures var es := ToJson(r, ids).entries;
            && Lookup(es, "ok") == Some(Bool(r.ok))
            && Lookup(es, "protocolVersion") == Some(Int(r.protocolVersion))
            && Lookup(es, "requestId") == Some(String(ids.show(r.requestId)))
            && Lookup(es, "result") == r.result
            && Lookup(es, "error") == (if r.error.Some? then Some(ErrorToJson(r.error.value)) else None)
            && KnownKeys(es, FIELDS)
  {
    hide ErrorToJson;
    var head, tail := ErrorEntries(r), ResultEntries(r);
    var ok, version := Entry("ok", Bool(r.ok)), Entry("protocolVersion", Int(r.protocolVersion));
    var id := Entry("requestId", String(ids.show(r.requestId)));
    var es := ToJson(r, ids).entries;
    assert es == head + ([ok] + ([version, id] + tail));
    LookupAt(head, ok, [version, id] + tail);
    assert es == (head + [ok]) + ([version] + ([id] + tail));
    LookupAt(head + [ok], version, [id] + tail);
    assert es == (head + [ok, version]) + ([id] + tail);
    LookupAt(head + [ok, version], id, tail);
    assert es == (head + [ok, version, id]) + tail;
    LookupSkips(head + [ok, version, id], tail, "result");
    if r.error.None? {
      assert es == es + [];
      LookupSkips(es, [], "error");
    }
  }

  /** Every envelope its constructors can make reads back, a null result included. */
  lemma ResponseReadsBack(r: Response, ids: Ids)
    requires WellMade(r) && ids.read(ids.show(r.requestId)) == Some(r.requestId)
    ensures FromJson(ToJson(r, ids), ids) == Some(r)
  {
    hide ToJson, Lookup, KnownKeys, ReadError, SafeMessage;
    EnvelopeFields(r, ids);
    assert ToJson(r, ids).Object? by { EnvelopeIsObject(r, ids); }
    if r.error.Some? {
      ErrorReadsBack(r.error.value);
    }
  }

  lemma EnvelopeIsObject(r: Response, ids: Ids)
    ensures ToJson(r, ids).Object?
  {
  }

  lemma ReadErrorIsSafe(v: Value)
    ensures ReadError(v).Some? ==> ReadError(v).value.message == SafeMessage(ReadError(v).value.code)
  {
    hide ReadCode, SafeMessage, Lookup;
  }

  lemma {:induction false} CodeNamedIs(name: string, n: nat)
    requires n <= |ALL_CODES|
    ensures CodeNamed(name, n).Some? ==> WireCode(CodeNamed(name, n).value) == name
  {
    hide ALL_CODES, WireCode;
    if n > 0 && WireCode(ALL_CODES[n - 1]) != name {
      CodeNamedIs(name, n - 1);
    }
  }

  /** An error code on the wire: its name, or an object that maps its name to null. */
  predicate SaysCode(v: Value, code: ErrorCode) {
    v == String(WireCode(code)) || v == Object([Entry(WireCode(code), Null)])
  }

  lemma CodesExactly(v: Value, code: ErrorCode)
    ensures ReadCode(v) == Some(code) <==> SaysCode(v, code)
  {
    hide WireCode, ALL_CODES;
    CodeFound(WireCode(code), |ALL_CODES|, CodeIndex(code));
    match v
    case String(name) => CodeNamedIs(name, |ALL_CODES|);
    case Object(entries) =>
      if |entries| == 1 {
        CodeNamedIs(entries[0].key, |ALL_CODES|);
        assert entries == [entries[0]];
      }
    case _ =>
  }

  /** The three fields of an error: a code, the message that belongs to it, and a flag. */
  predicate SaysFields(code: Option<Value>, message: Option<Value>, retryable: Option<Value>, e: ProtocolError) {
    && code.Some? && SaysCode(code.value, e.code)
    && e.message == SafeMessage(e.code) && message == Some(String(e.message)) && retryable == Some(Bool(e.retryable))
  }

  /** An error on the wire: an object of these three fields and no others, or the three in an array. */
  predicate SaysError(v: Value, e: ProtocolError) {
    match v
    case Object(entries) =>
      && (forall i :: 0 <= i < |entries| ==> entries[i].key == "code" || entries[i].key == "message" || entries[i].key == "retryable")
      && SaysFields(Lookup(entries, "code"), Lookup(entries, "message"), Lookup(entries, "retryable"), e)
    case Array(items) => |items| == 3 && SaysFields(Some(items[0]), Some(items[1]), Some(items[2]), e)
    case _ => false
  }

  lemma FieldsExactly(code: Option<Value>, message: Option<Value>, retryable: Option<Value>, e: ProtocolError)
    ensures ErrorOf(code, message, retryable) == Some(e) <==> SaysFields(code, message, retryable, e)
  {
    hide ReadCode, SaysCode, SafeMessage;
    if code.Some? {
      CodesExactly(code.value, e.code);
      if ReadCode(code.value).Some? {
        CodesExactly(code.value, ReadCode(code.value).value);
      }
    }
  }

  /** Which errors are read, and as what. */
  lemma ErrorsExactly(v: Value, e: ProtocolError)
    ensures ReadError(v) == Some(e) <==> SaysError(v, e)
  {
    hide ErrorOf, SaysFields, Lookup;
    match v
    case Object(entries) => FieldsExactly(Lookup(entries, "code"), Lookup(entries, "message"), Lookup(entries, "retryable"), e);
    case Array(items) =>
      if |items| == 3 {
        FieldsExactly(Some(items[0]), Some(items[1]), Some(items[2]), e);
      }
    case _ =>
  }

  ghost predicate SomeError(v: Value) {
    exists e :: SaysError(v, e)
  }

  lemma SomeErrorExactly(v: Value)
    ensures ReadError(v).Some? <==> SomeError(v)
  {
    hide ReadError, SaysError;
    if ReadError(v).Some? {
      ErrorsExactly(v, ReadError(v).value);
    }
    if e :| SaysError(v, e) {
      ErrorsExactly(v, e);
    }
  }

  predicate EnvelopeField(key: string) {
    key == "protocolVersion" || key == "requestId" || key == "ok" || key == "result" || key == "error"
  }

  /** Deserialization accepts exactly an object of known fields, with a version of 16 bits, an id that
      reads, a result and no error when ok, and an error and no result, not even null, when not ok.
      What it accepts is an envelope a constructor could have made. */
  lemma AcceptsExactly(v: Value, ids: Ids)
    requires v.Object?
    ensures var result, error := Lookup(v.entries, "result"), Lookup(v.entries, "error");
            var version, id, ok := Lookup(v.entries, "protocolVersion"), Lookup(v.entries, "requestId"), Lookup(v.entries, "ok");
            FromJson(v, ids).Some? <==>
            && (forall i :: 0 <= i < |v.entries| ==> EnvelopeField(v.entries[i].key))
            && version.Some? && version.value.Int? && 0 <= version.value.n < 65_536
            && id.Some? && id.value.String? && ids.read(id.value.text).Some?
            && ok.Some? && ok.value.Bool?
            && if ok.value.b then result.Some? && error.None?
               else result.None? && error.Some? && SomeError(error.value)
    ensures FromJson(v, ids).Some? ==> WellMade(FromJson(v, ids).value)
    ensures var version, id, ok := Lookup(v.entries, "protocolVersion"), Lookup(v.entries, "requestId"), Lookup(v.entries, "ok");
            var error := Lookup(v.entries, "error");
            FromJson(v, ids).Some? ==>
              var r := FromJson(v, ids).value;
              && Int(r.protocolVersion) == version.value && Some(r.requestId) == ids.read(id.value.text)
              && r.ok == ok.value.b && r.result == Lookup(v.entries, "result")
              && (error.Some? ==> r.error.Some? && SaysError(error.value, r.error.value))
  {
    hide ReadError, SaysError, SomeError, Lookup, SafeMessage;
    var error := Lookup(v.entries, "error");
    if error.Some? {
      ReadErrorIsSafe(error.value);
      SomeErrorExactly(error.value);
      if ReadError(error.value).Some? {
        ErrorsExactly(error.value, ReadError(error.value).value);
      }
      NullIsNoError();
    }
    KnownKeysAre(v.entries);
    hide KnownKeys;
  }

  lemma KnownKeysAre(entries: seq<Entry>)
    ensures KnownKeys(entries, FIELDS) <==> forall i :: 0 <= i < |entries| ==> EnvelopeField(entries[i].key)
  {
  }

  lemma NullIsNoError()
    ensures ReadError(Null).None?
  {
  }

  // ---- Through a frame ---------------------------------------------------------------------------------------------

  /** The checks made on an envelope before it is serialized. */
  function Preflight(r: Response): Option<FrameError> {
    if r.result.Some? && JsonLimits(r.result.value).Some? then JsonLimits(r.result.value)
    else if r.error.Some? then ValidateString(r.error.value.message)
    else None
  }

  /** The preflight passes exactly when the result is within the limits and the message is not too long. */
  lemma PreflightMeans(r: Response)
    ensures Preflight(r).None? <==>
            && (r.result.Some? ==> Within(r.result.value))
            && (r.error.Some? ==> Utf8Length(r.error.value.message) <= 262_144)
  {
    hide JsonLimits, Within, Utf8Length;
    if r.result.Some? {
      LimitsMeaning(r.result.value);
    }
  }

  /** The preflight alone refuses nothing: it only moves a refusal before serialization. */
  lemma PreflightIsImplied(r: Response, ids: Ids)
    requires Within(ToJson(r, ids))
    ensures Preflight(r).None?
  {
    hide Within, JsonLimits, Utf8Length, SizesFit, WireCode, Nodes, Depth;
    var v := ToJson(r, ids);
    if r.result.Some? {
      var k := |v.entries| - 1;
      assert v.entries[k] == Entry("result", r.result.value);
      ChildrenWithin(v, k);
      LimitsMeaning(r.result.value);
    }
    if r.error.Some? {
      var e := ErrorToJson(r.error.value);
      assert v.entries[0] == Entry("error", e);
      ChildrenWithin(v, 0);
      ChildrenWithin(e, 1);
      assert Children(e)[1] == String(r.error.value.message);
      StringWithin(r.error.value.message);
    }
  }

  lemma StringWithin(text: string)
    requires Within(String(text))
    ensures ValidateString(text).None?
  {
  }

  /** An envelope whose text is not empty, fits the limit and whose JSON is within the limits is
      framed, and the frame decodes to the envelope. */
  lemma ResponseCrossesFrame(r: Response, ids: Ids, payload: seq<byte>, maximum: nat, parse: seq<byte> -> Option<Value>)
    requires WellMade(r) && ids.read(ids.show(r.requestId)) == Some(r.requestId)
    requires parse(payload) == Some(ToJson(r, ids))
    ensures var frame := Encoded(Preflight(r), payload, maximum, parse);
            && (frame.Ok? <==> 0 < |payload| <= maximum && |payload| <= U32_MAX && Within(ToJson(r, ids)))
            && (frame.Ok? ==> Decoded(frame.value, maximum, parse, v => FromJson(v, ids)) == Ok(r))
  {
    hide Encoded, Decoded, Within, WellMade, Preflight, ToJson, FromJson;
    EncodesExactly(Preflight(r), payload, maximum, parse);
    if Within(ToJson(r, ids)) {
      PreflightIsImplied(r, ids);
    }
    ResponseReadsBack(r, ids);
    if Encoded(Preflight(r), payload, maximum, parse).Ok? {
      FrameReadsBack(Preflight(r), payload, maximum, parse, v => FromJson(v, ids), ToJson(r, ids), r);
    }
  }
}

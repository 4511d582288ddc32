/** Control frames: a bounded writer fed in chunks, a big-endian length prefix, and the encoder and
    decoder around the JSON limits. The JSON text itself is printed and parsed elsewhere: here it is
    the chunks a serializer writes and a parse function. */
module Frame {
  import opened Wrappers
  import opened Json

  type byte = b: int | 0 <= b < 256

  const U32_MAX := 0xFFFF_FFFF

  // ---- The bounded writer ------------------------------------------------------------------------------------

  function Concat(chunks: seq<seq<byte>>): seq<byte> {
    if chunks == [] then [] else chunks[0] + Concat(chunks[1..])
  }

  function Min(a: nat, b: nat): nat {
    if a < b then a else b
  }

  function Take(bytes: seq<byte>, n: nat): seq<byte> {
    bytes[..Min(n, |bytes|)]
  }

  class BoundedWriter {
    var bytes: seq<byte>
    const maximum: nat
    var overflowed: bool

    ghost predicate Valid()
      reads this
    {
      |bytes| <= maximum && (overflowed ==> |bytes| == maximum)
    }

    constructor (maximum: nat)
      ensures Valid() && bytes == [] && !overflowed && this.maximum == maximum
    {
      this.maximum := maximum;
      bytes := [];
      overflowed := false;
    }

    /** Takes the whole chunk or, when it does not fit, what still fits, and reports an error. */
    method Write(chunk: seq<byte>) returns (written: Option<nat>)
      requires Valid()
      modifies this
      ensures Valid()
      ensures written == if |old(bytes)| + |chunk| <= maximum then Some(|chunk|) else None
      ensures bytes == Take(old(bytes) + chunk, maximum)
      ensures overflowed == (old(overflowed) || |old(bytes)| + |chunk| > maximum)
    {
      var remaining := maximum - |bytes|;
      if |chunk| > remaining {
        bytes := bytes + chunk[..remaining];
        overflowed := true;
        assert bytes == Take(old(bytes) + chunk, maximum);
        return None;
      }
      bytes := bytes + chunk;
      return Some(|chunk|);
    }
  }

  /** A serializer writing its chunks until one is refused. What the writer holds and whether it
      overflowed depends only on the bytes in total, not on how they are cut into chunks. */
  method WriteAll(writer: BoundedWriter, chunks: seq<seq<byte>>) returns (ok: bool)
    requires writer.Valid() && writer.bytes == [] && !writer.overflowed
    modifies writer
    ensures writer.bytes == Take(Concat(chunks), writer.maximum)
    ensures writer.overflowed == (|Concat(chunks)| > writer.maximum)
    ensures ok == !writer.overflowed
  {
    ghost var total := Concat(chunks);
    for i := 0 to |chunks|
      invariant writer.Valid() && !writer.overflowed
      invariant total == writer.bytes + Concat(chunks[i..])
    {
      ghost var before := writer.bytes;
      assert chunks[i..][1..] == chunks[i + 1..];
      var written := writer.Write(chunks[i]);
      assert total == (before + chunks[i]) + Concat(chunks[i + 1..]);
      if written.None? {
        return false;
      }
    }
    ok := true;
  }

  // ---- The length prefix -----------------------------------------------------------------------------------------

  function ToBe32(n: nat): (r: seq<byte>)
    requires n <= U32_MAX
    ensures |r| == 4
  {
    [n / 0x100_0000, n / 0x1_0000 % 0x100, n / 0x100 % 0x100, n % 0x100]
  }

  function FromBe32(prefix: seq<byte>): (n: nat)
    requires |prefix| == 4
    ensures n <= U32_MAX
  {
    (prefix[0] as int) * 0x100_0000 + (prefix[1] as int) * 0x1_0000 + (prefix[2] as int) * 0x100 + (prefix[3] as int)
  }

  /** The prefix and the length determine each other. */
  lemma PrefixReadsBack(n: nat, prefix: seq<byte>)
    ensures n <= U32_MAX ==> FromBe32(ToBe32(n)) == n
    ensures |prefix| == 4 ==> ToBe32(FromBe32(prefix)) == prefix
  {
    if n <= U32_MAX {
      BytesOfLength(n);
    }
    if |prefix| == 4 {
      LengthOfBytes(prefix);
    }
  }

  /** The first byte of the prefix is the most significant. */
  lemma PrefixIsBigEndian(n: nat)
    requires n <= U32_MAX
    ensures var p := ToBe32(n);
            n == p[0] as int * 16_777_216 + p[1] as int * 65_536 + p[2] as int * 256 + p[3] as int
    ensures n < 4_294_967_296 && ToBe32(n)[0] as int == n / 16_777_216
  {
    BytesOfLength(n);
  }

  lemma BytesOfLength(n: nat)
    requires n <= U32_MAX
    ensures FromBe32(ToBe32(n)) == n
  {
    assert n == n / 0x100 * 0x100 + n % 0x100;
    var a := n / 0x100;
    assert a == a / 0x100 * 0x100 + a % 0x100;
    var b := a / 0x100;
    assert b == b / 0x100 * 0x100 + b % 0x100;
    assert b == n / 0x1_0000 && b / 0x100 == n / 0x100_0000;
  }

  lemma LengthOfBytes(prefix: seq<byte>)
    requires |prefix| == 4
    ensures ToBe32(FromBe32(prefix)) == prefix
  {
    var n := FromBe32(prefix);
    var b := (prefix[0] as int) * 0x100 + (prefix[1] as int);
    var a := b * 0x100 + (prefix[2] as int);
    assert n == a * 0x100 + (prefix[3] as int);
    assert n / 0x100 == a && n % 0x100 == prefix[3];
    assert a / 0x100 == b && a % 0x100 == prefix[2];
    assert n / 0x1_0000 == b && n / 0x100_0000 == prefix[0];
  }

  function ParseFrameLength(prefix: seq<byte>, maximum: nat): Result<nat, FrameError>
    requires |prefix| == 4
  {
    var length := FromBe32(prefix);
    if length == 0 then Err(EmptyPayload)
    else if length > maximum then Err(PayloadTooLarge(length, maximum))
    else Ok(length)
  }

  // ---- Encoding and decoding --------------------------------------------------------------------------------------

  /** The frame of a payload: what the encoder returns, and in which order it refuses. */
  function Encoded(preflight: Option<FrameError>, payload: seq<byte>, maximum: nat,
                   parse: seq<byte> -> Option<Value>): Result<seq<byte>, FrameError>
  {
    var limit := Min(maximum, U32_MAX);
    if preflight.Some? then Err(preflight.value)
    else if |payload| > limit then Err(PayloadTooLarge(limit + 1, limit))
    else if payload == [] then Err(EmptyPayload)
    else
      match parse(payload)
      case None => Err(InvalidJson)
      case Some(v) =>
        match JsonLimits(v)
        case Some(e) => Err(e)
        case None => Ok(ToBe32(|payload|) + payload)
  }

  method EncodeFrame(preflight: Option<FrameError>, chunks: seq<seq<byte>>, maximum: nat,
                     parse: seq<byte> -> Option<Value>) returns (r: Result<seq<byte>, FrameError>)
    ensures r == Encoded(preflight, Concat(chunks), maximum, parse)
  {
    if preflight.Some? {
      return Err(preflight.value);
    }
    var limit := Min(maximum, U32_MAX);
    var writer := new BoundedWriter(limit);
    var ok := WriteAll(writer, chunks);
    if !ok {
      return Err(PayloadTooLarge(limit + 1, limit));
    }
    var payload := writer.bytes;
    assert payload == Concat(chunks);
    if payload == [] {
      return Err(EmptyPayload);
    }
    var json := parse(payload);
    if json.None? {
      return Err(InvalidJson);
    }
    var refused, _ := ValidateJsonLimits(json.value);
    if refused.Some? {
      return Err(refused.value);
    }
    r := Ok(ToBe32(|payload|) + payload);
  }

  function Decoded<T>(frame: seq<byte>, maximum: nat, parse: seq<byte> -> Option<Value>,
                      typed: Value -> Option<T>): Result<T, FrameError>
  {
    if |frame| < 4 then Err(MissingLengthPrefix)
    else
      match ParseFrameLength(frame[..4], maximum)
      case Err(e) => Err(e)
      case Ok(declared) =>
        if declared != |frame| - 4 then Err(LengthMismatch(declared, |frame| - 4))
        else
          match parse(frame[4..])
          case None => Err(InvalidJson)
          case Some(v) =>
            match JsonLimits(v)
            case Some(e) => Err(e)
            case None =>
              match typed(v)
              case Some(t) => Ok(t)
              case None => Err(InvalidSchema)
  }

  /** The encoder succeeds exactly for a payload that passes the preflight, is not empty, fits both
      the limit and the prefix, and whose JSON is within the limits. */
  lemma EncodesExactly(preflight: Option<FrameError>, payload: seq<byte>, maximum: nat,
                       parse: seq<byte> -> Option<Value>)
    ensures Encoded(preflight, payload, maximum, parse).Ok? <==>
            && preflight.None? && 0 < |payload| <= maximum && |payload| <= U32_MAX
            && parse(payload).Some? && Within(parse(payload).value)
  {
    hide JsonLimits, Within;
    if parse(payload).Some? {
      LimitsMeaning(parse(payload).value);
    }
  }

  /** Whatever the encoder accepts the decoder returns, at the same limit: the prefix is the payload
      length, and the value that was printed comes back. */
  lemma FrameReadsBack<T>(preflight: Option<FrameError>, payload: seq<byte>, maximum: nat,
                          parse: seq<byte> -> Option<Value>, typed: Value -> Option<T>, json: Value, value: T)
    requires Encoded(preflight, payload, maximum, parse).Ok?
    requires parse(payload) == Some(json) && typed(json) == Some(value)
    ensures var frame := Encoded(preflight, payload, maximum, parse).value;
            && |frame| == 4 + |payload| && ParseFrameLength(frame[..4], maximum) == Ok(|payload|)
            && Decoded(frame, maximum, parse, typed) == Ok(value)
  {
    hide JsonLimits, ToBe32, FromBe32;
    var frame := Encoded(preflight, payload, maximum, parse).value;
    PrefixReadsBack(|payload|, []);
    assert frame[..4] == ToBe32(|payload|) && frame[4..] == payload;
  }

  /** The decoder accepts exactly the frames whose prefix counts the rest, within the limit, and
      whose JSON is within the limits and has the expected shape. */
  lemma DecodesExactly<T>(frame: seq<byte>, maximum: nat, parse: seq<byte> -> Option<Value>, typed: Value -> Option<T>)
    ensures Decoded(frame, maximum, parse, typed).Ok? <==>
            && |frame| > 4 && |frame| - 4 <= maximum && |frame| - 4 <= U32_MAX
            && frame[..4] == ToBe32(|frame| - 4)
            && parse(frame[4..]).Some? && Within(parse(frame[4..]).value)
            && typed(parse(frame[4..]).value).Some?
  {
    hide JsonLimits, Within, ToBe32, FromBe32;
    if |frame| >= 4 {
      PrefixReadsBack(0, frame[..4]);
      if |frame| - 4 <= U32_MAX {
        PrefixReadsBack(|frame| - 4, []);
      }
      if parse(frame[4..]).Some? {
        LimitsMeaning(parse(frame[4..]).value);
      }
    }
  }

  /** Which error refuses a frame: too few bytes for a prefix, then a declared length of zero, over the
      limit or other than the rest, then JSON that does not parse, breaks a limit or has the wrong shape. */
  lemma DecodeRefusals<T>(frame: seq<byte>, maximum: nat, parse: seq<byte> -> Option<Value>, typed: Value -> Option<T>)
    ensures |frame| < 4 <==> Decoded(frame, maximum, parse, typed) == Err(MissingLengthPrefix)
    ensures |frame| >= 4 ==>
              var n := frame[0] as int * 16_777_216 + frame[1] as int * 65_536 + frame[2] as int * 256 + frame[3] as int;
              && (Decoded(frame, maximum, parse, typed) == Err(EmptyPayload) <==> n == 0)
              && (n > maximum && n > 0 ==> Decoded(frame, maximum, parse, typed) == Err(PayloadTooLarge(n, maximum)))
              && (0 < n <= maximum && n != |frame| - 4 ==>
                    Decoded(frame, maximum, parse, typed) == Err(LengthMismatch(n, |frame| - 4)))
              && (0 < n <= maximum && n == |frame| - 4 ==>
                    var json := parse(frame[4..]);
                    && (json.None? ==> Decoded(frame, maximum, parse, typed) == Err(InvalidJson))
                    && (json.Some? && !Within(json.value) ==>
                          JsonLimits(json.value).Some? && Decoded(frame, maximum, parse, typed) == Err(JsonLimits(json.value).value))
                    && (json.Some? && Within(json.value) && typed(json.value).None? ==>
                          Decoded(frame, maximum, parse, typed) == Err(InvalidSchema)))
  {
    hide JsonLimits, Within;
    if |frame| >= 4 {
      assert forall i :: 0 <= i < 4 ==> frame[..4][i] == frame[i];
      if parse(frame[4..]).Some? {
        LimitsMeaning(parse(frame[4..]).value);
        LimitErrors(parse(frame[4..]).value);
      }
    }
  }

  // ---- Frames in a stream --------------------------------------------------------------------------------------------

  /** A stream adapter: read a prefix, then as many bytes as it says, again and again. */
  function ReadStream(bytes: seq<byte>, maximum: nat): Option<seq<seq<byte>>>
    decreases |bytes|
  {
    if bytes == [] then Some([])
    else if |bytes| < 4 then None
    else
      match ParseFrameLength(bytes[..4], maximum)
      case Err(_) => None
      case Ok(n) =>
        if |bytes| < 4 + n then None
        else
          match ReadStream(bytes[4 + n..], maximum)
          case None => None
          case Some(rest) => Some([bytes[..4 + n]] + rest)
  }

  ghost predicate IsFrame(frame: seq<byte>, maximum: nat) {
    |frame| >= 4 && ParseFrameLength(frame[..4], maximum) == Ok(|frame| - 4)
  }

  /** Frames written one after the other are told apart by their prefixes alone. */
  lemma {:induction false} StreamReadsBack(frames: seq<seq<byte>>, maximum: nat)
    requires forall i :: 0 <= i < |frames| ==> IsFrame(frames[i], maximum)
    ensures ReadStream(Concat(frames), maximum) == Some(frames)
  {
    hide ParseFrameLength;
    if frames != [] {
      var f, rest := frames[0], Concat(frames[1..]);
      StreamReadsBack(frames[1..], maximum);
      var bytes := Concat(frames);
      assert bytes == f + rest;
      assert bytes[..4] == f[..4] && bytes[..|f|] == f && bytes[|f|..] == rest;
      assert [f] + frames[1..] == frames;
    }
  }
}

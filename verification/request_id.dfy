/** Request identifiers of the Binance websocket control frames
    (lib/ctl-websocket/src/requests/id.rs): an `i64` or a string of at most
    36 bytes, held in a fixed-capacity `ArrayString<U36>`. */
module RequestId {
  import opened Wrappers
  import opened Ints
  import opened Utf8

  /** Capacity, in UTF-8 bytes, of a string request id. */
  const MAX_ID_BYTES: nat := 36

  /** `RequestIdString`: text whose UTF-8 encoding fits in 36 bytes. */
  type IdString = s: string | ByteLength(s) <= 36 witness ""

  datatype WSRequestId = Int(n: i64) | Str(text: IdString)

  /** `WSRequestError::RequestIdTooLong { id, len, max }`. */
  datatype WSRequestError = RequestIdTooLong(id: IdString, len: nat, max: nat)

  /** `RequestIdString::try_from_str`: succeeds exactly when the text fits. */
  function IdStringFromStr(v: string): (r: Option<IdString>)
    ensures r.Some? <==> ByteLength(v) <= MAX_ID_BYTES
    ensures r.Some? ==> r.value == v
  {
    if ByteLength(v) <= MAX_ID_BYTES then Some(v) else None
  }

  /** `RequestIdString::from_str_truncate`, what the `arraystring` crate's
      `Deserialize` applies to a string: the longest prefix of the text that
      fits in 36 bytes, cut on a character boundary. */
  function TruncateId(v: string): (p: IdString)
    ensures |p| <= |v| && p == v[..|p|]
    ensures ByteLength(v) <= MAX_ID_BYTES ==> p == v
    ensures |p| < |v| ==> ByteLength(v[..|p| + 1]) > MAX_ID_BYTES
  {
    FitPrefix(v, MAX_ID_BYTES)
  }

  /** `unwrap_or_default` on an optional id string. */
  function IdStringOrDefault(o: Option<IdString>): IdString
  {
    match o
    case Some(s) => s
    case None => ""
  }

  /** `TryFrom<&str> for WSRequestId`. The error's `id` field repeats the
      failed conversion and falls back to the empty default. */
  function TryFromStr(v: string): (r: Result<WSRequestId, WSRequestError>)
    ensures r.Ok? <==> ByteLength(v) <= MAX_ID_BYTES
    ensures r.Ok? ==> r.value.Str? && r.value.text == v
    ensures r.Err? ==> r.error == RequestIdTooLong("", ByteLength(v), 36)
  {
    match IdStringFromStr(v)
    case Some(s) => Ok(Str(s))
    case None => Err(RequestIdTooLong(IdStringOrDefault(IdStringFromStr(v)), ByteLength(v), MAX_ID_BYTES))
  }

  /** `TryFrom<String> for WSRequestId`, written separately in the source. */
  function TryFromString(v: string): (r: Result<WSRequestId, WSRequestError>)
    ensures r.Ok? <==> ByteLength(v) <= MAX_ID_BYTES
    ensures r.Ok? ==> r.value.Str? && r.value.text == v
    ensures r.Err? ==> r.error == RequestIdTooLong("", ByteLength(v), 36)
  {
    var converted := IdStringFromStr(v);
    if converted.Some? then Ok(Str(converted.value))
    else Err(RequestIdTooLong(IdStringOrDefault(IdStringFromStr(v)), ByteLength(v), MAX_ID_BYTES))
  }

  /** The owned and the borrowed conversions agree on every input. */
  lemma TryFromStringAgrees(v: string)
    ensures TryFromString(v) == TryFromStr(v)
  {
  }

  /** `From<i64>`: the value is kept. */
  function FromI64(v: i64): (r: WSRequestId)
    ensures r.Int? && r.n == v
  {
    Int(v)
  }

  /** `From<u64>`: the value goes through `v as i64`, so values above
      `i64::MAX` wrap to negative ids, and no two values collide. */
  function FromU64(v: u64): (r: WSRequestId)
    ensures r.Int?
    ensures v <= I64_MAX ==> r.n == v
    ensures v > I64_MAX ==> r.n == v - U64_LIMIT
  {
    Int(U64AsI64(v))
  }

  /** No two `u64` values give the same id. */
  lemma FromU64Injective(v: u64, w: u64)
    requires FromU64(v) == FromU64(w)
    ensures v == w
  {
    U64AsI64Injective(v, w);
  }

  /** The boundary of the bound: 36 ASCII bytes are accepted, 37 are
      rejected with `len` 37 and `max` 36. */
  lemma LengthBoundary()
    ensures TryFromStr(seq(36, i => 'a')).Ok?
    ensures TryFromStr(seq(37, i => 'a')) == Err(RequestIdTooLong("", 37, 36))
  {
    assert IsAscii(seq(36, i => 'a'));
    assert IsAscii(seq(37, i => 'a'));
    AsciiByteLength(seq(36, i => 'a'));
    AsciiByteLength(seq(37, i => 'a'));
  }

  /** When the first 36 characters are ASCII and the first 37 take more
      than 36 bytes, the truncated id is exactly those 36 characters. */
  lemma TruncateAfterAsciiPrefix(v: string)
    requires |v| > 36 && IsAscii(v[..36]) && ByteLength(v[..37]) > MAX_ID_BYTES
    ensures TruncateId(v) == v[..36]
  {
    var q := TruncateId(v);
    if |q| > 36 {
      assert q == v[..37] + v[37..|q|];
      ByteLengthAppend(v[..37], v[37..|q|]);
      assert false;
    }
    if |q| < 36 {
      assert v[..|q| + 1] == v[..36][..|q| + 1];
      assert IsAscii(v[..|q| + 1]);
      AsciiByteLength(v[..|q| + 1]);
      assert false;
    }
  }

  /** A 37-byte id loses its last character; thirty-six `a` and one `é`
      (38 bytes) lose the `é` whole rather than half of it. */
  lemma TruncateExamples()
    ensures TruncateId(seq(37, i => 'a')) == seq(36, i => 'a')
    ensures TruncateId(seq(36, i => 'a') + ['\U{00E9}']) == seq(36, i => 'a')
  {
    var a37 := seq(37, i => 'a');
    assert a37[..37] == a37 && IsAscii(a37) && IsAscii(a37[..36]);
    AsciiByteLength(a37);
    TruncateAfterAsciiPrefix(a37);
    assert a37[..36] == seq(36, i => 'a');
    var a36 := seq(36, i => 'a');
    var v := a36 + ['\U{00E9}'];
    assert v[..37] == v && v[..36] == a36 && IsAscii(a36);
    AsciiByteLength(a36);
    ByteLengthAppend(a36, ['\U{00E9}']);
    TruncateAfterAsciiPrefix(v);
  }

  /** The bound counts bytes, not characters: nineteen two-byte characters
      are rejected although they are fewer than 36 characters. */
  lemma BoundCountsBytes()
    ensures TryFromStr(seq(19, i => '\U{00E9}')) == Err(RequestIdTooLong("", 38, 36))
    ensures TryFromStr(seq(18, i => '\U{00E9}')).Ok?
  {
    TwoByteCharsLength(19);
    TwoByteCharsLength(18);
  }
}

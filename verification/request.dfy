/** Control frames sent to the Binance websocket endpoint
    (lib/ctl-websocket/src/requests/request.rs), encoded to and decoded from
    JSON values the way serde lays them out: the variant name under
    `"method"`, its payload under `"params"`, and the id under `"id"`. */
module Request {
  import opened Wrappers
  import opened Ints
  import opened Utf8
  import opened RequestId

  /** A JSON value (RFC 8259 section 3). An object (section 4) is a map from
      member name to value, as `serde_json::Value` holds it; numbers are
      integers only. */
  datatype Json =
    | JNull
    | JBool(b: bool)
    | JNum(n: int)
    | JStr(s: string)
    | JArr(items: seq<Json>)
    | JObj(fields: map<string, Json>)

  /** `WSRequestKind`: the method together with its parameters. */
  datatype WSRequestKind =
    | Subscribe(streams: seq<string>)
    | Unsubscribe(streams: seq<string>)
    | ListSubscriptions
    | SetProperty(values: seq<Json>)
    | GetProperty(names: seq<string>)

  /** `WSRequest`: a kind and an optional id. */
  datatype WSRequest = WSRequest(kind: WSRequestKind, id: Option<WSRequestId>)

  /** Why a JSON value is not a request. */
  datatype DecodeError =
    | NotAnObject
    | InvalidId
    | MissingMethod
    | UnknownMethod
    | MissingParams
    | InvalidParams

  /** The serde variant names. */
  function MethodName(k: WSRequestKind): string
  {
    match k
    case Subscribe(_) => "SUBSCRIBE"
    case Unsubscribe(_) => "UNSUBSCRIBE"
    case ListSubscriptions => "LIST_SUBSCRIPTIONS"
    case SetProperty(_) => "SET_PROPERTY"
    case GetProperty(_) => "GET_PROPERTY"
  }

  /** `From<(WSRequestKind, Option<WSRequestId>)> for WSRequest`. */
  function FromTuple(kind: WSRequestKind, id: Option<WSRequestId>): (r: WSRequest)
    ensures r.kind == kind && r.id == id
  {
    WSRequest(kind, id)
  }

  /** A list of strings as a JSON array, in order. */
  function EncodeStrings(xs: seq<string>): (j: Json)
    ensures j.JArr? && |j.items| == |xs|
    ensures forall i :: 0 <= i < |xs| ==> j.items[i] == JStr(xs[i])
  {
    JArr(seq(|xs|, i requires 0 <= i < |xs| => JStr(xs[i])))
  }

  /** The `"params"` member of a kind; `None` for the unit variant, which has none. */
  function EncodeParams(k: WSRequestKind): Option<Json>
  {
    match k
    case Subscribe(xs) => Some(EncodeStrings(xs))
    case Unsubscribe(xs) => Some(EncodeStrings(xs))
    case ListSubscriptions => None
    case SetProperty(vs) => Some(JArr(vs))
    case GetProperty(xs) => Some(EncodeStrings(xs))
  }

  /** An absent id is `null`, an integer id a number, a string id a string. */
  function EncodeId(id: Option<WSRequestId>): Json
  {
    match id
    case None => JNull
    case Some(Int(n)) => JNum(n)
    case Some(Str(s)) => JStr(s)
  }

  /** `serde_json::to_value(&request)`. */
  function Encode(r: WSRequest): (j: Json)
    ensures j.JObj?
    ensures "method" in j.fields && j.fields["method"] == JStr(MethodName(r.kind))
    ensures "id" in j.fields && j.fields["id"] == EncodeId(r.id)
    ensures "params" in j.fields <==> !r.kind.ListSubscriptions?
    ensures forall k :: k in j.fields ==> k == "method" || k == "params" || k == "id"
  {
    var base := map["method" := JStr(MethodName(r.kind)), "id" := EncodeId(r.id)];
    match EncodeParams(r.kind)
    case None => JObj(base)
    case Some(p) => JObj(base["params" := p])
  }

  /** A JSON array of strings as a `Vec<String>`. */
  function DecodeStrings(j: Json): (r: Option<seq<string>>)
    ensures r.Some? ==> j.JArr? && |r.value| == |j.items|
    ensures r.Some? ==> forall i :: 0 <= i < |j.items| ==> j.items[i] == JStr(r.value[i])
    ensures r.Some? ==> EncodeStrings(r.value) == j
  {
    if j.JArr? && forall i :: 0 <= i < |j.items| ==> j.items[i].JStr? then
      var xs := seq(|j.items|, i requires 0 <= i < |j.items| => j.items[i].s);
      assert EncodeStrings(xs).items == j.items;
      Some(xs)
    else None
  }

  /** An encoded list of strings decodes to the same list. */
  lemma StringsRoundTrip(xs: seq<string>)
    ensures DecodeStrings(EncodeStrings(xs)) == Some(xs)
  {
    var j := EncodeStrings(xs);
    assert forall i :: 0 <= i < |j.items| ==> j.items[i].JStr?;
    var ys := seq(|j.items|, i requires 0 <= i < |j.items| => j.items[i].s);
    assert ys == xs;
  }

  /** The `id` member as `Option<WSRequestId>`: absent or `null` is `None`; the
      untagged id tries an `i64` first and then a string, which the
      `ArrayString` deserializer cuts to its first 36 bytes. */
  function DecodeId(fields: map<string, Json>): (r: Result<Option<WSRequestId>, DecodeError>)
    ensures r.Err? <==> "id" in fields && !fields["id"].JNull? && !fields["id"].JStr?
                        && !(fields["id"].JNum? && I64_MIN <= fields["id"].n <= I64_MAX)
    ensures r.Err? ==> r.error == InvalidId
    ensures r.Ok? && r.value.None? <==> "id" !in fields || fields["id"].JNull?
    ensures "id" in fields && fields["id"].JStr? ==> r == Ok(Some(Str(TruncateId(fields["id"].s))))
  {
    if "id" !in fields then Ok(None)
    else
      match fields["id"]
      case JNull => Ok(None)
      case JNum(n) => if I64_MIN <= n <= I64_MAX then Ok(Some(Int(n))) else Err(InvalidId)
      case JStr(s) => Ok(Some(Str(TruncateId(s))))
      case _ => Err(InvalidId)
  }

  /** A `"params"` member that must be an array of strings. */
  function DecodeStringParams(fields: map<string, Json>): Result<seq<string>, DecodeError>
  {
    if "params" !in fields then Err(MissingParams)
    else
      match DecodeStrings(fields["params"])
      case None => Err(InvalidParams)
      case Some(xs) => Ok(xs)
  }

  /** The adjacently tagged `WSRequestKind`: `"method"` selects the variant,
      `"params"` carries its content. The unit variant accepts a missing or
      `null` content. Other members are ignored. */
  function DecodeKind(fields: map<string, Json>): Result<WSRequestKind, DecodeError>
  {
    if "method" !in fields then Err(MissingMethod)
    else
      var m := fields["method"];
      if m == JStr("LIST_SUBSCRIPTIONS") then
        if "params" !in fields || fields["params"] == JNull then Ok(ListSubscriptions) else Err(InvalidParams)
      else if m == JStr("SET_PROPERTY") then
        if "params" !in fields then Err(MissingParams)
        else if fields["params"].JArr? then Ok(SetProperty(fields["params"].items))
        else Err(InvalidParams)
      else if m == JStr("SUBSCRIBE") then
        match DecodeStringParams(fields)
        case Ok(xs) => Ok(Subscribe(xs))
        case Err(e) => Err(e)
      else if m == JStr("UNSUBSCRIBE") then
        match DecodeStringParams(fields)
        case Ok(xs) => Ok(Unsubscribe(xs))
        case Err(e) => Err(e)
      else if m == JStr("GET_PROPERTY") then
        match DecodeStringParams(fields)
        case Ok(xs) => Ok(GetProperty(xs))
        case Err(e) => Err(e)
      else Err(UnknownMethod)
  }

  /** `serde_json::from_value::<WSRequest>`: the id is read while the object's
      members are visited, the flattened kind afterwards, so an id error is
      reported before any method or params error. */
  function Decode(j: Json): (r: Result<WSRequest, DecodeError>)
    ensures !j.JObj? ==> r == Err(NotAnObject)
    ensures j.JObj? && DecodeId(j.fields).Err? ==> r == Err(InvalidId)
    ensures r.Ok? ==> j.JObj? && "method" in j.fields && j.fields["method"] == JStr(MethodName(r.value.kind))
    ensures r.Ok? && "id" in j.fields ==>
      EncodeId(r.value.id) == (if j.fields["id"].JStr? then JStr(TruncateId(j.fields["id"].s)) else j.fields["id"])
    ensures r.Ok? && "id" !in j.fields ==> r.value.id.None?
    ensures r.Ok? && !r.value.kind.ListSubscriptions? ==> "params" in j.fields && EncodeParams(r.value.kind) == Some(j.fields["params"])
  {
    if !j.JObj? then Err(NotAnObject)
    else
      match DecodeId(j.fields)
      case Err(e) => Err(e)
      case Ok(id) =>
        match DecodeKind(j.fields)
        case Err(e) => Err(e)
        case Ok(kind) => Ok(WSRequest(kind, id))
  }

  /** Decoding what was encoded gives back the request. */
  lemma RoundTrip(r: WSRequest)
    ensures Decode(Encode(r)) == Ok(r)
  {
    var j := Encode(r);
    match r.kind
    case Subscribe(xs) =>
      StringsRoundTrip(xs);
    case Unsubscribe(xs) =>
      StringsRoundTrip(xs);
    case GetProperty(xs) =>
      StringsRoundTrip(xs);
    case ListSubscriptions =>
    case SetProperty(vs) =>
  }

  /** Encoding what was decoded gives back the object, when the object holds
      exactly the members an encoding has: an `"id"`, a `"method"`, and
      `"params"` unless the method is `LIST_SUBSCRIPTIONS`; it fails exactly
      when a string id was cut to 36 bytes. */
  lemma EncodeDecoded(j: Json)
    requires Decode(j).Ok?
    requires forall k :: k in j.fields ==> k == "method" || k == "params" || k == "id"
    requires "id" in j.fields
    requires Decode(j).value.kind.ListSubscriptions? ==> "params" !in j.fields
    ensures Encode(Decode(j).value) == j <==>
      (j.fields["id"].JStr? ==> ByteLength(j.fields["id"].s) <= MAX_ID_BYTES)
  {
    var e := Encode(Decode(j).value);
    var id := j.fields["id"];
    if id.JStr? && ByteLength(id.s) > MAX_ID_BYTES {
      assert e.fields["id"] == JStr(TruncateId(id.s));
      assert e.fields["id"] != id;
    } else {
      assert e.fields.Keys == j.fields.Keys;
    }
  }

  /** Two requests that encode alike are the same request. */
  lemma EncodeInjective(a: WSRequest, b: WSRequest)
    requires Encode(a) == Encode(b)
    ensures a == b
  {
    RoundTrip(a);
    RoundTrip(b);
  }

  /** `"id": null` decodes as no id (test_deserialize_subscribe_with_null_id). */
  lemma DecodeNullId(streams: seq<string>)
    ensures Decode(JObj(map["method" := JStr("SUBSCRIBE"), "params" := EncodeStrings(streams), "id" := JNull]))
         == Ok(WSRequest(Subscribe(streams), None))
  {
    StringsRoundTrip(streams);
  }

  /** `LIST_SUBSCRIPTIONS` decodes without a `"params"` member
      (test_deserialize_list_subscriptions). */
  lemma DecodeListWithoutParams(id: i64)
    ensures Decode(JObj(map["method" := JStr("LIST_SUBSCRIPTIONS"), "id" := JNum(id)]))
         == Ok(WSRequest(ListSubscriptions, Some(Int(id))))
  {
  }

  /** A string id of 37 bytes is not rejected: it is cut to its first 36. */
  lemma DecodeLongIdTruncated()
    ensures var r := Decode(JObj(map["method" := JStr("LIST_SUBSCRIPTIONS"), "id" := JStr(seq(37, i => 'a'))]));
      r.Ok? && r.value.kind.ListSubscriptions? && r.value.id.Some? && r.value.id.value.Str?
      && r.value.id.value.text == seq(36, i => 'a')
  {
    TruncateExamples();
  }

  /** The serialised form of test_serialize_subscribe_with_int_id. */
  lemma EncodeSubscribeExample()
    ensures Encode(WSRequest(Subscribe(["btcusdt@aggTrade", "btcusdt@depth"]), Some(Int(1))))
         == JObj(map["method" := JStr("SUBSCRIBE"),
                     "params" := JArr([JStr("btcusdt@aggTrade"), JStr("btcusdt@depth")]),
                     "id" := JNum(1)])
  {
    assert EncodeStrings(["btcusdt@aggTrade", "btcusdt@depth"]).items
        == [JStr("btcusdt@aggTrade"), JStr("btcusdt@depth")];
  }
}

/** The fixed-size record published on the shared rings
    (lib/ctl-feed/src/messages.rs), the `DummyParser` that fills it from a
    websocket payload (lib/ctl-feed/src/parser/parser.rs), and the
    subscriber's reading of it back (bins/ctl-md-subscriber/src/main.rs). */
module RawMessage {
  import opened Wrappers
  import opened Ints
  import opened Utf8

  /** `RAW_MESSAGE_SIZE`. */
  const RAW_MESSAGE_SIZE: nat := 512

  /** `RawMessage`: exactly 512 bytes. */
  type Record = s: seq<byte> | |s| == 512 witness seq(512, i => 0)

  /** `RawMessage::default()`: all bytes zero. */
  function DefaultRecord(): (r: Record)
    ensures forall i :: 0 <= i < RAW_MESSAGE_SIZE ==> r[i] == 0
  {
    seq(512, i => 0)
  }

  /** `DummyParserError`. */
  datatype DummyParserError = General

  /** What a parse leaves behind: the record buffer and whether the parse
      succeeded, or a panic that ends the handler. */
  datatype ParseStep =
    | Parsed(record: Record, result: Outcome<DummyParserError>)
    | Panicked

  /** `DummyParser::parse`, identical for the Top, Trade and AggTrade kinds:
      a well-formed UTF-8 payload is copied to the front of the record and the
      rest is zeroed; any other payload is rejected and the record is left as
      it was. A well-formed payload longer than the record makes the slice
      `buf[..bytes.len()]` panic; nothing before the parser bounds the
      payload's length. */
  function Parse(raw: seq<byte>, prior: Record): (p: ParseStep)
    ensures p.Panicked? <==> IsValid(raw) && |raw| > RAW_MESSAGE_SIZE
    ensures p.Parsed? ==> (p.result.Pass? <==> IsValid(raw))
    ensures !IsValid(raw) ==> p == Parsed(prior, Fail(General))
    ensures p.Parsed? && p.result.Pass? ==> p.record[..|raw|] == raw
    ensures p.Parsed? && p.result.Pass? ==> forall i :: |raw| <= i < RAW_MESSAGE_SIZE ==> p.record[i] == 0
  {
    if !IsValid(raw) then
      Parsed(prior, Fail(General))
    else if |raw| > RAW_MESSAGE_SIZE then
      Panicked
    else
      Parsed(raw + seq(RAW_MESSAGE_SIZE - |raw|, i => 0), Pass)
  }

  /** A well-formed payload of 513 bytes, one more than the record holds,
      panics the parser. */
  lemma OversizedPayloadPanics(prior: Record)
    ensures Parse(Encode(seq(513, i => 'a')), prior).Panicked?
  {
    var s := seq(513, i => 'a');
    EncodeIsValid(s);
    AsciiByteLength(s);
  }

  /** A successful parse does not depend on what the buffer held before. */
  lemma ParseForgetsPrior(raw: seq<byte>, a: Record, b: Record)
    requires IsValid(raw) && |raw| <= RAW_MESSAGE_SIZE
    ensures Parse(raw, a).record == Parse(raw, b).record
  {
    var ra := Parse(raw, a).record;
    var rb := Parse(raw, b).record;
    forall i | 0 <= i < RAW_MESSAGE_SIZE
      ensures ra[i] == rb[i]
    {
      if i < |raw| {
        assert ra[i] == ra[..|raw|][i];
        assert rb[i] == rb[..|raw|][i];
      }
    }
  }

  /** Scanning from position k, the position of the first zero byte, or the
      length when there is none. */
  function FirstZeroFrom(data: seq<byte>, k: nat): (n: nat)
    requires k <= |data|
    requires forall i :: 0 <= i < k ==> data[i] != 0
    ensures k <= n <= |data|
    ensures forall i :: 0 <= i < n ==> data[i] != 0
    ensures n < |data| ==> data[n] == 0
    decreases |data| - k
  {
    if k == |data| then k
    else if data[k] == 0 then k
    else FirstZeroFrom(data, k + 1)
  }

  /** `data.iter().position(|&b| b == 0).unwrap_or(data.len())`. */
  function MessageLength(data: seq<byte>): (n: nat)
    ensures n <= |data|
    ensures forall i :: 0 <= i < n ==> data[i] != 0
    ensures n < |data| ==> data[n] == 0
  {
    FirstZeroFrom(data, 0)
  }

  /** The bytes the subscriber reads out of a record: everything before the
      first zero byte. */
  function DecodeRecord(r: Record): (text: seq<byte>)
    ensures |text| <= RAW_MESSAGE_SIZE && text == r[..|text|]
    ensures 0 !in text
    ensures |text| < RAW_MESSAGE_SIZE ==> r[|text|] == 0
  {
    r[..MessageLength(r)]
  }

  /** A well-formed payload without zero bytes that fits the record is read
      back unchanged, whatever the buffer held before. */
  lemma RoundTrip(raw: seq<byte>, prior: Record)
    requires IsValid(raw) && |raw| <= RAW_MESSAGE_SIZE
    requires 0 !in raw
    ensures DecodeRecord(Parse(raw, prior).record) == raw
  {
    var r := Parse(raw, prior).record;
    assert forall i :: 0 <= i < |raw| ==> r[i] == raw[i] by {
      assert r[..|raw|] == raw;
    }
    assert forall i :: 0 <= i < |raw| ==> r[i] != 0 by {
      forall i | 0 <= i < |raw|
        ensures r[i] != 0
      {
        assert raw[i] in raw;
      }
    }
    assert |raw| < RAW_MESSAGE_SIZE ==> r[|raw|] == 0;
    assert MessageLength(r) == |raw|;
  }

  /** A payload with a zero byte is cut at its first zero byte. */
  lemma CutAtZero(raw: seq<byte>, prior: Record, k: nat)
    requires IsValid(raw) && |raw| <= RAW_MESSAGE_SIZE
    requires k < |raw| && raw[k] == 0 && 0 !in raw[..k]
    ensures DecodeRecord(Parse(raw, prior).record) == raw[..k]
  {
    var r := Parse(raw, prior).record;
    assert forall i :: 0 <= i < |raw| ==> r[i] == raw[i] by {
      assert r[..|raw|] == raw;
    }
    assert forall i :: 0 <= i < k ==> raw[i] == raw[..k][i];
    assert MessageLength(r) == k;
    assert r[..k] == raw[..k];
  }

  /** Text without U+0000 that fits the record survives handler and
      subscriber: its UTF-8 bytes are parsed and read back unchanged. */
  lemma TextRoundTrip(s: string, prior: Record)
    requires '\0' !in s && ByteLength(s) <= RAW_MESSAGE_SIZE
    ensures Parse(Encode(s), prior).result.Pass?
    ensures DecodeRecord(Parse(Encode(s), prior).record) == Encode(s)
  {
    EncodeIsValid(s);
    EncodeHasNoZero(s);
    RoundTrip(Encode(s), prior);
  }
}

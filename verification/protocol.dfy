/** Feed kinds and the stream-topic naming of lib/ctl-feed/src/protocol.rs:
    `FeedProtocol::update` turns a feed's stream set into one subscribe
    frame listing every stream's topic. */
module FeedProtocol {
  import opened Wrappers
  import opened Seqs
  import opened Request

  /** The Binance feed kinds: book top (`bookTicker`), trade, aggregated trade. */
  datatype FeedKind = Top | Trade | AggTrade

  /** The kinds that have a `FeedProtocol` implementation (Top and Trade). */
  type ProtocolKind = k: FeedKind | !k.AggTrade? witness Top

  /** `Streams<K>`: a set of stream names, held in its iteration order. */
  type Streams = s: seq<string> | Distinct(s) witness []

  function TopicSuffix(k: ProtocolKind): string
  {
    match k
    case Top => "@bookTicker"
    case Trade => "@trade"
  }

  /** `format!("{}@bookTicker", s.name)` or `format!("{}@trade", s.name)`. */
  function Topic(k: ProtocolKind, name: string): (t: string)
    ensures StreamOfTopic(k, t) == Some(name)
  {
    name + TopicSuffix(k)
  }

  /** The stream a topic names: the topic with the kind's suffix removed. */
  function StreamOfTopic(k: ProtocolKind, topic: string): Option<string>
  {
    var suffix := TopicSuffix(k);
    if |topic| >= |suffix| && topic[|topic| - |suffix|..] == suffix then Some(topic[..|topic| - |suffix|])
    else None
  }

  /** Removing the suffix undoes appending it. */
  lemma TopicRoundTrip(k: ProtocolKind, name: string)
    ensures StreamOfTopic(k, Topic(k, name)) == Some(name)
  {
    var t := Topic(k, name);
    assert t[..|name|] == name;
    assert t[|name|..] == TopicSuffix(k);
  }

  /** Distinct stream names give distinct topics. */
  lemma TopicInjective(k: ProtocolKind, a: string, b: string)
    requires Topic(k, a) == Topic(k, b)
    ensures a == b
  {
    TopicRoundTrip(k, a);
    TopicRoundTrip(k, b);
  }

  /** The topic of every stream, in the streams' iteration order. */
  function Topics(k: ProtocolKind, streams: seq<string>): (ts: seq<string>)
    ensures |ts| == |streams|
    ensures forall i :: 0 <= i < |streams| ==> ts[i] == Topic(k, streams[i])
  {
    seq(|streams|, i requires 0 <= i < |streams| => Topic(k, streams[i]))
  }

  /** `FeedProtocol::update`: the frames sent for a stream set. It is a single
      subscribe carrying the topic of every stream and nothing else, each
      once; no unsubscribe is ever sent and no difference is computed. */
  function Update(k: ProtocolKind, streams: Streams): (frames: seq<WSRequestKind>)
    ensures |frames| == 1 && frames[0].Subscribe?
    ensures |frames[0].streams| == |streams|
    ensures forall i :: 0 <= i < |streams| ==> frames[0].streams[i] == Topic(k, streams[i])
    ensures forall t :: t in frames[0].streams ==> StreamOfTopic(k, t).Some? && StreamOfTopic(k, t).value in streams
    ensures Distinct(frames[0].streams)
  {
    var ts := Topics(k, streams);
    assert forall t :: t in ts ==> StreamOfTopic(k, t).Some? && StreamOfTopic(k, t).value in streams by {
      forall t | t in ts
        ensures StreamOfTopic(k, t).Some? && StreamOfTopic(k, t).value in streams
      {
        var i :| 0 <= i < |ts| && ts[i] == t;
        TopicRoundTrip(k, streams[i]);
      }
    }
    assert Distinct(ts) by {
      forall i, j | 0 <= i < j < |ts|
        ensures ts[i] != ts[j]
      {
        if ts[i] == ts[j] {
          TopicInjective(k, streams[i], streams[j]);
        }
      }
    }
    [Subscribe(ts)]
  }
}

/** The pure parts of the market-data handler's start-up
    (bins/ctl-md-handler/src/main.rs): the lowercased stream names of a
    feed, the `{KIND}_{id}_PS` ring name, the lcore list, and the split of
    the worker CPUs between the Top and Trade feed groups. */
module MdHandler {
  import opened Wrappers
  import opened Ints
  import opened Seqs
  import opened Text
  import opened MdConfig
  import opened SymbolTable
  import opened FeedProtocol
  import Request

  /** Why a feed group cannot be planned. */
  datatype HandlerError =
    | FeedNotConfigured(kind: string)
    | NoSymbolsConfigured(kind: string)
    | SymbolNotInInfo(symbol: string)

  // ---------------------------------------------------------------------
  // Stream names
  // ---------------------------------------------------------------------

  predicate IsAsciiUpper(c: char)
  {
    'A' <= c <= 'Z'
  }

  /** ASCII lowercasing of one character. */
  function LowerChar(c: char): (d: char)
    ensures !IsAsciiUpper(d)
    ensures IsAsciiUpper(c) ==> d as int == c as int + 32
    ensures !IsAsciiUpper(c) ==> d == c
  {
    if IsAsciiUpper(c) then (c as int + 32) as char else c
  }

  /** `str::to_lowercase` on ASCII text. */
  function Lower(s: string): (t: string)
    ensures |t| == |s|
    ensures forall i :: 0 <= i < |s| ==> t[i] == LowerChar(s[i])
  {
    seq(|s|, i requires 0 <= i < |s| => LowerChar(s[i]))
  }

  /** Lowercasing twice is lowercasing once, and text with no capital
      letter is left alone. */
  lemma LowerIdempotent(s: string)
    ensures Lower(Lower(s)) == Lower(s)
    ensures (forall i :: 0 <= i < |s| ==> !IsAsciiUpper(s[i])) ==> Lower(s) == s
  {
  }

  /** `Streams::insert`: a name already present is not added again. */
  function InsertStream(streams: Streams, name: string): (r: Streams)
    ensures name in r && forall x :: x in streams ==> x in r
    ensures forall x :: x in r ==> x in streams || x == name
    ensures name in streams ==> r == streams
    ensures name !in streams ==> r == streams + [name]
  {
    if name in streams then streams
    else
      assert Distinct(streams + [name]) by {
        var s := streams + [name];
        forall i, j | 0 <= i < j < |s|
          ensures s[i] != s[j]
        {
          if j == |streams| {
            assert s[i] in streams;
          }
        }
      }
      streams + [name]
  }

  /** Every symbol lowercased, in order. */
  function LowerAll(symbols: seq<string>): (names: seq<string>)
    ensures |names| == |symbols|
    ensures forall i :: 0 <= i < |symbols| ==> names[i] == Lower(symbols[i])
  {
    seq(|symbols|, i requires 0 <= i < |symbols| => Lower(symbols[i]))
  }

  /** The stream set of a feed group: each configured symbol, lowercased and
      inserted in order, a repeat adding nothing. */
  function StreamNames(symbols: seq<string>): (r: Streams)
    ensures forall x :: x in r <==> exists i :: 0 <= i < |symbols| && x == Lower(symbols[i])
    ensures |r| <= |symbols|
  {
    if |symbols| == 0 then []
    else
      var init := symbols[..|symbols| - 1];
      var rest := StreamNames(init);
      var r := InsertStream(rest, Lower(symbols[|symbols| - 1]));
      assert forall x :: x in r <==> exists i :: 0 <= i < |symbols| && x == Lower(symbols[i]) by {
        forall x | x in r
          ensures exists i :: 0 <= i < |symbols| && x == Lower(symbols[i])
        {
          if x in rest {
            var i :| 0 <= i < |init| && x == Lower(init[i]);
            assert x == Lower(symbols[i]);
          } else {
            assert x == Lower(symbols[|symbols| - 1]);
          }
        }
        forall x | exists i :: 0 <= i < |symbols| && x == Lower(symbols[i])
          ensures x in r
        {
          var i :| 0 <= i < |symbols| && x == Lower(symbols[i]);
          if i < |init| {
            assert x == Lower(init[i]);
          }
        }
      }
      r
  }

  /** When no two symbols lowercase to the same name, there is one stream per
      symbol, in the symbols' order. */
  lemma {:induction false} StreamNamesOneEach(symbols: seq<string>)
    requires Distinct(LowerAll(symbols))
    ensures StreamNames(symbols) == LowerAll(symbols)
  {
    if |symbols| > 0 {
      var init := symbols[..|symbols| - 1];
      var last := Lower(symbols[|symbols| - 1]);
      assert Distinct(LowerAll(init)) by {
        forall i, j | 0 <= i < j < |init|
          ensures LowerAll(init)[i] != LowerAll(init)[j]
        {
          assert LowerAll(symbols)[i] != LowerAll(symbols)[j];
        }
      }
      StreamNamesOneEach(init);
      assert last !in StreamNames(init) by {
        forall i | 0 <= i < |init|
          ensures LowerAll(init)[i] != last
        {
          assert LowerAll(symbols)[i] != LowerAll(symbols)[|symbols| - 1];
        }
      }
      assert LowerAll(symbols) == LowerAll(init) + [last];
    }
  }

  /** Two configured symbols that differ only in case share one stream. */
  lemma CaseVariantsShareStream()
    ensures StreamNames(["BTCUSDT", "btcusdt"]) == ["btcusdt"]
  {
    assert ["BTCUSDT", "btcusdt"][..1] == ["BTCUSDT"];
    assert Lower("BTCUSDT") == "btcusdt";
    assert Lower("btcusdt") == "btcusdt";
  }

  // ---------------------------------------------------------------------
  // Ring names
  // ---------------------------------------------------------------------

  /** The kind's name in the configuration file. */
  function KindName(k: ProtocolKind): string
  {
    match k
    case Top => "top"
    case Trade => "trade"
  }

  /** The kind's prefix in a ring name. */
  function KindPrefix(k: ProtocolKind): string
  {
    match k
    case Top => "TOP"
    case Trade => "TRADE"
  }

  /** `format!("TOP_{}_PS", id)` / `format!("TRADE_{}_PS", id)`. */
  function RingName(k: ProtocolKind, id: u32): (name: string)
    ensures |name| > |KindPrefix(k)| + 4
    ensures name[..|KindPrefix(k)| + 1] == KindPrefix(k) + "_"
    ensures name[|name| - 3..] == "_PS"
  {
    KindPrefix(k) + "_" + Decimal(id) + "_PS"
  }

  /** A ring name determines its kind and its symbol id. */
  lemma RingNameInjective(k1: ProtocolKind, id1: u32, k2: ProtocolKind, id2: u32)
    requires RingName(k1, id1) == RingName(k2, id2)
    ensures k1 == k2 && id1 == id2
  {
    var n := RingName(k1, id1);
    assert n[1] == KindPrefix(k1)[1] && n[1] == KindPrefix(k2)[1];
    var p := |KindPrefix(k1)| + 1;
    assert n[p..|n| - 3] == Decimal(id1);
    assert n[p..|n| - 3] == Decimal(id2);
    DecimalInjective(id1, id2);
  }

  /** The ring of a feed kind: the feed must be configured and have a symbol,
      and its first symbol (in its configured case) must be in the symbol
      table; the ring is named after that symbol's id. */
  function FeedRing(c: HwResourcesConfig, table: SymbolInfoConfig, k: ProtocolKind): (r: Result<string, HandlerError>)
    ensures FindFeed(c, KindName(k)).None? ==> r == Err(FeedNotConfigured(KindName(k)))
    ensures FindFeed(c, KindName(k)).Some? && |AllSymbols(FindFeed(c, KindName(k)).value)| == 0
      ==> r == Err(NoSymbolsConfigured(KindName(k)))
    ensures r.Ok? <==> FindFeed(c, KindName(k)).Some?
                       && |AllSymbols(FindFeed(c, KindName(k)).value)| > 0
                       && SymbolId(table, AllSymbols(FindFeed(c, KindName(k)).value)[0]).Some?
    ensures r.Ok? ==> r.value == RingName(k, SymbolId(table, AllSymbols(FindFeed(c, KindName(k)).value)[0]).value)
    ensures r.Err? && r.error.SymbolNotInInfo? ==> r.error.symbol == AllSymbols(FindFeed(c, KindName(k)).value)[0]
  {
    match FindFeed(c, KindName(k))
    case None => Err(FeedNotConfigured(KindName(k)))
    case Some(feed) =>
      var symbols := AllSymbols(feed);
      if |symbols| == 0 then Err(NoSymbolsConfigured(KindName(k)))
      else
        match SymbolId(table, symbols[0])
        case None => Err(SymbolNotInInfo(symbols[0]))
        case Some(id) => Ok(RingName(k, id))
  }

  /** In a validated configuration a configured feed always has a symbol, so
      the ring lookup can fail only for a symbol missing from the table. */
  lemma ValidConfigHasSymbols(c: HwResourcesConfig, table: SymbolInfoConfig, k: ProtocolKind)
    requires HwValid(c) && FindFeed(c, KindName(k)).Some?
    ensures FeedRing(c, table, k).Err? ==> FeedRing(c, table, k).error.SymbolNotInInfo?
  {
    var f := FindFeed(c, KindName(k)).value;
    var i :| 0 <= i < |c.pubsubConfigs| && f in c.pubsubConfigs[i].pubsubs;
    assert PubSubValid(c.pubsubConfigs[i]);
    var j :| 0 <= j < |c.pubsubConfigs[i].pubsubs| && c.pubsubConfigs[i].pubsubs[j] == f;
    assert FeedValid(f);
    ValidFeedSymbols(f);
  }

  // ---------------------------------------------------------------------
  // Feed group plan
  // ---------------------------------------------------------------------

  /** What `create_top_feedgroup` / `create_trade_feedgroup` set up: the
      stream set, the frames sent on the connection, the ring and the
      workers. The connection, the ring lookup and the group itself are
      outside this model. */
  datatype FeedGroupPlan = FeedGroupPlan(
    kind: ProtocolKind,
    streams: Streams,
    frames: seq<Request.WSRequestKind>,
    ringName: string,
    workers: seq<u32>)

  /** One call of `create_*_feedgroup`: the frames it sent on the connection,
      whatever the outcome, and the plan or the error. */
  datatype FeedGroupAttempt = FeedGroupAttempt(sent: seq<Request.WSRequestKind>, result: Result<FeedGroupPlan, HandlerError>)

  /** The feed is looked up and its symbols checked first; the streams are
      then subscribed through `update`, and only after that is the first
      symbol looked up in the table to name the ring. A symbol missing from
      the table therefore fails the call after the subscription was sent. */
  function CreateFeedGroup(c: HwResourcesConfig, table: SymbolInfoConfig, k: ProtocolKind, workers: seq<u32>): (a: FeedGroupAttempt)
    ensures a.result.Ok? <==> FeedRing(c, table, k).Ok?
    ensures a.result.Err? ==> a.result.error == FeedRing(c, table, k).error
    ensures |a.sent| > 0 <==> FindFeed(c, KindName(k)).Some? && |AllSymbols(FindFeed(c, KindName(k)).value)| > 0
    ensures |a.sent| > 0 ==> a.sent == Update(k, StreamNames(AllSymbols(FindFeed(c, KindName(k)).value)))
    ensures a.result.Ok? ==> a.result.value.ringName == FeedRing(c, table, k).value
                             && a.result.value.workers == workers
                             && a.result.value.streams == StreamNames(AllSymbols(FindFeed(c, KindName(k)).value))
                             && a.result.value.frames == a.sent
  {
    match FindFeed(c, KindName(k))
    case None => FeedGroupAttempt([], Err(FeedNotConfigured(KindName(k))))
    case Some(feed) =>
      var symbols := AllSymbols(feed);
      if |symbols| == 0 then FeedGroupAttempt([], Err(NoSymbolsConfigured(KindName(k))))
      else
        var streams := StreamNames(symbols);
        var frames := Update(k, streams);
        match FeedRing(c, table, k)
        case Err(e) => FeedGroupAttempt(frames, Err(e))
        case Ok(ring) => FeedGroupAttempt(frames, Ok(FeedGroupPlan(k, streams, frames, ring, workers)))
  }

  /** A first symbol missing from the symbol table fails the call only after
      the subscription for all of the feed's streams has gone out. */
  lemma SubscribedBeforeRingLookup(c: HwResourcesConfig, table: SymbolInfoConfig, k: ProtocolKind, workers: seq<u32>)
    requires CreateFeedGroup(c, table, k, workers).result.Err?
    requires CreateFeedGroup(c, table, k, workers).result.error.SymbolNotInInfo?
    ensures FindFeed(c, KindName(k)).Some? && |AllSymbols(FindFeed(c, KindName(k)).value)| > 0
    ensures CreateFeedGroup(c, table, k, workers).result.error.symbol == AllSymbols(FindFeed(c, KindName(k)).value)[0]
    ensures CreateFeedGroup(c, table, k, workers).sent == Update(k, StreamNames(AllSymbols(FindFeed(c, KindName(k)).value)))
  {
  }

  // ---------------------------------------------------------------------
  // Lcores and the worker split
  // ---------------------------------------------------------------------

  /** The worker CPUs `start..=end`, in increasing order. */
  function WorkerLcores(r: CpuRange): (ws: seq<u32>)
    ensures r.start <= r.end ==> |ws| == r.end - r.start + 1
    ensures r.start > r.end ==> |ws| == 0
    ensures forall i, j :: 0 <= i < j < |ws| ==> ws[i] < ws[j]
    ensures forall x :: x in ws <==> r.start <= x <= r.end
  {
    if r.start > r.end then []
    else
      var ws := seq(r.end - r.start + 1, i requires 0 <= i < r.end - r.start + 1 => (r.start + i) as u32);
      assert forall x :: r.start <= x <= r.end ==> x in ws by {
        forall x | r.start <= x <= r.end
          ensures x in ws
        {
          assert ws[x - r.start] == x;
        }
      }
      ws
  }

  /** All lcores handed to the runtime: the main lcore, then the workers. */
  function AllLcores(mainCpu: u32, r: CpuRange): (ls: seq<u32>)
    ensures |ls| == 1 + |WorkerLcores(r)| && ls[0] == mainCpu && ls[1..] == WorkerLcores(r)
  {
    [mainCpu] + WorkerLcores(r)
  }

  /** `workers_per_kind`: the worker count divided by the number of feeds
      (rounded down), or 0 when there are no feeds. */
  function WorkersPerKind(workerCount: nat, feedCount: nat): (n: nat)
    ensures feedCount == 0 ==> n == 0
    ensures feedCount > 0 ==> n * feedCount <= workerCount < (n + 1) * feedCount
  {
    if feedCount > 0 then workerCount / feedCount else 0
  }

  function Min(a: nat, b: nat): nat
  {
    if a <= b then a else b
  }

  /** The workers each kind takes (nothing when the kind is not configured)
      and those left over. */
  datatype Allocation = Allocation(top: Option<seq<u32>>, trade: Option<seq<u32>>, leftover: seq<u32>)

  function Taken(slice: Option<seq<u32>>): seq<u32>
  {
    if slice.Some? then slice.value else []
  }

  /** One kind's turn: when configured, `drain(..min(share, remaining))`
      takes a prefix of the remaining workers; otherwise nothing is taken. */
  datatype Turn = Turn(slice: Option<seq<u32>>, rest: seq<u32>)

  function DrainTurn(configured: bool, available: seq<u32>, share: nat): (t: Turn)
    ensures Taken(t.slice) + t.rest == available
    ensures t.slice.Some? <==> configured
    ensures configured ==> |t.slice.value| == Min(share, |available|)
  {
    if configured then
      var k := Min(share, |available|);
      assert available[..k] + available[k..] == available;
      Turn(Some(available[..k]), available[k..])
    else Turn(None, available)
  }

  /** The worker split of `main`: Top drains the first `min(workers_per_kind, remaining)`
      workers when it is configured, then Trade drains the next ones the
      same way. */
  function AllocateWorkers(c: HwResourcesConfig): (a: Allocation)
    ensures Taken(a.top) + Taken(a.trade) + a.leftover == WorkerLcores(c.workerCpus)
    ensures a.top.Some? <==> FindFeed(c, "top").Some?
    ensures a.trade.Some? <==> FindFeed(c, "trade").Some?
    ensures a.top.Some? ==> |a.top.value| == Min(WorkersPerKind(|WorkerLcores(c.workerCpus)|, |AllFeeds(c)|), |WorkerLcores(c.workerCpus)|)
    ensures a.trade.Some? ==> |a.trade.value| == Min(WorkersPerKind(|WorkerLcores(c.workerCpus)|, |AllFeeds(c)|), |WorkerLcores(c.workerCpus)| - |Taken(a.top)|)
  {
    var workers := WorkerLcores(c.workerCpus);
    var share := WorkersPerKind(|workers|, |AllFeeds(c)|);
    var top := DrainTurn(FindFeed(c, "top").Some?, workers, share);
    var trade := DrainTurn(FindFeed(c, "trade").Some?, top.rest, share);
    assert Taken(top.slice) + Taken(trade.slice) + trade.rest == Taken(top.slice) + (Taken(trade.slice) + trade.rest);
    Allocation(top.slice, trade.slice, trade.rest)
  }

  /** The `!*_workers.is_empty()` gate in `main`: the kind is configured and
      its drain took at least one worker. Passing it leads to the kind's
      `create_*_feedgroup` call only if `main` is still running; see
      `StartFeedGroups`. */
  predicate GateOpen(slice: Option<seq<u32>>)
  {
    slice.Some? && |slice.value| > 0
  }

  /** A kind's gate is open exactly when it is configured and its drain takes
      at least one worker. */
  lemma GatesOpen(c: HwResourcesConfig)
    ensures GateOpen(AllocateWorkers(c).top) <==>
      FindFeed(c, "top").Some?
      && Min(WorkersPerKind(|WorkerLcores(c.workerCpus)|, |AllFeeds(c)|), |WorkerLcores(c.workerCpus)|) > 0
    ensures GateOpen(AllocateWorkers(c).trade) <==>
      FindFeed(c, "trade").Some?
      && Min(WorkersPerKind(|WorkerLcores(c.workerCpus)|, |AllFeeds(c)|),
             |WorkerLcores(c.workerCpus)| - |Taken(AllocateWorkers(c).top)|) > 0
  {
  }

  /** With fewer workers than feeds the share is zero and neither gate
      opens, so no `create_*_feedgroup` is called. */
  lemma FewWorkersGatesShut(c: HwResourcesConfig)
    requires |WorkerLcores(c.workerCpus)| < |AllFeeds(c)|
    ensures !GateOpen(AllocateWorkers(c).top) && !GateOpen(AllocateWorkers(c).trade)
  {
    var n, feeds := |WorkerLcores(c.workerCpus)|, |AllFeeds(c)|;
    ShareBelowOne(n, feeds);
    var a := AllocateWorkers(c);
    assert a.top.Some? ==> |a.top.value| == 0;
    assert a.trade.Some? ==> |a.trade.value| == 0;
  }

  /** The workers a kind's drain took. */
  function KindWorkers(c: HwResourcesConfig, k: ProtocolKind): seq<u32>
  {
    if k.Top? then Taken(AllocateWorkers(c).top) else Taken(AllocateWorkers(c).trade)
  }

  /** `main`'s feed-group stage: the kinds whose `create_*_feedgroup` was
      called, in call order, and either the plans built or the error that
      ended `main`. */
  datatype Startup = Startup(called: seq<ProtocolKind>, result: Result<seq<FeedGroupPlan>, HandlerError>)

  /** The outcome of a kind's `create_*_feedgroup` call with the workers its
      drain took. */
  function KindCall(c: HwResourcesConfig, table: SymbolInfoConfig, k: ProtocolKind): Result<FeedGroupPlan, HandlerError>
  {
    CreateFeedGroup(c, table, k, KindWorkers(c, k)).result
  }

  /** The two gated calls of `main`, given each gate and what each call
      would return: Top first, and a failing call returns from `main`
      through `?`, so Trade is called only when Top's call, if made,
      returned Ok. */
  function CallSequence(topGate: bool, top: Result<FeedGroupPlan, HandlerError>,
                        tradeGate: bool, trade: Result<FeedGroupPlan, HandlerError>): (s: Startup)
    ensures Top in s.called <==> topGate
    ensures Trade in s.called <==> tradeGate && (topGate ==> top.Ok?)
    ensures |s.called| <= 2 && (|s.called| == 2 ==> s.called == [Top, Trade])
    ensures s.result.Ok? ==> |s.result.value| == |s.called|
    ensures s.result.Ok? && Top in s.called ==> top == Ok(s.result.value[0])
    ensures s.result.Ok? && Trade in s.called ==> trade == Ok(s.result.value[|s.result.value| - 1])
    ensures s.result.Err? ==>
              |s.called| > 0
              && (if s.called[|s.called| - 1].Top? then top else trade) == Err(s.result.error)
  {
    if topGate && top.Err? then Startup([Top], Err(top.error))
    else
      var called: seq<ProtocolKind> := if topGate then [Top] else [];
      var plans := if topGate then [top.value] else [];
      if tradeGate then
        match trade
        case Err(e) => Startup(called + [Trade], Err(e))
        case Ok(p) => Startup(called + [Trade], Ok(plans + [p]))
      else Startup(called, Ok(plans))
  }

  /** `main`'s feed-group stage for a configuration and a symbol table:
      which kinds are called, and in what order. */
  function StartFeedGroups(c: HwResourcesConfig, table: SymbolInfoConfig): (s: Startup)
    ensures Top in s.called <==> GateOpen(AllocateWorkers(c).top)
    ensures Trade in s.called <==>
              GateOpen(AllocateWorkers(c).trade)
              && (GateOpen(AllocateWorkers(c).top) ==> KindCall(c, table, Top).Ok?)
    ensures |s.called| <= 2 && (|s.called| == 2 ==> s.called == [Top, Trade])
  {
    var a := AllocateWorkers(c);
    CallSequence(GateOpen(a.top), KindCall(c, table, Top), GateOpen(a.trade), KindCall(c, table, Trade))
  }

  /** A successful stage holds one plan per call: Top's first, Trade's
      last, each the plan its call built. */
  lemma StartupPlans(c: HwResourcesConfig, table: SymbolInfoConfig)
    ensures var s := StartFeedGroups(c, table);
      s.result.Ok? ==> |s.result.value| == |s.called|
    ensures var s := StartFeedGroups(c, table);
      s.result.Ok? && Top in s.called ==> KindCall(c, table, Top) == Ok(s.result.value[0])
    ensures var s := StartFeedGroups(c, table);
      s.result.Ok? && Trade in s.called ==> KindCall(c, table, Trade) == Ok(s.result.value[|s.result.value| - 1])
  {
    var s := StartFeedGroups(c, table);
    assert s == CallSequence(GateOpen(AllocateWorkers(c).top), KindCall(c, table, Top),
                             GateOpen(AllocateWorkers(c).trade), KindCall(c, table, Trade));
  }

  /** A failed stage carries the error of the last call made. */
  lemma StartupError(c: HwResourcesConfig, table: SymbolInfoConfig)
    ensures var s := StartFeedGroups(c, table);
      s.result.Err? ==> |s.called| > 0 && KindCall(c, table, s.called[|s.called| - 1]) == Err(s.result.error)
  {
    var s := StartFeedGroups(c, table);
    var top, trade := KindCall(c, table, Top), KindCall(c, table, Trade);
    assert s == CallSequence(GateOpen(AllocateWorkers(c).top), top, GateOpen(AllocateWorkers(c).trade), trade);
    if |s.called| > 0 {
      var k := s.called[|s.called| - 1];
      if k.Top? {
        assert k == Top;
      } else {
        assert k == Trade;
      }
    }
  }

  /** With the sample configuration and an empty symbol table, Top's gate and
      Trade's gate are both open, but Top's call fails and Trade is never
      called. */
  lemma TopFailureSkipsTrade()
    ensures GateOpen(AllocateWorkers(ExampleConfig).trade)
    ensures StartFeedGroups(ExampleConfig, SymbolInfoConfig(map[], map[])).called == [Top]
    ensures StartFeedGroups(ExampleConfig, SymbolInfoConfig(map[], map[])).result.Err?
  {
    ExampleLookups();
    ExampleViewsInOrder();
  }

  /** Fewer workers than feeds leave a share of zero. */
  lemma ShareBelowOne(workerCount: nat, feedCount: nat)
    requires workerCount < feedCount
    ensures WorkersPerKind(workerCount, feedCount) == 0
  {
    var share := WorkersPerKind(workerCount, feedCount);
    assert share * feedCount >= (if share > 0 then feedCount else 0);
  }

  /** The Top and Trade workers never overlap: they are disjoint slices of a
      list without repeats. */
  lemma AllocationDisjoint(c: HwResourcesConfig)
    ensures forall x :: x in Taken(AllocateWorkers(c).top) ==> x !in Taken(AllocateWorkers(c).trade)
  {
    var a := AllocateWorkers(c);
    var ws := WorkerLcores(c.workerCpus);
    var t, u := Taken(a.top), Taken(a.trade);
    assert t + u + a.leftover == ws;
    forall x | x in t
      ensures x !in u
    {
      var i :| 0 <= i < |t| && t[i] == x;
      assert ws[i] == x;
      forall j | 0 <= j < |u|
        ensures u[j] != x
      {
        assert ws[|t| + j] == u[j];
      }
    }
  }

  /** Two feeds of different kinds make at least two feeds. */
  lemma TwoKindsTwoFeeds(c: HwResourcesConfig)
    requires FindFeed(c, "top").Some? && FindFeed(c, "trade").Some?
    ensures |AllFeeds(c)| >= 2
  {
    var feeds := AllFeeds(c);
    var i :| 0 <= i < |feeds| && feeds[i] == FindFeed(c, "top").value;
    var j :| 0 <= j < |feeds| && feeds[j] == FindFeed(c, "trade").value;
    assert feeds[i].kind != feeds[j].kind;
  }

  lemma TwoSharesFit(n: nat, feeds: nat)
    requires feeds >= 2
    ensures 2 * WorkersPerKind(n, feeds) <= n
  {
    var share := WorkersPerKind(n, feeds);
    assert share * 2 <= share * feeds;
  }

  /** When both Top and Trade are configured, each receives exactly
      `workers_per_kind` workers: there are at least two feeds, so two
      shares fit in the worker list. */
  lemma BothKindsGetAShare(c: HwResourcesConfig)
    requires FindFeed(c, "top").Some? && FindFeed(c, "trade").Some?
    ensures |AllocateWorkers(c).top.value| == WorkersPerKind(|WorkerLcores(c.workerCpus)|, |AllFeeds(c)|)
    ensures |AllocateWorkers(c).trade.value| == WorkersPerKind(|WorkerLcores(c.workerCpus)|, |AllFeeds(c)|)
  {
    TwoKindsTwoFeeds(c);
    TwoSharesFit(|WorkerLcores(c.workerCpus)|, |AllFeeds(c)|);
  }

  /** A configuration without feeds gives every worker to nobody. */
  lemma NoFeedsNoWorkers(c: HwResourcesConfig)
    requires |AllFeeds(c)| == 0
    ensures AllocateWorkers(c).top.None? && AllocateWorkers(c).trade.None?
    ensures AllocateWorkers(c).leftover == WorkerLcores(c.workerCpus)
  {
  }
}

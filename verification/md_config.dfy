/** The market-data handler's configuration (bins/ctl-md-handler/src/config.rs):
    the records read from `hw-resources.yaml`, their layered validation
    (medium, symbol set, feed, pub/sub group, whole file), the `"start-end"`
    worker CPU range, the fold over the file's root items and `find_feed`.
    Each validator reports the error of the first rule that fails, in the
    order the source checks them. */
module MdConfig {
  import opened Wrappers
  import opened Ints
  import opened Seqs
  import opened Text

  /** A protocol/parser pair, such as websocket/json. */
  datatype Medium = Medium(protocol: string, parser: string)

  /** A named group of symbols with its own CPU count, ring size and mediums. */
  datatype SymbolSet = SymbolSet(name: string, numCpus: u32, ringSize: u32, symbols: seq<string>, medium: seq<Medium>)

  /** One feed: either direct fields or named `sets`, never both. The
      `FeedWrapper { feed }` layer of the file format is dropped. */
  datatype FeedConfig = FeedConfig(
    kind: string,
    numCpus: Option<u32>,
    ringSize: Option<u32>,
    symbols: seq<string>,
    medium: seq<Medium>,
    sets: seq<SymbolSet>)

  /** A pub/sub group of feeds. */
  datatype PubSubConfig = PubSubConfig(pubsubs: seq<FeedConfig>)

  /** `RangeInclusive<u32>`: the CPUs start..=end. */
  datatype CpuRange = CpuRange(start: u32, end: u32)

  /** The whole validated file. */
  datatype HwResourcesConfig = HwResourcesConfig(mainCpu: u32, workerCpus: CpuRange, pubsubConfigs: seq<PubSubConfig>)

  /** One item of the file's root list. */
  datatype ConfigItem = MainCpu(cpu: u32) | WorkerCpus(text: string) | PubSubs(feeds: seq<FeedConfig>)

  /** Whose symbols or mediums a message is about: a set (by name) or a
      direct-mode feed (by kind). The two have different messages. */
  datatype Owner = OfSet(setName: string) | OfFeed(feedKind: string)

  /** One constructor per validation message of the source. */
  datatype ConfigError =
    | MediumProtocolEmpty
    | MediumParserEmpty
    | SetNameEmpty
    | RingSizeNotPowerOfTwo(ringSize: u32, owner: Owner)
    | NoSymbols(owner: Owner)
    | EmptySymbol(owner: Owner)
    | DuplicateSymbol(symbol: string, owner: Owner)
    | NoMedium(owner: Owner)
    | DuplicateMedium(mediumName: string, owner: Owner)
    | FeedKindEmpty
    | SetsWithDirectFields(kind: string)
    | DuplicateSetName(setName: string, kind: string)
    | DuplicateSymbolAcrossSets(symbol: string, kind: string)
    | MissingNumCpus(kind: string)
    | MissingRingSize(kind: string)
    | PubSubWithoutFeeds
    | DuplicateFeedKind(kind: string)
    | DuplicateMainCpu
    | DuplicateWorkerCpus
    | MissingMainCpu
    | MissingWorkerCpus
    | CpuRangeFormat(text: string)
    | CpuRangeStart(text: string)
    | CpuRangeEnd(text: string)
    | CpuRangeReversed(text: string, start: u32, end: u32)
    | NoPubSubConfigs

  // ---------------------------------------------------------------------
  // The rules, stated declaratively
  // ---------------------------------------------------------------------

  /** `Medium::name`: the rendered `"protocol/parser"` string. */
  function MediumName(m: Medium): string
  {
    m.protocol + "/" + m.parser
  }

  /** The rendered name determines the medium when the protocol holds no
      `/`: the first `/` of the name ends the protocol. */
  lemma MediumNameInjective(a: Medium, b: Medium)
    requires '/' !in a.protocol && '/' !in b.protocol
    requires MediumName(a) == MediumName(b)
    ensures a == b
  {
    var n := MediumName(a);
    var la, lb := |a.protocol|, |b.protocol|;
    assert forall i :: 0 <= i < la ==> n[i] == a.protocol[i];
    assert forall i :: 0 <= i < lb ==> n[i] == b.protocol[i];
    assert n[la] == '/' && n[lb] == '/';
    assert la == lb;
    assert a.protocol == n[..la] == b.protocol;
    assert a.parser == n[la + 1..] == b.parser;
  }

  /** Two different mediums can render alike when a protocol holds a `/`, so
      the duplicate check, which compares rendered names, treats them as one. */
  lemma RenderedNamesCanCollide()
    ensures Medium("a/b", "c") != Medium("a", "b/c")
    ensures MediumName(Medium("a/b", "c")) == MediumName(Medium("a", "b/c"))
  {
  }

  function MediumNames(ms: seq<Medium>): (names: seq<string>)
    ensures |names| == |ms|
    ensures forall i :: 0 <= i < |ms| ==> names[i] == MediumName(ms[i])
  {
    seq(|ms|, i requires 0 <= i < |ms| => MediumName(ms[i]))
  }

  predicate MediumValid(m: Medium)
  {
    m.protocol != "" && m.parser != ""
  }

  predicate NoEmptySymbol(symbols: seq<string>)
  {
    forall i :: 0 <= i < |symbols| ==> symbols[i] != ""
  }

  predicate AllMediumsValid(ms: seq<Medium>)
  {
    forall i :: 0 <= i < |ms| ==> MediumValid(ms[i])
  }

  /** The symbol rules shared by sets and direct-mode feeds. */
  predicate SymbolsValid(symbols: seq<string>)
  {
    |symbols| > 0 && NoEmptySymbol(symbols) && Distinct(symbols)
  }

  /** The medium rules shared by sets and direct-mode feeds; mediums are
      compared by their rendered names. */
  predicate MediumsValid(medium: seq<Medium>)
  {
    |medium| > 0 && AllMediumsValid(medium) && Distinct(MediumNames(medium))
  }

  predicate SymbolSetValid(s: SymbolSet)
  {
    s.name != "" && IsPowerOfTwo(s.ringSize) && SymbolsValid(s.symbols) && MediumsValid(s.medium)
  }

  /** `FeedConfig::uses_sets`. */
  predicate HasSets(f: FeedConfig)
  {
    |f.sets| > 0
  }

  predicate HasDirect(f: FeedConfig)
  {
    f.numCpus.Some? || f.ringSize.Some? || |f.symbols| > 0 || |f.medium| > 0
  }

  function SetNames(sets: seq<SymbolSet>): (names: seq<string>)
    ensures |names| == |sets|
    ensures forall i :: 0 <= i < |sets| ==> names[i] == sets[i].name
  {
    seq(|sets|, i requires 0 <= i < |sets| => sets[i].name)
  }

  function SetSymbols(sets: seq<SymbolSet>): (lists: seq<seq<string>>)
    ensures |lists| == |sets|
    ensures forall i :: 0 <= i < |sets| ==> lists[i] == sets[i].symbols
  {
    seq(|sets|, i requires 0 <= i < |sets| => sets[i].symbols)
  }

  function SetMediums(sets: seq<SymbolSet>): (lists: seq<seq<Medium>>)
    ensures |lists| == |sets|
    ensures forall i :: 0 <= i < |sets| ==> lists[i] == sets[i].medium
  {
    seq(|sets|, i requires 0 <= i < |sets| => sets[i].medium)
  }

  predicate AllSetsValid(sets: seq<SymbolSet>)
  {
    forall i :: 0 <= i < |sets| ==> SymbolSetValid(sets[i])
  }

  predicate SetsModeValid(f: FeedConfig)
  {
    AllSetsValid(f.sets) && Distinct(SetNames(f.sets)) && Distinct(Flatten(SetSymbols(f.sets)))
  }

  predicate DirectModeValid(f: FeedConfig)
  {
    f.numCpus.Some? && f.ringSize.Some? && IsPowerOfTwo(f.ringSize.value)
    && SymbolsValid(f.symbols) && MediumsValid(f.medium)
  }

  predicate FeedValid(f: FeedConfig)
  {
    f.kind != "" && !(HasSets(f) && HasDirect(f))
    && (if HasSets(f) then SetsModeValid(f) else DirectModeValid(f))
  }

  function FeedKinds(feeds: seq<FeedConfig>): (kinds: seq<string>)
    ensures |kinds| == |feeds|
    ensures forall i :: 0 <= i < |feeds| ==> kinds[i] == feeds[i].kind
  {
    seq(|feeds|, i requires 0 <= i < |feeds| => feeds[i].kind)
  }

  predicate AllFeedsValid(feeds: seq<FeedConfig>)
  {
    forall i :: 0 <= i < |feeds| ==> FeedValid(feeds[i])
  }

  predicate PubSubValid(p: PubSubConfig)
  {
    |p.pubsubs| > 0 && AllFeedsValid(p.pubsubs) && Distinct(FeedKinds(p.pubsubs))
  }

  predicate HwValid(c: HwResourcesConfig)
  {
    |c.pubsubConfigs| > 0 && forall i :: 0 <= i < |c.pubsubConfigs| ==> PubSubValid(c.pubsubConfigs[i])
  }

  // ---------------------------------------------------------------------
  // The validators
  // ---------------------------------------------------------------------

  /** `Medium::validate`: the protocol is checked before the parser. */
  function ValidateMedium(m: Medium): (r: Outcome<ConfigError>)
    ensures r.Pass? <==> MediumValid(m)
    ensures m.protocol == "" ==> r == Fail(MediumProtocolEmpty)
    ensures m.protocol != "" && m.parser == "" ==> r == Fail(MediumParserEmpty)
  {
    if m.protocol == "" then Fail(MediumProtocolEmpty)
    else if m.parser == "" then Fail(MediumParserEmpty)
    else Pass
  }

  /** The symbol and medium checks that `SymbolSet::validate` and the direct
      branch of `FeedConfig::validate` both run, in this order: at least one
      symbol, no empty symbol, no repeated symbol, at least one medium, every
      medium valid, no two mediums with the same rendered name. */
  function ValidateSymbolsAndMediums(owner: Owner, symbols: seq<string>, medium: seq<Medium>): (r: Outcome<ConfigError>)
    ensures r.Pass? <==> SymbolsValid(symbols) && MediumsValid(medium)
    ensures |symbols| == 0 ==> r == Fail(NoSymbols(owner))
    ensures |symbols| > 0 && !NoEmptySymbol(symbols) ==> r == Fail(EmptySymbol(owner))
    ensures |symbols| > 0 && NoEmptySymbol(symbols) && !Distinct(symbols)
      ==> r == Fail(DuplicateSymbol(FirstRepeat(symbols).value, owner))
    ensures SymbolsValid(symbols) && |medium| == 0 ==> r == Fail(NoMedium(owner))
    ensures SymbolsValid(symbols) && |medium| > 0 && !AllMediumsValid(medium)
      ==> exists i :: 0 <= i < |medium| && r == ValidateMedium(medium[i]) && r.Fail?
                      && forall j :: 0 <= j < i ==> MediumValid(medium[j])
    ensures SymbolsValid(symbols) && |medium| > 0 && AllMediumsValid(medium) && !Distinct(MediumNames(medium))
      ==> r == Fail(DuplicateMedium(FirstRepeat(MediumNames(medium)).value, owner))
  {
    if |symbols| == 0 then Fail(NoSymbols(owner))
    else if exists i :: 0 <= i < |symbols| && symbols[i] == "" then Fail(EmptySymbol(owner))
    else if FirstRepeat(symbols).Some? then Fail(DuplicateSymbol(FirstRepeat(symbols).value, owner))
    else if |medium| == 0 then Fail(NoMedium(owner))
    else if FirstFailure(medium, ValidateMedium).Fail? then FirstFailure(medium, ValidateMedium)
    else if FirstRepeat(MediumNames(medium)).Some? then
      Fail(DuplicateMedium(FirstRepeat(MediumNames(medium)).value, owner))
    else Pass
  }

  /** `SymbolSet::validate`: the name, then the ring size, then the symbol and
      medium checks. */
  function ValidateSymbolSet(s: SymbolSet): (r: Outcome<ConfigError>)
    ensures r.Pass? <==> SymbolSetValid(s)
    ensures s.name == "" ==> r == Fail(SetNameEmpty)
    ensures s.name != "" && !IsPowerOfTwo(s.ringSize) ==> r == Fail(RingSizeNotPowerOfTwo(s.ringSize, OfSet(s.name)))
    ensures s.name != "" && IsPowerOfTwo(s.ringSize) ==> r == ValidateSymbolsAndMediums(OfSet(s.name), s.symbols, s.medium)
  {
    if s.name == "" then Fail(SetNameEmpty)
    else if !IsPowerOfTwo(s.ringSize) then Fail(RingSizeNotPowerOfTwo(s.ringSize, OfSet(s.name)))
    else ValidateSymbolsAndMediums(OfSet(s.name), s.symbols, s.medium)
  }

  /** The `sets` branch of `FeedConfig::validate`: every set, then distinct set
      names, then no symbol in two sets of the feed. */
  function ValidateSetsMode(f: FeedConfig): (r: Outcome<ConfigError>)
    ensures r.Pass? <==> SetsModeValid(f)
    ensures !AllSetsValid(f.sets)
      ==> exists i :: 0 <= i < |f.sets| && r == ValidateSymbolSet(f.sets[i]) && r.Fail?
                      && forall j :: 0 <= j < i ==> SymbolSetValid(f.sets[j])
    ensures AllSetsValid(f.sets) && !Distinct(SetNames(f.sets))
      ==> r == Fail(DuplicateSetName(FirstRepeat(SetNames(f.sets)).value, f.kind))
    ensures AllSetsValid(f.sets) && Distinct(SetNames(f.sets)) && !Distinct(Flatten(SetSymbols(f.sets)))
      ==> r == Fail(DuplicateSymbolAcrossSets(FirstRepeat(Flatten(SetSymbols(f.sets))).value, f.kind))
  {
    var setsCheck := FirstFailure(f.sets, ValidateSymbolSet);
    if setsCheck.Fail? then setsCheck
    else if FirstRepeat(SetNames(f.sets)).Some? then
      Fail(DuplicateSetName(FirstRepeat(SetNames(f.sets)).value, f.kind))
    else if FirstRepeat(Flatten(SetSymbols(f.sets))).Some? then
      Fail(DuplicateSymbolAcrossSets(FirstRepeat(Flatten(SetSymbols(f.sets))).value, f.kind))
    else Pass
  }

  /** The direct branch of `FeedConfig::validate`: `num_cpus` is required
      before `ring_size`, which must then be a power of two, followed by the
      symbol and medium checks. */
  function ValidateDirectMode(f: FeedConfig): (r: Outcome<ConfigError>)
    ensures r.Pass? <==> DirectModeValid(f)
    ensures f.numCpus.None? ==> r == Fail(MissingNumCpus(f.kind))
    ensures f.numCpus.Some? && f.ringSize.None? ==> r == Fail(MissingRingSize(f.kind))
    ensures f.numCpus.Some? && f.ringSize.Some? && !IsPowerOfTwo(f.ringSize.value)
      ==> r == Fail(RingSizeNotPowerOfTwo(f.ringSize.value, OfFeed(f.kind)))
    ensures f.numCpus.Some? && f.ringSize.Some? && IsPowerOfTwo(f.ringSize.value)
      ==> r == ValidateSymbolsAndMediums(OfFeed(f.kind), f.symbols, f.medium)
  {
    if f.numCpus.None? then Fail(MissingNumCpus(f.kind))
    else if f.ringSize.None? then Fail(MissingRingSize(f.kind))
    else if !IsPowerOfTwo(f.ringSize.value) then Fail(RingSizeNotPowerOfTwo(f.ringSize.value, OfFeed(f.kind)))
    else ValidateSymbolsAndMediums(OfFeed(f.kind), f.symbols, f.medium)
  }

  /** `FeedConfig::validate`: the kind, then the exclusive-mode rule, then the
      rules of the mode in use (sets mode whenever `sets` is non-empty). */
  function ValidateFeed(f: FeedConfig): (r: Outcome<ConfigError>)
    ensures r.Pass? <==> FeedValid(f)
    ensures f.kind == "" ==> r == Fail(FeedKindEmpty)
    ensures f.kind != "" && HasSets(f) && HasDirect(f) ==> r == Fail(SetsWithDirectFields(f.kind))
    ensures f.kind != "" && HasSets(f) && !HasDirect(f) ==> r == ValidateSetsMode(f)
    ensures f.kind != "" && !HasSets(f) ==> r == ValidateDirectMode(f)
  {
    if f.kind == "" then Fail(FeedKindEmpty)
    else if HasSets(f) && HasDirect(f) then Fail(SetsWithDirectFields(f.kind))
    else if HasSets(f) then ValidateSetsMode(f)
    else ValidateDirectMode(f)
  }

  /** `PubSubConfig::validate`: at least one feed, every feed valid, then
      distinct feed kinds within the group. */
  function ValidatePubSub(p: PubSubConfig): (r: Outcome<ConfigError>)
    ensures r.Pass? <==> PubSubValid(p)
    ensures |p.pubsubs| == 0 ==> r == Fail(PubSubWithoutFeeds)
    ensures |p.pubsubs| > 0 && !AllFeedsValid(p.pubsubs)
      ==> exists i :: 0 <= i < |p.pubsubs| && r == ValidateFeed(p.pubsubs[i]) && r.Fail?
                      && forall j :: 0 <= j < i ==> FeedValid(p.pubsubs[j])
    ensures |p.pubsubs| > 0 && AllFeedsValid(p.pubsubs) && !Distinct(FeedKinds(p.pubsubs))
      ==> r == Fail(DuplicateFeedKind(FirstRepeat(FeedKinds(p.pubsubs)).value))
  {
    if |p.pubsubs| == 0 then Fail(PubSubWithoutFeeds)
    else
      var feedsCheck := FirstFailure(p.pubsubs, ValidateFeed);
      if feedsCheck.Fail? then feedsCheck
      else if FirstRepeat(FeedKinds(p.pubsubs)).Some? then
        Fail(DuplicateFeedKind(FirstRepeat(FeedKinds(p.pubsubs)).value))
      else Pass
  }

  /** `HwResourcesConfig::validate`: at least one pub/sub group, each valid. */
  function Validate(c: HwResourcesConfig): (r: Outcome<ConfigError>)
    ensures r.Pass? <==> HwValid(c)
    ensures |c.pubsubConfigs| == 0 ==> r == Fail(NoPubSubConfigs)
    ensures |c.pubsubConfigs| > 0 && !HwValid(c)
      ==> exists i :: 0 <= i < |c.pubsubConfigs| && r == ValidatePubSub(c.pubsubConfigs[i]) && r.Fail?
                      && forall j :: 0 <= j < i ==> PubSubValid(c.pubsubConfigs[j])
  {
    if |c.pubsubConfigs| == 0 then Fail(NoPubSubConfigs)
    else FirstFailure(c.pubsubConfigs, ValidatePubSub)
  }

  // ---------------------------------------------------------------------
  // Views over a feed and over the whole file
  // ---------------------------------------------------------------------

  /** `FeedConfig::all_symbols`: the symbols of every set in order, or the
      direct symbols when the feed has no sets. */
  function AllSymbols(f: FeedConfig): (r: seq<string>)
    ensures HasSets(f) ==> forall x :: x in r <==> exists i :: 0 <= i < |f.sets| && x in f.sets[i].symbols
    ensures !HasSets(f) ==> r == f.symbols
    ensures HasSets(f) ==> |r| == TotalLength(SetSymbols(f.sets))
  {
    if HasSets(f) then Flatten(SetSymbols(f.sets)) else f.symbols
  }

  /** `FeedConfig::all_mediums`: the mediums of every set in order, or the
      direct mediums. */
  function AllMediums(f: FeedConfig): (r: seq<Medium>)
    ensures HasSets(f) ==> forall m :: m in r <==> exists i :: 0 <= i < |f.sets| && m in f.sets[i].medium
    ensures !HasSets(f) ==> r == f.medium
    ensures HasSets(f) ==> |r| == TotalLength(SetMediums(f.sets))
  {
    if HasSets(f) then Flatten(SetMediums(f.sets)) else f.medium
  }

  /** In sets mode, symbol j of set i comes after every symbol of the earlier
      sets; in particular the first symbol is the first symbol of the first
      set. */
  lemma AllSymbolsPosition(f: FeedConfig, i: nat, j: nat)
    requires HasSets(f) && i < |f.sets| && j < |f.sets[i].symbols|
    ensures TotalLength(SetSymbols(f.sets)[..i]) + j < |AllSymbols(f)|
    ensures AllSymbols(f)[TotalLength(SetSymbols(f.sets)[..i]) + j] == f.sets[i].symbols[j]
    ensures i == 0 ==> AllSymbols(f)[j] == f.sets[0].symbols[j]
  {
    FlattenIndex(SetSymbols(f.sets), i, j);
    assert SetSymbols(f.sets)[..0] == [];
  }

  /** A set added at the end contributes its symbols, in order, after all
      earlier symbols; nothing is merged or dropped. */
  lemma AllSymbolsAppendSet(f: FeedConfig, s: SymbolSet)
    requires HasSets(f)
    ensures AllSymbols(f.(sets := f.sets + [s])) == AllSymbols(f) + s.symbols
  {
    assert SetSymbols(f.sets + [s]) == SetSymbols(f.sets) + [s.symbols];
    FlattenAppend(SetSymbols(f.sets), [s.symbols]);
    FlattenSingle(s.symbols);
  }

  /** In sets mode, medium j of set i comes after every medium of the
      earlier sets. */
  lemma AllMediumsPosition(f: FeedConfig, i: nat, j: nat)
    requires HasSets(f) && i < |f.sets| && j < |f.sets[i].medium|
    ensures TotalLength(SetMediums(f.sets)[..i]) + j < |AllMediums(f)|
    ensures AllMediums(f)[TotalLength(SetMediums(f.sets)[..i]) + j] == f.sets[i].medium[j]
  {
    FlattenIndex(SetMediums(f.sets), i, j);
  }

  /** A set added at the end contributes its mediums, in order and with
      repeats, after all earlier mediums. */
  lemma AllMediumsAppendSet(f: FeedConfig, s: SymbolSet)
    requires HasSets(f)
    ensures AllMediums(f.(sets := f.sets + [s])) == AllMediums(f) + s.medium
  {
    assert SetMediums(f.sets + [s]) == SetMediums(f.sets) + [s.medium];
    FlattenAppend(SetMediums(f.sets), [s.medium]);
    FlattenSingle(s.medium);
  }

  /** A valid feed, in either mode, yields a non-empty list of distinct,
      non-empty symbols. */
  lemma ValidFeedSymbols(f: FeedConfig)
    requires FeedValid(f)
    ensures SymbolsValid(AllSymbols(f))
  {
    if HasSets(f) {
      var all := AllSymbols(f);
      assert SymbolSetValid(f.sets[0]);
      assert f.sets[0].symbols[0] in f.sets[0].symbols;
      assert f.sets[0].symbols[0] in all;
      forall i | 0 <= i < |all|
        ensures all[i] != ""
      {
        assert all[i] in all;
        var k :| 0 <= k < |f.sets| && all[i] in f.sets[k].symbols;
        assert SymbolSetValid(f.sets[k]);
      }
    }
  }

  /** A valid feed, in either mode, yields a non-empty list of valid mediums. */
  lemma ValidFeedMediums(f: FeedConfig)
    requires FeedValid(f)
    ensures |AllMediums(f)| > 0 && AllMediumsValid(AllMediums(f))
  {
    if HasSets(f) {
      var all := AllMediums(f);
      assert SymbolSetValid(f.sets[0]);
      assert f.sets[0].medium[0] in f.sets[0].medium;
      assert f.sets[0].medium[0] in all;
      forall i | 0 <= i < |all|
        ensures MediumValid(all[i])
      {
        assert all[i] in all;
        var k :| 0 <= k < |f.sets| && all[i] in f.sets[k].medium;
        assert SymbolSetValid(f.sets[k]);
        var j :| 0 <= j < |f.sets[k].medium| && f.sets[k].medium[j] == all[i];
      }
    }
  }

  function FeedLists(c: HwResourcesConfig): (lists: seq<seq<FeedConfig>>)
    ensures |lists| == |c.pubsubConfigs|
    ensures forall i :: 0 <= i < |lists| ==> lists[i] == c.pubsubConfigs[i].pubsubs
  {
    seq(|c.pubsubConfigs|, i requires 0 <= i < |c.pubsubConfigs| => c.pubsubConfigs[i].pubsubs)
  }

  /** `HwResourcesConfig::all_feeds`: every feed of every group, groups in
      file order. */
  function AllFeeds(c: HwResourcesConfig): (r: seq<FeedConfig>)
    ensures forall f :: f in r <==> exists i :: 0 <= i < |c.pubsubConfigs| && f in c.pubsubConfigs[i].pubsubs
    ensures |r| == TotalLength(FeedLists(c))
  {
    Flatten(FeedLists(c))
  }

  /** Feed j of group i comes after every feed of the earlier groups. */
  lemma AllFeedsPosition(c: HwResourcesConfig, i: nat, j: nat)
    requires i < |c.pubsubConfigs| && j < |c.pubsubConfigs[i].pubsubs|
    ensures TotalLength(FeedLists(c)[..i]) + j < |AllFeeds(c)|
    ensures AllFeeds(c)[TotalLength(FeedLists(c)[..i]) + j] == c.pubsubConfigs[i].pubsubs[j]
  {
    FlattenIndex(FeedLists(c), i, j);
  }

  /** A group added at the end of the file contributes its feeds, in order,
      after all earlier feeds. */
  lemma AllFeedsAppendGroup(c: HwResourcesConfig, g: PubSubConfig)
    ensures AllFeeds(c.(pubsubConfigs := c.pubsubConfigs + [g])) == AllFeeds(c) + g.pubsubs
  {
    var d := c.(pubsubConfigs := c.pubsubConfigs + [g]);
    assert FeedLists(d) == FeedLists(c) + [g.pubsubs];
    FlattenAppend(FeedLists(c), [g.pubsubs]);
    FlattenSingle(g.pubsubs);
  }

  function FindFrom(feeds: seq<FeedConfig>, kind: string, k: nat): (r: Option<FeedConfig>)
    requires k <= |feeds|
    requires forall j :: 0 <= j < k ==> feeds[j].kind != kind
    ensures r.None? <==> forall j :: 0 <= j < |feeds| ==> feeds[j].kind != kind
    ensures r.Some? ==> exists i :: k <= i < |feeds| && feeds[i] == r.value && r.value.kind == kind
                                    && forall j :: 0 <= j < i ==> feeds[j].kind != kind
    decreases |feeds| - k
  {
    if k == |feeds| then None
    else if feeds[k].kind == kind then Some(feeds[k])
    else FindFrom(feeds, kind, k + 1)
  }

  /** `HwResourcesConfig::find_feed`: the first feed of the given kind across
      all groups, or nothing when no feed has that kind. */
  function FindFeed(c: HwResourcesConfig, kind: string): (r: Option<FeedConfig>)
    ensures r.None? <==> forall f :: f in AllFeeds(c) ==> f.kind != kind
    ensures r.Some? ==> r.value.kind == kind && r.value in AllFeeds(c)
    ensures r.Some? ==> exists i :: 0 <= i < |AllFeeds(c)| && AllFeeds(c)[i] == r.value
                                    && forall j :: 0 <= j < i ==> AllFeeds(c)[j].kind != kind
  {
    FindFrom(AllFeeds(c), kind, 0)
  }

  function FeedSymbolLists(feeds: seq<FeedConfig>): (lists: seq<seq<string>>)
    ensures |lists| == |feeds|
    ensures forall i :: 0 <= i < |lists| ==> lists[i] == AllSymbols(feeds[i])
  {
    seq(|feeds|, i requires 0 <= i < |feeds| => AllSymbols(feeds[i]))
  }

  /** `HwResourcesConfig::all_symbols`: the set of symbols named by any feed
      of any group. */
  function ConfigSymbols(c: HwResourcesConfig): (r: set<string>)
    ensures forall x :: x in r <==> exists f :: f in AllFeeds(c) && x in AllSymbols(f)
  {
    var all := Flatten(FeedSymbolLists(AllFeeds(c)));
    assert forall f, x :: f in AllFeeds(c) && x in AllSymbols(f) ==> x in all by {
      forall f, x | f in AllFeeds(c) && x in AllSymbols(f)
        ensures x in all
      {
        var i :| 0 <= i < |AllFeeds(c)| && AllFeeds(c)[i] == f;
        assert x in FeedSymbolLists(AllFeeds(c))[i];
      }
    }
    set x | x in all
  }

  // ---------------------------------------------------------------------
  // The worker CPU range
  // ---------------------------------------------------------------------

  /** `parse_cpu_range`: the text splits on '-' into exactly two parts, each
      part trimmed parses as a u32, and the start does not exceed the end. */
  function ParseCpuRange(s: string): (r: Result<CpuRange, ConfigError>)
    ensures r.Ok? <==> |Split(s, '-')| == 2
                       && ParseU32(Trim(Split(s, '-')[0])).Some?
                       && ParseU32(Trim(Split(s, '-')[1])).Some?
                       && ParseU32(Trim(Split(s, '-')[0])).value <= ParseU32(Trim(Split(s, '-')[1])).value
    ensures r.Ok? ==> r.value.start <= r.value.end
                      && Some(r.value.start) == ParseU32(Trim(Split(s, '-')[0]))
                      && Some(r.value.end) == ParseU32(Trim(Split(s, '-')[1]))
    ensures |Split(s, '-')| != 2 ==> r == Err(CpuRangeFormat(s))
    ensures |Split(s, '-')| == 2 && ParseU32(Trim(Split(s, '-')[0])).None? ==> r == Err(CpuRangeStart(s))
    ensures |Split(s, '-')| == 2 && ParseU32(Trim(Split(s, '-')[0])).Some? && ParseU32(Trim(Split(s, '-')[1])).None?
      ==> r == Err(CpuRangeEnd(s))
    ensures r.Err? && r.error.CpuRangeReversed? ==> r.error.start > r.error.end
    ensures |Split(s, '-')| == 2
            && ParseU32(Trim(Split(s, '-')[0])).Some? && ParseU32(Trim(Split(s, '-')[1])).Some?
            && ParseU32(Trim(Split(s, '-')[0])).value > ParseU32(Trim(Split(s, '-')[1])).value
      ==> r == Err(CpuRangeReversed(s, ParseU32(Trim(Split(s, '-')[0])).value, ParseU32(Trim(Split(s, '-')[1])).value))
  {
    var parts := Split(s, '-');
    if |parts| != 2 then Err(CpuRangeFormat(s))
    else match ParseU32(Trim(parts[0]))
      case None => Err(CpuRangeStart(s))
      case Some(start) =>
        match ParseU32(Trim(parts[1]))
        case None => Err(CpuRangeEnd(s))
        case Some(end) =>
          if start > end then Err(CpuRangeReversed(s, start, end)) else Ok(CpuRange(start, end))
  }

  /** Rendering a range as `"start-end"` in decimal and parsing it back gives
      the range. */
  lemma CpuRangeRoundTrip(a: u32, b: u32)
    requires a <= b
    ensures ParseCpuRange(Decimal(a) + "-" + Decimal(b)) == Ok(CpuRange(a, b))
  {
    var da, db := Decimal(a), Decimal(b);
    assert forall i :: 0 <= i < |da| ==> da[i] != '-';
    assert forall i :: 0 <= i < |db| ==> db[i] != '-';
    SplitFirstPiece(da, '-', db);
    SplitNoSeparator(db, '-');
    assert da + "-" + db == da + ['-'] + db;
    assert Split(da + "-" + db, '-') == [da, db];
    TrimDigits(da);
    TrimDigits(db);
    ParseU32Decimal(a);
    ParseU32Decimal(b);
  }

  /** The range form of the example file parses. */
  lemma CpuRangeExample()
    ensures ParseCpuRange("1-12") == Ok(CpuRange(1, 12))
  {
    assert Decimal(1) == "1";
    assert Decimal(12) == Decimal(1) + [DigitChar(2)] == "12";
    assert "1-12" == Decimal(1) + "-" + Decimal(12);
    CpuRangeRoundTrip(1, 12);
  }

  /** A comma-separated CPU list is rejected as a format error. */
  lemma CpuListRejected()
    ensures ParseCpuRange("1,2,3") == Err(CpuRangeFormat("1,2,3"))
  {
    assert '-' !in "1,2,3";
    SplitNoSeparator("1,2,3", '-');
    assert |Split("1,2,3", '-')| == 1;
  }

  /** A range whose start exceeds its end is rejected. */
  lemma ReversedRangeRejected()
    ensures ParseCpuRange("12-1") == Err(CpuRangeReversed("12-1", 12, 1))
  {
    assert Decimal(1) == "1";
    assert Decimal(12) == "12";
    assert '-' !in "12";
    SplitFirstPiece("12", '-', "1");
    SplitNoSeparator("1", '-');
    assert "12-1" == "12" + ['-'] + "1";
    TrimDigits("12");
    TrimDigits("1");
    ParseU32Decimal(12);
    ParseU32Decimal(1);
  }

  // ---------------------------------------------------------------------
  // The root items of the file
  // ---------------------------------------------------------------------

  /** The CPUs of the `main_cpu` items, in file order. */
  function MainCpusOf(items: seq<ConfigItem>): seq<u32>
  {
    if |items| == 0 then []
    else MainCpusOf(items[..|items| - 1])
         + (if items[|items| - 1].MainCpu? then [items[|items| - 1].cpu] else [])
  }

  /** The texts of the `worker_cpus` items, in file order. */
  function WorkerTextsOf(items: seq<ConfigItem>): seq<string>
  {
    if |items| == 0 then []
    else WorkerTextsOf(items[..|items| - 1])
         + (if items[|items| - 1].WorkerCpus? then [items[|items| - 1].text] else [])
  }

  /** One pub/sub group per `pubsubs` item, in file order. */
  function PubSubsOf(items: seq<ConfigItem>): seq<PubSubConfig>
  {
    if |items| == 0 then []
    else PubSubsOf(items[..|items| - 1])
         + (if items[|items| - 1].PubSubs? then [PubSubConfig(items[|items| - 1].feeds)] else [])
  }

  function FirstOf<T>(xs: seq<T>): Option<T>
  {
    if |xs| == 0 then None else Some(xs[0])
  }

  /** What the loop of `from_str` has gathered so far. */
  datatype Collected = Collected(mainCpu: Option<u32>, workerCpus: Option<string>, pubsubs: seq<PubSubConfig>)

  /** The loop of `from_str` over the root items: a second `main_cpu` or a
      second `worker_cpus` stops it with an error at that item; `pubsubs`
      items accumulate in order. */
  function CollectItems(items: seq<ConfigItem>): (r: Result<Collected, ConfigError>)
    ensures r.Ok? <==> |MainCpusOf(items)| <= 1 && |WorkerTextsOf(items)| <= 1
    ensures r.Ok? ==> r.value == Collected(FirstOf(MainCpusOf(items)), FirstOf(WorkerTextsOf(items)), PubSubsOf(items))
    ensures r == Err(DuplicateMainCpu) || r.Ok? || r == Err(DuplicateWorkerCpus)
    ensures r == Err(DuplicateMainCpu) ==>
      exists k :: 0 <= k <= |items| && |MainCpusOf(items[..k])| == 2 && |WorkerTextsOf(items[..k])| <= 1
    ensures r == Err(DuplicateWorkerCpus) ==>
      exists k :: 0 <= k <= |items| && |WorkerTextsOf(items[..k])| == 2 && |MainCpusOf(items[..k])| <= 1
    decreases |items|
  {
    if |items| == 0 then Ok(Collected(None, None, []))
    else
      var init := items[..|items| - 1];
      var last := items[|items| - 1];
      assert forall k :: 0 <= k <= |init| ==> init[..k] == items[..k];
      assert items[..|items|] == items;
      match CollectItems(init)
      case Err(e) => Err(e)
      case Ok(c) =>
        match last
        case MainCpu(cpu) =>
          if c.mainCpu.Some? then Err(DuplicateMainCpu) else Ok(c.(mainCpu := Some(cpu)))
        case WorkerCpus(text) =>
          if c.workerCpus.Some? then Err(DuplicateWorkerCpus) else Ok(c.(workerCpus := Some(text)))
        case PubSubs(feeds) =>
          Ok(c.(pubsubs := c.pubsubs + [PubSubConfig(feeds)]))
  }

  /** `HwResourcesConfig::from_str` after the YAML layer: the fold over the
      items, then `main_cpu` and `worker_cpus` must be present (in that
      order), the range must parse, and the assembled configuration must
      validate. */
  function FromItems(items: seq<ConfigItem>): (r: Result<HwResourcesConfig, ConfigError>)
    ensures r.Ok? <==>
      |MainCpusOf(items)| == 1 && |WorkerTextsOf(items)| == 1
      && ParseCpuRange(WorkerTextsOf(items)[0]).Ok?
      && HwValid(HwResourcesConfig(MainCpusOf(items)[0], ParseCpuRange(WorkerTextsOf(items)[0]).value, PubSubsOf(items)))
    ensures r.Ok? ==> HwValid(r.value) && r.value.mainCpu == MainCpusOf(items)[0]
                      && r.value.workerCpus == ParseCpuRange(WorkerTextsOf(items)[0]).value
                      && r.value.workerCpus.start <= r.value.workerCpus.end
                      && r.value.pubsubConfigs == PubSubsOf(items)
    ensures CollectItems(items).Err? ==> r == Err(CollectItems(items).error)
    ensures CollectItems(items).Ok? && |MainCpusOf(items)| == 0 ==> r == Err(MissingMainCpu)
    ensures CollectItems(items).Ok? && |MainCpusOf(items)| == 1 && |WorkerTextsOf(items)| == 0 ==> r == Err(MissingWorkerCpus)
    ensures |MainCpusOf(items)| == 1 && |WorkerTextsOf(items)| == 1 && ParseCpuRange(WorkerTextsOf(items)[0]).Err?
      ==> r == Err(ParseCpuRange(WorkerTextsOf(items)[0]).error)
    ensures |MainCpusOf(items)| == 1 && |WorkerTextsOf(items)| == 1 && ParseCpuRange(WorkerTextsOf(items)[0]).Ok?
            && Validate(HwResourcesConfig(MainCpusOf(items)[0], ParseCpuRange(WorkerTextsOf(items)[0]).value, PubSubsOf(items))).Fail?
      ==> r == Err(Validate(HwResourcesConfig(MainCpusOf(items)[0], ParseCpuRange(WorkerTextsOf(items)[0]).value, PubSubsOf(items))).error)
  {
    match CollectItems(items)
    case Err(e) => Err(e)
    case Ok(c) =>
      if c.mainCpu.None? then Err(MissingMainCpu)
      else if c.workerCpus.None? then Err(MissingWorkerCpus)
      else
        match ParseCpuRange(c.workerCpus.value)
        case Err(e) => Err(e)
        case Ok(range) =>
          var config := HwResourcesConfig(c.mainCpu.value, range, c.pubsubs);
          match Validate(config)
          case Fail(e) => Err(e)
          case Pass => Ok(config)
  }

  // ---------------------------------------------------------------------
  // The example file of the test suite
  // ---------------------------------------------------------------------

  const WebsocketJson := Medium("websocket", "json")
  const WebsocketSbe := Medium("websocket", "sbe")

  const SetA := SymbolSet("A", 4, 65536, ["BTCUSDT", "ETHUSDT", "SOLUSDT"], [WebsocketJson, WebsocketSbe])
  const SetB := SymbolSet("B", 4, 65536, ["ADAUSDT", "XRPUSDT", "DOTUSDT"], [WebsocketJson])
  const TopFeed := FeedConfig("top", None, None, [], [], [SetA, SetB])
  const TradeFeed := FeedConfig("trade", Some(4), Some(65536), ["BTCUSDT", "ETHUSDT", "SOLUSDT"], [WebsocketJson], [])

  lemma ExampleSetsValid()
    ensures SymbolSetValid(SetA) && SymbolSetValid(SetB)
  {
    AcceptedRingSizes();
    assert MediumName(WebsocketJson) == "websocket/json";
    assert MediumName(WebsocketSbe) == "websocket/sbe";
    assert MediumNames([WebsocketJson, WebsocketSbe]) == ["websocket/json", "websocket/sbe"];
    assert MediumNames([WebsocketJson]) == ["websocket/json"];
  }

  /** The `top` feed of the example file is valid in sets mode. */
  lemma ExampleTopFeedValid()
    ensures ValidateFeed(TopFeed) == Pass
  {
    ExampleSetsValid();
    assert SetNames([SetA, SetB]) == ["A", "B"];
    assert Flatten(SetSymbols([SetA, SetB])) == ["BTCUSDT", "ETHUSDT", "SOLUSDT", "ADAUSDT", "XRPUSDT", "DOTUSDT"];
  }

  /** The `trade` feed of the example file is valid in direct mode. */
  lemma ExampleTradeFeedValid()
    ensures ValidateFeed(TradeFeed) == Pass
  {
    AcceptedRingSizes();
    assert MediumName(WebsocketJson) == "websocket/json";
    assert MediumNames([WebsocketJson]) == ["websocket/json"];
  }

  const ExampleItems := [MainCpu(0), WorkerCpus("1-12"), PubSubs([TopFeed, TradeFeed])]
  const ExampleConfig := HwResourcesConfig(0, CpuRange(1, 12), [PubSubConfig([TopFeed, TradeFeed])])

  /** The configuration of the example file is valid. */
  lemma ExampleConfigValid()
    ensures Validate(ExampleConfig) == Pass
  {
    ExampleTopFeedValid();
    ExampleTradeFeedValid();
    assert FeedKinds([TopFeed, TradeFeed]) == ["top", "trade"];
  }

  /** The example file is accepted as one group of two feeds. */
  lemma ExampleFileAccepted()
    ensures FromItems(ExampleItems) == Ok(ExampleConfig)
  {
    var items := ExampleItems;
    var one, two := [MainCpu(0)], [MainCpu(0), WorkerCpus("1-12")];
    assert one[..0] == [] && two[..1] == one && items[..2] == two;
    assert MainCpusOf(one) == [0] && WorkerTextsOf(one) == [] && PubSubsOf(one) == [];
    assert MainCpusOf(two) == [0] && WorkerTextsOf(two) == ["1-12"] && PubSubsOf(two) == [];
    assert MainCpusOf(items) == [0];
    assert WorkerTextsOf(items) == ["1-12"];
    assert PubSubsOf(items) == [PubSubConfig([TopFeed, TradeFeed])];
    CpuRangeExample();
    ExampleConfigValid();
    var r := FromItems(items);
    assert r.Ok?;
    assert r.value.workerCpus == CpuRange(1, 12);
  }

  /** Lookups in the example file: each kind finds its feed, an absent kind
      finds nothing, and the `top` feed's mediums come from both sets. */
  lemma ExampleLookups()
    ensures FindFeed(ExampleConfig, "top") == Some(TopFeed)
    ensures FindFeed(ExampleConfig, "trade") == Some(TradeFeed)
    ensures FindFeed(ExampleConfig, "depth") == None
    ensures |AllMediums(TopFeed)| == 3 && AllMediums(TradeFeed) == [WebsocketJson]
  {
    assert AllFeeds(ExampleConfig) == [TopFeed, TradeFeed];
    assert SetMediums([SetA, SetB]) == [[WebsocketJson, WebsocketSbe], [WebsocketJson]];
    assert Flatten(SetMediums([SetA, SetB])) == [WebsocketJson, WebsocketSbe, WebsocketJson];
  }

  /** The example's views keep file order: the top feed's symbols are set
      A's then set B's, its mediums keep set B's repeat of websocket/json,
      and the file has two feeds. */
  lemma ExampleViewsInOrder()
    ensures AllSymbols(TopFeed) == ["BTCUSDT", "ETHUSDT", "SOLUSDT", "ADAUSDT", "XRPUSDT", "DOTUSDT"]
    ensures AllMediums(TopFeed) == [WebsocketJson, WebsocketSbe, WebsocketJson]
    ensures |AllFeeds(ExampleConfig)| == 2
  {
    var one := TopFeed.(sets := [SetA]);
    AllSymbolsAppendSet(one, SetB);
    AllMediumsAppendSet(one, SetB);
    assert TopFeed == one.(sets := one.sets + [SetB]);
    assert SetSymbols([SetA]) == [SetA.symbols];
    FlattenSingle(SetA.symbols);
    assert SetMediums([SetA]) == [SetA.medium];
    FlattenSingle(SetA.medium);
  }

  /** A feed that mixes `sets` with a direct field is rejected before its
      sets are looked at. */
  lemma MixedFeedRejected()
    ensures ValidateFeed(TopFeed.(numCpus := Some(4))) == Fail(SetsWithDirectFields("top"))
  {
  }

  /** A second `main_cpu` item is reported even when `worker_cpus` is
      missing. */
  lemma DuplicateMainCpuFirst()
    ensures FromItems([MainCpu(0), MainCpu(1)]) == Err(DuplicateMainCpu)
  {
    assert [MainCpu(0), MainCpu(1)][..1] == [MainCpu(0)];
  }
}

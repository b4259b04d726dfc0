# Binance spot controller: configuration, naming and message-path model

This project is a Dafny model of the sequential core of the Binance spot
controller, together with proofs about that model. It covers eight parts.

- **Market-data handler configuration** (`MdConfig`). The `hw-resources`
  records are mediums, symbol sets, feeds (in sets mode or direct mode),
  pub/sub groups and the whole file. The model covers:
  - the layered validation, where each validator reports the first failing
    rule in the order the source checks them;
  - the `"start-end"` worker CPU range;
  - the fold over the file's root items;
  - `all_feeds`, `find_feed` and the `all_symbols` views.
- **Symbol-info table** (`SymbolTable`). The name-to-id and id-to-name
  indexes are built from the `symbolinfo` entries. The first duplicate id or
  name is rejected.
- **Handler start-up** (`MdHandler`):
  - the lowercased stream set of a feed;
  - the `{KIND}_{id}_PS` ring name;
  - the plan of a Top or Trade feed group: streams, subscribe frames, ring
    and workers;
  - the lcore list;
  - the split of the worker CPUs between the feed kinds;
  - the order of the `create_*_feedgroup` calls, where a failing Top call ends `main` before Trade is reached.
- **Feed protocol** (`FeedProtocol`). Each stream name becomes a
  `<symbol>@bookTicker` or `<symbol>@trade` topic, and `update` sends one
  `SUBSCRIBE` frame.
- **Websocket requests**:
  - request ids (`RequestId`): `i64`, or a string of at most 36 UTF-8 bytes, a longer string id in a decoded request being cut to 36 bytes;
  - the JSON request codec (`Request`): method, params, id.
- **Raw message path** (`RawMessage`). `DummyParser` checks a payload as
  UTF-8 and copies it into a fixed 512-byte record with zero padding. The
  subscriber reads the record back up to the first zero byte.
- **Resource manager configuration** (`ResourceConfig`). The hugepage size
  must be 2048 kB or 1048576 kB, the count must be non-zero, and each size
  has a sysfs path.
- **Test subscriber** (`MdSubscriber`). One step of its consume loop updates
  the two counters and decides what the step reports.

Helper modules:

- `Wrappers`: `Option`, `Result`, `Outcome`.
- `Ints`: fixed-width integer types and powers of two.
- `Seqs`: distinctness, the first repeat, flattening, the first failure.
- `Text`: decimal digits, trimming, splitting, `u32` parsing.
- `Utf8`: RFC 3629 encoding and validity.

Where the prose documentation and the code differ, the model follows the
code:

- **Request-id bound.** `RequestIdString` is an `ArrayString<U36>`, whose
  capacity counts bytes. The bound is therefore 36 UTF-8 bytes, not 36
  characters (`RequestId.BoundCountsBytes`). The error's `len` field is also
  the byte length.
- **Stream set.** The handler inserts every symbol lowercased into a set.
  Two symbols that differ only in case therefore share one stream
  (`MdHandler.CaseVariantsShareStream`).
- **Ring choice.** One ring per kind is used, named after the first symbol
  of the feed.

## Model

| member | source | states |
|---|---|---|
| Ints.Pow2IsPowerOfTwo | bins/ctl-md-handler/src/config.rs:72 | every 2^k passes the `is_power_of_two` ring-size check |
| Ints.PowerOfTwoIsPow2 | bins/ctl-md-handler/src/config.rs:233 | every ring size that passes `is_power_of_two` is 2^k for some k; 0 is rejected |
| Ints.RejectedRingSizes | bins/ctl-md-handler/src/config.rs:72-77 | the ring sizes 0 and 1000 are rejected |
| Ints.AcceptedRingSizes | bins/ctl-md-handler/src/config.rs:702-742 | the ring sizes 1024 and 65536 (the sample's size) are accepted |
| Ints.U64AsI64 | lib/ctl-websocket/src/requests/id.rs:27 | `v as i64` keeps values up to i64::MAX and wraps larger ones by subtracting 2^64 |
| Ints.U64AsI64Injective | lib/ctl-websocket/src/requests/id.rs:25-29 | the `u64`-to-`i64` cast loses no information: distinct inputs give distinct ids |
| Text.DecimalRoundTrip | bins/ctl-md-handler/src/config.rs:489-500 | the decimal rendering of n consists of digits only and reads back as n |
| Text.TrimDigits | bins/ctl-md-handler/src/config.rs:489 | `trim` leaves a digit-only string unchanged |
| Text.ParseU32Decimal | bins/ctl-md-handler/src/config.rs:489-500 | `parse::<u32>` on the decimal text of any u32 gives back that number |
| Text.SplitNoSeparator | bins/ctl-md-handler/src/config.rs:481 | `split('-')` of text without a dash is the text itself as the one piece |
| Text.SplitFirstPiece | bins/ctl-md-handler/src/config.rs:481 | splitting `a + "-" + rest`, where `a` has no dash, gives `a` followed by the pieces of `rest` |
| Text.SplitJoin | bins/ctl-md-handler/src/config.rs:481 | splitting pieces joined by a separator they do not contain gives back the pieces |
| Seqs.Flatten | bins/ctl-md-handler/src/config.rs:298-307 | the flattened list is as long as all pieces together, holds exactly their elements, and is empty iff every piece is |
| Seqs.FlattenAppend | bins/ctl-md-handler/src/config.rs:529-533 | `flat_map` over two runs of pieces is the first run's result followed by the second's |
| Seqs.FlattenIndex | bins/ctl-md-handler/src/config.rs:529-533 | element j of piece i lands at the summed length of the earlier pieces plus j |
| Utf8.EncodeIsValid | lib/ctl-feed/src/parser/parser.rs:22 | the UTF-8 encoding of any text passes the parser's `from_utf8` check |
| Utf8.EncodeHasNoZero | bins/ctl-md-subscriber/src/main.rs:53 | text without NUL encodes to bytes without a zero byte, so the subscriber's first-zero cut cannot fall inside it |
| Utf8.AsciiByteLength | lib/ctl-websocket/src/requests/id.rs:8 | for ASCII text the byte length equals the character count |
| Utf8.TwoByteCharsLength | lib/ctl-websocket/src/requests/id.rs:39 | n copies of a two-byte character are 2n bytes long: `len` counts bytes |
| Utf8.FitPrefix | lib/ctl-websocket/src/requests/id.rs:8 | the longest character prefix whose encoding fits a byte budget: it fits, it is the whole text when that fits, and one more character would not |
| Utf8.ByteLengthAppend | lib/ctl-websocket/src/requests/id.rs:39 | the byte length of a concatenation is the sum of the byte lengths |
| RequestId.IdStringFromStr | lib/ctl-websocket/src/requests/id.rs:8 | a string fits the id type iff its UTF-8 encoding is at most 36 bytes, and it is kept unchanged |
| RequestId.TruncateId | lib/ctl-websocket/src/requests/id.rs:8 | the deserialized id is a prefix of the text that fits in 36 bytes, the whole text when it fits, and the next character would not fit |
| RequestId.TruncateAfterAsciiPrefix | lib/ctl-websocket/src/requests/id.rs:8 | a text whose first 36 characters are ASCII and first 37 overflow keeps exactly those 36 characters |
| RequestId.TruncateExamples | lib/ctl-websocket/src/requests/id.rs:8 | 37 ASCII characters lose the last; 36 ASCII characters and a two-byte `é` lose the whole `é` |
| RequestId.TryFromStr | lib/ctl-websocket/src/requests/id.rs:45-56 | Ok iff the text is at most 36 bytes, and then it is the string id of that text; otherwise RequestIdTooLong with an empty id, the byte length and max 36 |
| RequestId.TryFromString | lib/ctl-websocket/src/requests/id.rs:31-43 | the owned-string conversion: Ok iff the text is at most 36 bytes, keeping it; otherwise RequestIdTooLong with an empty id, the byte length and max 36 |
| RequestId.TryFromStringAgrees | lib/ctl-websocket/src/requests/id.rs:31-43 | the `String` conversion agrees with the `&str` conversion on every input |
| RequestId.FromI64 | lib/ctl-websocket/src/requests/id.rs:19-23 | an `i64` becomes the integer id of that value |
| RequestId.FromU64 | lib/ctl-websocket/src/requests/id.rs:25-29 | a `u64` becomes an integer id, wrapped to i64 above i64::MAX |
| RequestId.FromU64Injective | lib/ctl-websocket/src/requests/id.rs:25-29 | distinct `u64` values give distinct ids |
| RequestId.LengthBoundary | lib/ctl-websocket/src/requests/id.rs:45-56 | 36 ASCII characters are accepted; 37 give RequestIdTooLong with len 37 and max 36 |
| RequestId.BoundCountsBytes | lib/ctl-websocket/src/requests/id.rs:8 | 19 copies of `é` (38 bytes) are rejected and 18 copies (36 bytes) are accepted |
| Request.FromTuple | lib/ctl-websocket/src/requests/request.rs:18-22 | a `(kind, id)` pair becomes the request with exactly that kind and id |
| Request.Encode | lib/ctl-websocket/src/requests/request.rs:9-58 | the object has `method` (the upper-case name of the kind) and `id` (`null` when absent), and has `params` exactly when the kind carries them |
| Request.DecodeStrings | lib/ctl-websocket/src/requests/request.rs:28-58 | an array decodes to strings only when every item is a string, and then re-encoding the strings gives back the array |
| Request.StringsRoundTrip | lib/ctl-websocket/src/requests/request.rs:28-58 | a list of stream strings survives encoding to a JSON array and decoding back |
| Request.Decode | lib/ctl-websocket/src/requests/request.rs:9-58 | a non-object is rejected; an invalid id is reported; an accepted object's `method` and `params` are exactly those that encoding the decoded request produces, and its `id` too except that a string id is cut to 36 bytes |
| Request.RoundTrip | lib/ctl-websocket/src/requests/request.rs:286-315 | decoding an encoded request gives back the request |
| Request.EncodeDecoded | lib/ctl-websocket/src/requests/request.rs:9-58 | an object holding only `id`, `method` and the kind's `params` is reproduced by encoding its decoding iff its id is not a string longer than 36 bytes |
| Request.DecodeId | lib/ctl-websocket/src/requests/id.rs:12-17 | an absent or `null` id is no id; an id fails iff it is neither null, a string, nor an integer in i64 range, and then with InvalidId; a string id is always accepted, cut to 36 bytes |
| Request.DecodeLongIdTruncated | lib/ctl-websocket/src/requests/id.rs:8-17 | a 37-byte string id decodes as its first 36 bytes instead of being rejected |
| Request.EncodeInjective | lib/ctl-websocket/src/requests/request.rs:286-315 | two requests with the same encoding are equal |
| Request.DecodeNullId | lib/ctl-websocket/src/requests/request.rs:227-237 | `"id": null` decodes to a request without an id |
| Request.DecodeListWithoutParams | lib/ctl-websocket/src/requests/request.rs:251-258 | `LIST_SUBSCRIPTIONS` without `params` decodes |
| Request.EncodeSubscribeExample | lib/ctl-websocket/src/requests/request.rs:67-86 | a subscribe with an integer id encodes to the expected method, params and id |
| FeedProtocol.TopicRoundTrip | lib/ctl-feed/src/protocol.rs:7-10 | removing the kind's suffix from a topic gives back the stream name |
| FeedProtocol.TopicInjective | lib/ctl-feed/src/protocol.rs:26-29 | different stream names give different topics |
| FeedProtocol.Topic | lib/ctl-feed/src/protocol.rs:7-28 | the topic of a stream (`<name>@bookTicker` for Top, `<name>@trade` for Trade) strips back to the stream name under its kind |
| FeedProtocol.Topics | lib/ctl-feed/src/protocol.rs:7-10 | one topic per stream, in stream order |
| FeedProtocol.Update | lib/ctl-feed/src/protocol.rs:2-38 | `update` sends one SUBSCRIBE frame listing every stream's topic in order, without repeats, and each topic maps back to a stream of the set |
| RawMessage.DefaultRecord | lib/ctl-feed/src/messages.rs:20-26 | the default record is 512 zero bytes |
| RawMessage.Parse | lib/ctl-feed/src/parser/parser.rs:16-32 | the parse panics iff the payload is valid UTF-8 longer than 512 bytes; otherwise Pass iff the payload is valid UTF-8, the record then starting with the payload and zero after it; on failure the error is General and the record is untouched |
| RawMessage.OversizedPayloadPanics | lib/ctl-feed/src/parser/parser.rs:22-26 | a valid 513-byte payload makes `buf[..bytes.len()]` panic |
| RawMessage.ParseForgetsPrior | lib/ctl-feed/src/parser/parser.rs:26-27 | after a successful parse the record does not depend on its previous contents |
| RawMessage.FirstZeroFrom | bins/ctl-md-subscriber/src/main.rs:53 | the search returns the first zero at or after k, or the length when there is none |
| RawMessage.MessageLength | bins/ctl-md-subscriber/src/main.rs:53 | `position(b == 0).unwrap_or(len)`: every byte before the result is non-zero, and the byte at the result is zero when it is in range |
| RawMessage.DecodeRecord | bins/ctl-md-subscriber/src/main.rs:53-54 | the bytes read from a record are a zero-free prefix of it, stopped by a zero byte unless they fill the record |
| RawMessage.RoundTrip | bins/ctl-md-subscriber/src/main.rs:49-54 | the subscriber reads back exactly the payload the parser stored, when the payload has no zero byte |
| RawMessage.CutAtZero | bins/ctl-md-subscriber/src/main.rs:53-54 | a payload with a zero byte is read back only up to its first zero |
| RawMessage.TextRoundTrip | lib/ctl-feed/src/parser/parser.rs:22-29 | UTF-8 text without NUL of at most 512 bytes parses and reads back to its own encoding |
| MdConfig.ValidateMedium | bins/ctl-md-handler/src/config.rs:26-38 | Pass iff protocol and parser are non-empty; the protocol is reported before the parser |
| MdConfig.MediumNameInjective | bins/ctl-md-handler/src/config.rs:41-43 | when protocols hold no `/`, equal rendered `protocol/parser` names mean equal mediums |
| MdConfig.RenderedNamesCanCollide | bins/ctl-md-handler/src/config.rs:121-130 | a `/` inside a protocol lets two different mediums render alike, so the duplicate check rejects them as one |
| MdConfig.ValidateSymbolsAndMediums | bins/ctl-md-handler/src/config.rs:79-130 | Pass iff there is at least one symbol, none empty, none repeated, and at least one medium, all valid, with distinct names; each failure names the first repeat or the first invalid medium, in the source's order |
| MdConfig.ValidateSymbolSet | bins/ctl-md-handler/src/config.rs:63-133 | Pass iff the set is valid; the empty name comes first, then a ring size that is not a power of two, then the symbol and medium rules |
| MdConfig.ValidateSetsMode | bins/ctl-md-handler/src/config.rs:186-214 | Pass iff every set is valid, set names are distinct and no symbol is in two sets; the first failing set is reported first, then the first repeated name, then the first shared symbol |
| MdConfig.ValidateDirectMode | bins/ctl-md-handler/src/config.rs:215-292 | Pass iff num_cpus and ring_size are present, the ring size is a power of two and the symbol and medium rules hold, with the errors in that order |
| MdConfig.ValidateFeed | bins/ctl-md-handler/src/config.rs:167-295 | Pass iff the kind is non-empty, sets and direct fields are not mixed, and the chosen mode is valid |
| MdConfig.ValidatePubSub | bins/ctl-md-handler/src/config.rs:343-368 | Pass iff the group has feeds, all are valid, and their kinds are distinct; the first failing feed is reported first |
| MdConfig.Validate | bins/ctl-md-handler/src/config.rs:514-526 | Pass iff there is at least one pub/sub group and all are valid; otherwise the first failing group's error |
| MdConfig.AllSymbols | bins/ctl-md-handler/src/config.rs:298-307 | in sets mode a symbol is listed iff some set lists it, and the list is as long as all sets' symbol lists together; in direct mode the list is the feed's own symbols |
| MdConfig.AllMediums | bins/ctl-md-handler/src/config.rs:315-324 | in sets mode a medium is listed iff some set lists it, and the list is as long as all sets' medium lists together, repeats included; in direct mode the list is the feed's own mediums |
| MdConfig.ValidFeedSymbols | bins/ctl-md-handler/src/config.rs:298-307 | a valid feed's symbol list is non-empty, with no empty symbol and no repeat, in both modes |
| MdConfig.ValidFeedMediums | bins/ctl-md-handler/src/config.rs:315-324 | a valid feed has at least one medium, and all of them are valid |
| MdConfig.AllSymbolsPosition | bins/ctl-md-handler/src/config.rs:298-307 | symbol j of set i sits after all symbols of the earlier sets; the list starts with the first set's symbols, so the first symbol is the first set's first |
| MdConfig.AllSymbolsAppendSet | bins/ctl-md-handler/src/config.rs:298-307 | a set added at the end appends its symbols, in order, to the list; nothing is merged or dropped |
| MdConfig.AllMediumsPosition | bins/ctl-md-handler/src/config.rs:315-324 | medium j of set i sits after all mediums of the earlier sets |
| MdConfig.AllMediumsAppendSet | bins/ctl-md-handler/src/config.rs:315-324 | a set added at the end appends its mediums, in order and with repeats |
| MdConfig.AllFeeds | bins/ctl-md-handler/src/config.rs:529-533 | a feed is listed iff some pub/sub group holds it, and there are as many feeds as all groups hold together |
| MdConfig.AllFeedsPosition | bins/ctl-md-handler/src/config.rs:529-533 | feed j of group i sits after all feeds of the earlier groups |
| MdConfig.AllFeedsAppendGroup | bins/ctl-md-handler/src/config.rs:529-533 | a group added at the end appends its feeds, in order |
| MdConfig.FindFeed | bins/ctl-md-handler/src/config.rs:536-538 | None iff no feed has the kind; otherwise the first feed of that kind, in file order |
| MdConfig.ConfigSymbols | bins/ctl-md-handler/src/config.rs:541-545 | a symbol is in the set iff some feed of the file lists it |
| MdConfig.ParseCpuRange | bins/ctl-md-handler/src/config.rs:480-511 | Ok iff the text splits on `-` into exactly two parts that parse as u32 after trimming, with start ≤ end; format, start, end and reversed-range errors in that order |
| MdConfig.CpuRangeRoundTrip | bins/ctl-md-handler/src/config.rs:480-511 | `"a-b"` written in decimal parses back to the range a..=b whenever a ≤ b |
| MdConfig.CpuRangeExample | bins/ctl-md-handler/src/config.rs:702-742 | the sample's `"1-12"` parses to 1..=12 |
| MdConfig.CpuListRejected | bins/ctl-md-handler/src/config.rs:482-487 | a comma list `"1,2,3"` is a format error |
| MdConfig.ReversedRangeRejected | bins/ctl-md-handler/src/config.rs:503-508 | `"12-1"` is rejected as a reversed range that carries 12 and 1 |
| MdConfig.CollectItems | bins/ctl-md-handler/src/config.rs:432-454 | the fold succeeds iff main_cpu and worker_cpus each appear at most once; it keeps the first of each and every pub/sub group in order; a second occurrence is reported at the item where it occurs |
| MdConfig.FromItems | bins/ctl-md-handler/src/config.rs:425-477 | Ok iff there is exactly one main CPU and one worker range, the range parses, and the file validates; the Ok value holds that CPU, exactly the parsed range and the groups in file order; otherwise the fold's duplicate error, then a missing main CPU, then missing worker CPUs, then the range error, then the first validation error |
| MdConfig.ExampleSetsValid | bins/ctl-md-handler/src/config.rs:702-742 | the sample's two symbol sets are valid |
| MdConfig.ExampleTopFeedValid | bins/ctl-md-handler/src/config.rs:702-742 | the sample's sets-mode `top` feed is valid |
| MdConfig.ExampleTradeFeedValid | bins/ctl-md-handler/src/config.rs:702-742 | the sample's direct-mode `trade` feed is valid |
| MdConfig.ExampleConfigValid | bins/ctl-md-handler/src/config.rs:745-765 | the sample configuration validates |
| MdConfig.ExampleFileAccepted | bins/ctl-md-handler/src/config.rs:745-765 | the sample's root items give main CPU 0, workers 1..=12 and the sample's single pub/sub group |
| MdConfig.ExampleLookups | bins/ctl-md-handler/src/config.rs:745-765 | in the sample, `find_feed("top")` is the sets-mode feed and `"trade"` the direct feed; an unknown kind is absent; the top feed has three mediums and the trade feed one |
| MdConfig.ExampleViewsInOrder | bins/ctl-md-handler/src/config.rs:780-791 | in the sample, the top feed's symbols are set A's then set B's, its three mediums keep the repeat of websocket/json, and the file has two feeds |
| MdConfig.MixedFeedRejected | bins/ctl-md-handler/src/config.rs:176-184 | a sets-mode feed that also sets `num_cpus` is rejected as mixing the modes |
| MdConfig.DuplicateMainCpuFirst | bins/ctl-md-handler/src/config.rs:432-454 | a repeated main_cpu is reported even when worker_cpus is missing |
| SymbolTable.Names | bins/ctl-md-handler/src/config.rs:647-654 | the names of the entries, one per entry, in order |
| SymbolTable.Ids | bins/ctl-md-handler/src/config.rs:647-654 | the ids of the entries, one per entry, in order |
| SymbolTable.InsertConsistent | bins/ctl-md-handler/src/config.rs:656-657 | inserting an entry whose name and id are both new keeps the two indexes mutually inverse, with one more entry |
| SymbolTable.FromEntries | bins/ctl-md-handler/src/config.rs:631-665 | Ok iff ids and names are distinct; the indexes then hold exactly the entries, each under its name and its id; an error names a clash at the first entry whose id, then name, was seen before |
| SymbolTable.GetByName | bins/ctl-md-handler/src/config.rs:668-670 | found iff the name is indexed |
| SymbolTable.GetById | bins/ctl-md-handler/src/config.rs:673-675 | found iff the id is indexed |
| SymbolTable.SymbolId | bins/ctl-md-handler/src/config.rs:678-680 | the id of the entry found by name, and absent when the name is not indexed |
| SymbolTable.Symbols | bins/ctl-md-handler/src/config.rs:683-685 | exactly the entries indexed by name |
| SymbolTable.SymbolsAreEntries | bins/ctl-md-handler/src/config.rs:683-685 | the built table's symbols are exactly the file's entries |
| SymbolTable.LookupEntry | bins/ctl-md-handler/src/config.rs:668-680 | every entry is found by its name and by its id, and `symbol_id` gives its id |
| SymbolTable.LookupAbsent | bins/ctl-md-handler/src/config.rs:668-675 | names and ids that are not in the file are not found |
| SymbolTable.IndexesAgree | bins/ctl-md-handler/src/config.rs:668-675 | the entry found by name is found again by its id, and the other way round |
| SymbolTable.LenCountsEntries | bins/ctl-md-handler/src/config.rs:688-695 | `len` is the number of entries, and `is_empty` holds iff there are none |
| SymbolTable.IndexSizesAgree | bins/ctl-md-handler/src/config.rs:688-695 | in a consistent table the id index is as large as the name index that `len` and `is_empty` read |
| SymbolTable.DuplicateIdReportedFirst | bins/ctl-md-handler/src/config.rs:647-654 | two entries sharing an id give DuplicateId, even when their names match too |
| SymbolTable.DuplicateExamples | bins/ctl-md-handler/src/config.rs:647-654 | concrete duplicate-id and duplicate-name files give the matching error |
| ResourceConfig.SizeKb | bins/ctl-resource-manager/src/config.rs:31-36 | 2 MB pages are 2·1024 kB and 1 GB pages are 1024·1024 kB |
| ResourceConfig.SysfsPathEmbedsSize | bins/ctl-resource-manager/src/config.rs:23-28 | each sysfs path is the hugepages directory for the size's own kB value |
| ResourceConfig.SysfsPathInjective | bins/ctl-resource-manager/src/config.rs:23-28 | the two hugepage sizes are configured through different sysfs files |
| ResourceConfig.Size | bins/ctl-resource-manager/src/config.rs:50-59 | Ok iff size_kb is 2048 or 1048576, with the size whose kB value is the input; otherwise the error carries the input |
| ResourceConfig.SizeRoundTrip | bins/ctl-resource-manager/src/config.rs:31-59 | `size()` of a config holding a size's kB value gives that size back |
| ResourceConfig.Validate | bins/ctl-resource-manager/src/config.rs:89-101 | Pass iff the size is valid and the count is non-zero; the size error comes first |
| ResourceConfig.SizeReportedBeforeCount | bins/ctl-resource-manager/src/config.rs:89-101 | a config with both a bad size and a zero count reports the size |
| ResourceConfig.LcoreId | bins/ctl-resource-manager/src/config.rs:104-106 | the lcore is the configured CPU |
| MdHandler.LowerChar | bins/ctl-md-handler/src/main.rs:58 | the result is never an ASCII upper-case letter; upper-case letters move down by 32 and everything else is unchanged |
| MdHandler.Lower | bins/ctl-md-handler/src/main.rs:58 | lowercasing keeps the length and lowercases each character in place |
| MdHandler.LowerIdempotent | bins/ctl-md-handler/src/main.rs:58 | lowercasing twice is lowercasing once, and already-lower text is unchanged |
| MdHandler.InsertStream | bins/ctl-md-handler/src/main.rs:58 | set insertion: adds the name once, keeps what was there, appends only when new |
| MdHandler.LowerAll | bins/ctl-md-handler/src/main.rs:57-59 | each symbol lowercased, in order |
| MdHandler.StreamNames | bins/ctl-md-handler/src/main.rs:56-59 | a name is a stream iff some symbol lowercases to it; there are no more streams than symbols |
| MdHandler.StreamNamesOneEach | bins/ctl-md-handler/src/main.rs:56-59 | when no two symbols lowercase alike, there is one stream per symbol, in symbol order |
| MdHandler.CaseVariantsShareStream | bins/ctl-md-handler/src/main.rs:56-59 | `BTCUSDT` and `btcusdt` give the single stream `btcusdt` |
| MdHandler.RingName | bins/ctl-md-handler/src/main.rs:74 | the ring name starts with the kind's prefix and `_`, and ends in `_PS` |
| MdHandler.RingNameInjective | bins/ctl-md-handler/src/main.rs:69-74 | different (kind, symbol id) pairs name different rings |
| MdHandler.FeedRing | bins/ctl-md-handler/src/main.rs:46-75 | Ok iff the kind is configured, has symbols, and its first symbol is in the symbol table, with the ring named after that symbol's id; the errors come in that order |
| MdHandler.ValidConfigHasSymbols | bins/ctl-md-handler/src/main.rs:50-53 | in a validated file a configured feed never fails for lack of symbols: the only possible error is an unknown first symbol |
| MdHandler.CreateFeedGroup | bins/ctl-md-handler/src/main.rs:40-96 | the SUBSCRIBE frame for the feed's lowercased streams is sent iff the kind is configured with symbols, before and regardless of the ring lookup; the group is planned iff the ring resolves, with those frames, that ring and the given workers |
| MdHandler.SubscribedBeforeRingLookup | bins/ctl-md-handler/src/main.rs:62-73 | a first symbol missing from the symbol table fails the call only after the feed's streams were subscribed |
| MdHandler.WorkerLcores | bins/ctl-md-handler/src/main.rs:216-220 | exactly the CPUs start..=end, in increasing order, and none when the range is reversed |
| MdHandler.AllLcores | bins/ctl-md-handler/src/main.rs:223-224 | the main CPU followed by the worker CPUs |
| MdHandler.WorkersPerKind | bins/ctl-md-handler/src/main.rs:238-244 | the largest share n with n·feeds ≤ workers, and 0 without feeds |
| MdHandler.DrainTurn | bins/ctl-md-handler/src/main.rs:250-253 | a configured kind takes a prefix of min(share, remaining) workers, and the rest is left; an unconfigured kind takes nothing |
| MdHandler.AllocateWorkers | bins/ctl-md-handler/src/main.rs:238-289 | the drains as they happen when `main` reaches them: Top's slice, Trade's slice and the leftovers concatenate to the worker list, and a kind gets a slice iff it is configured, of the stated size; Trade's drain is reached only if Top's call, when made, returned Ok (`MdHandler.StartFeedGroups`) |
| MdHandler.AllocationDisjoint | bins/ctl-md-handler/src/main.rs:250-289 | no worker CPU is given to both Top and Trade |
| MdHandler.GatesOpen | bins/ctl-md-handler/src/main.rs:250-289 | a kind's `!*_workers.is_empty()` gate is open iff the kind is configured and its drain takes at least one worker; Trade's call also needs Top's call, when made, to have returned Ok |
| MdHandler.CallSequence | bins/ctl-md-handler/src/main.rs:250-289 | Top is called iff its gate is open; Trade is called iff its gate is open and Top's call, when made, returned Ok; calls go Top then Trade; on success there is one plan per call, Top's first and Trade's last, each from its call; on failure the error is the last call's |
| MdHandler.StartFeedGroups | bins/ctl-md-handler/src/main.rs:238-289 | the same stage read off a configuration and symbol table: Top's `create_top_feedgroup` runs iff its gate is open, Trade's iff its gate is open and Top's call, when made, returned Ok with its drained workers; Top before Trade |
| MdHandler.StartupPlans | bins/ctl-md-handler/src/main.rs:250-289 | when the stage succeeds it holds one plan per call made, Top's plan first and Trade's last, each the plan that kind's call built |
| MdHandler.StartupError | bins/ctl-md-handler/src/main.rs:256-282 | when the stage fails, at least one call was made and the error is the one the last call returned through `?` |
| MdHandler.TopFailureSkipsTrade | bins/ctl-md-handler/src/main.rs:256-289 | in the sample, with an empty symbol table, Trade's gate is open, but Top's call fails and ends `main`, so only Top is called |
| MdHandler.FewWorkersGatesShut | bins/ctl-md-handler/src/main.rs:240-289 | with fewer workers than feeds the share is zero, neither gate opens, and no `create_*_feedgroup` is called |
| MdHandler.ShareBelowOne | bins/ctl-md-handler/src/main.rs:240-244 | fewer workers than feeds give each kind a share of zero |
| MdHandler.TwoKindsTwoFeeds | bins/ctl-md-handler/src/main.rs:239 | when both kinds are configured the feed count is at least 2 |
| MdHandler.TwoSharesFit | bins/ctl-md-handler/src/main.rs:240-244 | with at least two feeds, two shares never exceed the workers |
| MdHandler.BothKindsGetAShare | bins/ctl-md-handler/src/main.rs:250-289 | when both kinds are configured each gets exactly `workers_per_kind` workers |
| MdHandler.NoFeedsNoWorkers | bins/ctl-md-handler/src/main.rs:240-244 | without feeds no group gets workers and all workers are left over |
| MdSubscriber.RingNameMatchesHandler | bins/ctl-md-subscriber/src/main.rs:14 | the subscriber's ring `TOP_0_PS` is the name the handler gives the Top ring of symbol id 0 |
| MdSubscriber.Step | bins/ctl-md-subscriber/src/main.rs:43-82 | a committed message increments the message count and is printed with its new index and the text before the first zero; a failed commit and InFlight change nothing; SpedPast warns; Empty increments the poll count and reports status exactly at multiples of 1 000 000 |
| MdSubscriber.Run | bins/ctl-md-subscriber/src/main.rs:43-82 | one report per poll |
| MdSubscriber.RunCounts | bins/ctl-md-subscriber/src/main.rs:40-82 | over any run, the message count grows by the committed messages and the poll count by the empty polls |
| MdSubscriber.StatusLinesPerMillion | bins/ctl-md-subscriber/src/main.rs:74-80 | from zero, the number of status lines equals the empty polls divided by 1 000 000 |
| MdSubscriber.OtherOutcomesKeepCount | bins/ctl-md-subscriber/src/main.rs:59-73 | retries, in-flight and overtaken polls leave the message count unchanged |

## Left out

- The DPDK environment, the pub/sub rings and the consumer's `consume_start` protocol. The subscriber's ring outcomes are the input of `MdSubscriber.Step`.
- The feed-group scheduler, the websocket connection and the network. `update` is modelled as the frames it sends, and the connection and network errors of `create_*_feedgroup` are left out.
- Printing, file reading and YAML/serde text parsing. The model starts from parsed records (`ConfigItem`, `SymbolInfo`, `Json`).
- `FeedWrapper`. The file format's `{ feed: … }` layer is dropped.
- JSON numbers other than integers. The model's `Json` has integer numbers only, so a `SET_PROPERTY` value or an id that is a float is not represented.
- `HugepagesConfig` accessors, and the resource manager's `main` and `lib.rs`. These are wiring around `Validate`.
- `RawMessage.Parse`: the panic is an outcome with no record, because the handler thread ends there; what the panic does to the feed group is not modelled.
- The `Trade` and `AggTrade` copies of `DummyParser`. They have the same body as the Top one, which `RawMessage.Parse` models once.
- `MdSubscriber.Step`: the counters are unbounded naturals. The source's `u64` counters would wrap after 2^64 increments.
- `MdHandler.Lower`: only ASCII letters are lowercased. Rust's `to_lowercase` also maps non-ASCII letters; exchange symbols are ASCII.
- `SymbolTable.FromEntries`: the file's map of symbols is taken as a list in file order. The order in which hashbrown iterates a map entry, which decides which duplicate is reported first, is left out.
- `FeedProtocol.Update`: the streams are kept in insertion order. The iteration order of `atx_feed`'s `Streams` is not part of this model.
- `Request.Decode`: for `LIST_SUBSCRIPTIONS`, absent or `null` params are accepted and other params are rejected. This is the reading taken of serde's adjacently tagged unit variant.
- `Request.Decode`: a string id longer than 36 bytes is cut to its first 36 bytes on a character boundary. This is the behaviour of `ArrayString::from_str_truncate`, which the `arraystring` crate's `Deserialize` applies; that crate is not part of this model.

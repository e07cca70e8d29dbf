# dht-ocean: a verified model

dht-ocean crawls the BitTorrent DHT, fetches torrent metadata from peers, stores it, indexes it
for search and keeps seeder counts up to date. This project models the parts of it that carry
protocol and concurrency logic, in Dafny 4.11, and proves what they promise.

| file | models |
|---|---|
| `Base.dfy`, `Decimal.dfy`, `ByteOrder.dfy` | bytes, outcomes, big-endian numbers, `strconv`, the order of Go strings |
| `BencodeValue.dfy`, `BencodeEncode.dfy`, `BencodeDecode.dfy`, `BencodePath.dfy` | the bencode codec and dotted-path lookup |
| `BencodeParse.dfy`, `BencodeLaws.dfy`, `BencodePanics.dfy`, `BencodeCanonical.dfy`, `BencodeLength.dfy`, `BencodeTexts.dfy` | the laws of the codec and its exact grammar |
| `MetadataExchange.dfy`, `Reassembly.dfy`, `HonestPeer.dfy` | the metadata exchange with a peer |
| `Cache.dfy`, `Scrape.dfy` | the expiring cache and the UDP tracker client on top of it |
| `SearchIndex.dfy`, `Indexer.dfy` | the search index under partial updates, and the search indexer between it and an AMQP broker |
| `Bloom.dfy`, `Fetcher.dfy` | the Bloom filter and the duplicate check of the torrent fetcher |
| `Updater.dfy`, `Pacing.dfy`, `Recovery.dfy` | the tracker updater: batches, refresh loop, recovery |
| `Proxy.dfy` | UDP packets over a proxied byte stream |

Code that updates fields or runs loops is a class or a method, proved against a function; the
promises are lemmas about the functions. Concurrent code is a state machine whose actions are the
atomic steps of the source, and the promises hold for every run, that is for every interleaving.
Fields such as `evictions`, `issued` or `published` record history and have no counterpart in the
source.

A Go `error` and a panic are kept apart (`Err` and `Panic`, `Bad` and `Crash`) because
`GetMetadata` recovers panics. `Value.Unsupported` stands for every dynamic type the encoder
refuses. A bound of `MAX_INT` on a length says that a slice's length is an `int`.

Functions that fix a format or an order are described once more apart from themselves, on bytes and
literals: by an inverse, an exact grammar, a layout, or what a run does with them.

## Where the code falls short of its intent

The named lemmas are about the code as it is. Where the intent fails on some inputs only, they give
the exact condition under which it holds.

- `GetByPath` answers with the leaf when a path goes one part past it
  (`WalkIsLookupUnlessOvershot`).
- The decoder accepts unterminated lists, dictionaries and integers. It then reports an offset past
  the end of the buffer by one byte for every level that is still open, and only then
  (`OverrunExactly`, `DictOverrunExactly`).
- The map of the cache can outgrow every bound exactly in non-blocking mode with at least one slot
  (`UnboundedExactly`). There an uncontended `Set` stalls exactly when the cache has no slot, or one
  slot that a stored key occupies (`SetStallsExactly`). Without a slot it waits for ever before it
  takes the lock (`NoSlotsNoEntries`); with one it holds the lock until some other `Set` pushes a
  token (`StalledUntilPush`, `PushReleases`).
- The tracker client hands the news of its connection to exactly one waiting `Scrape`. Nothing is
  read again without a `Stop` exactly in the states that `Silent` describes (`ReadsAgainExactly`,
  `SilentUntilStop`). A connection answer leads there exactly when no `Scrape` waits for it, no other
  loop reads and no call is about to start one (`AnswerSilencesExactly`, `EarlyConnectionIsSilent`),
  and a first packet that could not be sent leads there too (`UnsentRequestIsSilent`). All
  waiting `Scrape`s can be released without another answer exactly when there is a loop for each of
  them (`AllReleasedExactly`, `SecondWaiterIsLeft`).
- A torrent hash that is not hexadecimal, or too short to be cut to 20 bytes, blocks the updater's
  batch for ever once the batch is otherwise full (`OneBadHashBlocksForEver`,
  `BlockedExactlyByBadHash`), which can happen whenever a batch takes two torrents or more
  (`BlockIsReachable`).
- Six hours lie between the marks of two refreshes of a torrent, not between the scrapes, which may
  lag behind their marks (`SixHoursApart`, `LagIsLost`).
- The Bloom filter is saved without waiting for the handlers that still run. A restarted process can
  fetch again exactly the stored torrents that the file on disk lacks (`RestartForgetsExactly`,
  `AddAfterSaveRefetches`).
- The indexer does not read the answer to its bulk requests, so it acknowledges items that the search
  index refused (`RefusedIsAcknowledged`). The hash of an acknowledged message is in the index exactly
  when the index took some item for it (`AcknowledgedExactly`). Since updates are partial, an entry may
  mix the fields of several messages; each field is that of the latest one that has it
  (`IndexExactly`).
- A process that is being stopped fails its database checks: a request that the filter suspects can be
  committed exactly when it is past its check or the process is not being stopped, and the executor has
  room or a worker left (`FetchableExactly`).

In two places a comment or a test disagrees with the code, and the model follows the code. A comment
in the tracker client gives the size of a scrape answer as 16 + 20n bytes; the code reads 8 + 12n of
them. `decode_test.go` expects an ordered map, which the decoder does not return.

## Model

| member | source | states |
|---|---|---|
| `Decimal.AtoiItoa` | common/bencode/encode.go:19-23 | every `int` written by the encoder is read back as itself |
| `Decimal.AtoiExactly` | common/bencode/decode.go:80-98 | a text is read as n if and only if it is a sign that suits n, some zeros and the digits of n, within 64 bits |
| `Decimal.LeadingDigit` | common/bencode/decode.go:80-98 | the first digit is the most significant one |
| `Base.MostSignificantFirst` | common/bittorrent/core.go:94-96 | numbers on the wire begin with their most significant byte |
| `ByteOrder.LessExactly` | common/bencode/encode.go:39-43 | a key comes before another if and only if it is a proper prefix of it or has the smaller byte where they first differ |
| `ByteOrder.SortStrings` | common/bencode/encode.go:39-43 | sorting a listing of distinct keys gives all of them, each before the next in the byte-wise order, whatever order they come in |
| `ByteOrder.AscendingUnique` | common/bencode/encode.go:39-43 | a set of keys has at most one ascending listing |
| `BencodeEncode.WriteInt` | common/bencode/encode.go:19-23 | appends exactly the text of the integer |
| `BencodeEncode.WriteBytes` | common/bencode/encode.go:25-35 | appends length, colon and bytes, for strings and byte slices alike |
| `BencodeEncode.CollectKeys` | common/bencode/encode.go:39-42 | every key once, in an arbitrary order |
| `BencodeEncode.WriteMap` | common/bencode/encode.go:37-54 | succeeds exactly when every value is encodable, and then appends the canonical text; on failure what was written stays |
| `BencodeEncode.WriteList` | common/bencode/encode.go:80-90 | the same for lists |
| `BencodeEncode.WriteAny` | common/bencode/encode.go:56-78 | the same for every value |
| `BencodeEncode.BEncode` | common/bencode/encode.go:10-17 | the canonical text, or an error exactly when some nested value has an unsupported type; independent of the map iteration order |
| `BencodeDecode.DecodeBytes` | common/bencode/decode.go:76-91 | at a digit it never panics, and the string read lies within the buffer |
| `BencodeDecode.DecodeInt` | common/bencode/decode.go:93-100 | never panics; the offset is at most one past the end |
| `BencodeDecode.DecodeAny` | common/bencode/decode.go:17-33 | terminates for every buffer and position; on success the offset is past the position and at most 2*len - pos |
| `BencodeDecode.RunDecodeBytes` | common/bencode/decode.go:76-91 | the scanning loop computes `DecodeBytes` |
| `BencodeDecode.RunDecodeInt` | common/bencode/decode.go:93-100 | the scanning loop computes `DecodeInt` |
| `BencodeDecode.RunDecodeAny` | common/bencode/decode.go:17-33 | the dispatch computes `DecodeAny` |
| `BencodeDecode.RunDecodeList` | common/bencode/decode.go:35-47 | the loop computes the items up to the end mark or the end of the buffer |
| `BencodeDecode.RunDecodeDict` | common/bencode/decode.go:49-69 | the loop with its alternating keys and values computes `DecodeDict`: last duplicate wins, a dangling key is dropped, a non-bytes key panics |
| `BencodeDecode.BDecode` | common/bencode/decode.go:8-11 | the first value of the buffer, or its error or panic |
| `BencodeDecode.BDecodeDict` | common/bencode/decode.go:13-15 | decodes from the second byte on without looking at the first |
| `BencodeParse.DecodeIsParse` | common/bencode/decode.go:17-100 | the index-based decoder at any position equals a reference parser that sees only the rest of the text |
| `BencodeLaws.RoundTrip` | common/bencode/decode.go:17-100 | decoding an encoding, whatever follows it, gives the value with strings read as bytes and stops exactly at its end |
| `BencodeLaws.DictRoundTrip` | common/bencode/decode.go:13-15 | the same through `BDecodeDict` |
| `BencodeLaws.DecodeLocal` | common/bencode/decode.go:35-100 | a decoding that ends inside the buffer depends on the consumed bytes alone: any other prefix and suffix give the same value and length |
| `BencodePanics.PanicsExactlyOnKeys` | common/bencode/decode.go:59-61 | the decoder panics if and only if it arrives, at any depth, at a dictionary key that is not a byte string |
| `BencodePanics.DictPanicsExactlyOnKeys` | common/bencode/decode.go:13-15 | the same for `BDecodeDict`, at any position |
| `BencodePanics.OverrunExactly` | common/bencode/decode.go:17-100 | a decoded item ends inside the buffer exactly when all its levels are closed, and otherwise as many bytes past the end as levels are still open |
| `BencodePanics.DictOverrunExactly` | common/bencode/decode.go:13-15 | the same for `BDecodeDict`; of the empty buffer it reports the offset 2 |
| `BencodePanics.OpenListsOverrun` | common/bencode/decode.go:38-46 | the bound 2*len - pos of `DecodeAny` is attained, by lists that are opened and never closed |
| `BencodeCanonical.EncodeInjective` | common/bencode/encode.go:56-78 | values with equal encodings are equal up to string/bytes |
| `BencodeCanonical.PrefixFree` | common/bencode/encode.go:56-78 | no encoding is a proper prefix of another |
| `BencodeCanonical.KeysAscend` | common/bencode/encode.go:37-54 | the text of a dictionary lists every key exactly once, each before the next in the byte-wise order |
| `BencodeCanonical.ReEncode` | common/bencode/encode.go:10-17 | encoding what was decoded from an encoding gives the same bytes |
| `BencodeCanonical.DecodeEncodeDecode` | common/bencode/decode.go:17-33 | whatever text a value was decoded from, its encoding decodes to that very value |
| `BencodeTexts.AcceptsExactly` | common/bencode/decode.go:17-100 | decoding gives a value and ends inside the buffer if and only if a well-formed text with that meaning stands there: numbers as `Atoi` takes them, exact string lengths, byte strings as keys, the last value of a repeated key, a key without a value ignored |
| `BencodeTexts.ReadAsClosed` | common/bencode/decode.go:38-46 | a text that runs into the end of the buffer is read as if all that is open were closed there |
| `BencodeTexts.AnyTagWillDo` | common/bencode/decode.go:13-15 | `BDecodeDict` reads a dictionary whatever byte stands in place of its tag |
| `BencodePath.GetByPath` | common/bencode/util.go:46-64 | the loop along the parts of the path computes `Walk` |
| `BencodePath.CheckMapPath` | common/bencode/util.go:75-93 | true exactly when `GetByPath` finds something |
| `BencodePath.GetInt` | common/bencode/util.go:20-31 | the integer at the path, or 0 and false |
| `BencodePath.SplitExactly` | common/bencode/util.go:46-50 | the parts of a path have no dots and give the path when joined with dots |
| `BencodePath.JoinSplits` | common/bencode/util.go:46-50 | and they are the only such parts |
| `BencodePath.WalkIsLookupUnlessOvershot` | common/bencode/util.go:55-61 | the walk is nested lookup exactly when the path does not go one part past a leaf; then it answers with that leaf |
| `MetadataExchange.BitTorrent.SendMessage` | common/bittorrent/core.go:94-107 | a four-byte length and the message, in two writes either of which may fail |
| `MetadataExchange.BitTorrent.RunReadMessage` | common/bittorrent/core.go:299-314 | reads one length-prefixed message or fails |
| `MetadataExchange.BitTorrent.RunReadExtMessage` | common/bittorrent/core.go:316-330 | the unbounded loop terminates on every finite stream and returns the next extension message |
| `MetadataExchange.BitTorrent.RunHandshake` | common/bittorrent/core.go:154-193 | sends the greeting and accepts exactly a peer with the protocol name and the extension bit |
| `HonestPeer.GreetingExactly` | common/bittorrent/core.go:154-193 | a greeting passes if and only if it has the protocol's name and the extension bit; it is 68 bytes long then |
| `MetadataExchange.ReadExt` | common/bittorrent/core.go:215-232 | accepted sizes are within the limit and the number of pieces is the size divided by the piece length, rounded up |
| `HonestPeer.ExtExactly` | common/bittorrent/core.go:215-232 | an extension handshake passes if and only if it has id 0, a dictionary, both numbers and a size of at most 10,000,000; and exactly when it panics |
| `HonestPeer.PiecesHoldText` | common/bittorrent/core.go:231 | the number of pieces is the least number of 16384 bytes each that hold the text |
| `MetadataExchange.BitTorrent.RunExtHandshake` | common/bittorrent/core.go:195-233 | offers `ut_metadata` and reads the peer's answer, with its errors and panics |
| `MetadataExchange.BitTorrent.RequestPiece` | common/bittorrent/core.go:253-268 | sends the request for one piece under the low byte of the peer's id |
| `MetadataExchange.ReadPieceMessage` | common/bittorrent/core.go:276-296 | an accepted piece is the tail of its message and at most 16384 bytes long |
| `HonestPeer.PieceExactly` | common/bittorrent/core.go:276-296 | a data message passes if and only if its id is not 0, its dictionary ends inside it and has type 1, and at most 16384 bytes follow, which are the piece |
| `MetadataExchange.BitTorrent.RunReadPiece` | common/bittorrent/core.go:270-297 | header and trailer of the next data message, with the panics on an empty message and an overrun offset |
| `MetadataExchange.BitTorrent.RunRequestPieces` | common/bittorrent/core.go:235-251 | all requests in order, then as many pieces |
| `MetadataExchange.CopyAt` | common/bittorrent/core.go:139 | Go's `copy` into the middle of the buffer, cut off at its end |
| `Reassembly.PlaceExactly` | common/bittorrent/core.go:139 | a piece goes to its place byte by byte, is cut off at the end and touches nothing else; the panic exactly out of range |
| `MetadataExchange.BitTorrent.CopyPieces` | common/bittorrent/core.go:137-140 | the pieces in place over the buffer, or a panic for an offset out of range |
| `MetadataExchange.BitTorrent.GetMetadata` | common/bittorrent/core.go:119-152 | the whole exchange; every panic comes back as an error |
| `Reassembly.ReassembleAnyOrder` | common/bittorrent/core.go:133-140 | one piece per index in any order rebuilds the text exactly, its short last piece included |
| `HonestPeer.NextSignal` | common/bittorrent/core.go:316-330 | empty and foreign frames before an extension message are skipped and nothing else is |
| `HonestPeer.HonestPeerDelivers` | common/bittorrent/core.go:119-330 | for every dictionary within the limit and every honest peer, in any order of pieces and with any frames between them, the exchange returns that dictionary |
| `HonestPeer.HonestPeerExists` | common/bittorrent/core.go:195-297 | every text within the limit has an honest peer |
| `HonestPeer.OnlyHashedMetadata` | common/bittorrent/core.go:141-151 | whatever the peer sends, a returned dictionary was decoded from as many bytes as the peer announced, and they hash to the info hash |
| `HonestPeer.SentOnSuccess` | common/bittorrent/core.go:154-268 | on success exactly the 68 bytes of the greeting were sent and then frames: `20, 0` with the dictionary of our offer, and for each piece in order `20`, the low byte of the id the peer announced, and the dictionary with type 0 and the index |
| `HonestPeer.HonestPeerIsAsked` | common/bittorrent/core.go:235-268 | for every honest exchange that is so with the peer's own size and its own id |
| `HonestPeer.OwnGreetingAccepted` | common/bittorrent/core.go:154-193 | a peer that runs the same code accepts the greeting |
| `HonestPeer.RequestUnderstood` | common/bittorrent/core.go:253-261 | a request is `20`, the peer's id and a dictionary that decodes to type 0 and the index alone, for every `int` |
| `Cache.StepKeepsTokenLaw` | common/util/cache.go:44-100 | tokens + evictions = entries + Sets in flight + overwrites + unfinished delete, kept by every atomic step in both modes |
| `Cache.StepKeepsTimers` | common/util/cache.go:50-60 | every stored entry keeps a timer that runs or whose callback is waiting |
| `Cache.RunKeepsInv` | common/util/cache.go:44-100 | both, and the size bounds, over every interleaving |
| `Cache.ValueIsLastStored` | common/util/cache.go:44-76 | in every run a stored value is the one the last Set of its key stored |
| `Cache.TokensInOrder` | common/util/cache.go:44-100 | in every run the channel is first-in first-out: it holds the keys pushed, in order, without as many of the first as were taken |
| `Cache.OldestIsTaken` | common/util/cache.go:47-99 | an eviction and a delete take the token of the oldest push that has not been taken |
| `Cache.EvictsOnlyWhenFull` | common/util/cache.go:45-47 | in every run evictions follow Sets that saw the channel full, in non-blocking mode |
| `Cache.SetEvictsOldest` | common/util/cache.go:44-61 | an uncontended Set into a full cache removes exactly the key of the oldest push not taken and adds its own |
| `Cache.TimersStayOwn` | common/util/cache.go:92-98 | in every run without overwrites the running timers are those of the stored entries |
| `Cache.StaleTimerDeletes` | common/util/cache.go:51-60 | the timer of an overwritten value goes on running and deletes the value that replaced it |
| `Cache.BlockingBounds` | common/util/cache.go:50-60 | blocking mode: entries <= tokens <= maxSize, no delete waits on an empty channel, and overwrites stay below maxSize |
| `Cache.FullCacheDrains` | common/util/cache.go:50-60 | blocking mode: every full cache gets room again without a new call, whatever Sets and deletes are in progress |
| `Cache.SetStallsExactly` | common/util/cache.go:44-61 | an uncontended non-blocking Set goes through exactly when the cache has a slot and not a single one that a stored key occupies; in the latter case it stalls in its own delete |
| `Cache.StalledUntilPush` | common/util/cache.go:92-100 | a delete that waits on the empty channel keeps the lock and the entries in every run without a push |
| `Cache.PushReleases` | common/util/cache.go:50 | the next push of any key lets it finish |
| `Cache.SecondSetStalls` | common/util/cache.go:44-50 | two Sets into a non-blocking cache of size one reach a stalled delete |
| `Cache.NonBlockingUnbounded` | common/util/cache.go:44-61 | non-blocking Sets make the map of any cache with a slot larger than any bound |
| `Cache.UnboundedExactly` | common/util/cache.go:44-100 | the map can outgrow every bound if and only if the cache is non-blocking and has a slot |
| `Cache.NoSlotsNoEntries` | common/util/cache.go:44-50 | without slots nothing is ever stored and no eviction ever gets a token, in every run |
| `Cache.LRWCache.SetCheck` | common/util/cache.go:45-46 | non-blocking and full |
| `Cache.LRWCache.SetEvict` | common/util/cache.go:47 | takes the head token |
| `Cache.LRWCache.SetPush` | common/util/cache.go:50 | pushes the key's token, outside the lock |
| `Cache.LRWCache.SetStore` | common/util/cache.go:51-60 | stores the entry with a new timer; an overwritten entry's timer goes on running |
| `Cache.LRWCache.GetAndRemove` | common/util/cache.go:78-84 | returns and removes the entry and one token and keeps the invariant; stalls exactly when there is an entry but no token, which blocking mode rules out |
| `Cache.LRWCache.DeleteEntry` | common/util/cache.go:92-98 | removes the entry and stops its own timer; nothing for an absent key |
| `Cache.LRWCache.DeleteToken` | common/util/cache.go:99 | takes the head token, whosever it is |
| `Cache.LRWCache.TimerCallback` | common/util/cache.go:54-58 | deletes whatever entry the key has by then |
| `Scrape.RequestSlots` | common/bittorrent/tracker/udp.go:89-104 | the request carries the connection id, action 2, its transaction id and the i-th hash in the i-th slot, a short one filled up from its spare capacity |
| `Scrape.AnswerIsRead` | common/bittorrent/tracker/udp.go:209-219 | every list of seeders, completed and leechers per hash, written out in four bytes each with anything behind it, is read back as that list |
| `Scrape.ReadIsAnswer` | common/bittorrent/tracker/udp.go:209-219 | whatever is read is what the answer says, word for word |
| `Scrape.Results` | common/bittorrent/tracker/udp.go:209-219 | results for all hashes, or none exactly when the answer is too short |
| `Scrape.ScrapesMatch` | common/bittorrent/tracker/udp.go:203-222 | in every run every batch was read from a packet of the run that came under the id of an issued Scrape after that had stored its hashes, and pairs its i-th hash with the i-th triple; no Scrape and no packet yields two batches; at most QueueSize are outstanding |
| `Scrape.BatchTellsAnswer` | common/bittorrent/tracker/udp.go:78-222 | in every run every batch is the answer to a Scrape byte for byte: issued, stored, then a packet with action 2, its id and the batch's counts, one triple for each of its hashes in order |
| `Scrape.TraceIsRun` | common/bittorrent/tracker/udp.go:141-174 | the positions and packets that batches refer to are those of the run |
| `Scrape.AnswerIsDelivered` | common/bittorrent/tracker/udp.go:203-222 | an answer for at most 170 hashes under the id of an outstanding Scrape is delivered as the next batch with exactly its counts, and the loop reads on |
| `Scrape.EveryScrapeAccounted` | common/bittorrent/tracker/udp.go:78-222 | in every run every Scrape is exactly one of starting, outstanding, answered, lost |
| `Scrape.DistinctIdsNeverDisplace` | common/bittorrent/tracker/udp.go:93-105 | with distinct outstanding ids no Scrape displaces another |
| `Scrape.UnknownIdIgnored` | common/bittorrent/tracker/udp.go:204-208 | an answer under an unknown id changes nothing |
| `Scrape.LoopEndsExactly` | common/bittorrent/tracker/udp.go:141-188 | exactly which packets end a receive loop, and exactly which make it hand over a connection, with which id |
| `Scrape.TooManyHashes` | common/bittorrent/tracker/udp.go:143-153 | with more than 170 hashes the 2048-byte buffer makes every answer too short, and the loop ends |
| `Scrape.ReadsAgainExactly` | common/bittorrent/tracker/udp.go:64-188 | from any state some run without `Stop` has a loop reading again, unless the socket is open, no loop reads or is about to start, and no loop that hands over can find a Scrape to hand to |
| `Scrape.AnswerSilencesExactly` | common/bittorrent/tracker/udp.go:176-188 | after a connection answer something is read again without `Stop` exactly when a Scrape was waiting, another loop was reading or a call was about to start one |
| `Scrape.EarlyConnectionIsSilent` | common/bittorrent/tracker/udp.go:53-62 | connecting before the first Scrape reaches a state from which nothing is read |
| `Scrape.SilentUntilStop` | common/bittorrent/tracker/udp.go:78-131 | in such a state no run without `Stop` delivers a batch, frees a loop or releases a Scrape |
| `Scrape.StopReleases` | common/bittorrent/tracker/udp.go:64-70 | `Stop` and the next Scrape release a loop that hands over, with two loops reading from then on |
| `Scrape.UnsentRequestIsSilent` | common/bittorrent/tracker/udp.go:122-130 | a connection request that could not be sent leads to such a state |
| `Scrape.WaitersNeedAnswers` | common/bittorrent/tracker/udp.go:86-88 | from any state, without another connection answer the number of waiting Scrapes less the loops that hand over never falls |
| `Scrape.HandoversPossible` | common/bittorrent/tracker/udp.go:176-188 | as many Scrapes can be released as there are both waiting Scrapes and loops that hand over |
| `Scrape.AllReleasedExactly` | common/bittorrent/tracker/udp.go:86-88 | all waiting Scrapes can be released without another answer if and only if there are no more of them than loops that hand over |
| `Scrape.SecondWaiterIsLeft` | common/bittorrent/tracker/udp.go:86-88 | of two Scrapes that wait for one connection one is left waiting although the connection is there |
| `Scrape.UDPTracker.BuildRequest` | common/bittorrent/tracker/udp.go:89-104 | builds the request; panics exactly on a hash whose capacity is below 20 bytes |
| `Scrape.UDPTracker.HandleScrape` | common/bittorrent/tracker/udp.go:203-222 | removes the stored hashes and delivers their results, or fails on a short answer |
| `Indexer.SettleExactly` | indexer/internal/svc/indexer.go:153-159 | an answer with `multiple` for the last message of the batch settles exactly the batch |
| `Indexer.RunKeeps` | indexer/internal/svc/indexer.go:131-168 | conservation, order of tags, batch contents and answered-before-acknowledged, over every run with malformed messages, failed bulks, refused items, lost acknowledgements and crashes |
| `Indexer.NothingLost` | indexer/internal/svc/indexer.go:131-168 | every published message is in exactly one of queue, unacknowledged, settled, dropped; none is settled more often than it was in an answered bulk; dropped ones are malformed |
| `Indexer.BulksAreFull` | indexer/internal/svc/indexer.go:148-149 | every bulk is a full batch, and goes out exactly when a message fills it |
| `SearchIndex.ItemsInOrder` | indexer/internal/svc/indexer.go:178-182 | the items that were taken stand in the order of the batch |
| `SearchIndex.KeysExactly` | indexer/internal/svc/indexer.go:178-183 | after any updates a hash has an entry exactly if it had one or some update was for it |
| `SearchIndex.FieldsExactly` | indexer/internal/svc/indexer.go:178-183 | a field of an entry is there exactly if the document of some update for the hash had it, with its value in the latest such document |
| `SearchIndex.MarkedAsIndexed` | indexer/internal/svc/indexer.go:179 | every entry has `search_updated` equal to `true` |
| `Indexer.RunPuts` | indexer/internal/svc/indexer.go:131-187 | the index after any run is the one before with the items that its bulks had taken laid over it, in order |
| `Indexer.IndexExactly` | indexer/internal/svc/indexer.go:174-187 | in every run entries, fields and values of the index are exactly those of the documents of the items taken, the latest with a field deciding, and `search_updated` is `true` in all |
| `Indexer.NothingInvented` | indexer/internal/svc/indexer.go:174-187 | every field of every entry but `search_updated` is that of a published message that was sent, the latest taken one for the hash whose document has the field |
| `Indexer.AcknowledgedExactly` | indexer/internal/svc/indexer.go:150-187 | a message acknowledged after a bulk was taken or refused, and its hash is in the index if and only if some bulk had an item with that hash taken |
| `Indexer.AcknowledgedIsIndexed` | indexer/internal/svc/indexer.go:150-163 | in every run in which no item is refused, whatever was acknowledged after a bulk is in the index |
| `Indexer.RefusedIsAcknowledged` | indexer/internal/svc/indexer.go:183-187 | a refused item is acknowledged although it is not in the index |
| `Indexer.FailureReturnsBatch` | indexer/internal/svc/indexer.go:150-156 | a failed bulk, applied or not, returns the whole batch and nothing else to the queue |
| `Indexer.NeverStalls` | indexer/internal/svc/indexer.go:89 | at every loop head the unacknowledged processed messages are the batch and leave room in the prefetch window for any queued message |
| `Indexer.RunIsBounded` | indexer/internal/svc/indexer.go:131-168 | delivering and processing terminates; the remaining work bounds the steps |
| `Indexer.QuietMeansDrained` | indexer/internal/svc/indexer.go:131-168 | when nothing is left to do, all that is not settled or dropped is a batch that is not full |
| `Indexer.IndexerService.BatchSaveToIndex` | indexer/internal/svc/indexer.go:174-187 | lays the fields of every item the index takes over the stored ones, in order and marked as indexed; reports a failure exactly if the request failed, however much of it was applied or refused |
| `Indexer.IndexerService.FlushBatch` | indexer/internal/svc/indexer.go:149-165 | acknowledges or requeues up to the delivery's tag and empties the batch |
| `Indexer.IndexerService.HandleDelivery` | indexer/internal/svc/indexer.go:137-166 | the loop body is one step of the state machine |
| `Bloom.AddedIsFound` | common/util/bloom.go:63-87 | no false negatives: an addition is found and hides no earlier one |
| `Bloom.FoundExactly` | common/util/bloom.go:63-116 | after any additions to a new filter an element is found if and only if each of its seven hashes, of the data and the index, meets one of something added |
| `Bloom.LoadSaved` | common/util/bloom.go:34-106 | loading what was saved gives the same filter |
| `Bloom.SavedLayout` | common/util/bloom.go:89-101 | bits, additions, locations and bitmap stand in the file in that order, big-endian |
| `Bloom.LoadedFits` | common/util/bloom.go:34-61 | whatever file is loaded, the size and the count are 64-bit numbers |
| `Bloom.BloomFilter.GetLocations` | common/util/bloom.go:108-116 | the k locations; panics exactly when the filter has no bits |
| `Bloom.BloomFilter.Add` | common/util/bloom.go:63-73 | adds the k locations and counts, with 64-bit wrap-around; with no bits it panics unless k is 0, and then only counts |
| `Bloom.BloomFilter.Exists` | common/util/bloom.go:75-87 | true exactly when all k locations are set; with no bits it panics unless k is 0 |
| `Bloom.BloomFilter.Save` | common/util/bloom.go:89-106 | header and bitmap |
| `Bloom.BloomFilter.Load` | common/util/bloom.go:34-61 | the filter in the file, or nothing exactly when the header is short or the bitmap does not parse |
| `Fetcher.NeverWronglySuppressed` | crawler/internal/svc/torrent_fetcher.go:142-191 | in every run every request of the process whose hash the database lacks is in the hands of its caller, the check channel or the executor, or was dropped for a full queue or lost to a database error; everything added to the filter is in the database |
| `Fetcher.RunOrderly` | crawler/internal/svc/torrent_fetcher.go:142-262 | in every run places and queues agree, no request is in two hands, both queues keep their bounds and every task in work has its worker |
| `Fetcher.QueuesInOrder` | crawler/internal/svc/torrent_fetcher.go:142-191 | in every run of a process both queues are first-in first-out |
| `Fetcher.AdditionsCounted` | crawler/internal/svc/torrent_fetcher.go:172-174 | the filter counts every torrent fetched and every hash the database knew |
| `Fetcher.OnlyErrorsLose` | crawler/internal/svc/torrent_fetcher.go:165-171 | without a failed database check no request is lost |
| `Fetcher.FetchableExactly` | crawler/internal/svc/torrent_fetcher.go:107-191 | a waiting request whose hash the database lacks can still be committed by the process if and only if it is past its check or the process is not being stopped, and the executor has room or a worker left |
| `Fetcher.CanStillBeFetched` | crawler/internal/svc/torrent_fetcher.go:142-191 | in that case without new requests or failing checks |
| `Fetcher.CancelledIsLost` | crawler/internal/svc/torrent_fetcher.go:107-109 | once the process is being stopped a request before its check waits on or is lost |
| `Fetcher.NeverFetchedAgain` | crawler/internal/svc/torrent_fetcher.go:107-129 | once a torrent is stored, its hash added and the filter saved after that, no Push of it since the addition is committed in any later run, over any restarts |
| `Fetcher.RestartForgetsExactly` | crawler/internal/svc/torrent_fetcher.go:74-90 | after a restart some run commits a stored hash again exactly when the executor's queue has room for anything and the file, if there is one, lacks the hash |
| `Fetcher.AddAfterSaveRefetches` | crawler/internal/svc/torrent_fetcher.go:107-129 | a hash added by a handler that outlives the save is fetched again after the restart |
| `Fetcher.TorrentFetcher.New` | crawler/internal/svc/torrent_fetcher.go:59-95 | starts with a new filter or the one on disk, and fails exactly when the file does not load |
| `Fetcher.TorrentFetcher.Stop` | crawler/internal/svc/torrent_fetcher.go:107-129 | cancels the checks and then puts the filter of the moment on disk, with the handlers still running |
| `Fetcher.TorrentFetcher.PushRequest` | crawler/internal/svc/torrent_fetcher.go:142-149 | a hash the filter knows goes to the check, or waits with its caller exactly when the channel is full; any other is committed |
| `Fetcher.TorrentFetcher.CheckExist` | crawler/internal/svc/torrent_fetcher.go:156-175 | known hashes are added to the filter, unknown ones go on to the commit, errors lose the request |
| `Fetcher.TorrentFetcher.CommitRequest` | crawler/internal/svc/torrent_fetcher.go:179-191 | enqueued, or dropped when the executor's queue is full |
| `Fetcher.TorrentFetcher.HandleTorrent` | crawler/internal/svc/torrent_fetcher.go:239-262 | stored first, added to the filter only after a successful publish |
| `Updater.BatchesInOrder` | tracker/internal/svc/tracker.go:120-146 | for every sequence of messages, failures and panics included, the scraped batches followed by the current batch are the accepted messages in order, and every scraped batch has exactly the limit and only hashes that decode and can be cut |
| `Updater.DecodesExactly` | tracker/internal/svc/tracker.go:132-135 | a hash decodes if and only if it has an even number of characters, all hexadecimal digits, small or capital |
| `Updater.HexRoundTrip` | tracker/internal/svc/tracker.go:132-135 | every hash survives its hexadecimal text |
| `Updater.OneBadHashBlocksForEver` | tracker/internal/svc/tracker.go:128-145 | a full batch with a hash that is not hexadecimal or too short accepts no later message |
| `Updater.BlockedExactlyByBadHash` | tracker/internal/svc/tracker.go:126-145 | some message is accepted exactly when there is room or every hash of the batch is hexadecimal and can be cut to 20 bytes |
| `Updater.BlockIsReachable` | tracker/internal/svc/tracker.go:126-127 | from the start the block can be reached exactly when the limit is at least two |
| `Updater.TrackerUpdater.HandleNewTorrent` | tracker/internal/svc/tracker.go:120-146 | accepts, refuses or panics as specified, and scrapes the decoded hashes of the full batch in order |
| `Pacing.OneToken` | tracker/internal/svc/tracker.go:95-118 | in every run exactly one token circulates, so no send blocks and no two refreshes overlap |
| `Pacing.SixHoursApart` | tracker/internal/svc/tracker.go:209-281 | two refreshes of a torrent are marked at least six hours apart; the scrapes too, but for the lag of the earlier one |
| `Pacing.LagIsLost` | tracker/internal/svc/tracker.go:264-280 | the bound is tight: for every lag up to six hours some run has its scrapes six hours apart less exactly that lag |
| `Pacing.OnlyRefreshesMark` | tracker/internal/svc/tracker.go:264-272 | in every run the time of a torrent's last try stays unless a refresh with that torrent marked it, at that time |
| `Pacing.RefreshLoop.GetRecords` | tracker/internal/svc/tracker.go:209-236 | due torrents only, each once, oldest first, and none left out that is older, up to the limit |
| `Pacing.RefreshLoop.RefreshTracker` | tracker/internal/svc/tracker.go:238-281 | marks the due torrents and no others, scrapes them, and gives the token back: at once exactly if something was due, else delayed; failures change nothing else |
| `Recovery.Recoverer.Find` | tracker/internal/svc/tracker.go:285-290 | distinct never-tried records, all of them or as many as the limit |
| `Recovery.Recoverer.PublishAll` | tracker/internal/svc/tracker.go:297-309 | publishes in order up to the first failure, and stops only for one |
| `Recovery.Recoverer.Recover` | tracker/internal/svc/tracker.go:283-325 | terminates; without failures it returns normally; a normal return has published every never-tried record exactly once and left none; after a failure the marked ones were published exactly once and the rest at most once; records already tried keep their time |
| `Recovery.MarkShrinks` | tracker/internal/svc/tracker.go:310-318 | marking a batch strictly shrinks the never-tried records by exactly that batch |
| `Proxy.SurvivesExactly` | proxy/internal/protocol/protocol.go:47-87 | a packet that fits comes out of the stream unchanged exactly when it has an address without a zone |
| `Proxy.WireLayout` | proxy/internal/protocol/udp.go:13-32 | the nine bytes of the header, then the address, then the payload, each at its place |
| `Proxy.ReadExactly` | proxy/internal/protocol/protocol.go:62-87 | of any bytes, exactly when a packet is read, which one, and exactly when the read panics |
| `Proxy.ServerReadsExactly` | proxy/internal/handler/udp.go:93-108 | the server reads a packet of up to twice its buffer, which doubles for it, and panics on a longer one |
| `Proxy.ClientReadsExactly` | proxy/internal/client/udp.go:45-65 | the client reads a packet that fits its slice and panics on a longer one |
| `Proxy.CutPacketIsError` | proxy/internal/protocol/udp.go:34-46 | a packet of which any byte is missing is an error, never another packet |
| `Proxy.PrefixReadsPrefix` | proxy/internal/client/udp.go:45-93 | reading any prefix of the written bytes yields exactly the packets that arrived completely, in order |
| `Proxy.CrashesExactlyWhenTooLong` | proxy/internal/handler/udp.go:99-103 | the reading loop crashes exactly when some packet does not fit the buffer, doubled at most once for it |
| `Proxy.AtMostFourDrops` | proxy/internal/handler/udp.go:127-137 | the growing buffer drops at most four datagrams in any run |
| `Proxy.ForwardedExactly` | proxy/internal/handler/udp.go:127-137 | each datagram in turn is forwarded unchanged behind those before it if it is shorter than the buffer, doubled once per drop so far, and dropped otherwise |
| `Proxy.ClientReadsForwarded` | proxy/internal/handler/udp.go:123-157 | the client reads the forwarded datagrams whole and in order |
| `Proxy.UDPConn.SetAddr` | proxy/internal/protocol/protocol.go:47-60 | address kind, length and port; version and length stay |
| `Proxy.UDPConn.WriteTo` | proxy/internal/client/udp.go:68-93 | appends header, address and payload, whatever the reused header held before |
| `Proxy.UDPConn.ReadFrom` | proxy/internal/client/udp.go:45-65 | the next packet, an error or a panic, as `ReadPacket` says |
| `Proxy.UDPConn.SendLoop` | proxy/internal/handler/udp.go:88-121 | the loop forwards exactly the packets `ReadAll` finds, and stops at the first one the socket does not take |
| `Proxy.UDPConn.ReceiveLoop` | proxy/internal/handler/udp.go:123-157 | writes exactly the datagrams shorter than the buffer of the moment |

## Left out

- Sockets, deadlines, dialing, proxies, gRPC, generated code, configuration and service wiring.
- MongoDB, Elasticsearch and the AMQP transport beyond a map, an index of partial updates and a broker with tags; the asynchronous `search_updated` write of the indexer.
- SHA-1, murmur3 and the bitmap's file format: abstract functions, the last one a pair of inverses.
- Metrics, logging, tickers, and the conversion of metadata into torrent records.
- KRPC packets and the DHT crawler itself, the compact-node parser, search paging, the listing of torrents for the tracker in the ocean service.
- `GetString`, `GetList`, `MustGetBytes` and `decodeString`: one case split each over what is modelled.
- Overflow of `int` offsets in the decoder: offsets stay within twice the length of the buffer, so it would take a buffer of 2^62 bytes.
- The partial result and offset that the decoder returns together with an error; no caller looks at them.
- Time in the cache: when a timer fires is up to the environment, so that an entry lives for its whole TTL is not stated.
- The unbuffered result channel of the tracker client: a batch counts as delivered when the receive loop offers it, in one step with the look-up of its hashes.
- The write of a scrape request: an answer may come whether or not it succeeded.
- What lies behind the bytes that `hex.DecodeString` returns depends on the Go release; it is the parameter `spare`.
- That the message router recovers a panic of its handler and gives the message back is assumed of the library, which is not part of this model. A refresh whose hash cannot be cut ends the process, as any run may end.
- What a worker of the executor does with a task beyond giving up or storing, publishing and adding it.
- Merging inside a field of a document: the only field that can hold an object is `raw`, which nothing sets; the model replaces it whole.
- Flushing of the proxy's buffered writers: the model speaks of any prefix of the written bytes instead.
- Indexer.IndexerService.HandleDelivery: the broker's bookkeeping and the search index are one value in the field `world`, not separate objects.
- Fetcher.TorrentFetcher.PushRequest: one uncontended call; interleavings are in the state machine.
- Other writers of the time of the last try: refresh and recovery are modelled as the only ones; other processes may insert torrents during a refresh.
- Concurrent calls of `handleNewTorrent`: its subscriber hands over one message at a time.
- BencodeTexts.ReadAsClosed: one way only, because the bytes that would close a text could also belong to a string in it.
- The textual round trip of an address in the proxy client's `WriteTo`, and failing writes there.
- Negative values of the batch size, the tracker limit of the database queries and the cache size.

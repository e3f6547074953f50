# Sentry node: verified model

The node keeps recent blocks and transaction hashes in bounded least-recently-used (LRU) maps, answers
`GetBlockHeaders` and `GetBlockBodies` requests of Ethereum peers from them, falls back to internet peers, saves
and restores the block cache, and forwards each new transaction to its backends. This project models those parts
in Dafny and proves what they promise over every input, every run and every interleaving.

Check everything with `dafny verify dfyconfig.toml` (the proofs are written for a resource limit of 2000000).

## How the model is laid out

| file | what it holds |
|---|---|
| `Types.dfy` | 64-bit numbers, bytes, 32-byte hashes, headers, bodies |
| `Recency.dfy` | recency lists: bump, keys above a key, stack distance, the stack property |
| `Lru.dfy` | the LRU map, as a value (`Lru`) and as the object the node changes in place (`LruCache`) |
| `Dedup.dfy` | `TxDedup`, its answers over whole histories, and its atomic steps under concurrency |
| `BlockCache.dfy` | `BlockCache`: four LRU maps written together that evict independently |
| `Persistence.dfy`, `Restore.dfy` | the file format, printing and parsing it, saving and loading the cache |
| `Headers.dfy`, `HeaderProxy.dfy` | the header walk, and the proxy branch that caches a peer's reply |
| `HeaderWalk.dfy` | the same walk as a step machine, with operations of other tasks between its reads |
| `BodyMerge.dfy` | the filter, fetch and merge of `GetBlockBodies` as a step machine with imports between the steps |
| `BodyAlignment.dfy`, `BodyCapacity.dfy` | when the merged response, and the cache it leaves, is right: the exact condition for repeats with room, and for any capacity with distinct hashes |
| `BodyTurns.dfy` | the merge turn by turn: the exact condition for repeats and any capacity together |
| `BodyImports.dfy` | the exact condition when other tasks import requested hashes during the merge |
| `BodyResolve.dfy` | the whole branch from the first resolve on, with imports at any point, and when its answer is stale |
| `BodyRequests.dfy` | the same branch as the handler runs it over the cache object |
| `Forwarder.dfy` | the queue, the receive loop, permits and endpoint tasks as a step system, and the object that runs it to the end under any scheduler |
| `Validator.dfy` | the stateless checks and the 256-bit cost bound |

Objects the node changes in place are classes; every method that changes one says what its whole new state is, as
a function of the old one, and the lemmas are about those functions. `hide` keeps definitions out of the solver's
way in longer proofs.

## Modelling decisions

- The `lru` 0.12 crate is not in the repository. Its documented behaviour is modelled: `push` overwrites and moves
  to the front or evicts the least recent key, `get` and `promote` move a present key to the front, `peek`,
  `contains` and `iter` change nothing.
- A header is its number and one opaque field; a body is opaque. RLP coding is a parameter (`Codec`) with
  decode(encode(x)) = x and nothing else assumed, so decoders may accept other byte strings too. The header hash is
  a parameter function. Network calls are parameter functions from the request to an outcome, failure included.
- Length fields are real little-endian 32-bit fields, and writing one truncates to 32 bits as the code does; the
  round-trip lemmas say which lengths fit (`Saveable`).
- `new(0)` is kept as coded: the maps get capacity 256 while the stored capacity stays 0, so a load restores
  nothing. `Restore.SaveLoadSave` states when the round trip holds because of it.
- Several tasks share the block cache behind a mutex, one lock per call. In `BodyMerge` and
  `BodyResolve` each handler step is one locked call (or the network call), and block imports of other tasks may fall
  between any two steps; likewise in `HeaderWalk`.

## Where the code departs from what its comments and protocol promise

- The comment before the merge (src/eth_proxy.rs:135-140) says the reply is in the order of the missing hashes and
  is put back in request order. With a repeated missing hash it is not: a repeat is a cache hit and takes no body,
  so later hashes get the wrong body and it is cached under their hash. With room and an honest reply
  `AlignedIffNoEarlyRepeat` says exactly when the response is right and `CacheCorrectIffNoEarlyRepeat` that the cache
  is left right in exactly the same cases; `RepeatMisaligns` is an instance.
- For distinct hashes the merge's own inserts can evict a hash the filter counted as cached. `AlignedIffFits` gives
  the exact capacity condition, `CachesWrongIff` says exactly when a wrong body is cached on the way, and
  `SmallCacheMisfit` is an instance.
- For repeats and a too small cache together, `EveryTurnRightIff` says exactly when every turn of the merge answers
  the right body. Its condition, `OwnBody`, is a stack-distance count over the cached keys in their order and the
  request; no body and no run enters it. The list of bodies can come out right although a turn went wrong: in
  `WrongTurnsCanCancel` one body is given to the wrong hash and cached under it, and the hash it belongs to is evicted
  and goes unanswered.
- An import of a requested missing hash between its filtering and its turn in the merge shifts the reply in the same
  way. With j0 the first missing hash imported so early, the response is right exactly when the reply does not reach
  j0 or every later missing hash is imported early too (`RequestedImportsAlignedIff`, `NoShiftFrom`); for one early
  import, exactly when it is the last missing hash or the reply does not reach it (`OneEarlyImportAlignedIff`).
  `RequestedImportMisaligns` is an instance. Imports of other hashes do no harm while they fit
  (`MergeToleratesImports`).
- The answer without a fetch (src/eth_proxy.rs:114-117, 157-164) is the one of the first resolve. It is stale exactly
  when a hash the resolve had already missed was imported before the filter pass looked it up, be it still within the
  resolve, after it, or within the filter pass (`UnfetchedFreshIff`); in `ImportBeforeFilterIsStale` it is empty
  although everything requested is cached.
- The proxied header request drops `skip`, so a correct peer's reply is spaced as requested exactly when the skip is
  0 or at most one header comes back (`ResponseSpacedIff`). The sections "GetBlockHeaders (0x03)" and
  "GetBlockBodies (0x05)" of the Ethereum Wire Protocol (ETH) ask for the spacing and for request order.
- The same section asks for a start hash to be answered from the block of that hash. The code goes on from its number,
  so a non-empty answer starts with that block exactly when the last insert for the number carried it
  (`StartHashAnsweredIff`); `StartHashGetsSibling` is an instance with two blocks of one number.
- `latest()` (src/block_cache.rs:129) promises the highest cached block. It gives it exactly when both number maps
  have the same highest number (`LatestIsHighestIff`; `LatestIffRecent` says so in terms of the numbers each map
  touched). Reads by number make the maps evict differently, and then latest() can be None on a cache that holds
  headers (`LatestCanBeLostAfterReads`) or a lower block than one still held (`LatestCanBeLowerAfterReads`).
- A semaphore of 0 permits is accepted and then starves the loop as soon as something is accepted and there is an
  endpoint (`CompletesIff`, `NoPermitsNoCompletion`, `StuckIffStarved`).
- The header walk takes the lock once per read, so imports between its reads can make the answer longer than the
  capacity (`InterleavedWalkExceedsCapacity`), by at most the number of headers imported (`WalkUnderInterference`).

## Model

| member | source | states |
|---|---|---|
| LruMap.KeepsMostRecent | src/block_cache.rs:42-51 | over every history of push, get, promote and peek on a fresh LRU map, its keys are the last cap distinct touched keys in recency order, and each has the value last pushed for it |
| LruMap.PushOther | src/block_cache.rs:69-76 | a push of another key evicts a key exactly when cap keys would then be more recent than it |
| LruMap.LruCache.Push | src/dedup.rs:82 | overwrite and promote, insert, or evict the least recent key and no other |
| LruMap.LruCache.Get | src/block_cache.rs:95-97 | returns the value and promotes a hit; a miss changes nothing |
| LruMap.LruCache.Promote | src/dedup.rs:79 | moves a present key to the front and changes no value |
| Recency.StackDistance | src/dedup.rs:75-84 | a key is among the n most recent iff it occurred and fewer than n distinct keys followed it |
| Recency.TakeBump | src/dedup.rs:58-60 | the stack property: a bounded recency list is always a prefix of the unbounded one |
| Dedup.TxDedup.CheckAndInsert | src/dedup.rs:72-112 | true iff the hash never occurred or at least cache_size distinct others followed its last occurrence; exactly one of unique and duplicates grows by one |
| Dedup.SeenIsRecent | src/dedup.rs:75-85 | after any calls the cache is the last cache_size distinct hashes in recency order |
| Dedup.NewIffStackDistance | src/dedup.rs:75-85 | the stack-distance characterisation of every answer over every history |
| Dedup.SmallerCacheAcceptsMore | src/dedup.rs:56-91 | inclusion: a smaller cache is a recency prefix of a larger one and accepts all the larger accepts; the unique count never grows with cache_size |
| Dedup.FewHashesAcceptedOnce | src/dedup.rs:72-91 | with at most cache_size distinct hashes exactly the first arrivals are accepted |
| DedupConcurrency.CountersAndAnswers | src/dedup.rs:72-91 | in every interleaving of concurrent calls unique counts the calls that returned true, duplicates those that returned false, total = unique + duplicates + calls in flight, each answer is that of the calls run one after another in lock order, and with none in flight unique is the number of hashes those accept |
| DedupConcurrency.EveryCallReturns | src/dedup.rs:72-112 | every call returns with its third atomic step, whatever the others do in between |
| BlockCaches.NumberMapsAreCoherent | src/block_cache.rs:69-86 | in every reachable state each number map holds for n what the last insert for n put there, so a number in both carries the header and hash of one call |
| BlockCaches.IndexesAgree | src/block_cache.rs:69-117 | if a hash determines its header, the header found through a number's hash is the header found by the number |
| BlockCaches.ReachableNumbersMatch | src/block_cache.rs:69-86 | in every reachable state each header is held under its own number |
| BlockCaches.HashHeldIffRecent | src/block_cache.rs:69-117 | over every history a hash is held by headers_by_hash or bodies_by_hash iff its last push or successful get there was followed by fewer than capacity other hashes, with the value last pushed for it |
| BlockCaches.GetProtects | src/block_cache.rs:95-127 | a get that finds its key keeps it held in that map through any fewer than capacity further operations, for each of the four maps |
| BlockCaches.NumberMapsInLockstep | src/block_cache.rs:69-86 | without reads by number the two number maps hold the same numbers in the same order |
| BlockCaches.LatestFollowsTip | src/block_cache.rs:69-142 | with strictly increasing numbers latest() is exactly the last inserted hash and header, whatever gets and body inserts come between |
| BlockCaches.LatestWithoutNumberReads | src/block_cache.rs:130-142 | without reads by number latest() is None only without headers, and else the last insert for the largest held number |
| BlockCaches.LatestIsHighestIff | src/block_cache.rs:129-142 | in every state after a header-bearing insert, with n the highest number a header is held for, latest() is the last insert for n iff n is also the highest number in hash_by_number; else it is None, exactly when the header for that number is gone, or the last insert for a lower number |
| BlockCaches.LatestIffRecent | src/block_cache.rs:69-142 | over every history, latest() is the last insert for the highest held header's number n iff each number map touched n and fewer than capacity other numbers since, and did so for no higher number |
| BlockCaches.LatestCanBeLowerAfterReads | src/block_cache.rs:129-142 | capacity 2, insert 9, insert 1, read 9, insert 2: latest() is block 2 though header 9 is held |
| BlockCaches.LatestCanBeLostAfterReads | src/block_cache.rs:130-142 | capacity 2, insert 1, insert 5, read 1, insert 2: latest() is None though two headers are held |
| BlockCaches.BlockCache.constructor | src/block_cache.rs:54-66 | four empty maps, of capacity 256 when the configured capacity is 0 |
| BlockCaches.BlockCache.Insert | src/block_cache.rs:69-77 | pushes to all four maps |
| BlockCaches.BlockCache.InsertHeader | src/block_cache.rs:80-86 | pushes to the three header maps only |
| BlockCaches.BlockCache.InsertBody | src/block_cache.rs:89-92 | pushes to the body map only |
| BlockCaches.BlockCache.GetHeaderByHash | src/block_cache.rs:95-97 | returns the header and promotes in that one map |
| BlockCaches.BlockCache.GetHeaderByNumber | src/block_cache.rs:100-107 | returns the header and promotes in that one map |
| BlockCaches.BlockCache.GetBodyByHash | src/block_cache.rs:110-117 | returns the body and promotes in that one map |
| BlockCaches.BlockCache.GetHashByNumber | src/block_cache.rs:120-127 | returns the hash and promotes in that one map |
| BlockCaches.BlockCache.GetLatest | src/block_cache.rs:130-142 | the hash and header of the largest number in hash_by_number, if headers_by_number has it |
| Persistence.Le32Truncates | src/block_cache.rs:155-190 | a length field reads back as the length modulo 2^32 |
| Persistence.ParseWholeEntry | src/block_cache.rs:214-236 | a printed entry followed by anything parses back to its block and exactly that rest |
| Persistence.ParseCutEntry | src/block_cache.rs:214-236 | an entry cut short anywhere fails to parse |
| Persistence.ParsePrefix | src/block_cache.rs:196-207 | printed entries cut anywhere parse to exactly the whole entries, up to the count |
| Persistence.ParseEntryIff | src/block_cache.rs:214-236 | over all byte strings an entry is parsed iff they start with a hash and two length-prefixed fields that decode to its header and its body, and the rest is what follows |
| Persistence.LoadStopsAtDamage | src/block_cache.rs:187-207 | whole entries, then one whose header or body does not decode, then anything, with a higher count: exactly the entries before the damage, up to the capacity |
| Persistence.LoadTakesCount | src/block_cache.rs:187-207 | a count below the number of entries loads exactly that many, up to the capacity |
| Persistence.SavedFileLayout | src/block_cache.rs:144-172 | the count, the lengths, lowest byte first, and every hash, header and body lie at their exact offsets, and the file has no byte more |
| Persistence.DrainFacts | src/block_cache.rs:240-253 | a save takes exactly the blocks with hash, header and body present, once each, in strictly ascending number order |
| Restore.SavedIff | src/block_cache.rs:240-253 | in every reachable state a block is saved iff its number is mapped to its hash and header and its hash to its body |
| Restore.DrainBlocks | src/block_cache.rs:240-253 | the loop and sort yield that list |
| Restore.SaveToFile | src/block_cache.rs:148-176 | the bytes written are the count and the entries of that list |
| Restore.ReadBlockEntry | src/block_cache.rs:214-236 | reading through the file cursor is the parser, and leaves the cursor behind the entry |
| Restore.LoadFromFile | src/block_cache.rs:179-211 | a missing file is no error, one shorter than 4 bytes is, and both change nothing; else the blocks before the first bad entry are inserted, at most capacity of them |
| Restore.LoadedFromPrefix | src/block_cache.rs:187-207 | what a load takes from any prefix of at least 4 bytes of a saved file |
| Restore.TruncatedFileRecovery | src/block_cache.rs:179-236 | any prefix of at least 4 bytes restores exactly the blocks whose whole entries lie in it |
| Restore.LoadRestoresLowest | src/block_cache.rs:148-211 | loading into any capacity restores the first min(count, capacity) entries, the lowest-numbered |
| Restore.SaveLoadSave | src/block_cache.rs:148-211 | from every reachable cache save, load, save is the identity on bytes iff the configured capacity is not 0 or nothing was saved |
| Restore.StartupHead | src/block_cache.rs:179-211 | for every file of at least 4 bytes the number maps agree after the load, latest() is None iff nothing was loaded, and else the last loaded block of the largest number |
| Headers.ResolveHeadersFromCache | src/eth_proxy.rs:201-240 | the answer is the maximal run from the start number, which for a start hash is the number of the header cached under it; every map keeps its contents; exactly the start hash and the answered numbers are promoted, in order; at most capacity headers, and the loop body runs at most once more than that |
| Headers.AnswerInNumbers | src/eth_proxy.rs:201-240 | in plain arithmetic: header i is held under the first number ± i · (skip+1), at most limit of them, and the answer ends early only where the next number is not held or not a 64-bit number; an unknown start hash gets nothing |
| HeaderWalk.WalkUnderInterference | src/eth_proxy.rs:201-240 | with any operations of other tasks between the reads the answer is still numbered first ± i · (skip+1) and within the limit, each header was held at the start or inserted meanwhile, and there are at most capacity headers plus the headers inserted meanwhile |
| HeaderWalk.ReadsBounded | src/eth_proxy.rs:218-237 | under any interference the walk ends two reads after its last header at the latest |
| HeaderWalk.ReadPromotes | src/eth_proxy.rs:213-229 | under interference too, a read that finds a header makes its number the most recent, and so does a found start hash |
| HeaderWalk.QuietWalkAnswers | src/eth_proxy.rs:201-240 | without interference the answer is the maximal run |
| HeaderWalk.InterleavedWalkExceedsCapacity | src/eth_proxy.rs:218-237 | instance: capacity 1, header 5 read, header 6 imported and read: two headers |
| Headers.MaximalRunUnique | src/eth_proxy.rs:218-237 | only one list is that maximal run |
| Headers.WalkBounded | src/eth_proxy.rs:218-237 | no run of cached headers at distinct walk positions exceeds the capacity, for any limit |
| Headers.StartHashAnsweredIff | src/eth_proxy.rs:205-237 | in every reachable state a cached start hash is answered iff headers_by_number holds its number, and the answer starts with the header of the hash iff the last insert for that number carried it |
| Headers.StartHashGetsSibling | src/eth_proxy.rs:205-237 | two headers of one number under two hashes: a request for the first hash gets the second header |
| HeaderProxy.HandleGetBlockHeaders | src/eth_proxy.rs:27-88 | a non-empty cache answer is sent; else exactly the reply to the request for the same start, limit and direction, each header cached under its hash; else nothing; a response from a peer that starts where asked starts where requested; with a correct peer it is spaced as requested iff it came from the cache, the skip is 0 or it is at most one header |
| HeaderProxy.InsertHeadersRun | src/eth_proxy.rs:71-75 | every header of any reply is inserted, in order, under its own hash |
| HeaderProxy.CachedReplyAnswers | src/eth_proxy.rs:60-76 | for skip 0 and a correct reply within capacity and limit, the same request answered from cache starts with the reply, and equals it when the reply has limit headers |
| HeaderProxy.ResponseSpacedIff | src/eth_proxy.rs:33-77 | the handler's response, cached or the correct peer's reply to the proxied request, is spaced as requested iff it came from the cache, the skip is 0 or it is at most one header |
| BodyMerge.HandlerKeepsInv | src/eth_proxy.rs:109-153 | each step of filter and merge keeps the cache serving every requested hash as the answer needs, inside the working set |
| BodyMerge.ImportKeepsInv | src/block_import.rs:39-54 | an import of an unrequested hash of the working set keeps it too |
| BodyMerge.MergeTakesFirsts | src/eth_proxy.rs:145-152 | the merge takes a fetched body exactly at the first request of each missing hash, while any is left, and the one at the rank of the hash among the missing ones |
| BodyAlignment.FinishAnswers | src/eth_proxy.rs:109-155 | with room for the requested hashes the response is the closed form, for any reply and any repeats, and every answer is then cached under its hash |
| BodyAlignment.MergeAlignedUnderImports | src/eth_proxy.rs:109-155 | the closed form holds with imports of unrequested hashes at any points, while all fit |
| BodyAlignment.MergeToleratesImports | src/eth_proxy.rs:142-155 | imports after the filter pass do not change the response |
| BodyAlignment.EnoughHandlesFinish | src/eth_proxy.rs:109-155 | the handler is done after a bounded number of its own steps under any interference |
| BodyAlignment.DistinctRequestAligned | src/eth_proxy.rs:109-155 | for distinct hashes, an honest peer and correct imports of other hashes, the cache holds only correct bodies throughout and the response is the correct body of exactly each hash cached or covered, in request order |
| BodyAlignment.AlignedIffNoEarlyRepeat | src/eth_proxy.rs:145-152 | with room, an honest reply and different bodies for the requested hashes the response is aligned iff no hash is repeated among the missing hashes the usable reply is matched with |
| BodyAlignment.RepeatMisaligns | src/eth_proxy.rs:145-152 | request a, a, c with a correct reply answers and caches c with the body of a |
| BodyAlignment.CacheCorrectIffNoEarlyRepeat | src/eth_proxy.rs:145-152 | under the same hypotheses every requested hash left in the cache has its correct body iff the same condition holds |
| BodyAlignment.RequestedImportMisaligns | src/eth_proxy.rs:145-152 | instance: request a, c, nothing cached, a imported after the filter pass: c is answered and cached with the body of a |
| BodyImports.ShiftedResponse | src/eth_proxy.rs:109-153 | for distinct hashes and correct imports of any hashes from the start of the filter pass on, with room, the response is the closed form in which every missing hash cached at its turn leaves its body to the next one |
| BodyImports.TurnHitsAreEarlyImports | src/eth_proxy.rs:109-146 | the missing hashes cached at their turn are exactly those imported between their filtering and their turn |
| BodyImports.RequestedImportsAlignedIff | src/eth_proxy.rs:109-153 | with an honest peer, different bodies for the requested hashes and correct imports of any hashes from the start of the filter pass on, the response is the correct body of exactly each hash cached, imported early or covered, iff no early import within reach of the reply is followed by a missing hash not imported early |
| BodyImports.NoShiftFrom | src/eth_proxy.rs:142-153 | in terms of the first early import: the reply does not reach it, or every later missing hash is imported early |
| BodyImports.OneEarlyImportAlignedIff | src/eth_proxy.rs:142-153 | for one early import the response is right iff it is the last missing hash or the reply does not reach it |
| BodyCapacity.AlignedIfFits | src/eth_proxy.rs:109-155 | the aligned half for any bodies, equal ones included: for distinct hashes and an honest reply the response is aligned when they fit |
| BodyCapacity.AlignedIffFits | src/eth_proxy.rs:109-155 | for distinct hashes with distinct bodies and an honest reply the response is aligned iff at every cached requested hash the cached requested hashes and the bodies inserted before it fit in the cache |
| BodyCapacity.FirstMisfitEvicted | src/eth_proxy.rs:145-152 | at the first cached hash that does not fit, the merge was right so far and that hash has been evicted when its turn comes |
| BodyCapacity.CachesWrongIff | src/eth_proxy.rs:145-152 | the merge ever caches a wrong body iff some cached hash does not fit while the reply still has bodies |
| BodyCapacity.SmallCacheMisfit | src/eth_proxy.rs:145-152 | instance: capacity 1, d cached, request a, d: inserting a evicts d, whose body is missing from the response |
| BodyTurns.ResponseIsTurns | src/eth_proxy.rs:142-153 | the response is what the turns of the merge answer, in request order, for any request and capacity |
| BodyTurns.TurnByHistory | src/eth_proxy.rs:142-153 | at each turn the cached keys are the most recent of the history of cached keys, filter hits and request so far, and the bodies used are the stack-distance misses in it, until the reply is used up; from then on neither changes |
| BodyTurns.EveryTurnRightIff | src/eth_proxy.rs:142-153 | for any request of hashes with different bodies, repeats included, any capacity and an honest reply, every turn answers the right body iff each hash with capacity or more other keys touched since its last touch is the one whose body comes next, or is uncovered once the reply is used up; a condition on the request, the cached keys by recency and the reply's length |
| BodyTurns.FirstWrongTurn | src/eth_proxy.rs:145-152 | the first position where that condition fails is the first wrong turn |
| BodyTurns.TurnsDependOnKeys | src/eth_proxy.rs:145-152 | which turns are hits and which take their own body depends on the request, the cached keys in order and the reply's length, but on no body |
| BodyTurns.WrongTurnsCanCancel | src/eth_proxy.rs:145-152 | instance: capacity 1, request a, a, c, a, two bodies: the response is the right list though c was answered and cached with the body of a |
| BodyResolve.BranchAnswers | src/eth_proxy.rs:89-166 | from the first resolve on, under imports of unrequested hashes at any points with room, the filter pass misses what the resolve missed and every response, fetched or not, is the closed form over those hashes |
| BodyResolve.UnfetchedAnswer | src/eth_proxy.rs:97-117 | under the same imports an answer without a fetch is the correct bodies of exactly the hashes the resolve found |
| BodyResolve.UnfetchedFreshIff | src/eth_proxy.rs:97-117 | for distinct hashes and correct imports of any hashes at any points with room, an answer without a fetch has every body the filter pass found iff no hash was imported between its miss in the resolve and its lookup in the filter pass |
| BodyResolve.ImportBeforeFilterIsStale | src/eth_proxy.rs:109-117 | instance: request a, a imported between resolve and filter: the answer is empty though a is cached |
| BodyRequests.ResolveBodiesFromCache | src/eth_proxy.rs:243-254 | the cached bodies in request order, each hit promoted |
| BodyRequests.FilterMissing | src/eth_proxy.rs:109-112 | the filter loop is the machine's filter pass |
| BodyRequests.Merge | src/eth_proxy.rs:142-153 | the merge loop is the machine's merge, response and cache |
| BodyRequests.HandleGetBlockBodies | src/eth_proxy.rs:89-166 | full cache answer, partial answer when the fetch fails, or the merge; with room for the request the response is the closed form over the cache as it was |
| BodyResolve.BranchAlone | src/eth_proxy.rs:89-166 | without interference the step machine of the whole branch ends as the handler does, for any request, cache and outcome of the fetch |
| Forwarder.ForwarderSafety | src/forwarder.rs:114-223 | in every interleaving: first in first out and bounded queue, free plus held permits = max_concurrent, ids 1, 2, 3, ..., broadcasts and tasks are the dedup-accepted subsequence of arrivals in order |
| Forwarder.NextLowersMeasure | src/forwarder.rs:125-223 | every step lowers queued work plus loop stage plus remaining endpoint calls |
| Forwarder.RunsAreBounded | src/forwarder.rs:125-223 | no run is longer than the measure of its start |
| Forwarder.StepsNeverWait | src/forwarder.rs:102-221 | in every reachable state a sender can queue while the buffer has room, the loop can take, check and broadcast at once and gets a permit at once while fewer than max_concurrent tasks hold one, and any task can call its next endpoint or give its permit back, each with its exact effect |
| Forwarder.AllPermitsInUse | src/forwarder.rs:116-158 | some run has max_concurrent tasks holding permits at once, or all accepted transactions when these are fewer |
| Forwarder.LogRecordsOutcomes | src/forwarder.rs:161-218 | every endpoint call is logged with its own outcome, in the order of the calls |
| Forwarder.StuckIffStarved | src/forwarder.rs:116-147 | before completion a reachable state is stuck iff the semaphore has no permits at all, the loop waits for one and no sender can move |
| Forwarder.CompleteDelivery | src/forwarder.rs:125-223 | at completion everything arrived was received, each accepted transaction was broadcast once and attempted at every endpoint exactly once in list order whatever the outcomes |
| Forwarder.EachHashForwardedOnce | src/forwarder.rs:125-138 | with at most cache_size distinct hashes each is accepted exactly once, in first-arrival order |
| Forwarder.NoPermitsNoCompletion | src/forwarder.rs:116-147 | with 0 permits no run that accepts anything completes |
| Forwarder.CompletesIff | src/forwarder.rs:116-158 | every run that can go no further is complete iff max_concurrent is at least 1, or there is no endpoint, or nothing among the arrivals is accepted |
| Forwarder.TxForwarder.ForwardAll | src/forwarder.rs:125-223 | run under any scheduler and any outcomes the object ends complete when max_concurrent is at least 1, and else complete or starved; completion means everything is delivered; whatever step the scheduler names is the one taken when it can be |
| Forwarder.TxForwarder.FindStep | src/forwarder.rs:125-147 | finds a step that can be taken, and finds none only when all is complete or starved |
| Forwarder.TxForwarder.QueueNext | src/forwarder.rs:102-106 | a sender queues its transaction at the end |
| Forwarder.TxForwarder.TakeNext | src/forwarder.rs:125 | the loop takes the oldest queued transaction or stops |
| Forwarder.TxForwarder.Deduplicate | src/forwarder.rs:127-130 | a duplicate is dropped and a new transaction goes on, by the deduplicator's answer |
| Forwarder.TxForwarder.BroadcastTx | src/forwarder.rs:133-143 | broadcast when there is a broadcaster; on to a permit when there are endpoints |
| Forwarder.TxForwarder.AcquireAndSpawn | src/forwarder.rs:147-158 | one permit less, the next id, one more task holding its permit |
| Forwarder.TxForwarder.CallEndpoint | src/forwarder.rs:161-218 | the task's next endpoint is attempted with its id and it moves on, whatever the outcome |
| Forwarder.TxForwarder.DropPermit | src/forwarder.rs:221 | a task past the last endpoint returns its permit |
| Validator.GasCostDoesNotWrap | src/validator.rs:115-116 | gas limit times fee stays below 2^192, so the 256-bit product is exact |
| Validator.AcceptedCostFits | src/validator.rs:97-119 | an accepted transaction has value + gas · price below 2^256 for every gas within its limit and every price up to its maximum fee |
| Validator.AcceptedIff | src/validator.rs:64-139 | acceptance is exactly the listed conditions in unbounded arithmetic |
| Validator.VerdictIsFirstFailure | src/validator.rs:64-139 | a refusal names the first of the nine checks, in their order, that fails |
| Validator.LeastGasLimit | src/validator.rs:64-139 | gas limit 20999 is refused and 21000 can be accepted |

## Left out

- Network plumbing (devp2p, discovery, sessions, the transaction pool, `update_status`): library code.
- RLP, hashing and signature recovery: parameters, as described above.
- File-system errors other than a missing or short file: the file is a byte sequence.
- The receipts, node-data and access-list branches: constant answers.
- HTTP and JSON-RPC parsing of endpoint replies: each call is a step with an arbitrary outcome.
- The WebSocket server, configuration, CLI and node key: no part of the properties here.
- Logging, duplicate-rate figures, 64-bit wrap-around of counters and ids, mutex poisoning.
- `forwarding_loop`'s branch for a closed semaphore: the semaphore is never closed.
- Headers.ResolveHeadersFromCache: one locked call after another with nothing in between, as a method over the object;
  interference is modelled by the step machine of `HeaderWalk.dfy`.
- BodyAlignment.AlignedIffNoEarlyRepeat: for requests whose distinct hashes fit in the cache; BodyCapacity.AlignedIffFits
  covers every capacity for distinct hashes, and BodyTurns.EveryTurnRightIff both at once, about the answer of each
  turn and not about the list of bodies alone, for which BodyTurns.WrongTurnsCanCancel shows its condition too strong.
- BodyImports.RequestedImportsAlignedIff: for pairwise distinct hashes; with repeats and imports of requested hashes at
  once only the closed forms without such imports are proved.
- Restore.TruncatedFileRecovery: for saved caches whose count and encoded lengths are below 2^32, which is what the
  format's length fields can hold; Restore.SaveLoadSave likewise.
- HeaderProxy.CachedReplyAnswers: for a start hash, no later header of the reply has that same hash.

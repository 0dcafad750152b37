# Frankenstein, verified

Frankenstein is a multitenant, sharded Prometheus. This project models its chunk store, its ingester
ring, its write and read paths and the two schedulers of its test tooling in Dafny, and proves what they
keep and compute. `dafny verify dfyconfig.toml` checks everything.

## What is modelled

**The chunk store** (`ByteStrings`, `Buckets`, `Keys`, `ChunkLists`, `ChunkIndex`, `Answers`, `IndexWrites`,
`StoreProtocol`, `Paging`, `Losses`, `ChunkStore`). `Put` writes blobs to S3 and then one DynamoDB row per hour and label; `Get`
answers a label query by range scans, intersection over matchers, merge over hours and a fetch through
memcache. DynamoDB, S3 and memcache are maps. Every call to one of them is one atomic step; between any two
steps `Interfere` lets other requests do anything that keeps the invariant `Valid` and only lets the stores
grow (`Grows`), while the cache may lose entries at any time. `Put` and `Get` themselves write only through
`Take`, which demands that the write is a `Lawful` action. `StoreProtocol` models Puts and Gets as processes
whose guards look at nothing but their own program counter, and derives from the order of each process's steps
that every action is lawful, so that the invariant holds in every interleaving. Goroutines report in
an arbitrary order. The result is a sandwich: whatever runs beside it, `Get` returns, strictly ordered by ID,
only chunks that were put and that a simple filter (`Selected`) selects, and all selected chunks whose `Put`
had returned when it was called. Whatever the cache holds, loses or fails to answer, the data returned is that
of S3 (`Retrieve`, `FetchBoth`). If nothing is put meanwhile both bounds coincide and the answer is one fixed
list (`AskBoth`). Keys are real byte strings: the order-preserving tuple
encoding, Go's decimal formatting and the `next` function are modelled, not assumed.

**The put limiter** (`Limiter`, `PutSizes`). Tasks send their result before they release their permit, and a parent
receives only after it has spawned all tasks; a phase with an error is the last. Phases may be empty. Puts
deadlock in some interleaving exactly when their largest phases, less one task each, add up to the limiter's
size or more; a Put of more than `maxConcurrentPuts` chunks never returns.

**The ring** (`RingDesc`, `Ring`, `Consul`, `RingProtocol`, `Lifecycle`). Any number of ingesters pick tokens,
heartbeat and unregister through a compare-and-swap loop on one Consul key, with failed reads, failed swaps,
retries, stale indices and deaths, while distributors watch the key. Well-formedness is proved for all runs
in which the store does not lose the key; a concrete run shows that losing it breaks routing. Sortedness and
the progress of views are proved for all runs, and it is proved exactly when removal and routing are correct
on an arbitrary sorted ring. Routing is consistent hashing: joins and leaves move only the keys they must.

**Routing and reading** (`Distributor`, `Batches`, `Querier`). Samples are partitioned by owner and found again by
queries; streams of several queriers are merged, sorted and searched.

**The tools** (`Scheduler`, `Runner`). Largest-first placement on shards meets Graham's bound 4/3 - 1/(3m)
against every placement; the parallel runner conserves tests and hosts in every state of every run, also when
tests time out and their commands linger.

`Sorting`, `Seqs` and `Options` hold what the others share: the contracts of `sort.Sort` (an ordered
permutation, nothing about ties) and `sort.Search`, concatenation and filtering, and the option type.

## Assumptions

- Each store of the cache reads the ID and the data of the chunk that the shared loop variable points to in one
  step. Exactly what it costs if it does not is proved (`TornCacheExactly`).
- Chunk IDs are write-once per user, and user IDs contain neither `:` nor `/`. Exactly which user IDs could
  otherwise be confused is proved (`HashesCollideExactly`, `ChunkNamesCollideExactly`).
- JSON encoding is lossless. A failed S3 put or batch write may have written nothing, a part, or all.
- A query sees the index as it is at the moment of the call. The code does not ask DynamoDB for consistent reads,
  so with eventually consistent ones completeness covers only the rows that have become visible.
- A DynamoDB range condition with its bounds inverted matches no row.
- A Consul CAS that returns an error wrote nothing, and every write gets a ModifyIndex never used before. Two
  long polls with the same index see the same value.
  Each ingester id registers at most once in a run.
- Regular expressions, the hash of `tokenFor`, metric fingerprints, chunk decoding and random draws are
  parameters. Costs in the scheduler are real numbers.

## Where the code falls short of what one would expect

- A lookup answers from DynamoDB's first page: the paging callback asks for another page only after an error,
  which is forgotten if a later page decodes (`ReadPages`). It is complete exactly if every completed chunk that
  answers the scan has a row on that page (`FirstPageSuffices`); otherwise chunks are lost (`SecondPageIsLost`).
- DynamoDB may report a batch as successful and leave items unprocessed; the code does not look, so `Put` can
  return success for a chunk that no query finds (`UnprocessedIsLost`). A successful Put of chunks that no other
  Put has is complete exactly if none of its rows was left unprocessed (`CompleteExactly`).
- If the cache read the ID of one chunk and the data of another through the shared loop variable, the cache would
  stay true exactly if both had the same data (`TornCacheExactly`).
- `next` is above its argument exactly when the last byte is at most `0xC3` (`NextAbove`); a matcher beyond
  that finds nothing (`InvertedScan`), and an empty string, an embedded null or a last byte `0xFF` panics
  (`ChunkStore.AWSStore.Get`).
- A query removes the metric name from its caller's array (`NameIsConsumed`), so merged queriers are asked the
  same query exactly if no chunk querier comes before another querier or the removal moves nothing
  (`SameQueryExactly`).
- `RangeValues` panics on some inverted intervals (`Querier.RangeValues`).
- More chunks or batches than permits deadlock a Put (`TooManyTasksNeverReturn`, `DeadlockExactly`, `LonePut`, `LonePutRows`).
- After the store loses the ring, a leaving ingester can leave a token behind that names nobody
  (`SharedTokenMisremoved`, `LossBreaksRouting`). Removal is correct exactly if no foreign token stands before one
  of its own with the same value (`StripOwnExactly`, `RemovalRegisteredExactly`; for any token list
  `StripExactly`), and routing exactly if the first token of every value is registered (`RouteExactly`).
- A test that times out gives its hosts back while its command goes on using them, so two commands can share a host
  (`TimeoutShares`). In a run they never do exactly if no test starts on a host of a command that outlived its
  timeout (`ExclusiveExactly`).
- A test that needs more hosts than there are leaves the parallel runner in a receive that nobody answers
  (`Runner.Parallel`); Go's runtime aborts the program if it notices that every goroutine is blocked.

## Model

| member | source | states |
|---|---|---|
| ByteStrings.RangeValueOrder | vendor/github.com/sburnet/lexicographic-tuples/lex.go:301-321 | encoded (label, value, ID) keys sort exactly as the tuples do, for null-free parts |
| ByteStrings.ParseRoundTrip | chunk/chunk_store.go:244-253 | parsing a range key gives back label, value and chunk ID |
| ByteStrings.ReadString | vendor/github.com/sburnet/lexicographic-tuples/lex.go:52-57 | splits at the first null and fails exactly when there is none |
| ByteStrings.NextAbove | chunk/chunk_store.go:503-508 | next(s) is above s if and only if the last byte is at most 0xC3, and below it otherwise |
| ByteStrings.NextNullFree | chunk/chunk_store.go:503-508 | next keeps a null-free string null-free if and only if the last byte is not 0xFF |
| ByteStrings.NextMeans | chunk/chunk_store.go:503-508 | next changes only the last byte, to the UTF-8 form of its successor |
| ByteStrings.Utf8Denotes | chunk/chunk_store.go:503-508 | that form carries the code point of the byte |
| Buckets.BigBuckets | chunk/chunk_store.go:223-234 | the consecutive hours of an interval under truncating division, none if reversed |
| Buckets.OverlapSharesBucket | chunk/chunk_store.go:223-234 | any two overlapping intervals share an hour bucket, negative times included |
| Buckets.BucketWidth | chunk/chunk_store.go:223-234 | times in one bucket are less than 3,600,000 ms apart, 7,200,000 around zero |
| Buckets.HourPlainly | chunk/chunk_store.go:223-234 | a bucket is an hour of 3,600,000 ms, and buckets before zero mirror those after it |
| Keys.HashValueInjective | chunk/chunk_store.go:240-242 | a hash key determines user, hour and metric name when user IDs have no colon |
| Keys.HashesCollideExactly | chunk/chunk_store.go:240-242 | two user IDs can share a hash key if and only if one continues the other with a colon and a decimal number |
| Keys.HashValueExamples | chunk/chunk_store.go:240-242 | the literal form of two hash keys |
| Keys.ChunkNameInjective | chunk/chunk_store.go:236-238 | an object name determines user and chunk ID when user IDs have no slash |
| Keys.ChunkNamesCollideExactly | chunk/chunk_store.go:236-238 | two user IDs can share an object name if and only if one continues the other with a slash |
| ChunkLists.Unique | chunk/chunk_store.go:715-733 | the loop computes the specified deduplication of adjacent IDs |
| ChunkLists.UniqueIds | chunk/chunk_store.go:715-733 | on any list deduplication loses no ID and invents no chunk |
| ChunkLists.UniqueStrict | chunk/chunk_store.go:715-733 | on an ordered list its result is strictly ordered, so no ID is left twice |
| ChunkLists.Merge | chunk/chunk_store.go:737-760 | the loops compute the specified merge |
| ChunkLists.MergeProperties | chunk/chunk_store.go:735-760 | merging strictly ordered lists is strictly ordered union in which the left list wins ties |
| ChunkLists.Intersect | chunk/chunk_store.go:770-787 | the two-list loop computes the specified intersection |
| ChunkLists.IntersectProperties | chunk/chunk_store.go:770-787 | strictly ordered, exactly the left elements whose ID is on the right, each once |
| ChunkLists.NWayIntersect | chunk/chunk_store.go:763-796 | for any number of lists: strictly ordered, exactly the elements of the first whose ID is in all |
| ChunkLists.IntersectionUnordered | chunk/chunk_store.go:763-796 | when equal IDs mean equal chunks, any permutation of the lists gives the same list |
| ChunkIndex.ScanCovers | chunk/chunk_store.go:580-591 | every row that would pass the filter lies between the scan's bounds |
| ChunkIndex.InvertedScan | chunk/chunk_store.go:580-591 | past last byte 0xC3 nothing lies between the bounds |
| ChunkIndex.SafeMeans | chunk/chunk_store.go:580-591 | building the bounds does not panic exactly if every string handed to the encoder is free of nulls |
| ChunkIndex.RowKeyInjective | chunk/chunk_store.go:359-376 | a row key determines user, hour, metric name, label, value and chunk ID |
| ChunkIndex.PartitionHoldsOwnRows | chunk/chunk_store.go:543-555 | every row in a partition belongs to an issued chunk of that user, hour and metric name |
| ChunkIndex.RowKeepsValid | chunk/chunk_store.go:399-414 | writing a row after its blob keeps the store invariant; an overwritten row was the same row |
| ChunkIndex.BlobKeepsValid | chunk/chunk_store.go:292-304 | writing the blob of an issued chunk keeps the store invariant |
| ChunkIndex.CacheKeepsValid | chunk/chunk_cache.go:116-127 | caching the data of a chunk in hand, once its blob is stored, keeps every cached value equal to the blob of its key |
| ChunkIndex.TornCacheExactly | chunk/chunk_cache.go:130-135 | a store with the key of one chunk and the data of another keeps the cache true if and only if both have the same data |
| ChunkIndex.AcceptSound | chunk/chunk_store.go:635-668 | rows of the invariant always decode, and what passes the filter answers the scan |
| ChunkIndex.AcceptDistinct | chunk/chunk_store.go:613-632 | rows that pass a matcher belong to different chunks, so no deduplication is needed there |
| StoreProtocol.EffectLawful | chunk/chunk_store.go:256-339 | what each Put and Get has done before, by its own program order, makes its next write lawful: the blob before the row, S3 before the cache, all rows before success |
| StoreProtocol.EveryInterleaving | chunk/chunk_store.go:256-339 | in every interleaving of Puts, also failing ones and ones with unprocessed rows, and Gets, with eviction, the invariant holds at every moment and the stores only grow |
| StoreProtocol.BlobsAlwaysTrue | chunk/chunk_cache.go:83-144 | at every moment of every interleaving each cached value is the S3 blob of its key, and each blob the data of the chunk it is named after |
| StoreProtocol.RowsAlwaysBacked | chunk/chunk_store.go:256-339 | at every moment each row is that of an hour and a label of a chunk that was put and whose blob is in S3 |
| StoreProtocol.SuccessMeans | chunk/chunk_store.go:256-339 | a Put returns success only after all blobs were stored and all rows were reported as written |
| StoreProtocol.DoneAlwaysIndexed | chunk/chunk_store.go:345-380 | after a success with nothing unprocessed every label but the name has its row in every hour, at every later moment |
| StoreProtocol.NoMissingBlob | chunk/chunk_store.go:670-712 | in no interleaving does a Get meet a row that does not decode or a blob that is missing |
| Paging.ProcessResponse | chunk/chunk_store.go:635-668 | exactly the chunks of the rows that pass, or an error if a row does not decode |
| Paging.ReadPages | chunk/chunk_store.go:563-573 | once the first page decodes, the answer is that page and no other; it succeeds if and only if some page decodes |
| Paging.FirstPageSuffices | chunk/chunk_store.go:563-566 | in every valid store, a lookup is complete if and only if every completed chunk that answers the scan has a passing row on the first page |
| Losses.SecondPageIsLost | chunk/chunk_store.go:618-622 | a run of two Puts, for any two chunk IDs, after which DynamoDB may answer in two pages and the second chunk is not found |
| Losses.UnprocessedIsLost | chunk/chunk_store.go:399-414 | a run in which a Put returns success, its row was left unprocessed and no query can find the chunk |
| Losses.CompleteExactly | chunk/chunk_store.go:314-339 | in every interleaving a successful Put, of different IDs that no other Put has, is fully indexed if and only if DynamoDB left none of its rows unprocessed |
| Answers.IntersectionSound | chunk/chunk_store.go:528-539 | a chunk in all matchers' lists satisfies all matchers |
| Answers.MergeKnown | chunk/chunk_store.go:490-500 | over the chunks of one user, merging hours is plain union |
| Answers.AnswerDetermined | chunk/chunk_store.go:429-452 | with nothing put meanwhile the answer is one fixed list, whatever the arrival orders and the cache |
| Answers.OneOfEach | chunk/chunk_store.go:660-662 | a chunk that carries a label is selected by exactly one of = and !=, and by exactly one of =~ and !~ |
| Answers.SelectedSatisfies | chunk/chunk_store.go:455-540 | what a query selects satisfies every matcher that it was given, kind by kind, and is less than two hours away |
| Answers.AskedForOneMore | chunk/chunk_store.go:528-539 | one more matcher asks for exactly those chunks that also satisfy it, kind by kind |
| ChunkStore.PutThenGet | chunk/chunk_store.go:256-453 | the round trip: what was put with success, overlaps the query in time and satisfies its matchers is returned, data included |
| ChunkStore.AWSStore.Retrieve | chunk/chunk_store.go:429-452 | whatever the cache holds, loses or fails to answer, the result is the chunks looked up, in order, with their S3 blobs; an error if and only if S3 failed |
| Answers.FilledIsBlobs | chunk/chunk_store.go:448-452 | whatever came from the cache and whatever from S3, sorted it is what S3 alone would have given |
| ChunkStore.FetchBoth | chunk/chunk_store.go:429-452 | two stores in any states, cached or not, give the same list for the same chunks unless an ID was used twice |
| ChunkStore.AskBoth | chunk/chunk_store.go:417-453 | for whole queries: two stores with the same completed contents answer with the same list |
| Answers.SplitByCache | chunk/chunk_cache.go:101-113 | found and missing chunks together are the input; found ones carry the data that was put; missing ones are not cached |
| Answers.ExtractMetricName | chunk/chunk_store.go:455-468 | name and remaining matchers, and the exact content of the caller's array afterwards |
| Answers.NameIsConsumed | chunk/chunk_store.go:464-465 | a second query with the same array finds a name matcher if and only if it came last or another followed |
| IndexWrites.CalculateDynamoWrites | chunk/chunk_store.go:345-380 | exactly one row per hour and label but the name, no key twice for distinct IDs; the first bad chunk decides between error and panic |
| IndexWrites.BatchRequests | chunk/chunk_store.go:384-396 | the batches concatenate to the writes, each of size 1 to 25 |
| ChunkStore.AWSStore.Send | chunk/chunk_store.go:292-312 | a write to an outside service is a lawful action, also when it reports a failure and was carried out |
| ChunkStore.AWSStore.Put | chunk/chunk_store.go:256-268 | under any interference the invariant holds; success with nothing left unprocessed makes the chunks complete; the exact result: an error if a service failed, otherwise what indexing comes to |
| ChunkStore.AWSStore.PutChunks | chunk/chunk_store.go:271-289 | success means every blob is in S3, in any order of the tasks |
| ChunkStore.AWSStore.UpdateIndex | chunk/chunk_store.go:314-339 | success with nothing left unprocessed means every row of every chunk is in the table; the exact result as for Put |
| ChunkStore.AWSStore.LookupChunksForMatcher | chunk/chunk_store.go:580-633 | strictly ordered and sound; complete on a single page; panics exactly on unsafe matchers |
| ChunkStore.AWSStore.LookupChunksForMetricName | chunk/chunk_store.go:542-578 | strictly ordered and sound; complete on a single page |
| ChunkStore.AWSStore.LookupChunksFor | chunk/chunk_store.go:510-540 | the intersection over matchers is sound and complete for the hour, in any order of arrival |
| ChunkStore.AWSStore.LookupChunks | chunk/chunk_store.go:470-501 | the merge over hours is sound and complete, in any order of arrival |
| ChunkStore.AWSStore.FetchFromS3 | chunk/chunk_store.go:670-712 | every known chunk is completed with the data that was put; an error only if S3 failed |
| ChunkStore.AWSStore.StoreChunks | chunk/chunk_cache.go:130-144 | whichever element the shared loop variable points to, the cache stays equal to S3 |
| ChunkStore.AWSStore.Get | chunk/chunk_store.go:417-453 | strictly ordered; every returned chunk was put by the user, satisfies each matcher as the caller gave it and is less than two hours away; every chunk put before that overlaps in time and satisfies them all is returned, on single pages and without inverted scans; an error if and only if DynamoDB or S3 failed or there is no name matcher, a panic exactly on unsafe matchers |
| Limiter.RunConserves | chunk/semaphore.go:12-26 | free plus held permits equal the limiter's size in every reachable state |
| Limiter.NotStuckNow | chunk/chunk_store.go:271-338 | in any state in which the phases still being spawned, less one task each, add up to less than the size, somebody can move |
| Limiter.NeverStuck | chunk/chunk_store.go:271-289 | Puts whose largest phases, less one each, stay below the size are never stuck, errors included |
| Limiter.RunsEnd | chunk/chunk_store.go:322-338 | every step takes at least one unit of a measure, so every run is finite |
| Limiter.LonePutSteps | chunk/chunk_store.go:271-338 | a Put on its own takes at most three steps for every chunk and batch, and one more |
| Limiter.ErrorsAreLast | chunk/chunk_store.go:256-268 | a Put with an error never enters another phase |
| Limiter.TooManyTasksNeverReturn | chunk/chunk_store.go:271-289 | a phase with more tasks than permits never receives a result |
| Limiter.DeadlockExactly | chunk/chunk_store.go:271-338 | some interleaving deadlocks if and only if the largest phases, less one each, add up to the size or more |
| Limiter.LonePut | chunk/chunk_store.go:256-338 | with the limiter to itself a Put deadlocks in some interleaving if and only if it has more chunks or more batches than maxConcurrentPuts |
| PutSizes.LonePutRows | chunk/chunk_store.go:256-396 | that is, if and only if it has more than 100 chunks or more than 2500 rows |
| RingDesc.StripSpends | ring/model.go:62-87 | on sorted lists the walk removes, for each value, as many of its first tokens as the list names |
| RingDesc.StripExactly | ring/model.go:62-87 | whatever tokens are named, exactly the ingester's tokens are removed if and only if they are, for each value, the ones the list pays for first |
| RingDesc.StripOwnExactly | ring/model.go:62-87 | an ingester naming its own tokens is taken out correctly if and only if no foreign token stands before one of its own with the same value |
| RingDesc.RemovalRegisteredExactly | ring/model.go:62-87 | a registered ring stays registered after a removal under exactly that condition |
| RingDesc.StripOwn | ring/model.go:62-87 | with exactly its own tokens an ingester leaves a clean sorted ring without touching others |
| RingDesc.StripSorted | ring/model.go:62-87 | whatever the token list, a sorted ring stays sorted |
| RingDesc.Walk | ring/model.go:64-86 | the two-pointer loops compute the specified removal |
| RingDesc.RemoveUndoesAdd | ring/model.go:46-87 | removing a newcomer with the same tokens restores exactly the ring before it was added |
| RingDesc.SharedTokenMisremoved | ring/model.go:66-77 | a ring with a shared token from which removal takes the wrong ingester's token |
| RingDesc.DescObject.AddIngester | ring/model.go:46-60 | the new ring is a sorted permutation of old and new tokens, with the ingester recorded |
| RingDesc.DescObject.RemoveIngester | ring/model.go:62-87 | the new ring is the specified removal of the old |
| Ring.AddMovesToNewcomer | ring/ring.go:94-125 | adding an ingester with tokens of its own moves keys to the newcomer only |
| Ring.RemoveMovesOwnKeys | ring/ring.go:94-125 | removing an ingester moves only the keys it held |
| Ring.RouteExactly | ring/ring.go:94-125 | every key is routed to a registered ingester if and only if the first token of every value is registered |
| Ring.RouteRegistered | ring/ring.go:95-103 | on a registered nonempty ring Get returns an entry of the map, never the zero value |
| Ring.RouteMeans | ring/ring.go:95-125 | Get returns the entry of the nearest token above the key, or of the least token if none is above |
| Ring.RingView.Search | ring/ring.go:117-125 | binary search with wrap-around finds the next token around the ring |
| Ring.RingView.Get | ring/ring.go:95-103 | Get computes the specified routing |
| Ring.RingView.Collect | ring/ring.go:133-146 | shares are exact, no uint32 operation wraps, and they add up to exactly MaxUint32 |
| Ring.OwnershipCounts | ring/ring.go:133-146 | an ingester's share is the number of points whose preceding token is its own, where Get goes to the next token |
| Ring.RingView.WatchKey | ring/consul_client.go:252-292 | skipping polls with an unchanged index loses nothing: the view is the last value that was there and decoded |
| Ring.LatestMeans | ring/consul_client.go:252-292 | the last poll that found a value which decodes decides; without one the view stays |
| Ring.GenerateTokens | ring/ingester_lifecycle.go:175-193 | the first n draws that clash with no taken token, sorted; still drawing exactly when there are fewer |
| Consul.Key.Cas | ring/consul_client.go:98-156 | success is exactly one commit, of the callback applied to the value it replaced; failure is none, has a cause, and comes after ten rounds or a final error |
| Consul.Key.Attempt | ring/consul_client.go:105-153 | one round commits only what its callback computed from the replaced value, also with a stale index |
| RingProtocol.SwapReplacesWhatItRead | ring/consul_client.go:98-156 | an accepted swap replaces exactly the value its callback was given |
| RingProtocol.CallbackMeans | ring/ingester_lifecycle.go:93-163 | what the callbacks write, entry by entry: others' entries stay, hostnames stay, timestamps are set, tokens join or stay |
| RingProtocol.RingSafety | ring/ingester_lifecycle.go:86-167 | in every reachable state without store loss: tokens sorted, none in two hands, all registered, and each live ingester is there under its hostname with exactly its tokens |
| RingProtocol.HostedAlways | ring/ingester_lifecycle.go:93-138 | in every run, store loss included, every entry ever committed has the hostname of its ingester |
| RingProtocol.SortedAlways | ring/ingester_lifecycle.go:118-137 | every ring ever committed is sorted, store loss included |
| RingProtocol.WatchersTrue | ring/consul_client.go:252-292 | in every run, store loss included, every view is empty or a commit |
| RingProtocol.WatchShowsView | ring/ring.go:75-92 | the ring that the watch loop holds is the view after the last poll that found a ring |
| RingProtocol.ViewsAdvance | ring/consul_client.go:252-292 | in every run, store loss included, no distributor's view moves backwards in the history of commits |
| RingProtocol.FetchDelivers | ring/consul_client.go:252-292 | a fetch reads the stored ring, its delivery makes that the view, and a missing key leaves the view alone |
| RingProtocol.ViewsRoute | ring/ring.go:75-103 | every nonempty view routes every key to the hostname of an ingester registered in it |
| RingProtocol.LossBreaksRouting | ring/ingester_lifecycle.go:127-131 | a run with store loss after which every key is routed to the zero value |
| Lifecycle.PickTokens | ring/ingester_lifecycle.go:93-116 | the callback writes what the protocol's pick step allows, with n tokens, and returns if and only if n draws are free in the ring |
| Lifecycle.Heartbeat | ring/ingester_lifecycle.go:118-138 | the callback writes what the protocol's heartbeat step allows; of a registered ingester it changes the timestamp only |
| Lifecycle.Unregister | ring/ingester_lifecycle.go:154-163 | the callback writes what the protocol's unregister step allows, an error on a missing ring |
| Lifecycle.CasHistoryWellFormed | ring/consul_client.go:98-156 | a serial history, such as the CAS loop leaves, whose commits are all by the three callbacks is well formed after every commit and agrees with every ingester |
| Distributor.Append | distributor.go:125-155 | each sample is in the batch of the host that the ring, as it is by then, gives for the user and the value of its name label; batches keep order and conserve all samples; nothing if the ring was empty at a lookup |
| Batches.GroupPartitioned | distributor.go:146-155 | filling the map of batches partitions the items: in order, conserved, no batch empty |
| Batches.UnderAt | distributor.go:146-155 | an item stands in its batch right behind those before it with the same key |
| Distributor.MetricNameFromLabelMatchers | distributor.go:182-192 | the value of the first name matcher if it is an equality, an error otherwise |
| Distributor.QueryHost | distributor.go:195-216 | the host that owns the user's metric name, or an error |
| Distributor.QueriesMeetSamples | distributor.go:138-216 | unless the name was rerouted meanwhile, a query for a metric name contacts the very host to which all its samples are sent |
| Distributor.JoinReroutesToNewcomer | distributor.go:147-154 | when an ingester joins, a metric name stays or moves to the newcomer |
| Distributor.LeaveReroutesOwnNames | distributor.go:147-154 | when an ingester leaves, only its metric names move |
| Distributor.HeartbeatReroutesNothing | ring/ingester_lifecycle.go:127-134 | a heartbeat of a registered ingester changes the host of no metric name |
| Distributor.ClientPool.GetClientFor | distributor.go:102-123 | a host never gets a second client, whatever other calls do between the locks |
| Querier.SameQueryExactly | querier.go:111-116 | all merged queriers are asked the same query if and only if no chunk querier comes before another one or removing the name moves nothing |
| Querier.QueryRange | querier.go:104-143 | an error if a querier reports one; otherwise one iterator for exactly the fingerprints in all replies, with each sample as often as it occurs in all replies, in order of time |
| Querier.MergedSamples | querier.go:55-75 | a merged series has each sample as often as it occurs in the streams of its fingerprint, in order of time |
| Querier.QueryChunks | querier.go:42-75 | one stream per fingerprint with a time-ordered permutation of all its chunks' samples |
| Querier.ValueAtOrBeforeTime | iterator.go:33-46 | a latest sample not after ts, or the Earliest marker exactly when there is none |
| Querier.RangeValues | iterator.go:48-62 | exactly the samples in the interval, and exactly when it panics |
| Querier.RangeValuesMean | iterator.go:48-62 | each sample of the interval as often as it was there, no other, in order of time |
| Scheduler.GrahamBound | tools/scheduler/main.py:74-82 | largest-first greedy loads are at most 4/3 - 1/(3m) times those of every assignment |
| Scheduler.AsAssignment | tools/scheduler/main.py:74-82 | every placement of named tests is an assignment with the same loads |
| Scheduler.ShortestShard | tools/scheduler/main.py:78-80 | the first shard of least total cost |
| Scheduler.Schedule | tools/scheduler/main.py:62-82 | each listed test placed exactly once; the recorded times of any shard add up to at most 4/3 - 1/(3m) times the largest such sum of every other placement; an error exactly with no shards |
| Scheduler.GrahamPlainly | tools/scheduler/main.py:74-82 | the bound as a factor of 4/3 - 1/(3m) |
| Scheduler.Service.Handle | tools/scheduler/main.py:53-86 | all shards of a run answer from one and the same placement of the whole list, nearly optimal for the costs recorded when it was made, and never replaced |
| Runner.RunConserves | tools/runner/runner.go:205-240 | in every state of every run tests and hosts are conserved and running tests hold what they need |
| Runner.NoHostHandedOutTwice | tools/runner/runner.go:214-232 | with distinct hosts no host is held by two tests whose results are awaited, nor held and free |
| Runner.ExclusiveExactly | tools/runner/runner.go:103-107 | in a run no two live commands ever share a host if and only if no test starts on a host of a command that outlived its timeout |
| Runner.StartExclusiveExactly | tools/runner/runner.go:214-225 | starting a test keeps hosts exclusive if and only if none of them is used by a lingering command |
| Runner.NoHostShared | tools/runner/runner.go:205-240 | in a run in which nothing times out no host is used by two live commands, nor used and free |
| Runner.TimeoutShares | tools/runner/runner.go:103-107 | a run in which a timed-out command and the next test use the same host |
| Runner.Pick | tools/runner/runner.go:67-77 | removes and returns the first test that fits |
| Runner.SortTests | tools/runner/runner.go:60-65 | the most hosts first, later names first among equals |
| Runner.Parallel | tools/runner/runner.go:205-240 | its states are a run that starts with the tests in order of hosts; it ends with every test run once, all hosts back and the failed and timed-out ones reported, if every test fits, and otherwise in a receive that nobody answers |

## Left out

- AWS, Consul, memcache and HTTP clients, JSON, protobuf and snappy: foreign calls, modelled as maps and lossless codecs.
- Compiled regular expressions, FNV hashing, metric fingerprints and double-delta decoding: parameters of the model.
- Metrics, logging, timeouts, backoff delays, WatchPrefix and PrefixClient: nothing in them bears on the results.
- server.go, ingester_client.go, ui.go, api, user, cmd, tools/socks, tools/cmd, tools/cover: request plumbing, I/O and a merge like the chunk merge.
- Termination of the random draw in generateTokens: not guaranteed by the code; the draws are a parameter.
- Negative host counts in the runner's test names: the code panics on them; a host count is a natural number here.
- GetMulti, Set and the cache's hit rate: the cache is only shown to be harmless, not to be useful.
- Querier.QueryRange: does not model that the first querier's stream object is extended in place; streams are values.
- ChunkStore.AWSStore.StoreChunks: does not promise that anything is cached, because the cache may evict at any time.
- Exponential averages of run times (record) and VM garbage collection in the scheduler: easy or I/O.

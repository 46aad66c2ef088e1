# link-r, modelled and verified in Dafny

link-r keeps an index of links: it crawls pages from a root URL, distils and embeds them, stores
metadata, vectors, terms and outbound edges under canonical-URL keys, answers hybrid searches, keeps
the index fresh, and publishes index images to an object store that replicas poll. This project models
those parts and proves what they are for. `dafny verify dfyconfig.toml` checks everything.

## How it is organised

Shared: `Common`, `Sorting`, `Lexical`, `Ranking`, `Bytes`, and `Platform` for what the index takes from
its libraries (32-bit floats, bitmaps, compression).

Crawl (`src/source/crawl.rs`): `CrawlMachine` is the loop as a step system in which any fetch in flight
may complete next, with any reply. `CrawlReach` runs it on a fixed site and proves what gets requested.
`CrawlPaths` says how deep a page can be recorded when fetches overtake each other. `Crawl` is the class
with the loop itself, proved to follow the step system whatever the network answers. `CrawlOrder` and
`CrawlScheme` hold the runs in which a page is lost and in which stored edges lead elsewhere; `CrawlScope`
and `Pacing` are the scope tests and the pacer.

Publish and load (`src/remote.rs`): `ObjectStore` is the store, `PublishProtocol` any number of
publishers and readers interleaved at every store call, with requests applied late, repeatedly or never.
`Remote` is one handle as the code runs it, with each call failing or losing its reply; `PublishRun` and
`LoadRun` show that every such publish and load is a run of the protocol. `HeadCodec` is the body of HEAD.

Index: `Documents` and `Builder` (the mutable builder refines a map), `Sparse`, `Rebuild`, `Weighting`,
`SparseSearch`, `Relevance` (the term index), `Dense`, `Quant`, `BinaryQuant`, `Fusion`, `LinkGraph`,
`Filters`, `Search` (retrieval), `EdgeCodec`, `MetaCodec`, `Bm25Codec`, `IndexFormat`, `Images`
(persistence, down to the bytes of every section), `Facade` and `Lifecycle` (opened image, builder and
snapshot), `Ingest` and `Refresh` (the two long-running updates), `Batching` (when the batch size shows),
`RefreshOutcome` (the one result of a refresh, whatever the order) and `Rekeying` (which links a refresh
finds again, and what becomes of the others).

Text: `UrlKeys` (canonical form and key), `Html` (the link scanner, loops and specification) and
`HtmlTokens` (pages printed from tokens).

Where the source updates in place the model does: classes for the crawler, pacer, bucket, handle,
builder, reader cursor, chunk sink and facade, arrays for the digit, sign and code buffers. Each such
method is tied to a function of its inputs or its old state, and the properties are lemmas about that
function.

## Findings

- With more than one fetch in flight a drained crawl can miss pages within the depth limit
  (`CrawlOrder.OvertakenCrawlMissesAPage`): a page first reached over a longer path keeps the longer
  depth. The test that compares parallel and sequential crawls (`src/source/crawl.rs:1239-1248`) uses one
  site on which that does not happen. `CrawlReach.AnyOrderCompleteIff` reads off a finished crawl whether
  it lost something; `CrawlPaths.AnyOrderCompletes` is a condition on the site alone under which no order
  can: a recorded depth is the length of a path without repetitions or shortcuts
  (`CrawlPaths.RecordedDepthIsAPath`), so a page is lost only one link beyond such a path of full length.
- On a 304 the known edges skip the http/https test that parsed links go through
  (`src/source/crawl.rs:690-703`). Even when the stored edges are the links of the page the conditional
  crawl can request a key that the full crawl never does (`CrawlScheme.StoredEdgesSkipSchemeTest`).
  `CrawlReach.ConditionalCrawlIff` is the exact condition for both to record the same keys at the same
  depths.
- An upload whose swap failed occupies the next generation: every publish of a different image is then
  refused for ever (`Remote.StrandedUploadBlocksOthers`), while the same image can still be published.
  `Remote.PublishSucceedsIff` is the exact condition.
- `uploaded: false` means that HEAD named the image when this handle last looked: a handle that remembers
  an older HEAD gives that answer for an image HEAD no longer names (`Remote.StaleAnswer`). The reported
  generation is HEAD's if and only if HEAD's object generation is the remembered one, which a metadata
  request before the call tells (`PublishProtocol.UnchangedAnswerIff`).
- Term counts saturate at 65535, and an index rebuilt from itself is the same exactly when none did
  (`Rebuild.RebuildIsIdentityIff`); a term occurring 65536 times loses one occurrence
  (`Rebuild.LongDocumentIsCut`). The 4096-term cap of extraction keeps ingested pages below it.
- Canonicalizing twice changes paths ending in `//` other than `//` itself
  (`UrlKeys.CanonicalIsStableIff`, `UrlKeys.DoubleSlashIsNotStable`); a refresh looks such a link up under
  another key (`Rekeying.StoredLinkRekeysIff`). Found unchanged it is counted but not restamped
  (`Rekeying.SlippedLinkStaysStale`); changed, it is added a second time under the other key
  (`Rekeying.SlippedLinkIsDoubled`); past the age cap it stays, and the link under the other key goes, even
  when that one is pinned (`Rekeying.SlippedLinkEvictsPinned`), although pinned links are exempt from
  eviction. A pinned link is kept if and only if no over-age URL reads back to its key
  (`Refresh.PinnedLinkStaysIff`), the length is as reported if and only if no changed page comes under a new
  key (`Refresh.RefreshSize`), and a link whose key no URL reads back to is left as it was, so it is fetched
  again every time (`Refresh.UnreadLinkIsUntouched`). Where every stored URL reads back to its key the
  promises hold and the order of completion does not matter (`RefreshOutcome.RefreshIsDetermined`). Links
  stored from other URLs do read back, and ingestion and refresh keep it so (`Rekeying.StableIndexRekeys`,
  `Rekeying.IngestKeepsStable`, `Rekeying.RefreshKeepsStable`).
- Parsing an image checks neither that keys are distinct, nor that the term index covers as many documents
  as the metadata, nor that postings name documents the term index has. `Images.BuilderFromImageIff` says
  that these three are exactly what a consistent builder needs, and `Images.UncheckedImagesParse` gives an
  image for each that parses and fails. A posting out of range makes the conversion to a builder, and any
  search for its term, index out of bounds (`Facade.StrayPostingDerails`, `Search.SearchPrepared`).
- A written image is refused on reading when the metadata or the edges compress more than 1024-fold or
  exceed 512 MiB; `Images.ParseSerializedIff` is the exact condition for reading back what was written. A
  single record with a long enough snippet is such an index: everything fits, it is written, and it is
  refused (`Images.BigMetadataIsRefused`, `Images.TooLongIsRefused`).
- The documentation says that an index unmutated since it was loaded gives back the loaded image
  (`src/facade.rs:358-360`). When the vector block was not aligned in memory it was copied, and the image
  is written anew. It comes out the same exactly for current images (`Images.ReserializeIff`): much of an
  image is never compared on reading. An unknown metric tag, a stray flag bit or average length in the
  header, metadata left uncompressed and a section of unknown kind are all accepted and lost
  (`Images.StraysAreRewritten`), and so are bytes behind the term index
  (`Bm25Codec.TrailingBytesAccepted`).
- Decoding metadata maps unknown kind bytes to "unknown", and files without the freshness columns get
  them, so re-encoding restores the bytes exactly when every kind byte is a known tag and the columns were
  there, or there is no record at all (`MetaCodec.EncodeDecodedIff`, `MetaCodec.UnknownKindIsRewritten`).
- Adding a page with a pin pins it only if the page is new or changed (`Documents.UpsertPinsIff`); with
  the content unchanged the pin is ignored (`Documents.RepinningIsIgnored`).
- A page that changes and changes back within one run ends up differently for embedding batches of one and
  of two (`Batching.RepeatedKeyDependsOnBatch`). The batch size is invisible, whatever the index before,
  exactly when no key that brought content comes again without content or with another
  (`Batching.BatchSizeIsInvisibleIff`); a run that yields every key once is such a run.
- The path shortcut takes a slash in the query for the path when a URL has no path
  (`Filters.PathlessUrl`); stored URLs are canonical and always have one
  (`UrlKeys.FilterSeesCanonicalPath`).

## Model

| member | source | states |
|---|---|---|
| CrawlMachine.CrawlAccounting | src/source/crawl.rs:605-743 | at every step of every run requested keys are distinct and visited, frontier depths at most the limit, slots and page budget respected, and launches equal in-flight plus successes plus revalidated plus failed until the root aborts |
| CrawlMachine.StepDecreasesMeasure | src/source/crawl.rs:626-712 | every launch and every completion, whatever the reply, strictly decreases twice (unvisited keys + frontier) + in-flight |
| CrawlMachine.RunsAreBounded | src/source/crawl.rs:626-743 | a run over a finite key space has at most 2n steps, although 304s and failures use no budget |
| CrawlMachine.RunKeepsInv | src/source/crawl.rs:605-743 | the crawl invariant holds in every reachable state |
| CrawlReach.AnyOrderStaysWithin | src/source/crawl.rs:605-743 | at any concurrency and completion order every requested key lies within the depth limit and its recorded depth is never below its distance |
| CrawlReach.SequentialCrawlIsBreadthFirst | src/source/crawl.rs:605-743 | with one fetch at a time a drained crawl requests exactly the keys within the depth limit, each at its distance |
| CrawlReach.DeepCrawlIsComplete | src/source/crawl.rs:605-743 | with a depth limit of at least the number of reachable keys any completion order requests exactly the reachable keys |
| CrawlReach.AnyOrderCompleteIff | src/source/crawl.rs:725-743 | at any concurrency a drained crawl is complete if and only if no page recorded too deep, at the limit, kept an unvisited child back |
| CrawlPaths.RecordedDepthIsAPath | src/source/crawl.rs:605-743 | at any concurrency and order a recorded depth is the length of a path from the root that repeats no key and takes no link it could have taken earlier |
| CrawlPaths.AnyOrderCompletes | src/source/crawl.rs:605-743 | on a site where no such path goes one link beyond the depth limit by way of a nearer page, every drained crawl requests exactly the keys within the limit, whatever the concurrency and order |
| CrawlPaths.NoDetourNoTrap | src/source/crawl.rs:605-743 | the site condition holds when no such path as long as the limit ends at a nearer page |
| CrawlPaths.DeepLimitNoTrap | src/source/crawl.rs:605-743 | the site condition holds when at most limit plus one keys are reachable |
| CrawlReach.DepthLimitEndsCrawl | src/source/crawl.rs:605-743 | every crawl of a fixed site ends, redirects, failures and 304s included, within twice as many steps as keys in reach |
| CrawlReach.ConditionalCrawlRefinesFull | src/source/crawl.rs:676-704 | a one-at-a-time crawl in which any pages answer 304 records the same keys at the same depths as the full crawl, provided their known edges have the same in-scope child keys |
| CrawlReach.ConditionalCrawlIff | src/source/crawl.rs:676-743 | two drained one-at-a-time crawls with different replies record the same keys at the same depths if and only if from every layer of the first the second leads to the same keys |
| CrawlScheme.StoredEdgesSkipSchemeTest | src/source/crawl.rs:690-703 | two concrete drained crawls of one site that differ although the known edges are the links of the page |
| CrawlReach.AllUnchangedRun | src/source/crawl.rs:676-704 | when every page answers 304 nothing is yielded, no budget is used, and the revalidated record is exactly the requested URLs |
| CrawlOrder.OvertakenCrawlMissesAPage | src/source/crawl.rs:605-743 | a concrete drained run with two fetches in flight that misses a page within the depth limit |
| Crawl.CrawlSource.Discover | src/source/crawl.rs:592-760 | whatever the network answers to each fetch and its validator, and whichever fetch completes next, the loop goes through a run of the step system, ends, and every request starts in the slot its host was given |
| Crawl.CrawlSource.Absorb | src/source/crawl.rs:672-755 | one completed fetch: counters, visited set, frontier, page and revalidated record are those of the completion step |
| Crawl.ServedRunIsRun | src/source/crawl.rs:592-760 | a run of the loop on any network is a run of the step system, so all that holds of every run holds of it |
| Crawl.ServedRunOfSite | src/source/crawl.rs:592-760 | when pages answer the same at any time it is a crawl of a fixed site |
| Crawl.CrawlIsPolite | src/source/crawl.rs:451-465 | two requests of a crawl to one host start at least the minimum delay apart, in launch order |
| Crawl.CrawlSource.PushChildren | src/source/crawl.rs:725-743 | pushes exactly the children whose key is new, in order, one level down |
| Crawl.CrawlSource.TakeRevalidated | src/source/crawl.rs:318-325 | hands out the revalidated record and leaves it empty |
| CrawlScope.HostUnderIff | src/source/crawl.rs:103-108 | a host is under a base exactly when it is the base, or the base behind some labels and a dot |
| CrawlScope.HostUnderTransitive | src/source/crawl.rs:103-108 | a subdomain of a subdomain is a subdomain |
| CrawlScope.PathUnderIff | src/source/crawl.rs:79-90 | a path is under the root exactly when it is the root or continues it at a segment boundary |
| CrawlScope.PathUnderTransitive | src/source/crawl.rs:79-90 | descending never leaves the root's scope |
| CrawlScope.RequestsAreInScope | src/source/crawl.rs:725-743 | every URL requested after the root passed scope and path tests and is no asset, whatever the site serves |
| Pacing.Pacer.Reserve | src/source/crawl.rs:451-465 | the delay and the new table are those of the next free slot of the host |
| Pacing.StartsAreSpaced | src/source/crawl.rs:451-465 | over any sequence of reservations starts to one host are at least the earlier one's interval apart |
| Pacing.HostsAreIndependent | src/source/crawl.rs:451-465 | a host never waits for another |
| PublishProtocol.HeadIsAlwaysLoadable | src/remote.rs:277-325 | under every interleaving HEAD names an image that exists with the recorded length and checksum, and generations run 1, 2, 3 |
| PublishProtocol.HistoryGrows | src/remote.rs:293-312 | HEAD only moves forward, one generation at a time |
| PublishProtocol.OneWinnerPerGeneration | src/remote.rs:304-325 | two publishes that both report an upload report different generations |
| PublishProtocol.PublishedWasHead | src/remote.rs:281-325 | a publish that reports a generation names an image HEAD had under it |
| PublishProtocol.LoadedWasHead | src/remote.rs:196-211 | a finished load returns an image some HEAD named, no older than the HEAD in place when it began |
| PublishProtocol.LoadsAreMonotone | src/remote.rs:196-211 | loads that follow one another return nondecreasing generations |
| PublishProtocol.EqualObjectGenerationMeansUnchanged | src/remote.rs:235-242 | an equal object generation means HEAD is what the handle remembers |
| PublishProtocol.UnchangedAnswerIff | src/remote.rs:281-293 | a publish that answers without uploading writes nothing, and its generation is HEAD's if and only if the history ends there, that is if and only if HEAD's object generation is the remembered one |
| PublishProtocol.LateCallsSpareHead | src/remote.rs:299-317 | no late delete or stale upload touches the image HEAD names |
| PublishProtocol.StepKeepsInv | src/remote.rs:172-332 | every step of every participant and of the store keeps the protocol invariant |
| PublishRun.PublishIsARun | src/remote.rs:277-325 | every sequential publish, whichever calls fail or lose their reply, is a run of the protocol with the same store, memory and answer |
| Remote.Handle.PublishImage | src/remote.rs:273-332 | store, remembered state and answer are those of the publish function for every fault pattern |
| Remote.Handle.LoadIfChangedInto | src/remote.rs:249-268 | unless it returns true the links shown do not change, and on an error neither does what the handle remembers; when it does, the index shows the links of the image the remembered HEAD names; what it answers and remembers is the load function of the three stores it meets |
| LoadRun.LoadIsARun | src/remote.rs:249-268 | every load that ends, whatever the store goes through between its calls, is a run of the protocol with the same answer |
| LoadRun.LoadWasHead | src/remote.rs:249-268 | so what a handle loads was HEAD, and no older than HEAD when it began |
| LoadRun.LaterLoadIsNoOlder | src/remote.rs:249-268 | and later loads return no older generation |
| Remote.AttemptsKeepReady | src/remote.rs:277-332 | failed and lost calls of a lone publisher leave it able to publish the same image |
| Remote.PublishConverges | src/remote.rs:277-332 | after any finite run of such faults the next fault-free publish makes HEAD name the image |
| Remote.PublishSucceedsIff | src/remote.rs:281-325 | a fault-free publish without a competitor succeeds if and only if HEAD names the image already or the next generation is free or holds it |
| Remote.StrandedUploadBlocksOthers | src/remote.rs:293-303 | a stranded upload of another image refuses every later publish |
| Remote.FailedSwapStrandsUpload | src/remote.rs:299-312 | how an upload is stranded |
| Remote.StaleAnswer | src/remote.rs:281-293 | a run in which the answer is stale |
| Remote.SecondPublisherIsFenced | src/remote.rs:293-325 | of two publishers from one HEAD with different images the second is fenced |
| HeadCodec.HeadRoundTripIff | src/remote.rs:98-131 | a body decodes to a head exactly when it is that head's encoding and the generation is not zero |
| HeadCodec.RefusedIff | src/remote.rs:107-131 | refused exactly for a wrong length or generation zero |
| Documents.PinSurvives | src/index/builder.rs:235-237 | a pin survives every mutation of its key except unpinning and removal |
| Documents.OtherKeysUntouched | src/index/builder.rs:195-303 | mutations of other keys leave an entry alone |
| Documents.UpsertPinsIff | src/index/builder.rs:229-237 | after an upsert the key is pinned if and only if it was, or the new entry is and its content differs from the stored one |
| Documents.RepinningIsIgnored | src/index/builder.rs:229-237 | a concrete upsert whose pin is lost |
| Builder.IndexBuilder.constructor | src/index/builder.rs:87-100 | a new builder is the empty map |
| Builder.IndexBuilder.FromParts | src/index/builder.rs:114-138 | taking over aligned arrays |
| Builder.IndexBuilder.IsUnchanged | src/index/builder.rs:167-172 | whether the key is present with that content hash |
| Builder.IndexBuilder.UpsertDoc | src/index/builder.rs:195-249 | the arrays stay aligned and the map is the upserted one; a wrong dimension changes nothing |
| Builder.IndexBuilder.RemoveDoc | src/index/builder.rs:257-277 | exactly one entry goes, the last row moves into its place intact, the key map stays a bijection |
| Builder.IndexBuilder.TouchDoc | src/index/builder.rs:281-290 | only the timestamp of that key changes |
| Builder.IndexBuilder.SetPinnedPrefix | src/index/builder.rs:294-303 | exactly the pins under the prefix are set, and the number of changed entries is returned |
| Builder.RemoveRow | src/index/builder.rs:257-277 | what swap-remove with the vector row move does to rows and map |
| Sparse.LocalCounts | src/index/sparse.rs:49-58 | the saturated term counts of a document |
| Sparse.Accumulate | src/index/sparse.rs:69-80 | for every term its frequency in every document, in whatever order counts are merged |
| Sparse.Build | src/index/sparse.rs:122-166 | the index has sorted distinct terms, ascending postings, aligned frequencies, document lengths and their average |
| Sparse.ToDocTerms | src/index/sparse.rs:244-255 | gives back every document's terms in posting order, each repeated by its frequency, and fails exactly when a posting names a document out of range |
| Rebuild.RebuiltCounts | src/index/sparse.rs:244-255 | what comes back for a document is its term multiset cut at 65535 |
| Rebuild.LosslessIff | src/index/sparse.rs:49-58 | reconstruction is lossless if and only if no count saturated |
| Rebuild.BuildIsDetermined | src/index/sparse.rs:122-166 | building has one result and depends only on the term multisets |
| Rebuild.RebuildIsIdentityIff | src/index/sparse.rs:122-255 | rebuilding from the index gives the identical index if and only if no count saturated |
| Rebuild.LongDocumentIsCut | src/index/sparse.rs:49-80 | a document with one term 65536 times comes back with 65535 and its rebuilt index differs |
| Rebuild.ShortDocumentsAreLossless | src/extract/mod.rs:150-153 | documents of at most 65535 terms never saturate |
| SparseSearch.Score | src/index/sparse.rs:195-237 | the head of the ranking of direct per-document sums over the distinct query terms, for exactly the allowed documents with a match; fails exactly when a query term's posting names an allowed document out of range |
| SparseSearch.OnlyTheTermSetMatters | src/index/sparse.rs:205-215 | neither repetition nor order of query terms changes a score |
| Relevance.BuiltIsSearchable | src/index/sparse.rs:122-166 | every built index satisfies what scoring relies on |
| Relevance.ContributionFromCorpus | src/index/sparse.rs:106-237 | a term's share is the BM25 idf over the corpus times the BM25 weight of its saturated count at the document's length |
| Relevance.PositiveIffMatched | src/index/sparse.rs:106-237 | with a non-negative k1 and b a proportion a document scores above zero if and only if it contains a query term |
| Relevance.MoreOccurrencesScoreMore | src/index/sparse.rs:114-116 | of two documents of one length the one with more occurrences of a term gets at least as much for it, and strictly more below saturation |
| Weighting.WeightIsBounded | src/index/sparse.rs:114-116 | the term weight lies between 0 and k1 plus 1 |
| Weighting.WeightGrowsWithCount | src/index/sparse.rs:114-116 | the term weight grows with the frequency |
| Weighting.WeightFallsWithLength | src/index/sparse.rs:114-116 | the term weight does not grow with the length of the document |
| Weighting.IdfIsPositive | src/index/sparse.rs:106-108 | idf is positive and falls with the document frequency |
| Ranking.TopIsUnique | src/index/dense.rs:99-109 | scores and a limit have one ranking, descending score with ties by id |
| Ranking.TopProperties | src/index/dense.rs:99-168 | hits are distinct scored documents, at most the limit, and what is left out is no better |
| Dense.ComputeSimilarity | src/index/dense.rs:55-80 | the dot product or the negated squared distance |
| Dense.ConsiderStep | src/index/dense.rs:140-160 | one heap step keeps exactly the best k seen so far |
| Dense.TopK | src/index/dense.rs:117-168 | the bounded heap returns the first k of the complete ranking of the allowed documents, ties included |
| Fusion.Fuse | src/index/fuse.rs:52-68 | the head of the ranking of the accumulated reciprocal-rank shares |
| Fusion.FusedScores | src/index/fuse.rs:45-68 | over lists without repetitions a document's score is the sum of its shares, and exactly the listed documents are scored |
| Fusion.AheadEverywhereIsAheadFused | src/index/fuse.rs:45-68 | with positive weights a document ahead wherever another is listed is strictly ahead after fusion |
| LinkGraph.Resolve | src/index/graph.rs:68-84 | out-lists are the live targets in order, in-lists the exact transpose with multiplicity, without self-loops or dangling ids |
| LinkGraph.Related | src/index/graph.rs:107-129 | the first k by twice the direct links plus the links from the document's parents, ties by id |
| LinkGraph.CoCitationIsMutual | src/index/graph.rs:118-125 | the co-citation part counts the pages that link to both and is the same from either side |
| LinkGraph.Boosted | src/index/graph.rs:136-166 | each candidate gains weight times the mean of its candidate neighbours and the list is sorted again |
| LinkGraph.BoostRanks | src/index/graph.rs:136-166 | boosting a complete ranking gives the complete ranking of the boosted scores, the early return included |
| Filters.Evaluate | src/index/meta.rs:224-235 | exactly the matching documents, and no restriction exactly for the match-all filter |
| Filters.PathOfPrinted | src/index/meta.rs:55-67 | on a URL printed from its parts the shortcut gives exactly the path |
| Filters.PathlessUrl | src/index/meta.rs:55-67 | what it gives without a path |
| Search.SearchPrepared | src/index/mod.rs:394-447 | a dimension mismatch is an error; otherwise the answer of the pipeline for the computed pool, failing exactly when a query term's posting names an admitted document out of range |
| Search.HitsAreSound | src/index/mod.rs:394-447 | for any pool hits are distinct, admitted by the filter, at most the limit, sorted by score then id, and matching records unless the filter is match-all and the term index has more documents than there are records |
| Search.WidePoolIsExact | src/index/mod.rs:394-447 | a pool covering records and indexed documents gives the fusion of the complete rankings, boosted and cut |
| Search.WidePoolsAgree | src/index/mod.rs:405-437 | any two covering pools give the same hits |
| Search.PoolCoversIff | src/index/mod.rs:405-409 | the pool covers a corpus if and only if it has at most 32 documents, at most the limit, or at most the limit times the multiplier |
| Quant.EncodeRow | src/index/quant.rs:131-139 | the codes are written in place, everything else stays, and the scale is returned |
| Quant.EncodeInt8 | src/index/quant.rs:154-176 | every row is stored as its codes and scale |
| Quant.DotQuery | src/index/quant.rs:185-194 | the asymmetric dot product of the stored codes |
| Quant.DotIsNearExact | src/index/quant.rs:131-194 | approximate and exact dot product differ by at most half the scale times the query's absolute sum, the zero row included |
| BinaryQuant.PackSigns | src/index/quant.rs:122-128 | the sign bits are packed in place into the row's words and nothing else changes |
| BinaryQuant.EncodeBinary | src/index/quant.rs:40-60 | every row holds the packed signs of its vector |
| BinaryQuant.Hamming | src/index/quant.rs:95-103 | the word-by-word distance to the query bits |
| BinaryQuant.HammingCountsSigns | src/index/quant.rs:95-128 | word-packed distance is the number of dimensions whose sign bits differ |
| BinaryQuant.Shortlist | src/index/quant.rs:107-119 | partial selection gives the n least by distance then id, in order |
| BinaryQuant.ShortlistDistances | src/index/quant.rs:107-128 | the order it selects by is the number of differing signs |
| BinaryQuant.TwoTierSearch | src/index/quant.rs:203-235 | the best k by exact score among the shortlisted documents |
| BinaryQuant.WideTwoTierIsExact | src/index/quant.rs:203-235 | a shortlist covering the corpus makes it exact top-k |
| EdgeCodec.Encode | src/index/graph.rs:22-32 | the buffer built by appending is the section layout |
| EdgeCodec.Decode | src/index/graph.rs:37-54 | the cursor loop is the section parser |
| EdgeCodec.DecodeEncodedIff | src/index/graph.rs:22-54 | decode gives back what was encoded if and only if every count fits 32 bits |
| EdgeCodec.EncodeDecoded | src/index/graph.rs:22-54 | re-encoding an accepted section gives its bytes |
| EdgeCodec.TrailingBytesRefused | src/index/graph.rs:50-52 | an accepted section followed by anything is refused |
| MetaCodec.Encode | src/index/meta.rs:73-95 | the buffer built by appending is the section layout |
| MetaCodec.Decode | src/index/meta.rs:100-151 | the cursor loop is the section parser, legacy layout included |
| MetaCodec.DecodeEncodedIff | src/index/meta.rs:73-151 | decode gives back what was encoded if and only if every field fits and every kind has a tag |
| MetaCodec.LegacyRoundTrip | src/index/meta.rs:120-132 | a file without freshness columns reads as stale, unpinned, without entity tag |
| MetaCodec.EncodeDecodedIff | src/index/meta.rs:73-151 | re-encoding an accepted section gives its bytes if and only if every kind byte is a known tag and the freshness columns are there, or there is no record |
| MetaCodec.UnknownKindIsRewritten | src/index/meta.rs:73-151 | a concrete accepted section that comes out with another kind byte |
| Bm25Codec.Encode | src/index/sparse.rs:259-283 | the buffer built by appending is the section layout |
| Bm25Codec.Decode | src/index/sparse.rs:286-329 | the cursor loop is the section parser, bitmaps and document frequencies checked |
| Bm25Codec.DecodeEncodedIff | src/index/sparse.rs:259-329 | decode gives back what was encoded if and only if every number fits its field and the three floats are 32 bits wide |
| Bm25Codec.DecodedFits | src/index/sparse.rs:286-329 | whatever decodes has frequencies aligned with ascending documents; documents in range are not among it |
| Bm25Codec.EncodeDecodedIff | src/index/sparse.rs:259-329 | re-encoding an accepted section gives its bytes if and only if nothing follows the index and every bitmap is in the library's own form |
| Bm25Codec.TrailingBytesAccepted | src/index/sparse.rs:286-329 | a section followed by anything is accepted as the same index and comes out changed |
| IndexFormat.CompressedReadsBack | src/index/format.rs:199-281 | a compressed section reads back if it is at most 512 MiB and at most 1024 times its compressed size, and is refused otherwise |
| IndexFormat.TagBackIff | src/metric.rs:22-38 | a metric tag is written back as it was read if and only if it is 0, 1 or 2 |
| Images.ParseSerialized | src/index/mod.rs:257-515 | parsing a written image gives back all of it, floats rounded to 32 bits, empty sections omitted or not |
| Images.ParseSerializedIff | src/index/mod.rs:257-515 | parsing a written image gives back exactly the index if and only if every number fits, every float is 32 bits wide and what was compressed may be expanded |
| Images.BigMetadataIsRefused | src/index/format.rs:199-281 | metadata that may not be expanded makes the written image unreadable |
| Images.TooLongIsRefused | src/index/format.rs:199-281 | an index of one record, everything in it fitting the format, that is written and refused on reading |
| Images.ReserializeIff | src/index/mod.rs:241-515 | writing a decoded image again gives the same image if and only if its header agrees with its sections and the sections are the needed ones, compressed and encoded as this version does it |
| Images.StrayPartsAreRewritten | src/index/mod.rs:257-312 | any image that reads like the one written for an index but is another is accepted as that index and is not current |
| Images.StraysAreRewritten | src/index/mod.rs:257-312 | five concrete images that are accepted and come out changed |
| Images.BuilderFromImageIff | src/index/mod.rs:317-388 | a decoded image makes a consistent builder if and only if no posting names a document out of range, keys are distinct and the term index covers as many documents |
| Images.UncheckedImagesParse | src/index/mod.rs:257-388 | for each of the three conditions an image that parses and fails it |
| Images.BuilderRoundTripIff | src/index/mod.rs:257-387 | serialize, parse, into a builder: rows and keys come back, and the contents are the same if and only if no term count saturated |
| Facade.FromBytes | src/index/mod.rs:215-235 | parses, rebuilds key map and links, and keeps the image when the vectors are borrowed |
| Facade.Open | src/facade.rs:1002-1011 | fails exactly for images that do not parse or are of another embedder |
| Facade.GoodTermsWithinCounts | src/index/sparse.rs:244-255 | terms given back by a sound index never saturate again |
| Facade.SnapshotShows | src/index/builder.rs:177-189 | a snapshot shows exactly the builder's contents and is searchable |
| Facade.UsableIsCoherent | src/index/mod.rs:317-335 | a usable index can be searched and no search on it fails |
| Facade.LoadedIsCoherent | src/index/mod.rs:215-335 | whatever loads satisfies what search relies on, sound or not |
| Facade.StrayPostingDerails | src/index/mod.rs:257-448 | an image with a posting out of range loads, and a search for its term fails |
| Lifecycle.LinkIndex.InMemory | src/facade.rs:321-325 | an empty index |
| Lifecycle.LinkIndex.ReadIndex | src/facade.rs:567-577 | the search-ready index shows exactly the current links, and only the snapshot cache may change |
| Lifecycle.LinkIndex.MaterializeBuilder | src/facade.rs:581-591 | the opened index becomes a builder with the same links, the snapshot is dropped |
| Lifecycle.LinkIndex.ReloadFromBytes | src/facade.rs:344-350 | on an error nothing changes; otherwise the image's links are shown, soundly exactly when the image is sound |
| Lifecycle.LinkIndex.ToBytes | src/facade.rs:363-369 | the loaded image itself, or one from which any other index shows the same links |
| Lifecycle.LinkIndex.Freeze | src/facade.rs:378-394 | the builder is replaced by its image with the same links, or stays |
| Lifecycle.LinkIndex.SetPinned | src/facade.rs:446-453 | exactly the pins under the prefix change, and their number is returned |
| Lifecycle.LinkIndex.IngestFrom | src/facade.rs:600-676 | the links shown become those of the batched ingestion, also when it ends in an error |
| Lifecycle.LinkIndex.RefreshWith | src/facade.rs:686-845 | links and report become those of a possible completion order, on any index; when stored URLs read back to their keys they are the determined ones, and the index keeps what later calls rely on |
| Ingest.IngestInto | src/facade.rs:620-676 | index, counters and number of page outcomes are those of feeding the pages in batches; a failed item keeps what was flushed and drops what waited |
| Ingest.FlushBatch | src/facade.rs:862-911 | the waiting pages are upserted in order and counted |
| Batching.BatchSizeIsInvisible | src/facade.rs:620-676 | for such a stream index and counts are those of taking one page after the other, for any batch size |
| Ingest.IngestAccounts | src/facade.rs:620-676 | every page is counted once, the index grows by exactly the added pages, no link is lost |
| Batching.RepeatedKeyDependsOnBatch | src/facade.rs:634-652 | a page that changes and changes back ends up differently for batches of one and of two |
| Batching.BatchSizeIsInvisibleIff | src/facade.rs:620-676 | the batch size is invisible from every starting index if and only if no key that brought content comes again without content or with another |
| Batching.DistinctKeysSettle | src/facade.rs:620-676 | a stream with distinct keys meets that |
| Refresh.PlanWork | src/facade.rs:697-725 | one pass plans, in row order, the readable URLs of the records to evict and of those to fetch |
| Refresh.EvictAged | src/facade.rs:737-742 | the links under the keys the planned URLs have now go, each counted if it was there |
| Refresh.FetchAll | src/facade.rs:745-801 | with bounded concurrency and any completion next, every stale URL completes once, and index, report and waiting pages are those of applying the answers in that order |
| Refresh.UpsertAll | src/facade.rs:803-840 | chunk by chunk every waiting page is upserted, or found identical and touched, in order |
| Refresh.RefreshInto | src/facade.rs:686-845 | on any index, index and report are those of an order in which the planned fetches may complete |
| Refresh.RefreshTotals | src/facade.rs:189-208 | on any index every fetch and every age eviction that finds its link is counted once, and there is a page for every fetch that did not fail |
| Refresh.RefreshSize | src/facade.rs:189-208 | the index shrinks by what is reported removed and grows by the changed pages that come under new keys |
| Refresh.EvictedIff | src/facade.rs:737-742 | age eviction takes exactly the links under the keys its URLs have now, and leaves the others as they are |
| Refresh.PinnedLinkStaysIff | src/facade.rs:706-742 | whatever the order, a pinned link goes if and only if the URL of an over-age unpinned link reads back to its key, and stays pinned otherwise |
| Refresh.UnreadLinkIsUntouched | src/facade.rs:697-840 | whatever the order and the answers, a link whose key no planned URL reads back to is as before |
| RefreshOutcome.PlannedListed | src/facade.rs:697-725 | when stored URLs read back to their keys the plan lists every link the policy evicts, or fetches, once, with its own URL |
| RefreshOutcome.RefreshIsDetermined | src/facade.rs:686-845 | then index and report are determined by plan and answers, whatever the completion order: each link is kept, restamped, rewritten or dropped by its own answer, counted once, and reported as such |
| RefreshOutcome.RefreshRetains | src/facade.rs:686-845 | no link outside the chosen ones is touched, no pinned link removed or unpinned, and every link counted unchanged or refreshed carries the new time |
| RefreshOutcome.RefreshAccounts | src/facade.rs:189-208 | the total is stale links plus age evictions, the length drops by exactly removed, and pages has one entry per acted-on link except failures and age evictions |
| Rekeying.StoredLinkRekeysIff | src/facade.rs:697-725 | a stored link reads back to its own key if and only if the path of its URL is stable, short of a hash collision |
| Rekeying.StableIndexRekeys | src/facade.rs:697-725 | an index of links stored from URLs with stable paths meets the premise of a refresh |
| Rekeying.IngestKeepsStable | src/facade.rs:620-676 | ingesting pages with stable paths keeps it such an index |
| Rekeying.RefreshKeepsStable | src/facade.rs:686-845 | and so does a refresh |
| Rekeying.SlippedLinkStaysStale | src/facade.rs:759-764 | a link that reads back to another key, found unchanged, is counted and reported under that key and keeps its old time |
| Rekeying.SlippedLinkIsDoubled | src/facade.rs:815-838 | changed, it is added under the other key beside the old link, and reported as an update |
| Rekeying.SlippedLinkEvictsPinned | src/facade.rs:706-742 | past the age cap, it stays and the pinned link under the other key is removed |
| UrlKeys.FmtU16 | src/url_key.rs:90-102 | the digit buffer holds the decimal form, which parses back to the value |
| UrlKeys.CanonicalChunks | src/url_key.rs:35-85 | the chunks concatenate to the canonical string |
| UrlKeys.Canonicalize | src/url_key.rs:106-110 | the canonical string |
| UrlKeys.FromUrl | src/url_key.rs:126-130 | feeding a hasher chunk by chunk, byte by byte within a chunk, gives the hash of the whole canonical string |
| UrlKeys.FoldConcat | src/url_key.rs:21-34 | what a state machine reads in pieces it reads as the whole |
| UrlKeys.SplitCanonical | src/url_key.rs:35-85 | re-splitting a canonical string gives the canonical parts |
| UrlKeys.CanonicalEqualIff | src/url_key.rs:35-85 | two URLs share a canonical string if and only if scheme, lower-cased host, port, once-stripped path and multiset of non-empty query segments agree |
| UrlKeys.CanonicalIsStableIff | src/url_key.rs:62-69 | canonicalizing again is the identity if and only if the path does not end in two slashes or is just those two |
| UrlKeys.DoubleSlashIsNotStable | src/url_key.rs:62-69 | a URL whose canonical string is another after a second pass |
| UrlKeys.FilterSeesCanonicalPath | src/index/meta.rs:55-67 | the path filter on a stored URL sees the canonical path |
| Html.ExtractLinks | src/extract/html.rs:90-168 | the scan terminates in bounds on every input and returns the links of the specification |
| Html.ScanTag | src/extract/html.rs:173-233 | the first href value and the position after the tag, a `>` inside quotes not ending it |
| Html.FindCi | src/extract/html.rs:238-252 | hopping from `<` to `<` finds the first match ignoring case |
| Html.PushHref | src/extract/html.rs:255-270 | appends the trimmed, decoded href unless blank |
| Html.DecodeEntities | src/extract/html.rs:274-294 | the decoding of the specification |
| HtmlTokens.ReadAttrs | src/extract/html.rs:173-233 | scanning a printed tag gives its first href and what follows the tag |
| HtmlTokens.PrintedPageLinks | src/extract/html.rs:90-168 | for every page printed from well-formed tokens (text with stray brackets, comments, raw text, closing tags, elements with suffixed names, blanks and slashes anywhere between and around attributes) the scan returns exactly the anchors' first hrefs in order |
| HtmlTokens.CleanedUndoesEscape | src/extract/html.rs:255-312 | a trimmed non-blank target escaped into an attribute comes out as it was |
| HtmlTokens.PrintedPageTargets | src/extract/html.rs:90-312 | targets escaped into the anchors of a page are exactly what the scan returns, in order |
| HtmlTokens.DecodeUndoesEscape | src/extract/html.rs:274-312 | decoding undoes escaping for every text |

## Left out

- Network, file system, HTTP client, redirects inside the client, memory mapping: a fetch is one outcome (page, 304 or failure), a store call works, fails, or loses its reply.
- Retries with backoff and robots.txt in the crawl: retries are inside one fetch, robots would add a skip before a launch.
- The object store is assumed to make an image create-only (an equal one is accepted) and to swap HEAD only on a matching object generation; the seal around HEAD's body and the container checksums are not part of this model.
- Hashes are taken to be collision-free: a key is a 64-bit number, an image is its length and checksum.
- Floating point: scores and vectors are reals, so rounding, NaN and infinities are not modelled (a zero denominator in the term weight gives 0); the logarithm in idf stays uninterpreted; vector normalisation is a parameter that keeps the length. In a file a float is a 32-bit word, read as a real by a map that loses no bit.
- The container around the sections (magic, version, directory, checksums, alignment) and the insides of roaring bitmaps and zstd: a bitmap and a compressed payload are bytes that the library reads back.
- UTF-8: a char stands for one byte, so lossy decoding and trimming of non-ASCII blanks are not modelled.
- The URL parser: URLs come as components, and stored URLs are read back by a parameter.
- Extraction apart from links, keyword distillation and embedders: a page's descriptor and the vector of a text are inputs. A failing extractor or embedder ends a run early and is not modelled.
- Clock: one time per ingestion or refresh run.
- Duplicate constructors and wrappers: opening by path, `load_or_empty_with`, `load_if_changed_with`, `related` on the facade, exports.
- Facade conversion failures: turning an opened index into a builder can fail only for a misaligned vector block, which loading has already ruled out or copied.
- BinaryQuant.PackSigns: a word is a sequence of 64 bits, and setting a bit stands for the shifted or.
- LinkGraph.Related: connection counts are unbounded, not 32 bits wide.
- Refresh.RefreshInto: a fetch is answered by its URL alone, so two records whose URLs read back to one URL get one answer.
- Lifecycle.LinkIndex.Freeze: says nothing about a builder that the format cannot hold, beyond keeping it when the image does not parse.
- CrawlPaths.AnyOrderCompletes: the condition on the site is sufficient; whether some order loses a page also depends on how many fetches may be in flight.
- CrawlReach.SequentialCrawlIsBreadthFirst: without redirects; with them a page is recorded under the key it was requested by, and CrawlReach.DepthLimitEndsCrawl and the accounting still hold.
- The graph store bridge, the knowledge-base layer, the GitHub source, authentication, Markdown links and the Python bindings.

# xlb, modelled and verified

xlb fetches content-addressed blobs through a chain of sources, keeps them in a cache that survives restarts, meters
what a node uploads, and publishes blobs to an S3-compatible store from which a CDN serves them. This project models the
parts of it that hold state or do arithmetic and proves what they promise, in Dafny 4.11. `dafny verify dfyconfig.toml`
checks all of it.

## What is modelled

**The disk cache**, at three levels.

1. The index (`Lru.dfy`): the recency queue, the size map and the running total of `LruState`, as a class whose methods
   are proved equal to functions on *any* index, sound or not. `RecentRun.dfy` says what those functions add up to over
   whole request sequences: the queue is the longest most recent run of distinct blobs that fits the budget.
   `BudgetMonotonicity.dfy` says exactly for which sizes and budgets a larger budget never gets fewer hits when every miss
   is filled, `UnfilledMisses.dfy` and `AnyTraceRoom.dfy` exactly for which it never does on any trace whatever.
2. The cache as one caller sees it: file names (`Directory.dfy`), opening a directory (`Reopen.dfy`), also one with a hash
   in two spellings (`Spellings.dfy`) and one whose opening was cut short (`OpenCut.dfy`), the class `DiskCache` with its
   scan, fill, eviction, lookup and store, and what faults of the file system do to them (`DiskCache.dfy`), and whole
   histories with files and modification times (`DiskHistory.dfy`).
3. The cache under concurrency (`CacheMachine.dfy`): any number of stores and lookups, each stopped wherever the code
   releases the lock or waits for the file system, with partial writes, failures, callers that give up on a call, outside
   tampering, process crashes, also inside opening, and reopening under a new budget. `CacheIntegrity.dfy` proves that
   files are never torn, `CacheChanges.dfy` says what each step changes, `CacheFootprint.dfy` accounts for every file and
   byte on disk, `CacheBacking.dfy` for the file of every index entry, `CacheRecency.dfy` for the order of the queue,
   `CacheSolo.dfy` proves that a call whose steps run uninterrupted is the sequential call of level 2, failures included,
   and `CacheRace.dfy` gives the schedules on which a file escapes the index.

**The signer**: `format_amz_time` against a calendar stepped day by day (`Calendar.dfy`, `AmzTime.dfy`, on the numerals of
`Digits.dfy`), percent-encoding (`UriEncoding.dfy`), the canonical request and string to sign (`Signing.dfy`), and the
object key against the URL from which the CDN source reads it back (`SeedKey.dfy`).

**The upload limiter** (`UploadLimiter.dfy`): the pre-charging token bucket as a class over real time with a ghost trace
of everything that passed it, its closed form as a greedy shaper, and the rate bounds, also under live cap changes.

**The fetch path**: the tier-ordered chain (`FetchChain.dfy`), an asset class with overlapping fetches over its in-memory
cache (`AssetClass.dfy`) and over its disk cache: as a class whose lookups and stores do not overlap (`DiskAsset.dfy`),
and as a machine in which every fetch is a lookup, a walk of the chain and a store on the concurrent cache and all of them
overlap step by step (`FetchMachine.dfy`; `FetchSolo.dfy` proves that a fetch whose steps run uninterrupted is the fetch of
the class, and `FetchRace.dfy` gives a run that loses a file). Hashes and their hexadecimal form (`Blake.dfy`), and the
metrics accumulator against the full history of fetches (`MetricsSink.dfy`). `StableSort.dfy` is the library's stable
sort, `Text.dfy` string search.

## Conventions

- BLAKE3 and SHA-256 are parameters. Nothing assumes that they have no collisions; where two byte strings must be told
  apart, the lemma names the two and asks for it. "Complete blob" is stated in both available senses: the file hashes to
  its name, and the file is byte for byte what some store was given.
- A 32-byte hash is the number that its bytes spell, so that `to_hex` is its 64-digit numeral and `from_hex` reads either
  letter case.
- Sizes, counters and totals are natural numbers. The source's 64-bit sums do not wrap while the budget is at most 2^63.
- A modification time is an integer. A directory is a map from names to files; an entry that is not a regular file makes
  writing, renaming onto it and removing it fail.
- A crash is a crash of the process: completed file operations stay. One cache is live per directory.
- Time and tokens of the limiter are real numbers.

## Where the code and its documentation differ

- `cache.rs` says that the queue lists the keys of the size map without duplicates. Opening a directory that holds one
  hash in two spellings (lower and upper case both decode) breaks this: `TwoCopiesBreakIndex` gives such a directory,
  `OpenIsValidIff` and `OpenIsSoundIff` the exact conditions. They hold of every directory that only the cache has written
  (`NamesStayCanonical`).
- `cache.rs` says that a store evicts until the on-disk footprint is within the budget. That fails once a file escapes the
  index, and there are two ways for it to. A lookup forgets a hash whose file is on disk: any read error counts as a
  vanished file, so one error on an intact file is enough (`ReadErrorLosesBlob`, `ReadErrorIff`); or the file was gone when
  it was read and a store has put it back since, and then the run may have no failure at all and still end idle with twice
  the budget on disk (`RaceOverflowsBudget`). Or a caller gives up on a store between its rename and its last removal
  (`AbandonedStoreLosesBlob`). `NextAccountsIff` gives the exact steps, `AccountedThroughoutIff` the exact runs.
- The index can also hold a blob whose file is gone, until the next lookup of it: a late removal takes the file of a blob
  that has been stored again (`LateRemovalLosesFile`). `NextBacksIff` and `BackedThroughoutIff` give the exact steps and
  runs. Three overlapping fetches of two blobs are enough, without any fault (`LateFetchesLoseFile`); `FetchesKeepIff` says
  exactly which runs of fetches keep files and index together.
- A larger budget is not always better, for two reasons. A blob that only the larger cache stores can push out what the
  smaller one keeps (`OversizedBlobsBreakMonotonicity`); when every miss is filled this is the only reason, and
  `LargerBudgetHitsMoreIff` says for which sizes and budgets it occurs. And a fetch that no source serves is a hit in the
  larger cache alone, where it makes a blob recent that the smaller one has lost, so that the next store pushes out another
  (`UnfilledMissBreaksMonotonicity`, on blobs that all fit the smaller budget). `AnyTraceHitsMoreIff` gives the exact sizes
  and budgets for all traces; blobs of one size (`EqualSizesHaveRoom`), or few enough that the larger cache holds all of
  them (`AllTogetherHaveRoom`), meet its condition.
- `cache.rs` names the scratch file `<hash>.tmp`; the code writes `<hash>.tmp.<pid>.<n>`. The model follows the code and
  sweeps both spellings, as `open` does.
- `seed.rs` documents a sixteen-character date. It has sixteen characters exactly before second 253402300800, the first of
  the year 10000, and seventeen at it (`StampWidthLimit`).
- `derive_key` drops leading slashes of the path and `url_for` does not, and `url_for` also replaces a token in the host.
  `PublishMeetsReadBack` gives the exact templates for which publishing and reading back agree, `ExtraSlashDisagrees` and
  `TokenInHostDisagrees` two for which they do not.
- Opening orders blobs by modification time, which lookups do not change: recency from lookups does not survive a restart
  (`RestartKeepsIndexIff`, `HitsAreForgotten`; `ForgottenHit` is such a cache).

## Model

| member | source | states |
|---|---|---|
| `Calendar.CivilIsNaive` | crates/xlb/src/seed.rs:373-386 | for every day number the closed form is the date reached by stepping month lengths and the 4/100/400 leap rule day by day from 1970-01-01 |
| `Calendar.CivilInvertsDayNumber` | crates/xlb/src/seed.rs:377-386 | for every integer day, negative ones too, the closed form gives a valid month and day, and counting days back gives the day |
| `Calendar.DayNumberInvertsCivil` | crates/xlb/src/seed.rs:377-386 | every valid date is the closed form of its own day number, so the two are inverse |
| `Calendar.NaiveDateCountsDays` | crates/xlb/src/seed.rs:373-386 | the day-by-day calendar stays valid and counts days |
| `Calendar.CivilIsMonotone` | crates/xlb/src/seed.rs:377-386 | dates are in order exactly when days are |
| `AmzTime.ReadsBack` | crates/xlb/src/seed.rs:372-391 | parsing a formatted stamp gives back the Unix second, for every input |
| `AmzTime.StampIsInjective` | crates/xlb/src/seed.rs:372-391 | different seconds have different stamps |
| `AmzTime.StampWidth` | crates/xlb/src/seed.rs:369-391 | the stamp has sixteen characters exactly for the years that print with four digits, never fewer, and the date stamp is eight shorter |
| `AmzTime.StampWidthLimit` | crates/xlb/src/seed.rs:369-391 | it has sixteen characters exactly before Unix second 253402300800, and seventeen at that second |
| `AmzTime.StampOrder` | crates/xlb/src/seed.rs:388-390 | stamps of one length are in dictionary order exactly when the times are in order |
| `AmzTime.StampAlphabet` | crates/xlb/src/seed.rs:388-390 | stamps hold no line break, so they cannot run into the next line of what is signed |
| `AmzTime.StampSpells` | crates/xlb/src/seed.rs:388-390 | while years have four digits, the two strings character by character: year, month, day, T, hour, minute, second, Z, each field with leading zeros |
| `Digits.PaddedSpells` | crates/xlb/src/seed.rs:388-389 | a padded number is all digits and has the same value, however many digits it needs |
| `Digits.FixedOrder` | crates/xlb/src/seed.rs:388-389 | numerals of one length are in dictionary order exactly when their values are in order |
| `Digits.FixedRoundTrip` | crates/xlb/src/lib.rs:79-89 | digits of a fixed width are read back as the number when it fits |
| `Digits.NumeralRoundTrip` | crates/xlb/src/lib.rs:79-89 | re-spelling a numeral gives the same text exactly when it has no upper-case letter |
| `UriEncoding.UriEncodeSegment` | crates/xlb/src/seed.rs:356-367 | the byte loop computes the segment encoding: unreserved bytes pass, every other byte becomes a percent sign and two upper-case digits |
| `UriEncoding.EncodeByteIs` | crates/xlb/src/seed.rs:360-364 | the letters, the digits and `-_.~` pass, and any other byte is a percent sign and its two upper-case digits |
| `UriEncoding.SplitThenJoin` | crates/xlb/src/seed.rs:131-136 | splitting cuts at every separator, and joining restores the path |
| `UriEncoding.SegmentsAreOnePass` | crates/xlb/src/seed.rs:129-137 | splitting at slashes, encoding and joining equals encoding in one pass that lets slashes through |
| `UriEncoding.DecodeRestores` | crates/xlb/src/seed.rs:354-367 | percent-decoding (section 2.1 of RFC 3986) restores every path, and encoded paths hold no line break |
| `Signing.CanonicalUriIsInjective` | crates/xlb/src/seed.rs:129-144 | for one target, equal canonical URIs have equal keys, and they hold no line break |
| `Signing.HostOfEndpoint` | crates/xlb/src/seed.rs:112-144 | an endpoint with https, http or no scheme, and with any number of slashes at its end, has the bare host name as its host |
| `Signing.SignedPathIsSent` | crates/xlb/src/seed.rs:124-137 | the signed path decodes to the path of the URL that the request is sent to |
| `Signing.RequestLines` | crates/xlb/src/seed.rs:242-253 | the canonical request has these nine lines: verb, path, nothing, the host, payload hash and date headers, nothing, the names of the signed headers, the payload hash |
| `Signing.StringToSignLines` | crates/xlb/src/seed.rs:238-258 | the signed string has these four lines: algorithm, time, date/region/s3/aws4_request, hash of the canonical request |
| `Signing.CanonicalRequestIsUnambiguous` | crates/xlb/src/seed.rs:231-253 | for one target, equal canonical requests have equal method, key, payload hash and second |
| `Signing.StringToSignIsUnambiguous` | crates/xlb/src/seed.rs:255-258 | so do equal strings to sign when SHA-256 tells the two requests apart |
| `SeedKey.PublishMeetsReadBack` | crates/xlb/src/seed.rs:312-328 | the URL that the CDN source builds is the template's origin followed by the derived key exactly when the origin holds no token and the path has no extra leading slash |
| `SeedKey.ExtraSlashDisagrees` | crates/xlb/src/seed.rs:325-327 | a template with an extra slash for which the two URLs differ |
| `SeedKey.TokenInHostDisagrees` | crates/xlb/src/transport/http.rs:50-52 | a template with a token in the host for which the two URLs differ |
| `SeedKey.OriginShape` | crates/xlb/src/seed.rs:314-321 | the origin is an optional scheme up to the first `://`, a host without slash, and the slash |
| `SeedKey.DeriveKeyErrors` | crates/xlb/src/seed.rs:318-324 | the two errors occur on exactly the templates without a path and with a path but no token |
| `SeedKey.KeyOfTemplate` | crates/xlb/src/seed.rs:312-328 | for a scheme, a host, any number of slashes and a path with one token the key is the path with the hash for the token and no slash in front |
| `SeedKey.TrimTakesSlashes` | crates/xlb/src/seed.rs:326 | trimming takes all leading slashes and nothing else |
| `SeedKey.ReplaceFirst` | crates/xlb/src/transport/http.rs:50-52 | up to the first token nothing changes, the token becomes the hash, and the rest is treated likewise |
| `SeedKey.SplitOnceIsFirst` | crates/xlb/src/seed.rs:314-318 | a split is at the first occurrence, overlapping ones included |
| `SeedKey.KeysAreDistinct` | crates/xlb/src/seed.rs:325-327 | under one template two blobs have the same key exactly when they are the same blob |
| `SeedKey.ReplaceAcrossSlash` | crates/xlb/src/transport/http.rs:50-52 | substitution works separately on both sides of a slash |
| `Blake.HexRoundTrip` | crates/xlb/src/lib.rs:79-89 | every hash is read back from its hexadecimal form, which is in lower case |
| `Blake.HexSpelling` | crates/xlb/src/lib.rs:79-89 | a readable name is the canonical one exactly when it has no upper-case letter |
| `Blake.FromHexAccepts` | crates/xlb/src/lib.rs:79-89 | exactly the strings of 64 hexadecimal digits are read |
| `Blake.CaseIsIgnored` | crates/xlb/src/lib.rs:79-89 | names that differ in letter case only are read as one hash |
| `Blake.ToHexIsInjective` | crates/xlb/src/lib.rs:87-89 | different hashes are spelled differently |
| `UploadLimiting.UploadLimiter.constructor` | crates/xlb/src/transport/blobs.rs:92-101 | an uncapped, enabled limiter with an empty bucket, an empty trace and no cap set so far |
| `UploadLimiting.UploadLimiter.SetKbits` | crates/xlb/src/transport/blobs.rs:104-106 | only the cap changes, and the highest cap so far is kept account of |
| `UploadLimiting.UploadLimiter.SetEnabled` | crates/xlb/src/transport/blobs.rs:112-114 | only the flag changes |
| `UploadLimiting.UploadLimiter.Acquire` | crates/xlb/src/transport/blobs.rs:124-152 | with any cap that has been read before, the sender may go at the release time that the trace, extended by this send, prescribes; a zero cap or an empty send passes without touching the bucket |
| `UploadLimiting.UploadLimiter.LoadCap` | crates/xlb/src/transport/blobs.rs:125-126 | the cap read is the one that was set last and no higher than the highest ever set |
| `UploadLimiting.UploadLimiter.AcquireNow` | crates/xlb/src/transport/blobs.rs:124-152 | a send that reads the cap and goes on at once is released as its trace with the cap in force prescribes |
| `UploadLimiting.LoneSend` | crates/xlb/src/transport/blobs.rs:124-152 | one send under a cap in kilobits is released at its arrival, when its bits have had time to pass since start, or two seconds before they have since its arrival, whichever is latest |
| `UploadLimiting.FreeSends` | crates/xlb/src/transport/blobs.rs:124-128 | with a zero cap or no bytes a send changes nothing and goes at once, and any other is charged in full |
| `UploadLimiting.ReleaseIsLevel` | crates/xlb/src/transport/blobs.rs:124-147 | at a fixed rate a metered send is released when a queue that drains at that rate would be level; empty and uncapped sends in between go at once |
| `UploadLimiting.LevelIsMaxTerm` | crates/xlb/src/transport/blobs.rs:136-140 | that level is the greatest of one term for each busy period, which begins at start or at a metered send |
| `UploadLimiting.ReleaseClosedForm` | crates/xlb/src/transport/blobs.rs:124-152 | the release time of a metered send is exactly the maximum of its arrival, start plus all bytes at the rate, and each metered arrival so far less two seconds plus the bytes since then at the rate; other sends, anywhere in the run, neither wait nor count |
| `UploadLimiting.RateBound` | crates/xlb/src/transport/blobs.rs:129-151 | between the releases of any two metered sends at most the cap, in kilobits a second, times the time plus two seconds is sent, for any arrivals and request sizes |
| `UploadLimiting.ReleasedInOrder` | crates/xlb/src/transport/blobs.rs:131-151 | at a fixed rate metered sends are released in the order in which they held the lock |
| `UploadLimiting.ChargedWithinRate` | crates/xlb/src/transport/blobs.rs:135-140 | all bytes charged less the debt fit the largest rate in use |
| `UploadLimiting.LiveCapBound` | crates/xlb/src/transport/blobs.rs:124-152 | under any live changes of a cap, with caps read before the lock and uncapped sends in between, eight times the metered bytes released by time t are at most a thousand times the largest cap times the time since start |
| `UploadLimiting.UploadLimiter.ReleasedFitsHighestCap` | crates/xlb/src/transport/blobs.rs:104-152 | whatever caps were set and whenever senders read them, the bits of the metered bytes released by any time fit the highest cap ever set, in kilobits a second |
| `FetchChain.FetchChain.constructor` | crates/xlb/src/source.rs:120-123 | the chain is the stable sort of the sources by tier |
| `FetchChain.FetchChain.FetchWithProgress` | crates/xlb/src/source.rs:131-155 | the loop returns the first source's answer that verifies, or nothing |
| `FetchChain.SortIsStableSort` | crates/xlb/src/source.rs:121 | the sort is ordered, is a permutation, and keeps insertion order inside a tier |
| `FetchChain.TierSortedIff` | crates/xlb/src/source.rs:14-26 | sorted means that nothing comes behind what should be tried after it: cache, LAN, swarm, seed, CDN |
| `FetchChain.FirstHitMeans` | crates/xlb/src/source.rs:136-154 | a hit verifies, carries tier, peer and bytes of a source that serves, and no source that serves should be tried before it; no hit means that nobody serves |
| `FetchChain.ChainMeans` | crates/xlb/src/source.rs:120-155 | the same in terms of the sources as they were inserted |
| `FetchChain.TiersInOrder` | crates/xlb/src/source.rs:14-26 | the CDN is credited only when nobody else serves the blob, a seed only when nothing before it does, and so on up to the LAN |
| `FetchChain.FirstRegisteredWins` | crates/xlb/src/source.rs:120-155 | inside the winning tier the first registered source that verifies is credited |
| `FetchChain.InsertionOrderIsIrrelevant` | crates/xlb/src/source.rs:120-155 | the tier served never depends on insertion order, and the bytes do not as long as the verifying answers to the request agree |
| `AssetClasses.AssetClass.constructor` | crates/xlb/src/lib.rs:330-343 | with no cache directory: an empty memory cache, the CDN source if there is one, nothing reported |
| `AssetClasses.AssetClass.AddSource` | crates/xlb/src/lib.rs:411-420 | the source is appended, or dropped when the list is locked |
| `AssetClasses.AssetClass.Report` | crates/xlb/src/lib.rs:482-502 | exactly this report is handed to the observer |
| `AssetClasses.AssetClass.FetchBytesReported` | crates/xlb/src/lib.rs:429-479 | over the memory cache: result, report and new cache are those of a cache-first fetch, and the observer is called once |
| `AssetClasses.LabelNamesTier` | crates/xlb/src/source.rs:29-37 | the label is the name of the tier that served, and "miss" exactly when none did |
| `AssetClasses.ChainIsCredited` | crates/xlb/src/lib.rs:450-479 | when a source serves the blob, the first of the best tier is credited with tier and peer, and its bytes are in the memory cache; else nothing changes |
| `AssetClasses.FetchThenFetch` | crates/xlb/src/lib.rs:436-468 | after a fetch that succeeded the next one has the same bytes from the cache, whatever the sources answer; a failed one changes nothing, and no fetch touches other blobs |
| `AssetClasses.LateSourceIsNotAsked` | crates/xlb/src/lib.rs:450-453 | the sources are copied when a fetch begins: one registered later is kept, unless the list is locked, but not asked |
| `AssetClasses.FetchIsBeginFinish` | crates/xlb/src/lib.rs:429-479 | a fetch is its cache look-up followed by its walk of the sources copied then |
| `AssetClasses.RunIsSound` | crates/xlb/src/cache.rs:181-188 | over any overlapping fetches with changing sources every cached blob hashes to its key, every result verifies or is a failure, and every fetch that has begun is under way or has come back with exactly one report, without tier exactly when it failed and else crediting the cache or a registered source |
| `AssetClasses.CacheIsPermanent` | crates/xlb/src/lib.rs:436-448 | from any moment at which a blob is in memory and no fetch of it is under way, every fetch of it ends from the cache with the same bytes |
| `DiskAssets.DiskAssetClass.constructor` | crates/xlb/src/lib.rs:330-343 | with a cache directory: the cache is opened from it under the class's budget |
| `DiskAssets.DiskAssetClass.Report` | crates/xlb/src/lib.rs:482-502 | exactly this report is handed to the observer |
| `DiskAssets.DiskAssetClass.FetchBytesReported` | crates/xlb/src/lib.rs:429-479 | over the disk cache: result, report, files and index are those of a verified look-up followed, on a miss, by the chain and a store, and the observer is called once |
| `DiskAssets.FailedStoreIsHarmless` | crates/xlb/src/lib.rs:455-462 | result and report do not depend on whether or how the store fails |
| `DiskAssets.SourcedIsCredited` | crates/xlb/src/lib.rs:454-479 | when a source serves the blob, the first of the best tier is credited with tier and peer, and its bytes go into a store; else nothing changes |
| `DiskAssets.SourcedIsStored` | crates/xlb/src/lib.rs:455-462 | a served blob is found by the next lookup exactly when it fits the budget, if nothing goes wrong for its store |
| `DiskAssets.FetchThenFetch` | crates/xlb/src/lib.rs:436-468 | a second fetch is served from the cache with the same bytes, whatever the sources answer, exactly when the first succeeded from the cache or with bytes that fit; else it asks the sources |
| `DiskAssets.LateSourceIsNotAsked` | crates/xlb/src/lib.rs:450-453 | the sources are copied when a fetch begins: one registered later is kept, unless the list is locked, but not asked |
| `DiskAssets.TamperedIsNotServed` | crates/xlb/src/cache.rs:346-358 | a file put in the place of a blob is removed and the sources are asked |
| `DiskAssets.DiskFetchIsBeginFinish` | crates/xlb/src/lib.rs:429-479 | a fetch is its cache look-up followed by its walk of the sources copied then and its store |
| `DiskAssets.DiskRunIsSound` | crates/xlb/src/lib.rs:429-502 | as long as no lookup or store overlaps another: over fetches that overlap otherwise, with failing reads and stores, changing sources and tampering, every result verifies or is a failure, and every fetch that has begun is under way or has come back with exactly one report, without tier exactly when it failed and else crediting the cache or a registered source |
| `DiskAssets.DiskRunInStep` | crates/xlb/src/lib.rs:436-462 | as long as no lookup or store overlaps another: without tampering or read errors files and index stay in step and within the budget, whatever stores fail |
| `FetchMachines.FetchesProject` | crates/xlb/src/lib.rs:429-479 | whatever overlapping fetches do, their cache goes through a run of the concurrent cache |
| `FetchMachines.FetchesAreSound` | crates/xlb/src/lib.rs:429-502 | over any run of fetches that overlap step by step inside lookups and stores, with failures, abandoned calls, tampering, crashes and reopenings, every result verifies or is a failure, and each fetch that has begun is under way, lost to its caller or a crash, or has exactly one result, for its own hash, and one report, without tier exactly when it failed and else crediting the cache or a registered source |
| `FetchMachines.FetchesStoreVerified` | crates/xlb/src/source.rs:131-155 | such runs store nothing but bytes that hash to the name |
| `FetchMachines.FetchedFilesVerify` | crates/xlb/src/lib.rs:436-462 | so, without tampering, at every step of any such run every hash-named file is the complete blob for its name |
| `FetchMachines.FetchesKeepIff` | crates/xlb/src/cache.rs:335-407 | at every step of an untampered run of overlapping fetches every file is accounted for and every index entry backed exactly when none of the run's events is a step that `NextAccountsIff` or `NextBacksIff` names |
| `FetchMachines.FetchesInStep` | crates/xlb/src/cache.rs:323-408 | when such a run has no cache call in flight, the index is within the budget, and files and index are in step exactly when every file is accounted for and every entry backed; so they are after runs without those events |
| `FetchMachines.SourcesAre` | crates/xlb/src/lib.rs:411-420 | the source list is the first one followed by every source whose registration met no lock, in order |
| `FetchMachines.LostAfter` | crates/xlb/src/lib.rs:429-479 | a fetch is lost exactly to a caller that gives up, in a cache call or between them, and to a crash |
| `FetchSolo.SoloFetch` | crates/xlb/src/lib.rs:429-479 | a fetch whose events come with nothing in between is the fetch of the class: files, index, result and report, whatever fails |
| `FetchRaces.LateFetchesLoseFile` | crates/xlb/src/cache.rs:400-407 | three overlapping fetches, without any fault, that end idle with an index entry that has no file |
| `Metrics.MetricsSink.constructor` | crates/xlb-cli/src/metrics_sink.rs:81-117 | no rows, no totals, an empty history |
| `Metrics.MetricsSink.ToMetric` | crates/xlb-cli/src/metrics_sink.rs:146-161 | the row carries the report's class, bytes, peer, duration and hash, the label of its tier and the node's identity |
| `Metrics.MetricsSink.Emit` | crates/xlb-cli/src/metrics_sink.rs:164-184 | totals and tail remain what the history, now longer by this row, says they are |
| `Metrics.MetricsSink.Observe` | crates/xlb-cli/src/metrics_sink.rs:210-213 | observing reports appends to the history one row for each, in order, that fits it |
| `Metrics.MetricsSink.TotalsFor` | crates/xlb-cli/src/metrics_sink.rs:121-123 | the counters of a class are the sum over its rows in the entire history |
| `Metrics.MetricsSink.RecentFor` | crates/xlb-cli/src/metrics_sink.rs:126-133 | the last rows of the class within the last 256 rows of all classes |
| `Metrics.TailIs` | crates/xlb-cli/src/metrics_sink.rs:181-184 | a tail is the last rows, as many as there are up to the limit |
| `Metrics.EmitKeepsTotals` | crates/xlb-cli/src/metrics_sink.rs:171-179 | bumping one class's counters keeps every class's counters equal to its history |
| `Metrics.SumCounts` | crates/xlb-cli/src/metrics_sink.rs:172-178 | the fetch counter is the number of rows and the hit counter the number that are not misses |
| `Metrics.SumConcat` | crates/xlb-cli/src/metrics_sink.rs:172-178 | the counters of consecutive rows add up |
| `Metrics.SumOne` | crates/xlb-cli/src/metrics_sink.rs:172-178 | one row counts as one fetch, as a hit unless it is a miss, and with its bytes |
| `Metrics.OfClassMeans` | crates/xlb-cli/src/metrics_sink.rs:127-129 | filtering by class keeps exactly the rows of that class |
| `Metrics.OfClassCounts` | crates/xlb-cli/src/metrics_sink.rs:171-172 | a class has as many rows as were emitted for it |
| `Metrics.ClassesAddUp` | crates/xlb-cli/src/metrics_sink.rs:171-179 | the counters of all classes add up to those of the whole history |
| `Metrics.RecentIsTailOfClass` | crates/xlb-cli/src/metrics_sink.rs:126-133 | what a class sees of the shared tail is a tail of its own history |
| `Metrics.TotalsAreTheRun` | crates/xlb-cli/src/metrics_sink.rs:164-180 | over any run of fetches whose reports the sink has observed, the counters are the fetches, successes and bytes that were handed to callers |
| `Lru.LruState.constructor` | crates/xlb/src/cache.rs:203-211 | an empty index |
| `Lru.LruState.Touch` | crates/xlb/src/cache.rs:215-220 | on any index: the first occurrence in the queue moves to the back |
| `Lru.LruState.Drop` | crates/xlb/src/cache.rs:337-343 | on any index: the entry leaves the size map, the total and the queue |
| `Lru.LruState.Insert` | crates/xlb/src/cache.rs:227-252 | on any index: the old entry is dropped, the oldest are evicted until the new one fits, and it is appended |
| `Lru.LruState.EvictUntilFits` | crates/xlb/src/cache.rs:236-246 | the loop evicts from the front until the new size fits or the queue is empty |
| `Lru.TouchedIsValid` | crates/xlb/src/cache.rs:215-220 | a touch keeps the invariant, every size and the total |
| `Lru.DroppedIsValid` | crates/xlb/src/cache.rs:335-345 | dropping keeps the invariant and the subtraction never saturates |
| `Lru.TouchMeans` | crates/xlb/src/cache.rs:215-220 | a touch moves exactly this entry to the back; the others keep their order |
| `Lru.DropMeans` | crates/xlb/src/cache.rs:335-345 | a drop removes exactly this entry and its size; the others keep order and size |
| `Lru.EvictMeans` | crates/xlb/src/cache.rs:236-246 | eviction takes the shortest oldest part of the queue that makes room and changes nothing else |
| `Lru.InsertedIsValid` | crates/xlb/src/cache.rs:227-252 | insertion keeps the invariant, keeps within the budget what fits it, and never evicts what it inserts |
| `Lru.InsertMeans` | crates/xlb/src/cache.rs:227-252 | the new entry is newest, the evicted ones are the shortest oldest part of the others, all others keep place and size |
| `RecentRun.LongestRunIs` | crates/xlb/src/cache.rs:30-37 | the longest run fits and no longer end of the queue fits |
| `RecentRun.ShrinkTwice` | crates/xlb/src/cache.rs:303-314 | shrinking to a budget after running at a larger one is running at the smaller one |
| `RecentRun.AccessKeepsLongestRun` | crates/xlb/src/cache.rs:215-252 | the longest run after an access is the accessed blob behind the longest run of the others that leaves room for it, and only blobs already held matter |
| `RecentRun.EvictLeavesLongestRun` | crates/xlb/src/cache.rs:236-246 | the eviction loop leaves the longest run that fits the room |
| `RecentRun.RunHoldsLongestRun` | crates/xlb/src/cache.rs:215-253 | after any puts, lookups and fetches, fitting or not, the queue is exactly the longest most recent run that fits, with exact sizes and total |
| `RecentRun.SmallerIsEndOfLarger` | crates/xlb/src/cache.rs:215-253 | at every point the smaller cache's queue is the newer end of the larger one's and its contents a subset |
| `RecentRun.LargerBudgetHitsMore` | crates/xlb/src/lib.rs:436-462 | when every blob fits the smaller budget and misses are filled, a larger budget never gets fewer hits |
| `RecentRun.OversizedBlobsBreakMonotonicity` | crates/xlb/src/cache.rs:366-376 | a trace with a blob over the smaller budget on which the larger cache gets fewer hits |
| `BudgetMonotonicity.AccessesAreFitting` | crates/xlb/src/cache.rs:364-376 | when misses are filled, the accesses that count are exactly those to blobs that fit, whatever the cache held |
| `BudgetMonotonicity.RecencyFilters` | crates/xlb/src/cache.rs:215-252 | leaving out what does not fit and ordering by recency commute |
| `BudgetMonotonicity.RoomKeepsSubset` | crates/xlb/src/cache.rs:215-253 | on any filled trace the smaller cache holds a subset when the larger budget has room for anything the smaller one can hold next to any blobs that only the larger one stores |
| `BudgetMonotonicity.CrowdedOut` | crates/xlb/src/cache.rs:364-376 | for every choice of sizes without that room, a trace on which the larger cache gets fewer hits |
| `BudgetMonotonicity.LargerBudgetHitsMoreIff` | crates/xlb/src/lib.rs:436-462 | for any sizes and two budgets: the larger never gets fewer hits on any filled trace exactly when it has that room |
| `BudgetMonotonicity.SmallerIsSubsetIff` | crates/xlb/src/cache.rs:215-253 | and exactly then the smaller cache's contents are always a subset of the larger one's |
| `UnfilledMisses.UnfilledMissBreaksMonotonicity` | crates/xlb/src/lib.rs:469-475 | blobs that all fit the smaller budget and a trace with one fetch that no source serves on which the larger cache gets fewer hits |
| `UnfilledMisses.RoomHoldsMore` | crates/xlb/src/cache.rs:215-253 | on any trace whatever the smaller queue is part of the larger one, in the same order, when the larger budget has room for what the smaller cache keeps, any blobs that it can have lost and the larger one not, and one more |
| `UnfilledMisses.RoomHitsMore` | crates/xlb/src/lib.rs:436-479 | and then the larger cache never gets fewer hits, counting fetches or all lookups |
| `AnyTraceRoom.TooLittleRoom` | crates/xlb/src/cache.rs:215-253 | for every choice of sizes and budgets without that room, a trace after which the smaller cache holds a blob that the larger one does not |
| `AnyTraceRoom.AnyTraceHitsMoreIff` | crates/xlb/src/lib.rs:436-479 | for any sizes and two budgets: the larger never gets fewer hits on any trace at all exactly when it has that room, and exactly then it never lacks what the smaller one holds |
| `AnyTraceRoom.RoomToReorderIsMore` | crates/xlb/src/lib.rs:436-479 | that room is also enough for filled traces |
| `UnfilledMisses.EqualSizesHaveRoom` | crates/xlb/src/cache.rs:215-253 | blobs of one size always have that room |
| `UnfilledMisses.AllTogetherHaveRoom` | crates/xlb/src/cache.rs:215-253 | so have blobs that all fit the larger budget together |
| `Directories.HexIsNotTemp` | crates/xlb/src/cache.rs:275-283 | a blob's name is never taken for a scratch file |
| `Directories.TempNameIsTemp` | crates/xlb/src/cache.rs:382-388 | every scratch name is recognised by opening and is never taken for a blob |
| `Directories.TempNamesAreUnique` | crates/xlb/src/cache.rs:59-63 | two puts of one process never share a scratch name |
| `Directories.IsTempIff` | crates/xlb/src/cache.rs:275-283 | scratch names are exactly those that end in `.tmp` or hold `.tmp.` |
| `Directories.SweepMeans` | crates/xlb/src/cache.rs:280-283 | the scan removes exactly the regular scratch files |
| `Directories.SortSorts` | crates/xlb/src/cache.rs:294 | found files are ordered by time, none lost, and those of equal time in the order of reading |
| `StableSort.SortIsStable` | crates/xlb/src/cache.rs:294 | the sort by key, here and in the chain, is ordered, a permutation, and stable |
| `StableSort.SortKeeps` | crates/xlb/src/cache.rs:294 | leaving elements out before or after the sort gives the same |
| `Directories.BuildIsValidIff` | crates/xlb/src/cache.rs:296-301 | the filled index is sound exactly when no hash was found twice |
| `Reopening.FilledIsValidIff` | crates/xlb/src/cache.rs:268-301 | that is, exactly when no two names in the directory spell one hash |
| `Reopening.FilledIsByAge` | crates/xlb/src/cache.rs:294-301 | in canonical spelling the filled index has every blob once, oldest file first, with the size of its file |
| `Reopening.OpenTakesOnly` | crates/xlb/src/cache.rs:266-321 | opening removes regular scratch files and evicted blobs and leaves every other file as it was |
| `Reopening.OpenLeavesOthers` | crates/xlb/src/cache.rs:256-286 | a file whose name holds no `.tmp` and is no hash survives opening as it was; a regular file named like a scratch file does not |
| `Reopening.OpenRecovers` | crates/xlb/src/cache.rs:266-321 | no scratch file is left, index keys and sizes are exactly the remaining blobs, and these are the longest newest-by-time run that fits |
| `Reopening.OpenIsSoundIff` | crates/xlb/src/cache.rs:285-301 | opening yields a sound index in step with the files under every budget exactly when all names are canonical |
| `Reopening.OpenIgnoresReadingOrder` | crates/xlb/src/cache.rs:258-265 | when ages differ, the order of the directory listing is of no account |
| `Spellings.OpenIsValidIff` | crates/xlb/src/cache.rs:285-301 | opening gives a sound index under every budget exactly when no two names in the directory spell one hash |
| `Spellings.TwoCopiesBreakIndex` | crates/xlb/src/cache.rs:285-301 | a directory with one blob under both spellings, opened with an unsound index |
| `CutOpening.PartOpenedKeeps` | crates/xlb/src/cache.rs:269-314 | opening cut short anywhere creates and changes nothing and takes no blob but oldest ones that it evicts |
| `CutOpening.PartOpenedTakes` | crates/xlb/src/cache.rs:269-314 | cut short, opening has removed exactly the scratch files among the names read so far and, those done, the files evicted so far |
| `CutOpening.PartOpenedBounds` | crates/xlb/src/cache.rs:269-314 | cut short at once it has done nothing, and at its end all that opening does to files |
| `CutOpening.OpeningIsRestartable` | crates/xlb/src/cache.rs:266-321 | when ages differ, or when what is left is listed in the order of the first time: opening again what a crash inside opening has left gives the index and files of an opening that was never interrupted |
| `DiskCaches.DiskCache.Open` | crates/xlb/src/cache.rs:266-321 | the scan, fill and eviction loops compute the opened directory and index |
| `DiskCaches.DiskCache.Scan` | crates/xlb/src/cache.rs:269-293 | one pass sweeps scratch files and collects every other regular file whose name decodes |
| `DiskCaches.DiskCache.Fill` | crates/xlb/src/cache.rs:296-301 | the loop fills the index in the order found |
| `DiskCaches.DiskCache.RemoveEvicted` | crates/xlb/src/cache.rs:404-406 | the loop removes exactly the files of the evicted hashes |
| `DiskCaches.DiskCache.Get` | crates/xlb/src/cache.rs:323-362 | miss, vanished file, read error, corrupt file and hit each leave the files and index that `LookupWith` says |
| `DiskCaches.DiskCache.Put` | crates/xlb/src/cache.rs:364-408 | oversized, write and rename that fail for whatever reason, and stored each leave the files and index that `StoreWith` says |
| `DiskCaches.DiskCache.Contains` | crates/xlb/src/cache.rs:410-412 | presence in the index |
| `DiskCaches.LookupNeverLies` | crates/xlb/src/cache.rs:323-362 | whatever happened to the files, an answer verifies and becomes newest, a miss leaves the hash unindexed, and the index stays sound |
| `DiskCaches.LookupIs` | crates/xlb/src/cache.rs:323-362 | on any files and any sound index: what is found, which file goes, and the exact entries, order and total that are left |
| `DiskCaches.LookupMeans` | crates/xlb/src/cache.rs:323-362 | when index and files are in step, exactly the intact blobs are found, exactly a corrupt one is removed, and they stay in step |
| `DiskCaches.StoreOutcome` | crates/xlb/src/cache.rs:364-394 | with no fault of the file system, a store fails exactly when something else is in the way of a blob that fits, and then no blob and no index entry changes |
| `DiskCaches.StoreMeans` | crates/xlb/src/cache.rs:391-407 | the stored blob is complete in place, evicted blobs are gone, every other blob is untouched |
| `DiskCaches.StoreKeepsSync` | crates/xlb/src/cache.rs:364-408 | every store, failed or not, keeps index and files in step and within the budget |
| `DiskCaches.StoreThenLookup` | crates/xlb/src/cache.rs:323-408 | what was stored is found if it verifies and only then, whatever state index and files were in |
| `DiskCaches.ReadErrorIff` | crates/xlb/src/cache.rs:332-345 | a read error on a file that is there puts index and files out of step, and nothing else a lookup does |
| `DiskCaches.LookupWithNeverLies` | crates/xlb/src/cache.rs:323-362 | with read errors, too, answers verify, the index stays sound, and a miss leaves the hash unindexed |
| `DiskCaches.StoreFaults` | crates/xlb/src/cache.rs:389-394 | whatever fails, a store of a blob that fits succeeds exactly when nothing does and nothing is in the way; a failed one changes at most its own scratch file |
| `DiskCaches.ScratchOnly` | crates/xlb/src/cache.rs:389 | a write that fails leaves every other file alone and in its scratch file as much of the data as was written |
| `DiskCaches.StoreWithKeepsSync` | crates/xlb/src/cache.rs:364-408 | no fault of a store puts index and files out of step or over the budget |
| `DiskCaches.FootprintIsTotal` | crates/xlb/src/cache.rs:79-96 | the bytes of all blob files are the total that the index reports |
| `DiskHistories.HistoryRefinesRun` | crates/xlb/src/cache.rs:323-408 | over any requests files and index stay in step, every file is the complete blob for its name, and the queue is the longest most recent run that fits |
| `DiskHistories.SmallerHoldsSubset` | crates/xlb/src/cache.rs:364-408 | on disk too, the smaller cache holds a subset of the larger one |
| `DiskHistories.FilesAreLastPuts` | crates/xlb/src/cache.rs:389-394 | after puts alone each file has the content and time of the last put of its hash |
| `DiskHistories.PutsAreByAge` | crates/xlb/src/cache.rs:294-301 | after puts alone the queue is the order of the files' ages, which all differ |
| `DiskHistories.RestartEquivalence` | crates/xlb/src/cache.rs:294-314 | after puts with increasing times, reopening under any budget that each blob fits gives the same index, order and files as running under the smaller budget from the start |
| `DiskHistories.RestartKeepsIndexIff` | crates/xlb/src/cache.rs:258-265 | reopening an intact cache gives back its index exactly when the queue is in the order of the files' ages |
| `DiskHistories.HitsAreForgotten` | crates/xlb/src/cache.rs:360-361 | a hit on any blob but the newest is forgotten by a restart |
| `DiskHistories.ForgottenHit` | crates/xlb/src/cache.rs:360-361 | a cache of two blobs and a lookup for which that happens |
| `CacheMachines.EveryAnswerVerifies` | crates/xlb/src/cache.rs:346-361 | in every reachable state, with no condition at all, every blob returned by a lookup hashes to what was asked for |
| `CacheMachines.NextIndexSound` | crates/xlb/src/cache.rs:203-253 | every step of every call, tampering and crash keeps the queue duplicate-free, the total exact and within the budget; so does reopening a directory that spells each hash once |
| `CacheMachines.IndexIsAlwaysSound` | crates/xlb/src/cache.rs:323-408 | so that holds in every reachable state of any interleaving |
| `CacheChanges.FileAfterStep` | crates/xlb/src/cache.rs:346-407 | a blob file changes only by tampering, comes or is replaced only by the rename of its complete scratch file, and goes exactly when a step removes it as corrupt or evicted; no crash, failure or abandoned call takes one |
| `CacheChanges.EntryAfterStep` | crates/xlb/src/cache.rs:335-401 | an entry comes only by the locked insert and goes exactly when that evicts it, a lookup forgets it, or the process crashes |
| `CacheRecency.QueueIsLongestRun` | crates/xlb/src/cache.rs:215-253 | over any interleaving during which the process stays up and no lookup takes a blob out of the index, the queue is the longest most recent run that fits of what was indexed or touched, in the order in which the lock was held, with exact sizes and total |
| `CacheRecency.ReopenedIsCurrent` | crates/xlb/src/cache.rs:294-314 | such a run can begin at any reopening, with the blobs on disk, oldest file first, for its past |
| `CacheIntegrity.NextIsWhole` | crates/xlb/src/cache.rs:382-394 | no step of any call, crash or reopening gives a blob file any but a complete store's content, or lets two stores share a scratch file |
| `CacheIntegrity.FilesAlwaysVerify` | crates/xlb/src/cache.rs:59-63 | without tampering, in every interleaving of verified stores every hash-named file is at every step, also after a crash, the complete blob for its name |
| `CacheIntegrity.FilesAreWholeStores` | crates/xlb/src/cache.rs:389-394 | verified or not, every hash-named file is byte for byte one that was there first or one that some store was given |
| `CacheFootprint.NamesStayCanonical` | crates/xlb/src/cache.rs:378-388 | the cache itself only ever adds canonical blob names and scratch names |
| `CacheFootprint.CrashRecovery` | crates/xlb/src/cache.rs:266-321 | from the directory left at any step of any run, opening leaves no scratch file and an index of exactly the remaining blobs, the longest newest run that fits |
| `CacheFootprint.NextAccountsIff` | crates/xlb/src/cache.rs:335-345 | a file is neither indexed nor in the hands of a store exactly after a lookup has forgotten a blob whose file is on disk, be it for a read error or a late one, or after the one store that was to index or remove it has been abandoned |
| `CacheFootprint.AccountedThroughoutIff` | crates/xlb/src/cache.rs:394-407 | every hash-named file is at every step indexed, renamed and about to be indexed, or evicted and about to be removed, exactly for the runs without such steps |
| `CacheFootprint.IndexStaysSized` | crates/xlb/src/cache.rs:365-401 | the index has the sizes of the blobs through every interleaving |
| `CacheFootprint.FootprintBounded` | crates/xlb/src/cache.rs:394-407 | on those runs the blob files exceed the budget by no more than what stores in flight have yet to index or remove |
| `CacheFootprint.FootprintWithinBudget` | crates/xlb/src/cache.rs:123-125 | and once no store is between its rename and its last removal they are within the budget |
| `CacheBacking.NextBacksIff` | crates/xlb/src/cache.rs:394-407 | an indexed blob has no file and no lookup about to forget it exactly after a late removal of a blob stored again, after indexing a blob whose file was removed since its rename, or after abandoning the one lookup that was to forget it |
| `CacheBacking.BackedThroughoutIff` | crates/xlb/src/cache.rs:323-408 | every indexed blob is backed by a file, or about to be forgotten, at every step exactly in the runs without such steps |
| `CacheBacking.IdleInStepIff` | crates/xlb/src/cache.rs:323-408 | with no call in flight, index and files are in step exactly when every file is accounted for and every entry backed |
| `CacheBacking.IdleInStep` | crates/xlb/src/cache.rs:323-408 | so they are, and within the budget, at every idle moment of untampered runs without the steps above |
| `CacheBacking.LateRemovalLosesFile` | crates/xlb/src/cache.rs:400-407 | a run without tampering, failure or crash that ends idle with an indexed blob that has no file |
| `CacheSolo.SoloLookup` | crates/xlb/src/cache.rs:323-362 | the steps of an uninterrupted lookup have exactly the effect of the sequential lookup |
| `CacheSolo.SoloStore` | crates/xlb/src/cache.rs:364-408 | the steps of an uninterrupted store have exactly the effect of the sequential store, in every outcome |
| `CacheSolo.SoloLookupWith` | crates/xlb/src/cache.rs:323-362 | so does a lookup for which reading fails |
| `CacheSolo.SoloStoreWith` | crates/xlb/src/cache.rs:364-408 | so does a store whose write fails at any byte or whose rename fails |
| `CacheRace.ReadErrorLosesBlob` | crates/xlb/src/cache.rs:332-345 | one read error on one intact file, with no calls overlapping: a run that ends idle with the file on disk and not in the index |
| `CacheRace.AbandonedStoreLosesBlob` | crates/xlb/src/cache.rs:394-400 | a store given up after its rename: a run that ends idle with the file on disk and not in the index |
| `CacheRace.RaceOverflowsBudget` | crates/xlb/src/cache.rs:335-345 | a run without tampering, failure or crash that ends idle with an unindexed blob and twice the budget on disk |

## Left out

- DiskAssets.DiskRunIsSound: a lookup or a store is one step, so calls that overlap inside one are not covered; `FetchesAreSound` covers them.
- DiskAssets.DiskRunInStep: holds only as long as no lookup or store overlaps another; `FetchesInStep` and `FetchesKeepIff` say exactly when it holds of calls that do.
- QUIC and iroh connections, the router, HTTP requests and the Unix-socket loop: input and output around libraries.
- BLAKE3, SHA-256, HMAC and Ed25519: parameters, or not part of this model (the HMAC chain and the Authorization header).
- Streaming downloads, chunk verification and length-prefixed framing: append-and-count loops with easy properties.
- Bandwidth governor and policy, seed roles, battery probing, configuration, command line, dashboard and JSON: lookups, platform calls and user interface.
- Rounding of `f64`, limits of `Duration` and timer overshoot: the limiter is modelled over real numbers, and a release is the earliest time at which the sleep ends.
- Wrap-around of 64-bit sums and of the scratch counter: out of reach for budgets up to 2^63.
- Power loss, several caches on one directory, file removals that fail on regular files, symbolic links and names that are not Unicode: outside what the code claims.
- Torn reads: a read returns one version of a file, as it does on systems where a rename does not disturb open files; a lookup verifies whatever it reads in any case.
- Windows, where renaming onto an existing file is not atomic.
- The HEAD-then-PUT of seeding and resolving settings from the environment: they depend on an external service and on the process environment.
- The write lock on the index is modelled by making each of its critical sections one step; the read-write lock of the in-memory cache by the two steps of a fetch.
- Tampering while `open` is at work: it may come before or after, and a crash may come at any point in between.
- The library's stable sort is modelled as an insertion sort, and eviction on opening as one loop that evicts followed by one that removes files.
- The metrics file, the broadcast channel and the progress sink: transports that drop what they cannot deliver.
- FetchChain.InsertionOrderIsIrrelevant: bytes are shown equal only when the verifying answers agree, because two different byte strings with one hash would both be accepted.
- Signing.StringToSignIsUnambiguous: asks SHA-256 to tell the two requests at hand apart, because its collision resistance is not modelled.

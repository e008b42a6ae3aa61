# A verified model of MCP Lens

MCP Lens sits between an MCP client and upstream tool servers. This project models the parts of it
that carry real state or real parsing, and proves what they promise, for every input, every run and
every schedule. `dafny verify dfyconfig.toml` checks the whole project with Dafny 4.11.

## What is modelled

| file | behaviour |
|---|---|
| `Plans.dfy` | the tool policy and the check a plan passes before it runs |
| `Executor.dfy`, `ExecutorTheorems.dfy`, `ExecutorPanics.dfy` | the plan executor: a work list that grows while it is consumed, sequential steps and parallel groups under a scheduler that may pick any order, a budget of ten continuation pages |
| `DiffPaging.dfy`, `DiffRecords.dfy`, `Utf8.dfy`, `DiffWitness.dfy` | the diff chunker behind the executor's auto-pagination, what the records hold of the chunks after JSON, and an environment that runs it |
| `ListPaging.dfy`, `ListWitness.dfy` | auto-pagination over lists that a tool serves in pages, and environments that serve them |
| `LruCache.dfy`, `Transport.dfy` | the HTTP response cache with ETag revalidation, against an origin that changes over time |
| `ToolCache.dfy`, `ToolRegistry.dfy` | the versioned tool registry and the expiring cache in front of it |
| `Paths.dfy`, `Shaping.dfy`, `ShapingPipeline.dfy`, `ShapingFrame.dfy` | the path language and the output-shaping pipeline on JSON trees, with its view presets |
| `InPlace.dfy`, `InPlaceInclude.dfy`, `IncludeRefinement.dfy` | the same path operations in place, on a memory of maps and slices that may be shared |
| `JsonRpc.dfy` | concurrent JSON-RPC calls over one pipe, as a transition system |
| `ByteBuffer.dfy`, `Zip.dfy`, `Tar.dfy` | the archive readers of the launcher |
| `CData.dfy`, `XhtmlText.dfy` | the unwrapping of CDATA sections and the Confluence XHTML-to-text writer |
| `DiffFilter.dfy` | the unified-diff section filters |
| `Text.dfy`, `Json.dfy` | strings, decimal numbers and JSON values |

Most imperative code is a method or a class proved equal to a function of its inputs or its old state
(`RoundTrip` against `Handle`, `ExecutePlan` against `Run`, `SQLiteRegistry` against the cache-free
tables); the main theorems are lemmas about those functions, stated against servers, origins, archives and
documents rather than in terms of the functions themselves. The XHTML writer is proved against the words of
the visible text directly.

## Where the code does not do what one would expect

Each of these is kept in the model as it is in the code and stated exactly.

- A step whose arguments are the literal `null` can pass validation, which sees an empty object. When such
  a step fails but has returned a page that is continued, a sequential run reports the error, while a
  parallel group builds the continuation first and panics on a nil map. `ExecutorPanics.PanicsAnewIff`
  shows exactly when this can happen under a policy: some step is allowed, runs in a group and has `null`
  arguments, and every step before it is either in the same run of grouped steps or is allowed, has
  decodable arguments and is not the same call of the same local tool. For each such plan
  `ExecutorPanics.RiskyStepPanics` gives tools and a store with which the parallel run panics and the
  sequential one does not; `ExecutorPanics.ValidPlanIsRisky` gives such plans that pass validation.
- `Delete` leaves a disabled tool in the cache when counting the affected rows fails.
  `ToolRegistry.SQLiteRegistry.Delete` states that the cache stays truthful if and only if that failure
  does not meet a cached name.
- An include path with an index is refused only when the walk meets the index. By then the walk may have
  replaced an array by an empty map inside a container that the output shares with the tool's result.
  `InPlaceInclude.Output.ApplyInclude` states that the include is refused exactly when some found path has
  an index, and that the result survives if and only if no earlier include path covers the container before
  the indexed field; otherwise it has lost that array. `InPlaceInclude.FailingIncludeDamages` runs an example.
  The executor keeps the damaged result in the record of the failed step (internal/tools/router.go:805-810).
- The diff tool cuts chunks at bytes, and the JSON encoder replaces every byte that is not part of a
  character. The records of a paged diff therefore hold the diff exactly if no chunk cuts a character
  (`DiffRecords.RecordsHoldTheDiff`, and `DiffRecords.RecordsHoldTheDiffIff` for diffs that are not UTF-8
  themselves); `DiffRecords.CutCharacterIsLost` gives a diff that loses its last character at the default
  chunk size.
- `newline(n)` moves its own loop bound, so it writes only half of the missing line ends, rounded up
  (`XhtmlText.TextWriter.Newline`). A block element that ends in text is therefore followed by one line
  end, not by two.
- The tar readers do not check the size field for a sign. `Tar.ListingEndsIff` shows that the listing ends
  exactly if it never comes back to a place, which is decided after at most 2n + 1 turns for n bytes
  (`Tar.ListingIsDecided`). A size from -1023 to -512 keeps the listing, and the search for another name,
  where it is for ever (`Tar.StandsStill`; `Tar.StuckHeaderIsNeverLeft` gives such a header). In the first
  header, a size from -1535 to -1024 leads in front of the buffer, where the listing ends
  (`Tar.StepsInFront`).
- `max_items` does not reach into array elements, although its documentation calls it recursive. The limit
  holds of every array of the shaped value exactly when the kept elements of the arrays reached through
  objects keep it by themselves (`ShapingPipeline.ShapedFitsIff`); `ShapingPipeline.NestedArrayEscapes` gives
  a value that breaks it.
- A full cache of tools may grow: nothing is evicted exactly when the search visits a tool with an empty
  name last, and that tool expires before all others or is alone (`ToolCaching.NothingGoesIff`). No sequence
  of registry operations stores such a name, so in the registry a tool that expires first goes
  (`ToolRegistry.OldestIsEvicted`).

## Model

| member | source | states |
|---|---|---|
| Plans.IndexCatalog | internal/router/router.go:41-46 | the known names and, for each, the schema of its last catalogue item |
| Plans.CheckStep | internal/router/router.go:48-75 | a step is accepted exactly when it is valid; an error is the first of the seven checks that the step fails |
| Plans.CheckSteps | internal/router/router.go:48-76 | no error exactly when every step is valid; otherwise the error is about the first invalid step, and about the first check it fails |
| Plans.ValidatePlan | internal/router/router.go:33-77 | a plan is accepted exactly when it is non-empty, within the limit and valid throughout; each rejection names its reason |
| Plans.AllowedIff | internal/router/policy.go:81-113 | a tool may run if and only if its name, trimmed and in lower case, holds none of the eleven words of change and it stands on the list of its source |
| Plans.StepOkIff | internal/router/router.go:48-75 | what validation accepts of a step, word by word: its name, source and arguments, and the schema of the last catalogue item of its name |
| ExecutorTheorems.ValidStepIsPermitted | internal/router/policy.go:81-113 | a valid step is on the allow list of its own source, is not an entry point and has decodable arguments |
| Executor.RunGroup | internal/tools/router.go:843-862 | for every limit and every order of launches and completions, each slot holds its own step's result |
| Executor.RecordResults | internal/tools/router.go:864-871 | records and artifacts of a group in plan order |
| Executor.ContinueResults | internal/tools/router.go:873-881 | pages of a group in plan order, under the budget |
| Executor.FirstErrorOf | internal/tools/router.go:883-888 | the first error in plan order |
| Executor.TakeResults | internal/tools/router.go:864-891 | a finished group as one turn of the loop: records, pages, then the error |
| Executor.RunGroupTurn | internal/tools/router.go:833-892 | a group of parallel tasks has one outcome, whatever the schedule |
| Executor.RunTurn | internal/tools/router.go:830-910 | the contiguous local steps of the same group run together, any other step runs alone |
| ExecutorTheorems.TurnsAre | internal/tools/router.go:833-892 | a step runs alone unless it is local, names a group and may run in parallel; then it runs with all steps behind it of that group, up to the first that is not |
| Executor.TurnUsesFuel | internal/tools/router.go:741-743 | every turn uses up a step or the budget, so the run ends even if a server's next page never advances |
| Executor.ExecutePlan | internal/tools/router.go:730-915 | the executor, with the shaping of each result and the artifact decision on the tool's own value, ends exactly as the run function says, with no manifest for an empty one |
| ExecutorTheorems.GroupPeels | internal/tools/router.go:864-891 | a group whose first step succeeds equals a sequential turn and the rest of the group |
| ExecutorTheorems.ParallelRefinesSequential | internal/tools/router.go:830-910 | an error-free parallel run ends in the state of the sequential one; a failing run has the same error, the sequential records and artifacts are a prefix, and the late records belong to the failing step's group |
| ExecutorTheorems.RunStaysWithinPlan | internal/tools/router.go:830-910 | at most ten steps more than the plan run, the plan first, every page a copy of an earlier step's tool and source |
| ExecutorTheorems.CompletedRunIsExplained | internal/tools/router.go:830-915 | the closed form of an error-free run: the plan and the first ten pages its own steps ask for, each run once, in that order |
| ExecutorTheorems.ReportShowsArtifacts | internal/tools/router.go:911-914 | the caller of an error-free run gets the record of every step and exactly the artifacts that the steps created, or no manifest if there are none |
| ExecutorTheorems.ExecutorRecordsSteps | internal/tools/router.go:749-828 | every record names its own step, and is ok if and only if the step has no error |
| ExecutorTheorems.FailedStepSays | internal/tools/router.go:752-792 | what is recorded and reported for a step that is blocked, malformed or refused by its tool: no result, page or artifact |
| ExecutorTheorems.AnsweredStepRecords | internal/tools/router.go:794-827 | what a step with an answer records: the shaped value or the reference to its artifact, while artifact and next page come from the answer itself; the two errors keep what was there |
| ExecutorTheorems.RecordsTellFailure | internal/tools/router.go:830-914 | at any parallelism a completed run has only ok records, and a failed run has a first one that is not |
| ExecutorTheorems.ReportShowsFailure | internal/tools/router.go:833-914 | the caller of a failed run gets the error, the manifest so far and that record |
| ExecutorTheorems.ContinuationCopies | internal/tools/router.go:918-1004 | a continuation keeps the name and source of its step and leaves its group; ListPaging.FirstIsFollowed says what it asks for |
| ListPaging.FirstIsFollowed | internal/tools/router.go:925-1001 | of the five ways a result can lead on, the first that applies is followed: the same tool with one argument set to where the next page is, all others kept |
| ListPaging.NothingIsFollowed | internal/tools/router.go:925-1003 | without any of them there is no next page |
| ListPaging.NullPanicsIff | internal/tools/router.go:919-1000 | `null` arguments panic if and only if one of them applies; text that is no object never has a next page |
| ListPaging.PagesAreDelivered | internal/tools/router.go:903-1004 | from any tool that serves pages of any size, each saying where the next one is, a one-step plan delivers the pages from the asked one on, one to a record and in order, up to eleven, at any parallelism |
| ListPaging.JiraListIsDelivered | internal/tools/router.go:925-945 | from a server of n items that answers startAt s with the items s to s + m and startAt, maxResults and total, a one-step Jira plan delivers pages that join to the items s to min(n, s + 11m) |
| ListPaging.MarkedListIsDelivered | internal/tools/router.go:947-1001 | the same for the page numbers of pull request lists, and for any other tool that names the next page by a cursor or by its first item |
| ListWitness.JiraEnvExists | internal/tools/jira.go:459-507 | for every list and page size there is an environment as JiraListIsDelivered assumes it |
| ListWitness.PageEnvExists | internal/tools/github_pr_review.go:339-402 | the same for pages of a pull request |
| ExecutorTheorems.ExecutorPaginates | internal/tools/router.go:903-909 | every page of the real executor is such a copy |
| ExecutorTheorems.ExecutorPanicsOnNull | internal/tools/router.go:919-1000 | the real executor panics only on `null` arguments |
| ExecutorPanics.ExecutorIsReal | internal/tools/router.go:749-828 | an executor passes a tool only its name and arguments: equal local calls panic alike, whatever their group or reason |
| ExecutorPanics.NewPanicIsRisky | internal/tools/router.go:873-909 | if the parallel run panics and the sequential one does not, the plan has a risky step |
| ExecutorPanics.RiskyStepPanics | internal/tools/router.go:873-888 | for every plan with a risky step, tools and a store that make the parallel run panic and the sequential run not |
| ExecutorPanics.PanicsAnewIff | internal/tools/router.go:830-910 | for every policy, plan and parallelism: some environment makes the parallel run panic anew if and only if the plan has a risky step |
| ExecutorPanics.ValidPlanIsRisky | internal/router/router.go:48-75 | for any allowed local tool whose schema the `null` arguments meet, a grouped step of `null` passes validation and is risky |
| ExecutorPanics.ReportRefines | internal/tools/router.go:730-915 | what a caller sees of the refinement, for every plan without a risky step: same error, same error-free report, prefix otherwise |
| ExecutorTheorems.ValidatedPlanIsNeverBlocked | internal/tools/router.go:749-761 | after validation no step of the run, pages included, is blocked by the policy or refused for its arguments |
| DiffPaging.CutChunk | internal/tools/github_pr_review.go:415-464 | the chunk, its bounds and its part counters, from clamped inputs |
| DiffPaging.LastPartHasNoNext | internal/tools/github_pr_review.go:456-464 | on the chunk boundaries of a non-empty diff the part counter reaches the total exactly when nothing follows |
| DiffPaging.ChunkEffect | internal/tools/github_pr_review.go:404-501 | the diff tool succeeds on the diff, filtered if patterns are given, and through the executor asks for the next chunk exactly when there is one |
| DiffPaging.ChunkContinuation | internal/tools/router.go:954-966 | the continuation of a chunk starts where the chunk ended and keeps its other arguments |
| DiffPaging.PagingReconstructsTheDiff | internal/tools/router.go:903-966 | a one-step diff plan delivers chunks that join to the (filtered) diff from its offset on, up to eleven chunk sizes, at any parallelism; the last chunk says there is more exactly when something was cut off |
| DiffRecords.RecordsHoldTheDiffIff | internal/tools/router.go:864-909 | with results small enough to stay inline, the chunk texts in the run's records join to that part of the diff if and only if every chunk is UTF-8 |
| DiffRecords.RecordsHoldTheDiff | internal/tools/github_pr_review.go:441-452 | for a diff that is UTF-8: if and only if no byte at a chunk boundary continues a character |
| DiffRecords.CutCharacterIsLost | internal/tools/github_pr_review.go:441-475 | a diff of 16001 bytes whose last character the default chunk size cuts, and the records lose |
| Utf8.RepairedIsLonger | internal/tools/github_pr_review.go:812-818 | what encoding and decoding do to a text: exactly the valid texts stay, the others grow |
| Utf8.PartIsValidIff | internal/tools/github_pr_review.go:451 | a part of a valid text is valid if and only if no character is cut at either end |
| DiffWitness.DiffEnvExists | internal/tools/github_pr_review.go:404-501 | for every fetch and glob engine there is an environment as these theorems assume it |
| DiffWitness.CutCharacterExists | internal/tools/github_pr_review.go:404-501 | one of them serves the diff of CutCharacterIsLost to a request with default arguments |
| LruCache.Cache.constructor | internal/httpcache/cache.go:32-45 | an empty cache; a limit that is not positive becomes 512 |
| LruCache.Cache.Get | internal/httpcache/cache.go:47-56 | the entry of the key, which becomes the most recent |
| LruCache.Cache.Put | internal/httpcache/cache.go:58-88 | replaces or adds the entry in front and evicts from the back |
| LruCache.Cache.Touch | internal/httpcache/cache.go:90-99 | a new time for a stored entry, which becomes the most recent |
| LruCache.OperationsKeepValid | internal/httpcache/cache.go:47-99 | map and list hold the same keys without duplicates, within the limit; a put keeps all other surviving entries |
| LruCache.PutNew | internal/httpcache/cache.go:75-87 | a new key evicts at most one entry, the least recent |
| LruCache.ListIsMostRecent | internal/httpcache/cache.go:47-99 | after any history the list is the most recently used distinct keys, up to the limit |
| LruCache.RankIsUsedSince | internal/httpcache/cache.go:54-86 | a key stands behind exactly the distinct keys used since its last use |
| LruCache.ResidentIff | internal/httpcache/cache.go:47-99 | a key is resident exactly when it was used and fewer than the limit of other keys were used since |
| LruCache.ResidentHoldsLastPut | internal/httpcache/cache.go:58-99 | a resident key holds its last put value with its latest time |
| Transport.CachingTransport.constructor | internal/httpcache/transport.go:48-67 | starts with an empty cache |
| Transport.CachingTransport.Key | internal/httpcache/transport.go:81 | verb, URL and the digest of the telling headers that have a value, each by name and value and in order |
| Transport.CachingTransport.RoundTrip | internal/httpcache/transport.go:73-121 | a GET acts on the entry of its key and answers as the serving function says; any other verb passes through |
| Transport.FetchIsCurrent | internal/httpcache/transport.go:112-120 | a miss stores and returns the origin's answer |
| Transport.TouchKeepsTrue | internal/httpcache/transport.go:101-104 | after a 304 the stored body is the origin's answer now, and the new time is truthful |
| Transport.RevalidateIsCurrent | internal/httpcache/transport.go:89-109 | a conditional request returns the origin's answer now |
| Transport.ServeIsCurrent | internal/httpcache/transport.go:83-120 | one round trip keeps the cache truthful and its reply current |
| Transport.KeysAgreeIff | internal/httpcache/cache.go:113-140 | two requests share a key if and only if verb, URL and all six telling headers agree, for verbs and URLs without spaces, values without NUL and a digest that does not mistake these two |
| Transport.CallIsCurrent | internal/httpcache/transport.go:73-120 | one round trip for a request keeps the cache truthful and its reply current |
| Transport.CacheWasTrue | internal/httpcache/transport.go:73-120 | in every history of requests each entry was the server's answer, at its time, to the requests of its key |
| Transport.RepliesAreCurrent | internal/httpcache/transport.go:73-120 | over any history of requests, cache size and evictions: a GET is answered with what the server answers to that very request now or less than the TTL ago, and anything else goes to the server |
| Transport.ZeroTtlIsTransparent | internal/httpcache/transport.go:84-120 | without a TTL every GET is answered with what the server would answer to it directly |
| Transport.FreshIsServedLocally | internal/httpcache/transport.go:84-87 | a fresh entry is served whatever the server would say |
| Transport.StaleIsRevalidated | internal/httpcache/transport.go:89-109 | a stale entry with a tag is asked for with its tag only; a 304 serves it and renews its time |
| Transport.RepeatIsServedLocally | internal/httpcache/transport.go:73-120 | what was fetched answers the same request again for its lifetime, without the server |
| ToolCaching.ToolCache.constructor | internal/tool/cache.go:22-33 | an empty cache |
| ToolCaching.ToolCache.Get | internal/tool/cache.go:36-51 | the entry unless it has expired |
| ToolCaching.ToolCache.Set | internal/tool/cache.go:54-68 | below the limit the entry is added and nothing else changes; at the limit, at most the entry the search picks goes before; the size bound |
| ToolCaching.ToolCache.Delete | internal/tool/cache.go:71-76 | exactly this entry goes |
| ToolCaching.ToolCache.EvictOldest | internal/tool/cache.go:95-110 | for some order of visits the victim of the search goes, or nothing |
| ToolCaching.OldestGoes | internal/tool/cache.go:95-110 | without the empty name the victim expires first |
| ToolCaching.NothingGoesIff | internal/tool/cache.go:95-110 | nothing goes exactly from an empty cache or when the empty name is visited last and expires before all others |
| ToolCaching.ToolCache.Cleanup | internal/tool/cache.go:112-126 | exactly the expired entries go |
| ToolRegistry.SQLiteRegistry.constructor | internal/tool/registry.go:61-78 | the loaded cache agrees with the tables |
| ToolRegistry.SQLiteRegistry.Register | internal/tool/registry.go:148-211 | the new tables and the answer, both as without a cache; the cache keeps agreeing |
| ToolRegistry.SQLiteRegistry.Get | internal/tool/registry.go:214-250 | exactly what a registry without a cache answers, unless a database error is reported |
| ToolRegistry.SQLiteRegistry.Update | internal/tool/registry.go:295-370 | a new version, or an error that changes nothing; the cache keeps agreeing |
| ToolRegistry.SQLiteRegistry.Delete | internal/tool/registry.go:373-399 | disables the row; the cache keeps agreeing if and only if no row count fails for a cached name |
| ToolRegistry.SQLiteRegistry.Rollback | internal/tool/registry.go:402-446 | restores a stored version, or an error that changes nothing; the cache keeps agreeing |
| ToolRegistry.SQLiteRegistry.GetVersions | internal/tool/registry.go:449-501 | the stored versions of the tool, disabled or not, the newest first |
| ToolRegistry.ValidToolIff | internal/tool/registry.go:519-580 | which definitions are accepted: the parts they need, the characters of their names and the five words a name must not begin with |
| ToolRegistry.LossKeepsCoherent | internal/tool/cache.go:95-126 | expiry, eviction and clean-up keep the cache in agreement |
| ToolRegistry.InsertStartsHistory | internal/tool/registry.go:182-205 | registration is refused exactly for a taken name or id, and starts the history at version 1 |
| ToolRegistry.AddVersionExtendsHistory | internal/tool/registry.go:295-370 | after any rollbacks an update adds version n + 1 without hitting the unique constraint |
| ToolRegistry.DisableKeepsHistory | internal/tool/registry.go:373-399 | deletion disables the row and keeps every version |
| ToolRegistry.RestoreKeepsHistory | internal/tool/registry.go:402-446 | rollback succeeds exactly for 1..n and restores that version's content, not its number or status |
| ToolRegistry.EveryRunKeepsHistory | internal/tool/registry.go:83-107 | in every reachable state the stored versions of a tool are exactly 1..n, n is the row's version and the row's content is that of a stored version |
| ToolRegistry.VersionsAreAppendOnly | internal/tool/registry.go:96-107 | a stored version is never changed or lost later in any run |
| ToolRegistry.RegisterShows | internal/tool/registry.go:148-211 | after an accepted registration the tool is found as version 1 with its content and id, and no other row has changed; a refused one changes nothing |
| ToolRegistry.UpdateShows | internal/tool/registry.go:295-370 | after an accepted update the tool is found with the new content and the next number, its id and creation time kept; a refused one changes nothing |
| ToolRegistry.DeleteShows | internal/tool/registry.go:373-399 | a deleted tool is not found any more, stays stored as disabled, and no update or rollback brings it back |
| ToolRegistry.RollbackShows | internal/tool/registry.go:402-446 | a tool that is rolled back shows the content of that version under its latest number; a version that is not there changes nothing |
| ToolRegistry.VersionListCountsDown | internal/tool/registry.go:449-501 | the version list is n, n - 1, ..., 1, without gaps |
| ToolRegistry.OldestIsEvicted | internal/tool/cache.go:95-110 | in every reachable state of the registry, the entry evicted is one that expires first |
| Paths.ParseDottedText | internal/router/output.go:201-242 | the dotted loop ends, and reads the segments in order or reports an error |
| Paths.ParsePointerParts | internal/router/output.go:183-198 | the pointer parts in order, empty ones dropped, numbers as indices |
| Paths.ParsePath | internal/router/output.go:176-243 | the whole parser on any string |
| Paths.DottedRoundTrip | internal/router/output.go:201-242 | a dotted form reads back to its segments, for fields without a dot or bracket |
| Paths.EmptyFieldIsSkipped | internal/router/output.go:201-242 | behind a dotted form two dots say as much as one |
| Paths.BadIndexIsRefused | internal/router/output.go:215-236 | behind any dotted form, an index that is not closed, no number or negative makes the whole path an error |
| Paths.ParseOfDotted | internal/router/output.go:176-243 | the same through the whole parser, with its trimming and its pointer test |
| Paths.UnescapeInvertsEscape | internal/router/output.go:186-187 | the two replacement passes undo the escaping of section 4 of RFC 6901 for every string |
| Paths.ParseOfPointer | internal/router/output.go:182-198 | a pointer form reads back to its segments, for non-empty fields that are not numbers and for natural indices |
| Paths.NoSegmentsIff | internal/router/output.go:176-243 | only a pointer of nothing but slashes has no segments; any other path without segments is an error |
| Shaping.GetPath | internal/router/output.go:245-274 | the reading loop equals the reading function |
| Shaping.GetAfterSet | internal/router/output.go:356-402 | reading any path after writing any path: the lens laws in one |
| Shaping.GetAfterRemove | internal/router/output.go:308-354 | reading any path after removing any path |
| Shaping.RedactHides | internal/router/output.go:356-402 | a redacted path reads as absent or as the mark |
| Shaping.RedactKeepsHidden | internal/router/output.go:356-402 | redacting another path, however it overlaps, keeps it so |
| Shaping.DepthCoarsens | internal/router/output.go:404-432 | depth truncation leaves at every path the same kind of value, the marker or nothing |
| Shaping.ItemsCoarsen | internal/router/output.go:434-453 | item truncation does the same |
| Shaping.RemoveKeepsGone | internal/router/output.go:308-354 | a removed path stays absent or null under further removals |
| Shaping.RedactKeepsGone | internal/router/output.go:356-402 | a removed path reads at most as the mark after redactions |
| Shaping.ApplyInclude | internal/router/output.go:135-169 | the include loop on any value and any paths, with its errors |
| Shaping.GetAfterSetInto | internal/router/output.go:276-306 | reading any path after an include |
| Shaping.IncludeAgain | internal/router/output.go:287-304 | including what is there already changes nothing, so a write through a shared value writes back what it holds |
| Shaping.IncludeStaysSub | internal/router/output.go:276-306 | an include keeps the output a sub-document of the input |
| Shaping.IncludeIsClear | internal/router/output.go:298-302 | the branch that replaces a value that is not an object is never taken |
| Shaping.IncludeIsExact | internal/router/output.go:135-169 | the include succeeds if and only if every path parses and every found one has fields only; then the output of an object is a sub-document of the input, agrees with it on every included path and holds nothing else |
| InPlace.Memory.Descend | internal/router/output.go:317-337 | the cursor walk ends in the container of the last segment, or outside the value |
| InPlace.Memory.SetPath | internal/router/output.go:356-402 | one entry of one container is written, or nothing is |
| InPlace.Memory.RemovePath | internal/router/output.go:308-354 | one entry goes, or an array element becomes null, or nothing happens |
| InPlace.Rereads | internal/router/output.go:308-402 | after a write or removal in place, every path of every value in memory reads as before, as what was written, or not at all, whatever is shared |
| InPlace.ShapingHidesInPlace | internal/router/output.go:36-49 | whatever the value shares with itself or others, after all exclusions and redactions in place no excluded or redacted path shows data |
| InPlace.EditedReads | internal/router/output.go:308-402 | in a value that shares nothing an edit is seen at its path and behind it, and nowhere else |
| InPlace.WriteRefinesSet | internal/router/output.go:356-402 | in a value that shares nothing, writing in place is the write of the value model, and nothing becomes shared |
| InPlace.EraseRefinesRemove | internal/router/output.go:308-354 | the same for removing |
| InPlaceInclude.Output.SetPathIntoMap | internal/router/output.go:276-306 | for a field path the output shows the input's value there and all it showed before, and the input stays as it was; a path with an index is refused, and spoils the input exactly when its container is shared |
| InPlaceInclude.Output.ApplyInclude | internal/router/output.go:135-169 | refused if and only if a found path has an index; on success the input is as before, and the output shows it exactly where an include path covers it, with maps of its own on the way there and nothing else; on an error the input is as before if and only if no earlier path covers the container, and otherwise has lost an array |
| InPlaceInclude.FailingIncludeDamages | internal/router/output.go:298-302 | a call with two include paths that is refused and leaves a map where the input had an array |
| IncludeRefinement.FailsAlike | internal/router/output.go:135-169 | the include in place is refused exactly when the include on values is |
| IncludeRefinement.IncludeRefines | internal/router/output.go:135-169 | under any sharing the output built in place represents the output of the include on values; from an input that shares nothing with itself it shares nothing with itself |
| ShapingPipeline.RemovePaths | internal/router/output.go:36-42 | the exclusions in order, or the first error |
| ShapingPipeline.RedactPaths | internal/router/output.go:43-49 | the redactions in order, or the first error |
| ShapingPipeline.ApplyOutputShaping | internal/router/output.go:19-58 | the whole pipeline on any value and any options |
| ShapingFrame.ShapingKeeps | internal/router/output.go:19-58 | the frame of the whole pipeline: where no excluded or redacted path leads to or around, the final value reads as the selected one up to the limits; containers stay of their kind, and stay as they were if no such path leads into them |
| ShapingFrame.ScalarsStay | internal/router/output.go:19-58 | a scalar off these paths and within the limits stays |
| ShapingFrame.RedactionIsMarked | internal/router/output.go:43-49 | a redacted path whose container was selected reads as exactly the mark, or as nothing behind a limit |
| ShapingFrame.ExclusionIsExact | internal/router/output.go:36-42 | an excluded path that was selected reads as nothing, or as null in an array |
| ShapingFrame.EverythingIsSelected | internal/router/output.go:24-34 | without a preset and include paths the input is selected as it is |
| ShapingFrame.ErrorsAreSelected | internal/router/output.go:64-82 | the errors preset keeps exactly five members of an object, and of each element of an array |
| ShapingFrame.MetadataIsSelected | internal/router/output.go:83-92 | the metadata preset keeps exactly ten members |
| ShapingFrame.SummaryIsSelected | internal/router/output.go:93-106 | the summary preset keeps exactly fourteen members |
| ShapingFrame.DashboardMetadataIsSelected | internal/router/output.go:127-131 | for a dashboard, exactly the three paths of its metadata |
| ShapingFrame.DashboardSummaryIsSelected | internal/router/output.go:115-126 | for a dashboard, exactly the six paths of its summary |
| ShapingFrame.IncludedIsSelected | internal/router/output.go:28-34 | include paths select the exact sub-document of what the preset leaves |
| ShapingFrame.FailsIff | internal/router/output.go:19-58 | the pipeline fails if and only if a path does not parse or a found include path has an index |
| ShapingPipeline.RedactionSurvives | internal/router/output.go:19-58 | whatever else ran, every redacted path with a segment reads as absent or as the mark in the final value |
| ShapingPipeline.ExclusionSurvives | internal/router/output.go:19-58 | every excluded path with a segment reads as absent, null or a marker in the final value |
| ShapingPipeline.LimitsHold | internal/router/output.go:51-56 | nothing lies below the depth limit, and the value itself and all arrays reached through objects keep the item limit |
| ShapingPipeline.CutFitsIff | internal/router/output.go:434-453 | every array fits after the cut if and only if the kept elements of the arrays reached through objects hold only arrays that fit |
| ShapingPipeline.ShapedFitsIff | internal/router/output.go:19-58 | the same for the whole pipeline, on the value before the cut |
| ShapingPipeline.NestedArrayEscapes | internal/router/output.go:438-443 | a value whose inner array breaks the limit of one item |
| JsonRpc.RunKeepsInv | internal/proxy/proxy.go:91-305 | the invariant of every reachable state of the concurrent calls, the reader and the handshake |
| JsonRpc.RepliesMatchCalls | internal/proxy/proxy.go:195-243 | a call returns only the reply to its own id, and no reply goes to two calls |
| JsonRpc.ReaderNeverBlocks | internal/proxy/proxy.go:270-305 | the channel the reader found has room when it sends, even if its call has gone |
| JsonRpc.RepliesArrive | internal/proxy/proxy.go:228-305 | a reply read while its call is registered is with the reader, in the channel or with the call until the call returns or is cancelled, and while the call waits a step is enabled that brings the reply on |
| JsonRpc.ReturnEnds | internal/proxy/proxy.go:228-243 | a tools call that holds its reply returns exactly that reply; a handshake with a successful reply goes on to the notification, and with any other gives up and gives the lock back |
| JsonRpc.ToolsCallsReturn | internal/proxy/proxy.go:195-305 | over runs: a tools call that is neither cancelled nor fails to write returns the reply that was read for its id, or is on its way there |
| JsonRpc.GivesUpOnlyIf | internal/proxy/proxy.go:91-243 | a thread has given up only if it failed to marshal, write or notify, was cancelled, was answered with a handshake error or wanted only the handshake |
| JsonRpc.ArrivalsEnter | internal/proxy/proxy.go:91-110 | in every reachable state an arriving thread can enter if and only if no other is in the handshake |
| JsonRpc.PendingEmptiesOut | internal/proxy/proxy.go:215-224 | the pending map holds exactly the ids of registered calls in flight, and is empty when all have returned |
| JsonRpc.ToolsAfterHandshake | internal/proxy/proxy.go:91-182 | no tools request is written before a successful initialize reply and then the initialized notification, which is written at most once |
| Zip.FindRecord | packages/mcp-lens/src/index.ts:229-238 | the last end-of-directory signature in the search window |
| Zip.SearchDirectory | packages/mcp-lens/src/index.ts:240-303 | the walk over the central directory, with its errors and out-of-range reads |
| Zip.ExtractFileFromZip | packages/mcp-lens/src/index.ts:219-304 | the reader on any bytes |
| Zip.RecordIsFound | packages/mcp-lens/src/index.ts:229-238 | the record is found behind a comment of any allowed length |
| Zip.WalkFinds | packages/mcp-lens/src/index.ts:244-303 | the walk finds the first entry of the name, or none, and answers what the entry deserves |
| Zip.WalkReturnsIff | packages/mcp-lens/src/index.ts:240-303 | on any bytes the walk returns data if and only if the first header with the name, in a chain of headers within the directory, leads to an entry that holds the data |
| Zip.ExtractReadsArchive | packages/mcp-lens/src/index.ts:219-304 | from every archive laid out per sections 4.3.7, 4.3.12 and 4.3.16 of the APPNOTE, exactly the data of the first entry with the name if it is stored or deflated with its true size or none; otherwise, and only then, the error for its stream, its size or its method; no read is out of range |
| Zip.ExtractOfPack | packages/mcp-lens/src/index.ts:219-304 | reading inverts writing, for every writer that follows the layout and entries stored or deflated |
| Tar.ListFiles | packages/mcp-lens/src/index.ts:162-190 | the listing of any bytes, negative offsets and sizes included, or that it does not end within 2n + 1 turns |
| Tar.ExtractFile | packages/mcp-lens/src/index.ts:192-217 | the extraction from any bytes, likewise |
| Tar.ForwardIff | packages/mcp-lens/src/index.ts:185 | the offset grows exactly for sizes greater than minus one block, and stays exactly for the sizes from -1023 to -512 |
| Tar.ListingIsDecided | packages/mcp-lens/src/index.ts:162-190 | a listing that has not ended within 2n + 1 turns never ends |
| Tar.ExtractionIsDecided | packages/mcp-lens/src/index.ts:192-217 | the same for the extraction |
| Tar.ListingEndsIff | packages/mcp-lens/src/index.ts:162-190 | the listing ends if and only if it never comes back to a place |
| Tar.WalksEnd | packages/mcp-lens/src/index.ts:168-187 | if no header that the listing visits has a size of -512 or less, the listing and the search for any name end within one turn for each block and one more |
| Tar.StandsStill | packages/mcp-lens/src/index.ts:179-186 | at a header with a size from -1023 to -512, the listing and the search for any other name never go on |
| Tar.StuckHeaderIsNeverLeft | packages/mcp-lens/src/index.ts:179-186 | 512 bytes with the name a and the size -1000 in octal, on which the listing and the search for any other name turn for ever |
| Tar.StepsInFront | packages/mcp-lens/src/index.ts:168-186 | a first size from -1535 to -1024 ends the listing with the name listed |
| Tar.ListedIffExtracts | packages/mcp-lens/src/index.ts:162-217 | whenever the listing ends, a name is listed if and only if it can be extracted, and the extraction ends too |
| Tar.EmptyNamesAreNotListed | packages/mcp-lens/src/index.ts:173-176 | an entry without a name is passed over |
| Tar.SignReads | packages/mcp-lens/src/index.ts:179-180 | a size may begin with a sign |
| Tar.NameReadsBack | packages/mcp-lens/src/index.ts:173-174 | a padded name field reads back |
| Tar.SizeReadsBack | packages/mcp-lens/src/index.ts:179-180 | an octal size field reads back, whatever ends the digits |
| Tar.ReadsArchive | packages/mcp-lens/src/index.ts:162-217 | from every archive, the names in order and the data of the first member with the name |
| DiffFilter.KeepWanted | internal/tools/github_pr_review.go:1059-1095 | the capturing loop of the pattern filter |
| DiffFilter.KeepFirstRun | internal/tools/github_pr_review.go:1018-1048 | the capturing loop of the file filter, with its early stop |
| DiffFilter.HeaderIff | internal/tools/github_pr_review.go:1063-1069 | a line is a header if and only if it can be read as one, and of all readings the one with the longest a-path counts |
| DiffFilter.PatternsWant | internal/tools/github_pr_review.go:1068-1085 | the patterns are held against the b-path of the header, whole and by its base name |
| DiffFilter.FileWants | internal/tools/github_pr_review.go:1026-1036 | a file is wanted if either path of the header is the target or ends in it behind a slash |
| DiffFilter.SectionsPartition | internal/tools/github_pr_review.go:1054-1098 | cutting a diff into sections loses no line; a section is one header and the lines up to the next, and no header stands before the first |
| DiffFilter.WantedSectionsStay | internal/tools/github_pr_review.go:1065-1095 | of a wanted section all lines are kept, of another none |
| DiffFilter.FirstRunIs | internal/tools/github_pr_review.go:1026-1048 | of sections that are unwanted, then wanted, then anything from an unwanted one on, exactly those in the middle are kept |
| DiffFilter.KeptIsAllWanted | internal/tools/github_pr_review.go:1065-1095 | the flag-driven loop keeps exactly the wanted sections |
| DiffFilter.KeptRunIsFirstRun | internal/tools/github_pr_review.go:1026-1048 | the stopping loop keeps exactly the first maximal run of wanted sections |
| DiffFilter.FilterDiffByPatterns | internal/tools/github_pr_review.go:1054-1098 | the newline join, in order, of the lines of the sections whose path or base name matches a pattern |
| DiffFilter.FilterDiffByFile | internal/tools/github_pr_review.go:1017-1051 | the newline join of the first maximal run of sections of the target |
| DiffFilter.FilterIsIdempotent | internal/tools/github_pr_review.go:1054-1098 | filtering a filtered diff changes nothing |
| CData.StripCdata | internal/tools/confluence_xhtml_to_text.go:82-99 | the loop ends, and leaves no section behind, not even one that came about by unwrapping |
| CData.StripOfSections | internal/tools/confluence_xhtml_to_text.go:82-99 | for any texts and CDATA sections, unwrapping yields the texts and payloads in order, without the markers |
| CData.StripIsStable | internal/tools/confluence_xhtml_to_text.go:82-99 | unwrapping twice is unwrapping once; exactly the texts without a section stay as they are |
| XhtmlText.TextWriter.constructor | internal/tools/confluence_xhtml_to_text.go:69 | an empty writer |
| XhtmlText.TextWriter.WriteText | internal/tools/confluence_xhtml_to_text.go:215-250 | the words grow by exactly the shown text; preformatted text is written as it is, behind a space if one was pending, and flowing text as Flowing says |
| XhtmlText.TextWriter.WriteRaw | internal/tools/confluence_xhtml_to_text.go:223-236 | preformatted text is written as it is |
| XhtmlText.TextWriter.WriteFlowing | internal/tools/confluence_xhtml_to_text.go:238-249 | flowing text, white space pending; what is written is exact |
| XhtmlText.FlowingIsWords | internal/tools/confluence_xhtml_to_text.go:238-249 | at the beginning of a line flowing text is written as its words with single spaces between them |
| XhtmlText.VisibleHoldsText | internal/tools/confluence_xhtml_to_text.go:110-191 | the visible text holds the text of all text nodes, in document order |
| XhtmlText.TagsShow | internal/tools/confluence_xhtml_to_text.go:115-213 | what each tag shows around its children: blocks, breaks, lists, items and all other elements |
| XhtmlText.LinkShows | internal/tools/confluence_xhtml_to_text.go:181-185 | a link shows its target in parentheses behind its text, when links are preserved |
| XhtmlText.ReferenceShows | internal/tools/confluence_xhtml_to_text.go:160-175 | a reference of the storage format shows what it refers to |
| XhtmlText.TextWriter.Newline | internal/tools/confluence_xhtml_to_text.go:252-267 | ends a word, and writes exactly half of the missing line ends, rounded up |
| XhtmlText.TextWriter.Bullet | internal/tools/confluence_xhtml_to_text.go:145-152 | the indent of the list depth and a bullet |
| XhtmlText.TextWriter.Walk | internal/tools/confluence_xhtml_to_text.go:110-191 | a node adds exactly the words of its visible text, in order, and restores the list depth; all preformatted texts in it, at any depth, stand in what is written as they are and in order |
| XhtmlText.TextWriter.WalkAll | internal/tools/confluence_xhtml_to_text.go:177-179 | the same for the children |
| XhtmlText.TextWriter.WalkElement | internal/tools/confluence_xhtml_to_text.go:115-190 | the same for every kind of element |
| XhtmlText.TextWriter.Finalize | internal/tools/confluence_xhtml_to_text.go:269-280 | the final layout keeps the words; no line ends in white space and no run exceeds three line ends |
| XhtmlText.CollapseBlankLines | internal/tools/confluence_xhtml_to_text.go:282-304 | drops exactly the line ends that already have the limit of line ends straight before them |
| XhtmlText.CollapsedBreaks | internal/tools/confluence_xhtml_to_text.go:282-304 | no run of line ends exceeds the limit |
| XhtmlText.CollapsedWords | internal/tools/confluence_xhtml_to_text.go:282-304 | collapsing keeps the words |
| XhtmlText.CollapsedTidy | internal/tools/confluence_xhtml_to_text.go:282-304 | collapsing gives no line a new end |
| XhtmlText.RunTrimmedLines | internal/tools/confluence_xhtml_to_text.go:271-276 | trimming the lines keeps the words |
| XhtmlText.TrimmedLinesAreTidy | internal/tools/confluence_xhtml_to_text.go:271-276 | after trimming no line ends in white space |
| XhtmlText.CutAndTrim | internal/tools/confluence_xhtml_to_text.go:74-79 | the cut happens exactly above the limit, and what is left is still laid out |
| XhtmlText.ConvertNodes | internal/tools/confluence_xhtml_to_text.go:54-80 | an untruncated text has exactly the words of the visible text: text nodes, bullets, link targets and preserved hrefs; any result has the layout |

## Left out

- Executor.ExecutePlan: does not model a tool or store whose answer depends on when it is called; each is
  a function of its arguments. The artifact store's files, the order of its entries and the activation of
  upstream tools are not part of this model. Output shaping in the run is a function of the tool's name and
  its value, which may also change that value in place.
- Text.ToLower: folds ASCII letters only. Tool names, sources, HTTP verbs and tags outside ASCII are not
  folded.
- Numbers: Go's 64-bit wrap-around and the conversion of floats out of the integer range are not modelled;
  JSON numbers are reals that truncate toward zero.
- DiffPaging.PagingReconstructsTheDiff: takes a run without output options, whose store does not fail, and a
  diff that does not change between requests. It speaks of the chunks as the tool cuts them;
  DiffRecords.RecordsHoldTheDiff speaks of what is left of them after JSON. The JSON encoder is known only by
  what decoding makes of its output.
- ListPaging.JiraListIsDelivered: takes a run without output options, whose store keeps results inline, and a
  list that does not change between requests and has at most 2^53 items. The handlers that turn a server's
  pages into results are not part of this model, and arguments other than the changed one keep their JSON value,
  not their text.
- Transport.CachingTransport.RoundTrip: happens at one clock reading. Interleaved round trips on one key,
  body read errors, multi-valued headers, a client's own If-None-Match and other lists of telling headers than
  the default one are not modelled. The digest is an abstract function that tells the requests of a history
  apart where their headers differ.
- ToolRegistry.SQLiteRegistry.Register: definitions are values, while the Go code shares pointers with its
  callers and returns them from the cache. A database call succeeds or changes nothing, except for the row
  count of Delete. The JSON form of the schema, fresh UUIDs, List and LogExecution are not part of this
  model.
- ShapingPipeline.RedactionSurvives: speaks of the whole pipeline on values. The exclusions and redactions
  are also proved in place, under any sharing (InPlace.ShapingHidesInPlace); the truncations, which build
  new values, and the view presets are modelled on values only.
- InPlaceInclude.Output.ApplyInclude: takes parsed paths. An include path that does not parse ends the
  loop as in Shaping.ApplyInclude, without a write.
- CData.StripOfSections: asks that the result shows no opening marker. A text with an opening marker of its
  own may or may not keep it, depending on the sections behind it.
- ShapingPipeline.LimitsHold: does not bound arrays inside array elements, because the code does not cut them.
- JsonRpc.RunKeepsInv: the server answers an id at most once. Fractional ids, which the code truncates,
  requests from the server and the order of interleaved writes on the pipe are not modelled; writing a line
  is one step.
- Zip.ExtractReadsArchive: inflating is an abstract function of the raw bytes that may fail. ZIP64 is not part
  of this model.
- Tar.ListFiles: stops after 2n + 1 turns, where the code would turn for ever, and says so. Gunzip is not part
  of this model.
- XhtmlText.ConvertNodes: starts from parsed nodes; the HTML parser is not part of this model and entity
  decoding is an abstract function. The exact number of line ends between blocks is stated only per call of
  Newline, since the counter behind it can be stale after a bullet.
- DiffFilter.FilterDiffByPatterns: glob matching and path base names are abstract functions.
- Plans.ValidatePlan: JSON Schema validation is an abstract function of the name, the schema and the
  arguments.
- Tool search, the LLM planner, the discovery fast path, HTTP clients and handlers, code runners and configuration are not modelled.

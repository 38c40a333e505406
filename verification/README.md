# Verified model of the mcp-test audit subsystem

mcp-test records every MCP tool call in an audit log, lets operators query, export, tail, compare
and replay what was recorded, and guards those paths with small bounded-state components. This
project models the parts of it that are hard to get right and proves what they promise, over all
inputs, all runs and all interleavings.

| file | component |
|---|---|
| `AsyncPipeline.dfy`, `AsyncHistory.dfy` | the buffered audit pipeline and its live-tail fan-out, as an interleaving protocol, and its state told from the actions alone |
| `Query.dfy`, `QueryAgreement.dfy`, `JsonFilter.dfy`, `Like.dfy` | the SQL compiler, its evaluator, the in-memory matcher, and their agreement |
| `Payloads.dfy` | captured payloads in PostgreSQL and back |
| `Pager.dfy` | OFFSET pagination under concurrent inserts |
| `Sse.dfy` | the server's event-stream writer and the browser's incremental parser |
| `RateLimiter.dfy`, `RateExact.dfy`, `Ledger.dfy` | the token bucket with idle eviction, and the two once-per-window ledgers |
| `Jwks.dfy`, `JwksHistory.dfy` | the JWKS cache with TTL, stale grace and single-flight refresh, as an interleaving protocol |
| `Redaction.dfy`, `Replay.dfy`, `DeepCopy.dfy` | parameter redaction, its detection, the fidelity of replays, and the copy that keeps them apart from the stored row |
| `DiffTree.dfy` | the structural diff of the compare page |
| `Notifications.dfy` | the two-lock notification recorder and its byte cap |
| `Aggregates.dfy`, `AggregateMeaning.dfy` | time series, breakdown and statistics, and what their numbers mean |
| `Json.dfy`, `Audit.dfy`, `Sorting.dfy`, `Substrings.dfy`, `Calls.dfy` | JSON values, audit records, sorting, substrings, keyed calls |

`dafny verify dfyconfig.toml` checks everything.

Conventions. A concurrent component is a state, a set of actions (its atomic points: channel
operations and critical sections) and runs of enabled actions; fields marked "history" only record
what happened. Objects that the source updates in place are classes whose methods are proved equal
to the functions the actions and lemmas use. Times are integers, numbers are exact. Library code is
a parameter: number parsing, case folding, JSON encoding of an event or a notification, canonical
header names.

Where the code and its own description differ, the model follows the code:

- `AsyncLogger.Close` is described as refusing new events; `Log` never looks at the stop signal.
  `WrittenIffAcceptedBeforeReturn` says exactly which events are written and
  `LogAfterCloseCanBeLost` gives a run that loses one.
- Idle eviction of rate-limit buckets is invisible exactly under `EvictionSafe`, which the replay
  limiter's constants satisfy; `EvictionShowsOtherwise` gives the run that reveals it elsewhere.
- The compare page looks keys up with `in`, which also finds what objects inherit. A one-sided own
  `__proto__` key can therefore show as no difference (`ProtoKeyIsInvisible`,
  `ProtoKeyHidesRemoval`). `NoDifferenceIffAlike` says exactly which pairs show none,
  `CountIsExactIff` which documents have no such twin, `DiffIsExact` that there is none among
  documents without that key, and `TreeDeterminesRight` that A and the tree determine B exactly
  when no `__proto__` inside A holds an object.
- A filter the SQL compiler skips makes the in-memory matcher reject everything. The source calls
  that branch unreachable, but validated requests reach it: `?param.x=NaN` is parsed as a number
  that does not marshal, and then PostgreSQL returns every event and the in-memory logger none
  (`NaNFilterSplitsBackends`). `BackendsAgreeIff` and `OneFilterAgreesIff` are the exact conditions.
- The search term is described as capped at 200 characters; the code cuts at 200 bytes, possibly
  inside a character (`CapCanTear`), which PostgreSQL refuses. `CapCutsBytes` says exactly when.
- The rate bound of the limiter holds exactly under `EvictionSafe` (`RateIsBoundedIff`), and a
  limiter without burst never grants whatever it answers about waiting (`NoBurstNoGrant`).

## Model

| member | source | states |
|---|---|---|
| `AsyncPipeline.Subscriber.Send` | pkg/audit/async.go:52-62 | one guarded non-blocking send: dropped when cancelled or full, delivered otherwise |
| `AsyncPipeline.Subscriber.CloseOnce` | pkg/audit/async.go:65-73 | the channel is closed the first time only |
| `AsyncPipeline.AsyncLogger.Log` | pkg/audit/async.go:102-116 | Log is the protocol's accept action, or its drop action followed by the counter update |
| `AsyncPipeline.AsyncLogger.Subscribe` | pkg/audit/async.go:241-248 | a fresh open subscriber is appended to the registry, with 64 slots when none are asked for |
| `AsyncPipeline.AsyncLogger.Cancel` | pkg/audit/async.go:250-260 | the first matching registry entry is removed and its channel closed once |
| `AsyncPipeline.AsyncLogger.Broadcast` | pkg/audit/async.go:268-275 | every registered subscriber gets exactly one send of the event |
| `AsyncPipeline.RunKeepsInvariants` | pkg/audit/async.go:102-275 | the queue and live-tail invariants survive every interleaving of producers, worker, Close, Subscribe, cancel and consumers |
| `AsyncPipeline.NothingLostOrReordered` | pkg/audit/async.go:102-234 | in every reachable state the accepted events are, in order, those handed to the inner logger, the one in flight and those in the channel; every Log call is accepted or counted as dropped |
| `AsyncHistory.QueueIsABoundedFifo` | pkg/audit/async.go:78-116 | under every interleaving the channel is a FIFO of that many slots (1024 when none are asked for) which refuses an event exactly when it is full: its contents, what was accepted, what the worker took and how many were dropped follow from the actions |
| `AsyncHistory.RoomMeansAccepted` | pkg/audit/async.go:102-116 | in every reachable state with room an event is enqueued, whatever was dropped before |
| `AsyncHistory.StateIsHistory` | pkg/audit/async.go:102-275 | in every reachable state the counters, the closing and returning, the results of the writes, and each subscriber's slots, cancels, closing, consumption and registration are those of the actions taken |
| `AsyncHistory.SendReachesWhoHasRoom` | pkg/audit/async.go:52-62 | a send puts the last broadcast on its subscriber's channel exactly when that is open and has room, and touches nobody else |
| `AsyncHistory.SnapshotTakesTheRegistry` | pkg/audit/async.go:268-275 | a broadcast is offered to all that are registered, in order |
| `AsyncHistory.NobodyIsBlocked` | pkg/audit/async.go:102-116 | Log, Close, Subscribe, cancel and consume are never held up, and with both the stop signal and an event the worker may take either |
| `AsyncPipeline.NoDropWithinCapacity` | pkg/audit/async.go:102-116 | a run with no more Log calls than buffer slots drops nothing |
| `AsyncPipeline.CloseDrains` | pkg/audit/async.go:190-221 | once the worker has returned, everything accepted before the first Close went to the inner logger exactly once, in acceptance order |
| `AsyncPipeline.WrittenIffAcceptedBeforeReturn` | pkg/audit/async.go:203-221 | the events ever written are exactly those accepted before the worker returned, however the run goes on |
| `AsyncPipeline.WorkerIsNeverStuck` | pkg/audit/async.go:203-221 | after Close the worker has an enabled step in every reachable state until it has returned |
| `AsyncPipeline.DrainMakesProgress` | pkg/audit/async.go:203-275 | every worker step leaves less work in a well-founded order, and no action but Log adds any |
| `AsyncPipeline.WorkerCanReturn` | pkg/audit/async.go:190-221 | from every reachable state after Close, worker steps alone lead to its return |
| `AsyncPipeline.DrainIsFinite` | pkg/audit/async.go:203-275 | in every endless run without further Log calls the worker takes finitely many steps, whatever subscribers and consumers do |
| `AsyncPipeline.ScheduledWorkerReturns` | pkg/audit/async.go:190-221 | in such a run a worker that keeps being scheduled until it has returned does return |
| `AsyncPipeline.LogAfterCloseCanBeLost` | pkg/audit/async.go:100-116 | a concrete run in which an event is accepted after Close and never written |
| `AsyncPipeline.LiveTailNeverPanics` | pkg/audit/async.go:43-73 | under every interleaving no send or close hits a closed channel, each channel closes at most once, and exactly once when its cancels are done |
| `AsyncPipeline.LiveTailIsASubsequence` | pkg/audit/async.go:223-275 | what a subscriber was sent is an in-order, duplicate-free selection of the successfully written events broadcast after it registered |
| `AsyncPipeline.RegistrationIsFixed` | pkg/audit/async.go:241-248 | a subscriber's starting point is the number of broadcasts taken when it registered |
| `AsyncPipeline.NoGapWithoutOverflow` | pkg/audit/async.go:264-275 | a subscriber that was not cancelled and whose buffer was never full has been sent every broadcast since it registered |
| `AsyncPipeline.FirstBroadcastsAreNeverMissed` | pkg/audit/async.go:236-275 | a subscriber misses nothing while the broadcasts since it registered do not exceed its slots |
| `JsonFilter.DetectedValue` | pkg/audit/jsonfilter.go:9-34 | each value has exactly its spellings: the two words, a bare number, a quoted string, or a bare string that nothing else reads |
| `JsonFilter.FilterToContainment` | pkg/audit/jsonfilter.go:39-48 | the loop builds the document nested along the path |
| `JsonFilter.MatchJsonPath` | pkg/audit/jsonfilter.go:54-71 | the walk decides whether the value at the path equals the wanted one |
| `JsonFilter.ContainmentIsPathMatch` | pkg/audit/jsonfilter.go:36-135 | jsonb containment of the nested document holds exactly when the path walk matches, for every document, path and parsed value |
| `JsonFilter.HeaderContainment` | pkg/audit/postgres/store.go:588-599 | containment of {name: [v]} holds exactly when v is among the header's stored values |
| `Like.SearchIsSubstring` | pkg/audit/postgres/store.go:472-483 | a text matches the escaped pattern exactly when it contains the capped term, folded on both sides |
| `Like.CapCutsBytes` | pkg/audit/postgres/store.go:477-481 | what the cap leaves is the longest prefix of whole characters within 200 bytes; a character is cut exactly when the term is longer and no prefix has 200 bytes; an ASCII term keeps its first 200 characters |
| `Like.WidthIs` | pkg/audit/postgres/store.go:479-481 | the bytes of a character are those of UTF-8 |
| `Like.CapCanTear` | pkg/audit/postgres/store.go:477-481 | terms of 200 characters that are cut inside a character |
| `Like.SearchPatternIsWellFormed` | pkg/audit/postgres/store.go:563-573 | the pattern never ends in a dangling escape, wherever the cap cuts |
| `Query.SqlBuilder.Add` | pkg/audit/postgres/store.go:537-541 | conditions, arguments and the placeholder counter stay in step |
| `Query.SqlBuilder.AddPathFilter` | pkg/audit/postgres/store.go:582-625 | a JSON filter adds its containment clause, or nothing when it is skipped |
| `Query.SqlBuilder.AddHas` | pkg/audit/postgres/store.go:645-655 | each allowed has= key adds a presence clause and binds nothing |
| `Query.BuildSelect` | pkg/audit/postgres/store.go:531-694 | the mutable builder produces the numbered form of the filter's clauses, with clamped limit and offset bound last |
| `Query.ClampLimit` | pkg/audit/postgres/store.go:666-677 | a limit within 1..1000 is honoured, a larger one becomes 1000, none becomes 100 |
| `Query.PlaceholdersMatchArguments` | pkg/audit/postgres/store.go:531-694 | read left to right the placeholders are $1, $2, .. $n for n arguments, in every statement |
| `Query.StatementIsClauses` | pkg/audit/postgres/store.go:657-694 | numbering keeps the meaning: every placeholder evaluates to its own clause's value, whatever follows |
| `Query.CompiledMeansFilter` | pkg/audit/postgres/store.go:531-694 | for every filter and event the statement selects the stored row exactly when the filter denotes the event: fields, search substring (nothing for a torn term), JSON paths, headers and has= columns |
| `QueryAgreement.ParseFilters` | pkg/httpsrv/portal_api.go:682-774 | the parsed filters are exactly those whose name cuts at its dots into segments without empty or control-character ones (a header name alone and canonical), each non-empty value giving one; the has= keys are the six columns; all are validated |
| `QueryAgreement.JoinSplit` | pkg/audit/jsonfilter.go:182-191 | the segments of a split path hold no dot, and joining them gives the path back |
| `QueryAgreement.SplitJoin` | pkg/audit/jsonfilter.go:182-191 | splitting the join of dot-free segments gives them back |
| `QueryAgreement.BackendsAgreeIff` | pkg/audit/memory.go:381-517 | without a search term the two backends agree on an event exactly when every filter compiles, or those that do already exclude the event |
| `QueryAgreement.OneFilterAgreesIff` | pkg/audit/postgres/store.go:582-625 | on a query of one JSON filter the backends agree about all events exactly when it compiles |
| `QueryAgreement.NaNFilterSplitsBackends` | pkg/audit/postgres/store.go:603-617 | the request param.x=NaN is validated, but PostgreSQL selects every event and the matcher rejects every one |
| `QueryAgreement.ValidatedCompiles` | pkg/httpsrv/portal_api.go:731-774 | a validated query compiles as a whole exactly when no value spells a non-finite number |
| `Payloads.PayloadRoundTrip` | pkg/audit/postgres/store.go:158-242 | what GetPayload reads from a stored row is the captured payload up to empty maps: parameters, headers, result, error, notifications and replayed_from each in its column |
| `QueryAgreement.MemoryLogger.Log` | pkg/audit/memory.go:64-73 | the event is appended, with a fresh id when it had none |
| `QueryAgreement.MemoryLogger.MatchEvents` | pkg/audit/memory.go:124-142 | the matching events, all of them and only them, later timestamps first and equal ones by ascending id |
| `QueryAgreement.MemoryLogger.Query` | pkg/audit/memory.go:147-168 | the first page of the sorted matches under the clamped limit |
| `QueryAgreement.MemoryLogger.Count` | pkg/audit/memory.go:174-178 | the number of matches, whatever the limit |
| `QueryAgreement.SamePage` | pkg/audit/postgres/store.go:263-351 | for validated filters with finite values, whatever order the table is in, SELECT returns that page of the in-memory result and COUNT its length |
| `Pager.Stream` | pkg/audit/postgres/store.go:302-341 | the loop builds and runs one statement per page and finishes at the first short one; if rows are only inserted, a finished stream has emitted every row that matched at its start, and only rows the filter denotes, and has repeated no more rows than matching ones were inserted |
| `Pager.ReadPage` | pkg/audit/postgres/store.go:313-317 | the statement built for a page reads exactly that slice of the ordered, filtered table |
| `Pager.PositionOnlyGrows` | pkg/audit/postgres/store.go:295-301 | inserting rows anywhere in the order never moves a row to an earlier position |
| `Pager.StreamMissesNothing` | pkg/audit/postgres/store.go:285-341 | if rows are only inserted between pages, a stream that finishes has emitted every row that matched at its start |
| `Pager.RepeatsAreInserts` | pkg/audit/postgres/store.go:295-301 | if rows are only inserted, the rows emitted more than once number at most those inserted between the pages read |
| `Pager.FixedTableIsEmittedOnce` | pkg/audit/postgres/store.go:302-341 | a fixed table is emitted in order, each row once, and the ending short page is reached after size/1000 + 1 pages |
| `Pager.FixedStreamIsMatchAll` | pkg/audit/memory.go:189-205 | over a fixed table the PostgreSQL stream is the in-memory stream |
| `Sse.StreamClient.Line` | ui/src/lib/api.ts:269-294 | one line updates event and data, or dispatches, as the protocol says |
| `Sse.StreamClient.Read` | ui/src/lib/api.ts:256-296 | one chunk: overflow past 1 MiB, else every complete line is consumed and the rest kept |
| `Sse.ChunkingIsInvisible` | ui/src/lib/api.ts:250-296 | however a text is cut, the client ends as if it had read the chunks before the first that does not fit at once; an overflow ends it with what those delivered |
| `Sse.ShortLinesFit` | ui/src/lib/api.ts:250-267 | lines of at most n characters and chunks of at most 1 MiB - n never overflow |
| `Sse.BlockIsDelivered` | ui/src/lib/api.ts:269-294 | a block of lines delivers the event its data lines spell, joined by newlines, exactly when its last event line says audit and the event has an id; other fields and comments are ignored |
| `Sse.StreamClient.ReadAll` | ui/src/lib/api.ts:250-296 | the outer loop reads chunk after chunk until the end or the overflow |
| `Sse.ClientInvertsServer` | pkg/httpsrv/portal_api.go:359-402 | at any point of the stream, however it was cut, the client has delivered exactly the frames with an id received in full, in order, also when an overflow ends it; for every encoder that round-trips on events without payloads |
| `Sse.WholeStreamIsDelivered` | ui/src/lib/api.ts:250-296 | after the whole output without an overflow all frames with an id are delivered and nothing is left over |
| `Sse.CrlfIsInvisible` | ui/src/lib/api.ts:271 | turning every line end into CRLF changes nothing |
| `RateLimiter.Limiter.Collect` | pkg/httpsrv/ratelimit.go:105-115 | a due sweep keeps exactly the buckets seen within maxIdle |
| `RateLimiter.Limiter.Allow` | pkg/httpsrv/ratelimit.go:51-83 | refill, cap, and spend one token or refuse |
| `RateLimiter.Limiter.Retry` | pkg/httpsrv/ratelimit.go:88-100 | the truncated time until a token is there |
| `RateLimiter.EvictionIsInvisible` | pkg/httpsrv/ratelimit.go:51-115 | under EvictionSafe every run gets the decisions of a limiter that never deletes a bucket |
| `RateLimiter.EvictionShowsOtherwise` | pkg/httpsrv/ratelimit.go:102-115 | when EvictionSafe fails, two bursts one maxIdle + 1 apart tell the limiters apart |
| `RateLimiter.EvictionIsInvisibleIff` | pkg/httpsrv/ratelimit.go:51-115 | eviction is invisible to all runs exactly when burst <= 0, or refill > 0 and maxIdle + 1 >= burst * refill |
| `RateLimiter.ReplayLimiterIsEvictionSafe` | pkg/httpsrv/portal_api.go:94-103 | the replay limiter's constants meet the condition |
| `RateLimiter.TokensStayInRange` | pkg/httpsrv/ratelimit.go:68-82 | in every run of the evicting limiter, for every burst >= 0, all tokens stay within 0..burst |
| `RateLimiter.RateIsBounded` | pkg/httpsrv/ratelimit.go:48-83 | in any stretch of any run one key is granted at most burst + T/refill calls |
| `RateLimiter.RateIsBoundedIff` | pkg/httpsrv/ratelimit.go:48-115 | with a burst and a refill that bound holds of every stretch of every run exactly under EvictionSafe |
| `RateExact.GrantedIffWithinRate` | pkg/httpsrv/ratelimit.go:51-83 | under EvictionSafe a call is granted exactly when it leaves every stretch that ends with it at no more than burst + T/refill grants, so refused calls cost nothing |
| `RateExact.BucketsAreRecent` | pkg/httpsrv/ratelimit.go:102-115 | after any call with a key every bucket held was used within two idle periods |
| `RateLimiter.NoKeyNoLimit` | pkg/httpsrv/ratelimit.go:51-57 | a call without a key is always granted |
| `RateLimiter.RefusedUntilRefilled` | pkg/httpsrv/ratelimit.go:68-83 | after a refusal, with calls on other keys only, the next call is granted exactly when missing * refill has elapsed |
| `RateLimiter.RetryAfterIsTight` | pkg/httpsrv/ratelimit.go:85-100 | of what the limiter answers right after a refusal: one nanosecond more always suffices, evictions or not; under EvictionSafe less never does, and the answer itself exactly when missing * refill is whole |
| `RateLimiter.NoBurstNoGrant` | pkg/httpsrv/ratelimit.go:61-83 | without burst every keyed call is refused |
| `Ledger.FailureRateLimiter.ShouldWarn` | pkg/auth/chain.go:174-196 | evict, then accept unless the key is on the ledger; empty keys always warn |
| `Ledger.NonceLedger.Consume` | pkg/httpsrv/browserauth.go:267-286 | evict, then accept unless the nonce is on the ledger; the empty nonce is refused |
| `Ledger.LedgerIsRecentAccepts` | pkg/auth/chain.go:184-195 | after every call the ledger is exactly the accepts still inside the window |
| `Ledger.AcceptIffNotRecent` | pkg/auth/chain.go:170-196 | a call is accepted exactly when the key was not accepted within the last window, over the whole history |
| `Ledger.AcceptsAreSpaced` | pkg/httpsrv/browserauth.go:265-286 | two accepts of one key are more than a window apart |
| `Ledger.RefusalHasACause` | pkg/auth/chain.go:191-193 | every refusal has an earlier accept of the key within the window |
| `Jwks.SelectKeys` | pkg/auth/oidc.go:250-268 | the key map of a document |
| `Jwks.SelectIsLists` | pkg/auth/oidc.go:250-268 | a kid maps to a key exactly when the last usable entry with that kid decodes to it |
| `Jwks.KeyCache.InstallDocument` | pkg/auth/oidc.go:270-281 | the three fields are replaced together, from one document and one clock reading |
| `Jwks.KeyCache.ProbeKey` | pkg/auth/oidc.go:155-165 | the first critical section answers from a fresh cache or remembers what it saw |
| `Jwks.EveryAnswerIsJustified` | pkg/auth/oidc.go:154-189 | in every interleaving a returned key is listed under its kid in one installed document: fast answers within ttl of it, stale ones within ttl + 5 min and after a failed refresh, refreshed ones from the document current at the read |
| `Jwks.AnswersAreComplete` | pkg/auth/oidc.go:155-188 | in every reachable state the first section answers exactly when the newest document lists the key and is within ttl, the second exactly when it lists it |
| `Jwks.StaleAnswersAreComplete` | pkg/auth/oidc.go:173-180 | after a failed refresh a lookup answers exactly when the document it saw lists the key and is within ttl + 5 min |
| `Jwks.FieldsBelongTogether` | pkg/auth/oidc.go:275-281 | keys, expiresAt and staleOK always come from the newest install: its usable keys, its time plus ttl, and five minutes more |
| `JwksHistory.StateIsRecorded` | pkg/auth/oidc.go:230-281 | in every interleaving the installs are the fetched documents, each with the clock reading of the end of its fetch, the refreshes ended as their fetches did, and the ttl is the configured one or an hour |
| `JwksHistory.RefreshRenews` | pkg/auth/oidc.go:270-281 | a document fetched at t is installed as of t, whatever happens before the install, and until t + ttl every key it lists is answered at once |
| `JwksHistory.LookupsAreTheirKids` | pkg/auth/oidc.go:154-189 | the n-th lookup is about the n-th kid asked for |
| `Jwks.RevokedKeysAreGone` | pkg/auth/oidc.go:154-189 | a lookup that starts after an install never returns a key that neither that document nor a later one lists |
| `Redaction.MatchesRedactKey` | pkg/audit/event.go:224-235 | some non-empty redact key occurs in the lower-cased name |
| `Redaction.KeyMatchesIff` | pkg/audit/event.go:224-235 | a name matches exactly when, lower-cased, it is some non-empty redact key with anything before and after it |
| `Redaction.OtherParameters` | pkg/audit/event.go:180-190 | no value stays none, a value that is no object is wrapped under _value, a nil map stays nil only when there is nothing to redact |
| `Redaction.SanitizeValue` | pkg/audit/event.go:180-222 | the loops that fill fresh maps and slices compute the sanitised document |
| `Redaction.SanitizedAt` | pkg/audit/event.go:171-207 | at any path, the document is as before up to the first matching key, which holds the placeholder with nothing below it |
| `Redaction.CleanIffFixed` | pkg/audit/event.go:180-222 | a document is left alone exactly when every matching key already holds the placeholder |
| `Redaction.SanitizeIsIdempotent` | pkg/audit/event.go:180-222 | sanitising twice is sanitising once |
| `Redaction.FastPathIsTheWalk` | pkg/audit/event.go:176-190 | the fast path for an empty list returns what the walk would |
| `Redaction.RedactedAny` | pkg/httpsrv/portal_api.go:412-439 | the search finds a placeholder at any depth |
| `Redaction.HasRedactedIffAt` | pkg/httpsrv/portal_api.go:412-439 | the search reports a placeholder exactly when some path of keys and positions leads to one |
| `Redaction.NoPlaceholderIffUntouched` | pkg/httpsrv/portal_api.go:407-439 | a sanitised document holds no placeholder exactly when sanitising changed nothing and there was none before |
| `DeepCopy.CopyAny` | pkg/httpsrv/portal_api.go:276-305 | the copy holds the same document in maps and slices that are all newly allocated, and the original keeps its own |
| `DeepCopy.CallWithCopy` | pkg/httpsrv/portal_api.go:217-222 | a call that gets the copy and overwrites all its objects at will leaves the stored arguments holding their document |
| `Replay.AuditReplay` | pkg/httpsrv/portal_api.go:128-222 | a request that cannot be replayed is refused without touching the limiter; one that can costs one token and runs with the captured arguments exactly when the limiter allows; each status has its causes |
| `Replay.ReplayIsFaithful` | pkg/mcpmw/audit.go:208-217 | an accepted replay runs with the original call's arguments, and its own sanitised row records exactly those |
| `Replay.OnlyRedactionLosesArguments` | pkg/httpsrv/portal_api.go:182-191 | captured arguments pass the check exactly when sanitising left them alone and they held no placeholder |
| `Replay.ReplayableIff` | pkg/mcpmw/audit.go:208-217 | with everything else in place a call can be replayed exactly when sanitising leaves its arguments alone, they hold no placeholder, fit the payload cap, and are not the empty object in PostgreSQL |
| `Replay.ReadBackIsTheRow` | pkg/audit/postgres/store.go:182-242 | what a replay gets from PostgreSQL is what the stored row holds |
| `DiffTree.SortKeys` | ui/src/pages/Compare.tsx:253-256 | exactly the keys of the union, each once, in ascending order |
| `DiffTree.BuildDiffTree` | ui/src/pages/Compare.tsx:243-298 | the recursive loops build the specified tree, inherited properties included |
| `DiffTree.ItemNames` | ui/src/pages/Compare.tsx:272-291 | two arrays have one child per position of the longer one, called by its decimal number |
| `DiffTree.KeyNames` | ui/src/pages/Compare.tsx:252-271 | two objects have one child per key of either, in ascending order |
| `DiffTree.InheritedNames` | ui/src/pages/Compare.tsx:257-259 | the names that every object inherits |
| `DiffTree.OneSidedKey` | ui/src/pages/Compare.tsx:257-266 | a key only A has is shown as only-a, unless objects inherit the name: then as different |
| `DiffTree.TreeIsWellCounted` | ui/src/pages/Compare.tsx:267-290 | every inner count is the sum of its children's, and "same" means a count of 0 |
| `DiffTree.SwapSides` | ui/src/pages/Compare.tsx:243-298 | swapping the sides swaps only-a with only-b and the values, and keeps every count |
| `DiffTree.NoDifferenceIffAlike` | ui/src/pages/Compare.tsx:243-298 | the count is 0 exactly when the documents are equal up to a one-sided hidden __proto__ |
| `DiffTree.DiffIsExact` | ui/src/pages/Compare.tsx:243-298 | without __proto__ keys the count is 0 exactly for equal documents |
| `DiffTree.CountIsExactIff` | ui/src/pages/Compare.tsx:243-298 | the count is 0 only against A itself exactly when every object inside A has an own __proto__ whose value an inherited one does not hide |
| `DiffTree.ProtoKeyIsInvisible` | ui/src/pages/Compare.tsx:257-261 | a concrete pair of different documents that shows no difference |
| `DiffTree.PatchRestores` | ui/src/pages/Compare.tsx:252-297 | A and the tree rebuild B when no __proto__ inside A holds an object |
| `DiffTree.TreeDeterminesRight` | ui/src/pages/Compare.tsx:252-297 | against A the tree tells all right sides apart exactly when no __proto__ inside A, at any depth, holds an object |
| `DiffTree.ProtoKeyHidesRemoval` | ui/src/pages/Compare.tsx:257-261 | with a __proto__ key in A, two different right sides can have the same tree |
| `DiffTree.MissingSideIsEmpty` | ui/src/pages/Compare.tsx:244-251 | a missing side shows no difference exactly against an empty container |
| `Notifications.NotificationRecorder.Append` | pkg/mcpmw/notifications.go:61-85 | the two sections are the Check and Commit actions; without interference they append once, or not at all at the cap |
| `Notifications.StateIsHistory` | pkg/mcpmw/notifications.go:61-85 | under every interleaving the items are the notes of the first max calls to commit, made of what those calls were given with sanitised parameters, and each call that is over, and no other, stands in the deciding order exactly once |
| `Notifications.StepsOfACall` | pkg/mcpmw/notifications.go:61-101 | a call stops at its first check exactly when the recorder is full, its commit records it exactly when there is room, and a snapshot is what is recorded at that moment |
| `Notifications.TwoLocksRefineOne` | pkg/mcpmw/notifications.go:55-101 | under every interleaving the items are those of one-lock appends in deciding order, the first max of them; early exits lie beyond the cap; snapshots are prefixes of later ones |
| `Notifications.RecordedParamsAreRedacted` | pkg/mcpmw/notifications.go:50-77 | no recorded notification keeps a value under a redacted key |
| `Notifications.FitNotifications` | pkg/mcpmw/audit.go:281-303 | the longest prefix whose JSON array fits the cap, and truncation exactly when something was dropped |
| `Aggregates.Accumulate` | pkg/audit/memory.go:238-260 | the accumulator map holds each key's count, errors and total duration |
| `Aggregates.GroupingConserves` | pkg/audit/memory.go:232-313 | whatever the grouping, counts, errors and durations add up to the window's |
| `AggregateMeaning.SeriesMeaning` | pkg/audit/memory.go:232-276 | each point starts at a multiple of the bucket (a minute when none is given) and has the count, errors and mean duration of the window's events in it; every event of the window is in one |
| `AggregateMeaning.BreakdownMeaning` | pkg/audit/memory.go:279-379 | each group has the count and errors of the window's events with its tool, subject, outcome or authentication type, largest first; nothing for other dimensions |
| `AggregateMeaning.TotalsMeaning` | pkg/audit/memory.go:316-352 | totals, error rate, mean duration and distinct names of the window's events |
| `AggregateMeaning.PercentilesMeaning` | pkg/audit/memory.go:353-358 | P50 and P95 are the elements at n/2 and at 0.95 (n - 1), rounded down, of the durations in ascending order |
| `Aggregates.TimeSeries` | pkg/audit/memory.go:232-276 | strictly increasing buckets that partition the window's events, each with its own counts and average |
| `Aggregates.Breakdown` | pkg/audit/memory.go:279-313 | one group per key that occurs, with its counts, largest first; none for an unknown dimension |
| `Aggregates.Summarize` | pkg/audit/memory.go:316-360 | totals, error rate, average, percentiles and distinct subjects and tools of the window; all zero for an empty one |
| `Aggregates.PercentilesInOrder` | pkg/audit/memory.go:354-357 | P50 and P95 are durations of the window, and P50 <= P95 exactly unless there are two different durations |
| `Aggregates.AggregatesAgree` | pkg/audit/memory.go:231-360 | what TimeSeries, Breakdown by any known dimension and Stats return adds up to the same events and errors |

## Left out

- AsyncPipeline.AsyncLogger.Log: the drop counter is unbounded rather than 64 bits wide, and the periodic warning it triggers is not modelled.
- AsyncPipeline.ScheduledWorkerReturns: that the worker keeps being scheduled and that Log calls stop are hypotheses. Timeouts of inner.Log appear only as its success or failure.
- Query.CompiledMeansFilter: SQL is an abstract syntax with an evaluator, not text; timestamps are taken at the precision the database keeps; case folding works character by character; PostgreSQL's error for a torn search term appears as no row selected; replayed_from is an event id, never one of the literals {}, [] and null that the has= test excludes.
- QueryAgreement.SamePage: ids are ordered by code point, where PostgreSQL uses the database's collation; PostgreSQL refuses U+0000 in text and jsonb, so a filter value that holds it is an error there and an empty result in memory; filter values that spell a non-finite number are excluded, and numbers are exact; ids are distinct, as the primary key makes them.
- Pager.StreamMissesNothing: deletions between pages, callback errors and cancelled contexts end or invalidate a stream and are not modelled.
- Sse.ClientInvertsServer: the JSON encoder and decoder are parameters that round-trip on one line for events without payloads (EncoderExists gives such a pair); UTF-8 decoding across chunk borders is done before the model; lengths count characters rather than UTF-16 units.
- RateLimiter.Limiter.Allow: tokens are exact reals, so float rounding is not captured; the rounded Retry-After header is not modelled.
- Ledger.AcceptIffNotRecent: timestamps are taken to be non-decreasing in lock order, although both ledgers read the clock before locking.
- Jwks.EveryAnswerIsJustified: the HTTP fetch and RSA decoding are inputs of the protocol; JWT parsing and claim checks are not modelled.
- Replay.AuditReplay: works on immutable values, DeepCopy treats the heap; stops at the tool call; connection errors after the token is spent, and the other fields of the replay's row, are not modelled.
- DiffTree.BuildDiffTree: comparing leaves by JSON.stringify is equality of the values, and keys are ordered by code point rather than UTF-16 unit.
- Aggregates.TimeSeries: timestamps are instants, while the source keys its map by time values, whose equality also compares the location; the model speaks of timestamps in one location.
- Aggregates.PercentilesInOrder: 0.95 (n - 1) is computed exactly.
- PostgreSQL's own TimeSeries, Breakdown and Stats: different bucket origin, percentile and limit rules from the in-memory ones, so nothing relates the two.
- The live tail of MemoryLogger: it broadcasts outside its append lock, so it promises no order.
- AsyncLogger.Stream's fallback, GetPayload, NoopLogger: delegation with one branch each.
- HTTP routing, authentication chain order, sessions, CSRF, configuration, tool handlers and the rest of the user interface: small case splits around library calls.

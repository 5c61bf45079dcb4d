# Verified model of the XLyra gateway's stateful and aggregating cores

This project models, in Dafny, the parts of the XLyra gateway and control plane whose guarantees
span more than one call: the two guards in front of the admin login, the bootstrap-status cache, the
gateway key namespace and the access computations built on it, the usage analytics, the upstream
model cache, the archive row counter and the failover trace. `dafny verify dfyconfig.toml` checks it.

How it is organised:

- **Login protection.** `LoginGuard` keeps a map of failure counters and locks keys with a backoff
  computed by a wrapping 64-bit shift; `Totp` computes and matches time-based codes; `TotpReplay`
  remembers the last accepted time step of every admin and forgets it after five minutes.
  `LoginAttempts` interleaves logins that ask the guard before and after their guess. Operations
  are methods of a class that update the map; a run is a list of events with clock readings that
  never go back, and the theorems are about all runs.
- **Bootstrap status.** `Bootstrap` has the mutex sections as methods of a class and a transition
  system in which any number of loaders, marks, clears, insertions and restores interleave.
- **Gateway keys.** `Tokens` and `KeyNamespace` model the two spellings of generated keys and the
  table of stored keys; `Access`, `RouteAccess` and `Topology` model the code that computes which
  sites and models a key may use, and prove that these computations agree.
- **Usage analytics.** `UsageMetrics`, `UsageFacts`, `UsageTotals`, `UsageSeries`, `UsageBreakdowns`
  and `UsageMatrix` model grouping, ranking and folding over maps that are walked in an arbitrary
  order, and `UsageReport` the report as a whole. `Summation`, `Grouping` and `Regrouping` hold the
  laws of sums and of group-by that these proofs share, `Sorting` and `StringSort` stable sorting.
- **Model cache.** `ModelCache` gives the conditional-request protocol on values, `ModelClient` the
  same on the heap with arrays and capability maps that callers may overwrite, `ModelSession`
  sessions in which they do.
- **Archive and failover trace.** `Archive` counts rows through one reused buffer; `Failover` merges
  adjacent attempts into channels.

Assumptions. Instants are nanoseconds on a clock that is a parameter. HMAC-SHA1 is any function to
twenty bytes; SHA-256 is injective (a digest carries the text it was taken of). Costs are reals and
counters mathematical integers, except in the lockout shift, which wraps at 64 bits. Inserted rows,
counts and query answers are what the queries' names say: a query for the enabled permissions of a
key returns exactly those rows in table order, and a group grants its sites only while it is enabled.
Formatting a bucket as a date, upper-casing a currency and inferring endpoint types (from a model
name and the base URL without trailing slashes, `server/internal/modelcapabilities/curated.go`) are
functions given as parameters. Under one cache key, entity tags that match in weak comparison mean
equal representations. The store's permission queries are modelled from
`server/internal/store/api_key_repository.go` and `server/internal/store/api_key_access_repository.go`.

Where the code differs from what one might expect, the model follows the code:

- The replay guard's comment says that a few minutes of retention are enough. They are enough
  exactly when a code is accepted at most 210 seconds and one nanosecond after it was matched
  (`TotpReplay.OneTimeUseIffPrompt`): a longer pause between the two clock readings of one
  verification lets a code be used twice.
- The batched key listing and the per-key code differ on a granted all-zero site identifier: the
  per-key code drops it, the listing keeps it, and a permission whose site model is gone shows it
  (`Access.ListingAgreesIff`, `Access.ZeroSiteExample`). The database's foreign keys rule the case
  out, and then both always agree (`Access.RealSitesAgree`).
- The dataset joins five dimensions with NUL characters, the matrix two. Rows with different
  dimensions can share a joined key, for example when a site key holds a NUL (site `s<NUL>x` with model `m`
  against site `s` with model `x<NUL>m`; `UsageFacts.CollidingExample`,
  `UsageMatrix.SharedCellExample`). Re-aggregation is exact if and only if no two rows collide
  (`UsageFacts.FactsReaggregateIff`, `UsageMatrix.CellsReaggregateIff`). A NUL in a model key alone
  does no harm, and rows read from PostgreSQL, whose text columns hold no NUL, never collide.
- The guard is asked before a guess is evaluated and told of a failure afterwards, in two mutex
  sections. Logins that are under way when a lock falls are still evaluated but not counted, so the
  budget of counted failures bounds evaluated guesses only together with a bound on concurrent
  logins (`LoginAttempts.EvaluatedBudget`); without one any number can be evaluated at one instant
  (`LoginAttempts.RushExceedsBudget`).
- The agent's own row lives in the key table under the digest of the fixed text `xLyra-agent`. Once
  the agent has been given a new row, that text resolves to it (`KeyNamespace.AgentTextResolves`).
  An earlier custom key with the same text keeps the agent from getting its row, exactly then
  (`KeyNamespace.AgentIsEnsuredIff`, `KeyNamespace.CustomKeyBlocksAgent`).

## Model

| member | source | states |
|---|---|---|
| LoginGuard.LockoutIsBackoff | server/internal/auth/login_guard.go:103-106 | for every lock count the wrapped 64-bit shift with its fallback is min(1 minute doubled k times, 30 minutes) over the integers |
| LoginGuard.MiddleShift | server/internal/auth/login_guard.go:103-106 | 28 and 29 doublings wrap to a negative duration, so the fallback is what caps them |
| LoginGuard.LargeShift | server/internal/auth/login_guard.go:103-106 | from 30 doublings on the wrapped value is a multiple of 2^41 and the fallback applies |
| LoginGuard.Guard.RetryAfter | server/internal/auth/login_guard.go:61-76 | the key is locked exactly before its lock's end, and the wait told ends then |
| LoginGuard.Guard.RecordFailure | server/internal/auth/login_guard.go:81-114 | a failure is let through when not under a lock and fewer than four others count in its fifteen minutes; under a lock it learns the rest; the fifth locks for one minute doubled per earlier lock, at most thirty |
| LoginGuard.Guard.Reset | server/internal/auth/login_guard.go:117-124 | removes exactly that key |
| LoginGuard.Guard.SweepLocked | server/internal/auth/login_guard.go:128-137 | from 20000 entries on drops exactly those whose lock is over and whose window is older than fifteen minutes, in any walk order |
| LoginGuard.FailureIsAnswered | server/internal/auth/login_guard.go:81-114 | the answer to a failure in numbers, sweep included |
| LoginGuard.FailureIsRecorded | server/internal/auth/login_guard.go:86-112 | what a failure leaves in its entry: a first, continued or restarted count, or a lock that ends with the wait told |
| LoginGuard.WaitIsExact | server/internal/auth/login_guard.go:61-114 | the wait told by a failure or by asking is exactly the time until the key is open again |
| LoginGuard.ResetForgets | server/internal/auth/login_guard.go:117-124 | a reset opens its key at once with a new count and touches no other |
| LoginGuard.StrikeKeepsTracked | server/internal/auth/login_guard.go:81-114 | one failure keeps the run invariant that ties counters and lock end to the observed history |
| LoginGuard.RunKeepsConsistent | server/internal/auth/login_guard.go:61-137 | from any sane entry on, the invariant holds after all further events without a reset of the key |
| LoginGuard.RunIsSane | server/internal/auth/login_guard.go:81-137 | every entry any run leaves behind, resets included, is such a sane entry |
| LoginGuard.LockoutThrottles | server/internal/auth/login_guard.go:81-114 | after every run, counted failures on a key are at most 5 per lock plus 4 per expired window and 4, expired windows (restarted or swept) are over 15 minutes apart, n unswept locks take the sum of n-1 backoffs |
| LoginGuard.LocksAreEarned | server/internal/auth/login_guard.go:101-112 | after every run, n locks have cost at least 5n - 4 counted failures, so no lock comes early |
| LoginGuard.LocksTakeTheirBackoffs | server/internal/auth/login_guard.go:102-112 | consecutive locks are at least their backoff apart, so the last is at least the summed backoffs after the first |
| LoginGuard.TotalBackoffClosedForm | server/internal/auth/login_guard.go:10-16 | from the fifth backoff on the sum grows by thirty minutes a lock |
| LoginGuard.LocksArePaid | server/internal/auth/login_guard.go:10-16 | n locks of one entry are paid for, at five and a half minutes each, by their backoffs and one window |
| LoginGuard.GuessBudget | server/internal/auth/login_guard.go:81-137 | after every run and with any number of swept keys, within any time span at most (span + 15 min) / 5.5 min locks fall and at most 8 + 5 per such lock + 4 per 15 minutes failures are counted on one key; while the key is not swept, 38 + 5 per 30 minutes + 4 per 15 minutes |
| LoginGuard.FewKeysAreNeverSwept | server/internal/auth/login_guard.go:128-137 | while fewer keys than the cap are in play no entry is dropped |
| LoginGuard.OtherKeysDoNotInterfere | server/internal/auth/login_guard.go:61-137 | any number of events on other keys, with their sweeps, changes neither a key's wait nor the verdict on its next failure |
| LoginGuard.LockPersists | server/internal/auth/login_guard.go:81-124 | before a lock's end only a reset of its key changes the entry |
| LoginAttempts.UncountedWereCaught | server/internal/auth/service.go:407-452 | through every run of concurrent logins, a failure that is not counted belongs to a login that was under way when a lock fell, or at the start |
| LoginAttempts.TallyReconciles | server/internal/auth/service.go:407-452 | every evaluated wrong guess is counted or was recorded under a lock, and each lock catches at most the other logins under way |
| LoginAttempts.EvaluatedBudget | server/internal/auth/service.go:407-452 | after every run, in any span without a success and with at most n logins on the key at once, evaluated guesses exceed the budget by at most those under way at the start and n-1 per admitted lock |
| LoginAttempts.SequentialGuessesAreCounted | server/internal/auth/service.go:407-452 | logins on a key that come one at a time are all counted |
| LoginAttempts.RushExceedsBudget | server/internal/auth/service.go:407-452 | any number of logins that enter together are all evaluated at one instant |
| Totp.CounterMessage | server/internal/auth/totp.go:69-74 | the eight-step loop writes the counter's low eight bytes, most significant first |
| Totp.MessagesAreFaithful | server/internal/auth/totp.go:69-74 | distinct 64-bit counters give distinct messages, and a non-negative counter's message denotes it |
| Totp.TruncateIsDynamicTruncation | server/internal/auth/totp.go:75-82 | masking and shifting is the dynamic truncation of section 5.3 of RFC 4226, always within the twenty bytes |
| Totp.CodeIsHotp | server/internal/auth/totp.go:69-84 | the code is six digits denoting the truncated MAC modulo one million |
| Totp.ComputeCode | server/internal/auth/totp.go:69-84 | the imperative computation yields that code |
| Totp.SearchWindow | server/internal/auth/totp.go:59-66 | the least of the previous, current and next step whose code matches, none when none does |
| Totp.MatchedIffGenuine | server/internal/auth/totp.go:45-67 | a code is matched to a step exactly when its six digits are the HOTP value of that step, within one of the current thirty-second step, and of no earlier such step |
| Totp.MatchCounter | server/internal/auth/totp.go:45-67 | answers a step exactly when the code is genuine for it; malformed codes and undecodable secrets match nothing |
| TotpReplay.Guard.Accept | server/internal/auth/totp_replay.go:37-50 | refuses exactly a step not above the one accepted within the last five minutes, else records it; other admins keep their live entries |
| TotpReplay.Guard.PruneLocked | server/internal/auth/totp_replay.go:52-58 | drops exactly the entries older than the retention, in any walk order |
| TotpReplay.Guard.Verify | server/internal/auth/service.go:59-65 | succeeds exactly when the code is genuine for a step at the first clock reading that is no replay at the second |
| TotpReplay.RunTracks | server/internal/auth/totp_replay.go:37-58 | over every run with prompt acceptance the guard remembers or safely forgot the last accepted step, and accepted steps strictly increase |
| TotpReplay.AcceptedIffNewer | server/internal/auth/totp_replay.go:37-58 | over every prompt run a matched step is accepted exactly when it is later than every step accepted before |
| TotpReplay.ReplayBeyondTolerance | server/internal/auth/totp_replay.go:10-13 | a longer delay admits a run in which one code is accepted twice |
| TotpReplay.OneTimeUseIffPrompt | server/internal/auth/totp_replay.go:10-58 | one-time use over all runs and MACs holds if and only if acceptance follows its match within 210 s + 1 ns |
| Bootstrap.Service.MarkBootstrapInitialized | server/internal/auth/service.go:310-323 | bumps the generation and caches "initialized" with a count of at least one |
| Bootstrap.Service.ClearBootstrapCache | server/internal/auth/service.go:325-334 | bumps the generation and empties the cache |
| Bootstrap.Service.LoadBootstrap | server/internal/auth/service.go:336-346 | answers the cached status exactly when there is one |
| Bootstrap.Service.NextBootstrapGeneration | server/internal/auth/service.go:348-356 | hands out a generation number no one had before |
| Bootstrap.Service.StoreBootstrapIfCurrent | server/internal/auth/service.go:358-373 | stores the clamped count exactly when the generation is still the caller's |
| Bootstrap.StepKeepsInv | server/internal/auth/service.go:263-373 | every step of loaders, marks, clears, insertions and restores keeps the invariant |
| Bootstrap.RunKeepsInv | server/internal/auth/service.go:263-373 | the invariant holds after every interleaving |
| Bootstrap.InitializedIsTrue | server/internal/auth/service.go:263-373 | a cached "initialized" is true of the database, also after a restore that was followed by a clear |
| Bootstrap.AnswersAreTrue | server/internal/auth/service.go:263-308 | without restores no loader ever answers with more admins than exist |
| Bootstrap.NeverForgets | server/internal/auth/service.go:310-373 | between clears the cached count never falls, so a loader that counted zero cannot undo a mark |
| Bootstrap.MarkIsLasting | server/internal/auth/service.go:310-373 | after a mark, until a clear or restore, in every interleaving the cache is ready and initialized with at least one admin, and no loader answers otherwise any more |
| Bootstrap.ClearIsComplete | server/internal/auth/service.go:325-346 | right after a clear nothing is cached and whoever asks has to count |
| Bootstrap.HitAnswers | server/internal/auth/service.go:263-268 | whoever asks while a status is cached gets exactly that |
| Bootstrap.LoneLoaderAnswers | server/internal/auth/service.go:284-300 | a loader nobody overtakes stores and answers the count it read |
| Bootstrap.StoredCountIsFresh | server/internal/auth/service.go:348-373 | a count that gets stored was read after the latest clear, mark or generation bump |
| Tokens.CheckSecret | server/internal/auth/tokens.go:71-85 | exactly 48 letters and digits |
| Tokens.CheckCustomKey | server/internal/auth/tokens.go:87-102 | exactly the nonempty strings of letters, digits and hyphens |
| Tokens.Alias | server/internal/auth/tokens.go:59-69 | the generated spelling of a well-formed `sk-` key, after trimming |
| Tokens.DrawnSecretIsValid | server/internal/auth/tokens.go:104-118 | every random draw is a valid secret |
| Tokens.NewGatewayKey | server/internal/auth/tokens.go:104-118 | `xlyra-` and 48 characters, each the letter or digit at the index drawn |
| Tokens.LettersTellDraws | server/internal/auth/tokens.go:105-115 | different indices give different letters |
| Common.TrimCutsSpace | server/internal/auth/tokens.go:59-60 | trimming cuts white space at both ends and nothing else |
| KeyNamespace.SpellingsReach | server/internal/auth/tokens.go:59-69 | a custom key and the agent's row are matched by their own text only, a generated key exactly by its two spellings |
| KeyNamespace.Service.CreateGatewayAPIKeyValue | server/internal/auth/service.go:835-877 | custom keys are refused when malformed, stored or an alias of a generated key; ten draws avoid both spellings |
| KeyNamespace.CustomIsChosenIff | server/internal/auth/service.go:835-857 | a custom key is accepted exactly when it is letters, digits and hyphens and no stored key answers to it |
| KeyNamespace.FirstFreeDraw | server/internal/auth/service.go:859-877 | a generated key is the first of ten draws neither of whose spellings is stored; an unreadable draw before that ends the search |
| KeyNamespace.NoFreeDraw | server/internal/auth/service.go:859-877 | ten taken draws are a refusal |
| KeyNamespace.Service.CreateAPIKey | server/internal/auth/service.go:718-833 | adds the chosen key, or leaves the table as it was |
| KeyNamespace.CreatedKeyResolves | server/internal/auth/service.go:718-833 | a created key is found at once and until its expiry, and not after it |
| KeyNamespace.Service.RotateAPIKey | server/internal/auth/service.go:1159-1196 | replaces the value of a generated key only, keeping its other fields |
| KeyNamespace.RotatedKeyResolves | server/internal/auth/service.go:1159-1196 | a rotated row answers to its new key exactly as the old row answered to its own |
| KeyNamespace.Service.DeleteAPIKey | server/internal/auth/service.go:1198-1200 | removes exactly that row |
| KeyNamespace.Service.EnsureInternalAPIKey | server/internal/store/agent_repository.go:230-269 | activates the agent's row or inserts it; fails exactly when a custom key has its text |
| KeyNamespace.Service.LookupActive | server/internal/store/api_key_repository.go:252-284 | the row with the hash, if active, unexpired and (where asked) within quota |
| KeyNamespace.RowAnswers | server/internal/store/api_key_repository.go:252-284 | a row answers for a string it matches: refused unless active and before its expiry, then when its quota is spent, found otherwise |
| KeyNamespace.AmendedKeyResolves | server/internal/store/api_key_repository.go:252-284 | deactivating, expiring and spending show at once and touch no other row |
| KeyNamespace.ChoiceFits | server/internal/auth/service.go:835-877 | a chosen value clashes with no stored key, in either direction |
| KeyNamespace.InvIsUnambiguous | server/internal/auth/tokens.go:59-69 | under the table invariant any presented string matches at most one stored key |
| KeyNamespace.OpKeepsInv | server/internal/auth/service.go:718-877 | create, rotate, delete, amend and setting up the agent's row keep the invariant |
| KeyNamespace.AgentIsEnsuredIff | server/internal/store/agent_repository.go:230-269 | the agent gets its row if and only if no custom key has its text, and that text matches a stored key afterwards |
| KeyNamespace.AgentTextResolves | server/internal/store/agent_repository.go:230-269 | once the agent has a new row, validating its text finds that row, at any time |
| KeyNamespace.CustomKeyBlocksAgent | server/internal/store/agent_repository.go:230-269 | a custom key with the fixed text, created first, keeps the agent out |
| KeyNamespace.RunsStayUnambiguous | server/internal/auth/service.go:718-1200 | every run of operations leaves every presented string unambiguous |
| KeyNamespace.RetiredStringsMatchNothing | server/internal/auth/service.go:1159-1200 | after a rotation or deletion no string that matched the old key matches anything |
| KeyNamespace.Service.ValidateAPIKey | server/internal/auth/service.go:1774-1799 | resolves a string to the one key it matches, or to that key's refusal; an unusable match never falls through |
| KeyNamespace.Service.ValidateAPIKeyIdentity | server/internal/auth/service.go:1801-1819 | the same record, indifferent to quotas |
| Access.EffectiveAllowedSiteIDs | server/internal/auth/service.go:1821-1869 | under an allow list exactly the nonzero sites with an enabled permission, or in an enabled group with an enabled permission, once each |
| Access.EnabledSiteIDsForGroups | server/internal/store/api_key_access_repository.go:102-133 | the sites of those groups that are enabled, once each |
| Access.APIKeyEffectiveSiteModels | server/internal/auth/service.go:1312-1337 | the key's permissions on its effective sites, in listing order |
| Access.VisibleModelsAre | server/internal/auth/service.go:1312-1337 | a key sees exactly its own permissions, each with the site and names of its site model, on effective sites under an allow list |
| Access.DetailsAreOrdered | server/internal/store/api_key_access_repository.go:185-226 | they come in order of site name, then upstream name |
| Access.CollectSites | server/internal/auth/service.go:963-980 | the batched loop collects exactly the granted sites of a key |
| Access.ListAPIKeyDetails | server/internal/auth/service.go:895-997 | for every key, its share of the batched listing, filtered by the collected sites |
| Access.GroupedDetailsAreOwn | server/internal/store/api_key_access_repository.go:185-226 | selecting a key's rows from the one sorted listing gives its own sorted listing |
| Access.ListingAgreesIff | server/internal/auth/service.go:895-997 | batched and per-key visible models are equal, in order, if and only if no granted zero site is on display |
| Access.RealSitesAgree | server/internal/auth/service.go:895-997 | they always agree when permissions and group memberships name real sites |
| Access.ZeroSiteExample | server/internal/auth/service.go:895-997 | a database with a granted zero site and a dangling permission on which they differ |
| RouteAccess.FilterSiteModelIDsBySites | server/internal/auth/service.go:1883-1903 | keeps the models of the given sites in order; a missing model is a lookup failure |
| RouteAccess.EnabledSiteModelIDsForCanonical | server/internal/store/api_key_access_repository.go:228-249 | the enabled models bound to the canonical model, in order |
| RouteAccess.ResolveAPIKeyAccessSets | server/internal/auth/service.go:1395-1425 | the access sets for the effective sites |
| RouteAccess.ResolveAPIKeyRouteAccess | server/internal/auth/service.go:1427-1479 | the route decision for the effective sites |
| RouteAccess.RestrictionsCommute | server/internal/auth/service.go:1871-1903 | restricting to a canonical model and to sites commutes |
| RouteAccess.RouteFollowsAccessSets | server/internal/auth/service.go:1395-1479 | under all four policy combinations a route is allowed exactly when the access sets leave a site and a bound model, and its models are the bound access-set models |
| RouteAccess.EnabledModelsAre | server/internal/store/api_key_access_repository.go:251-261 | exactly the site models with an enabled permission of the key |
| RouteAccess.AccessIsPermitted | server/internal/auth/service.go:1395-1425 | under a model list the access sets hold exactly the enabled site models, on granted sites under a site list |
| RouteAccess.AccessFailsIff | server/internal/auth/service.go:1395-1425 | resolving fails exactly when both policies are lists, a site is granted and an enabled site model is gone |
| RouteAccess.RouteIsPermitted | server/internal/auth/service.go:1427-1479 | an allowed route lists exactly the granted sites and the enabled site models bound to the canonical model on them |
| RouteAccess.RouteIsRefusedIff | server/internal/auth/service.go:1427-1479 | a route is refused for its sites exactly when a list grants none, for its models exactly when nothing is left to route to |
| Topology.ResolveAllowedUpstreamIDs | server/internal/admin/handler_traffic_flow.go:275-291 | all enabled sites, or direct and group sites sorted without duplicates |
| Topology.TrafficFlowAllowedUpstreamIDs | server/internal/admin/handler_traffic_flow.go:138-204 | every active key, and only those, gets exactly its granted sites among the enabled ones |
| Topology.DrawnIsSorted | server/internal/admin/handler_traffic_flow.go:275-291 | without a list all enabled sites in their order, with one sorted and without duplicates |
| Topology.DrawnSitesAreEffectiveIff | server/internal/admin/handler_traffic_flow.go:138-204 | the drawn sites are the effective sites the gateway enforces, cut to the enabled ones, if and only if the zero id is not both enabled and granted |
| Topology.DrawnSitesAreEffective | server/internal/admin/handler_traffic_flow.go:138-204 | so they are when the zero id is not enabled or permissions name real sites |
| UsageMetrics.Accumulator.Add | server/internal/analytics/aggregate.go:36-52 | adding a row adds its metrics and keeps the larger maximum latency |
| UsageMetrics.UsageGrows | server/internal/analytics/aggregate.go:36-52 | metrics field by field: each row adds its own counts, tokens, cost and latencies |
| UsageMetrics.LatencyIsMaximal | server/internal/analytics/aggregate.go:44-48 | the maximum latency is at least that of every row, and zero or that of some row |
| UsageMetrics.PlusIsCommutativeMonoid | server/internal/analytics/aggregate.go:54-70 | merging accumulators is commutative and associative with an empty unit, so walk order cannot matter |
| UsageMetrics.RankingIsStrictWeak | server/internal/analytics/aggregate.go:524-532 | cost, requests, label is a strict weak order on members |
| UsageMetrics.NotOutranked | server/internal/analytics/aggregate.go:524-532 | not outranked means higher cost, or equal cost and more requests, or both equal and no later label |
| UsageMetrics.SiteIsRead | server/internal/analytics/aggregate.go:220-236 | key, identifier and label of the site of a row |
| UsageMetrics.ModelIsRead | server/internal/analytics/aggregate.go:238-244 | key, identifier and label of the model of a row |
| UsageMetrics.SiteModelIsRead | server/internal/analytics/aggregate.go:246-259 | key, identifier and label of the site model of a row |
| UsageMetrics.ApiKeyIsRead | server/internal/analytics/aggregate.go:261-276 | key, identifier and label of the API key of a row, the stored name first |
| UsageMetrics.EndpointAndErrorAreRead | server/internal/analytics/aggregate.go:278-292 | endpoint and error type of a row |
| UsageFacts.BuildUsageFacts | server/internal/analytics/aggregate.go:674-744 | the groups of the joined key, in sorted order, for any map walk |
| UsageFacts.FactKeys | server/internal/analytics/aggregate.go:687-701 | one fact per key of a row, remembering the dimensions of one of its rows |
| UsageFacts.FactsHoldTheirRows | server/internal/analytics/aggregate.go:687-701 | a fact holds exactly the sum of the rows with its key |
| UsageFacts.FactIsDescribed | server/internal/analytics/aggregate.go:688-701 | a fact is described by the first of its rows |
| UsageFacts.FactsAreOrdered | server/internal/analytics/aggregate.go:731-742 | facts come by date, then by the labels of site, model and API key |
| UsageFacts.DimsAreRead | server/internal/analytics/aggregate.go:689-694 | the five dimensions a row is grouped by and a fact selected by |
| UsageFacts.CurrencyIsRead | server/internal/analytics/aggregate.go:102-108 | a blank currency is USD, any other its trimmed upper-case name |
| UsageFacts.JoinIsInjective | server/internal/analytics/aggregate.go:687-701 | joined keys are equal only for equal dimensions when date, site, API key and currency hold no NUL, whatever the model |
| UsageFacts.NulFreeRowsDoNotCollide | server/internal/analytics/aggregate.go:687-701 | so such rows never share a fact across dimensions |
| UsageFacts.FactsReaggregate | server/internal/analytics/aggregate.go:674-744 | without collisions, selecting facts by any condition on date, site, model, key and currency and summing equals selecting the raw rows and summing |
| UsageFacts.FactsReaggregateIff | server/internal/analytics/aggregate.go:674-744 | for rows of at least one request, every selection agrees if and only if no two rows with different dimensions share a key |
| UsageFacts.NulInSiteCollides | server/internal/analytics/aggregate.go:694-700 | rows whose site keys differ by a NUL that moves into the model make some selection of the facts wrong |
| UsageFacts.CollidingExample | server/internal/analytics/aggregate.go:694-700 | two concrete rows that collide |
| UsageTotals.FilterRowsByCurrency | server/internal/analytics/aggregate.go:143-151 | exactly the rows of the currency, in order |
| UsageTotals.BuildTotals | server/internal/analytics/aggregate.go:153-187 | totals, rates and averages of the sum of the rows, cost by currency, and the previous period |
| UsageTotals.TotalsAreTheirMetrics | server/internal/analytics/aggregate.go:153-187 | totals and previous period field by field, rates and averages included |
| UsageTotals.BuildDataset | server/internal/analytics/service.go:286-357 | both fact lists, or a refusal exactly above 50000 facts in all |
| UsageTotals.DatasetIsLimited | server/internal/analytics/service.go:351-357 | refused above 50000 facts, and only then |
| UsageTotals.DatasetReproducesTotals | server/internal/analytics/service.go:286-349 | totals recomputed from both periods' facts of a currency are the report's totals for the same rows |
| UsageSeries.MemberPoint | server/internal/analytics/aggregate.go:503-518 | a member's point at a date is the sum of its rows of that date |
| UsageSeries.MemberSpend | server/internal/analytics/aggregate.go:503-518 | a member is ranked by the cost and requests of all its rows |
| UsageSeries.SeriesPoints | server/internal/analytics/aggregate.go:578-602 | one point per date of the map, in increasing order of date |
| Common.LessAfterCommon | server/internal/analytics/aggregate.go:583-583 | strings are ordered by their first difference, a prefix before what it begins |
| UsageSeries.FoldMember | server/internal/analytics/aggregate.go:547-558 | folding adds a member's points date by date, in any walk order |
| UsageSeries.BuildSeries | server/internal/analytics/aggregate.go:486-566 | the nine best-ranked members as they are, all others folded into one |
| UsageSeries.BuildTotalSeries | server/internal/analytics/aggregate.go:491-501 | the ungrouped series with its key, label and points |
| UsageSeries.SeriesConserveUsage | server/internal/analytics/aggregate.go:486-602 | at every date the returned series add up to the ungrouped one, maximum latency included |
| UsageSeries.ReportSeries | server/internal/analytics/aggregate.go:469-566 | the series of the chosen grouping and its ranking, at most ten, showing at every date everything the rows of that date hold, with points at exactly the dates of the rows |
| UsageSeries.KeptSeriesDates | server/internal/analytics/aggregate.go:503-546 | a kept series has a point at exactly the dates of its member's rows |
| UsageSeries.SeriesAddUpToTotals | server/internal/analytics/aggregate.go:486-602 | summed over all dates the series are the totals |
| UsageSeries.KeptOutrankFolded | server/internal/analytics/aggregate.go:524-538 | no folded member outranks a kept one |
| UsageSeries.KeptOutspendFolded | server/internal/analytics/aggregate.go:524-538 | each of the nine kept members has cost at least as much as each folded one in its rows, on equal cost at least as many requests, then no later label |
| UsageSeries.SeriesAreCounted | server/internal/analytics/aggregate.go:534-564 | up to nine members all have their series; of more, nine and "other" |
| UsageSeries.PointIsItsMetrics | server/internal/analytics/aggregate.go:584-600 | a point shows the accumulator of its date field by field |
| UsageSeries.GroupingIsRead | server/internal/analytics/aggregate.go:469-484 | which dimension each grouping reads |
| UsageSeries.OtherGroupingIsRead | server/internal/analytics/aggregate.go:475-480 | the same for API key, endpoint and error type |
| UsageBreakdowns.AggregateHolds | server/internal/analytics/aggregate.go:299-312 | an aggregate holds the sum of the rows with its key |
| UsageBreakdowns.AggregateIsNamed | server/internal/analytics/aggregate.go:299-312 | an aggregate carries the first known label and the first known identifier of its rows, and lacks one only if all do |
| UsageBreakdowns.CostsAreAggregated | server/internal/analytics/aggregate.go:397-420 | the cost collected under a key is that of its aggregate |
| UsageBreakdowns.BreakdownItems | server/internal/analytics/aggregate.go:314-351 | the first twenty ranked aggregates, for any map walk |
| UsageBreakdowns.ItemIsItsRows | server/internal/analytics/aggregate.go:299-351 | every entry is its member's reference with counts, rates and latencies of the filtered sum of its rows |
| UsageBreakdowns.ItemKeysAreDistinct | server/internal/analytics/aggregate.go:299-351 | no member has two entries |
| UsageBreakdowns.EntriesAndCutAddUp | server/internal/analytics/aggregate.go:299-351 | shown entries and cut members together add up to the totals |
| UsageBreakdowns.EntriesAddUpToTotals | server/internal/analytics/aggregate.go:299-351 | with at most twenty members the entries alone do |
| UsageBreakdowns.ShownOutrankCut | server/internal/analytics/aggregate.go:319-330 | no cut member outranks a shown one |
| UsageBreakdowns.ShownOutspendCut | server/internal/analytics/aggregate.go:319-330 | each of the twenty shown entries has cost at least as much as each cut member in its rows, on equal cost at least as many requests, then no later label |
| UsageBreakdowns.EntriesAreCounted | server/internal/analytics/aggregate.go:328-330 | up to twenty members are all shown; of more, twenty |
| UsageBreakdowns.ItemIsItsMetrics | server/internal/analytics/aggregate.go:331-349 | an entry shows its aggregate field by field |
| UsageMatrix.TopDimensionKeys | server/internal/analytics/aggregate.go:361-385 | the keys of the first entries of a ranking by cost and label |
| UsageMatrix.FewKeysAreAllTop | server/internal/analytics/aggregate.go:361-385 | keys are only left out when there are more than the limit |
| UsageMatrix.TopKeysOutrank | server/internal/analytics/aggregate.go:361-385 | no key left out ranks above a top one |
| UsageMatrix.TopKeysOutspend | server/internal/analytics/aggregate.go:361-385 | each top key has cost at least as much as each key left out in its rows, and on equal cost no later first label |
| UsageMatrix.TopIsTen | server/internal/analytics/aggregate.go:422-423 | at most ten top sites and ten top models |
| UsageMatrix.FirstNamesAreFirst | server/internal/analytics/aggregate.go:405-410 | the label a key is ranked by is that of its first row |
| UsageMatrix.MatrixMembers | server/internal/analytics/aggregate.go:424-430 | the matrix holds exactly the cells of a top site and a top model |
| UsageMatrix.MatrixIsOrdered | server/internal/analytics/aggregate.go:431-442 | dearer cells first, then more requests, then the labels of site and model |
| UsageMatrix.CellIsItsRows | server/internal/analytics/aggregate.go:411-419 | a cell shows requests, tokens and cost of its rows, under the references of the first one |
| UsageMatrix.BuildBreakdowns | server/internal/analytics/aggregate.go:387-460 | the three breakdowns and the matrix of top sites and top models |
| UsageMatrix.NulFreeSitesShareNoCell | server/internal/analytics/aggregate.go:411-419 | rows whose site keys hold no NUL never share a cell across sites or models, whatever the model keys |
| UsageMatrix.CellsReaggregateIff | server/internal/analytics/aggregate.go:411-420 | for rows of at least one request, the cells answer every question about sites and models like the rows if and only if no cell is shared |
| UsageMatrix.SharedCellExample | server/internal/analytics/aggregate.go:411-419 | two concrete rows that share a cell |
| UsageMatrix.SiteCellsAddUp | server/internal/analytics/aggregate.go:411-430 | when no cell is shared, a top site's cells add up to its rows of the top models |
| UsageMatrix.SiteCellsAreTheSite | server/internal/analytics/aggregate.go:387-460 | with at most ten models they add up to the site's own aggregate |
| UsageReport.CurrencyOverview | server/internal/analytics/aggregate.go:110-121 | the currencies of the rows, sorted without duplicates, and the cost collected in each |
| UsageReport.CurrencyCosts | server/internal/analytics/aggregate.go:110-121 | a currency is listed exactly when a row has it, with the cost of all such rows |
| UsageReport.PickDisplayCurrency | server/internal/analytics/aggregate.go:123-141 | the requested currency when available, otherwise the first of the dearest, otherwise the default |
| UsageReport.TiesGoToTheSmallestName | server/internal/analytics/aggregate.go:130-136 | among equally dear currencies of a sorted list the smallest name is shown |
| UsageReport.DisplayIsDearest | server/internal/analytics/aggregate.go:123-141 | unless the requested currency is available, the shown one has the largest cost in the rows, and among equals the smallest name |
| UsageReport.RequestedIsShown | server/internal/analytics/aggregate.go:124-130 | a requested currency is shown whenever some row has it |
| UsageReport.DefaultIsShown | server/internal/analytics/aggregate.go:137-140 | without any currency USD is shown |
| UsageReport.Usage | server/internal/analytics/service.go:85-175 | currency choice, totals with the previous period, breakdowns and the series of the chosen grouping, all of the rows of the one display currency |
| UsageReport.ReportedSeriesAreRanked | server/internal/analytics/aggregate.go:524-538 | in the report no folded member outranks a kept one |
| UsageReport.ReportedSeriesOutspend | server/internal/analytics/aggregate.go:524-538 | in the report kept members have cost at least as much as folded ones |
| UsageReport.MemberIsNamed | server/internal/analytics/aggregate.go:505-514 | a series carries the first known label of its member's rows |
| UsageReport.MemberIsIdentified | server/internal/analytics/aggregate.go:505-514 | and the identifier of the first of them |
| UsageReport.DatasetReproducesReport | server/internal/analytics/service.go:286-349 | the totals of the report are those recomputed from the dataset of the same rows |
| UsageReport.SeriesAreTheTotals | server/internal/analytics/service.go:113-173 | the report's series, summed over all dates, show what its totals show |
| ModelCache.KeyTellsSite | server/internal/adapter/xlyra.go:261-265 | requestable sites that share a cache key have the same base URL and the same key |
| ModelCache.TrimSlashesCuts | server/internal/adapter/xlyra.go:262-262 | the base URL is read without its trailing slashes and otherwise as it is |
| ModelCache.EntriesWereServed | server/internal/adapter/xlyra.go:129-131 | every cached entry is the parse of a representation served under a matching entity tag |
| ModelCache.RunsAnswerTheCurrentList | server/internal/adapter/xlyra.go:63-133 | with a server that compares tags weakly and whose matching tags mean equal representations, every call of every run is answered exactly on 304 or a readable success, with the parse of the current representation |
| ModelCache.ConditionIsLatest | server/internal/adapter/xlyra.go:74-77 | in every run a call is conditional exactly when an earlier call under its key got a tagged success, and then with the latest such entity tag |
| ModelCache.FailuresAreReported | server/internal/adapter/xlyra.go:79-105 | unreachable, 304 without an entry, other statuses and unreadable bodies are told apart |
| ModelCache.ParseOne | server/internal/adapter/xlyra.go:107-128 | one model per item that is not blank, with exactly the capabilities the item gives |
| ModelCache.ParseConcat | server/internal/adapter/xlyra.go:107-128 | models come in the order of their items |
| ModelClient.CloneModels | server/internal/adapter/xlyra.go:276-292 | fresh models and fresh capability maps with the same contents |
| ModelClient.ParseModels | server/internal/adapter/xlyra.go:95-128 | the models of the payload, blank identifiers skipped |
| ModelClient.Cache.Load | server/internal/adapter/xlyra.go:267-274 | the entry stored under a key, if any |
| ModelClient.Cache.Reuse | server/internal/adapter/xlyra.go:84-89 | 304 is answered with a copy that shares nothing with the cache |
| ModelClient.Cache.ListModels | server/internal/adapter/xlyra.go:63-133 | the answer and the new cache of the protocol on values; what is returned is fresh and apart from the cache |
| ModelSession.Session | server/internal/adapter/xlyra.go:63-133 | whatever callers do to returned lists and capability maps, every call is answered as if they had only asked |
| Archive.RowsAreLines | server/internal/backup/archive.go:153-186 | newlines plus one for an unterminated end is the number of lines |
| Archive.CountArchiveRows | server/internal/backup/archive.go:153-186 | through the reused buffer, the row count of the bytes delivered, or the first failure |
| Archive.WrittenReadsBack | server/internal/backup/database.go:430-460 | splitting a table written one newline-free value per line gives those values back |
| Archive.CompleteDelivers | server/internal/backup/archive.go:165-181 | without a failure the bytes delivered are the chunks one after the other, the end of the file coming with the last bytes or after them |
| Archive.SplittingDoesNotMatter | server/internal/backup/archive.go:153-186 | however such a table is split into reads, its values are counted |
| Archive.FirstFailureIsReported | server/internal/backup/archive.go:165-181 | the first cancelled or broken read is reported, and nothing is read after the end of the file |
| Archive.RecordedTotal | server/internal/backup/archive.go:105-125 | the sum of the recorded counts; refused exactly for a negative count, or a missing one when strict, naming the first |
| Archive.CountedTotal | server/internal/backup/archive.go:126-147 | the sum of loaded and counted rows, or the first failure |
| Archive.TableCountsFor | server/internal/backup/archive.go:110-146 | what one table adds: its recorded count, its loaded rows, or the lines of its file |
| Archive.ArchiveTotalRows | server/internal/backup/archive.go:104-147 | recorded counts when present, counting otherwise |
| Archive.CountingAgreesWithRecords | server/internal/backup/archive.go:104-147 | both ways give the same total for correctly recorded archives |
| Failover.FailoverChannels | server/internal/admin/handler_requests.go:410-424 | one channel per maximal run of equal keys among the displayable attempts, in order, carrying the run's last attempt |
| Failover.ChannelsAreUnique | server/internal/admin/handler_requests.go:410-424 | the attempts determine the channels |
| Failover.ChannelsCoverRuns | server/internal/admin/handler_requests.go:410-424 | every attempt of a run has its channel's key, and neighbouring channels differ |
| Failover.FailoverTrace | server/internal/admin/handler_requests.go:377-408 | no trace exactly without a second channel or credential; otherwise default, intermediates and final list all channels once, in order |
| Failover.TraceIsShownIff | server/internal/admin/handler_requests.go:380-382 | there is a trace exactly with a second channel, or one channel and a second credential |
| Common.PresentConcat | server/internal/admin/handler_requests.go:455-477 | credential payloads come in the order of their attempts |

## Left out

- HTTP handlers, route tables, JSON payload builders, audit records, and all adapters but the model cache: field copying and foreign formats.
- SQL: queries are modelled by their answers; writes to the key table are atomic, so the window between checking a key value and inserting it is not modelled, nor are insert failures from the key-prefix column.
- A restored backup replaces the key table; that is not an operation of `KeyNamespace`.
- LoginGuard.Guard.RecordFailure: entries are values in a map where the source keeps pointers to them; `time.Time` subtraction does not saturate.
- TotpReplay.Guard.Accept: clocks before 1970 are not modelled.
- Bootstrap.Service.NextBootstrapGeneration: the generation is a natural number and does not wrap at 64 bits.
- Nil guards and nil services, which let everything pass.
- UsageMetrics.Accumulator.Add: costs are reals and counters unbounded; rounding and 64-bit overflow are not modelled.
- UsageSeries.BuildSeries: accumulators inside maps are values where the source keeps pointers to them; the sum over series does not cover the average latency, which is not additive.
- UsageReport.Usage: row loading, the resolved range and the metadata of the report are not modelled; the dates of the previous period are given.
- UsageReport.PickDisplayCurrency: promises its choice for lists in which only the first name may be empty, which every sorted list is.
- Uniqueness of series keys: a member may itself be called "other".
- The contribution heat map, range resolution and day counting of the analytics service.
- ModelClient.CloneModels: nested values inside capability maps are immutable here; the source shares them between copies.
- ModelCache.RunsAnswerTheCurrentList: calls are sequential; a 304 races with no other call, and the digest of the cache key is injective.
- Failover.FailoverTrace: how a channel key, a channel payload and a credential payload are read off an attempt is a parameter.
- Archive.ArchiveTotalRows: decoding of the row-count file is an outcome, not a parser.
- Cryptographic strength, randomness, constant-time comparison and password hashing.

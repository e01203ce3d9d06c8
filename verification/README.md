# Verified model of the API server

This project models the stateful parts of a Go API server in Dafny 4.11 and proves what they keep over
whole runs. `dafny verify dfyconfig.toml` checks all of it.

| part | files | in one sentence |
|---|---|---|
| Rate limiter | `TokenBucket`, `RateLimit`, `RateLimitTheorems`, `ClientIsolation` | per-client token buckets in a visitor map from which idle clients are evicted |
| User directory | `Users`, `Cache`, `CachingRepo`, `CacheRefinement`, `Bloom`, `Directory`, `Staleness`, `Services`, `Exchange` | a table with unique names, a cache with expiry in front of it, a bloom filter in front of both, and calls that interleave |
| Log pipeline | `Logs`, `LogPipeline`, `LogProgress`, `Shutdown`, `ShutdownRace` | a bounded queue that drops when full, a drain, a broker partition, a consumer, a table, and the way out |
| Tokens | `Tokens`, `AuthGate` | token pairs minted from table rows, validation, refresh, and the admin gate |
| Settings | `Csv` | comma-separated addresses |

How it is modelled:

- Objects that the program changes in place are classes (`RateLimiter`, `UserRepository`, `RedisCache`,
  `CachingUserRepository`, `Filter`, `AuthService`, `UserService`, `KafkaHandler`, `Producer`, `LogTable`,
  `Dependencies`, `RequestContext`). Each method's postcondition equates the new state with a function of the
  old one; those functions are what the theorems speak about.
- Concurrency is a step system: a state, atomic steps, and runs that are arbitrary sequences of steps. A
  call that reads and later writes is several steps, so calls interleave. `Replay` methods drive the
  limiter and logging objects through a whole run and are proved to agree with the step system;
  `RegisterIsFourSteps`, `UpdateIsTwoSteps` and `CheckIsTwoSteps` do the same for the services.
- The clock, database failures, cache failures and the answers of remote services are parameters.
  Hashing for the filter, token signing and password comparison are arbitrary functions.
- Times are integers (nanoseconds). The token bucket of `golang.org/x/time/rate` is modelled in exact
  integers: a request costs 60·10⁹ units, a bucket earns `rpm` units per nanosecond and holds `rpm` requests.

What turned out not to hold, with its exact boundary:

- Eviction can be noticed when a request asks its bucket later than 9 minutes and 1 nanosecond after
  looking it up, and never otherwise (`InvisibleIffPrompt`).
- A cached lookup by email or username is wrong exactly when a live entry sits under a name that nobody
  holds (`RunAnswersExactly`): `Delete` leaves the username key (`DeletedUserIsStillFound`), `Update` leaves
  the old email key (`MovedUserIsStillFound`) and the old username key (`RenamedUserIsStillFound`), and a
  `Delete` whose preliminary read fails leaves the email key (`UnreadDeletedUserIsStillFound`).
- Profile updates never reach the filter, so a changed email or username is called available exactly when
  the filter did not happen to report it before (`RenamedNamesLookFree`; `RenamedEmailLooksFree` shows it
  after a completed seed). From a completed seed, this and a registration that has not yet reached the
  filter are the only ways; a server whose seeding failed starts with an empty filter and also calls every
  existing name available (`FilterAgreement`, `AvailabilitySound`, `UnseededNamesLookFree`).
- A profile update writes back the whole profile it has read, so of two that overlap the later one undoes what
  the earlier one changed (`ProfileWriteIsWhole`).
- Once the log handler is installed, the program's way out panics if and only if errors are logged or there
  is no error to exit with (`Shutdown.RunProgram`): `shutdown` logs after the channel is closed, so does the
  report of an error, and without an error to report the deferred second `Close` panics. With errors switched
  off, a failed start and a failing HTTP shutdown exit with status 1.
- The consumers run under a context that is never cancelled, so their loop never returns, whatever it
  reads, and logs one error per failed read and one per message without a row (`NeverCancelledNeverReturns`).
  They go on failing after their readers are closed, so once the log channel is closed too their next
  attempt panics, if errors are logged (`NextAttemptPanics`), and only then can a panic still follow
  (`ClosingCanPanicIff`).
- A comment on `WithAttrs` says that the wait group is shared with derived handlers. The code shares only
  the channel, and the attributes of a derived handler never reach a published record (`LogThroughDerived`).

## Model

| member | source | states |
|---|---|---|
| TokenBucket.BucketIsGreedy | internal/server/server.go:223-229 | with rate rpm/60 per second and burst rpm, the admitted times are those of the most permissive limiter that keeps the rate law: any run of consecutive admissions costs at most one burst plus what its span earns |
| TokenBucket.TakeIffConforms | internal/middleware/ratelimit.go:64-73 | a request is let in if and only if letting it in keeps the rate law |
| TokenBucket.RefilledAfterAMinute | internal/server/server.go:224-229 | a bucket left alone for 60 seconds is full, whatever the limit |
| TokenBucket.BackwardClockEarnsNothing | internal/middleware/ratelimit.go:64-73 | a question with a clock reading before the last update is answered from the tokens that were left then |
| RateLimit.RateLimiter.Get | internal/middleware/ratelimit.go:36-47 | returns the visitor's bucket, a full new one for a stranger, and stamps when the visitor was seen |
| RateLimit.RateLimiter.Cleanup | internal/middleware/ratelimit.go:49-62 | the loop, in whatever order it visits entries and whatever the clock shows at each, removes exactly those not seen for more than 10 minutes by the reading taken at their turn and changes no other |
| RateLimit.RateLimiter.Limit | internal/middleware/ratelimit.go:64-73 | one request looks its bucket up and then asks that very bucket |
| RateLimit.Replay | internal/middleware/ratelimit.go:18-73 | the limiter object driven through any run of lookups, questions and cleanup passes gives the answers of the step system |
| RateLimit.EvictionIsInvisible | internal/middleware/ratelimit.go:36-73 | for every limit, every time-ordered run and every placement of cleanup passes, all answers equal those of a reference in which each client keeps one bucket for ever, provided questions follow lookups within 9 minutes and 1 ns |
| RateLimitTheorems.NeverEvictingIsTheSame | internal/middleware/ratelimit.go:50-62 | the same run with all cleanup passes left out gives the same answers |
| RateLimitTheorems.InvisibleIffPrompt | internal/middleware/ratelimit.go:50-73 | eviction is invisible in all runs if and only if the allowed delay between lookup and question is at most 9 minutes and 1 ns |
| ClientIsolation.ClientsDoNotInterfere | internal/middleware/ratelimit.go:36-73 | in every interleaved run, whatever its timing, a client's answers are those of the limiter run on that client's own requests and the cleanup passes alone |
| RateLimitTheorems.ClientsHaveTheirOwnBucket | internal/middleware/ratelimit.go:36-73 | in a well-timed run a client's answers are those of one bucket of its own that is never evicted |
| RateLimitTheorems.AdmitsGreedily | internal/middleware/ratelimit.go:64-73 | over a whole run a client's admissions are exactly the greedy law-abiding ones among its questions |
| RateLimitTheorems.WindowBound | internal/middleware/ratelimit.go:36-73 | in every interval of length T, across any evictions, a client is admitted at most rpm + floor(rpm·T/60s) times |
| RateLimitTheorems.SharedBudget | internal/server/server.go:174-218 | for the profile, exchange, admin and events groups together, whatever goes through the authentication group, a client is admitted in every interval of length T at most rpm + floor(rpm·T/60s) times |
| RateLimitTheorems.GroupsShareLimiters | internal/server/server.go:174-218 | the admissions of the authentication group are the greedy ones among its own questions, those of the four other groups the greedy ones among all of theirs, each under its own limit |
| RateLimitTheorems.NoLimitAdmitsAll | internal/server/server.go:224-227 | a limit of zero or less admits every request of every run |
| RateLimitTheorems.VisitorMapBound | internal/middleware/ratelimit.go:49-62 | with passes beginning every 5 minutes, everyone in the map was seen at most 15 minutes ago and everyone seen in the last 10 minutes is in the map |
| Users.Insert | internal/repository/user.go:26-37 | inserting keeps ids fresh and emails and usernames unique; a conflict or failure changes nothing |
| Users.Overwrite | internal/repository/user.go:96-110 | updating keeps uniqueness, the set of ids and the next id; an error changes nothing |
| Users.LookupOutcomes | internal/repository/user.go:39-76 | not-found means that no row has the id or name, and any failure of the database is another error |
| Users.InsertOutcomes | internal/repository/user.go:26-37 | a conflict is answered exactly when some row has the email or the username, another error exactly when the database fails |
| Users.OverwriteOutcomes | internal/repository/user.go:96-110 | an update succeeds if and only if the row exists and no other row has the names, not-found exactly without the row, and no other row changes |
| Users.RemoveOutcomes | internal/repository/user.go:112-122 | a deletion takes exactly the row of that id, or reports not-found |
| Users.FindsTheRow | internal/repository/user.go:52-76 | in a valid table, looking up a row's email or username finds that row |
| Users.InsertThenFind | internal/repository/user.go:26-76 | an inserted user is found under both names and a fresh id, with the given hash; every other row is unchanged |
| Users.UpdateMovesNames | internal/repository/user.go:96-110 | an updated user is found under its new names with the password and role it had; names it gave up are free |
| Users.DeletedNamesAreFree | internal/repository/user.go:112-122 | a deleted user's names can be registered again, under an id never used before |
| Users.UserRepository.Create | internal/repository/user.go:26-37 | the object's insert is the table's, conflict and failure included |
| Users.UserRepository.Update | internal/repository/user.go:96-110 | overwrites name, email and username of one row only, or reports not-found or an error and changes nothing |
| Users.UserRepository.AllEmailsAndUsernames | internal/repository/user.go:78-94 | the loop returns exactly the emails and exactly the usernames of the table |
| Cache.RedisCache.Set | internal/cache/cache.go:47-53 | stores the value without a password, to expire one lifetime from now, or never if the lifetime is not positive |
| Cache.RedisCache.Get | internal/cache/cache.go:36-45 | returns the entry if it is live and the server answers, and a miss otherwise |
| Cache.StoreLaw | internal/cache/cache.go:36-53 | what was stored is read back, rates as they were and a user without its password, exactly until one lifetime has passed or for ever; no other key changes |
| Cache.KeyTexts | internal/repository/user_cache.go:131-141 | the text of each key |
| Cache.DecimalInjective | internal/repository/user_cache.go:131-133 | decimal rendering of ids, negative ones included, is injective |
| Cache.KeysInjective | internal/repository/user_cache.go:131-141 | within each key family different subjects have different keys |
| Cache.FamiliesDisjoint | internal/adapter/exchange/cached_client.go:31-31 | the id, email, username and exchange-rate key families never meet |
| CachingRepo.CachingUserRepository.Delete | internal/repository/user_cache.go:94-105 | drops the email key of the row it could read, the row, then the id key; nothing else, in particular not the username key |
| CachingRepo.CachingUserRepository.Update | internal/repository/user_cache.go:73-79 | updates the table first and caches the caller's record under its new keys only if that succeeded |
| CachingRepo.CachingUserRepository.GetByUsername | internal/repository/user_cache.go:107-121 | answers from a live entry, else from the table, and caches what the table answered |
| CachingRepo.CachingUserRepository.CacheUserNow | internal/repository/user_cache.go:84-92 | writes one record, password blanked, under id, email and, if non-empty, username |
| CachingRepo.CallKeepsCoherence | internal/repository/user_cache.go:30-121 | every call keeps this invariant: whatever is cached under the keys of an existing row is that row, and a missing row has no id key |
| CacheRefinement.RunAnswersExactly | internal/repository/user_cache.go:30-121 | after any sequence of calls, any call answers as the table would if and only if it does not hit a live entry under a name nobody holds |
| CacheRefinement.CacheRefinesTable | internal/repository/user_cache.go:30-121 | if updates leave identifiers alone, lookups by id and email always give the table's public record or its not-found, and lookups by username do unless the name belonged to a deleted user |
| CacheRefinement.MissFillsTheCache | internal/repository/user_cache.go:41-71 | a lookup without a live entry answers the row, hash included, and afterwards any lookup of that user is answered from the cache for one lifetime, even if the table fails |
| CacheRefinement.MissReports | internal/repository/user_cache.go:41-71 | a lookup of what is neither cached nor in the table gives the table's error and caches nothing |
| CacheRefinement.WritesFillTheCache | internal/repository/user_cache.go:30-92 | after a create or update that succeeded, the same holds of the user written |
| CacheRefinement.LostEntriesAreHealed | internal/repository/user_cache.go:41-121 | once an entry is gone, a lookup of its key gives the table's answer, whatever was stale there |
| CacheRefinement.DeleteForgets | internal/repository/user_cache.go:94-105 | exactly the email key of a row that could be read and, if the row was deleted, the id key are dropped; every other entry stays |
| CacheRefinement.DeletedUserIsStillFound | internal/repository/user_cache.go:94-105 | for every user: after create and delete, a lookup by its username still returns it |
| CacheRefinement.MovedUserIsStillFound | internal/repository/user_cache.go:73-79 | for every user: after an email change, a lookup by the old email still returns the old record |
| CacheRefinement.RenamedUserIsStillFound | internal/repository/user_cache.go:73-79 | for every user: after a username change, a lookup by the old username still returns the old record |
| CacheRefinement.UnreadDeletedUserIsStillFound | internal/repository/user_cache.go:94-105 | for every user: after a delete whose preliminary read failed, a lookup by its email still returns it |
| Bloom.Filter.Add | pkg/bloom/filter.go:20-25 | sets exactly the item's k positions and clears none |
| Bloom.Filter.Contains | pkg/bloom/filter.go:27-33 | reports an item if and only if all its positions are set |
| Bloom.NoFalseNegatives | pkg/bloom/filter.go:27-33 | an item that was ever added is reported, for any hash functions and any other additions |
| Bloom.EveryBitHasACause | pkg/bloom/filter.go:20-25 | every set bit belongs to something that was added |
| Directory.BitsOfRun | internal/service/auth.go:79-82 | over all interleavings, the bits are those at the start and those of the names whose filter entries were made; nothing else sets or clears one |
| Directory.AddedNamesAreReported | internal/service/auth.go:79-82 | over all interleavings, a name whose filter entry a registration made is reported ever after, and every bit set during the run is at a hash position of such a name |
| Directory.FilterAgreement | internal/service/auth.go:54-151 | over all interleavings, a name in the table that the filter does not report belongs to a registration between its insert and its filter entries, was asked for by a profile update, or was missed by seeding, which a completed seed never does |
| Directory.AvailabilitySound | internal/service/user.go:45-69 | after any run, a non-empty name that no registration owes, no profile update set and seeding did not miss is free if a check calls it available, whatever the cache holds |
| Directory.VerdictExactly | internal/service/user.go:45-69 | available: the name is empty, not reported by the filter, or neither shown by a live entry nor held; taken: reported and shown or held; an error: reported, not shown, and the table fails |
| Directory.DeletedNamesAreAvailable | internal/service/user.go:45-69 | a deleted user's names are called available once the cache has forgotten them, although the filter reports them |
| Directory.UnseededNamesLookFree | internal/server/deps.go:66-78 | with the empty filter of a failed seed, a name in the table is called available if and only if it is empty or has a hash position |
| Directory.RegistrationIsUnique | internal/service/auth.go:54-85 | over all interleavings, if two registrations commit under the same email or username, then between them a deletion or profile update succeeded that let go of that very name |
| Directory.FailedRegistrationLeavesNoTrace | internal/service/auth.go:54-77 | a registration that does not insert leaves the whole state as it would be had it never been tried, whatever other calls do between its check and its insert |
| Directory.ProfileWriteIsWhole | internal/service/auth.go:128-151 | over any steps between its read and its write, a profile update writes the requested fields and puts the others back to what it read; password, role and all other rows are left alone |
| Staleness.RunKeepsDiscipline | internal/repository/user_cache.go:84-141 | in every reachable state, even with lost cache writes, an entry under an id, email or username key is a user with that id or name and no password, and exchange rates are only under rate keys |
| Staleness.TakenMeansRecentlyHeld | internal/service/user.go:45-69 | whenever a check calls a name taken, the table held it at some moment within the last ttl plus the time a cache fill may take, although the auth service writes around the cache |
| Staleness.FreeNamesAreAvailable | internal/service/user.go:45-69 | over any run, with the table answering, a name not held within the last ttl plus the fill time is called available, whatever the filter reports |
| Staleness.RatesLast | internal/adapter/exchange/cached_client.go:29-47 | cached rates are read back as they were exactly until their lifetime is over, whatever users are cached meanwhile |
| Staleness.HitsNeverProlong | internal/cache/cache.go:36-53 | over any run and any number of reads, an entry is as it was at the start or was written by a fill or rate refresh of the run and expires one lifetime after that write |
| Staleness.RenamedNamesLookFree | internal/service/auth.go:128-151 | for every user and every free name it changes to: the table then holds the name, and a check calls it available if and only if the filter did not report it before, whatever the cache holds |
| Services.AuthService.Register | internal/service/auth.go:54-85 | on its own, a registration inserts an ordinary user and adds both names to the filter, or leaves both alone |
| Services.RegisterOutcomes | internal/service/auth.go:54-85 | it succeeds exactly if both names are free, inserting an ordinary user with the given fields and hash; a held email, a held username only, and a failing database each have their own answer and change nothing |
| Services.RegisterIsFourSteps | internal/service/auth.go:54-85 | a registration left alone is its four directory steps in a row |
| Services.AuthService.UpdateProfile | internal/service/auth.go:128-151 | overwrites the non-empty requested fields of the user it read |
| Services.UpdateOutcomes | internal/service/auth.go:128-151 | it succeeds exactly if the user exists and the names are nobody else's; the answer is what the id then reads back: each requested field, the old value of the others, the same password and role; every other row is as it was |
| Services.UpdateIsTwoSteps | internal/service/auth.go:128-151 | a profile update left alone is its two directory steps in a row and touches neither filter nor cache |
| Services.UserService.CheckAvailability | internal/service/user.go:45-69 | judges both names in turn; an error other than not-found ends the check |
| Services.CheckIsTwoSteps | internal/service/user.go:45-69 | the check of one name is a lookup and a fill step, and its verdict is the directory's |
| Services.SeedFilter | internal/server/deps.go:66-78 | a completed seed makes the filter report every email and username of the table; a failed query leaves the filter as it was |
| Exchange.CachedHTTPClient.GetRates | internal/adapter/exchange/cached_client.go:29-47 | a live entry is returned unchanged and the cache left alone; otherwise the fetched answer is returned and, if it is rates, cached for one lifetime |
| Exchange.FirstCallFetches | internal/adapter/exchange/cached_client.go:29-47 | without a live entry the answer is the remote service's, and an error is not cached |
| Exchange.SecondCallIsCached | internal/adapter/exchange/cached_client.go:29-47 | of two calls for a base, the second answers with the rates of the first exactly until their lifetime is over |
| Logs.KafkaHandler.Handle | internal/logger/handler.go:46-53 | queues the record, or drops it when 1000 are queued; never blocks |
| Logs.KafkaHandler.Publish | internal/logger/handler.go:89-110 | hands over one record whose attributes are the handler's own and then the record's, the last value of a key winning |
| Logs.LastValueWins | internal/logger/handler.go:97-103 | a key is in the published map if and only if it was given, with the value given last |
| Logs.RecordsOwnValueWins | internal/logger/handler.go:89-110 | a published record keeps time, level and message; a key has the record's last value, else the handler's last, and no other key appears |
| Logs.KafkaHandler.Close | internal/logger/handler.go:36-40 | everything in the drain's hand and in the queue is handed to the producer in order, and nothing is left |
| Logs.LogThroughDerived | internal/logger/handler.go:55-98 | whatever is queued, a record logged through a handler derived with attributes and a group is dropped or published in its turn without either |
| Logs.LogTable.Insert | internal/consumer/log.go:28-45 | one row per message that decodes and that the table accepts, none otherwise |
| Logs.Consume | pkg/kafka/kafka.go:74-92 | the handler is called for exactly the successful reads, in order and once, whatever failed before; the loop returns only on a failed read under a cancelled context |
| Logs.HandledInOrder | pkg/kafka/kafka.go:74-92 | each delivered message is handled at its own place among those delivered |
| Logs.NeverCancelledNeverReturns | pkg/kafka/kafka.go:74-92 | without cancellation the loop never returns, whatever it reads, and logs exactly one error per failed read and one per message for which no row was inserted |
| LogPipeline.Conservation | internal/logger/handler.go:25-53 | in every run without calls after Close, handled records split exactly into published, in hand, queued and dropped; those not dropped keep their order; the queue never exceeds 1000 |
| LogPipeline.DroppedIffFull | internal/logger/handler.go:46-53 | a record is dropped if and only if the queue holds 1000 at that moment |
| LogPipeline.FlushedBeforeClose | internal/server/deps.go:106-125 | once the log producer is closed, every accepted record has been handed to it exactly once and in order, and nothing is handed over later |
| LogPipeline.EndToEndOrder | internal/logger/handler.go:82-110 | the rows of the log table are an in-order subsequence of the handled records |
| LogPipeline.NothingLostWhenAllGoesWell | pkg/kafka/kafka.go:74-92 | if no publish and no insert fails, the table is exactly the consumed prefix of all published records |
| LogProgress.LossesExactly | internal/logger/handler.go:82-110 | in every run, the partition is exactly the records whose publish succeeded and the table exactly the consumed messages whose insert did, in order |
| LogProgress.DrainCatchesUp | internal/logger/handler.go:82-87 | after any run, one round of the drain per waiting record and one more hand over everything accepted, once and in order, whichever publishes fail |
| LogProgress.ConsumerCatchesUp | pkg/kafka/kafka.go:74-92 | after any run, as many reads as messages are waiting consume them all, whichever inserts fail |
| LogProgress.EverythingArrives | internal/consumer/log.go:28-45 | from any run without failures, drain and consumer bring every record that was not dropped into the table, in order |
| LogProgress.ShutdownCompletes | internal/logger/handler.go:36-40 | closing the channel after any run never hangs: the drain empties the queue, the close returns and the producer is closed with everything handed over |
| LogPipeline.Replay | internal/logger/handler.go:25-110 | handler, producer and table objects driven through any run agree with the step system, and no record reaches a closed producer |
| Shutdown.Dependencies.Close | internal/server/deps.go:106-137 | with an open channel, all accepted records, the one in the drain's hand included, are handed over before the log producer closes; it panics if and only if the channel was already closed or a later resource fails to close while errors are logged |
| Shutdown.StopServing | internal/server/server.go:106-122 | the graceful path panics if and only if the info level is enabled, or errors are and a later resource fails to close; otherwise it returns an error if and only if stopping the HTTP server failed |
| Shutdown.RunProgram | cmd/api/main.go:13-40 | the program panics on its way out if and only if the log handler is installed and errors are logged or neither the start nor the HTTP shutdown failed; otherwise it exits with status 1 if one of them failed and 0 if not |
| ShutdownRace.FlushedDespiteTheRace | internal/server/deps.go:106-125 | with goroutines logging throughout the shutdown: once the log producer is closed, everything accepted has been handed to it once and in order |
| ShutdownRace.RaceCatchesUp | internal/server/deps.go:106-125 | if the goroutines fall silent, the drain hands over everything accepted, whoever logged before |
| ShutdownRace.LogOutcomes | internal/logger/handler.go:42-53 | a record at an enabled level is handled while the channel is open and a panic once it is closed; one below is ignored |
| ShutdownRace.NextAttemptPanics | pkg/kafka/kafka.go:78-87 | once the log channel is closed, the next attempt of a consumer panics if errors are logged |
| ShutdownRace.SilenceIsSafe | internal/logger/handler.go:42-53 | with errors switched off and nobody logging above the error level, no record of any run meets the closed channel |
| ShutdownRace.ClosingCanPanicIff | pkg/kafka/kafka.go:78-87 | however the log channel came to be closed and whoever logged before, with only the consumers still running and no resource failing to close, a panic can follow if and only if errors are logged, unless it has happened already |
| Tokens.TokensHaveOrigins | internal/service/auth.go:68-171 | in every run, each issued token is exactly the access or refresh token signed, at the time it records, for a row that was in the table at most the signing delay earlier |
| Tokens.NewUsersStayOrdinary | internal/repository/user.go:96-110 | an id handed out during the run has the ordinary role in the table, in calls in flight and in tokens for ever, through all updates and refreshes, unless an operator edits the table |
| Tokens.NoTokenWithoutLogin | internal/service/auth.go:87-115 | in every run, no token or call in flight speaks for a user who was there before until a login gives that user's email and a matching password, however many refreshes are tried |
| Tokens.RunIsSigned | pkg/jwt/jwt.go:30-75 | in every run that starts before any token was issued, each token is the signature of its claims |
| Tokens.AcceptedUntilExpiry | pkg/jwt/jwt.go:30-96 | after any further run an issued access token is accepted if and only if the time is before the second-truncated expiry, which is the `ExpiresAt` of the response |
| Tokens.LoginIsAnswered | internal/service/auth.go:87-101 | whoever logs in with its email and a matching password gets an access token with exactly the id, email and role of its row and a refresh token with its id alone, each accepted until its own expiry, whatever runs before and after signing |
| Tokens.RegisterIsAnswered | internal/service/auth.go:54-85 | whoever registers free names gets such tokens for a new row with the role user |
| Tokens.RefreshIsAnswered | internal/service/auth.go:103-115 | whoever refreshes with a token still accepted gets such tokens for its row as it is now |
| Tokens.CallsAnsweredExactly | internal/service/auth.go:54-115 | login, refresh and registration get that far exactly with a matching password, an accepted token of an existing user, or free names; otherwise nothing changes |
| Tokens.UpdatedUserLogsIn | internal/service/auth.go:87-101 | after an update a user logs in under its new email, with the password and role it had |
| Tokens.TokensDieWithTheUser | internal/service/auth.go:103-115 | once a user is gone, no token for it is accepted after the longest lifetime plus the time a call may take to sign, through any chain of refreshes |
| Tokens.DeletionEndsTokens | internal/service/auth.go:103-115 | deleting a row is enough for that |
| Tokens.AdminTokensDieWithTheRole | internal/service/auth.go:103-115 | once a user is no administrator, no token that says it is one is accepted after the access lifetime plus the time a call may take to sign, through any chain of refreshes |
| AuthGate.RequestContext.Authenticate | internal/middleware/auth.go:13-44 | sets id, email and role from the bearer token's claims, or answers 401 and sets nothing |
| AuthGate.RequestContext.RequireRole | internal/middleware/auth.go:46-79 | lets a listed role on, 401 without a role, 403 with another |
| AuthGate.BearerIff | internal/middleware/auth.go:23-37 | any header gives certain claims if and only if it is `Bearer` in any letter case, a space, and a token accepted with these claims |
| AuthGate.AdminChain | internal/server/server.go:204-211 | passes if and only if the bearer token is accepted and its role is admin; 403 exactly for other accepted tokens |
| AuthGate.AdminsGetIn | internal/middleware/auth.go:13-68 | whoever logs in acts as its own row until the access token expires, and passes the admin chain until then if and only if its role is admin |
| AuthGate.AdminsComeFromTheTable | internal/middleware/auth.go:31-68 | whoever passes the admin chain in any run presents an unexpired access token signed for a row that the table held with the admin role at most the signing delay before it was signed |
| AuthGate.DemotedAdminsAreOut | internal/middleware/auth.go:46-68 | a demoted administrator passes no later than the access lifetime plus the signing delay after the demotion |
| AuthGate.RegisteredUsersNeverPass | internal/service/auth.go:68-73 | nobody who registered during the run ever passes it, unless an operator edits the role |
| AuthGate.RefreshTokensAreNoAdmins | pkg/jwt/jwt.go:53-61 | the refresh token of a response authenticates until its own expiry, whatever runs in between, and never passes the admin chain |
| Csv.SplitCSV | internal/config/config.go:147-155 | the loop returns the trimmed non-blank pieces in order |
| Csv.CommaSeparates | internal/config/config.go:147-155 | parsing distributes over the comma for all strings |
| Csv.OnePiece | internal/config/config.go:149-152 | text without a comma gives itself trimmed, or nothing if blank |
| Csv.TrimTakesTheMiddle | internal/config/config.go:150-150 | trimming removes exactly the white space around the text |
| Csv.ItemsAreItems | internal/config/config.go:147-155 | every item is non-empty, trimmed and free of commas |
| Csv.JoinThenSplit | internal/config/config.go:147-155 | joining any list of such items with commas and parsing gives the list back |
| Csv.CanonicalForm | internal/config/config.go:147-155 | parsing a text, joining the items with commas and parsing again gives the same items |
| Csv.PaddedJoinThenSplit | internal/config/config.go:147-155 | however items are padded with any of the 25 white space characters, and with any blank pieces between them, joining with commas and parsing gives exactly the items |

## Left out

- HTTP and gRPC handlers and generated protobuf code: delegation and error-to-status mapping.
- Directory.FailedRegistrationLeavesNoTrace: a refused insert uses up a value of the database's id sequence, which the model does not, so it holds up to the numbering of later ids.
- GORM, replication and SQL: one keyed table with unique columns and fresh ids; the creation and update timestamps of a user are not modelled.
- The match on the text of a unique-constraint error: a conflict is an abstract result of the insert.
- Several server processes: the filter is in the memory of one process, and what another process inserts would be unknown to it.
- Floating point and the truncation of waits to whole nanoseconds inside the rate library: the bucket is exact, so its bounds are those of the configured rate.
- TokenBucket.TakeIffConforms: assumes that questions come in time order; two goroutines reading the clock and locking in opposite order would let a bucket's last update move backwards, of which only the single question is described (`BackwardClockEarnsNothing`).
- Logs.KafkaHandler.Close: a close on a derived handler, which would not wait for the drain, is not modelled, because the program never does it.
- Logs.Consume: the loop is followed on the reads delivered so far, so waiting for a message that never comes is a run that stops growing.
- LogPipeline.EndToEndOrder: the broker is one partition read once in order; redelivery after a crash is outside the repository.
- Shutdown.Dependencies.Close: nothing else logs while it runs; goroutines that do are in `ShutdownRace`.
- RateLimit.RateLimiter.Cleanup: a pass is one step of a run, as it holds the lock throughout; it reads the clock once per entry.
- Tokens.TokensHaveOrigins: the time between reading a row and signing is bounded by a parameter, `delay`; how long a call may take is not modelled.
- Tokens.AcceptedUntilExpiry: assumes that signing is injective, as tokens contain their claims; forging a signature is outside the model.
- `GetProfile` and the user service's `Delete`: they pass on the repository's answer. Which routes ask for a token at all: wiring.
- `List`, `DeletePattern`, the transaction manager, metrics, request ids, CORS, the tee handler, currency conversion and the rest of configuration loading: plumbing or one-branch code.

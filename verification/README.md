# TransferPulse, verified model

TransferPulse is a NestJS backend for football transfer news: users post, vote, like and comment, a bot ingests items,
an external API is synchronised into the tables, and background jobs deliver events, notifications and mails. This
project models the parts of it that carry state over many calls, and proves what they keep.

The database, Redis, the queue and the clock are explicit values. Where calls interleave (outbox delivery, likes, the
cache, the throttle, rotations, ingestion, votes) the model is an event machine: a run is a sequence of enabled events, `Exec` gives the state
after it, and the results are about every run. Where the source loops over tables and fields, a class with those fields
or a method with that loop is proved equal to a specification function, and the results are about that function. Scores
are real numbers; random ids, tokens and hashes are fresh values.

| file | what it models |
|---|---|
| `src/Outbox.dfy`, `src/OutboxRuntime.dfy`, `src/OutboxStarvation.dfy` | dispatcher, queue jobs, the 600 s lock, the worker, retries and crashes |
| `src/LikeCounters.dfy` | like rows and counters written by two statements |
| `src/TaggedCache.dfy`, `src/CacheHistory.dfy`, `src/CacheService.dfy`, `src/CacheKey.dfy`, `src/CacheNamespace.dfy` | cache-aside with tag sets and expiry, and the canonical key |
| `src/FootballSync.dfy`, `src/FootballTables.dfy`, `src/FootballPlayers.dfy`, `src/FootballResume.dfy`, `src/FootballSyncService.dfy` | the sync run, its quota stop and resumption, team ownership, players' teams and the free-agent sweep |
| `src/Throttle.dfy` | the API client's ticket lock and its quota stop |
| `src/FeedCandidates.dfy`, `src/FeedRanking.dfy`, `src/FeedPipeline.dfy`, `src/FeedService.dfy` | the "for you" pipeline and the served set |
| `src/CommentTree.dfy` | the two-level comment tree |
| `src/Notifications.dfy`, `src/Broadcast.dfy`, `src/TransferAlerts.dfy` | transfer notifications, the announcement loop, the digest index and its window |
| `src/Ingestion.dfy` | bot ingestion and its projection |
| `src/Launch.dfy` | the launch mailing loop |
| `src/RefreshTokens.dfy` | refresh-token rotation |
| `src/Votes.dfy` | vote counters and percentages |
| `src/Wrappers.dfy`, `src/Collections.dfy` | an option type, and small facts about sequences and sets |

## What was found

Most promises hold as stated. These hold only under a condition, which is proved exact, or fail in a way a lemma shows:

- A worker must take less than half the lock TTL from its read to its update: under 300 s is the exact bound (`HalfTtlIsExact`).
- `retryCount` can pass `MAX_RETRY`, up to 14, and a delivery taken over by another worker can add one more each (`RetryBound`, `FourteenIsReached`).
- When the oldest 250 pending rows all hold failed jobs, no row gets a job until one of these is dropped (`StarvationLasts`).
- A like whose counter write is lost is not repaired by the retry (`RetryDoesNotRepair`).
- The 60 s buffer of a tag set is exactly the spread of TTLs one tag can carry (`TtlSpreadIsExact`); a value produced before an invalidation and stored after it is served stale, and that is the only way left (`HitIsStaleIff`).
- An ampersand in a parameter makes two different queries share a cache key, exactly when a later name and an equals sign follow it (`AmpersandCollidesIff`); so do null and the empty text (`NullIsEmptyText`). Keys of different services never collide (`ServicesNeverCollide`).
- Once the API client has seen its reserve it refuses every later call of the process (`QuotaStopIsForever`), so a resumed sync loses its remainder unless the process was restarted (`ChainSettlesIffClientsAreFresh`).
- A run that hits the quota sweeps nothing and its resumed run sweeps only the rest (`SweepCoversOwnTargetsOnly`); a resumed run moves exactly the teams that leagues on both sides of the stop list (`ResumedRunMovesATeam`); players whose replies never arrived are freed (`FreedIffNotReceived`, `FailedFetchFreesASquad`).
- The served-posts comment says marking helps the next page; in fact turning to page 2 skips a page of posts (`PageTwoSkipsAPage`).
- With a negative hot score, which reports cause, damping lifts an author's weaker post over the better one (`NegativeScoresCanSwap`).
- A broadcast that failed half-way tells its first users twice when it is started again (`RestartTellsTwice`).
- The digest sees a transfer twice if it was created between a run's clock reading and its query (`SeenOncePlusRaces`), and never if 500 newer ones share its window (`DroppedForGoodIff`).
- One address that always fails keeps the launch loop going for ever, and a hundred of them starve everybody behind them (`EndsIffNobodyIsStuck`, `LoopIsRounds`, `StuckBatchStarvesTheRest`).
- An item whose post was deleted may be refused for good (`ReingestAfterDelete`); two official items looked up at once give one transfer with two messages, or two transfers (`OfficialsAtOnce`).
- A rotation whose old token was revoked after its check leaves a live token too many: a second rotation, a logout or a logout everywhere can come in between (`FinishKeepsTheCountIff`, `RevokeAllMissesARotation`, `ConcurrentRotationsFork`); a double click counts a vote twice (`DoubleClickCountsTwice`).

## Model

| member | source | states |
|---|---|---|
| Outbox.HalfTtlIsExact | src/messaging/reaction.processor.ts:36-93 | in all interleavings of ticks, deliveries, crashes and duplicate deliveries, no two workers handle one row and none handles a marked row, if and only if a worker takes under 300 s from read to update |
| Outbox.LockInvRun | src/messaging/reaction.processor.ts:36-93 | the lock invariant behind it, for every run within that bound |
| Outbox.LateLock | src/messaging/reaction.processor.ts:45-54 | beyond the bound a run exists in which a handler works on a row already marked |
| Outbox.CompletedAtMostOnce | src/messaging/reaction.processor.ts:56-82 | within the bound each row is completed at most once |
| Outbox.ProcessedIsFinal | src/messaging/reaction.processor.ts:38-43 | within the bound a marked row never changes again |
| Outbox.MarkedIsUnhandled | src/messaging/reaction.processor.ts:41-54 | no worker is inside the handler of a marked row |
| Outbox.RowsRecordHistory | src/messaging/reaction.processor.ts:79-91 | retryCount is the number of failed attempts ever made, and a mark means a success happened |
| Outbox.RetryBound | src/messaging/outbox.dispatcher.ts:50-72 | retryCount is at most 14 plus the duplicate deliveries, and at most 10 plus them when a job's attempts fall inside one lock TTL |
| Outbox.RetryInvRun | src/messaging/outbox.dispatcher.ts:58-72 | the invariant relating jobs, owners, strays and counts that carries that bound |
| Outbox.FourteenIsReached | src/messaging/outbox.dispatcher.ts:50-72 | 14 is reached by a run without duplicate delivery |
| Outbox.BatchIs | src/messaging/outbox.dispatcher.ts:50-54 | a batch written out: unprocessed rows with fewer than 10 failures, the oldest, all of them or 250 |
| Outbox.DispatchGivesOneJob | src/messaging/outbox.dispatcher.ts:50-72 | a tick gives each of the oldest 250 pending rows exactly one job and keeps the jobs there are |
| OutboxStarvation.DispatchIsIdleIff | src/messaging/outbox.dispatcher.ts:56-72 | a tick changes the queue exactly when some batched row has no job yet |
| OutboxStarvation.StarvedTickIsIdle | src/messaging/outbox.dispatcher.ts:50-72 | when the oldest 250 pending rows all hold failed jobs there is one possible batch, and the tick changes nothing |
| OutboxStarvation.StarvationLasts | src/messaging/outbox.dispatcher.ts:50-72 | from such a state no run gives any row a job until one of those failed jobs is dropped |
| OutboxStarvation.StarvationIsReachable | src/messaging/outbox.dispatcher.ts:50-72 | such a state is reached by a run |
| Outbox.PoisonIsOutOfReach | src/messaging/outbox.dispatcher.ts:38-54 | a row at MAX_RETRY without a job is changed by no later event |
| OutboxRuntime.Runtime.FindPending | src/messaging/outbox.dispatcher.ts:50-54 | the query returns the oldest pending rows, at most 250 |
| OutboxRuntime.Runtime.AddAll | src/messaging/outbox.dispatcher.ts:58-72 | adding by job id leaves an existing job alone |
| OutboxRuntime.Runtime.Dispatch | src/messaging/outbox.dispatcher.ts:37-74 | a tick is the Dispatch event on a correct batch |
| OutboxRuntime.Runtime.Process | src/messaging/reaction.processor.ts:36-93 | one call: silent return, mark, or count and throw, with the lock taken and kept |
| OutboxRuntime.Runtime.Deliver | src/messaging/reaction.processor.ts:36-93 | an undisturbed delivery is Read, Lock and Succeed or Fail back to back |
| OutboxRuntime.DeliveryResult | src/messaging/reaction.processor.ts:36-93 | the net effect of those three events |
| LikeCounters.CounterBalance | src/messaging/reaction.processor.ts:111-137 | in every run, counter plus pending plus lost writes is the number of like rows |
| LikeCounters.CounterExactness | src/messaging/reaction.processor.ts:111-137 | with no handler mid-way a counter is right if and only if its lost writes cancel |
| LikeCounters.NoCrashNoDrift | src/messaging/reaction.processor.ts:111-137 | without a failure between the statements there is no drift |
| LikeCounters.RowsAreLastReactions | src/messaging/reaction.processor.ts:112-130 | a like row exists exactly when the user's last reaction was a like |
| LikeCounters.RetryDoesNotRepair | src/messaging/reaction.processor.ts:113-126 | the retried like finds its row and leaves the counter wrong |
| LikeCounters.HandleIsIdempotent | src/messaging/reaction.processor.ts:111-137 | handling an event again changes nothing |
| LikeCounters.HandleSettles | src/messaging/reaction.processor.ts:111-137 | a handled reaction keeps every counter equal to its rows |
| LikeCounters.HandleRows | src/messaging/reaction.processor.ts:111-137 | the rows are what the reaction asks for |
| LikeCounters.HandleIsSettle | src/messaging/reaction.processor.ts:111-137 | the two events together have this net effect |
| LikeCounters.Reactions.HandleReaction | src/messaging/reaction.processor.ts:167-193 | the handler is those two events, and throws exactly for a like on a missing target |
| TaggedCache.HitIsFreshExactly | src/common/redis/cache.service.ts:33-101 | a live entry is stale exactly when it was stale at the moment it was stored |
| CacheHistory.HitIsStaleIff | src/common/redis/cache.service.ts:33-101 | in every guarded run a hit is older than a finished invalidation of one of its tags if and only if a SMEMBERS and its DEL of one of its tags both lie between the events that produced and stored the value |
| CacheHistory.ToldRun | src/common/redis/cache.service.ts:33-101 | positions of productions, scans and stores in the run determine what the state knows of age and tags |
| TaggedCache.LateStoreServesStale | src/common/redis/cache.service.ts:50-54 | such a run exists for all TTLs: a value read before a whole invalidation and stored after it is served |
| TaggedCache.AtomicGetOrSetIsFresh | src/common/redis/cache.service.ts:33-55 | with production and storing back to back no hit is stale |
| TaggedCache.InvRun | src/common/redis/cache.service.ts:57-101 | every live entry is a member of each of its tag sets and each set outlives it |
| TaggedCache.TtlSpreadIsExact | src/common/redis/cache.service.ts:64-72 | that index is complete in all runs if and only if TTLs differ by at most 60 s |
| TaggedCache.WideSpreadServesStale | src/common/redis/cache.service.ts:66-70 | with a wider spread an invalidation misses a live key |
| TaggedCache.StoreInWindowIsLost | src/common/redis/cache.service.ts:83-89 | a store between SMEMBERS and DEL loses its tag |
| CacheService.InvalidateAllRemovesEveryTagged | src/common/redis/cache.service.ts:79-101 | afterwards no live key carries any of the tags, and the others are untouched |
| CacheService.InvalidateOneKeepsIndex | src/common/redis/cache.service.ts:80-89 | an invalidation keeps the index complete and removes every live key of the tag |
| CacheService.InvalidateOneIsScanDrop | src/common/redis/cache.service.ts:83-89 | one invalidation is its two round trips |
| CacheService.StoreIsTwoEvents | src/common/redis/cache.service.ts:50-54 | a miss is production and storing back to back, and fresh |
| CacheService.Cache.BindTags | src/common/redis/cache.service.ts:66-71 | the tag commands bind the key to every tag, repeated tags included |
| CacheService.Cache.Store | src/common/redis/cache.service.ts:57-76 | the stored entry and its tag sets |
| CacheService.Cache.GetOrSet | src/common/redis/cache.service.ts:33-55 | a live key is returned unchanged; otherwise the new value is stored, returned and fresh; hits and misses count |
| CacheService.Cache.InvalidateTags | src/common/redis/cache.service.ts:79-101 | the loop is the invalidations one after the other |
| CacheKey.StringifyIgnoresOrder | src/common/redis/cache.service.ts:124-140 | the printed form ignores field order and undefined fields at every depth |
| CacheKey.KeyIgnoresInsertionOrder | src/common/redis/cache.service.ts:116-140 | the key is independent of insertion order |
| CacheKey.DecodeStringify | src/common/redis/cache.service.ts:134-139 | round trip: a printed flat object reads back as its defined fields, sorted |
| CacheKey.EqualKeysEqualParameters | src/common/redis/cache.service.ts:116-140 | in one namespace equal keys of flat parameters mean equal defined parameters |
| CacheNamespace.NamespacesCollideIff | src/common/redis/cache.service.ts:116-122 | two namespaces share a key for some flat parameters if and only if they are equal or one is the other, a colon, and the printed form of parameters |
| CacheNamespace.EqualKeysIff | src/common/redis/cache.service.ts:116-140 | with namespaces free of equals signs two keys are equal if and only if both namespaces and defined parameters are, empty parameters included |
| CacheNamespace.ServicesNeverCollide | src/leagues/leagues.service.ts:101-206 | so for any two of the 33 namespaces the services use |
| CacheNamespace.ColonInANameCollides | src/common/redis/cache.service.ts:121-122 | a colon in a parameter's name would move between namespace and name |
| CacheKey.ArraysPrintAlikeIff | src/common/redis/cache.service.ts:131-133 | arrays of texts without commas print alike if and only if they are equal, or empty and one empty text |
| CacheKey.NullIsEmptyText | src/common/redis/cache.service.ts:125-127 | null shares its key with the empty text |
| CacheKey.BeforeIsLexicographic | src/common/redis/cache.service.ts:137 | names are sorted lexicographically |
| CacheKey.AmpersandCollidesIff | src/common/redis/cache.service.ts:116-140 | for every text, the key of one field n=v is the key of other plain parameters if and only if v holds an ampersand followed by a plain name after n and an equals sign |
| CacheKey.CollisionIsCut | src/common/redis/cache.service.ts:134-139 | whatever parameters collide with n=v show where its text falls apart |
| FootballSync.RunSettlesOrKeeps | src/integration/api-football/football-data.sync.service.ts:99-173 | processed, failed and remaining targets partition the targets, the remaining are the suffix from the league that hit the quota, and a quota error at any depth is the last request of the run |
| FootballSync.EveryTargetIsSettledOnce | src/integration/api-football/football-data.sync.service.ts:114-152 | the same for the loop from any starting point |
| FootballSync.TargetsAreHonest | src/integration/api-football/football-data.sync.service.ts:114-152 | requests of the loop: an over-quota reply is the last one and is signalled |
| FootballSync.TeamIsHonest | src/integration/api-football/football-data.sync.service.ts:235-262 | the team loop's catch passes a quota error on |
| FootballSync.SquadIsHonest | src/integration/api-football/football-data.sync.service.ts:266-344 | so do pages, roster and transfers |
| FootballSync.OrderIsSorted | src/integration/api-football/football-data.sync.service.ts:208-221 | the target order has all leagues before all cups and loses no target |
| FootballSync.PartKeepsOrder | src/integration/api-football/football-data.sync.service.ts:208-221 | among leagues and among cups the order is kept |
| FootballSync.OrderSurvivesResume | src/integration/api-football/football-data.sync.service.ts:208-221 | a remainder is already in order |
| FootballTables.TeamsBelongToTheirLeague | src/integration/api-football/football-data.sync.service.ts:223-264 | after a clean run a listed team belongs to the first league-type target listing it; a cup moves no existing team |
| FootballTables.FreedIffNotReceived | src/integration/api-football/football-data.sync.service.ts:681-697 | after every run without a quota stop, whatever failed in it, a player who was not free is free if and only if the player is on a team of a swept league-type target and no reply the run received lists the player; the id -1 is spared when nobody was seen |
| FootballTables.SettledByTheirLists | src/integration/api-football/football-data.sync.service.ts:114-152 | without a quota stop a target is processed if the run got its team list and failed otherwise |
| FootballTables.FreeExactlyWhenUnlisted | src/integration/api-football/football-data.sync.service.ts:681-697 | after a clean run a player of a swept league, free before or not, is free if and only if no fetched squad lists the player |
| FootballTables.FirstLeagueWins | src/integration/api-football/football-data.sync.service.ts:208-221 | in the target order a league's listing comes before any cup's |
| FootballTables.TargetsWalk | src/integration/api-football/football-data.sync.service.ts:114-152 | a clean walk's owners, seen players and swept leagues, by reference definitions |
| FootballTables.TargetsSee | src/integration/api-football/football-data.sync.service.ts:223-344 | for any walk without a quota stop: who was seen, by the replies received, and which leagues are swept |
| FootballTables.TeamsTake | src/integration/api-football/football-data.sync.service.ts:234-262 | which teams a competition takes from a team list, and what that does to owners when no error is counted |
| FootballTables.SquadWrites | src/integration/api-football/football-data.sync.service.ts:266-344 | a squad's requests see exactly the players of the replies received, however they end, and touch no team |
| FootballPlayers.SquadPut | src/integration/api-football/football-data.sync.service.ts:266-344 | afterwards exactly the players whose row its replies could write are on the team and not free, and every other row is as before |
| FootballPlayers.PlayersEndOnTheirLastTeam | src/integration/api-football/football-data.sync.service.ts:99-173 | after every run without a quota stop a player is, not free, on the last team of the walk that wrote the player's row; everybody else keeps the team |
| FootballPlayers.CleanRunPlayers | src/integration/api-football/football-data.sync.service.ts:455-467 | after a clean run that is the last attended team whose replies list the player |
| FootballPlayers.VisitsAreAttended | src/integration/api-football/football-data.sync.service.ts:235-253 | the walk asks for each attended team's squad once and for no other |
| FootballPlayers.RepliesArePages | src/integration/api-football/football-data.sync.service.ts:275-302 | the pages asked for are the first up to the one that reports no more |
| FootballPlayers.SquadRequests | src/integration/api-football/football-data.sync.service.ts:266-320 | the requests of a squad: its pages, the roster, the transfers, each only if switched on and nothing failed before |
| FootballPlayers.SquadErrorsIff | src/integration/api-football/football-data.sync.service.ts:296-344 | a squad counts no error if and only if everything received could be stored |
| FootballPlayers.TeamErrorsIff | src/integration/api-football/football-data.sync.service.ts:255-261 | nor does a team, unless it is skipped, if and only if it was written and no request of its squad failed |
| FootballTables.SweepCoversOwnTargetsOnly | src/integration/api-football/football-data.sync.service.ts:154-160 | a run frees only players of its own league-type targets, and none after a quota stop |
| FootballTables.FailedFetchFreesASquad | src/integration/api-football/football-data.sync.service.ts:255-261 | when the first page of a team fails, everybody of a swept league whom no other team's replies list is free |
| FootballResume.ResumedRunMovesATeam | src/integration/api-football/football-data.sync.service.ts:235-239 | a team ends with another owner after a quota stop and a clean resumed run than after one whole run if and only if both a league settled before the stop and a league of the remainder list it |
| FootballResume.StoppedOwner | src/integration/api-football/football-data.sync.service.ts:131-152 | the owner a stopped run leaves: by the settled targets, or from the target half done |
| FootballResume.ChainSettlesIffClientsAreFresh | src/sync/sync.processor.ts:42-63 | along the resume jobs, with the client's memory of its quota, nothing is lost if and only if every job that resumes a remainder has a fresh client; an ended chain has then settled every target, each once |
| FootballResume.ReserveLosesTheRest | src/integration/api-football/football-data.sync.service.ts:109-163 | a client at its reserve refuses the index request, the run is fatal, and the whole remainder is lost |
| FootballResume.StopLeavesTheReserve | src/integration/api-football/axios-football-data.client.ts:226-258 | a run that leaves a remainder leaves its client at the reserve |
| FootballResume.ChainEnds | src/sync/sync.processor.ts:42-63 | if every run that loads the index settles a target, as many jobs as targets are enough |
| FootballSyncService.FootballDataSync.SyncAll | src/integration/api-football/football-data.sync.service.ts:99-173 | the run as specified, with its remainder and whether it was fatal |
| FootballSyncService.FootballDataSync.SyncTargets | src/integration/api-football/football-data.sync.service.ts:114-152 | the target loop as specified |
| FootballSyncService.FootballDataSync.SyncLeague | src/integration/api-football/football-data.sync.service.ts:223-264 | one league as specified |
| FootballSyncService.FootballDataSync.SyncTeams | src/integration/api-football/football-data.sync.service.ts:235-262 | the team loop, left at a quota stop |
| FootballSyncService.FootballDataSync.SyncTeam | src/integration/api-football/football-data.sync.service.ts:236-261 | its body with the catch |
| FootballSyncService.FootballDataSync.SyncSquad | src/integration/api-football/football-data.sync.service.ts:266-320 | pages, then roster, then transfers, and whom this puts on the team |
| FootballSyncService.FootballDataSync.FetchPages | src/integration/api-football/football-data.sync.service.ts:275-302 | the page loop, which re-reads the number of pages from every reply |
| FootballSyncService.FootballDataSync.SavePlayers | src/integration/api-football/football-data.sync.service.ts:285-300 | one page, each player seen before it is written |
| FootballSyncService.FootballDataSync.SavePlayer | src/integration/api-football/football-data.sync.service.ts:286-299 | one player: the row says this team and not free, errors counted and swallowed |
| FootballSyncService.FootballDataSync.SyncSquadRoster | src/integration/api-football/football-data.sync.service.ts:323-344 | the roster players no page had |
| FootballSyncService.FootballDataSync.MarkFreeAgents | src/integration/api-football/football-data.sync.service.ts:681-697 | the sweep, empty without leagues |
| FootballSyncService.ProcessSync | src/sync/sync.processor.ts:42-63 | a resume job exists exactly after a quota stop and carries the remainder |
| Throttle.RateBound | src/integration/api-football/axios-football-data.client.ts:202-220 | any half-open minute has at most max(1, maxRpm) requests, for any callers |
| Throttle.MinuteApart | src/integration/api-football/axios-football-data.client.ts:202-220 | a request and the maxRpm-th one after it are at least 60000 ms apart |
| Throttle.TurnIsTakenOnTime | src/integration/api-football/axios-football-data.client.ts:213-219 | a caller whose turn it is leaves at once or sleeps exactly until one interval after the last request |
| Throttle.IntervalCovers | src/integration/api-football/axios-football-data.client.ts:202-203 | the interval is the least one that maxRpm times fills a minute |
| Throttle.LeavesInArrivalOrder | src/integration/api-football/axios-football-data.client.ts:209-220 | the n-th request to leave is that of the n-th arrival |
| Throttle.OwnsUntilTheEnd | src/integration/api-football/axios-football-data.client.ts:210-219 | an arrival keeps its ticket until it has left |
| Throttle.NextTicketMoves | src/integration/api-football/axios-football-data.client.ts:213-219 | no deadlock: the next caller can go on, at the latest after its sleep |
| Throttle.InvRun | src/integration/api-football/axios-football-data.client.ts:209-220 | tickets, resolved promises and spacing, in every run |
| Throttle.Quota.Get | src/integration/api-football/axios-football-data.client.ts:226-258 | one call: refused at the reserve, otherwise sent and its header kept |
| Throttle.QuotaStopIsForever | src/integration/api-football/axios-football-data.client.ts:226-258 | calls one after the other: one is sent if and only if no earlier response reported the reserve |
| Throttle.StopLastsUntilALateAnswer | src/integration/api-football/axios-football-data.client.ts:226-258 | with calls at the same time the stop lasts as long as no call in flight reports more than the reserve |
| Throttle.StopIsFinalWithNoneInFlight | src/integration/api-football/axios-football-data.client.ts:226-258 | with none in flight nothing ever changes the client again |
| FeedCandidates.Collect | src/feed/pipeline/pipeline.runner.ts:19-34 | all candidates of the sources that succeeded |
| FeedCandidates.CollectedIsTheUnion | src/feed/pipeline/pipeline.runner.ts:19-34 | a failed source loses only its own candidates |
| FeedCandidates.MergeDuplicates | src/feed/pipeline/pipeline.runner.ts:64-79 | the map walk computes first record and all origins per post |
| FeedCandidates.DedupIsDistinct | src/feed/pipeline/pipeline.runner.ts:64-79 | one candidate per mentioned post, none missing |
| FeedCandidates.FirstIsFirst | src/feed/pipeline/pipeline.runner.ts:64-79 | the record kept is that of the first mention |
| FeedCandidates.ApplyFilter | src/feed/filters/seen-served.filter.ts:12-29 | kept and removed, the early return included |
| FeedCandidates.FilterLosesNothing | src/feed/filters/seen-served.filter.ts:12-29 | kept and removed together are the input |
| FeedCandidates.SurvivorsAre | src/feed/filters/blocked-author.filter.ts:12-29 | exactly the candidates no filter drops survive |
| FeedCandidates.FilterOrderIsIrrelevant | src/feed/pipeline/pipeline.runner.ts:41-47 | only the set of filters matters, not their order |
| FeedCandidates.ApplyFilters | src/feed/pipeline/pipeline.runner.ts:41-47 | the filter loop |
| FeedRanking.PrescoredIsAProduct | src/feed/scorers/affinity.scorer.ts:15-25 | the three passes make the score the hot score times one factor: of followed, else of favourite, else of discovered origins |
| FeedRanking.DiversifyAuthors | src/feed/scorers/author-diversity.scorer.ts:20-38 | the walk with its two maps computes the adjusted scores |
| FeedRanking.DiversityIsBounded | src/feed/scorers/author-diversity.scorer.ts:20-38 | every new score lies between floor times the old one and the old one |
| FeedRanking.DiversityKeepsOwnOrder | src/feed/scorers/author-diversity.scorer.ts:24-33 | an author's weaker post never passes a stronger one whose score is not negative |
| FeedRanking.DiversityKeepsTheBest | src/feed/scorers/author-diversity.scorer.ts:24-33 | every author has a best post that keeps its score |
| FeedRanking.OwnOrderOfTwo | src/feed/scorers/author-diversity.scorer.ts:24-33 | for two posts the order survives exactly when the damped score stays below |
| FeedRanking.NegativeScoresCanSwap | src/feed/scorers/author-diversity.scorer.ts:30 | for every negative score some weaker post overtakes |
| FeedRanking.MultiplierFalls | src/feed/scorers/author-diversity.scorer.ts:30 | the multiplier starts at 1 and falls towards the floor |
| FeedRanking.MultiplierDecays | src/feed/scorers/author-diversity.scorer.ts:30 | with every better post its distance to the floor shrinks by the decay |
| FeedRanking.SortIsRanked | src/feed/selectors/top-k.selector.ts:14-20 | the sort ranks by score, then date, and loses nothing |
| FeedRanking.TopKKeepsTheBest | src/feed/selectors/top-k.selector.ts:13-22 | the cut-off part outranks no selected post, and only it is lost |
| FeedPipeline.Run | src/feed/pipeline/pipeline.runner.ts:14-62 | the stages in order |
| FeedPipeline.ScoreAll | src/feed/pipeline/pipeline.runner.ts:50-52 | the scorer loop |
| FeedPipeline.PipelineIsSound | src/feed/pipeline/pipeline.runner.ts:14-62 | distinct posts, ranked, each from a succeeded source with all its origins and through all four filters |
| FeedPipeline.PipelineIsComplete | src/feed/pipeline/pipeline.runner.ts:14-62 | every survivor is in the result or outranked by all of it |
| FeedPipeline.ResultIsShown | src/feed/filters/blocked-author.filter.ts:12-29 | nothing in the result is by the viewer or a suppressed author, was seen, or has a muted word anywhere |
| FeedPipeline.EligibleIffShown | src/feed/feed.service.ts:93-101 | a mentioned post is eligible if and only if none of these four reasons keeps it out |
| FeedPipeline.ResultIsInOrder | src/feed/selectors/top-k.selector.ts:13-22 | the result runs from the best score down, newer posts first at equal scores, and nothing cut off is better |
| FeedPipeline.EligibleHasEverySurvivor | src/feed/pipeline/pipeline.runner.ts:37-47 | a mentioned post survives exactly when no filter drops it |
| FeedPipeline.SourceOrderIsIrrelevant | src/feed/pipeline/pipeline.runner.ts:19-52 | source order changes no post, origin set or score before diversity, if the sources agree on each record |
| FeedPipeline.StaleCopyDependsOnOrder | src/feed/sources/discovery.source.ts:33-44 | with a stale copy the score depends on the order exactly when the hot scores differ |
| FeedService.FeedServedStore.GetServed | src/feed/feed-served.store.ts:23-31 | the set while it lives |
| FeedService.FeedServedStore.MarkServed | src/feed/feed-served.store.ts:33-46 | a page is added and an empty one changes nothing, other users' sets included |
| FeedService.MarkedIs | src/feed/feed-served.store.ts:33-46 | the set grows by the page while it lives, and its time is renewed, except for an empty page |
| FeedService.Endpoint.ForYou | src/feed/feed.service.ts:61-129 | page and total of the pipeline under the served and client-seen posts, nothing on the page that should not be shown, and the served set after it |
| FeedService.EachPostServedOnce | src/feed/feed.service.ts:61-129 | repeated page-1 calls return min(n, k * pageSize) different posts in k calls, all n once k * pageSize reaches n, and nothing afterwards |
| FeedService.PageTwoSkipsAPage | src/feed/feed.service.ts:110-126 | page 2 is the second page of the posts left after page 1; the first page of these is on neither, as many posts as there are up to a page; page 2 is empty if and only if at most two pages were eligible |
| FeedService.ServedLeave | src/feed/feed.service.ts:77-80 | served posts leave the eligible ones and nothing else does |
| FeedService.EligibleIdsAre | src/feed/feed.service.ts:77-101 | an eligible post is one a source mentions and none of the four reasons keeps out |
| FeedService.PipelineRanksTheRest | src/feed/feed.service.ts:93-108 | each call ranks distinct eligible posts not yet served, as many as there are up to the maximum |
| FeedService.ForYouIsACall | src/feed/feed.service.ts:110-126 | the endpoint's page is the session's page |
| CommentTree.ReachableIsRanked | prisma/schema.prisma:393-411 | in every reachable table a parent is present and older than its replies |
| CommentTree.DeleteLeavesNoOrphan | prisma/schema.prisma:393-411 | a cascading delete takes exactly its comments and leaves no reply without its parent |
| CommentTree.WalksEndIffRanked | src/comments/comment.mapper.ts:32-38 | all root walks end if and only if the rows can be ranked |
| CommentTree.RootIsTopmost | src/comments/comment.mapper.ts:32-38 | the root is the topmost present ancestor |
| CommentTree.RootIsReached | src/comments/comment.mapper.ts:32-38 | a chain of parents leads to it |
| CommentTree.EveryCommentPlacedOnce | src/comments/comment.mapper.ts:40-49 | read top by top the tree holds every comment exactly once |
| CommentTree.TopIdsAreRoots | src/comments/comment.mapper.ts:43-44 | the tops are exactly the roots |
| CommentTree.ReplyIdsShareRoot | src/comments/comment.mapper.ts:45-47 | a reply list holds exactly the other comments of that root |
| CommentTree.OrderIsKept | src/comments/comment.mapper.ts:40-48 | tops and reply lists keep the input order |
| CommentTree.DepthIsTwo | src/comments/comment.mapper.ts:21-50 | a reply carries no replies |
| CommentTree.ReachableListingIsBuilt | src/comments/comment.mapper.ts:24-50 | every listing of every reachable table can be ranked, and the objects built from it hold every comment once, tops and replies in the order of the list, two levels deep |
| CommentTree.RootId | src/comments/comment.mapper.ts:32-38 | the loop ends at the root |
| CommentTree.MakeDtos | src/comments/comment.mapper.ts:28-29 | one fresh dto per comment with its like flag |
| CommentTree.Place | src/comments/comment.mapper.ts:41-47 | one comment pushed to the tops or to its root's replies |
| CommentTree.PlaceAll | src/comments/comment.mapper.ts:40-48 | the pass over the list |
| CommentTree.BuildCommentTree | src/comments/comment.mapper.ts:24-50 | the built objects are the specified tree |
| Notifications.RunsAreOneRun | src/notifications/notifications.service.ts:63-101 | any number of runs leaves the rows of one, exactly for those to be told, and the counts sum to the rows created |
| Notifications.AttemptsAgree | src/notifications/prisma-notification.repository.ts:153-175 | any interleaving of inserts gains what was attempted, each once, counted once |
| Notifications.RepeatsAreIdle | src/notifications/prisma-notification.repository.ts:164-172 | a repeat creates and counts nothing |
| Notifications.AttemptsAreForThoseToBeTold | src/notifications/notifications.service.ts:72-98 | one attempt per user with a matching favourite who is neither the creator nor opted out |
| Notifications.ToBeToldIs | src/notifications/prisma-notification.repository.ts:117-137 | who that is, written out over favourites, creator and preferences, rumours and transfers apart |
| Notifications.NotificationsService.CreateNotification | src/notifications/prisma-notification.repository.ts:153-175 | the insert with its unique-violation branch |
| Notifications.NotificationsService.FindFavouriteUserIds | src/notifications/prisma-notification.repository.ts:117-137 | the distinct users with a matching favourite |
| Notifications.NotificationsService.GenerateForTransfer | src/notifications/notifications.service.ts:63-101 | the rows after one run, both directions, and the count |
| Broadcast.BroadcastProcessor.FindUsers | src/admin/broadcast/broadcast.processor.ts:44-50 | the page after the cursor |
| Broadcast.BroadcastProcessor.CreateMany | src/admin/broadcast/broadcast.processor.ts:54-62 | every row of a batch is created and counted |
| Broadcast.BroadcastProcessor.Process | src/admin/broadcast/broadcast.processor.ts:26-83 | a completed run reaches every active user in order and counts them; a failed one a prefix of whole batches |
| Broadcast.EachActiveUserOnce | src/admin/broadcast/broadcast.processor.ts:43-68 | each active user is told exactly once by a completed run |
| Broadcast.RestartTellsTwice | src/admin/broadcast/broadcast.processor.ts:31-33 | a restart after a failure tells the users reached before twice |
| Broadcast.NothingIsSkipped | src/admin/broadcast/broadcast.processor.ts:54-62 | a row without a transfer never conflicts |
| TransferAlerts.NewOnesComeLast | src/digests/transfer-alert.service.ts:86-99 | each user's transfers stay in the order they were collected |
| TransferAlerts.IndexIsTheJoin | src/digests/transfer-alert.service.ts:56-99 | the per-user index is the join of favourites and transfers, each transfer once |
| TransferAlerts.BuildIndex | src/digests/transfer-alert.service.ts:57-63 | the two index maps |
| TransferAlerts.JoinFavourites | src/digests/transfer-alert.service.ts:86-99 | the walk over the favourites |
| TransferAlerts.ItemsFor | src/digests/transfer-alert.service.ts:125-142 | the loop with its early exit takes the first five wanted transfers |
| TransferAlerts.WantedAre | src/digests/transfer-alert.service.ts:129-132 | wanted means not switched off for its kind |
| TransferAlerts.ItemsAreWanted | src/digests/transfer-alert.service.ts:121-142 | a user's mail holds up to five collected transfers, rumours unless rumours are off and done ones unless these are off, and fewer than five only when there are no more |
| TransferAlerts.FirstOnesComeFirst | src/digests/transfer-alert.service.ts:125-142 | no wanted transfer is passed over for a later one |
| TransferAlerts.TransferAlertService.Run | src/digests/transfer-alert.service.ts:36-158 | who is mailed what, and the window closed even for mails that failed |
| TransferAlerts.SeenOncePlusRaces | src/digests/transfer-alert.service.ts:37-49 | a transfer is seen once, and once more exactly when created between clock reading and query |
| TransferAlerts.PickedIff | src/digests/transfer-alert.service.ts:40-49 | the query with its limit keeps a transfer if and only if fewer than 500 newer ones match |
| TransferAlerts.DroppedForGoodIff | src/digests/transfer-alert.service.ts:37-49 | a transfer of the covered time is in some window, and is never picked if and only if every window it is in, at most two, holds 500 newer ones |
| Ingestion.OnePostPerSource | src/ingestion/ingestion.service.ts:30-120 | in every run at most one post per source, with an allowed shape |
| Ingestion.RepeatAnswersFirstId | src/ingestion/ingestion.service.ts:31-38 | a repeat answers with the first id and writes nothing while the post exists, whatever its lookups returned |
| Ingestion.ProjectionCarriesOneMessage | src/ingestion/ingest-projection.service.ts:90-152 | for any earlier rumour lookup: a call adds one row or turns the row it found into a transfer, with exactly one message for it, or touches neither; the found row changes if and only if it is still a rumour |
| Ingestion.RumourItemAddsARumour | src/ingestion/ingest-projection.service.ts:90-108 | a new rumour item about a player and two teams appends that open rumour, its post and one message |
| Ingestion.OfficialItemAddsATransfer | src/ingestion/ingest-projection.service.ts:136-152 | an official one that found no open rumour appends the same row as a done transfer |
| Ingestion.TeamOrPlayerItemAddsNews | src/ingestion/ingest-projection.service.ts:154-176 | an item about one team or player appends one news row |
| Ingestion.OtherItemIsOnlyPosted | src/ingestion/ingest-projection.service.ts:60-69 | a breaking or unspecific item is only posted |
| Ingestion.RefusalWritesNothing | src/ingestion/ingestion.service.ts:45-120 | every reply but Created leaves the tables as they were |
| Ingestion.MissingIff | src/ingestion/ingestion.service.ts:48-62 | an item is refused for missing players or teams if and only if it names any that are not there |
| Ingestion.MessagesCountProjections | src/ingestion/ingest-projection.service.ts:178-187 | over a run the messages for a row are the calls that made or confirmed it |
| Ingestion.StaleLookupMatters | src/ingestion/ingest-projection.service.ts:116-150 | a call answers and writes as if it looked only now, except exactly when it goes by another lookup result |
| Ingestion.LooksStayGood | src/ingestion/ingest-projection.service.ts:117-134 | in every run a row that a lookup found is there at the commit, for the same player and teams |
| Ingestion.OneConfirmationPlusLate | src/ingestion/ingest-projection.service.ts:116-134 | in every run a rumour is confirmed by at most one call, plus those whose lookup was late |
| Ingestion.AtomicConfirmsOnce | src/ingestion/ingest-projection.service.ts:116-134 | with lookup and commit back to back it is confirmed at most once |
| Ingestion.OfficialConvertsTheOpenRumour | src/ingestion/ingest-projection.service.ts:116-134 | an official item converts the latest open rumour of its triple and adds no row |
| Ingestion.OfficialsAtOnce | src/ingestion/ingest-projection.service.ts:117-149 | two official items for one triple that both look first: one transfer with two messages if they found a rumour, two rows if not |
| Ingestion.OfficialsInTurn | src/ingestion/ingest-projection.service.ts:117-149 | called in turn the second never goes to the first one's rumour; the outcome differs from the race if and only if a rumour was found |
| Ingestion.FoundRumour | src/transfers/prisma-transfer.repository.ts:370-386 | the lookup finds the latest open rumour, if there is one |
| Ingestion.ReingestAfterDelete | src/ingestion/ingestion.service.ts:107-119 | an item whose post is gone is refused exactly when its source is still taken by the row it would create |
| Ingestion.AcceptedIffStorable | src/ingestion/post-shape.resolver.ts:26-44 | references are accepted if and only if the table's check constraint has a shape for them, and none is lost |
| Ingestion.RefusedIff | src/ingestion/post-shape.resolver.ts:26-44 | refused is what is not about nothing, one team, one player, or a player between two teams |
| Ingestion.IngestionService.IngestPost | src/ingestion/ingestion.service.ts:30-120 | one call with its transaction and its unique-violation path, for any earlier result of the rumour lookup |
| Ingestion.IngestionService.ProjectItem | src/ingestion/ingest-projection.service.ts:54-84 | the projection by target |
| Ingestion.IngestionService.CreateRow | src/ingestion/ingest-projection.service.ts:136-150 | a created transfer and its message |
| Launch.LaunchProcessor.Process | src/waitlist/launch.processor.ts:31-100 | a run completes if and only if no database call of its rounds fails and it does not crash: then everybody is marked, in the rounds the specification says; an error sets Failed, a crash leaves Sending; the count grows by the newly marked less what the last batch loses |
| Launch.LaunchProcessor.SendBatch | src/waitlist/launch.processor.ts:60-76 | exactly the addresses delivered before a crash are marked, and every batch marks somebody or uses up an outcome |
| Launch.LaunchProcessor.SendAll | src/waitlist/launch.processor.ts:45-83 | the body of the try block, with errors of its query and its count update |
| Launch.LaunchProcessor.SendOne | src/waitlist/launch.processor.ts:61-74 | one address: the mails and marks of each outcome |
| Launch.LaunchProcessor.FindBatch | src/waitlist/launch.processor.ts:50-58 | the first hundred unsent subscribers |
| Launch.MarkedIsNeverMailedAgain | src/waitlist/launch.processor.ts:50-69 | after its mark an address is never mailed again |
| Launch.EndsIffNobodyIsStuck | src/waitlist/launch.processor.ts:47-83 | with stuck addresses failing for ever, some number of rounds empties the list if and only if no unsent address is stuck |
| Launch.BatchIsRound | src/waitlist/launch.processor.ts:50-76 | a batch in which exactly the stuck addresses fail takes the unsent list to the next round |
| Launch.LoopIsRounds | src/waitlist/launch.processor.ts:47-83 | while exactly the stuck addresses fail, the loop is through in k rounds if and only if k rounds empty the list |
| Launch.StuckBatchStarvesTheRest | src/waitlist/launch.processor.ts:50-55 | a hundred such addresses at the front starve the rest |
| RefreshTokens.OneLiveTokenPerChain | src/auth/token.service.ts:49-102 | in every interleaving of checks, inserts, links and revocations the links form disjoint lines of one user, with at most one unrevoked token, the last |
| RefreshTokens.LiveTokensAreBalancePlusSurplus | src/auth/token.service.ts:49-102 | in every interleaving a user's unrevoked tokens are what issues and revocations leave, plus the rotations half done, plus one for every link that came too late or never |
| RefreshTokens.FinishKeepsTheCountIff | src/auth/token.service.ts:80-84 | a rotation past its check keeps the user's count if and only if the old token is still unrevoked, otherwise the new token is one too many |
| RefreshTokens.RevokeAllMissesARotation | src/auth/token.service.ts:97-102 | revoking everything leaves exactly the new token of a rotation past its check |
| RefreshTokens.UndisturbedHasNoSurplus | src/auth/token.service.ts:63-86 | with every rotation back to back there is no surplus |
| RefreshTokens.InvRun | src/auth/token.service.ts:49-102 | links go to later tokens of the same user, from revoked ones, one to one, in every interleaving |
| RefreshTokens.RotationIsThreeEvents | src/auth/token.service.ts:63-86 | an undisturbed rotation is its check, insert and link back to back |
| RefreshTokens.ChainsAreLines | src/auth/token.service.ts:80-84 | tokens with one end lie on one line |
| RefreshTokens.RotationKeepsTheCount | src/auth/token.service.ts:63-86 | an undisturbed rotation keeps every user's number of unrevoked tokens |
| RefreshTokens.AcceptedAtMostOnce | src/auth/token.service.ts:67-86 | in every interleaving a token is rotated at most once plus the rotations linked after it was revoked, of which undisturbed runs have none |
| RefreshTokens.NeverAcceptedAgain | src/auth/token.service.ts:70-78 | a revoked token is never accepted again |
| RefreshTokens.ConcurrentRotationsFork | src/auth/token.service.ts:67-84 | of two rotations of one token past their checks the second adds a live token and cuts the first one's token off from the chain |
| RefreshTokens.TokenService.IssueRefreshToken | src/auth/token.service.ts:49-60 | the issued row |
| RefreshTokens.TokenService.RotateRefreshToken | src/auth/token.service.ts:63-86 | the undisturbed rotation: when it is refused, and both rows after it |
| RefreshTokens.TokenService.RevokeRefreshToken | src/auth/token.service.ts:89-94 | the one row revoked, silent for an unknown token |
| RefreshTokens.TokenService.RevokeAllForUser | src/auth/token.service.ts:97-102 | exactly the user's rows revoked |
| RefreshTokens.LogoutEndsTheToken | src/auth/token.service.ts:89-94 | after a logout no time accepts its token, no other row has changed, and the owner's live tokens are one fewer |
| RefreshTokens.LogoutEverywhereEndsAll | src/auth/token.service.ts:97-102 | after a logout everywhere none of the owner's tokens is usable and nobody else's row has changed |
| RefreshTokens.LoggedOutForGood | src/auth/token.service.ts:70-94 | in every run no check after a logout of the token accepts it |
| Votes.CountersAreRowsPlusSlips | src/posts/prisma-post.repository.ts:184-225 | in every interleaving the counters are the rows plus what stale reads slipped |
| Votes.CommitIsExactIffReadIsFresh | src/posts/prisma-post.repository.ts:212-225 | a commit keeps the counters exact if and only if the vote read is still there |
| Votes.SameVoteIsIdle | src/posts/prisma-post.repository.ts:184-195 | a call for the vote already there ends at once, any other goes on |
| Votes.OneAtATimeIsExact | src/posts/prisma-post.repository.ts:164-233 | one call at a time keeps them exact |
| Votes.DoubleClickCountsTwice | src/posts/prisma-post.repository.ts:184-225 | for every post, two calls of one user that both read first count the new vote once too often |
| Votes.PostVotes.Vote | src/posts/prisma-post.repository.ts:164-233 | one call: status, row and exact counters |
| Votes.PercentagesAreShares | src/posts/vote-math.ts:6-14 | the two percentages add up to 100 and stay within half a point |

## Left out

- Redis outages: every fail-open branch of the cache, the served store and the lock is left out; Redis is up.
- Queue internals: a job is waiting, active or failed; backoff delays, priorities and `removeOnFail` counts are replaced by an eviction that may come at any time.
- Handlers for created posts and comments: they are not idempotent, a crash after their write and before the mark repeats the write; only the like handlers are modelled statement by statement.
- Hot score: the recomputation and its fractional power are left out; a post's hot score is a given real number.
- Counter widths: the SmallInt limits of likeCount and other columns are not modelled.
- Throttle.RateBound: does not cover the HTTP layer's own retries (up to three), which do not pass the throttle again.
- Throttle.QuotaStopIsForever: covers calls made one after the other, as the sync makes them; `StopLastsUntilALateAnswer` covers the others.
- Outbox.HalfTtlIsExact: the bound is on the time from read to final update, since the source has no timeout of its own.
- CacheHistory.HitIsStaleIff: assumes TTLs at most 60 s apart and no store of a tag between its SMEMBERS and DEL; `WideSpreadServesStale` and `StoreInWindowIsLost` show why.
- CacheNamespace.EqualKeysIff: flat parameters only, without an ampersand in names or values and without an equals sign or colon in names; characters are ordered by code. `AmpersandCollidesIff` is about one field against any number of plain ones.
- FootballResume.ChainSettlesIffClientsAreFresh: an index request that the client does not refuse succeeds; another failure there is fatal and loses the remainder too.
- FootballResume.ResumedRunMovesATeam: the stopped, the resumed and the whole run make no error, and they are shown the same league index and team lists.
- FootballSync.RunSettlesOrKeeps: loading the positions and the sweep's own statement do not fail; a failure there would be fatal like one at the index.
- FootballTables.FreedIffNotReceived: asks for a run without a quota stop, which sweeps nothing; `FreeExactlyWhenUnlisted` and `FailedFetchFreesASquad` leave the external id -1 apart.
- FootballPlayers.PlayersEndOnTheirLastTeam: asks for a run without a quota stop; names, positions, photos and statistics of a player are left out.
- FootballSyncService.FootballDataSync.FetchPages: a team's replies have a last page, beyond which no reply claims more pages.
- Sync counters, run records, image mirroring, player statistics and the transfer rows themselves: only errors, owners and free agents are kept.
- FeedPipeline.SourceOrderIsIrrelevant: stops before author diversity, where the stable sort lets the input order decide between equal scores.
- FeedService.EachPostServedOnce: the sources, blocks and hot scores stay as they are during the session and the served set does not expire in it.
- Keyword lower-casing: a post's content is its lower-cased text; Unicode case folding is not modelled.
- CommentTree.ReachableIsRanked: comments of a listing may be any distinct rows of the table; owners, likes and dates are carried along, not computed.
- Notifications.RunsAreOneRun: favourites, preferences and the rumour flag stay the same; titles and bodies are left out.
- Broadcast.BroadcastProcessor.Process: the active users stay the same while the loop runs.
- TransferAlerts.DroppedForGoodIff: creation times are distinct and transfers are not deleted between runs.
- Ingestion.ProjectionCarriesOneMessage: fees, dates, titles, slugs, the audit log and the cached system user are left out; a transaction takes effect at its commit.
- Launch.LaunchProcessor.Process: the campaign exists, and the update in the catch that sets Failed does not fail itself.
- Dashboard sums, team season totals, weekly digest and currency conversion: plain folds and sorts that would add easy members.
- Controllers, guards, validation, mail templates, storage, search SQL, JWT and password hashing.

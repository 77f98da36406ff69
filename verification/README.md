# Convo's vote path, its recovery, its rate limiter and its detail cache

This project models how convo carries a vote from Redis through RabbitMQ to MySQL, how it rebuilds Redis from MySQL, and two smaller mechanisms beside that path, and proves what the design claims of them. `dafny verify dfyconfig.toml` checks all of it.

**The pipeline.** `vote.lua` changes direction, score, version and outbox together (`VoteScript.dfy`). The relay copies outbox entries to RabbitMQ and deletes an entry only after a broker confirm (`Relay.dfy`, `Publisher.dfy`). The consumer commits events to MySQL with an id record and a version guard, and uses a retry queue and a dead-letter queue when it fails (`Consumer.dfy`, `Delivery.dfy`, `VoteDatabase.dfy`). `Pipeline.dfy` is one state machine over all four stores. Its steps cover votes, relay reads and claims, publishes and commits that took effect without the caller knowing, duplicate and reordered deliveries, requeues, retries, dead-lettering, purging of consumed records, loss of Redis and rebuild. `PipelineInvariant.dfy`, `PipelineRecovery.dfy` and `PipelineSteps.dfy` prove that every step keeps one invariant; `PipelineTheorems.dfy` states what follows for every reachable state, and `PipelineExamples.dfy` constructs three reachable states in which a property fails. The methods of the other files are proved to be runs of this machine: votes (`VotingIsStep`), the relay (`PublishVoteMessages`, `RelayVoteMessages`, `ClaimMovesOn`), the consumer (`HandlingIsRun`), the creation of a post with its retries (`PostCreation.dfy`), startup and rebuild (`StartupIsStep`, `RebuildingIsStep`, and the maintenance command in `Maintenance.dfy`). `VoteCounts.dfy` is the count shown with a post.

**Recovery.** `Rebuild.dfy` holds the startup check and the offline rebuild as imperative code over a Redis connection whose every command can be lost or take effect unreported; `Recovery.dfy` says what a rebuilt Redis must contain.

**Rate limiter and detail cache.** `RateLimiter.dfy` proves the sorted-set log an exact sliding window. `PostCache.dfy` is a timed interleaving of readers, writers and delayed deletes.

How Redis fails: each connection carries a list of fates for its next commands (`Done`, `Lost`, `Unreported`). A crash is a run whose remaining commands are all lost, so a method's failure clauses describe every prefix of it.

## Assumptions

- Event ids are fresh and distinct; the vote script and the MySQL transaction are each atomic.
- The broker stores a routed message before acking it, and sends `basic.return` for an unroutable mandatory message before the confirm (the confirm extension of RabbitMQ). The expiry of a message in the retry queue is one atomic move.
- Redis is lost only at a drained point: stream, main queue, unacknowledged deliveries, retry queue and dead-letter queue were empty before the loss. The code checks the stream only (`dao/redis/recovery.go:63-70`), and `OutboxCheckMissesQueuedVote` is a reachable state in which that misses a queued vote; `RebuildRestoresPairIffStored`, `NextVoteReusesSlotIffBehind` and `UndrainedRebuildConflicts` say exactly what happens then.
- A loss of Redis, even one of vote keys only, is followed by a rebuild before the system serves again. The startup check does not enforce that: it reads the index alone (`StartupSeesIndexOnly`, `LostVotesGoUnnoticed`).
- Post ids are fresh and positive, and a row's `create_time` is the database's current time, after 1970.
- Rate-limit timestamps do not go back per key, members are distinct, and Redis expires a key by the same clock that stamps the requests.
- Ids, times and scores are mathematical integers in the stores; the 64-bit, 32-bit and 8-bit conversions that the code performs on text and headers are written out.

## Scores

A score is meant to be the post's time plus 432 per net vote. `CreatePost` does not keep that in every run. It retries after an ambiguous reply (`logic/post.go:37-51`), so the first attempt may have indexed the post unreported, a vote may be counted before the next attempt, and that attempt sets the score back to the time. The machine contains these runs: nothing guards the step that indexes a post, and the ghost field `baseline` remembers each post's net vote when it was last indexed.

- `PipelineExamples.RetriedCreationErasesVote` is such a run, and `RetryErasesVote` is its general form.
- `ScoreIsNetVote` is exact in every run: score minus time is 432 times net vote minus baseline, so the score is right exactly when the baseline is zero.
- `CleanRunsKeepScores`: in the runs that index posts only while their net vote is zero, every score is right.
- `AttemptIsStep`, `CreatePost` and `CreationIsRun` state creation per attempt, with other clients between the attempts: each attempt that takes effect is a step, and leaves the score right exactly when the net vote is zero at that moment.

## Where code and documentation differ

- `dao/redis/ratelimit.lua:15` describes the window as closed, but the pruning removes the boundary: the window is half-open. `ClosedWindowsFitIff` says for which logs the closed windows hold no more than the limit, `RulesPartIff` on which requests the two rules disagree, and `ClosedWindowExceedsLimit` that they disagree for every window length.
- `logic/post.go:53-55` and the design (`docs/PROJECT_REFACTOR_DESIGN.md:147`) count on the offline rebuild as the repair. But nothing on the way into MySQL checks that a community id is positive (`models/params.go:23` only excludes 0, `dao/mysql/post.go:12-14` inserts any), while the rebuild rejects a page with any other (`dao/redis/recovery.go:140`), after it has cleared Redis. So a drained system can be rebuilt exactly if every active post has a positive community id (`SnapshotsValidIff`, `RebuildCommand.Run`); one other post is enough for good (`BadCommunityStays`), and `NegativeCommunityBlocksRebuild` is a reachable state that has one.
- `worker/vote_consumer.go:73` stores the retry count as a 32-bit number, so a configured limit of 2^31 or more is never reached (`RetriesEndIffLimitFits`); the limit itself is only checked to be non-negative (`settings/settings.go:150`).
- The design (`docs/PROJECT_REFACTOR_DESIGN.md:230`) expects a client that repeats a vote after a lost reply to be told of success. That holds while the voting window is open; afterwards the repeat of a vote that was applied is answered as too late (`RepeatedVoteIsNoChange`).
- Lua's `tostring` prints 14 significant digits, so a version of 10^14 or more would make an outbox entry unreadable (`OutboxRoundTrip`).

## Model

| member | source | states |
|---|---|---|
| `PipelineTheorems.Convergence` | docs/PROJECT_REFACTOR_DESIGN.md:145 | in every reachable state, a pair whose latest event has left stream and queues has Redis's version and direction in MySQL, whatever happened to older events |
| `PipelineTheorems.UpVotesAgree` | dao/mysql/vote.go:100-107 | once a post's latest events have arrived, the users Redis counts as votes up are the users whose MySQL rows are votes up |
| `VoteCounts.GetPostVoteCount` | dao/redis/post_cache.go:39-52 | which guard answers when: an unready store or a post without index is an error and never a count; otherwise the number of votes up |
| `VoteCounts.VoteNum` | logic/post.go:91-101 | once a post's latest events have arrived, the count shown is the same whichever store answers, and Redis failing leads to MySQL |
| `PipelineTheorems.NothingIsLost` | worker/vote_relay.go:68-91 | in every reachable state each emitted event is in the stream, in a live message, or consumed with the row at its version or beyond; an empty stream means every event was confirmed published |
| `PipelineTheorems.EmittedStays` | dao/redis/outbox.go:102-109 | no later step, loss and rebuild included, takes an emitted event back out of the log that conservation speaks about |
| `PipelineTheorems.OutboxLog` | dao/redis/vote.lua:37-60 | the events of a pair have versions 1..n with n the stored version, each changes the direction, the last carries the current direction |
| `PipelineTheorems.EventsAreUnique` | dao/redis/vote.lua:50-58 | two emitted events with equal user, post and version, or with equal id, are the same event, also across rebuilds |
| `PipelineTheorems.OnlyExhaustionDeadLetters` | worker/vote_consumer.go:37-97 | no message in any queue is invalid or conflicts with a stored row; a delivery is dead-lettered for exhausted retries only |
| `PipelineTheorems.RetriesStayWithinLimit` | worker/vote_consumer.go:68-73 | in every reachable state the retry header of every message is between 0 and the limit |
| `PipelineTheorems.CarriedIsDecoded` | worker/vote_consumer.go:38-46 | every message with the body of an emitted event decodes to that event |
| `PipelineTheorems.LogDecidesRedis` | dao/redis/recovery.go:124-170 | two reachable serving states with the same emitted events have the same direction maps and version hashes, whatever losses and rebuilds lie between them, and the same score minus time exactly when their baselines agree |
| `PipelineTheorems.ScoreIsNetVote` | dao/redis/vote.lua:43-49 | in every run score minus time is 432 times the sum of current directions minus the baseline, hence right exactly when the baseline is zero; stored directions are -1 or 1 |
| `PipelineTheorems.CleanRunsKeepScores` | dao/redis/vote.lua:43-49 | in every run that indexes posts only while their net vote is zero, every score is the time plus 432 per net vote |
| `PipelineTheorems.ReindexHarmlessIffNoNetVote` | logic/post.go:37-51 | indexing a post again leaves its score right exactly when its net vote is zero, and a post not yet indexed has none |
| `PipelineTheorems.RetryErasesVote` | logic/post.go:37-51 | an unreported first attempt, any accepted vote and a second attempt leave the score wrong, from every reachable state without the post |
| `PipelineExamples.RetriedCreationErasesVote` | logic/post.go:37-51 | the failing run itself: a reachable state in which a created post's score does not say its net vote |
| `PipelineTheorems.KeysKeepTheirTypes` | dao/redis/vote.lua:14-20 | the script and the index transaction never meet a key of the wrong type in a reachable serving state |
| `PipelineTheorems.RebuildRestoresRedis` | logic/recovery.go:52-99 | a rebuild at a drained point, from any leftover keys, restores every direction map and version hash, indexes exactly the active posts, and makes every score right: the one before the loss exactly when its baseline was zero |
| `PipelineTheorems.RebuildRestoresPairIffStored` | logic/recovery.go:52-54 | drained or not, a rebuild restores a pair's version and direction exactly when MySQL held the pair's current version |
| `PipelineTheorems.NextVoteReusesSlotIffBehind` | logic/recovery.go:52-54 | drained or not, the next vote after a rebuild reuses the version of an emitted event exactly when MySQL was behind Redis on that user and post |
| `PipelineTheorems.UndrainedRebuildConflicts` | logic/recovery.go:52-54 | if it does, and the old event is committed, the two conflict exactly when their directions differ |
| `PipelineExamples.OutboxCheckMissesQueuedVote` | dao/redis/recovery.go:63-70 | a reachable state with an empty outbox and a queued vote, its rebuild, and a next vote that the script accepts and that conflicts |
| `PipelineTheorems.NextVoteIsStored` | dao/redis/vote.lua:50 | after a rebuild as at any time, the next accepted vote has the next version and MySQL stores it: not stale, not duplicate, not conflicting |
| `PipelineTheorems.StartupMeansComplete` | logic/recovery.go:21-50 | the indexed posts are always among the active ones, so an accepted startup means the index is exactly the active posts |
| `PipelineTheorems.SnapshotsValidIff` | dao/redis/recovery.go:126-145 | in a reachable state the rebuild accepts every snapshot of MySQL exactly if every active post has a positive community id |
| `PipelineTheorems.BadCommunityStays` | dao/mysql/post.go:12-14 | once an active post has no positive community id, the snapshots of no later state are accepted |
| `PipelineExamples.NegativeCommunityBlocksRebuild` | models/params.go:23 | a reachable, drained, serving state with an indexed post whose snapshot the rebuild rejects |
| `PipelineTheorems.FlushIsNoticed` | logic/recovery.go:35-48 | a flushed Redis passes the startup check exactly when there are no active posts, and then no vote was ever emitted |
| `PipelineTheorems.StartupSeesIndexOnly` | logic/recovery.go:21-50 | whatever a loss took besides the index, startup accepts the rest as it accepted the whole, and exactly the pairs still as they were agree with the log |
| `PipelineTheorems.LostVotesGoUnnoticed` | logic/recovery.go:35-48 | a loss of both vote keys of a post is accepted at startup; it leaves a user right exactly if the user never voted on it, and makes the next vote reuse an emitted version exactly if the user did |
| `PipelineTheorems.VotingIsStep` | dao/redis/vote.go:41-84 | whatever a vote call did to Redis is a step of the pipeline or no step |
| `PipelineTheorems.RebuildingIsStep` | logic/recovery.go:55-99 | a rebuild, completed or cut off anywhere, is a step of the pipeline |
| `PipelineTheorems.StartupIsStep` | logic/recovery.go:35-42 | setting the ready marker at startup is a step of the pipeline |
| `PipelineTheorems.DrainedRebuildIsARun` | docs/PROJECT_REFACTOR_DESIGN.md:147 | loss of a drained Redis followed by a completed rebuild is a run of the pipeline |
| `PipelineSteps.StepKeepsInv` | worker/vote_consumer.go:37-97 | each of the nineteen kinds of step keeps the invariant over log, tables, queues, stream and Redis |
| `PipelineSteps.ReachableInv` | docs/PROJECT_REFACTOR_DESIGN.md:41 | the invariant holds after every run from an empty deployment |
| `PipelineInvariant.CastKeepsRedis` | dao/redis/vote.lua:43-58 | an applied vote keeps direction and version of every pair in step with the log, and the key types and indexes as they are |
| `PipelineInvariant.CastKeepsBalance` | dao/redis/vote.lua:43-49 | an applied vote moves score and net vote together, whatever the two differed by before |
| `PipelineInvariant.IndexKeepsBalance` | dao/redis/vote.go:31-39 | indexing makes the net vote of that moment the baseline of the post and leaves the other posts' scores alone |
| `PipelineInvariant.SettleKeepsConservation` | worker/vote_consumer.go:74-82 | giving up a delivery loses nothing when its event is consumed or a copy is stored |
| `PipelineInvariant.PersistKeepsDatabase` | dao/mysql/vote.go:46-60 | committing an event keeps every row the newest consumed event of its pair, purged records included |
| `PipelineInvariant.OtherWritesKeepVotes` | dao/redis/keys.go:6-18 | sessions, caches, rate limits and the marker do not disturb the vote state |
| `PipelineRecovery.DrainedIsConverged` | docs/PROJECT_REFACTOR_DESIGN.md:147 | with stream and queues empty, MySQL holds exactly the latest event of every pair |
| `PipelineRecovery.RebuildKeepsRedis` | dao/redis/recovery.go:139-167 | Redis rebuilt from converged tables agrees with the log on every pair and post |
| `PipelineRecovery.RebuildKeepsBalance` | dao/redis/recovery.go:147-149 | after a rebuild every indexed post has baseline zero, whatever was lost before |
| `PipelineRecovery.RestoredBalance` | dao/redis/recovery.go:147-149 | the score recomputed from final directions equals the one accumulated from per-vote deltas |
| `VoteScript.RunVoteScript` | dao/redis/vote.lua:1-60 | which code is answered exactly when, what each code returns, that only code 0 changes Redis, and the whole new state for it |
| `VoteScript.WriteVote` | dao/redis/vote.lua:43-58 | the four writes in order apply the event: score, direction, version and outbox, and nothing else |
| `VoteScript.VoteForPost` | dao/redis/vote.go:41-84 | which error answers which refusal; a lost reply leaves the vote either wholly applied or not at all |
| `VoteScript.RepeatedVoteIsNoChange` | dao/redis/vote.lua:33-41 | repeating a vote whose reply was lost is answered with no change and the version of the first while the window is open, and as too late afterwards; it is never applied twice |
| `VoteScript.IndexPost` | dao/redis/vote.go:31-39 | indexing a post writes time, score and community together or nothing, and a key of another type is an error |
| `OutboxCodec.OutboxRoundTrip` | dao/redis/outbox.go:111-170 | an event the script emits is read back exactly and accepted if its version is below 10^14, and cannot be read at all from there on |
| `OutboxCodec.ValidateWire` | worker/vote_consumer.go:99-125 | the consumer accepts what the relay publishes for a well-formed event and obtains that event |
| `OutboxCodec.ParseFormat` | dao/redis/outbox.go:154-165 | parsing a formatted integer gives it back within the bit width and is a range error outside |
| `OutboxCodec.LuaToStringParses` | dao/redis/vote.lua:56-57 | Lua's number text equals the decimal text below 10^14 and is a syntax error to Go from there on |
| `VoteBroker.Client.Publish` | mq/rabbitmq.go:141-201 | success means this message was acked and not returned, hence stored; otherwise it is stored at most once; the channel kept for reuse has nothing outstanding |
| `VoteBroker.Client.AwaitConfirm` | mq/rabbitmq.go:175-200 | for every interleaving of notices, success needs this message's own ack and no return |
| `VoteBroker.Client.OpenPublisher` | mq/rabbitmq.go:54-90 | an open channel on a live connection is kept unchanged, anything else is replaced by a fresh one with nothing outstanding |
| `VoteRelay.ReadVoteOutbox` | dao/redis/outbox.go:28-53 | which entries are handed out, in order, decoded; one unreadable entry fails the batch although the group has moved |
| `VoteRelay.ReadAdvances` | dao/redis/outbox.go:28-36 | reading new entries skips none: whatever is passed over becomes pending |
| `VoteRelay.ClaimStaleVoteOutbox` | dao/redis/outbox.go:57-100 | exactly the idle ones of the first pending entries change owner and are returned; without faults the claim succeeds exactly when all of them are readable |
| `VoteRelay.AckVoteOutbox` | dao/redis/outbox.go:102-109 | acknowledging and deleting happen together or not at all |
| `VoteRelay.EnsureVoteOutboxGroup` | dao/redis/outbox.go:20-26 | an existing group is kept, a missing one starts before the first entry |
| `VoteRelay.PublishOne` | worker/vote_relay.go:68-89 | an entry leaves the stream only after its message was confirmed |
| `VoteRelay.PublishVoteMessages` | worker/vote_relay.go:68-91 | the entries removed are the first n of the batch in order; the effect is a run of the pipeline; without faults it is the whole batch |
| `VoteRelay.RelayVoteMessages` | worker/vote_relay.go:49-66 | every outcome is a run of the pipeline; without faults a restarted consumer works off its whole backlog |
| `VoteRelay.ClaimMovesOn` | dao/redis/outbox.go:81-87 | claiming entries and creating the group are steps of the pipeline |
| `VoteDelivery.MessageCarriesEvent` | worker/vote_consumer.go:38-46 | every copy of a published body decodes to the event it was published for |
| `VoteDelivery.RetriesAreBounded` | worker/vote_consumer.go:67-82 | a relayed message counts its failures and is dead-lettered by failure limit + 1, no sooner and no later |
| `VoteDelivery.RetriesEndIffLimitFits` | worker/vote_consumer.go:68-73 | retrying ends at all exactly when the limit is below 2^31 |
| `VoteDelivery.CopyCountsUp` | worker/vote_consumer.go:127-149 | a copy counts one more than its original, whatever the header, exactly when neither the addition nor the 32-bit header wraps |
| `VoteConsumer.HandleVoteDelivery` | worker/vote_consumer.go:37-65 | a delivery is acknowledged only once its event is committed or a confirmed copy exists; which outcome is allowed when; without a database error it is consumed exactly when valid and not conflicting |
| `VoteConsumer.RetryVoteDelivery` | worker/vote_consumer.go:67-82 | the copy goes to the retry queue with the next count, or to the dead-letter queue when the limit is passed |
| `VoteConsumer.MoveToDeadLetter` | worker/vote_consumer.go:84-97 | the copy keeps its count; the original is requeued unless the copy was confirmed |
| `VoteConsumer.HandlingIsRun` | worker/vote_consumer.go:37-97 | every outcome of a delivery is a run of the pipeline |
| `VoteDatabase.Database.Upsert` | dao/mysql/vote.go:46-54 | the left-to-right assignments with the version last replace the row exactly if the event is newer, and touch no row otherwise |
| `VoteDatabase.Database.PersistVoteEvent` | dao/mysql/vote.go:23-98 | all or nothing under every failure, which status means what, and that a conflict rolls back |
| `VoteDatabase.DeliveryOrderIrrelevant` | dao/mysql/vote.go:30-97 | any two delivery sequences with the same events, in any order and with any duplicates, end in the same tables, which hold the newest event of every pair |
| `VoteDatabase.RowIsNewest` | dao/mysql/vote.go:50-54 | a row is an event's row exactly when no consumed event of the pair is newer |
| `VoteDatabase.VersionsNeverDecrease` | dao/mysql/vote.go:54 | no sequence of deliveries takes a stored version back |
| `VoteDatabase.NetVoteIsSum` | dao/mysql/recovery.go:24-33 | the aggregate over rows in key order is the sum of the post's directions |
| `VoteDatabase.PageIsGapless` | dao/mysql/recovery.go:30-33 | a keyset page leaves out no active post below its last one |
| `RecoveryTarget.RebuiltIsUnique` | dao/redis/recovery.go:60-92 | whatever was left in Redis and whatever the batch size, a completed rebuild has one outcome |
| `RecoveryTarget.RestorePost` | dao/redis/recovery.go:139-167 | replaying one more snapshot extends what is restored by exactly that post |
| `RecoveryTarget.CollectedRows` | dao/redis/recovery.go:154-166 | replayed rows give the nonzero directions and all versions, tombstones included |
| `RedisRebuild.DeleteKeysMatching` | dao/redis/recovery.go:94-122 | the scan and delete loops terminate, remove every matching key and no other |
| `RedisRebuild.PrepareVoteStateRebuild` | dao/redis/recovery.go:63-92 | refuses a non-empty outbox before touching anything; otherwise the marker is set before the first delete and only derived keys go |
| `RedisRebuild.RestoreVoteStateBatch` | dao/redis/recovery.go:126-170 | an invalid snapshot writes nothing; an interrupted pipeline touches derived keys only |
| `RedisRebuild.PageIsValid` | dao/redis/recovery.go:126-142 | a page passes the validation exactly if every snapshot of its posts and of their votes is acceptable |
| `RedisRebuild.CountIndexedPosts` | dao/redis/recovery.go:45-58 | the common size of both indexes, or an error when they differ |
| `RedisRebuild.RestoreAllPages` | logic/recovery.go:63-87 | for every batch size the keyset loop terminates and restores each active post and each of its rows exactly once; it gets to the end only if every snapshot is acceptable, and without faults exactly then |
| `RedisRebuild.RebuildRedisFromMySQL` | logic/recovery.go:55-99 | success means acceptable snapshots, the target state and an exact report, and without faults comes exactly if the outbox is empty and every snapshot acceptable; a bad snapshot leaves Redis marked as rebuilding; a failure or crash anywhere leaves it untouched, marked, or complete |
| `RebuildCommand.Run` | cmd/rebuild-redis/main.go:21-50 | whatever happens, the command moves the system along a run; confirmed and without faults it brings a system that lost its Redis at a drained point back to serving exactly if every active post has a positive community id, and else stops with Redis marked as rebuilding |
| `RedisRebuild.EnsureRedisStateReady` | logic/recovery.go:21-50 | when startup is accepted, and without faults exactly then; a rebuilding marker is always refused, and only the marker is ever written |
| `RedisRebuild.CountsDecideIndex` | logic/recovery.go:21-50 | for an index among the active posts, equal counts and equal sets are the same thing |
| `VoteRateLimiter.Limiter.Admit` | dao/redis/ratelimit.lua:9-37 | a request is allowed exactly if fewer than the limit were allowed in (now - window, now]; count and retry hint are exact; key expiry is invisible |
| `VoteRateLimiter.RunBound` | dao/redis/ratelimit.lua:15-37 | over a whole run no half-open interval of the window's length holds more than the limit |
| `VoteRateLimiter.RetryIsExact` | dao/redis/ratelimit.lua:22-32 | the hint lies in (0, window]; every earlier retry is rejected and the one at that instant is allowed |
| `VoteRateLimiter.HeaderSuffices` | middlewares/ratelimit.go:47-48 | a client that waits for the seconds in the header is admitted |
| `VoteRateLimiter.ClosedWindowsFitIff` | dao/redis/ratelimit.lua:15-16 | the closed windows of the comment hold no more than the limit exactly for the logs in which no grant comes one window after the grant `limit` places before it |
| `VoteRateLimiter.RulesPartIff` | dao/redis/ratelimit.lua:15-16 | the closed and the half-open rule disagree on a request exactly when the grants made one window ago make the difference |
| `VoteRateLimiter.ClosedWindowExceedsLimit` | dao/redis/ratelimit.lua:15-16 | for every window length there is a request that the script admits and the closed rule refuses |
| `PostDetailCache.NeverOlder` | logic/post.go:124-132 | once the delayed delete of an update took effect, no reader ever sees an older version again |
| `PostDetailCache.SettledCacheIsRow` | logic/post.go:124-132 | once the latest update is cleared, the cache is empty or equal to the row |
| `PostDetailCache.StalenessIsBounded` | dao/redis/post_cache.go:27-33 | deletes or not, a version is visible for at most reader gap plus lifetime after its replacement |
| `PostDetailCache.SafeIffReadersAreFaster` | logic/post.go:127-132 | the double delete is safe in every run exactly when readers are faster than the delay |
| `PostDetailCache.Post.GetPostById` | logic/post.go:59-90 | a hit returns the cached version, a miss the row and caches it, a failing cache falls back to the row; a run of the timed machine |
| `PostDetailCache.Post.UpdatePost` | logic/post.go:104-134 | a missing post and a foreign author get their errors; an update without effect leaves the cache alone; otherwise commit, delete and a timer due after the delay |
| `PostDetailCache.Post.DeleteAgain` | logic/post.go:128-132 | the timer's delete empties the cache and clears the update |
| `PostCreation.CreatePost` | logic/post.go:26-56 | a post reaches Redis only once its row is in MySQL; a failed initialization keeps the row; with every error and every vote between the attempts it is a run, and the score is right in the end exactly when the net vote was zero at the last attempt that took effect |
| `PostCreation.IndexWithRetries` | logic/post.go:37-51 | at most three attempts with other clients' votes in the pauses: a run whose baseline is the net vote at the last attempt that took effect |
| `PostCreation.AttemptIsStep` | logic/post.go:38-50 | an attempt is an enabled step or no step, whoever voted before it |
| `PostCreation.CreationIsRun` | logic/post.go:26-56 | creating a post, whatever else the system does between its attempts, is a run of the pipeline; each attempt that takes effect leaves the score right exactly when the net vote is zero then |

## Left out

- NothingIsLost: speaks of the safety of every state, not of time to delivery; stale claiming inspects only the first 32 pending entries, so relay fairness is not claimed.
- VotingIsStep: the marker check in front of a vote (logic/vote.go:23) is not atomic with the script; the model lets votes happen while the system serves and none from a loss to the end of a rebuild, as the operating procedure demands.
- RelayVoteMessages: the endless loop of RunVoteRelay, its pauses and cancellation are a list of rounds that ends; RunVoteConsumer is the redelivery steps of the pipeline around HandleVoteDelivery.
- HandleVoteDelivery: a JSON body is the event it encodes or garbage; byte-level encoding is not modelled.
- PersistVoteEvent: the updated_at column is not modelled, and event ids are compared as exact strings although the column's collation ignores case.
- ScoreIsNetVote: Redis scores are doubles; integers beyond 2^53 are not modelled.
- OutboxRoundTrip: an overflow of the version counter at 2^63 is not modelled.
- Admit: the reply type checks and the random member of dao/redis/ratelimit.go are inputs; times are integers in milliseconds, and the conversion of the header through floating point is the integer quotient.
- Post: readers and writers interleave in the timed machine; the class runs each method uninterrupted. The vote count added at the end of GetPostById is `VoteNum`.
- AwaitConfirm: mutual exclusion by the client's mutex is implicit in methods running one at a time.
- List assembly and the community listing cache (logic/post.go:167-239, dao/redis/post.go:61-91): matched by index and up to a minute stale, nothing general to prove.
- Sessions, login, Snowflake ids, HTTP handlers, configuration loading and logging: plumbing or easy members.

# Verified model of the URL shortener

This project models the parts of the URL shortener that keep state or do arithmetic over long runs, and
proves what they guarantee: the cache in front of the URL database, the analytics queue and its workers,
the consistent hash ring, the token bucket of the rate limiter, short-code generation, the retrying create
and the bulk insert. `dafny verify dfyconfig.toml` checks everything.

| file | component |
|---|---|
| `CacheProtocol`, `CacheStaleness`, `CacheRaces`, `CacheCoherence`, `CacheAnswers`, `CacheRaceExample`, `CacheRefinement` | the cache-aside protocol as a step system: any number of concurrent Get, Create and Delete calls, split at each database and cache call |
| `UrlModel`, `Repository`, `UrlService` | the plain and the cached repository and the service above them, one call at a time, with a fault for every cache and database call |
| `AnalyticsQueue`, `NoLoss`, `ExactlyOnce`, `Consumer`, `SelectLoop` | broker, channels, workers and table as a step system; the consumer's flush, select loop and dialling backoff |
| `HashRing`, `RingTheorems`, `Ordering` | the ring object with binary search, and routing over whole histories of Add and Remove |
| `TokenBucket` | the rate limiter's script and its runs |
| `ShortCode`, `BulkInsert`, `Decimal` | Base62 codes, SQL text that is read back, decimal numbers |
| `Options`, `Arithmetic` | shared helpers |

## How things are modelled

- SHA-256 and `net/url` are function parameters (`Layout.hash`, `Generator.hash`, `Generator.canonicalize`);
  every result holds for every such function.
- A cache call may miss, fail, be dropped, or land after its caller gave up; the circuit breaker and
  timeouts are among the reasons. In the step system a late write may even land repeatedly. The Redis node a
  call goes to is arbitrary at each call, which covers every ring and every change of the ring.
- Singleflight is a table with one leader per code; finishing a flight answers its leader and all waiters.
- The broker follows the `multiple` rule of basic.ack in section 1.8.3.13 of the AMQP 0-9-1 reference. Acks
  and nacks reach it in order on the channel's wire; a lost connection loses a suffix of the wire and
  requeues what is outstanding. An ack of a tag that has already been nacked either settles everything below
  it or is a channel error; both are covered. Assumed: no broker delivery limit, atomic dead-lettering.
- Token counts are exact in units of 1/60000 token, because the stored count is always a whole number. A
  bucket key may be lost in any call made at least 120000 ms after the previous one, and is never lost
  sooner: Redis does not evict it and its clock agrees with the caller's.
- Times are integers (milliseconds where a unit matters); `Faults`, `Outcome`, `InsertResult`, `Attempt` and
  `Dial` values stand for what the network, the database and the clock do.

## Where the code and its description differ

- A Get that starts after a Delete has returned can be told the deleted URL, without any fault, in three ways: a
  reader caches the old row after the Delete (`DeletedUrlIsServed`, for as long as the time to live); the newcomer
  joins a flight that has filled the cache but not ended (`DeletedUrlIsShared`); or it joins a flight whose re-check
  hit the old entry before the Delete invalidated it (`OldEntryIsShared`). A fresh URL can be reported missing for
  a minute the same way (`FreshUrlIsMissing`).
- The exact conditions: for answers, `ServesStaleIff` in every state, `WriteServesStaleIff` for one write and
  `UnsafeStepIff` and `ClearRunIff` over whole runs; for the cache entry alone, `StaleIffIncoherent`,
  `OverlapGoesStaleIff` and `RaceIff`. A write is harmless exactly when the row is not cached, nobody is on the way
  to the cache with a value of it and no flight carries an answer for it. Over a run, what is said once all
  writers are done stays true exactly as long as every change of the row finds nobody on the way to the cache and
  no flight with an answer, every writer's cache call repairs the entry, and no re-check picks up an entry that is
  still to be repaired.
- The rate limiter keeps its window bound across key expiry only when burst <= 2*rate (`RateBoundedIff`).
- A denial resets the refill clock and discards the credit earned so far, so a caller that waits exactly the
  advertised `retry_after_ms` may be denied again (`RetryAfterIff`); only a rate of at least 60000 avoids that for
  every caller (`AdvertisedWaitIff`). A caller that polls faster than the rate is served the tokens stored when it
  starts and nothing more (`SteadyCallerAllOrStored`).
- `Remove` computes a slice capacity that is negative when fewer than `replicas` positions are left; with
  colliding hashes that can happen to a current member (`TwinNodesPanic`), without collisions it cannot
  (`RemovalNeverPanics`).
- `dialWithRetry` documents a cap of 30 s; its last doubling takes the pause to 32 s (`DialWithRetry`).

## Model

| member | source | states |
|---|---|---|
| CacheStaleness.BoundedStaleness | services/gateway/internal/repository/cached_url_repository.go:196-457 | in every interleaving, a live cache entry (URL or sentinel) equals what the database held for that code at an earlier state of the run, less than its time to live plus the largest write delay ago |
| CacheStaleness.BoundedAnswers | services/gateway/internal/repository/cached_url_repository.go:196-247 | when a Get returns, its answer was the database content at most the time to live plus the write delay ago, plus, for an answer shared through a flight, the time the flight held on to it |
| CacheStaleness.StepOk | services/gateway/internal/repository/cached_url_repository.go:348-457 | each single step of any request, of the cache nodes or of an outside writer keeps the history invariant behind both bounds |
| CacheRaces.StampedeBound | services/gateway/internal/repository/cached_url_repository.go:344-413 | any number of concurrent readers (and creators) of one code read the database for it at most once while its cache node works and keeps the entry |
| CacheRaces.MissMeansUnread | services/gateway/internal/repository/cached_url_repository.go:351-364 | a leader whose re-check misses is the first to read the code |
| CacheRaces.LeaderStep | services/gateway/internal/repository/cached_url_repository.go:350-377 | flights stay serial per code under every step |
| CacheCoherence.RaceFreeCoherence | services/gateway/internal/repository/cached_url_repository.go:249-337 | if every change of the row finds nobody on the way to the cache with a value of it, and every writer's cache call lands on the code's node (or the entry is right already, or another writer follows), then whenever no writer is between its database and cache call the node tells a Get the row or nothing; lost, delayed and late reader writes, expiry, eviction and corruption are allowed |
| CacheCoherence.CoherentStepIff | services/gateway/internal/repository/cached_url_repository.go:249-413 | from a coherent state, each possible step keeps coherence if and only if it meets that condition |
| CacheCoherence.StaleIffIncoherent | services/gateway/internal/repository/cached_url_repository.go:348-413 | in every state whatsoever: without further fault or write, all writers can finish and leave a live entry that contradicts the row, if and only if coherence is broken |
| CacheCoherence.RaceIff | services/gateway/internal/repository/cached_url_repository.go:249-413 | over every run from a coherent state: every step meets the condition if and only if no state of the run can end with such an entry |
| CacheCoherence.OverlapGoesStaleIff | services/gateway/internal/repository/cached_url_repository.go:299-413 | inserting or deleting the row can end in a wrong entry that no writer is left to repair if and only if a Get, a Create or a late write is then on the way to the cache with a value of it |
| CacheAnswers.ServesStaleIff | services/gateway/internal/repository/cached_url_repository.go:196-413 | in every state with well-led flights, settled or not: without further write to the row, a Get that starts only after all writers are done can be told something else than the row if and only if the node, someone on the way to the cache or a flight says something else |
| CacheAnswers.SettledServesStaleIff | services/gateway/internal/repository/cached_url_repository.go:348-413 | when no writer is at work this is so if and only if coherence is broken or a flight carries something else than the row |
| CacheAnswers.WriteServesStaleIff | services/gateway/internal/repository/cached_url_repository.go:251-377 | a change of the row can lead there if and only if the row is cached, someone is on the way to the cache with a value of it, or a flight carries an answer for it |
| CacheAnswers.GoodStepIff | services/gateway/internal/repository/cached_url_repository.go:249-413 | a step keeps the cache coherent and the flights current if and only if it is race free, changes the row only while no flight carries an answer, and re-checks find nothing or the row |
| CacheAnswers.UnsafeStepIff | services/gateway/internal/repository/cached_url_repository.go:249-413 | in every run that met this condition so far: whenever no writer is at work, a new Get can be told something wrong if and only if the last step did not meet it |
| CacheAnswers.ClearRunIff | services/gateway/internal/repository/cached_url_repository.go:249-413 | over every run: all writes are harmless and all re-checks true if and only if no state of the run can lead to a wrong answer |
| CacheRaceExample.DeletedUrlIsServed | services/gateway/internal/repository/cached_url_repository.go:299-413 | for every URL and every moment within the time to live, a fault-free run from an empty cache in which a Get started after the Delete returned answers with the deleted URL |
| CacheRaceExample.DeletedUrlIsShared | services/gateway/internal/repository/cached_url_repository.go:300-377 | for every URL, a fault-free run in which the Delete overlaps nobody on the way to the cache and leaves it coherent, and yet a Get started after it joins an unfinished flight and is told the deleted URL |
| CacheRaceExample.OldEntryIsShared | services/gateway/internal/repository/cached_url_repository.go:300-377 | for every URL, a fault-free run in which, moreover, no flight carries an answer when the row is deleted, but one picks up the old entry before it is invalidated |
| CacheRaceExample.FreshUrlIsMissing | services/gateway/internal/repository/cached_url_repository.go:251-413 | for every URL and every moment within a minute, a fault-free run in which a Get started after the Create returned reports the new URL missing |
| CacheRefinement.GetIsRefined | services/gateway/internal/repository/cached_url_repository.go:196-413 | under every pattern of faults, the steps of an undisturbed Get end with the reply and the cache that the repository's `Get` specifies |
| CacheRefinement.CreateIsRefined | services/gateway/internal/repository/cached_url_repository.go:251-297 | the same for Create |
| CacheRefinement.DeleteIsRefined | services/gateway/internal/repository/cached_url_repository.go:300-337 | the same for Delete |
| Repository.CachedURLRepository.GetByCode | services/gateway/internal/repository/cached_url_repository.go:196-247 | a usable entry answers, at once or at the re-check, and otherwise the database; a URL found is cached for the configured time, an absence for 60000 ms, a failure not at all |
| Repository.CachedURLRepository.QueryFromDB | services/gateway/internal/repository/cached_url_repository.go:348-413 | re-check, database read and cache fill, with the sentinel on not-found and nothing cached on a database error |
| Repository.CachedURLRepository.CreateRow | services/gateway/internal/repository/cached_url_repository.go:251-297 | conflict, failure or one new row, and only then the cached URL |
| Repository.CachedURLRepository.DeleteRow | services/gateway/internal/repository/cached_url_repository.go:300-337 | not found, failure or one row less, and only then the entry goes |
| Repository.AbsenceLastsAMinute | services/gateway/internal/repository/cached_url_repository.go:391-397 | a code found missing is reported missing for exactly 60000 ms, whatever happens to the database |
| Repository.UrlLastsTtl | services/gateway/internal/repository/cached_url_repository.go:251-297 | a URL read or created is answered from the cache for exactly the configured time, for ever if that is zero |
| Repository.DeletedIsForgotten | services/gateway/internal/repository/cached_url_repository.go:300-337 | a deleted URL is not answered from the cache again |
| Repository.GetRefines | services/gateway/internal/repository/cached_url_repository.go:196-413 | on a coherent cache a Get answers as the plain repository does, whatever the cache calls do, and leaves the cache coherent |
| Repository.CreateRefines | services/gateway/internal/repository/cached_url_repository.go:251-297 | Create has the plain result and effect under every cache fault; it keeps coherence exactly when it failed, its cache call landed, or nothing readable was cached |
| Repository.DeleteRefines | services/gateway/internal/repository/cached_url_repository.go:300-337 | the same for Delete |
| Repository.GracefulDegradation | services/gateway/internal/repository/cached_url_repository.go:233-337 | with every cache call failing, or no cache, every call sequence gets the plain repository's replies and final database, database failures included |
| Repository.DatabaseIgnoresCache | services/gateway/internal/repository/url_repository.go:31-129 | under any mixture of cache faults every Create and Delete of a call sequence gets the reply it would get without a cache, and the database ends as it would |
| UrlService.URLService.CreateShortURL | services/gateway/internal/service/url_service.go:58-162 | with an alias, the row asked for is added under it, or the alias is taken or the database fails; without, attempt k asks for the URL followed by k, attempts find their codes taken until one decides, and that one adds the row in full, or tells why not |
| UrlService.AttemptsDiffer | services/gateway/internal/service/url_service.go:105 | no two attempts ask the generator for the same string |
| UrlService.EnoughAttemptsSucceed | services/gateway/internal/service/url_service.go:104-143 | when nothing fails, the attempts' codes differ and there are more attempts than rows, a create succeeds |
| UrlService.URLService.GetURL | services/gateway/internal/service/url_service.go:165-190 | the row if it has not expired; otherwise expired, not found or a database failure, each told apart |
| UrlService.URLService.Redirect | services/gateway/internal/service/url_service.go:193-210 | the same with the target URL |
| UrlService.URLService.DeleteURL | services/gateway/internal/service/url_service.go:213-233 | deleted, not found or a database failure, each told apart; the row goes exactly in the first case |
| UrlService.CreateAllOrNothing | services/gateway/internal/service/url_service.go:74-144 | success adds exactly one row, under the returned, previously free code and for the requested URL and expiry; any failure leaves the database unchanged |
| UrlService.GenerationFailsIff | services/gateway/internal/service/url_service.go:104-143 | when every candidate generates, the generation error is returned exactly when every candidate within the retries conflicts |
| UrlService.CreatesFirstFree | services/gateway/internal/service/url_service.go:104-138 | a success is at the first candidate that does not conflict, within the configured retries |
| UrlService.ServeRefines | services/gateway/internal/service/url_service.go:240-257 | one service call over working caches answers and writes as over a plain map, and keeps the cache coherent |
| UrlService.CacheIsInvisible | services/gateway/internal/service/url_service.go:193-257 | every sequence of create, get, redirect and delete calls gets the responses of a plain map with an expiry check |
| NoLoss.NoMessageIsLost | services/analytics-worker/internal/consumer/consumer.go:104-218 | in every state of every run, an accepted message is ready, outstanding under exactly one tag of one channel, in the table, or dead-lettered; only clicks are inserted, only malformed messages dead-lettered |
| NoLoss.StepKeepsInv | services/analytics-worker/cmd/worker/main.go:73-112 | publishing, delivery, flush steps, failed or ambiguous inserts, lost frames, drops, exits and reconnects each keep that invariant |
| NoLoss.EveryAckIsPrecise | services/analytics-worker/internal/consumer/consumer.go:212-215 | an ack covers exactly the batch's clicks, all inserted, and no prefetched delivery; it names a tag the broker still holds exactly when the batch ends in a click |
| NoLoss.AckInStep | services/analytics-worker/internal/consumer/consumer.go:123-158 | after the ack the worker's tags are again the consecutive ones that follow, and the drained wire leaves exactly what it holds |
| NoLoss.NothingToInsert | services/analytics-worker/internal/consumer/consumer.go:198-200 | a batch without clicks has been nacked in full, so returning without an ack leaves nothing behind |
| NoLoss.BrokerFrameStep | services/analytics-worker/internal/consumer/consumer.go:184-215 | the broker's handling of any frame, including an ack of an already nacked tag in both readings, loses nothing |
| ExactlyOnce.TableCountsInserts | services/analytics-worker/internal/consumer/consumer.go:174-218 | in every run, with any losses, failures and redeliveries, the table holds a click exactly as often as an insert of a batch that holds it took effect |
| ExactlyOnce.ExactlyOnce | services/analytics-worker/internal/consumer/consumer.go:104-218 | in a run in which no insert fails and nothing drops, no click is in the table twice and every acked message is there once |
| ExactlyOnce.PrefetchBound | services/analytics-worker/internal/consumer/consumer.go:111-115 | with a positive batch size no channel ever has more than twice that outstanding |
| Consumer.Flush | services/analytics-worker/internal/consumer/consumer.go:174-218 | what is inserted is every well-formed message of the batch, once for each delivery and in order; every malformed one is nacked, in order; an ack of the last tag follows exactly a successful insert; it fails exactly when there was something to insert and the insert failed |
| Consumer.FlushIsRefined | services/analytics-worker/internal/consumer/consumer.go:174-218 | an undisturbed flush of the step system, for every batch and insert result, during shutdown or not, sends and inserts exactly what the flush code does |
| SelectLoop.Run | services/analytics-worker/internal/consumer/consumer.go:123-159 | cut at its flushes, what arrives falls into the batches flushed and the batch at hand, in order; it flushes at every tick and shutdown that finds something, at every arrival that fills the batch and at no other time; flushes are neither empty nor oversized; it goes on while nothing closes, cancels or fails, and fails exactly when its last flush could not insert |
| SelectLoop.ArrivedAt | services/analytics-worker/internal/consumer/consumer.go:139-145 | each delivery that arrives is taken once and in order |
| SelectLoop.RunIsRefined | services/analytics-worker/internal/consumer/consumer.go:123-218 | for every sequence of deliveries, ticks, shutdown and channel closing, the loop is a path of the step system with the same batches, frames, rows and way out |
| Consumer.DialWithRetry | services/analytics-worker/cmd/worker/main.go:119-139 | the pauses double from 1 s to 32 s; a pause above 30 s occurs exactly from the sixth failure on |
| HashRing.HashRing.constructor | services/gateway/internal/cache/ring.go:34-47 | for every map iteration order, a sorted ring in which every node has the client it was given, every position belongs to the last node that claimed it, and there are `replicas` positions for each node |
| HashRing.HashRing.AddVnodes | services/gateway/internal/cache/ring.go:67-73 | the loop appends the node's positions and claims them |
| HashRing.ReplicasPlaced | services/gateway/internal/cache/ring.go:67-73 | the i-th replica is hashed as the name, a comma, a hash sign and i; the node takes all its positions, shared ones included, and leaves the rest alone |
| RingTheorems.VnodeKeyInjective | services/gateway/internal/cache/ring.go:69 | the hashed key determines the node's name and the replica |
| HashRing.HashRing.NodeFor | services/gateway/internal/cache/ring.go:76-93 | the node named at the least position at or above the key's hash, or at the least of all if there is none; that is the nearest clockwise |
| HashRing.HashRing.ClientFor | services/gateway/internal/cache/ring.go:96-104 | the owner's client, always present when the owner has a non-empty name; none for an empty ring or an owner named "" |
| HashRing.HashRing.AddNode | services/gateway/internal/cache/ring.go:136-146 | a new node is added with its client and its positions, which it takes from others where they are shared; nothing changes for a current member |
| HashRing.HashRing.RemoveNode | services/gateway/internal/cache/ring.go:108-130 | the node's client and every occurrence of its positions go, all else stays; it panics exactly when fewer than `replicas` positions are left, before changing anything |
| HashRing.FindIndex | services/gateway/internal/cache/ring.go:157-170 | the least position at or above the hash, duplicates or not; the length exactly when there is none |
| HashRing.AddKeeps | services/gateway/internal/cache/ring.go:136-146 | Add keeps positions sorted, equal to the map's keys, and owned by current clients, collisions or not |
| HashRing.RemoveKeeps | services/gateway/internal/cache/ring.go:108-130 | so does Remove |
| RingTheorems.AddMovesOnlyToNewNode | services/gateway/internal/cache/ring.go:67-146 | after Add every hash keeps its owner or moves to the new node, collisions or not |
| RingTheorems.AddTakesItsPositions | services/gateway/internal/cache/ring.go:67-146 | the new node gets exactly the keys whose next position is one of its own, shared positions included |
| RingTheorems.RemoveSparesOthersIff | services/gateway/internal/cache/ring.go:106-130 | removal leaves all keys of other nodes in place exactly when each position shared with the removed node is followed by its holder |
| RingTheorems.RemoveIsMinimal | services/gateway/internal/cache/ring.go:106-130 | with unshared positions only the removed node's keys move, each to the next surviving position clockwise of the one it left |
| RingTheorems.AddThenRemoveIff | services/gateway/internal/cache/ring.go:108-146 | adding a node and removing it restores the exact ring if and only if its positions were free; the removal does not panic |
| RingTheorems.HistoryIndependence | services/gateway/internal/cache/ring.go:34-146 | with pairwise disjoint positions, any two histories ending in the same members end in the same positions and owners |
| RingTheorems.ClientIsLastGiven | services/gateway/internal/cache/ring.go:34-146 | over whole histories a member has the client it was built with if it was never removed, and otherwise the one given when it was last added |
| RingTheorems.RemovalNeverPanics | services/gateway/internal/cache/ring.go:118-123 | in such histories removing a member never asks for a negative capacity |
| RingTheorems.TwinNodesPanic | services/gateway/internal/cache/ring.go:118-129 | with colliding positions it can |
| TokenBucket.Bucket.Check | services/rate-limiter/src/token_bucket.lua:6-29 | with n tokens stored, full = min(burst, n + whole tokens earned): allowed exactly when full is at least 1, full - 1 is replied and stored, the clock is reset, the key expires after 120000 ms, and a denial advertises the least wait that covers what is missing |
| TokenBucket.Bucket.CheckAll | services/rate-limiter/src/token_bucket.lua:6-29 | a run of calls with key expiries in between gives the replies and the stored key of the run functions all results below are about |
| TokenBucket.WindowBound | services/rate-limiter/src/token_bucket.lua:6-27 | admissions in any window of w ms of any run are at most burst + rate*w/60000, across key expiry when burst <= 2*rate |
| TokenBucket.RateBoundedIff | services/rate-limiter/src/token_bucket.lua:26-27 | that bound holds for all windows of all runs with expiry if and only if burst <= 2*rate |
| TokenBucket.ExpiryInvisibleIff | services/rate-limiter/src/token_bucket.lua:6-8 | no reply distinguishes an expired key from a kept one if and only if burst <= 2*rate |
| TokenBucket.IdealSimulates | services/rate-limiter/src/token_bucket.lua:6-26 | whatever the clock does and from the very first call, a bucket keeping fractional credit admits every request the script admits, and the stored count never exceeds the ideal one |
| TokenBucket.RetryAfterIff | services/rate-limiter/src/token_bucket.lua:20-24 | the advertised wait is between 1 and ceil(60000/rate), and waiting that long, plus any `extra` that rounding adds, is enough if and only if the discarded credit is at most 59999 mod rate + extra*rate |
| TokenBucket.AdvertisedWaitIff | services/rate-limiter/src/token_bucket.lua:23-26 | every denied caller that waits as long as it is told is admitted if and only if the rate is at least 60000 per minute; otherwise an empty bucket asked after 1 ms shows the contrary |
| TokenBucket.WaitIff | services/rate-limiter/src/token_bucket.lua:11-26 | a denied caller that waits any number of ms is admitted if and only if that is at least ceil(60000/rate) |
| TokenBucket.SilenceRecovers | services/rate-limiter/src/token_bucket.lua:11-19 | a denied caller silent for ceil(60000/rate) ms is admitted |
| TokenBucket.VolleyServed | services/rate-limiter/src/token_bucket.lua:11-19 | of any number of calls at one instant, exactly min(burst, stored + whole tokens earned since) are admitted |
| TokenBucket.TokensConserved | services/rate-limiter/src/token_bucket.lua:11-26 | unless a refill spills over the burst, every whole token earned in a run is served or still stored |
| TokenBucket.SteadyCallerAllOrStored | services/rate-limiter/src/token_bucket.lua:11-26 | a caller with a fixed period is admitted every time when the period earns a token, and otherwise for exactly the tokens stored when it starts |
| ShortCode.EncodeBase62 | services/gateway/internal/service/shortcode.go:87-98 | for every uint64, a string of Base62 digits that decodes to the number, without a leading zero except for zero itself |
| ShortCode.Alphabet | services/gateway/internal/service/shortcode.go:13 | the digits are 0-9, A-Z, a-z in this order |
| ShortCode.DecodeEncode | services/gateway/internal/service/shortcode.go:87-98 | decoding undoes encoding; no leading zero except for zero itself |
| ShortCode.EncodeDecode | services/gateway/internal/service/shortcode.go:87-98 | encoding undoes decoding on canonical codes |
| ShortCode.LengthAtMostEleven | services/gateway/internal/service/shortcode.go:87-98 | a uint64 takes 1 to 11 characters |
| ShortCode.EncodeKeepsOrder | services/gateway/internal/service/shortcode.go:13 | codes of one length sort as their numbers do |
| ShortCode.GenerateIff | services/gateway/internal/service/shortcode.go:73-84 | generation refuses exactly URLs that do not parse and hashes below 62^(n-1); otherwise the code has n digits and decodes to the hash's leading digits |
| ShortCode.SameCodeIff | services/gateway/internal/service/shortcode.go:78-83 | two URLs collide exactly when the leading parts of their hashes agree |
| BulkInsert.Build | services/analytics-worker/internal/repository/repository.go:42-64 | for every batch, the statement's text read back by a grammar for VALUES lists, with its arguments substituted, is one row for each event, in order, with the right field under the name of each column |
| BulkInsert.Fill | services/analytics-worker/internal/repository/repository.go:47-57 | the loop that fills the placeholders and appends the arguments |
| BulkInsert.ParametersInOrder | services/analytics-worker/internal/repository/repository.go:52-60 | the text parses to n tuples that use $1 to $4n once each, in order |

## Left out

- The internals of the circuit breaker, singleflight and the Redis and AMQP client libraries: their effects appear as faults, a flight table and wires.
- The Redis client being nil: a ring without nodes gives none, and the cache calls would then dereference it.
- Linearizability of the cached repository: it does not hold, as `DeletedUrlIsServed` and `DeletedUrlIsShared` show.
- CacheAnswers.ServesStaleIff: the lookups of the code go to one node; while the ring moves the code to another node, what that node holds is only bounded by `BoundedStaleness`.
- SelectLoop.RunIsRefined: the deliveries are already with the client library when the loop starts; deliveries that arrive meanwhile are steps of the broker.
- Fairness and progress: no claim that a request finishes or that a queue drains; in particular none that the shutdown flush, which runs under a cancelled context, inserts its batch.
- TokenBucket.Bucket.Check: Lua's floating-point rounding, which can add 1 ms to `retry_after_ms` (at rate 100, an empty bucket asked again after 79 ms reports 522 where the exact value is 521; at rate 20000, after 1 ms, 3 instead of 2), and a rate of zero, which the script divides by.
- TokenBucket.RetryAfterIff: the size of the rounding error is a parameter, `extra`, not derived; 0 is exact arithmetic and 1 the rounded replies above.
- HashRing.HashRing.constructor: a negative replica count, which places no positions.
- UrlService.URLService.CreateShortURL: a clash of random row ids, a database insert that fails after taking effect, and daylight-saving changes within an expiry counted in days.
- BulkInsert.Build: the limit on the number of parameters of one PostgreSQL statement.
- Distribution of keys over nodes (about 1/N): a property of SHA-256, not of the ring.
- Canonicalize, HTTP handlers, middleware, configuration, metrics, tracing, logging, the analytics publisher, health checks and deployment files.

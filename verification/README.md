# Verified models of the agentgateway core

Models of the concurrent protocols and byte-level algorithms in the agentgateway data plane, with proofs of what they
keep. Each module follows one component.

| module | component |
|---|---|
| `TokenBucket`, `RateLimiterSteps`, `RateLimiterLimits`, `RateLimiter`, `RateLimiterAnswers` | the local rate limiter: its arithmetic, its interleavings, how far its guarantees go in them, its sequential behaviour, and what calls are answered |
| `HbonePool`, `HbonePoolReady` | the HBONE connection pool, its lock protocol and the stream counters of its connections; and which connections it hands out |
| `XdsClient`, `AdsClient` | the delta xDS client: whole runs of events, and the object that handles them |
| `ByteCopy`, `BufList` | the copy future, the HTTP/2 read adapter, and the list of buffers |
| `DnsCache`, `Drain` | the DNS cache with its background tasks, and the graceful drain channel |
| `CelProperties`, `CelContext`, `CelPath` | which attributes a CEL expression loads, whether that is enough, and attribute paths |
| `PathRewrite` | prefix matching and prefix rewriting |

`dafny verify dfyconfig.toml` checks all of it.

## How the source is modelled

- Concurrent protocols are state machines with one shared-memory operation, one reading of the clock or one section under a
  mutex per step; a run is any sequence of steps, and theorems are about all runs. Atomic operations are sequentially consistent.
- Objects that are updated in place by one owner are classes whose methods are proved against functions of their state.
- Arithmetic that may wrap is written out as in the release profile. The rate limiter counts its own wrap-arounds, so that
  conservation is exact without assuming that there are none.
- The rate limiter's bounds are about runs without amendments that add tokens, in which the tokens of each single claim fit in 64
  bits beside a full bucket, and for as many threads as full buckets fit; `Conservation` is about all runs.
- Clock readings, hash values, answers from the network, reader, writer and handler, and the scheduler's choices are
  parameters. In the pool, notifications, drains and evictions may happen at any time, which includes all the times
  they do. A poll's outcomes come from scripts; an exhausted script is pending.

## What the proofs show about the source

- Rate limiter: with two callers or more (three if the capacity is one), a refill can read more than the capacity while others take what
  it read; the subtraction (localratelimit.rs:257) then leaves 2^64 - 1 tokens in the bucket. So neither the rate over a whole run nor
  that over a window holds in every interleaving, but exactly for fewer callers (`KeepsRateIff`), and the bucket stays within capacity
  exactly for one (`KeepsCapacityIff`). The bounds `RateBound`, `GrantBound` and `WindowBound` are about interleavings in
  which no payment reads above capacity, which includes all in which claims and payments do not overlap (`CapacityKept`). Over those
  the windowed rate holds exactly when the window opens with no refill overdue, no payment under way and the bucket within
  capacity (`WindowHoldsIff`); for calls made one at a time it always holds (`SequentialWindow`).
- The builder checks neither a zero interval, by which `refill` divides, nor a zero amount, with which a call of `try_wait_n` can repeat
  its passes for ever (`ZeroAmountRepeats`); with any other amount it repeats at most as many as tokens are missing (`ReturnsIff`). Nor
  does it check the initial tokens against the cap. A repeated pass does not mean that another caller raced, as a comment says
  (localratelimit.rs:306-310): a refill smaller than the request repeats it too.
- `DropCounter` (hbone/src/lib.rs:140-192) decrements when the first of a stream's halves is dropped, not the second as its comments say;
  each stream is still subtracted exactly once.
- The stream cap holds in runs where no other task checks out between a task's check-in and its send (`StreamCap`). Over all
  runs it holds exactly for connections that allow one stream (`KeepsCapIff`).
- The xDS cache applies removals before updates and the handler the other way round (client.rs:134-173), so a
  resource in both lists of one response makes them differ, as does one that fails to decode (`AgreementKeptIff`).
- CEL: registering an expression does not load what only a ternary's middle, an index or a `request.body` path mentions, although
  `register_expression` promises correct results. An attribute of a literal also leaks into the next path.
- The comment that the prefix match is not right (route.rs:119) does not apply to its segment semantics, which are exact. Rewriting a path
  matched by a prefix with a trailing slash can split out of range and panic (`InRangeIffSafe`): prefix `/foo/` and path `/foo`, or the
  root prefix, which is the default match (types/local.rs:308-315), and the empty path of a CONNECT request (`RootOutOfRange`). On
  paths that stay in range it loses segments or characters, exactly for prefixes with a leading and a trailing slash (`ReplacesIff`):
  prefix `/foo//` and replacement `/x` turn `/foo/bar` into `/x/ar`.

## Model

| member | source | states |
|---|---|---|
| `RateLimiterSteps.RunConserves` | crates/agentgateway/src/http/localratelimit.rs:213-339 | one atomic operation of a thread changes the tokens accounted for (available, dropped, granted, amended, owed, plus every 2^64 lost to wrap-around) by exactly the tokens of the intervals it claims |
| `RateLimiterSteps.Conservation` | crates/agentgateway/src/http/localratelimit.rs:195-339 | in every interleaving of atomic operations, ticks and amendments: initial + amount x intervals claimed = available + dropped + granted + net amended + claimed but unpaid (+ wraps), and the claimed intervals tile the time from the first to the next refill, so each is paid once |
| `RateLimiterSteps.SoundIsExact` | crates/agentgateway/src/http/localratelimit.rs:241-264 | in every interleaving that amends no tokens in and whose claims each fit in 64 bits, as long as no payment reads above capacity: nothing wraps on the way into the bucket and every count only grows, however often the count of dropped tokens wraps |
| `RateLimiterSteps.RateBound` | crates/agentgateway/src/http/localratelimit.rs:213-339 | over a whole run of any interleaving in which no payment reads above capacity, grants are at most the initial tokens plus one refill per elapsed interval |
| `RateLimiterSteps.GrantBound` | crates/agentgateway/src/http/localratelimit.rs:213-339 | over any stretch of any such interleaving, grants are at most the bucket and the payments under way at its start plus one refill per interval from the refill then due to one interval after its end; tokens about to be dropped do not count |
| `RateLimiterSteps.WindowBound` | crates/agentgateway/src/http/localratelimit.rs:213-339 | the windowed rate, capacity + amount x (floor(window / interval) + 1), in every such interleaving, over every window that opens with no refill overdue, no payment under way and the bucket within capacity |
| `RateLimiterLimits.WindowHoldsIff` | crates/agentgateway/src/http/localratelimit.rs:213-339 | for every limiter with a positive amount, over interleavings in which no payment reads above capacity: the windowed rate holds from every reachable state of a given lateness, with or without payments under way, with or without a surplus, exactly if the lateness is not positive and there are neither |
| `RateLimiterLimits.OverdueFails` | crates/agentgateway/src/http/localratelimit.rs:284-335 | for every positive lateness, the run that breaks the windowed rate: a thread whose own refill attempt came too early empties the bucket, a thread with an old clock reading and a fresh one each refill and take again |
| `RateLimiterLimits.OnePaymentFails` | crates/agentgateway/src/http/localratelimit.rs:250-264 | for every limiter whose amount is below its capacity, and every lateness or earliness: a reachable state with one payment under way beside a full bucket, from which the windowed rate breaks at one instant, without any overlap |
| `RateLimiterLimits.TwoPaymentsFail` | crates/agentgateway/src/http/localratelimit.rs:250-264 | for every positive amount, two payments under way do |
| `RateLimiterLimits.OverfullFails` | crates/agentgateway/src/http/localratelimit.rs:387-409 | so does a bucket above capacity, which the builder accepts as initial tokens |
| `RateLimiterSteps.CapacityKept` | crates/agentgateway/src/http/localratelimit.rs:250-264 | in every run in which no two threads are between claiming and paying at once, the bucket stays within capacity and no payment reads above it |
| `RateLimiterLimits.KeepsCapacityIff` | crates/agentgateway/src/http/localratelimit.rs:250-264 | for every limiter with a positive amount: all interleavings of n callers from within capacity stay within it exactly if n is at most one |
| `RateLimiterLimits.KeepsRateIff` | crates/agentgateway/src/http/localratelimit.rs:213-339 | for every limiter with a positive amount: the whole-run rate is kept by all interleavings of n callers from within capacity exactly if n is at most one, or two and the capacity is one; and so is the windowed rate over all windows that open with nothing overdue, under way or in excess |
| `RateLimiterLimits.TwoCallersBrink` | crates/agentgateway/src/http/localratelimit.rs:253-260 | with a capacity of two or more, two callers come to a payment that read above capacity when what it read has since been taken |
| `RateLimiterLimits.Flood` | crates/agentgateway/src/http/localratelimit.rs:253-260 | that payment leaves 2^64 - 1 tokens in the bucket, of which seven times the capacity can be taken at once |
| `RateLimiterLimits.FewIsSound` | crates/agentgateway/src/http/localratelimit.rs:253-260 | with one caller, or two of a bucket of capacity one, no payment ever reads above capacity |
| `RateLimiterLimits.OverlapExceedsCapacity` | crates/agentgateway/src/http/localratelimit.rs:250-264 | for every limiter with a positive amount and two callers or more, two overlapping refills reach capacity + 1 |
| `RateLimiterSteps.SurplusTakenOut` | crates/agentgateway/src/http/localratelimit.rs:253-260 | a payment that read above capacity takes the surplus it read out of whatever is there by then; it does not wrap exactly if that much is left, and else leaves more than before |
| `RateLimiter.Ratelimiter.constructor` | crates/agentgateway/src/http/localratelimit.rs:402-415 | a limiter starts with its initial tokens, nothing dropped, and the first refill one interval away |
| `RateLimiter.Ratelimiter.Build` | crates/agentgateway/src/http/localratelimit.rs:391-416 | fails exactly if the cap is below the refill amount or the interval exceeds 64 bits, with the error for which; otherwise a full bucket |
| `RateLimiter.Ratelimiter.Pay` | crates/agentgateway/src/http/localratelimit.rs:250-264 | the payment adds what the capacity rule allows of what is owed and counts the rest as dropped, wrap-around included |
| `RateLimiter.Ratelimiter.Refill` | crates/agentgateway/src/http/localratelimit.rs:213-267 | the claim loop and the payment, in place, compute the refill function |
| `RateLimiter.RefillAdds` | crates/agentgateway/src/http/localratelimit.rs:231-264 | a refill claims exactly the elapsed intervals, brings the bucket to what was there plus their tokens or to capacity, drops the others, and leaves the next refill within one interval of the clock |
| `RateLimiter.RepeatAdds` | crates/agentgateway/src/http/localratelimit.rs:284-314 | a pass of `try_wait_n` that is repeated has brought the bucket strictly closer to n: the termination measure |
| `RateLimiter.Ratelimiter.TryWaitN` | crates/agentgateway/src/http/localratelimit.rs:279-339 | the two nested loops terminate and compute the passes function, also on a bucket above capacity; zero or more than capacity is refused with no delay and no change |
| `RateLimiter.WaitMeaning` | crates/agentgateway/src/http/localratelimit.rs:279-339 | all or none: a refusal takes nothing, leaves fewer than n, and its delay is exact, a refill succeeds at a time if and only if the delay has passed by then |
| `RateLimiter.WaitConserves` | crates/agentgateway/src/http/localratelimit.rs:213-339 | a call of `try_wait_n` conserves tokens: what was there and what the claimed intervals bring is left, granted (exactly n) or dropped |
| `RateLimiter.WaitStopsFirst` | crates/agentgateway/src/http/localratelimit.rs:279-339 | `try_wait_n` stops at the first pass that is not repeated, with the bucket and the answer of that pass, and after no more repeated passes than tokens were missing |
| `RateLimiter.ZeroAmountRepeats` | crates/agentgateway/src/http/localratelimit.rs:279-339 | with a refill amount of zero and a clock that moves on by an interval between readings, every pass refills, leaves the tokens as they were and is repeated |
| `RateLimiter.ReturnsIff` | crates/agentgateway/src/http/localratelimit.rs:279-339 | every call, on every bucket and under every monotone clock whose readings are not so far apart that one claim overflows, comes to a pass it does not repeat after at most as many as tokens are missing, exactly if the refill amount is not zero |
| `RateLimiter.Ratelimiter.AmendTokens` | crates/agentgateway/src/http/localratelimit.rs:195-209 | amending saturates at zero and at the largest 64-bit number |
| `RateLimiter.SequentialWindow` | crates/agentgateway/src/http/localratelimit.rs:213-339 | for calls made one at a time, however overdue the refill, grants in a window are at most capacity + amount x (floor(window / interval) + 1) |
| `RateLimiter.RefillAlone` | crates/agentgateway/src/http/localratelimit.rs:213-267 | a thread of the concurrent model that refills with nobody else running does what the sequential refill does |
| `RateLimiterAnswers.CallAlone` | crates/agentgateway/src/http/localratelimit.rs:279-339 | a thread of the concurrent model that makes a whole call with nobody else running, under any monotone clock, ends with the bucket and the grant or refusal, delay included, of the sequential limiter |
| `RateLimiterAnswers.AnswersExactly` | crates/agentgateway/src/http/localratelimit.rs:299-334 | in every interleaving a step refuses a call exactly if the thread finds fewer than its n tokens and its last refill attempt was too early, with that attempt's delay; if that attempt paid, the thread starts over; and the only other end of a call is a grant, which takes exactly n out of a bucket that holds them |
| `RateLimiterAnswers.ReadsClockOncePerPass` | crates/agentgateway/src/http/localratelimit.rs:222-247 | the clock is read once per pass: a lost race to claim is tried again as of the same time |
| `RateLimiterAnswers.CallTaken` | crates/agentgateway/src/http/localratelimit.rs:279-282 | a call is refused at once, without delay, exactly if it asks for no tokens or for more than the capacity |
| `RateLimiterAnswers.AmendmentTaken` | crates/agentgateway/src/http/localratelimit.rs:195-209 | in the concurrent model too an amendment saturates at both ends and changes nothing else |
| `HbonePool.MaxAllowed` | crates/hbone/src/client.rs:124-131 | the cap of a connection is the configured one or the peer's, whichever is lower, as a 16-bit number |
| `HbonePool.StepLocked` | crates/hbone/src/pool.rs:211-325 | every step keeps: a lock is held by exactly the task that thinks so, a task's lock is the one mapped to its hash, distinct hashes have distinct locks |
| `HbonePool.StepKeyed` | crates/hbone/src/pool.rs:164-191 | every step keeps: a task's connection was opened for its key, and pooled clones are filed under their key's hash |
| `HbonePool.StepLinear` | crates/hbone/src/pool.rs:299-324 | every step keeps: the right to put a connection into the pool is in the pool once or with one task, never both |
| `HbonePool.StepPutOnce` | crates/hbone/src/pool.rs:133-160 | every step keeps: a task puts under its own pool id, at most once |
| `HbonePool.ActShare` | crates/hbone/src/lib.rs:180-192 | a step changes a connection's counter by exactly the change in the task's share in it: a send in flight, or a stream whose first dropped half has not yet decremented |
| `HbonePool.LockProtocol` | crates/hbone/src/pool.rs:211-512 | in every interleaving and for every hash function: at most one task per hash is opening a connection, no unwrap of the lock map fails, and a notified task always finds its lock |
| `HbonePool.LockMapGrows` | crates/hbone/src/pool.rs:427-439 | a lock-map entry is never removed or replaced |
| `HbonePool.ConnectReturnsOwnKey` | crates/hbone/src/pool.rs:164-191 | `connect` only returns connections opened for the very key asked for, however keys collide |
| `HbonePoolReady.ReturnedReady` | crates/hbone/src/pool.rs:299-319 | in every interleaving a connection that `connect` checks in or returns was opened by that task itself or was ready when it checked it out |
| `HbonePoolReady.NotReadyNeverReturned` | crates/hbone/src/pool.rs:301-310 | from a checkout that finds a connection not ready on, over any further run, that connection is never pooled again and no task gets it any more |
| `HbonePoolReady.FailsExactly` | crates/hbone/src/pool.rs:164-191 | a task fails exactly if its connection cannot be opened, the pool drains while it waits, the connection found under its hash is for another key, or its request fails |
| `HbonePoolReady.PooledAlone` | crates/hbone/src/pool.rs:273-325 | with no other task moving and its lock free, `connect`, at first or when notified, returns a connection pooled under its key and ready, and releases the lock |
| `HbonePoolReady.OpenedAlone` | crates/hbone/src/pool.rs:273-325 | if none is pooled under its hash it opens one for its key |
| `HbonePoolReady.FirstAlone` | crates/hbone/src/pool.rs:390-512 | if its hash is new it makes the lock, wins it and opens one |
| `HbonePoolReady.LoserWaits` | crates/hbone/src/pool.rs:463-510 | a task that lost the race for the lock waits, and looks again when notified |
| `HbonePoolReady.TakesUnderOwnHash` | crates/hbone/src/pool.rs:293-300 | what is taken out of the pool is filed under the task's own hash, while the task holds the lock of that |
| `HbonePoolReady.OpensIfNonePooled` | crates/hbone/src/pool.rs:314-317 | a task that looks into the pool opens a connection only if none is pooled under its hash |
| `HbonePoolReady.CapIsLowest` | crates/hbone/src/client.rs:124-131 | over every run the cap of each connection is the lower of the configured limit and the peer's |
| `HbonePoolReady.SubtractedOnce` | crates/hbone/src/lib.rs:180-192 | a stream is subtracted exactly once, whichever half is dropped first and whether or not the second is dropped before the first has subtracted |
| `HbonePoolReady.SendIs` | crates/hbone/src/client.rs:60-83 | a request that succeeds is a stream with both halves alive, one that fails is subtracted at once |
| `HbonePool.PooledOnce` | crates/hbone/src/pool.rs:133-160 | each connection has at most one clone in the pool and each pool id is put at most once |
| `HbonePool.StreamAccounting` | crates/hbone/src/client.rs:60-83 | in every interleaving each counter is the number of sends in flight and streams not yet subtracted, as a 16-bit number; with fewer than 2^16 of them a task about to decrement finds the counter exact and above zero |
| `HbonePool.CheckoutAndSendIs` | crates/hbone/src/pool.rs:374-382 | check-in, release and increment taken together: one more stream, and a pooled clone exactly if there is room for a further one |
| `HbonePool.StreamCap` | crates/hbone/src/client.rs:35-43 | in runs where checkout and send are one step and every connection allows a stream, no counter exceeds its cap, which is within the peer's limit (section 5.1.2 of RFC 9113), and pooled connections are strictly below it |
| `HbonePool.AnyNumberOfStreams` | crates/hbone/src/pool.rs:374-382 | without that, a connection that allows two streams or more can be given any number of them |
| `HbonePool.KeepsCapIff` | crates/hbone/src/pool.rs:299-324 | for every hash function and every 16-bit cap, zero included: every interleaving keeps the connections with that cap within it exactly if the cap is one; their counters, just then or if the cap is the largest 16-bit number |
| `XdsClient.HandleKnows` | crates/xds/src/client.rs:150-173 | after a response the cache knows a key exactly if the response adds it, or it was known and is not removed |
| `XdsClient.CacheIsLastWrite` | crates/xds/src/client.rs:150-173 | over any run with any reconnects the cache is the last-writer fold of demands and handled responses |
| `XdsClient.ReconnectAnnouncesCache` | crates/xds/src/client.rs:558-579 | each connection sends one initial request per watch, in order, announcing exactly the names of its type that were last written as added |
| `XdsClient.AgreementKeptIff` | crates/xds/src/client.rs:124-173 | from agreement, one response keeps the cache equal to a handler store that applies updates before removals exactly if each of its resources is not also removed, and decodes at least once or was stored already |
| `XdsClient.CleanRunsAgree` | crates/xds/src/client.rs:124-173 | over any run without demands whose responses decode, are accepted and name nothing twice, the cache equals the handler store |
| `XdsClient.RepliesAreDue` | crates/xds/src/client.rs:652-718 | the replies sent are exactly one per answered response, in order, echoing type and nonce, with an error exactly if a handler rejected it or a resource failed to decode |
| `XdsClient.ApplyEmits` | crates/xds/src/client.rs:558-741 | what each event makes the client send: the announcements, the reply, or the subscription to the demanded name |
| `XdsClient.ReadyOnceAllAcked` | crates/xds/src/client.rs:429-451 | across connections and errors the types awaited are those of the watches that are not on demand and not acknowledged; the readiness gate has been released exactly once if there are such watches and all their types are, and never otherwise |
| `XdsClient.HandleNotifies` | crates/xds/src/client.rs:150-173 | a handled response notifies exactly the pending waiters on keys it names |
| `XdsClient.WaitersDemanded` | crates/xds/src/client.rs:720-741 | every waiter pending or notified for a key is that of a demand made for it |
| `XdsClient.EveryDemandHasItsFate` | crates/xds/src/client.rs:720-741 | at every point each demand is pending, notified or displaced, and the first later event on its key decides which |
| `XdsClient.NotifiedOnceAfterHandling` | crates/xds/src/client.rs:143-173 | no waiter is notified twice, and none before the handler has run on a response naming its key |
| `AdsClient.AdsClient.constructor` | crates/xds/src/client.rs:429-451 | a new client expects exactly the types of the initial requests that are not on demand, and holds the readiness gate |
| `AdsClient.AdsClient.NotifyOnDemand` | crates/xds/src/client.rs:236-244 | removes and notifies the waiter of a key, if any |
| `AdsClient.AdsClient.AddResource` | crates/xds/src/client.rs:245-251 | adds a name to its type's set, making the set if there is none |
| `AdsClient.AdsClient.DecodeEach` | crates/xds/src/client.rs:124-133 | a failed decode does not stop the others; the result is whether all succeeded |
| `AdsClient.AdsClient.HandleResponse` | crates/xds/src/client.rs:115-186 | the handler, then the removals, then the updates, each with its notification; succeeds exactly if not rejected and all decoded |
| `AdsClient.AdsClient.OnMessage` | crates/xds/src/client.rs:628-718 | the message arm in place: handling, the reply, and the release of the readiness gate, which is held as long as a type is awaited |
| `AdsClient.AdsClient.OnDemand` | crates/xds/src/client.rs:720-741 | a demand replaces the pending waiter of its key, makes the key known, and subscribes |
| `AdsClient.AdsClient.Connect` | crates/xds/src/client.rs:558-579 | a new stream sends the initial requests with the resources known at that time |
| `AdsClient.BackoffDoubles` | crates/xds/src/client.rs:469-544 | after any history of connections the backoff is the initial one doubled once per failure of the current streak, up to the maximum |
| `ByteCopy.CopyBuf.Account` | crates/core/src/copy.rs:335-354 | the buffer size stays the step function of the bytes copied, also when one write crosses both thresholds; the unwritten rest is kept |
| `ByteCopy.CopyBuf.Write` | crates/core/src/copy.rs:323-354 | a write ends the poll exactly with the result its answer calls for, and otherwise or if pending loses nothing of the buffer |
| `ByteCopy.CopyBuf.Poll` | crates/core/src/copy.rs:308-356 | under every schedule of pending, partial and failing operations: accepted ++ stored = obtained, a poll ends exactly at an answer that ends it and with the result that answer calls for, completion returns the total with everything the reader had accepted |
| `ByteCopy.Copy` | crates/core/src/copy.rs:280-299 | a copy that completes has had all of the reader's bytes accepted, in order, and returns their number; one that has not, a prefix |
| `ByteCopy.RWStream.PollBytes` | crates/hbone/src/lib.rs:254-280 | frames that carry nothing in mid-stream are skipped; an error is exactly a reset that is not benign, an empty result exactly the end of the stream, a benign reset or an empty last frame, and any other result a frame's data |
| `ByteCopy.RWStream.PollRead` | crates/hbone/src/lib.rs:83-100 | delivers the stream's bytes in order without loss, as many of those at hand as fit; otherwise says what the stream tells it; and reports no bytes into a buffer with room only when a frame taken so far ended the stream |
| `BufList.BufList.Push` | crates/agentgateway/src/http/buflist.rs:18-22 | appends a non-empty chunk to the contents |
| `BufList.BufList.Remaining` | crates/agentgateway/src/http/buflist.rs:41-44 | the length of the contents |
| `BufList.BufList.FrontChunk` | crates/agentgateway/src/http/buflist.rs:46-49 | a prefix of the contents, empty only if they are |
| `BufList.BufList.ChunksVectored` | crates/agentgateway/src/http/buflist.rs:51-64 | non-empty slices whose concatenation is a prefix of the contents, all of it if the destination is not filled |
| `BufList.BufList.Advance` | crates/agentgateway/src/http/buflist.rs:66-82 | drops the first n bytes whatever the chunk boundaries, and leaves no empty chunk |
| `BufList.BufList.CopyToBytes` | crates/agentgateway/src/http/buflist.rs:89-113 | all branches return the first n bytes and leave the rest; the copying one terminates because no chunk is empty |
| `BufList.AdvanceFront` | crates/agentgateway/src/http/buflist.rs:66-82 | taking bytes off the front chunk takes them off the contents |
| `DnsCache.StepOwned` | crates/agentgateway/src/client/dns.rs:155-185 | every step keeps: a name is cached exactly while a background task for it has yet to remove it, and maps to that task's entry |
| `DnsCache.OneTaskPerName` | crates/agentgateway/src/client/dns.rs:61-100 | in every interleaving at most one background task per name is live, a name is cached exactly while one is, and removal by name removes the task's own entry |
| `DnsCache.NoLostWakeup` | crates/agentgateway/src/client/dns.rs:95-118 | in every interleaving a parked caller that can go on is told an answer, and for one that cannot the entry's task is about to announce one or has its first still to look up |
| `DnsCache.ReturnsOwnAnswer` | crates/agentgateway/src/client/dns.rs:102-118 | in every interleaving what `resolve` returns for a name is the answer of some earlier lookup of that very name |
| `DnsCache.GivenUpExactly` | crates/agentgateway/src/client/dns.rs:69-79 | in every interleaving a task gives its entry up exactly if nobody asked for it since it last looked, and refreshes it otherwise |
| `DnsCache.ResolveAlone` | crates/agentgateway/src/client/dns.rs:155-189 | a caller of a name whose entry is filled is told its addresses, and marks the entry |
| `DnsCache.TaskAlone` | crates/agentgateway/src/client/dns.rs:69-99 | the cycle of a task: it takes the mark, looks up, stores, wakes and sleeps, and starts over; without a mark it removes the entry and is done |
| `DnsCache.RoundRobin` | crates/agentgateway/src/client/dns.rs:34-42 | whatever was served before, as many further calls as there are addresses return each of them once, in rotation |
| `Drain.StrongFromStrong` | crates/core/src/drain.rs:135-165 | a strong handle of a channel only comes from a strong handle of it, or with the channel |
| `Drain.DrainedForGood` | crates/core/src/drain.rs:189-199 | a completed drain found no strong handle of its channel, and no later step makes one |
| `Drain.OnlyStrongHandlesBlock` | crates/core/src/drain.rs:127-165 | dropping just the strong handles lets a drain complete, whatever weak handles and disabled upgraders remain |
| `Drain.DisabledUpgradeBlocksNothing` | crates/core/src/drain.rs:135-150 | upgrading with a disabled upgrader holds no drain back |
| `Drain.HeldUntilDropped` | crates/core/src/drain.rs:135-228 | through any run a handle holds back the drain it held back, whatever it is turned into, until it is dropped or disabled |
| `Drain.ConnectionHoldsDrain` | crates/core/src/drain.rs:202-228 | until dropped, a wrapped connection stays one and keeps its drain and its signal |
| `Drain.CopiesHold` | crates/core/src/drain.rs:135-165 | clones, weak halves, upgraders and upgraded watches hold and watch what they were made from |
| `Drain.ChannelsAre` | crates/core/src/drain.rs:178-199 | a drain can complete exactly once it was started and no sender is left; what starting, dropping and completing do to a channel |
| `Drain.StartSignals` | crates/core/src/drain.rs:189-193 | once started a drain is signalled for good, in its mode |
| `Drain.ToldOnlyIfSent` | crates/core/src/drain.rs:211-228 | over any run a connection is told to shut down, and a wait ends, only if its own drain was started, in the mode it is then told, or can no longer be, with an immediate one |
| `Drain.ShutDownAtMostOnce` | crates/core/src/drain.rs:304-321 | over any run a connection is told to shut down at most once, and exactly if it holds its guard |
| `Drain.PolledAfterSignal` | crates/core/src/drain.rs:311-320 | a connection polled after its drain was started or given up has been told to shut down and holds a guard with the mode sent |
| `CelProperties.Walk.Properties` | crates/agentgateway/src/cel/mod.rs:324-371 | the walk on its shared list and path computes the collection function, leftover path included |
| `CelProperties.Walk.PropertiesEach` | crates/agentgateway/src/cel/mod.rs:349-363 | the loops over arguments, items and entries do too |
| `CelProperties.FirstsAreVisible` | crates/agentgateway/src/cel/mod.rs:324-371 | whatever path is left over, the first tokens collected are exactly the identifiers in the positions visited |
| `CelProperties.FirstsAreIdents` | crates/agentgateway/src/cel/mod.rs:324-371 | if no ternary middle, index or field value mentions an identifier, they are exactly the expression's identifiers |
| `CelProperties.PropsAreRead` | crates/agentgateway/src/cel/mod.rs:324-371 | for every expression the walk collects what a reading from left to right does: each visited identifier with the attributes met since the last identifier or call |
| `CelProperties.PropsAreChains` | crates/agentgateway/src/cel/mod.rs:324-371 | if attributes are selected from identifiers and calls only, the paths collected are exactly the attribute chains of the visible uses, in order, and no path is left over |
| `CelProperties.EvalReadsIdents` | crates/agentgateway/src/cel/mod.rs:220-223 | for any meaning of operators, functions and binding macros, evaluation reads no variable but those |
| `CelProperties.EvalReadsFree` | crates/agentgateway/src/cel/mod.rs:220-223 | if just the given functions bind a variable, it reads none but those not so bound |
| `CelContext.AttributesAre` | crates/agentgateway/src/cel/mod.rs:243-253 | which attribute each collected path is recorded as, the three two-token ones included |
| `CelContext.ContextIs` | crates/agentgateway/src/cel/mod.rs:193-213 | the five variables of a context and what each is: `mcp` always what was passed, a gated one only if registered, else null |
| `CelContext.LoadedIff` | crates/agentgateway/src/cel/mod.rs:236-260 | a variable is loaded exactly if some collected path starts with it and is not one of the two-token paths recorded under their own name |
| `CelContext.TidyLoadedIff` | crates/agentgateway/src/cel/mod.rs:236-260 | for an expression of that form: exactly if it has a visible use from which `body` (of `request`), `prompt` or `completion` (of `llm`) is not selected |
| `CelContext.ContextBuilder.RegisterExpression` | crates/agentgateway/src/cel/mod.rs:103-109 | whatever is registered and in whatever order, the attributes are the union of those of everything registered, and contain those of each |
| `CelContext.RegisteredSuffices` | crates/agentgateway/src/cel/mod.rs:103-136 | if the expressions registered together load every gated identifier of one, it evaluates as with everything loaded |
| `CelContext.RegisteringIsEnough` | crates/agentgateway/src/cel/mod.rs:103-128 | a registered expression of that form that has such a use of each gated variable it mentions evaluates as with everything loaded |
| `CelContext.HidingNothingIsEnough` | crates/agentgateway/src/cel/mod.rs:103-128 | so does a registered expression of any form that hides no identifier and of which no special path is collected |
| `CelContext.FreeLoadedIsEnough` | crates/agentgateway/src/cel/mod.rs:236-260 | an expression that loads each gated variable it mentions free evaluates as with everything loaded, for every type of values, every meaning and every context |
| `CelContext.EnoughIffLoaded` | crates/agentgateway/src/cel/mod.rs:236-260 | for ternary-free expressions over the context variables and those bound by macros, registering one is enough under every meaning, already under every one over two values, and in every context exactly if it loads each gated variable it mentions free |
| `CelContext.EnoughIff` | crates/agentgateway/src/cel/mod.rs:236-260 | if attributes are selected from identifiers and calls only: exactly if each gated variable it mentions has a visible use from which `body`, `prompt` or `completion` is not selected |
| `CelContext.TernaryMiddleFallsShort` | crates/agentgateway/src/cel/mod.rs:326-333 | it is not for a ternary whose middle alone mentions a variable |
| `CelContext.IndexFallsShort` | crates/agentgateway/src/cel/mod.rs:337-342 | nor for an index that mentions one: `{"GET": 1}[request.method]` |
| `CelContext.BodyFallsShort` | crates/agentgateway/src/cel/mod.rs:246-251 | nor for `request.body`, recorded without `request` |
| `CelContext.LeftoverPathFallsShort` | crates/agentgateway/src/cel/mod.rs:337-370 | nor where an attribute of a literal is left on the path and turns a use of `request` into one of `request.body`: `[{"body": 1}.body, request]` |
| `CelPath.Parse` | crates/agentgateway/src/cel/mod.rs:410-433 | the character loop computes the parsing function, and yields at least one token |
| `CelPath.PrintIs` | crates/agentgateway/src/cel/mod.rs:389-402 | a token without dots is printed as it is, a dot in a token after a backslash, and a dot between tokens |
| `CelPath.RoundTrip` | crates/agentgateway/src/cel/mod.rs:389-433 | parsing a printed path gives back its tokens if there is one and none contains a backslash |
| `CelPath.RoundTripIff` | crates/agentgateway/src/cel/mod.rs:389-433 | and only then |
| `CelPath.ParseNoHeavier` | crates/agentgateway/src/cel/mod.rs:389-433 | parsing what was printed never yields more characters and tokens than were printed |
| `PathRewrite.MatchIffSegments` | crates/agentgateway/src/http/route.rs:114-121 | the trim, strip and boundary test holds exactly if, trailing slashes aside, the prefix's segments begin the path's |
| `PathRewrite.RewritePath` | crates/agentgateway/src/http/filters.rs:211-246 | exactly when each error is given; otherwise the path each kind of rewrite gives, followed by a question mark and the original query exactly if there was one |
| `PathRewrite.InRangeIffSafe` | crates/agentgateway/src/http/filters.rs:234-234 | splitting is in range on every matched request path (empty, an asterisk, or from the root) exactly if the prefix has no trailing slash, or no leading one and is not an asterisk and slashes |
| `PathRewrite.RootOutOfRange` | crates/agentgateway/src/http/filters.rs:234-234 | the root prefix matches the empty path of a CONNECT request, and splitting that at the prefix is out of range |
| `PathRewrite.EveryPathInRangeIff` | crates/agentgateway/src/http/filters.rs:234-234 | over every path at all, splitting a matched one is in range exactly if the prefix has no trailing slash |
| `PathRewrite.MatchedSplitsAtBoundary` | crates/agentgateway/src/http/filters.rs:227-244 | a path that matches a prefix without trailing slash is split at a segment boundary |
| `PathRewrite.RewriteReplacesSegments` | crates/agentgateway/src/http/filters.rs:227-244 | a prefix rewrite of a path matched by a prefix without trailing slash replaces the prefix's segments by the replacement's and keeps the others |
| `PathRewrite.ReplacesIff` | crates/agentgateway/src/http/filters.rs:227-244 | a prefix rewrite does so on every matched request path on which it stays in range exactly if the prefix is empty or lacks a leading or a trailing slash |
| `PathRewrite.TrailingSlashesCorrupt` | crates/agentgateway/src/http/filters.rs:227-244 | prefix `/foo//` and replacement `/x` turn the matched path `/foo/bar` into `/x/ar` |
| `PathRewrite.RewriteRootReplacesSegments` | crates/agentgateway/src/http/filters.rs:227-244 | the root prefix matches every request path but the asterisk; what it does to the segments of those on which it stays in range, with its two special cases |

## Left out

- RateLimiter.Ratelimiter.TryWaitN: the tokens of one claim are taken to fit in 64 bits beside the bucket, and the refill amount to be positive, without which a call need not return; interleavings without the first are in `RateLimiterSteps.Conservation`, and the second is exact by `RateLimiter.ReturnsIff`.
- RateLimiterLimits.KeepsRateIff: for capacities below 2^61, and so are `RateLimiterLimits.KeepsCapacityIff` and `RateLimiterLimits.WindowHoldsIff`; the runs that break the rates need a few times the capacity to fit in 64 bits.
- CelContext.EnoughIff: ternaries are excluded, since whether a branch is ever taken is not visible in the expression; `RegisteringIsEnough` covers them one way, `TernaryMiddleFallsShort` shows where they fail.
- HbonePool.StreamAccounting: equality is modulo 2^16, the counter's width.
- Overflow of the 64-bit clock and of the 32-bit pool id, and the wrap-around of the round-robin index.
- Memory orderings weaker than sequential consistency.
- Cancellation of a task in mid-await: a cancelled send leaves its increment in place.
- Progress of pool tasks that lost the race to open a connection when the winner fails or allows one stream only.
- TLS, sockets, HTTP/2 and gRPC framing, the inner LRU pool and the DNS resolver, except for what is used of them.
- In-place update of the pool's, the DNS cache's and the drain channel's state: these are shared by tasks and so modelled as state machines on values.
- The write half of the HTTP/2 adapter, shutdown, and the mapping of I/O errors.
- Timing of the DNS refresh, and its failed lookups other than as empty answers.
- Loading of the body, prompt and completion fields within `request` and `llm`, and the parser and function library of CEL.
- Route precedence, hostname, header, query, method and regular expression matching.
- Parsing of the rewritten path and query, host rewriting, redirects and header modification; paths are sequences of characters, not bytes.
- Remote rate limiting, authentication, external processing, LLM providers, MCP and A2A, configuration, telemetry and the user interface.

# Verified models of the analytics platform's stateful core

This project models, in Dafny, the parts of the analytics platform whose correctness depends on
sequences of events rather than on one call, and proves what they promise over every run:

- **The realtime snapshot hub** (`Hub`, `HubSafety`, `HubGreetings`, `HubEffects`, `HubStaleness`, `HubWorstGap`,
  `HubStarvation`, `SiteHubs`, `HubManagers`, `HubArrivals`): clients that join and leave, pub/sub updates, a
  coalescing timer, a periodic refresh, presence reads that may fail, revocations. `Hub` is the transition function,
  `SiteHubs.SiteHub` the object whose methods are proved against it, `HubManagers` the map of hubs a process keeps,
  `HubArrivals` the same map while calls interleave.
- **One connected stream** (`Streams`, and on a clock `StreamTiming`): the chain that serialises writes, the close
  that travels through it, and the epoch checks that revoke it.
- **Tracker delivery** (`Batches`, `RetryQueues`, `Transports`): buffer, batches, retry queue, posts answered in
  any order.
- **Engagement clocks** (`Engagements`): incremental interval arithmetic against sets of instants.
- **Canonical event printing** (`Canonical`, with `Text`): the text behind the idempotency decision.
- **The query gateway**: cache keys (`CacheKeys`) and what the cacheable operations bind (`QueryFamilies`), the
  LRU cache (`QueryCaches`), the read-through path (`ReadThrough`), replay defence (`ReplayDefence`, with
  `Instants`), and what three families of statements mean over finite
  lists of rows: charts and totals (`Rollups`, row by row in `RollupTotals`), versioned session facts
  (`SessionReads`, session by session in `SessionCounts`), the keyset-paginated transactions list (`Transactions`,
  row by row in `TransactionRows`).

Conventions. Callbacks are events that carry one clock reading (milliseconds, an integer). A presence read
that completes resumes all its awaiters in the same event. State that the source updates in place is a class
whose methods are proved equal to a function of the old state; the theorems are about those functions, over
all runs. History (ghost fields of classes, log fields of states) records what was sent, dropped or announced
and is never read by the modelled code. Abstract parameters stand for what the model cannot see: the size of a
serialised batch, a beacon's acceptance, signature and body checks, time zones.

`dafny verify dfyconfig.toml` checks everything.

## Where code and documentation part ways

- `apps/realtime/src/hub.ts:390-395` says that joiners cannot starve connected clients. They can: a joiner's own
  read moves `lastComputeMs`, the next tick then skips, and this repeats for as long as joiners come
  (`HubStarvation.JoinersStarveTheHub`). The staleness bound therefore counts such reads, with the failed ones.
- `apps/realtime/src/hub.ts:382-384` gives the worst gap between broadcasts as two ticks, within the client's limit.
  The code's worst gap is `HubStaleness.WorstGap`, and a period more for each setback: a read that fails, or that a
  joiner makes for itself. On-time runs with any number of setbacks reach it (`HubWorstGap.WorstGapIsReached`): at
  the default window and period 31.998 s (`HubWorstGap.DefaultGapExceedsTwoTicks`), at the slowest period the policy
  admits 81.998 s against a limit of 40 s (`HubWorstGap.SlowestPeriodGoesStale`). Without setbacks the limit holds
  exactly when window and period together are at most the resend floor and two milliseconds
  (`HubWorstGap.PolicyFreshness`).
- `apps/realtime/src/hub.ts:39-42` gives 30 s as the gap after one failed recompute and chose the limit of 40 s for
  it. At the default window and period one failed read can take the gap to 41.998 s
  (`HubWorstGap.OneFailureGoesStale`).
- `apps/realtime/src/hub.ts:446-449` says that a hub lives from its first client to its last. The client that makes
  the hub is added only after two subscriptions; another one that comes and leaves meanwhile takes the hub out of the
  map, and the first ends up in a hub no message reaches (`HubArrivals.VisitorStrandsTheFirst`). Streams stay
  reachable exactly in the runs without such a removal (`HubArrivals.AlwaysReachableExactly`).
- `apps/realtime/src/stream.ts:213-214` says that a revoked stream is cut within one check interval. The interval
  runs to the next question; its answer, and for a site a second one, comes on top (`StreamTiming.CutWithin`). One
  interval is enough exactly when answers take no time (`StreamTiming.CutWithinIntervalExactly`).
- `apps/realtime/src/hub.ts:107-110` says a recreated hub never reuses an id. That holds exactly when the old hub
  completed no more reads than milliseconds passed between the two creations (`HubSafety.RecreatedIdsAboveExactly`);
  reads of at least a millisecond suffice (`HubSafety.RecreatedIdsAbove`), and `HubSafety.InstantReadsCollide` is a
  run that fails it.
- `apps/tracker/src/storage.ts:124` dates an entry from its first queueing, and lines 131-134 promise that none
  outlives the server's 24 hours. The code restamps on every push, so the lifetime counts from the latest one
  (`RetryQueues.RequeueRenewsLife`). An event is sure to be handed out within its lifetime from its first push exactly
  when no later push has stamped it anew (`RetryQueues.YoungExactly`).
- `apps/query-gateway/src/query-cache.ts:41-44` says that requests which differ in any bound value never share a
  key. Funnels do: over every site, range and window, the steps "a", "b&step_2=c" and the steps "a&step_2=b", "c"
  (`QueryFamilies.FunnelsCollide`, for any three texts). A funnel whose steps hold no `&` shares its key with no other
  request (`QueryFamilies.CleanFunnelsStandAlone`), every other cacheable family keeps the promise
  (`QueryFamilies.FamilyKeysDetermine`), and across sites all of them do (`QueryFamilies.FamilyNeverMixesSites`).
- `apps/query-gateway/src/nonce-store.ts:20-21` and the ceiling of `apps/query-gateway/src/auth.ts:162-168` suppose
  that both ends of a signature's window are dates. The format check of `apps/query-gateway/src/auth.ts:70` admits
  texts `Date.parse` reads as no number. With such an expiry the in-memory store accepts a request again
  (`ReplayDefence.ReplayedExactlyWhenUndated`); with such a start any lifetime passes
  (`ReplayDefence.CeilingHoldsExactlyWhenDated`, `ReplayDefence.UndatedStartExample`).
- `apps/query-gateway/src/operations.ts:2406` calls a cursor at the epoch the first page. It opens an empty page
  (`Transactions.EpochIsNoFirstPage`); the first page is `to` with an empty id, as line 2430 says.
- `apps/query-gateway/src/operations.ts:2399-2402` promises pages that neither skip nor repeat. The attributions are
  grouped by provider and joined by id alone (lines 2503-2514), so two providers that use one id make each of its
  transactions appear twice (`Transactions.TwoProvidersListTwice`); `Transactions.CompleteExactlyWhen` is the exact
  condition.

## Model

| member | source | states |
|---|---|---|
| HubSafety.ReachableInv | apps/realtime/src/hub.ts:95-432 | every reachable hub state keeps the invariant: flight bookkeeping, ids that count reads, the degraded/recovered discipline, agreement of views |
| HubSafety.SingleFlight | apps/realtime/src/hub.ts:331-338 | at most one presence read is in flight, in every run |
| HubSafety.DegradedThenRecovered | apps/realtime/src/hub.ts:307-328 | between two degraded announcements there is a recovered one |
| HubSafety.RecoveredThenSnapshot | apps/realtime/src/hub.ts:318-321 | a recovered announcement is followed at once by a snapshot broadcast with an id above all announced before |
| HubSafety.RecoveryCarriesSnapshot | apps/realtime/src/hub.ts:307-338 | however many callers share the read, every connected client gets recovered and then the fresh snapshot, once, in one step |
| HubSafety.IdNamesOneSnapshot | apps/realtime/src/hub.ts:105-114 | a client's ids never decrease and two snapshot frames with one id are the same frame |
| HubSafety.SuppressionIsHarmless | apps/realtime/src/hub.ts:397-417 | when a computed snapshot is withheld, every client greeted before the last broadcast already holds that presence, from a broadcast younger than the floor |
| HubGreetings.NoSilentStream | apps/realtime/src/hub.ts:207-246 | every client that joined has had a first frame or waits for the read in flight; between reads everyone has one |
| HubGreetings.FirstFrameWelcomes | apps/realtime/src/hub.ts:236-246 | that first frame is exactly one frame: the cached snapshot, or degraded |
| HubSafety.IdsBehindClock | apps/realtime/src/hub.ts:127-131 | if reads take a millisecond, ids never overtake the clock |
| HubSafety.IdsCountReads | apps/realtime/src/hub.ts:112-131 | a hub's id is its creation time plus its successful reads, and no frame it sent names more |
| HubSafety.RecreatedIdsAboveExactly | apps/realtime/src/hub.ts:105-131 | every snapshot id of every run of a hub recreated later is above the old hub's id exactly when the old one completed at most as many reads as milliseconds passed between the creations |
| HubSafety.RecreatedIdsAbove | apps/realtime/src/hub.ts:105-131 | so it is when every read takes a millisecond and the old hub's callbacks are over |
| HubSafety.InstantReadsCollide | apps/realtime/src/hub.ts:105-111 | two hubs made in one millisecond whose reads settle in it give one id to different snapshots |
| HubSafety.RevokedIs | apps/realtime/src/hub.ts:277-296 | a control message cuts exactly the clients whose subject and epoch, or site epoch, it overtakes |
| HubSafety.WithoutIs | apps/realtime/src/hub.ts:155-162 | leaving removes exactly that client |
| HubEffects.FailureIsAnnounced | apps/realtime/src/hub.ts:307-328 | in every run: a read to be broadcast fails in a hub that is not degraded, and every connected client is sent `degraded` in that step, announced once (if the hub never read with success and a joiner's turn comes first, each client is told by its own first frame instead); in a degraded hub nothing is announced |
| HubEffects.SuccessIsShown | apps/realtime/src/hub.ts:307-425 | in every run: a read to be broadcast succeeds in a hub that is not degraded, and every connected client is sent that snapshot under the next id, announced once, unless the same presence was broadcast less than 20 s ago |
| HubEffects.ControlCuts | apps/realtime/src/hub.ts:277-296 | a control message for `site` cuts the connected clients with a lower site epoch, one for any other subject that subject's clients with a lower epoch: a disconnect frame and a close for these, nothing for the rest |
| HubEffects.ShutdownCuts | apps/realtime/src/hub.ts:299-305 | closing all sends each connected client a disconnect frame and closes it, and stops both timers |
| HubEffects.JoinerIsServed | apps/realtime/src/hub.ts:226-246 | a joiner gets the snapshot at hand without a read exactly when there is one and it names an id at or above the current one or the last read began within the window; any other waits for a read |
| HubEffects.LeaverIsGone | apps/realtime/src/hub.ts:155-162 | leaving removes that client only, and stops the refresh with the last one |
| HubEffects.WhoReads | apps/realtime/src/hub.ts:186-262 | exactly when updates, ticks and the trailing timer begin or join a read for everyone, and what they do to the timers |
| HubStaleness.TimersHold | apps/realtime/src/hub.ts:186-199 | with timers on time, the refresh is never more than a period away and the trailing timer never past its window |
| HubStaleness.TrailingHolds | apps/realtime/src/hub.ts:249-262 | in every on-time run the trailing timer, at a broadcast, ends the window of the last read or is due at once |
| HubStaleness.StalenessBound | apps/realtime/src/hub.ts:368-425 | on an on-time stretch whose reads settle at once, no callback finds the last broadcast older than the worst gap (period + window - 1 + the lesser of floor - 1 and the periods of the windows that fit below the floor) and a period for each read since then that failed or was a joiner's own |
| HubWorstGap.WorstGapIsReached | apps/realtime/src/hub.ts:186-262 | for every window up to the period and every number of such reads, some reachable run finds exactly that age |
| HubWorstGap.FreshExactlyWhen | apps/realtime/src/hub.ts:378-384 | no run with at most k such reads takes a snapshot past the age at which the client drops it, exactly when the worst gap and k periods are within that age |
| HubWorstGap.PolicyFreshness | packages/domain/src/policy.ts:102-126 | without such reads, for every window the policy admits, that is exactly: period + window at most floor + 2 ms |
| HubWorstGap.DefaultGapExceedsTwoTicks | apps/realtime/src/hub.ts:382-384 | at the default configuration a run without such reads has a gap of 31.998 s, more than two ticks |
| HubWorstGap.OneFailureGoesStale | apps/realtime/src/hub.ts:39-42 | at the default configuration the limit holds without failed reads and not with one, which a run takes to 41.998 s |
| HubWorstGap.SlowestPeriodGoesStale | packages/domain/src/policy.ts:126 | at the slowest admitted period a run without such reads has a gap of 81.998 s, more than twice the limit |
| HubStarvation.JoinersStarveTheHub | apps/realtime/src/hub.ts:226-246 | for every window up to the period, with joiners reading just before each tick any number of periods pass without an announcement |
| HubStarvation.IdleIsReachable | apps/realtime/src/hub.ts:149-153 | the starting state of that starvation is reached by an on-time run, for every such window |
| SiteHubs.SiteHub.SendInitial | apps/realtime/src/hub.ts:226-246 | the method computes the model's first-frame transition |
| SiteHubs.SiteHub.OnUpdate | apps/realtime/src/hub.ts:249-262 | the method computes the model's update transition and nothing else changes |
| SiteHubs.SiteHub.OnRefreshTimer | apps/realtime/src/hub.ts:186-199 | the method computes the model's tick |
| SiteHubs.SiteHub.OnControl | apps/realtime/src/hub.ts:277-296 | the loop cuts exactly the revoked clients, each with a disconnect frame and a close |
| SiteHubs.SiteHub.CompleteRead | apps/realtime/src/hub.ts:331-366 | settling a read and resuming its awaiters in turn is the model's completion step |
| SiteHubs.SiteHub.FinishBroadcast | apps/realtime/src/hub.ts:307-328 | the continuation of a broadcast read is the model's latch and fan-out |
| SiteHubs.SiteHub.BroadcastCurrent | apps/realtime/src/hub.ts:397-425 | suppressed, or sent to every client with the bookkeeping moved |
| SiteHubs.SiteHub.CloseAll | apps/realtime/src/hub.ts:299-305 | every client gets a disconnect and a close |
| HubManagers.EveryHubIsARun | apps/realtime/src/hub.ts:451-527 | every hub a process holds is in a state some run of one hub reaches, so all hub theorems hold of it |
| HubManagers.HubExactlyWhileViewed | apps/realtime/src/hub.ts:445-492 | a site has a hub exactly while it has a viewer, and the hub's clients are the viewers the calls leave |
| HubManagers.HubManager.AddClient | apps/realtime/src/hub.ts:461-480 | a hub is made on the first viewer; no other hub changes |
| HubManagers.HubManager.RemoveClient | apps/realtime/src/hub.ts:482-492 | a hub is dropped with its last viewer; no other hub changes |
| HubManagers.HubManager.Dispatch | apps/realtime/src/hub.ts:503-526 | a message reaches at most the hub its channel names; an unparsable or incomplete control message changes nothing |
| HubManagers.ChannelsReachTheirSite | apps/realtime/src/hub.ts:503-526 | a site's two channels are routed to that site, whatever its name, and told apart |
| HubManagers.MessagesMoveTheirHub | apps/realtime/src/hub.ts:503-526 | a message on a site's channel takes that site's hub through the update or the control message and leaves the others alone; anything else changes nothing |
| HubManagers.HubsMoveAlone | apps/realtime/src/hub.ts:451-527 | every call and every callback of one site leaves the hubs of the others as they were |
| HubManagers.HubManager.DispatchControl | apps/realtime/src/hub.ts:512-525 | a control message for a site changes that site's hub only |
| HubArrivals.ReachableExactly | apps/realtime/src/hub.ts:461-492 | while calls interleave, a step keeps every stream in the hub its site's messages go to exactly when it does not remove the last client of a hub that another stream still awaits |
| HubArrivals.AlwaysReachableExactly | apps/realtime/src/hub.ts:461-492 | over whole runs: every stream is reachable throughout exactly when no step does that |
| HubArrivals.CarefulRunsReachAll | apps/realtime/src/hub.ts:445-450 | in those runs a site has a hub exactly while some stream has come for it and not gone |
| HubArrivals.StrandedForGood | apps/realtime/src/hub.ts:503-526 | a stream left in a dropped hub stays out of reach of every later message for its site |
| HubArrivals.VisitorStrandsTheFirst | apps/realtime/src/hub.ts:474-479 | a visitor that comes and goes during the first viewer's subscriptions leaves it in a hub the map no longer has |
| Streams.OpenMeansUnrefuted | apps/realtime/src/stream.ts:179-242 | while no close is requested, no check begun after a bump has ended and no revoking control was handled |
| StreamTiming.CutWithin | apps/realtime/src/stream.ts:174-244 | with the interval timer on time and answers within a delay, no event finds a stream open later than an interval and one delay after its subject's epoch moved past the claims, two delays after its site's did |
| StreamTiming.SlowestSiteCut | apps/realtime/src/stream.ts:211-241 | for answers of up to half an interval, a run in which a site's revocation takes exactly that long |
| StreamTiming.SlowestSubjectCut | apps/realtime/src/stream.ts:182-210 | and one in which a subject's does |
| StreamTiming.CutWithinIntervalExactly | apps/realtime/src/stream.ts:211-214 | every revoked stream is cut within one check interval exactly when answers take no time |
| StreamTiming.LaterIsRun | apps/realtime/src/stream.ts:179-244 | the events of a timed run are a run of the stream, so all other results hold of it |
| Streams.WrittenIsPrefix | apps/realtime/src/stream.ts:81-138 | written frames are a prefix of the enqueued ones, ending no later than the disconnect, and exactly there if the connection holds |
| Streams.CutOffIsFinal | apps/realtime/src/stream.ts:125-138 | whatever happens later, nothing enqueued after the disconnect is written |
| Streams.AskedToCloseExactly | apps/realtime/src/stream.ts:179-242 | a stream is asked to close exactly when a control overtook its claims or a check was answered with another or no subject epoch, or an unreachable or newer site epoch; one that none of these met never is |
| Streams.HandedAndClosed | apps/realtime/src/stream.ts:81-138 | a tick hands over a keepalive, a refutation a disconnect; a stream is closed exactly by its client going, a failed write or the turn of its close |
| Streams.OpenStreamsWrite | apps/realtime/src/stream.ts:81-91 | a stream that is not closed has written everything that had its turn |
| Streams.ClosedWritesNothing | apps/realtime/src/stream.ts:81-91 | a closed stream writes nothing more, whatever comes |
| Streams.StreamClient.RunNext | apps/realtime/src/stream.ts:81-91 | one link of the write chain, a failed write closing the stream |
| Streams.StreamClient.OnSubjectAnswer | apps/realtime/src/stream.ts:182-210 | unreachable, absent or different epochs disconnect; only an equal one goes on |
| Streams.StreamClient.OnSiteAnswer | apps/realtime/src/stream.ts:218-241 | unreachable or newer site epochs disconnect, absent reads as 0 |
| Batches.ChunkEvents | apps/tracker/src/transport.ts:42-71 | the grouping loop and the explicit stack terminate and produce the recursive split |
| Batches.ChunkSplits | apps/tracker/src/transport.ts:42-71 | batches concatenate to the input in order; each is non-empty, within the event limit, and fits the byte limit or is a single event |
| Batches.FittingGroupsStayWhole | apps/tracker/src/transport.ts:62-65 | nothing is split that fits |
| Batches.HundredAtATime | apps/tracker/src/transport.ts:43-53 | where bytes are no issue every batch but the last holds a hundred events |
| Batches.PiecesAreLarge | apps/tracker/src/transport.ts:55-69 | if m events always fit, every piece of a split group holds at least half of that |
| Batches.CutInTheMiddle | apps/tracker/src/transport.ts:66-67 | a group over the byte limit is cut in the middle, the first half the larger one |
| RetryQueues.TakeIsLongestSuffix | apps/tracker/src/storage.ts:157-178 | a take returns exactly the longest suffix of what was pushed with at most 200 entries, all pushed less than the TTL ago |
| RetryQueues.AdmissibleMeans | apps/tracker/src/constants.ts:42-45 | those limits are two hundred entries and twenty-four hours |
| RetryQueues.QueueIsSuffix | apps/tracker/src/storage.ts:166-178 | after any run of pushes the live queue is that suffix |
| RetryQueues.RequeueRenewsLife | apps/tracker/src/storage.ts:166-171 | an event pushed again lives a full TTL from then |
| RetryQueues.YoungExactly | apps/tracker/src/storage.ts:123-178 | whenever the take comes, an event the queue holds is handed out less than the TTL after its first push exactly when its latest push is the first one |
| RetryQueues.RetryQueue.PushAll | apps/tracker/src/storage.ts:166-171 | expired entries out, new ones at the end, the oldest dropped at the cap; the entries stay the queue of the pushes so far |
| RetryQueues.RetryQueue.Take | apps/tracker/src/storage.ts:173-178 | of all pushes since the last take, the longest suffix that cap and TTL allow, with a clock that never goes back; afterwards nothing counts as pushed |
| Transports.EveryEventInOnePlace | apps/tracker/src/transport.ts:99-186 | over any interleaving every emitted event is in exactly one of buffer, queue, flight, delivered, refused, evicted, expired |
| Transports.BufferWillFlush | apps/tracker/src/transport.ts:153-186 | a non-empty buffer has a timer due within the batch delay of its oldest event |
| Transports.EventsGo | apps/tracker/src/transport.ts:99-186 | in every run: a flush sends what was queued and alive, then what was buffered, in fitting batches, each posted, taken as a beacon or stored again; an answer of 200-299 delivers its batch, 429, 500 and above or no answer put its newest 200 events last in the queue, any other code refuses it for good; an event that may wait is buffered behind one timer of a second |
| Transports.Transport.FlushNow | apps/tracker/src/transport.ts:153-167 | queue first, then buffer, split and sent in order |
| Transports.Transport.EnqueueEvent | apps/tracker/src/transport.ts:175-186 | buffered, flushed at once or a flush scheduled |
| Transports.Transport.OnAnswer | apps/tracker/src/transport.ts:111-133 | success delivers, 429, 5xx and network errors requeue, anything else refuses for good |
| Engagements.ActiveTimeIsCoverage | apps/tracker/src/engagement.ts:35-51 | reported plus pending active time is the number of instants covered by a window some arming event opened and no hide cut |
| Engagements.VisibleTimeIsConserved | apps/tracker/src/engagement.ts:53-64 | reported plus pending visible time is the number of instants on screen |
| Engagements.EachCollectReportsAll | apps/tracker/src/engagement.ts:82-105 | only a collect reports, and its reports with those before count every instant covered and on screen up to it |
| Engagements.PayloadsAreSound | apps/tracker/src/engagement.ts:87-110 | every payload has 0 <= active <= visible |
| Engagements.Engagement.HandleActivity | apps/tracker/src/engagement.ts:42-51 | the handler extends or restarts the window as the model does |
| Engagements.Engagement.CollectPayload | apps/tracker/src/engagement.ts:87-110 | reads, resets and rearms as the model does |
| Canonical.SelfDelimiting | apps/collector/src/events.ts:88-99 | no printed value, followed by a separator, can be read as another, at any nesting |
| Canonical.CanonicalPrinting | apps/collector/src/events.ts:84-99 | two values print alike exactly when they are equal up to member order |
| Canonical.QuoteCut | apps/collector/src/events.ts:89-96 | a quoted string can be read back off any text it starts |
| CacheKeys.FullKeyParts | apps/query-gateway/src/route.ts:76-79 | equal keys agree in generation, operation and canonical parameters |
| CacheKeys.KeyIgnoresOrder | apps/query-gateway/src/query-cache.ts:38-55 | parameters in another order give the same key |
| CacheKeys.KeysNeverMixSites | apps/query-gateway/src/query-cache.ts:46-55 | for any bound names, keys never mix sites exactly when no free value is bound on each side of the site in name order |
| CacheKeys.KeysDetermineExactly | apps/query-gateway/src/query-cache.ts:38-55 | for any bound names, equal keys mean equal parameters exactly when at most one name is free text |
| QueryFamilies.FamilyNeverMixesSites | apps/query-gateway/src/query-cache.ts:16-20 | whatever a cacheable operation binds, equal keys mean one site |
| QueryFamilies.FamilyKeysDetermine | apps/query-gateway/src/query-cache.ts:41-44 | equal keys mean equal parameters for exactly the cacheable families other than the funnel, filter lists included |
| QueryFamilies.FunnelsCollide | apps/query-gateway/src/operations.ts:1712-1726 | over every site, range and window, and for all texts x, y, z, the funnel steps x, y&step_2=z and x&step_2=y, z share a key |
| QueryFamilies.CleanFunnelsStandAlone | apps/query-gateway/src/query-cache.ts:41-44 | a funnel none of whose steps holds an & shares its key with no other request |
| QueryCaches.QueryCache.Get | apps/query-gateway/src/query-cache.ts:81-94 | a live entry is returned and becomes the youngest, an expired one is dropped |
| QueryCaches.QueryCache.Set | apps/query-gateway/src/query-cache.ts:102-113 | the entry is youngest, the oldest leave until the bound holds |
| QueryCaches.RunBounded | apps/query-gateway/src/query-cache.ts:102-113 | in every run the cache stays within its bound, keys distinct |
| QueryCaches.EvictedExactlyWhenCold | apps/query-gateway/src/query-cache.ts:81-113 | after its last use an entry stays while fewer than the bound of other keys are used, and (nothing expiring) no longer |
| QueryCaches.HitIsLastSet | apps/query-gateway/src/query-cache.ts:81-113 | a hit is the value last set, younger than its TTL; and a warm, young entry does hit |
| ReadThrough.Gateway.Ask | apps/query-gateway/src/route.ts:60-102 | unknown, served from the cache, or missed |
| ReadThrough.Gateway.Finish | apps/query-gateway/src/route.ts:134-142 | the answer cut at the row cap, stored with the operation's TTL if cacheable |
| ReadThrough.AfterIsRun | apps/query-gateway/src/route.ts:76-142 | the path is a run of the cache, so size and recency laws carry over |
| ReadThrough.ServedIsAnAnswer | apps/query-gateway/src/route.ts:76-142 | a served answer is the newest the reader gave for the same generation, operation and parameters, within its TTL, cut at the cap |
| ReadThrough.ServedForItsSite | apps/query-gateway/src/route.ts:70-82 | a served answer was given for the request's own site and, except to a funnel, for its very parameters |
| ReadThrough.ServedRows | apps/query-gateway/src/route.ts:134-141 | a served answer is the first rows of one the reader gave, as many as the operation's cap admits, marked truncated exactly when some were left out, and within the lifetime of its layer |
| ReadThrough.ServedWhileItLives | apps/query-gateway/src/route.ts:134-141 | after an answer its request is served exactly while the lifetime lasts, the long one exactly for a finalized operation where it is configured, and only if the operation is cacheable |
| ReadThrough.UnknownExactly | apps/query-gateway/src/route.ts:60-80 | a request is unknown exactly when its operation is not registered |
| ReadThrough.AskedAgain | apps/query-gateway/src/route.ts:134-142 | a stored answer is served until its TTL ends and not after |
| ReplayDefence.InMemoryNonceStore.Consume | apps/query-gateway/src/nonce-store.ts:43-55 | sweep at the threshold, refuse a live nonce, otherwise record it |
| ReplayDefence.InMemoryNonceStore.Prune | apps/query-gateway/src/nonce-store.ts:62-66 | the loop drops exactly the entries that are past |
| ReplayDefence.SignedRequestAuth.Authenticate | apps/query-gateway/src/auth.ts:100-215 | the guards in order, the nonce last, the key id recorded on acceptance only |
| ReplayDefence.AcceptedExactly | apps/query-gateway/src/auth.ts:101-212 | in every run a request is accepted exactly when its signature verifies, its scheme, headers, audience, key and body hash are right, its dates allow the moment, and no accepted request spent its nonce with a signature still alive |
| ReplayDefence.RefusedBecause | apps/query-gateway/src/auth.ts:101-212 | each refusal names the first thing missing, in the order the guards stand |
| ReplayDefence.PruningForgetsOnlyTheDead | apps/query-gateway/src/nonce-store.ts:62-66 | no nonce whose signature could still verify is forgotten |
| ReplayDefence.NonceUsedOnce | apps/query-gateway/src/nonce-store.ts:43-55 | a nonce accepted with a date is not accepted again before that date |
| ReplayDefence.AcceptedAtMostOnce | apps/query-gateway/src/auth.ts:160-211 | a dated request is accepted at most once in any run |
| ReplayDefence.ReplayedExactlyWhenUndated | apps/query-gateway/src/auth.ts:83-91 | sent again, a request is accepted exactly when its expiry is not a date |
| ReplayDefence.UndatedExample | apps/query-gateway/src/auth.ts:70-91 | a thirteenth month is in the pinned format and no date, and a request that expires then is accepted again |
| ReplayDefence.AcceptedWithinCeiling | apps/query-gateway/src/auth.ts:162-177 | an accepted request with two dates has a positive window within the ceiling and is inside it, skew allowed |
| ReplayDefence.CeilingHoldsExactlyWhenDated | apps/query-gateway/src/auth.ts:162-177 | the moments at which a window passes are bounded by lifetime and skew exactly when both its ends are dates |
| ReplayDefence.UndatedStartExample | apps/query-gateway/src/auth.ts:83-91 | issued in a thirteenth month and expiring in 9999, a request passes at any time before |
| Instants.ThirteenthMonth | apps/query-gateway/src/auth.ts:70-91 | the text is admitted by the format and read as no number |
| Instants.NextDay | apps/query-gateway/src/auth.ts:70-99 | midnights are a day apart through every month and leap year, from the epoch on |
| Instants.ReadAsWritten | apps/query-gateway/src/auth.ts:70-99 | a text in the form reads as the instant its fields name, or as no date if one is out of bounds |
| ReplayDefence.ForgeriesLeaveNoTrace | apps/query-gateway/src/auth.ts:205-208 | leaving out of a run all requests whose signature does not verify changes nothing in the store |
| ReplayDefence.FullStoreIsSwept | apps/query-gateway/src/nonce-store.ts:20-60 | once the store is at its threshold, consuming a nonce leaves no entry that is past |
| ReplayDefence.StoresAgreeExactly | apps/query-gateway/src/nonce-store.ts:109-116 | the shared store gives the same verdicts as the in-memory one exactly when every request that reaches it is dated |
| Rollups.ChartEqualsTotals | apps/query-gateway/src/operations.ts:461-734 | for any rows, range, cutover and bucketing, a chart's events and pageviews sum to the overview and its visitors bracket the overview's |
| Rollups.PointIs | apps/query-gateway/src/operations.ts:491-531 | a chart point is its bucket's live rows plus its bucket's provider days |
| RollupTotals.OverviewIs | apps/query-gateway/src/operations.ts:319-323 | an overview is the plain sum over all rows of the site, in the range and from the cutover on, and all days of the run before it, with the distinct people of the page-view rows and nothing imported billable |
| RollupTotals.ChartPointIs | apps/query-gateway/src/operations.ts:470-520 | and a chart point the same over its bucket |
| RollupTotals.ChartBucketsAre | apps/query-gateway/src/operations.ts:470-520 | points ascend, one for each bucket with a counted row or day |
| RollupTotals.OtherRowsChangeNothing | apps/query-gateway/src/operations.ts:319-323 | a row of another site, out of the range or before the cutover changes neither, wherever it stands |
| RollupTotals.OtherDaysChangeNothing | apps/query-gateway/src/operations.ts:404-414 | nor does a day of another site or run, out of the range or not before the cutover |
| RollupTotals.RowAddsItself | apps/query-gateway/src/operations.ts:688-700 | a counted row adds its events, its billable events and, exactly if it is of page views, as many page views |
| RollupTotals.DayAddsItself | apps/query-gateway/src/operations.ts:720-735 | a counted day adds its page views, to events too, and its visitors, and nothing billable |
| Rollups.BucketsBegin | apps/query-gateway/src/operations.ts:585-650 | a day's bucket begins at its local midnight and a week's at its Monday's, for live rows and provider days alike |
| Rollups.DayPointsNeverMix | apps/query-gateway/src/operations.ts:383-415 | on a day chart a point is the import's before the cutover and live from it on |
| Rollups.OnlyTheCutoverWeekMixes | apps/query-gateway/src/operations.ts:636-666 | on a week chart only the cutover's own week can mix, when the cutover is not its Monday |
| Rollups.NoVisitorWithoutPageview | apps/query-gateway/src/operations.ts:469-478 | no point shows more visitors than page views |
| SessionReads.SupersededRowsChangeNothing | apps/query-gateway/src/operations.ts:1337-1358 | repeated or overruled versions, added anywhere, change no session read |
| SessionReads.RetractionRemovesOneSession | apps/query-gateway/src/operations.ts:1341-1355 | the newest, retracted version removes exactly that session |
| SessionCounts.LiveSessionsAre | apps/query-gateway/src/operations.ts:1350-1364 | a read's sessions are those of the site and the range whose newest version is no retraction, each once |
| SessionCounts.SessionPointIs | apps/query-gateway/src/operations.ts:1320-1327 | a chart point counts its bucket's sessions, those engaged and those not, and their page views and durations |
| SessionCounts.SessionBucketsAre | apps/query-gateway/src/operations.ts:1346-1367 | one point for each bucket with a session |
| SessionCounts.PageRowIs | apps/query-gateway/src/operations.ts:1501-1540 | a page's row counts the sessions that begin there, end there, begin there without engaging, and do either |
| SessionReads.PageReadAddsUp | apps/query-gateway/src/operations.ts:1502-1545 | entrances sum to the live sessions with an entry page; per page bounces are entrances, and sessions are entrances and exits with single-page sessions once |
| Transactions.ListingIs | apps/query-gateway/src/operations.ts:2404-2408 | the cursor before the grouping selects exactly the current rows past it |
| Transactions.PaginationIsComplete | apps/query-gateway/src/operations.ts:2393-2527 | with the join: given one place per object and one provider's attributions per id, the facts of n pages are the first n * limit of the range's descending list, and every current row is listed once when n reaches its length |
| TransactionRows.RowIs | apps/query-gateway/src/operations.ts:2490-2516 | every row of every page is a charge of the site and the range in its newest version, after the cursor, beside an attribution of the range that names it and is its provider's newest, or beside none exactly when none names it |
| TransactionRows.ShortPageHoldsAll | apps/query-gateway/src/operations.ts:2503-2517 | a page below its limit holds exactly these rows |
| TransactionRows.PagesHoldTheCharges | apps/query-gateway/src/operations.ts:2399-2402 | where nothing is shared, n pages are the first n times limit of the charges in effect, newest first, each beside its attribution |
| Transactions.CompleteExactlyWhen | apps/query-gateway/src/operations.ts:2503-2516 | every page size lists every current row once exactly when no two objects share instant and id and no id of theirs has attributions of two providers |
| Transactions.OneMatchExactly | apps/query-gateway/src/operations.ts:2503-2514 | an object joins at most one attribution exactly when one provider names its id in the range |
| Transactions.TwoProvidersListTwice | apps/query-gateway/src/operations.ts:2503-2514 | two providers' objects with one id and different instants are each listed twice, once beside the other's attribution |
| Transactions.CompleteExactlyWhenPlacesDiffer | apps/query-gateway/src/operations.ts:2397-2408 | without the join, every page size reaches every row exactly when no two objects share an instant and an id |
| Transactions.EpochIsNoFirstPage | apps/query-gateway/src/operations.ts:2404-2408 | a cursor at or before the range's start opens an empty page |

## Left out

- HubManagers.HubManager.AddClient: adding a client and its first frame is one step; the source awaits two
  subscriptions in between (apps/realtime/src/hub.ts:474-478). `HubArrivals` says who sits where when calls interleave
  there, without frames and timers; a subscription that fails is not modelled.
- HubManagers.HubManager.RemoveClient: the unsubscriptions are left out, and a read still out when its hub is dropped
  is not followed further; `HubManager.shutdown` is one step of the model, not a method.
- HubSafety.SingleFlight: reads are per hub; the claim "one scan per window" is not made, because an armed trailing
  timer can follow a joiner's read.
- SiteHubs.SiteHub.SendInitial: presence is its JSON text, `seq` and `currentSequence` are one field, the control
  reasons, scopes and metrics are dropped, and a callback reads the clock once.
- Streams.WrittenIsPrefix: the bytes of the event stream and the public/private projection of a snapshot are not modelled.
- RetryQueues.RetryQueue.PushAll: storage is taken to succeed and to hold well-formed entries.
- Transports.Transport.FlushNow: a beacon's acceptance and a batch's size are parameters; heartbeats are left out.
- Engagements.PayloadsAreSound: milliseconds are integers, so the final rounding is the identity; the document's
  visibility changes in the step that reports it.
- Canonical.CanonicalPrinting: a number is its printed text, surrogates are plain code units (an unpaired one, which
  JSON printing escapes, is not), and the hash is taken as injective.
- QueryFamilies.FamilyNeverMixesSites: values the schemas validate (identifiers, instants, numbers, dates, zones) are
  only known to hold no `&`; a filter's list is printed as canonical event printing does it.
- ReadThrough.Gateway.Ask: parsing and binding happen before; a failed or timed-out read changes nothing and is no event.
- ReplayDefence.UndatedExample: instants are read as sections 21.4.1 and 21.4.3.2 of ECMA-262 have it, fractions cut
  to milliseconds; all other replay results hold for any way of reading them.
- ReplayDefence.SignedRequestAuth.Authenticate: Ed25519 and SHA-256 are parameters; eviction by a
  shared store under memory pressure, which the source records as a known limit, is not modelled.
- ReplayDefence.StoresAgreeExactly: an entry set at `t` with lifetime `d` is taken to be there exactly before `t + d`.
- HubEffects.SuccessIsShown: a hub that is degraded is the subject of `HubSafety.RecoveryCarriesSnapshot`.
- Rollups.ChartEqualsTotals: `uniq` states are exact sets, sums are unbounded, the row cap after the statement is not
  applied; charts without an imported branch, and filtered and breakdown reads, are left out.
- SessionReads.PageReadAddsUp: the order by entrances and exits, the limit and the filtered variant are left out.
- Transactions.PaginationIsComplete: object ids are compared by code unit, joined rows of one place keep one fixed
  order, and what is stored does not change between pages.
- `currentRevenueBuckets`, unconverted revenue, funnels, quantiles and the remaining operations: further uses of the same
  newest-version reads, or functions of the database (`windowFunnel`, t-digests).
- HTTP wiring, origins, limits, logging, metrics, the rest of the ingest handler, sessions in the tracker's storage.

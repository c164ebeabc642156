# A verified model of the MCP server SDK

This project models the per-core object of the server (`McpShard`), the guards in front of it, the
routing of responses between cores, the codecs of its streams and its JSON-RPC dispatcher, and proves
what they promise over every run. Each uninterrupted stretch of the source between two suspension
points is one atomic step.

To verify: `dafny verify dfyconfig.toml`.

## How it is built

Objects that the source updates in place are classes with the same fields (`PerIpRateLimiter`,
`PerIpCircuitBreaker`, `McpShard`, `SseSession`, `JsonRpcDispatcher`, the data sinks). Every method is
proved against a function on values. About those functions it is proved what each does, from its inputs
alone (what a request asks for, what a CIDR text stands for, what an answer says), and what lasts over
all event sequences:

- **Admission.** `RateLimiter` characterises the token bucket exactly and shows it optimal.
  `CircuitBreaker` gives the meaning of every counter, the exact transitions and the throughput bound.
  `Probes` decides when a half-open breaker can refuse for good and how many silent probes it bears. `IpFilter` (with `Words`) turns masking
  in network byte order into interval membership. `Admission` carries the bounds over to what
  `check_request` lets in.
- **The shard.** `Sessions` holds the session tables, the IP ledger and the limits; `Subscriptions` the
  subscription relation; `Attribution` the concurrent dispatches that share one context; `ClientRpc` the
  requests the server sends to clients. `Shard.McpShard` is the object that has them all; each slice of a
  dispatch between two suspensions is a method of it, proved against `Attribution`. `CrossShard` says what
  the subscriptions and client requests of one shard mean for sessions of another.
- **Routing.** `SessionIds` and `Digits` prove the id codec down to decimal digits. `Cluster` is N shards
  with a bag of messages in flight; `Delivery` states what routing guarantees up to what a client reads.
- **Wire.** `Chunked` and `EventStream` hold the writers and independent decoders, `StreamCodec` composes
  them, `StreamLoop` is the loop that writes, with anything happening at its suspensions, `ContentLength`
  the sink for bodies of declared length.
- **Requests.** `Dispatcher` classifies requests and runs batches; `Pagination` is the list handlers.

Abstractions: the clock is an argument that never decreases, in nanoseconds. Tokens are counted in units
of 10^-9, so the refill per nanosecond is exactly `requests_per_second` units and a request costs 10^9 of
them; integers stand for the doubles of the source. JSON values are parsed values; `inet_pton` and
`json::dump` are function parameters. The 64-bit counters for sessions and requests are unbounded;
that the 32-bit counters of the breaker cannot wrap is proved.

## Where the code does less than its documentation

- `docs/security.md` section 7 says the connection limits cover `POST /mcp` streams. The code creates
  those sessions without any check (`Sessions.StreamsAreUnlimited`). Until a stop, all open sessions keep
  to the limits if and only if every such POST would have passed the check of `create_session`:
  `Sessions.AlwaysWithinIff`. Sessions minted by `create_session` keep to them in every run: `Sessions.LimitsHold`.
- The breaker recovers only if an episode has at least as many probes as it needs successes; otherwise an
  IP can be refused for good although all its requests succeed: `Probes.NeverWedgesIff`. GET requests are
  checked but never report an outcome. An episode tolerates `silent` such probes if and only if
  max(1, success_threshold) + silent <= max(1, half_open_max_reqs): `Probes.ToleratesIff`.
- The HTTP/SSE transport cannot read ids of the Streamable HTTP transport and sends their responses to
  shard 0: `SessionIds.SseInvertsExactly`, `Delivery.ArrivalDeliversIff`, `Delivery.UnreadableIdIsLost`.
- A later element of a batch acts for whichever session's dispatch began last, so it is right if and only
  if that is its own or the element changes nothing for either: `Attribution.LaterElementIsRightIff`.
- A subscription is recorded on the shard that ran the dispatch and is heard only there, and server
  request ids are counted per shard: `CrossShard.SubscribeIsHeardIff`, `CrossShard.AnswerCompletesIff`.
- `create_session_with_id` keeps the ledger exact only for ids not on record: `Sessions.CreateWithIdKeepsLedgerIff`.
- `stop()` leaves the ledger behind (`Sessions.StopLeavesLedger`). It keeps the count of an IP exact if and
  only if that count is zero when it is called: `Sessions.StopKeepsLedgerIff`. In every run the count is off
  by the sessions a stop has stranded: `Sessions.LedgerCountsOpenSessions`.
- A fractional id in a client's response is cut off and answers the request of that number:
  `ClientRpc.FractionAnswersIff`.
- The sink for bodies of declared length counts right if and only if no size_t sum wraps: `ContentLength.CountedIff`.
- One element that throws makes a whole batch fail, after the elements before it have run:
  `Dispatcher.BatchThrowsIff`.

## Model

| member | source | states |
|---|---|---|
| RateLimiter.PerIpRateLimiter.TryAcquire | include/mcp/security/rate_limiter.hh:39-50 | the answer and all buckets afterwards, whatever the first of the two clock readings was; with the limiter off or an unknown IP it grants and changes nothing |
| RateLimiter.GrantedExactly | include/mcp/security/rate_limiter.hh:39-50 | for every event of every run: granted iff it is a call and the limiter is off, the IP is unknown or all windows it closes fit; unlimited calls touch no bucket and no event touches another IP's |
| RateLimiter.GrantedIffFits | include/mcp/security/rate_limiter.hh:39-79 | in any run with any number of IPs, refusals and resets included, a call is granted iff in every window it closes the grants plus this one are at most burst + rate * time; windows do not cross a reset of the IP |
| RateLimiter.LimiterConforms | include/mcp/security/rate_limiter.hh:39-79 | no window of any run is ever overdrawn |
| RateLimiter.LimiterIsOptimal | include/mcp/security/rate_limiter.hh:39-79 | at every prefix the limiter has granted at least as many calls as any selection that respects all windows |
| RateLimiter.LevelAlways | include/mcp/security/rate_limiter.hh:58-79 | the level of a bucket is the least room left in any window still open |
| CircuitBreaker.PerIpCircuitBreaker.AllowRequest | include/mcp/security/circuit_breaker.hh:48-78 | the answer, the new state of this IP, and that no other IP's state changes |
| CircuitBreaker.AdmitsExactly | include/mcp/security/circuit_breaker.hh:48-78 | for every request of every run: closed it is admitted and nothing changes, open it is admitted iff the full timeout has passed, half-open iff fewer than the limit were let in since the episode began |
| CircuitBreaker.PerIpCircuitBreaker.RecordSuccess | include/mcp/security/circuit_breaker.hh:81-93 | the new state of this IP; other IPs are untouched |
| CircuitBreaker.PerIpCircuitBreaker.RecordFailure | include/mcp/security/circuit_breaker.hh:96-113 | the new state of this IP; other IPs are untouched |
| CircuitBreaker.ClosedCountsFailures | include/mcp/security/circuit_breaker.hh:81-105 | while closed, failure_count is the number of failures since the later of the last success and the last entry to CLOSED, below the threshold |
| CircuitBreaker.TripsExactlyAtThreshold | include/mcp/security/circuit_breaker.hh:100-105 | a closed breaker opens exactly on the failure that completes a streak of max(1, failure_threshold) |
| CircuitBreaker.HalfOpenCountsEpisode | include/mcp/security/circuit_breaker.hh:56-92 | in a half-open episode the counters are the successes reported and the requests let in since it began |
| CircuitBreaker.HalfOpenEndsExactly | include/mcp/security/circuit_breaker.hh:70-112 | an episode closes exactly on the success that completes the threshold, reopens exactly on a failure, and admits exactly while probes are left |
| CircuitBreaker.OpenIgnoresOutcomes | include/mcp/security/circuit_breaker.hh:56-68 | outcomes while open change nothing; a request is let in iff the full timeout has passed, truncation to seconds included |
| CircuitBreaker.CountersStayBounded | include/mcp/security/circuit_breaker.hh:17-23 | every counter stays within its configured limit in every run |
| CircuitBreaker.ThroughputBound | include/mcp/security/circuit_breaker.hh:56-76 | from opening until it closes, at most floor(span / timeout) * max(1, half_open_max_reqs) requests get in |
| CircuitBreaker.IpsAreIndependent | include/mcp/security/circuit_breaker.hh:127-129 | an IP's state is determined by its own events alone |
| Probes.CoveredAlways | include/mcp/security/circuit_breaker.hh:56-113 | probes spent <= successes counted + probes of this episode still out, with late and unordered outcomes |
| Probes.NeverWedgesIff | include/mcp/security/circuit_breaker.hh:48-113 | a half-open breaker refuses only while a probe of its episode is unreported iff max(1, success_threshold) <= max(1, half_open_max_reqs); otherwise, from a reachable world with nothing outstanding, no continuation without a reset ever admits a request |
| Probes.ToleratesIff | include/mcp/transport/streamable_http_transport.hh:292-295 | a half-open breaker never refuses while at most `silent` probes of its episode are unreported, iff max(1, success_threshold) + silent <= max(1, half_open_max_reqs) |
| Probes.SilentProbesBlock | include/mcp/transport/http_sse_transport.hh:160-163 | in every configuration a run of probes that never report, as GET requests, ends where nobody is admitted until somebody reports |
| Words.SwapAnd | include/mcp/security/ip_filter.hh:51 | bitwise and commutes with the change of byte order |
| Words.MaskRoundsDown | include/mcp/security/ip_filter.hh:86-89 | and with a prefix mask rounds an address down to its block |
| IpFilter.MatchIsBlockMembership | include/mcp/security/ip_filter.hh:51-89 | (ip & mask) == network on network-order words iff the host-order address is the one address of a text without slash, or in the aligned block of 2^(32-n) addresses of a text with prefix n |
| IpFilter.Compile | include/mcp/security/ip_filter.hh:27-37 | construction fails exactly on a malformed prefix, otherwise every entry is compiled |
| IpFilter.IsAllowed | include/mcp/security/ip_filter.hh:40-64 | the search loops find a match iff there is one, blacklist first |
| IpFilter.FilterMeetsPolicy | include/mcp/security/ip_filter.hh:27-64 | allowed iff outside every black block and inside some white block or, without a whitelist, by default |
| Admission.FirstObjectionDecides | include/mcp/server/mcp_shard.hh:107-140 | the verdict is that of the first guard that objects; OK iff the policy, the key, the bucket and the breaker all agree |
| Admission.VerdictInRuns | include/mcp/server/mcp_shard.hh:107-140 | the verdict of every request of every run, from the configured policy, the keys, the windows of what reached the limiter and the breaker's state; with limiter and breaker off it is settled by policy and key |
| Admission.ProbesAreAdmissions | include/mcp/server/mcp_shard.hh:107-140 | over any run of the shard, the probes a half-open episode has spent are exactly the requests check_request has admitted |
| Admission.RefusalsCostNoProbe | include/mcp/server/mcp_shard.hh:107-140 | a request refused by an earlier guard costs no probe; a refusal by the breaker still costs a token |
| Admission.UnwatchedKeepNoState | include/mcp/server/mcp_shard.hh:128-150 | over any run an unknown IP and a guard that is off keep no state |
| Admission.AdmissionRate | include/mcp/server/mcp_shard.hh:128-139 | over any run of the shard, the admitted requests of an IP in any window keep to burst + rate * time |
| Admission.AdmissionThroughput | include/mcp/server/mcp_shard.hh:134-150 | over any run of the shard, the throughput bound after tripping holds for what check_request lets in |
| Shard.McpShard.CheckRequest | include/mcp/server/mcp_shard.hh:107-140 | the verdict and the state of both guards afterwards |
| Shard.McpShard.RecordOutcome | include/mcp/server/mcp_shard.hh:144-150 | the breakers afterwards |
| Digits.PrintRoundTrip | include/mcp/server/mcp_shard.hh:203-204 | printed numbers are digits that read back as the number |
| Digits.StoulPrint | include/mcp/transport/streamable_http_transport.hh:377 | std::stoul reads a printed number back, whatever non-digit text follows |
| Digits.StoulReads | src/mcp/server/mcp_server.cc:55 | std::stoul on any text: spaces, a sign, digits and a rest; unreadable iff there are no digits or too many, negated modulo 2^64 after a minus sign |
| SessionIds.MintInjective | include/mcp/server/mcp_shard.hh:203-204 | ids of different kind, shard or counter differ |
| SessionIds.StreamableInverts | include/mcp/transport/streamable_http_transport.hh:373-381 | the Streamable parser reads the shard of both id forms |
| SessionIds.SseInvertsExactly | include/mcp/transport/http_sse_transport.hh:263-272 | the HTTP/SSE parser reads the shard iff the id is its own or from shard 0; other ids it sends to shard 0 |
| Sessions.NextIdsAreFresh | include/mcp/server/mcp_shard.hh:203-205 | the next id of either transport is in no table |
| Sessions.TableAlwaysGood | include/mcp/server/mcp_shard.hh:187-234 | in every reachable state the ledger counts the recorded ids exactly without zero entries, ids were minted here, and sessions in the table are active |
| Sessions.LedgerCountsOpenSessions | include/mcp/server/mcp_shard.hh:187-234 | in every run, stops and double removals included, the count of an IP is the number of its open sessions and of those a stop stranded; it is exact iff none is stranded |
| Sessions.GuardIsIdle | include/mcp/server/mcp_shard.hh:228 | the `> 0` test is never needed |
| Sessions.SecondRemovalIsIdle | include/mcp/transport/streamable_http_transport.hh:250-251 | a removed id never comes back, so a second removal changes nothing whatever happened in between |
| Sessions.CreateWithIdKeepsLedgerIff | include/mcp/server/mcp_shard.hh:210-214 | the ledger stays exact iff the id is not on record or the IP is empty |
| Sessions.StopKeepsLedgerIff | include/mcp/server/mcp_shard.hh:89-100 | stop leaves the count of an IP exact iff it is zero beforehand, which before a first stop means that no session of the IP is open |
| Sessions.ExitsRepairLedger | include/mcp/transport/streamable_http_transport.hh:250-251 | once the stream loops of all stranded sessions have exited, the count is exact again |
| Sessions.CreateRefusesExactly | include/mcp/server/mcp_shard.hh:187-208 | in every run create_session refuses iff the limits are on and the total of open sessions, or the IP's number of open and stranded ones, is reached; otherwise it opens one empty session under a new id |
| Sessions.LimitsHold | include/mcp/server/mcp_shard.hh:187-208 | sessions minted by create_session never exceed either limit, in any run |
| Sessions.AlwaysWithinIff | include/mcp/server/mcp_shard.hh:187-214 | all open sessions, of both kinds, have always kept to both limits if, and until a stop only if, every Streamable session was opened when create_session would have allowed it |
| Sessions.StreamsAreUnlimited | include/mcp/server/mcp_shard.hh:210-214 | nothing enforces that: for every n there is a run with n Streamable sessions of one IP |
| Shard.McpShard.CreateSession | include/mcp/server/mcp_shard.hh:187-208 | the new tables and the id, or a refusal that changes nothing |
| Shard.McpShard.OpenStream | include/mcp/transport/streamable_http_transport.hh:213-218 | the new tables and the id of a Streamable session |
| Shard.McpShard.RemoveSession | include/mcp/server/mcp_shard.hh:221-234 | all tables afterwards |
| Shard.McpShard.PushToSession | include/mcp/server/mcp_shard.hh:236-242 | the message is appended iff the session is present and active; no other queue changes |
| Sessions.QueuesMove | include/mcp/server/mcp_shard.hh:236-242 | in every run a delivery appends to the queue of an open session, a take removes its head, and nothing else changes |
| Shard.McpShard.CloseSession | include/mcp/transport/streamable_http_transport.hh:348-353 | the stream is told to end and the session is removed |
| Shard.McpShard.Stop | include/mcp/server/mcp_shard.hh:89-100 | every stream is told to end, every pending request fails, the ledger is kept |
| Subscriptions.SubscribeInserts | include/mcp/server/mcp_shard.hh:255-260 | subscribe inserts exactly one pair into the relation |
| Subscriptions.UnsubscribeDeletes | include/mcp/server/mcp_shard.hh:262-270 | unsubscribe deletes exactly one pair and leaves no empty set |
| Subscriptions.CleanupDrops | include/mcp/server/mcp_shard.hh:272-278 | cleanup drops exactly the pairs of the session and leaves no empty set |
| Subscriptions.RelationDeterminesTable | include/mcp/server/mcp_shard.hh:53 | without empty sets the table is its relation |
| Shard.McpShard.SubscribeResource | include/mcp/server/mcp_shard.hh:255-260 | the table afterwards, for the session of the shared context |
| Shard.McpShard.UnsubscribeResource | include/mcp/server/mcp_shard.hh:262-270 | the table afterwards, for the session of the shared context |
| Shard.McpShard.CleanupSubscriptions | include/mcp/server/mcp_shard.hh:272-278 | the erase-while-iterating loop, in any order, removes the session everywhere |
| Shard.McpShard.NotifyResourceUpdated | include/mcp/server/mcp_shard.hh:280-295 | exactly the subscribed, present and active sessions get the message, once |
| Shard.McpShard.TellsItsUpdate | include/mcp/server/mcp_shard.hh:283-288 | read by any parser that undoes dump, the message is the notification that this uri was updated |
| Attribution.RequestDoesWhatItAsks | src/mcp/server/mcp_server.cc:135-148 | from the request to the relation: a call of resources/subscribe inserts exactly its uri with the posting session, one of resources/unsubscribe deletes it, every other single body changes nothing |
| Attribution.BatchRunsCompletely | include/mcp/router/dispatcher.hh:63-68 | under any schedule a batch runs its elements up to the first that throws, each once and in order; the rest stays parked and the task is gone exactly when nothing is left |
| Attribution.SliceActsFor | include/mcp/server/mcp_shard.hh:170-180 | every slice acts for the session the shared context names, that is the one whose dispatch began last; for the first element of a dispatch this is its own |
| Attribution.SinglesMeetIntent | include/mcp/server/mcp_shard.hh:170-180 | for any schedule of non-batch requests the table is what the sessions asked for |
| Attribution.LaterElementIsRightIff | include/mcp/router/dispatcher.hh:63-68 | a later batch element leaves the relation its session asked for iff that session's dispatch is still the last begun, or the element changes nothing for its own session nor for the one it acts for |
| Attribution.RunsMeetIntent | src/mcp/server/mcp_server.cc:135-148 | whole runs in which no batch loses its context leave the relation that was asked for |
| Attribution.TableMeetsIntent | include/mcp/server/mcp_shard.hh:255-278 | and the table is the only one without empty sets that states this relation |
| Attribution.BatchCanSubscribeAnother | include/mcp/router/dispatcher.hh:63-68 | any subscribe call in a batch interleaved with one request subscribes the other session |
| Shard.McpShard.BeginDispatch | include/mcp/server/mcp_shard.hh:158-171 | a response to a pending request is consumed without touching the context; anything else sets it |
| Shard.McpShard.StartDispatch | include/mcp/server/mcp_shard.hh:158-180 | a dispatch up to its first suspension: its first element runs under the context just set, the rest of the batch is parked |
| Shard.McpShard.ResumeDispatch | include/mcp/router/dispatcher.hh:63-68 | the next element of a suspended batch runs under whatever the context is by then |
| Shard.McpShard.LeaveStream | include/mcp/transport/streamable_http_transport.hh:250-251 | the exit of a stream loop drops the subscriptions and the tables' entries of its session |
| CrossShard.SubscribeIsHeardIff | include/mcp/server/mcp_shard.hh:255-295 | a subscription recorded on shard k makes updates reach a session of shard home iff k == home |
| CrossShard.AnswerCompletesIff | include/mcp/server/mcp_shard.hh:158-168 | a client's answer posted on shard k completes the request of shard home iff k == home, and otherwise shard k's request of the same number, if one is outstanding |
| ClientRpc.AlwaysAccounted | include/mcp/server/mcp_shard.hh:341-378 | every id issued is pending or completed, never both |
| ClientRpc.IssuedIsPendingPlusCompleted | include/mcp/server/mcp_shard.hh:341-378 | issued = pending + completed after every event |
| ClientRpc.IdsCountRequests | include/mcp/server/mcp_shard.hh:345-354 | ids are given out one by one, as many as requests were sent, and each is pending right after it was sent |
| ClientRpc.IdsAreNeverReused | include/mcp/server/mcp_shard.hh:345-354 | a new id was never issued before |
| ClientRpc.OutcomesAreFinal | include/mcp/server/mcp_shard.hh:367-377 | a request completes at most once |
| ClientRpc.OutcomesHaveACause | include/mcp/server/mcp_shard.hh:359-378 | an outcome comes from a response with the request's own converted id, or from stop |
| ClientRpc.TablesTellHistory | include/mcp/server/mcp_shard.hh:341-378 | in every run a request is completed iff a response with its id or a stop found it pending, and pending iff it was issued and no such event happened |
| ClientRpc.EndsAsTold | include/mcp/server/mcp_shard.hh:367-377 | in every run a request ends with a result only from a response that has one, with a client error only from one that has just an error, with its message or the default text, and otherwise by a stop |
| ClientRpc.TellingEnds | include/mcp/server/mcp_shard.hh:367-377 | and each such response does end the pending request it names that way; any other leaves it pending |
| ClientRpc.CompletesOnce | include/mcp/server/mcp_shard.hh:367-377 | no two events complete the same request |
| ClientRpc.PendingWasSentSince | include/mcp/server/mcp_shard.hh:95-98 | whatever is pending was issued after the last stop |
| ClientRpc.FractionAnswersIff | include/mcp/server/mcp_shard.hh:363 | in every run a response with a fractional id acts exactly as one with its integer part, and answers that request iff it is outstanding |
| ClientRpc.IntegerAnswersIff | include/mcp/server/mcp_shard.hh:363 | in every run a response with an integer id answers request n iff the id is n modulo 2^64 and n is outstanding |
| Shard.McpShard.SendRequestToClient | include/mcp/server/mcp_shard.hh:341-357 | a new pending request; the text pushed to the session's queue, read by any parser that undoes dump, is a call with its id, method and parameters |
| Shard.McpShard.RequestAnswered | include/mcp/server/mcp_shard.hh:341-378 | a client that answers under the id it reads in its queue completes exactly the promise of that request; every other stays pending |
| Shard.McpShard.HandleClientResponse | include/mcp/server/mcp_shard.hh:359-378 | which promise is resolved, with what, and what stays pending |
| Cluster.AlwaysCoherent | include/mcp/transport/streamable_http_transport.hh:265-277 | for any number of shards and any interleaving: no message is lost or doubled, logs are exact, queues are first in first out |
| Delivery.OpenAddsOne | include/mcp/transport/streamable_http_transport.hh:213-218 | opening adds one empty session under an id that no shard has, unless the limits refuse it |
| Delivery.CloseRemoves | include/mcp/transport/streamable_http_transport.hh:345-366 | DELETE leaves the session in no table of any shard once it has reached the shard its id names; no other session is touched |
| Delivery.ExitRemoves | include/mcp/transport/http_sse_transport.hh:194-195 | the end of a stream loop removes exactly its session, a stop all sessions of the shard |
| Delivery.WriteMovesHead | include/mcp/transport/streamable_http_transport.hh:241-246 | writing takes the head of one queue and adds it to what that client was sent |
| Delivery.NotifyDeliversIff | include/mcp/server/mcp_shard.hh:289-294 | a notification is put in the queue of a session of its own shard, once, or dropped |
| Delivery.LettersWait | include/mcp/transport/streamable_http_transport.hh:270-276 | a response sent to another shard stays in flight, and can arrive there, until it does |
| Delivery.AddressedHomeIff | include/mcp/transport/http_sse_transport.hh:246 | a response is addressed to the shard of its session iff the transport can read the id |
| Delivery.ArrivalDeliversIff | include/mcp/transport/http_sse_transport.hh:250-255 | a message that arrives for an open session is appended to its queue once and nowhere else if the transport can read the id, and lost otherwise |
| Delivery.ResponseReachesHomeIff | include/mcp/transport/streamable_http_transport.hh:265-277 | a response is delivered at once on its own shard, or sent over without touching any queue |
| Delivery.EveryMessageAccountedFor | include/mcp/server/mcp_shard.hh:236-242 | each routed message is in flight, in its own session's log, or dropped, as often as it was routed |
| Delivery.QueueIsUnwrittenLog | include/mcp/transport/streamable_http_transport.hh:241-246 | a queue holds in order what was delivered and not yet written |
| Delivery.ClientSeesItsOwnMessages | include/mcp/transport/streamable_http_transport.hh:237-254 | end to end, for the streams of both transports, a client reads in order a prefix of what was delivered to its session, after the endpoint event of GET /sse |
| Delivery.UnreadableIdIsLost | include/mcp/transport/http_sse_transport.hh:263-272 | a reachable loss through the HTTP/SSE parser |
| Chunked.ChunkedSink.Put | src/seastar_patches/http_common_patch.cc:129-141 | one chunk per non-empty buffer, nothing for an empty one |
| Chunked.ChunkedSink.PutAll | src/seastar_patches/http_common_patch.cc:109-113 | a series of buffers writes exactly the text that the decoder is proved to read back |
| Chunked.ChunksDecode | src/seastar_patches/http_common_patch.cc:101-141 | a decoder per section 7.1 of RFC 9112 finds exactly the non-empty buffers, then the end |
| EventStream.FramesParse | include/mcp/transport/streamable_http_transport.hh:244 | a parser per section 9.2 of the HTML standard finds exactly the messages |
| StreamCodec.StreamRoundTrip | src/seastar_patches/http_common_patch.cc:101-141 | frames cut into arbitrary buffers and chunked decode to the same messages |
| StreamCodec.EndpointStreamRoundTrip | include/mcp/transport/http_sse_transport.hh:182-189 | the same for GET /sse with its endpoint event |
| StreamLoop.Serve | include/mcp/transport/streamable_http_transport.hh:239-249 | whatever happens at each suspension, the bytes written, the queue left and whether the loop has left |
| StreamLoop.WritesInOrder | include/mcp/transport/streamable_http_transport.hh:241-246 | under every schedule the messages are written in the order they were queued, none twice; while it runs, written and queued are all that was put in |
| StreamLoop.LeavesExactly | include/mcp/transport/http_sse_transport.hh:185-193 | the loop leaves exactly when it wakes to an ended session, a broken connection or an empty message; it never writes to a session that has ended, and a broken connection ends the session for good |
| ContentLength.ContentLengthSink.Put | src/seastar_patches/http_common_patch.cc:201-214 | a buffer is written and counted, or refused without effect |
| ContentLength.NeverExceedsLimit | src/seastar_patches/http_common_patch.cc:160-219 | without wrap-around the count is the bytes written and stays within the declared length |
| ContentLength.FittingBodyIsWritten | src/seastar_patches/http_common_patch.cc:201-214 | a body that fits the declared length is written completely |
| ContentLength.CountedIff | src/seastar_patches/http_common_patch.cc:160-219 | over a whole body the count is always the bytes written, within the declared length, iff no size_t sum on the way wraps |
| ContentLength.RefusesExactlyIff | src/seastar_patches/http_common_patch.cc:207 | a put is refused exactly when it does not fit iff the size_t sum does not wrap |
| Dispatcher.JsonRpcDispatcher.HandleSingle | include/mcp/router/dispatcher.hh:79-121 | the reply and which handler ran, whatever other dispatches run meanwhile |
| Dispatcher.RequestTells | include/mcp/router/dispatcher.hh:79-100 | which requests throw, which are answered with Invalid Request and which with nothing, read off their members |
| Dispatcher.HandlerAnswers | include/mcp/router/dispatcher.hh:102-120 | a call is answered with its handler's value as result, with the exception's code, text and data as error, or told that the method is unknown |
| Dispatcher.HandlerRuns | include/mcp/router/dispatcher.hh:89-112 | the handler that runs is the one registered for the method, with the parameters sent or none |
| Dispatcher.JsonRpcDispatcher.HandleBatch | include/mcp/router/dispatcher.hh:62-70 | with any other dispatches between and during its elements, the batch loop answers with the in-order replies its elements get one by one |
| Dispatcher.JsonRpcDispatcher.HandleRequest | include/mcp/router/dispatcher.hh:34-75 | parse errors, empty and oversized batches run no handler; everything else is a single request or a batch |
| Dispatcher.BatchRepliesInOrder | include/mcp/router/dispatcher.hh:62-70 | the answer to a batch is an array with exactly one reply per element owed one, in order: the reply the element gets in its place, with its id and exactly one of result and error |
| Dispatcher.BatchSilentIff | include/mcp/router/dispatcher.hh:69 | no reply iff all elements are valid notifications |
| Dispatcher.BatchThrowsIff | include/mcp/router/dispatcher.hh:83-89 | a batch fails iff some element is no object or has a method that is no string |
| Dispatcher.BatchRunsInOrder | include/mcp/router/dispatcher.hh:63-68 | the handlers run are those of the elements, in order, with other dispatches' in between |
| Pagination.ListPage | src/mcp/server/mcp_server.cc:49-72 | the page at the requested offset, the start for an unreadable cursor, and a next cursor exactly if more follows |
| Pagination.CursorRoundTrip | src/mcp/server/mcp_server.cc:54-68 | a cursor handed out leads to the item after its page |
| Pagination.CursorMeans | src/mcp/server/mcp_server.cc:53-70 | for any cursor: a number n leads to the at most 50 items from n on and a next cursor n + 50 iff there are more; no cursor, a non-string and an unreadable one lead to the start |
| Pagination.PaginationIsLossless | src/mcp/server/mcp_server.cc:49-72 | following the cursors yields every element once and in order, in the least number of pages |

## Left out

- Seastar itself: reactor, sockets, HTTP server; a full session queue, which would make a push wait.
- JSON text: parsing, dumping and the failures of both; a reply in a batch is taken to survive being dumped and parsed again, and compact JSON to hold no line breaks.
- A shard number beyond the number of shards in a session id: what `invoke_on` then does is outside the model, the message stays in flight.
- Double rounding in the token bucket: tokens are exact integers here.
- A GET /mcp that reconnects while the POST stream of the same session still runs, which gives one queue two readers.
- Whether a server-to-client request is ever answered: nothing in the code guarantees it.
- The substring search for `"error"` that decides an outcome: the outcome is an input.
- Dotted-decimal parsing, header extraction, API key lookup in headers, HTTP status mapping: each is read off one branch.
- Handlers other than list, subscribe and unsubscribe, registry metadata, builder, stdio transport, audit log, log levels, progress notifications and broadcast: field copies and output.
- Dispatcher.JsonRpcDispatcher.HandleSingle: does not model handlers that throw something other than a std::exception, because such an exception leaves the dispatcher.
- Pagination.ListPage: takes lists no longer than a std::vector can be, because beyond that size_t offsets would wrap.
- ClientRpc.OutcomesHaveACause: does not cover fractional ids that no uint64_t holds, because converting them is undefined in C++.

# Vortex verification model

A Dafny 4.11 model of the parts of the Vortex chat application whose correctness is hard to see from
reading one function: the real-time gateway and its reconnect catch-up, the local search index,
session revocation, the end-to-end-encryption key store, the sliding-window rate limiters, inline
polls, notification dedup and attachment renewal. `dafny verify dfyconfig.toml` checks everything.

## How it is built

Code that changes state is a class whose methods have the source's branches and loops; each method's
contract equates the new state with a function of the old one. Properties of runs are then proved about
those functions. Handlers that suspend are split at their awaits: the code between two awaits is one step,
and a run is any sequence of steps. Time is a non-decreasing integer in milliseconds given to each call.

| file | source | what is proved |
|---|---|---|
| `SearchIndex.dfy` | `apps/web/lib/local-search-index.ts` | the three maps stay coherent, both caps hold on every run, search equals a plain scan, eviction never loses the newest documents of up to five channels, ties included |
| `Gateway.dfy`, `GatewayRuns.dfy`, `ChannelAccess.dfy` | `apps/signal/src/gateway.ts`, `apps/signal/src/channel-access.ts` | what a channel saw last is what the client declared last, nothing leaks before the status is known, rooms equal bookkeeping and are granted, exactly when a revocation breaks that, and exactly when a revoked user stays out and stays silent |
| `EventBus.dfy` | `apps/signal/src/event-bus.ts` | the batched backward search finds what a plain scan of the newest 1000 entries finds, for exactly which streams; what replay answers to known and unknown cursors; nothing is fanned out that should be stored and is not |
| `GatewayClient.dfy`, `Catchup.dfy` | `apps/web/hooks/use-gateway.ts` with the two above | exactly when catch-up is complete over any number of disconnects, failed, truncated and unknown-cursor replays included, and which events are lost for good |
| `Revocation.dfy`, `RevocationRuns.dfy` | `apps/signal/src/revocation.ts`, `apps/signal/src/index.ts` | a revoked token is never admitted again, for exactly which token lifetimes, and which checks succeed after any run |
| `OlmSingleFlight.dfy`, `OlmPinning.dfy`, `OlmPinRace.dfy` | `apps/web/lib/olm-protocol-store.ts`, `apps/web/lib/olm-protocol.ts` | one wrap key and one identity under any interleaving, and whoever waits can be served; where every pin and session comes from; pins never change in sequence and exactly when they stand under overlap, and sessions stay under them exactly when decrypts are vouched for |
| `RateLimit.dfy` | `apps/signal/src/rate-limiter.ts`, `apps/web/lib/rate-limit.ts` | all limiters answer like a full log or like each other, no window exceeds the limit, cleanup is invisible for exactly which windows, `resetAt` is exact |
| `Poll.dfy`, `PollReading.dfy`, `PollTally.dfy` | `apps/web/lib/poll.ts` | what any text parses to; printing and parsing round-trip exactly when stated; votes and shares are conserved |
| `NotificationDedup.dfy` | `apps/web/lib/notification-manager.ts` | the bounded memory is exact |
| `AttachmentDecay.dfy` | `packages/shared/src/attachment-decay.ts` | a used file never expires; larger files never live longer |

## What turned out to need a condition

- A disconnect loses nothing exactly when no event that the client lacks lies behind its cursor
  (`Catchup.IntactExactly`), for example before any live event arrived ahead of the replay. Any other disconnect
  loses an event for good (`Catchup.BrokenDropIsNeverRepaired`), as long as replays read a stream trimmed to its
  1000 entries; an untrimmed one can bring it back (`Catchup.ReadsBackExactly`, `Catchup.ReadBackCanHappen`).
- Every replay is reported as complete. The client is complete exactly when the range read covers what it lacked
  (`Catchup.CatchUpIsComplete`): a failed read covers nothing, and a gap of more than 500 events is read in part.
  The next live event then passes over the rest (`Catchup.PassedOverIsLost`).
- `revokeChannelAccess` leaves a socket of the target user in the room when that socket joined after
  `fetchSockets` answered (`Gateway.RevokedExactly`, `Gateway.OvertakenRevocation`). It also does not reach a
  resume that was allowed the channel earlier and is still replaying others: that socket rejoins the room without
  a new membership check (`Gateway.RevokedStaysOut`, `Gateway.ReentryCanHappen`), and a suspended resume that had
  rejoined the room still announces its presence there (`Gateway.RevokedStaysSilent`, `Gateway.EchoCanHappen`).
- The comment in `revocation.ts` says the token fetched on the forced reconnect is admitted. `iat` has
  whole seconds, so a token minted later in the same second still falls under the cutoff
  (`Revocation.RefusedOnlyInTheSameSecond`).
- The comment in `event-bus.ts` says an unknown replay cursor yields the latest events. The code returns the
  oldest ones, which are the latest exactly when the stream is no longer than the limit
  (`EventBus.UnknownCursorExactly`, `EventBus.UnknownCursorMissesLatest`).
- The cursor search misses events exactly when a batch of 200 ends at an entry whose id decrement passes over an
  entry with a sequence number above 99999 (`EventBus.SearchExactly`, `EventBus.SkippedEventIsMissed`).
- The in-memory web limiter's 60 s cleanup shows for windows above 60 001 ms (`WebLimiter.EarlyCleanupShows`);
  the widest window in use is 24 hours (`apps/web/app/api/users/export/route.ts:34`).
- An empty curve25519 key counts as no key at all, and a first contact without a pin or hint stores a session
  that nothing pins (`OlmPinning.NextKeepsPinnedExactly`, `OlmPinning.FirstContactIsUnpinned`).
- Two first contacts that overlap and disagree about a device both pass, and the second replaces the pin of the
  first; pins stand exactly when that does not happen (`OlmPinRace.PinsStandExactly`, `OlmPinRace.OverlapCanHappen`).
- A poll does not survive the composer when its question starts with `- `, the draft has its own `[POLL]`, or
  the question or an option has a `[/POLL]` (`Poll.RoundTrip`).
- The newest documents of a channel stay indexed with up to five channels loaded; with six, the index-wide cap can
  evict even a channel's newest one (`SearchIndex.OneChannelTooMany`).

## Model

| member | source | states |
|---|---|---|
| SearchOrder.LessTotal | apps/web/lib/local-search-index.ts:288 | string comparison of timestamps is irreflexive and asymmetric, and orders any two different ones |
| SearchOrder.LessTransitive | apps/web/lib/local-search-index.ts:288 | and it is transitive |
| SearchOrder.FirstDifferenceDecides | apps/web/lib/local-search-index.ts:288 | the first difference decides, the smaller code unit being older, and a proper prefix comes first |
| SearchIndex.LocalSearchIndex.constructor | apps/web/lib/local-search-index.ts:79-85 | a new index is empty, coherent and within its caps |
| SearchIndex.LocalSearchIndex.RemoveDocument | apps/web/lib/local-search-index.ts:259-277 | exactly that document goes, the three maps stay coherent, no posting set is left empty and the caps stay kept |
| SearchIndex.LocalSearchIndex.OldestOf | apps/web/lib/local-search-index.ts:283-292 | for non-empty ids the loop picks a document none of the others is older than |
| SearchIndex.LocalSearchIndex.EnforceChannelCap | apps/web/lib/local-search-index.ts:279-294 | below the channel cap nothing changes, at the cap one oldest document of the channel goes |
| SearchIndex.LocalSearchIndex.EnforceGlobalCap | apps/web/lib/local-search-index.ts:296-309 | the same for the global cap |
| SearchIndex.LocalSearchIndex.Insert | apps/web/lib/local-search-index.ts:103-118 | a new document is stored under its channel and every one of its tokens, coherently |
| SearchIndex.LocalSearchIndex.AddDocument | apps/web/lib/local-search-index.ts:92-119 | replace, make room in the channel, make room overall, insert; the document is there, the maps stay coherent and the caps kept |
| SearchIndex.LocalSearchIndex.AddDocuments | apps/web/lib/local-search-index.ts:122-126 | a page is its documents added one after the other, and keeps the caps |
| SearchIndex.LocalSearchIndex.ClearChannel | apps/web/lib/local-search-index.ts:134-141 | exactly the channel's documents and its set go, and the caps stay kept |
| SearchIndex.LocalSearchIndex.ClearAll | apps/web/lib/local-search-index.ts:144-148 | everything goes |
| SearchIndex.LocalSearchIndex.Postings | apps/web/lib/local-search-index.ts:178-193 | the ids of the documents meeting the token: exactly if any indexed document has it, else by prefix |
| SearchIndex.LocalSearchIndex.Candidates | apps/web/lib/local-search-index.ts:164-208 | all in scope for an empty query, else the documents meeting every token, early exit included |
| SearchIndex.AllTokensMatched | apps/web/lib/local-search-index.ts:219-223 | a candidate's matched tokens are the whole token list |
| SearchIndex.LocalSearchIndex.Collect | apps/web/lib/local-search-index.ts:211-228 | each candidate that passes scope and filters is scored once |
| SearchIndex.SortRanked | apps/web/lib/local-search-index.ts:230-234 | a permutation by score, then newest first |
| SearchIndex.LocalSearchIndex.Search | apps/web/lib/local-search-index.ts:161-237 | the result is the first `limit` of the complete ranked scan of the documents; scope, author and `before` hold of every result, and the newest come first when recency favours new documents |
| SearchIndex.ScanFindsOnly | apps/web/lib/local-search-index.ts:178-228 | a result is a stored document within scope, author and bound; every query token starts a token of it, or is one if any stored document has it; all tokens count for its score |
| SearchIndex.ScanFindsAll | apps/web/lib/local-search-index.ts:178-228 | every such document is found, once |
| SearchIndex.ScanIsNewestFirst | apps/web/lib/local-search-index.ts:230-234 | the newest first when recency favours new documents |
| SearchIndex.RunsStayWithinCaps | apps/web/lib/local-search-index.ts:14-16 | at most 2000 documents per channel and 10000 overall after every run of the operations on documents with ids |
| SearchIndex.NewestStayIndexed | apps/web/lib/local-search-index.ts:92-119 | with at most five channels loaded, documents with fewer than 1999 others as new in their channel stay indexed whatever order the documents arrive in |
| SearchIndex.OneChannelTooMany | apps/web/lib/local-search-index.ts:296-309 | with six channels loaded there is a page after which a channel's only document is not indexed |
| ChannelAccess.GrantedExactly | apps/signal/src/channel-access.ts:66-123 | an id is granted iff it was requested and is the user's own channel or a confirmed membership |
| ChannelAccess.GrantsOnlyOwnAndConfirmed | apps/signal/src/channel-access.ts:66-123 | `user:v` is granted to v alone; any other id iff requested and listed in a good answer of a configured backend |
| ChannelAccess.GrantSplitsRequest | apps/signal/src/gateway.ts:240-242 | grant and denial split the request, duplicates included |
| ChannelAccess.SortOut | apps/signal/src/channel-access.ts:67-77 | own user channels are allowed locally, other users' are dropped, the rest is to be confirmed |
| ChannelAccess.Confirmed | apps/signal/src/channel-access.ts:115-119 | the ids contained in the answer, in request order |
| ChannelAccess.CheckChannelAccess | apps/signal/src/channel-access.ts:66-124 | the granted ids; an unconfigured, failing or malformed backend grants no membership |
| Gateway.StepKeeps | apps/signal/src/gateway.ts:192-580 | every handler step keeps both the presence and the room invariant |
| Gateway.SubscribedKeeps | apps/signal/src/gateway.ts:244-267 | the joining half of subscribe keeps them |
| Gateway.ResumeKeeps | apps/signal/src/gateway.ts:482-524 | the resume loop keeps them between any two replays and at its end |
| Gateway.WrittenKeeps | apps/signal/src/gateway.ts:413-420 | a status write keeps the invariant and leaves every channel owed an announcement |
| Gateway.AnnouncedKeeps | apps/signal/src/gateway.ts:566-574 | the announcement after init or presence keeps it and brings every subscribed channel up to date |
| Gateway.BroadcastReaches | apps/signal/src/gateway.ts:101-114 | one broadcast updates its rooms, masks invisible, and leaves the other rooms' last status |
| Gateway.RevokedExactly | apps/signal/src/gateway.ts:657-679 | revoking keeps rooms and bookkeeping equal iff no socket of the user in the room was missed by the fetch |
| Gateway.NextKeeps | apps/signal/src/gateway.ts:190-679 | a step of the whole replica keeps the invariant, and the agreement iff no revocation was overtaken |
| Gateway.NoAnnouncementLost | apps/signal/src/gateway.ts:562-574 | after any run, each subscribed channel saw the current status last or is still owed it |
| GatewayRuns.SeenAsDeclared | apps/signal/src/gateway.ts:101-114 | after any run, with nothing under way, a subscribed channel saw last what the client declared last, invisible as offline; a client that declared nothing announced nothing |
| GatewayRuns.AnnouncesExactly | apps/signal/src/gateway.ts:101-114 | a step sends at most one broadcast, to exactly the channels due one: all subscribed after a status, the newly joined after a subscribe, the rejoined at the end of a resume |
| Gateway.NothingSentTooEarly | apps/signal/src/gateway.ts:50-57 | nothing is broadcast before the status is known, never `invisible`, only to rooms granted at some time |
| Gateway.RoomsAreGranted | apps/signal/src/gateway.ts:235-258 | a live socket's rooms were granted to it, `user:x` only to x, include its subscriptions, and equal them unless a revocation was overtaken |
| GatewayRuns.JoinsExactly | apps/signal/src/gateway.ts:244-295 | rooms, bookkeeping and grants each gain what the step joins or is granted and lose what it unsubscribes, nothing else |
| GatewayRuns.HandlersExactly | apps/signal/src/gateway.ts:190-580 | a step resumes one handler, which ends unless it is suspended again, and leaves the others alone |
| GatewayRuns.PresentExactly | apps/signal/src/gateway.ts:583-679 | sockets come and go by connecting and disconnecting, pending revocations by their fetch and their end |
| GatewayRuns.ResumeJoinsAllGranted | apps/signal/src/gateway.ts:462-524 | a resume that runs to its end joins all it is granted and announces the socket in exactly those it was not subscribed to |
| Gateway.OvertakenRevocation | apps/signal/src/gateway.ts:663-678 | there is a run on which an overtaken revocation leaves the socket in the room |
| Gateway.RevokedStaysOut | apps/signal/src/gateway.ts:657-679 | after any run, a revocation that is not overtaken empties the room of the user, who stays out without a new grant iff no resume of theirs is suspended with the channel still ahead and already allowed |
| GatewayRuns.RevocationReachesOnly | apps/signal/src/gateway.ts:657-679 | after any run, a revocation changes nothing but this room and this subscription, and of its own user only |
| GatewayRuns.FetchIsNotOvertaken | apps/signal/src/gateway.ts:657-679 | whatever else happens while it waits, a revocation is not overtaken unless the user is granted the channel meanwhile or was about to rejoin it |
| Gateway.ReentryCanHappen | apps/signal/src/gateway.ts:482-495 | there is a run that leads to such a resume |
| Gateway.RevokedStaysSilent | apps/signal/src/gateway.ts:657-679 | after any run, a revocation that is not overtaken ends the user's broadcasts to the room, barring a new grant, iff no resume of theirs is suspended that has rejoined it or still will |
| Gateway.EchoCanHappen | apps/signal/src/gateway.ts:482-519 | there is a run that leads to such a resume with nothing left to rejoin |
| Gateway.GatewayServer.constructor | apps/signal/src/gateway.ts:60 | no sockets, nothing pending |
| Gateway.GatewayServer.OnConnection | apps/signal/src/gateway.ts:190 | a new socket has no state, rooms or handlers |
| Gateway.GatewayServer.OnDisconnect | apps/signal/src/gateway.ts:604-607 | the socket and its state go |
| Gateway.GatewayServer.OnSubscribe | apps/signal/src/gateway.ts:215-240 | 1 to 100 non-empty ids are accepted and await the membership check, anything else changes nothing |
| Gateway.GatewayServer.OnSubscribeAccess | apps/signal/src/gateway.ts:240-267 | the whole new state of subscribe, and a reply that splits the request |
| Gateway.GatewayServer.JoinChannels | apps/signal/src/gateway.ts:252-258 | the rooms joined and which of them are new |
| Gateway.GatewayServer.OnUnsubscribe | apps/signal/src/gateway.ts:279-293 | rooms and subscriptions lose the ids; without state nothing happens |
| Gateway.GatewayServer.OnPresence | apps/signal/src/gateway.ts:413-420 | status and statusKnown are written before the Redis write |
| Gateway.GatewayServer.OnInit | apps/signal/src/gateway.ts:558-568 | the same, creating the state without clobbering its channels |
| Gateway.GatewayServer.OnRedisDone | apps/signal/src/gateway.ts:425 | the status is announced to every subscribed channel, as `GatewayRuns.SeenAsDeclared` tells |
| Gateway.GatewayServer.OnResume | apps/signal/src/gateway.ts:451-470 | at most 100 channels are accepted and await the membership check |
| Gateway.GatewayServer.OnResumeAccess | apps/signal/src/gateway.ts:470-495 | state is ensured and the loop joins the first allowed channel before its replay |
| Gateway.GatewayServer.OnReplayDone | apps/signal/src/gateway.ts:495-524 | the loop goes on with the next allowed channel or ends with its announcement |
| Gateway.GatewayServer.ContinueResume | apps/signal/src/gateway.ts:482-519 | the loop between two awaits equals the recursive description |
| Gateway.GatewayServer.RevokeFetch | apps/signal/src/gateway.ts:662-664 | the sockets in the room are fetched |
| Gateway.GatewayServer.RevokeFinish | apps/signal/src/gateway.ts:665-678 | every fetched socket of the target leaves, every state of the target forgets the channel |
| Gateway.GatewayServer.LeaveFetched | apps/signal/src/gateway.ts:665-668 | the first loop of revokeChannelAccess |
| Gateway.GatewayServer.DropBookkeeping | apps/signal/src/gateway.ts:676-678 | its second loop |
| EventBus.StepBelowExact | apps/signal/src/event-bus.ts:215-220 | the id decrement lands on the previous entry iff it does not pass over one with a sequence number above 99999 |
| EventBus.SmallSequenceNumbers | apps/signal/src/event-bus.ts:220 | with sequence numbers up to 99999 no batch boundary skips |
| EventBus.SearchExactly | apps/signal/src/event-bus.ts:193-224 | the batched search finds what a plain scan of the newest 1000 entries finds, for every event, iff no batch boundary skips |
| EventBus.SkippedEventIsMissed | apps/signal/src/event-bus.ts:215-220 | a stream of 201 entries on which the search misses an event |
| EventBus.XRevRangeIsNewest | apps/signal/src/event-bus.ts:200-202 | an answer lists entries at or before the end, newest first, and leaves one out only below `count` newer ones, iff it is the modelled one |
| EventBus.RedisEventBus.FindStreamEntryId | apps/signal/src/event-bus.ts:193-224 | the stream id at the position that the batched search finds, looking at the positions it visits |
| EventBus.VisitedDescends | apps/signal/src/event-bus.ts:198-221 | a search visits no entry twice, at most 200 per batch, and ends where it finds the event |
| EventBus.SteppableVisits | apps/signal/src/event-bus.ts:198-221 | where no batch boundary skips, it visits the newest entries one by one, 1000 of them unless it finds the event |
| EventBus.SteppableFinds | apps/signal/src/event-bus.ts:193-224 | and finds the event iff it is among them |
| EventBus.ReadAfterIsReplay | apps/signal/src/event-bus.ts:155-168 | reading behind the stream id found is replaying from its position |
| EventBus.ReplayInOrder | apps/signal/src/event-bus.ts:157-180 | the first `limit` events behind a known cursor in order; a shorter batch reaches the end of the stream |
| EventBus.UnknownCursorExactly | apps/signal/src/event-bus.ts:162-166 | an unknown cursor gets the latest events iff all entries in only one of the two ends are malformed; without malformed entries, iff the stream is no longer than the limit |
| EventBus.UnknownCursorMissesLatest | apps/signal/src/event-bus.ts:162-166 | one event more than the limit, and the newest is not in the answer |
| EventBus.CollectEvents | apps/signal/src/event-bus.ts:170-178 | the well-formed events of the entries in order |
| EventBus.RedisEventBus.Replay | apps/signal/src/event-bus.ts:142-185 | the events behind the position that the search finds, the oldest ones for an unknown cursor, and nothing once destroyed or when the read fails |
| EventBus.RedisEventBus.Publish | apps/signal/src/event-bus.ts:94-126 | an event of a persisted type is appended to its stream only, at least 1000 entries stay; it is sent on pub/sub and its id returned iff that append and the send succeed, else publish throws |
| EventBus.RedisEventBus.DispatchToSubscribers | apps/signal/src/event-bus.ts:76-92 | exactly the subscriptions whose channel and type filters admit the event are called, each without filters among them |
| GatewayClient.Client.OnConnect | apps/web/hooks/use-gateway.ts:135-156 | init, then subscribe to all channels, then resume with all cursors |
| GatewayClient.Client.OnDisconnect | apps/web/hooks/use-gateway.ts:166-170 | only the connection flag changes |
| GatewayClient.Client.OnEvent | apps/web/hooks/use-gateway.ts:184-188 | the cursor of the event's channel moves to it, no other |
| GatewayClient.Client.OnReplay | apps/web/hooks/use-gateway.ts:198-206 | the cursor of each channel ends at its last event of the batch, by position; a channel without one keeps its cursor |
| GatewayClient.Client.OnSubscribed | apps/web/hooks/use-gateway.ts:216-229 | refused channels lose subscription and cursor |
| GatewayClient.Client.SubscribeTo | apps/web/hooks/use-gateway.ts:254-271 | all ids are remembered; exactly the new ones are requested, only while connected |
| GatewayClient.Client.UnsubscribeFrom | apps/web/hooks/use-gateway.ts:273-279 | the ids lose subscription and cursor and the server is told |
| Catchup.NextKeeps | apps/signal/src/gateway.ts:482-524 | every step keeps the catch-up invariant, a disconnect when the connection is intact |
| Catchup.ReadRange | apps/signal/src/gateway.ts:495-506 | a replay is at most 500 events in a row, from behind a cursor that is in the stream and among its newest 1000 entries, else from the oldest entry |
| Catchup.TrimmedIsGone | apps/signal/src/event-bus.ts:105-113 | what trimming drops no read returns any more, and the newest 1000 events stay |
| Catchup.StreamIsSteppable | apps/signal/src/event-bus.ts:193-224 | the batched search reads the stream of the run like the plain scan |
| Catchup.TakeKeeps | apps/web/hooks/use-gateway.ts:184-206 | taking a live event or a replayed batch keeps it |
| Catchup.CatchUpIsComplete | apps/signal/src/gateway.ts:482-514 | over any number of intact disconnects, a caught-up client holds every event fanned out since its first one iff the range read by this connection's replay covers what the client lacked on joining |
| Catchup.ShortGapsAreComplete | apps/signal/src/gateway.ts:495-506 | with reads that succeed and gaps of at most 500 events it always does |
| Catchup.IntactExactly | apps/web/hooks/use-gateway.ts:184-206 | a resumed connection is intact iff nothing was delivered yet, or a live event came last and what was lacking is replayed, or the replay came last and started before all that was lacking |
| Catchup.HoleStays | apps/web/hooks/use-gateway.ts:198-206 | an event behind the cursor that was never delivered is never delivered by any step, unless a read returns it |
| Catchup.PassedOverIsLost | apps/web/hooks/use-gateway.ts:184-206 | once the cursor has passed over a missed event that the replay did not bring, no continuation is complete again unless a read returns it |
| Catchup.ReadsBackExactly | apps/signal/src/event-bus.ts:155-166 | a read returns such an event iff the cursor is unknown and the event among the oldest 500 of a stream of more than 1000 entries |
| Catchup.BrokenDropIsNeverRepaired | apps/web/hooks/use-gateway.ts:184-206 | after a disconnect that is not intact no continuation is complete again, as long as reads find the stream trimmed |
| Catchup.BrokenDropCanHappen | apps/web/hooks/use-gateway.ts:135-156 | such a disconnect is reachable |
| Catchup.FailedReadCanHappen | apps/signal/src/event-bus.ts:181-184 | an event passed over after a failed read is reachable |
| Catchup.LongGapCanHappen | apps/signal/src/gateway.ts:495-506 | and so is one after a read of a gap longer than 500 |
| Catchup.ReadBackCanHappen | apps/signal/src/event-bus.ts:161-166 | an event lost by a disconnect can come back from an untrimmed stream |
| Revocation.SessionRevocationStore.Revoke | apps/signal/src/revocation.ts:53-65 | the cutoff is stored with its time to live, or false and nothing stored |
| Revocation.SessionRevocationStore.IsRevoked | apps/signal/src/revocation.ts:72-86 | revoked iff the token predates the live cutoff; an unreachable store throws; an expired entry is deleted |
| Revocation.SessionRevocationStore.PruneExpired | apps/signal/src/revocation.ts:89-94 | exactly the expired in-memory entries go, and nothing with Redis |
| Revocation.SessionGate.IsSessionRevoked | apps/signal/src/index.ts:439-446 | an unreachable store counts as revoked |
| Revocation.SessionGate.RejectRevokedSession | apps/signal/src/index.ts:467-472 | the cache entry and the socket go |
| Revocation.SessionGate.ValidateSession | apps/signal/src/index.ts:474-520 | no handshake token, the 10 s cache, the verification and the 15 s fallback, with the whole new state |
| Revocation.ValidateKeepsInv | apps/signal/src/index.ts:493-502 | the cache only repeats the claims of the socket's own token |
| Revocation.BarredRefuses | apps/signal/src/index.ts:482-513 | while a cutoff stands no path admits an old token |
| Revocation.RevokedForGood | apps/signal/src/revocation.ts:49-86 | after a revocation no older token of the user is ever admitted, for lifetimes up to the 20 minutes a cutoff is kept |
| Revocation.LongerTokensLeak | apps/signal/src/revocation.ts:33-36 | with any longer lifetime a revoked token is admitted again |
| Revocation.FreshTokenAdmitted | apps/signal/src/revocation.ts:14-18 | while no revocation of its user came after its issue time, a token is admitted iff it verifies or a validation of the last 15 seconds is cached, the store being in reach |
| RevocationRuns.AdmittedExactly | apps/signal/src/index.ts:474-520 | after any run a check succeeds iff the socket brought a token with a subject, the store is in reach, no later revocation of the subject stands, and the token verifies or a validation of the last 15 seconds is cached |
| RevocationRuns.AdmittedWasVerified | apps/signal/src/index.ts:482-513 | nobody is admitted whose token did not verify at a check of the last 15 seconds, however often it was checked since |
| RevocationRuns.RunTells | apps/signal/src/revocation.ts:53-94 | after any run the live cutoff of a user is the last stored revocation, for 20 minutes, pruned or not |
| RevocationRuns.OutageIsBridged | apps/signal/src/index.ts:503-513 | after a check at which the token was verified, failing verifications are bridged for exactly 15 seconds |
| RevocationRuns.FreshCacheDecides | apps/signal/src/index.ts:482-491 | for 10 seconds after a validation it makes no difference whether the token would verify |
| RevocationRuns.LiveExactly | apps/signal/src/index.ts:467-520 | a socket is connected until it closes or a check refuses it, except for a missing token or a verified one without a subject |
| RevocationRuns.CachedExactly | apps/signal/src/index.ts:493-519 | after a check a validation of its socket is cached iff the check succeeded |
| RevocationRuns.ExpiredOnesGo | apps/signal/src/revocation.ts:80-94 | the in-memory store forgets expired revocations when pruned, the user's own when checked |
| Revocation.RefusedOnlyInTheSameSecond | apps/signal/src/revocation.ts:72-85 | a token minted after the cutoff falls under it iff in the same, already begun second |
| OlmSingleFlight.NextKeeps | apps/web/lib/olm-protocol-store.ts:134-153 | every step of every caller keeps the single-flight invariant and never changes a stored key |
| OlmSingleFlight.OneKeyOneIdentity | apps/web/lib/olm-protocol-store.ts:253-311 | one wrap key for good, every caller gets it, every pickle is wrapped under it, at most one identity is created |
| OlmSingleFlight.CallerGetsKey | apps/web/lib/olm-protocol-store.ts:134-153 | from every reachable state a caller that awaits the wrap key can get it, the stored one, and what it stores is kept under it |
| OlmSingleFlight.EnsureCompletes | apps/web/lib/olm-protocol-store.ts:253-311 | from every reachable state an ensureOlmIdentity call can come to its end, leaving an account under the stored key and exactly one identity created |
| OlmSingleFlight.CallsAreTakenUp | apps/web/lib/olm-protocol-store.ts:134-153 | a new caller awaits the flight in progress or a new one; a second ensureOlmIdentity call joins the first |
| OlmSingleFlight.CallerSavesAccount | apps/web/lib/olm-protocol-store.ts:253-311 | a caller with the key saves the account it loaded under the stored key |
| OlmPinning.NextKeepsPinnedExactly | apps/web/lib/olm-protocol-store.ts:386-414 | an operation keeps every session under its pin iff it failed or was vouched for |
| OlmPinning.PinsNeverChange | apps/web/lib/olm-protocol-store.ts:216-225 | no run of operations one after the other changes or drops a pin |
| OlmPinning.EverythingStoredHasASource | apps/web/lib/olm-protocol-store.ts:341-414 | after any run every pin is a bundle with a good signature or a hint of a decrypt, every session from such a bundle or from a pre-key message of its sender |
| OlmPinning.OutboundExactly | apps/web/lib/olm-protocol-store.ts:341-362 | an outbound contact succeeds iff there is a session or the bundle is signed, matches the pin and there is an account; an unsigned or mismatching one stores nothing |
| OlmPinning.DecryptExactly | apps/web/lib/olm-protocol-store.ts:386-414 | a decrypt succeeds iff the message decrypts and either continues a session or is a pre-key message from the pinned or else hinted key; a failure stores nothing |
| OlmPinning.RunKeepsSessionsPinned | apps/web/lib/olm-protocol-store.ts:341-414 | all along a run every stored session was established under its pin's key iff every successful decrypt was vouched for |
| OlmPinning.VouchedCallsStayPinned | apps/web/lib/olm-protocol-store.ts:341-414 | it is enough that every call is vouched for, which the caller can check beforehand |
| OlmPinning.FirstContactIsUnpinned | apps/web/lib/olm-protocol-store.ts:386-414 | a first PreKey message without pin or hint decrypts and leaves a session without a pin |
| OlmPinning.PinnedDeviceKeepsItsKey | apps/web/lib/olm-protocol-store.ts:329-340 | once pinned, a device can only be talked to under that key |
| OlmPinning.OlmProtocolStore.CheckAndPinIdentity | apps/web/lib/olm-protocol-store.ts:216-225 | first contact pins, later contacts must match both keys |
| OlmPinning.OlmProtocolStore.EnsureOutboundSession | apps/web/lib/olm-protocol-store.ts:341-362 | the whole new state, a pin that stays when the account is missing included |
| OlmPinning.OlmProtocolStore.Decrypt | apps/web/lib/olm-protocol.ts:345-392 | session reuse, a new authenticated or unauthenticated inbound session, or a throw |
| OlmPinning.OlmProtocolStore.DecryptMessageFrom | apps/web/lib/olm-protocol-store.ts:386-414 | the whole new state; a pin wins over the hint |
| OlmPinRace.NextAgreesExactly | apps/web/lib/olm-protocol-store.ts:216-225 | a step keeps all writers in agreement with the pins and each other iff it is no overlapping read, and then keeps every pin |
| OlmPinRace.PassesExactly | apps/web/lib/olm-protocol-store.ts:216-225 | a contact passes under the pin it read, an outbound one only if that is its own, or under the identity it wrote |
| OlmPinRace.AnsweredOnce | apps/web/lib/olm-protocol-store.ts:216-225 | a contact gets one answer |
| OlmPinRace.DisagreementReplacesPin | apps/web/lib/olm-protocol-store.ts:216-221 | two writers that disagree both pass, and the second replaces the first one's pin |
| OlmPinRace.PinsStandExactly | apps/web/lib/olm-protocol-store.ts:216-225 | under any interleaving no pin can come to be replaced iff no two disagreeing contacts both find a device without a pin; then everyone passed under the pin |
| OlmPinRace.OverlapCanHappen | apps/web/lib/olm-protocol-store.ts:396-411 | for any two identities there is a run that loses a pin |
| SocketLimiter.AnswersLikeFullLog | apps/signal/src/rate-limiter.ts:37-54 | on every run the answers of a limiter that keeps everything, cleanups of sufficient age included |
| SocketLimiter.AcceptedExactly | apps/signal/src/rate-limiter.ts:37-54 | after any run a check is accepted iff fewer than `limit` accepted events lie in the window up to it |
| SocketLimiter.YoungCleanupShows | apps/signal/src/rate-limiter.ts:62-71 | with any smaller cleanup age a run gets two events accepted in one window at a limit of 1 |
| SocketLimiter.NoWindowExceedsLimit | apps/signal/src/rate-limiter.ts:33-54 | on every run with one limit, cleanups of sufficient age included, no window holds more than `limit` of the events the limiter accepted |
| SocketLimiter.CleaningIsPerKey | apps/signal/src/rate-limiter.ts:62-71 | cleaning the nested table is the one-key step on every key |
| SocketLimiter.SocketRateLimiter.Check | apps/signal/src/rate-limiter.ts:37-54 | the one-key step on its key, nothing on the others |
| SocketLimiter.SocketRateLimiter.Remove | apps/signal/src/rate-limiter.ts:57-59 | all windows of the socket go |
| SocketLimiter.SocketRateLimiter.Cleanup | apps/signal/src/rate-limiter.ts:62-71 | exactly the recent timestamps stay, empty actions and sockets go |
| WebLimiter.InMemoryRateLimiter.Check | apps/web/lib/rate-limit.ts:101-122 | the one-key step on its key, nothing on the others |
| WebLimiter.InMemoryRateLimiter.Cleanup | apps/web/lib/rate-limit.ts:124-131 | only keys whose timestamps are all old go |
| WebLimiter.ScoresZAdd | apps/web/lib/rate-limit.ts:50 | adding a new member at the latest time appends its score |
| WebLimiter.ZAddExactly | apps/web/lib/rate-limit.ts:50 | adding to a sorted set keeps its order and adds that member, unless it was there |
| WebLimiter.LuaMatchesInMemory | apps/web/lib/rate-limit.ts:39-61 | same verdict, remaining count and denial resetAt on every run |
| WebLimiter.MemAnswersExactly | apps/web/lib/rate-limit.ts:101-122 | after any run, limits free to vary, verdict, remaining count and resetAt are told by the admitted requests in the window |
| WebLimiter.LuaAnswersExactly | apps/web/lib/rate-limit.ts:39-61 | the same for the script, whose resetAt of an admitted request is one window from now |
| WebLimiter.NoWindowExceedsLimit | apps/web/lib/rate-limit.ts:101-131 | on every run with one limit, cleanups of sufficient age included, no window holds more than `limit` requests admitted in memory |
| WebLimiter.NoLuaWindowExceedsLimit | apps/web/lib/rate-limit.ts:39-61 | nor admitted by the Lua script |
| WebLimiter.EarlyCleanupShows | apps/web/lib/rate-limit.ts:124-138 | for any wider window the cleanup lets one request too many through |
| WebLimiter.ResetAtIsExact | apps/web/lib/rate-limit.ts:113-118 | every check before a denial's resetAt is denied and one at it is admitted |
| Poll.ParsePollBlock | apps/web/lib/poll.ts:64-89 | the parse of the first opening tag and the first closing tag behind it |
| Poll.CollectOptions | apps/web/lib/poll.ts:74-80 | the first eight non-empty options of the bullet lines |
| PollReading.TagsExactly | apps/web/lib/poll.ts:52 | the block found is the leftmost pair of tags, and of those the shortest; none only if there is no pair |
| PollReading.ParsesExactly | apps/web/lib/poll.ts:64-89 | a text parses iff between its tags a visible line that is no bullet is followed by two options; what is returned, for every text |
| PollReading.ParsedIsPoll | apps/web/lib/poll.ts:64-89 | whatever the text, a parsed poll has a visible question and two to eight visible options |
| PollReading.LineByLine | apps/web/lib/poll.ts:69-80 | what each line contributes |
| PollReading.TrimExactly | apps/web/lib/poll.ts:69 | trimming takes white space off both ends and nothing else |
| PollReading.SpaceExactly | apps/web/lib/poll.ts:69 | white space is that of ECMA-262 |
| PollReading.LinesExactly | apps/web/lib/poll.ts:69 | the lines hold no newline and joined are the text |
| PollReading.JoinsWithNewline | apps/web/lib/poll.ts:55-57 | one newline between two lines |
| PollReading.BlockLines | apps/web/lib/poll.ts:55-57 | the lines of a block: tag, question, bulleted options, tag |
| PollReading.InsertsBehindDraft | apps/web/hooks/use-poll-creator.ts:49-51 | the block goes behind an empty line unless the draft is all white space |
| Poll.FormatIsTagged | apps/web/lib/poll.ts:55-57 | a block is the two tags around newline-framed text |
| Poll.MiddleParses | apps/web/lib/poll.ts:69-81 | the text between the tags parses back to question and options |
| Poll.RoundTrip | apps/web/hooks/use-poll-creator.ts:49-51 | printing into a draft and parsing gives everything back iff the draft has no opening tag, the question is no bullet, and neither question nor options have a closing tag |
| PollTally.EmojiVotesForOne | apps/web/lib/poll.ts:17 | each vote emoji votes for its own option only |
| PollTally.TallyPollVotes | apps/web/lib/poll.ts:98-129 | votes are the occurrences of the option's emoji, shares the percentages rounded half up, own votes and voters the users with such a reaction |
| PollTally.TallyConserves | apps/web/lib/poll.ts:113-128 | votes sum to the total, voters do not exceed it, shares sum to 100 within half a point per option |
| NotificationDedup.NotificationMemory.MarkNotified | apps/web/lib/notification-manager.ts:114-123 | set and queue keep the same at most 500 distinct ids; the oldest leaves |
| NotificationDedup.NotificationMemory.WasAlreadyNotified | apps/web/lib/notification-manager.ts:125-127 | true iff remembered |
| NotificationDedup.NotificationMemory.PassesDedup | apps/web/lib/notification-manager.ts:154-158 | passes iff empty or not remembered, and is then remembered |
| NotificationDedup.QueueIsLogTail | apps/web/lib/notification-manager.ts:110-123 | the memory is the last 500 ids that passed |
| NotificationDedup.PassesAgainExactly | apps/web/lib/notification-manager.ts:154-158 | an id passes again iff at least 500 distinct others passed since |
| AttachmentDecay.LogFracInUnit | packages/shared/src/attachment-decay.ts:123 | the logarithmic fraction lies strictly between 0 and 1 |
| AttachmentDecay.ThresholdBelowWindow | packages/shared/src/attachment-decay.ts:116-135 | window between 7 and 30 days, threshold positive and below it |
| AttachmentDecay.LifetimeInRange | packages/shared/src/attachment-decay.ts:69-92 | no lifetime iff above the cap, else 14 to 1095 days |
| AttachmentDecay.DaysFollowSize | packages/shared/src/attachment-decay.ts:69-135 | lifetime and window are the two interpolations to the nearest day, the threshold half the window up to 14 days |
| AttachmentDecay.LargerNeverLivesLonger | packages/shared/src/attachment-decay.ts:4 | lifetime never grows with size |
| AttachmentDecay.ExtendGuardNeverFires | packages/shared/src/attachment-decay.ts:141-167 | an access renews iff it is within the threshold of a live expiry |
| AttachmentDecay.UsedFilesStayAlive | packages/shared/src/attachment-decay.ts:137-167 | a file used at gaps within its threshold never expires, never loses lifetime, never exceeds one window past its last access |
| AttachmentDecay.LongerGapsCanExpire | packages/shared/src/attachment-decay.ts:156-159 | one millisecond more than the threshold can find it expired |

## Left out

- Redis, Socket.IO, HTTP and IndexedDB: a sorted stream, a room set, a FIFO inbox and an input for each outcome; IndexedDB failures are not modelled.
- Several replicas: every replica re-emits each bus event, so duplicates appear there; the model has one replica.
- Disconnect announcements and typing state in the gateway, and handlers that finish after their socket is gone.
- Gateway rate limiting and `validateSession` inside handlers: a refused event starts no handler.
- Catch-up assumes the client stays subscribed and authorized, that fan-out follows stream order, that only persisted event types are published, and that the stream keeps an event until it is fanned out; the search and read of one replay are one step there.
- Catch-up's server side and single-flight creation are state machines on values, not classes: their subject is interleaving, and what is lost is aliasing of the state objects.
- Iteration order of JavaScript sets and maps: the loops take elements in any order, so ties are broken arbitrarily.
- SearchIndex.LocalSearchIndex.AddDocument: the cap clauses assume non-empty ids, because the source's eviction loop treats an empty id as no candidate.
- `tokenise`, `recencyScore` and `parseLocalSearchQuery`: the first two are parameters, the parsed query is an input; `stats` and the author's display fields are dropped.
- Revocation.RevokedForGood: `validateSession` is one step, so a revocation landing between its awaits is not covered; tokens verify only before their `exp`.
- Without a configured key set `validateSession` returns true at once; that mode is not modelled.
- EventBus.RedisEventBus.FindStreamEntryId: the stream is fixed during the search.
- Subscriber callbacks that throw and pub/sub messages that do not parse: the source logs and skips them.
- `gapTooLarge` on resume is never filled, because replay catches its own errors.
- OlmPinning.RunKeepsSessionsPinned: each operation of the pinning model is one step, so runs are sequential; overlapping first contacts are modelled for the pins alone, where a decrypt without a hint writes none.
- SocketLimiter.NoWindowExceedsLimit: a run lasts until the socket is removed.
- Olm cryptography, AES wrapping and pickle contents; `resetOlmIdentity` and a change of user are outside the runs.
- WebLimiter.LuaMatchesInMemory: one window length per key and no collision of the random member suffix.
- Floating point: scores, shares and the decay curve use real numbers; `Math.log` is any strictly increasing function with log 1 = 0. Storage cost is left out.
- AttachmentDecay.LifetimeInRange: the curve is between 0 and 1, as its default is.
- Message text is a sequence of characters; UTF-16 surrogates are not modelled.
- React components, push, presence heartbeats in Redis, and the small pure helpers: I/O or easy.

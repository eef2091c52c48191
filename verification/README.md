# Plecture session runtime: a verified model

Plecture keeps every session's events in a durable log, streams that log to clients, and
dispatches it to channels. This project models the parts of the runtime whose correctness is
spread over several functions, and proves what they promise over every run rather than on
examples. Loops, counters and objects that change in place are methods with invariants and
classes; what the outside world may answer (a database, a process, a clock, other writers)
is a method that may answer anything its contract allows.

The components, and the one thing each is for:

- **The event log across re-creations** (`Incarnations`, `EventStore`). A session owns a list of
  incarnations, each an append-only log, of which only the newest grows. Other processes append
  and rotate between any two database reads (`Store.Interfere`), also inside one call. Feeding what
  a read answers back into the next one delivers every event exactly once, in order.
- **Live streaming** (`SessionHub`, `ReplayLoop`, `LiveLoop`, `EventBus`, `StreamExactness`, `StreamHistories`,
  `ResponseScan`, `BusClient`, `ResumeToken`, `Decimal`). The hub's contract is
  derived from its reader loop. `HandleStream` replays up to the hub's boundary and goes on live,
  and a client reconnects with the last id it read. When that is one uninterrupted stream, and
  when it is not, is decided both ways.
- **The dispatcher** (`Relay`, `Deliveries`, `ChannelHealth`, `ChannelRetry`, `Dispatcher`). A consumer with a
  durable cursor that appends its failures to the log it reads. Nothing passed is unanswered for,
  nothing is delivered twice in a lifetime, and the relay of errors about errors dies out.
- **Nested effects** (`NestedOutputs`, `NestingChecks`, `LayerRun`). A public output is a view through a
  stack of bindings; writing it routes to the innermost record. The load-time checks guarantee
  the run-time writes, setup runs outside in and unwinding inside out.
- **The workflow graph** (`WorkflowGraph`). A three-colour search that accepts exactly the graphs
  without a cycle.
- **The session tree** (`SessionTree`, `SessionRelations`). Normalising parent and child links for every
  map iteration order, and the tree relation computed from the result.
- **Task extension** (`TaskExtends`). A checker and a separate merger that agree.
- **Cutover** (`LegacyCursor`) and **the admit cache** (`AdmitCache`).

`Wrappers`, `SortedNames` and `Events` are shared: two result shapes, Go's sorted key lists, and the event
with its filter. A Go `nil` map entry is an absent key, and 64-bit sequence numbers are unbounded
integers except in resume tokens, where the parser's range is part of the contract.

Where code and comments differ the code was followed. `ReadFromStream` documents that an empty
resolved id means the session has no stream yet, but it answers the same for a destroyed session
that has one; both its callers then keep the id they had, and `Incarnations.ForgettingTheStreamLosesEvents`
shows what a caller that did not would lose. Keeping the id does not save a replay, see below. `wouldCreateCycle` also answers true for a parent that only leads into a
cycle. Two sessions on a parent cycle can each see a parent, or each an ancestor, in the other;
`SessionRelations.ViewsAreDual` says exactly when. A retry appended by the operator's command is not recorded in
a running process's admit cache; `AdmitCache.Cache.AppendElsewhere` says exactly when that shows, and `AdmitCache.RetryElsewhere` shows it.

**When a stream is exact.** A connection replays the log from where it resumes up to the hub's position when it
subscribed (the boundary) and then forwards the hub's feed, leaving out what the replay already wrote. Other
processes may append, destroy and re-create the session between any two steps, the hub may lag, and no
assumption is made about any of that. `StreamExactness.Exact` says that frames are the first of the matching events after
the origin: in order, once each, none left out. The origin is the position resumed at; without a token it is the start the
connection was given, in the stream its first read finds, or if it never found one, in the stream the feed begins
in. `StreamExactness.Harm` is what lies between the place the replay left off and the place the feed begins, whichever comes
first: records left out, or records sent again. `StreamExactness.ExactIffUnharmed`, and with it `EventBus.HandleStream` for
every accepted connection: its frames, cut anywhere, are exact until the first one written live, and from there on if and only
if the filter selects nothing of the harm.

What a replay does is a function of its start and its reads (`ReplayLoop.ReplayOf`), each read made at some moment after the
subscription from where the ones before it had led (`ReplayLoop.ReadsOk`). It can end in three manners.

- *Clean*: at the boundary, past it, or at the end of the log. If the boundary's log held an event when the
  connection subscribed and the origin was not newer than its stream, no harm is done (`CleanIsUnharmed`).
  Otherwise a replay can run past the hub, and the feed then repeats what lies between: `StreamHistories.RotatingTwiceRepeats` is
  a history in which the hub stands at an empty incarnation while the session is rotated twice.
- *Dark*: its last read found the session without a live stream and answered nothing, and the replay broke off where it
  stood. The handler keeps its stream id, as said above, but goes on to the live feed all the same, so everything
  between that position and the boundary is never written, and the next frame's id moves the client past it
  (`StreamHistories.DarkReplayLosesEvents`).
- *Over*: without a token, the first read started past the boundary and found a record there. The replay is
  cut back to the boundary, so the client is sent records from before its start. That takes no rotation, only a hub
  one poll behind (`StreamHistories.StartPastTheBoundaryRepeats`). It occurs exactly when a connection without a token starts past the
  boundary and its first read resolves to the boundary's stream at a moment when that holds a record at or after the start
  (`CutBackIffLate`); on a session that stays live, whenever such a record is there at subscription (`SteadyStartIsCutBack`), as it
  is for `?tail=N` (`EventBus.TailPastTheHubIsCutBack`). Such a connection is exact from the boundary instead (`ExactFromTheBoundary`).

A destroyed session comes back only as a new incarnation, so a session that is live at subscription and at the end of the
replay, with no incarnation in between, darkened none of its reads. What a caller can rely on follows: on such a session, if the
hub has come to its current stream, or the boundary's log holds an event and the connection resumes in no newer stream, a connection
with a token, or with a start not past the boundary, does no harm (`CalmIsUnharmed`). With the boundary past the first
sequence of its log, a grounded connection that found a stream does no harm if and only if its replay ended cleanly
(`UnharmedIffClean`).

A client is exposed to one more loss. It moves its position as soon as it reads a frame's id line, but
hands the event on at the blank line after it. A connection that breaks off in between loses that event:
`BusClient.Subscribe` gives the count, one event for each such cut and none otherwise.

`BusClient.Subscription` describes a subscription as the chain of the connections it made, one after another, each opened by
the token of the position that the ones before it led to; the callbacks are the line-by-line scan of what came through
of them. While no connection does harm, the callbacks are complete but for the torn frames (`HarmlessRun`). That is so
of every subscription that begins with the hub in the session's current stream, and not behind the start, on a
session that stays live (`SteadyRun`). It is also so if each connection had a sound boundary and a clean replay (`SoundRun`), where
it is proved, not assumed, that a reconnect never resumes in a stream newer than the hub's. After a connection that did
harm, the ones that follow are exact again from where it left the client, until the next harm (`HarmlessStretch`).

## Model

| member | source | states |
|---|---|---|
| Incarnations.ReadLosesNothing | app/internal/eventlog/store.go:196-248 | one read, whatever was appended or rotated while it ran, splits the unread events into its batch and what is still unread at the position it returns |
| Incarnations.ReadMakesProgress | app/internal/eventlog/store.go:216-248 | a read that finds a live stream is non-empty whenever an undelivered event existed when it took its snapshot |
| Incarnations.RunDeliversExactlyOnce | app/internal/eventlog/store.go:196-248 | over any run of reads, each resumed at what the last one returned, with appends and rotations anywhere in between, the concatenated batches followed by the still unread events are all events after the start, each once, in (incarnation, sequence) order |
| Incarnations.ForgettingTheStreamLosesEvents | app/internal/eventlog/store.go:190-205 | a read of a destroyed session finds no stream; a caller that forgot its own id then never sees an event of the next incarnation, while one that kept it still has that event to read |
| Incarnations.RestAfterRecord | app/internal/eventlog/store.go:196-248 | resuming just after any delivered event leaves exactly the events after it unread |
| Incarnations.UnreadIsOrdered | app/internal/eventlog/store.go:196-248 | unread events are strictly ordered by incarnation and then sequence, so none repeats |
| Incarnations.UnreadGrows | app/internal/eventlog/store.go:196-255 | what is unread only gains events at its end as the log grows and rotates |
| EventStore.Store.Interfere | app/internal/persistence/events.go:15-51 | other writers only append to the newest incarnation while it is live, destroy the session, or re-create it as a new incarnation; superseded and destroyed incarnations never change |
| EventStore.Store.ListCurrentEventsFrom | app/internal/persistence/events.go:131-164 | one atomic snapshot of the current id and its rows from a cursor |
| EventStore.Store.ReadFromStream | app/internal/eventlog/store.go:197-248 | each return is a read step against a snapshot of the log taken during the call, for any interference between its database reads |
| EventStore.Store.WalkOn | app/internal/eventlog/store.go:222-247 | the walk over later incarnations skips only logs that were empty of unread events |
| EventStore.Store.List | app/internal/eventlog/store.go:155-177 | a page is the matching rows up to some row, cut at the limit, and the cursor is one past the last row looked at |
| EventStore.PageLosesNothing | app/internal/eventlog/store.go:155-177 | a page and what a later, grown log still holds from its cursor are together everything that matches |
| EventStore.PagesConcatenate | app/internal/eventlog/store.go:155-177 | pages with any positive limit, each resumed at the last cursor, concatenate to the filtered log even when the log grows between them |
| EventStore.EmptyPageIsTheEnd | app/internal/eventlog/store.go:155-177 | an empty page with a positive limit means nothing matching is left |
| EventStore.Store.Tail | app/internal/eventlog/store.go:264-289 | the ring ends as the last n matching rows, oldest first |
| EventStore.Store.TailOffset | app/internal/eventlog/store.go:297-325 | the sequence of the n-th last matching row, 0 when there are fewer or no session |
| EventStore.TailOffsetStartsTheTail | app/internal/eventlog/store.go:291-325 | listing from the tail offset gives exactly what Tail gives |
| Events.Match | contracts/event/event.go:260-280 | the filter loop selects exactly the events its types, sources and direction admit |
| Events.MatchTypeIs | contracts/event/event.go:282-293 | a pattern selects its own text, a star everything, and a glob exactly the types that begin with what stands before its star |
| Decimal.IntRoundTrip | contracts/event/resume.go:15-32 | a number parses back from its decimal form if it fits 64 bits, and any other is refused |
| Decimal.ParseIntIs | contracts/event/resume.go:20-32 | what is read is a sign or none and then digits, and their value if it fits 64 bits |
| Decimal.DigitsCount | contracts/event/resume.go:20-32 | a digit written behind others counts ones, and makes the others count tens |
| ResumeToken.RoundTrip | contracts/event/resume.go:15-32 | a token parses back to its stream id and number if and only if the id holds no colon and the number fits 64 bits |
| ResumeToken.TokensAreDistinct | contracts/event/resume.go:15-17 | two positions on colon-free ids never share a token |
| SessionHub.Reader.Poll | app/internal/sessionhub/registry.go:110-137 | one pass of the hub's loop moves past exactly the batch it handed over, or stays when a read fails or the session has no live stream; the first stream it finds is where its feed begins |
| SessionHub.Reader.Broadcast | app/internal/sessionhub/registry.go:140-157 | a batch reaches a subscriber in order, each frame with its place, up to a full queue |
| SessionHub.Reader.Subscribe | app/internal/sessionhub/registry.go:192-205 | a subscription begins at the watermark: everything of that stream below it is already in the log |
| SessionHub.Reader.Receive | app/internal/sessionhub/registry.go:58-68 | frames come out in the order the events follow the boundary, none missing unless the subscription was dropped |
| LiveLoop.Live | app/internal/eventbus/server.go:311-327 | live frames are exactly the matching records of the feed that the moving comparison lets through, in order, each with the id to resume at |
| LiveLoop.SkipAgrees | app/internal/eventbus/server.go:311-327 | comparing with the last frame written skips what comparing with the end of the replay skips, unless that frame is of an older stream |
| LiveLoop.ForwardedIsKept | app/internal/eventbus/server.go:311-327 | so over a whole feed of which the filter selects nothing of an older stream the loop forwards exactly the records that the end of the replay does not cover, rotations included |
| LiveLoop.FirstWritten | app/internal/eventbus/server.go:311-327 | the first frame written live is the first that the end of the replay lets through, whatever the feed |
| LiveLoop.KeptOfTheFeed | app/internal/eventbus/server.go:311-327 | in the replay's own stream, the feed without what the replay covered is exactly what follows the position it stopped at |
| ReplayLoop.StopIsBetween | app/internal/eventbus/server.go:283-303 | a batch cut at the boundary was followed through exactly up to the boundary |
| ReplayLoop.WriteBatch | app/internal/eventbus/server.go:279-295 | the frames written for a batch are those of its matching rows before the boundary, each with the id to resume at, and the loop stops exactly if a row was left |
| ReplayLoop.ReplayIs | app/internal/eventbus/server.go:266-310 | whatever reads a replay has made, it has passed exactly the records between its origin and where it stands, and it ends at or past the boundary, or dark, or cut back; it is dark exactly when its last read met a session without a live stream |
| ReplayLoop.OverIffFirstReadOverruns | app/internal/eventbus/server.go:257-303 | a replay is cut back if and only if its first read, without a token and from past the boundary, found a record in the boundary's stream |
| ReplayLoop.SteadyIsNotDark | app/internal/eventbus/server.go:266-310 | a session that stays live from subscription to the end of the replay, without a new incarnation, darkens no read |
| ReplayLoop.ReplayRead | app/internal/eventbus/server.go:266-310 | one round of the replay loop makes one read from where it stands and writes what that read adds, for any outcome of it: records, an empty log, a destroyed session, a failed read |
| ReplayLoop.Replay | app/internal/eventbus/server.go:266-310 | the loop has written exactly the matching events its reads have passed, and stops exactly when they have brought it to its end or it is cut |
| StreamExactness.ExactIsOfAPrefix | app/internal/eventbus/server.go:212-341 | exact frames are those of some first records after the origin |
| StreamExactness.GapIsBetween | app/internal/eventbus/server.go:266-327 | what is unread at a position is the gap up to a later one and what is unread there |
| StreamExactness.LeftOut | app/internal/eventbus/server.go:266-327 | when the replay left off before the feed begins, the harm is what lies between, and none of the feed is skipped |
| StreamExactness.SentAgain | app/internal/eventbus/server.go:266-327 | when the feed begins before the place to continue from, what the skip test lets through is the harm and then what is due |
| StreamExactness.HiddenHarm | app/internal/eventbus/server.go:311-327 | if the filter selects nothing of the harm, nothing it selects of the feed is of a stream older than the replay's |
| StreamExactness.ExactIffUnharmed | app/internal/eventbus/server.go:266-341 | the frames of a connection that went on live, cut anywhere, are exact until the first live one, and from there on if and only if the filter selects no record between where the replay left off and where the feed begins but what the skip test leaves out; the same condition says whether a drained connection withholds anything |
| StreamExactness.CleanIsUnharmed | app/internal/eventbus/server.go:266-327 | a clean replay from a stream not newer than the boundary's, whose log held an event, does no harm |
| StreamExactness.UnharmedIffClean | app/internal/eventbus/server.go:266-327 | under the same conditions, with the boundary past the first sequence of its log, a connection that found a stream does no harm if and only if its replay ended cleanly |
| StreamExactness.CalmIsUnharmed | app/internal/eventbus/server.go:212-341 | on a session that stays live, with the hub in its current stream or an event in the boundary's log and no newer stream resumed in, a connection with a token or a start not past the boundary does no harm |
| StreamExactness.CutBackIffLate | app/internal/eventbus/server.go:257-303 | a replay is cut back if and only if the connection brought no token, starts past the boundary, and its first read resolved to the boundary's stream when that held a record at or after the start |
| StreamExactness.SteadyStartIsCutBack | app/internal/eventbus/server.go:257-303 | on a session that stays live, a start without a token past the boundary of its current stream is cut back if a record at or after it is there at subscription |
| StreamExactness.ExactFromTheBoundary | app/internal/eventbus/server.go:283-303 | a connection cut back to the boundary, or one that never found a stream, is exact from where the feed begins |
| StreamHistories.DarkReplayLosesEvents | app/internal/eventbus/server.go:273-306 | a session of three events is destroyed, read by the replay, and re-created: the third event is written, the first two never are, and the id of its frame is past them |
| StreamHistories.StartPastTheBoundaryRepeats | app/internal/eventbus/server.go:255-303 | a history of three events with the hub standing at the second: a connection that starts at the third is sent the second too |
| StreamHistories.RotatingTwiceRepeats | app/internal/eventbus/server.go:265-327 | a history of four incarnations in which a replay reads past the hub, which then sends an event again |
| EventBus.TailPastTheHubIsCutBack | app/internal/eventbus/server.go:257-303 | `?tail=N` on a session that stays live is cut back, and sends what lies between, whenever its last N matching events begin past the boundary |
| EventBus.Opening | app/internal/eventbus/server.go:228-263 | a fresh connection starts where it asked, or where the last N matching events of the log of that moment begin; a foreign stream is refused |
| EventBus.HandleStream | app/internal/eventbus/server.go:212-341 | whatever is appended or rotated meanwhile, the frames of an accepted connection, cut anywhere, are exact if it was cut in its replay or before its first live frame, and otherwise if and only if it does no harm that its filter selects; it is then known to withhold only what the hub has not read; it is refused for a malformed token or a foreign stream |
| EventBus.FrameIdResumes | app/internal/eventbus/server.go:289-327 | the id on any written frame is a position from which exactly the rest is still to be written |
| EventBus.FramesAreNamed | app/internal/eventbus/server.go:289-327 | every frame written, harm or not, has an id that parses to a place in one of the session's streams |
| ResponseScan.Dispatch | contracts/event/client.go:166-195 | the scanning loop: the position follows every id line that parses and stays at one that does not, and each callback gets its event with the sequence last read |
| ResponseScan.CutResponse | contracts/event/client.go:166-195 | cut after any line, a response has moved the position past every frame whose id line came, but handed on only the frames that came whole |
| ResponseScan.AllButCounts | contracts/event/client.go:166-195 | callbacks that are the owed ones but for a number lost are the owed ones if and only if that number is zero |
| BusClient.ConnectionContinues | contracts/event/client.go:117-195 | a connection cut after any line, the frames of which were exact so far, carries the subscription on to the place after the last id read, with exactly the next callbacks but for one event if the cut fell inside a frame |
| BusClient.ReconnectIsGrounded | contracts/event/client.go:145-150 | a subscription that stands in no stream the hub has not come to resumes in a stream no newer than the boundary's |
| BusClient.HarmlessIffExact | contracts/event/client.go:145-195 | what came through of a connection is exact if and only if it did no harm that its filter selects, or none of its live frames came through |
| BusClient.HarmlessRun | contracts/event/client.go:117-195 | over any chain of connections that do no harm, the callbacks are those owed for the events from where the chain began, in order and with their sequences, but for one event at each torn frame |
| BusClient.SteadyRun | contracts/event/client.go:113-142 | if the hub stands in the session's current stream, at or past the start asked for, and the session stays live, no connection of the chain does harm |
| BusClient.SoundRun | contracts/event/client.go:117-195 | sound connections do no harm, and after each of them the subscription stands in no stream that the hub has not come to |
| BusClient.HarmlessStretch | contracts/event/client.go:117-195 | whatever the connections before it did, any stretch of the chain that does no harm makes exactly the callbacks for the events after the position it was opened at, but for one at each torn frame |
| BusClient.StreamOnce | contracts/event/client.go:145-195 | the connection is opened by the token of the position, after the hub's last move and with its frames accounted for; position and callbacks are the scan of the lines that came through of it; an attempt that is refused changes nothing, and is refused only when a database read failed |
| BusClient.Subscribe | contracts/event/client.go:117-142 | the callbacks are what the chain of its connections makes, each connection opened where the ones before it led; every attempt is accepted unless a database read failed; as long as none does harm the filter selects, the callbacks are the matching events from where the subscription began, in order and with their sequences, but for one event lost at each cut inside a frame, so complete if and only if no cut fell there; none does harm if each is sound, or if the hub had caught up at the start and the session stays live |
| Relay.OwesIs | app/internal/dispatch/dispatcher.go:196-215 | an event is owed to a defined channel that includes its type, a resumed session to those that include instructions too; an error never to the channel it is about, and an error about an error to none |
| Relay.ErrorsAreSmaller | app/internal/dispatch/dispatcher.go:196-215 | a recorded failure is of a lower generation than the event it is about, and cheaper |
| Relay.OwedPlacesAreFew | app/internal/dispatch/dispatcher.go:205-215 | an error about a channel is not owed to that channel, so at most n - 1 of n channels |
| Relay.FailuresStayInBudget | app/internal/channel/retry.go:152-171 | however many channels fail, the errors appended and all they can lead to stay within n + n(n - 1) for an ordinary event |
| Relay.TotalIsQuadratic | app/internal/dispatch/dispatcher.go:196-215 | k unread events lead to at most k times n squared channel errors |
| Deliveries.FannedOutSettles | app/internal/dispatch/dispatcher.go:203-285 | once the workers are done and their failures recorded, every channel owed the event has it or an error about it |
| Deliveries.FailuresFit | app/internal/dispatch/dispatcher.go:203-285 | the failures of one event are of distinct channels it is owed to |
| ChannelHealth.StreakIsTheTail | app/internal/dispatch/channel_health.go:21-115 | the recorded streak is the run of failures since the last success: its count, its first and last time, its last channel, and the newest error text given in it |
| ChannelRetry.Retry | app/internal/channel/retry.go:87-122 | at most the allowed attempts are made, all but the last failed, with the doubling waits between them; it gives up only after all, or when cancelled |
| ChannelRetry.BackoffDoublesToTheCap | app/internal/channel/retry.go:93-120 | the k-th wait is the base doubled k times, capped, except that the first is never capped |
| Dispatcher.Session.FanOut | app/internal/dispatch/dispatcher.go:203-264 | one worker runs for each channel that is owed the event and does not have it, and for no other; the deliveries are those of the workers that succeeded, the failures those of the others, with their attempts and causes |
| Dispatcher.Session.RecordFailures | app/internal/dispatch/dispatcher.go:277-336 | one channel error per failure, with its channel, event and attempts, unless cancelled; all within the budget of the event |
| Dispatcher.Session.ProcessEvent | app/internal/dispatch/dispatcher.go:195-313 | the event is held exactly when there are failures, all of them attempted, the repair predicate is wired, the event's age is within the limit, and the predicate, then asked once, answers true; a held event stays at the head and remembers who has it; one not held is settled and the streak told, unless cancelled |
| Dispatcher.Session.Commit | app/internal/dispatch/dispatcher.go:142-182 | committing past an event keeps every earlier event answered for, also when the commit fails |
| Dispatcher.Session.Drain | app/internal/dispatch/dispatcher.go:142-182 | a drain keeps the invariant however it ends; it is held only at the head event, within the limit of that event's own time, and exactly when the repair predicate answered true for it; an undisturbed one reaches the end of the log it read and lowers what is left by a generation |
| Dispatcher.Session.SeedCursor | app/internal/dispatch/dispatcher.go:125-137 | an unseeded cursor starts at the log's end unless reading the log or the commit fails; a cursor that exists never moves |
| Dispatcher.Session.Restart | app/internal/dispatch/dispatcher.go:72-107 | a crash forgets only what one lifetime remembers; everything owed stays answered for |
| Dispatcher.Session.Run | app/internal/dispatch/dispatcher.go:72-182 | any number of drains with holds, failed commits, cancellation and other writers keeps the invariant; while commits succeed, each channel gets the events of the lifetime in log order and none twice; as many drains are skipped as reads of the cursor or log failed; some drain is held exactly when the repair predicate answered true; three drains in a row that were not skipped, held or cancelled reach the end of the log, with at most n squared errors per event |
| Dispatcher.Session.Serve | app/internal/dispatch/dispatcher.go:72-182 | over any number of lifetimes, each stopped anywhere, every event from the seeded cursor to the committed one is delivered or answered for on each channel owed it, and nothing was delivered that was not owed; a cursor seeded on the way begins no earlier than where the log then ended, and one is seeded unless a read or a commit failed |
| NestedOutputs.ProjectLayerOutputs | app/internal/effect/layer_project.go:57-94 | on classified bindings the views are the one projection there is of the layers over each other, none for an empty chain; an error exactly when the records do not line up or a computation whose sources are all produced fails |
| NestedOutputs.ViewsAreTheProjection | app/internal/effect/layer_project.go:57-106 | what a projection is, key by key: a layer shows its own values; else under a direct binding what the inner key holds, or nothing with it; under a computed one what the computation yields once all its sources are produced, nothing while one is missing; and no other key |
| NestedOutputs.ViewsFailIffBreaking | app/internal/effect/layer_project.go:76-82 | projecting fails exactly when, over what the layers inside it show, some computed binding with all its sources produced fails |
| NestedOutputs.RouteMutableKey | app/internal/effect/layer_project.go:168-181 | the walk finds the innermost output behind a public key, or fails exactly at an unbound or computed key |
| NestedOutputs.RoutedKeyReads | app/internal/effect/layer_project.go:57-94 | a routed key shows exactly what its inner output holds, or is absent with it |
| NestedOutputs.RoutedKeyReadsItsTarget | app/internal/effect/layer_project.go:168-181 | a routed key is rendered from its target and nothing else |
| NestedOutputs.TaskState.ApplyMutableOutputs | app/internal/effect/layer_project.go:123-164 | keys are written in sorted order until one does not route, earlier writes stay; on any error the public contract is unchanged, otherwise it is the projection of the records as written plus the old unbound keys, and current: it shows what is projected on every bound or projected key |
| NestedOutputs.KeepUnbound | app/internal/effect/layer_project.go:150-162 | for every map order the merge keeps exactly the old keys nothing binds or projects |
| NestedOutputs.WrittenAt | app/internal/effect/layer_project.go:132-141 | each inner output ends with the value of the last key in sorted order that reaches it, all others are untouched |
| NestedOutputs.WrittenKeyReadsBack | app/internal/effect/layer_project.go:123-164 | every updated key reads back its value, or that of the last key sharing its inner output |
| NestedOutputs.UnwrittenKeyStays | app/internal/effect/layer_project.go:123-164 | in the stored public contract, a key not rendered from a written inner output is unchanged, through any mix of direct and computed bindings, if that contract was current |
| NestedOutputs.UnboundKeyIsKept | app/internal/effect/layer_project.go:149-162 | a public key without a binding keeps its value through the merge |
| NestedOutputs.WriteIsIdempotent | app/internal/effect/layer_project.go:123-164 | applying the same updates again changes neither the records nor the contract |
| NestingChecks.ValidateLayer | app/internal/config/nesting_resolve.go:174-216 | accepts exactly the layers whose bindings are declared, agree in type and mutability with the inner outputs, and whose joint satisfies the inner inputs |
| NestingChecks.ValidateBoundInputs | app/internal/config/nesting_resolve.go:218-251 | every required inner input is bound, and a closed schema rejects nothing bound |
| NestingChecks.ValidateChainScope | app/internal/config/nesting_resolve.go:114-123 | every outer layer's scope is absent or the innermost task's effective scope |
| NestingChecks.ValidateCount | app/internal/config/nesting_resolve.go:125-149 | at most one layer declares a terminal, and at most one a process probe |
| NestingChecks.ValidateChainEnv | app/internal/config/nesting_resolve.go:151-170 | every injected name is valid and injected by one layer of the chain only |
| NestingChecks.ComposedExposure | app/internal/config/nesting_resolve.go:256-278 | the exposure of each layer is the last surfacing binding per inner key, layer by layer |
| NestingChecks.ExposureIsRouting | app/internal/config/nesting_resolve.go:256-278 | at every depth each exposure entry is a route of a declared public key, and every such route has an entry |
| NestingChecks.ExposureIsWhatRoutes | app/internal/config/nesting_resolve.go:256-278 | each entry of the innermost exposure is a route the run-time walk takes, and every routable declared key's inner output is in it |
| NestingChecks.ValidateChainTerminalEndpoint | app/internal/config/nesting_resolve.go:280-303 | the terminal's layer publishes the endpoint in the composed contract, from its own locals when it is the outermost |
| NestingChecks.ValidateNesting | app/internal/config/nesting_resolve.go:83-112 | accepts exactly the chains all rules accept |
| NestingChecks.RouteIsRouteTo | app/internal/effect/layer_project.go:168-181 | the run-time walk arrives where following the bindings layer by layer does |
| NestingChecks.MutableKeysAreWritable | app/internal/config/nesting_resolve.go:183-211 | in an accepted chain a mutable public key never meets a computed binding, is routed exactly when every layer on its way binds it, and lands on an inner output declared mutable |
| NestingChecks.MutableWritesReadBack | app/internal/config/nesting_resolve.go:188-211 | in an accepted chain, on records of a setup, writing a mutable key that is bound on its way is routed and reads back |
| NestingChecks.TypesAgreeAlongRoutes | app/internal/config/nesting_resolve.go:198-204 | in an accepted chain the types declared at both ends of a route agree when every layer on the way declares one |
| NestingChecks.RoutedKeyShows | app/internal/effect/layer_project.go:57-94 | a routed key shows what the layer at the end of its route shows |
| NestingChecks.TerminalIsReachedThroughTheContract | app/internal/config/nesting_resolve.go:280-303 | in an accepted chain the composed contract's endpoint is the terminal layer's own |
| NestingChecks.NestingChain | app/internal/config/nesting_resolve.go:31-48 | the walk follows references over distinct source files and ends at a plain task, or stops exactly at a missing effect or a source file seen before |
| LayerRun.EnclosingEnvOf | app/internal/effect/layer_run.go:230-236 | the assignments of the layers outside, outermost first |
| LayerRun.EnclosingEnvIs | app/internal/effect/layer_run.go:230-254 | all the variables of every layer outside, each layer's in ascending order of their names and in one piece, the layers one after the other |
| LayerRun.NoNameIsAssignedTwice | app/internal/effect/layer_run.go:230-254 | when layers inject different names, no variable is assigned twice and each has the value its layer injected |
| LayerRun.AcceptedChainsAssignOnce | app/internal/config/nesting_resolve.go:151-170 | a chain whose environment names were accepted at load time never assigns a variable twice at run time |
| LayerRun.SetUpLayer | app/internal/effect/layer_run.go:66-133 | one layer's record: produced, holding exactly what the one successful run of its setup emitted (nothing for a layer without a setup), if and only if its schema accepts that; a setup that resolved is run once, one that did not is not; a produced outer layer's joint is rendered once, over its inputs and what it emitted |
| LayerRun.RunLayers | app/internal/effect/layer_run.go:43-136 | the records are those of a prefix of the layers, only the last may have failed, each of them made of what its own run emitted; each setup is attempted once, outside in, and run in its enclosing environment exactly if it resolved, with the inputs the joint outside it bound; the error is nil exactly when all are produced, and otherwise the last layer failed, its joint did not render, or the next layer's schema refuses what was bound |
| LayerRun.LayerSelf | app/internal/effect/layer_run.go:216-225 | a layer's own public contract, or what it recorded when the chain cannot be projected |
| LayerRun.SelfIs | app/internal/effect/layer_run.go:216-225 | that contract is the layer's view in the projection of the records, if they line up and there is one |
| LayerRun.RunLayerCleanup | app/internal/effect/layer_run.go:150-211 | every owed, still declared layer with a cleanup is attempted once, innermost first, past failures; what resolved is run once in its enclosing environment, what did not is not; such a layer ends cleaned exactly if its run succeeded, one without a cleanup is cleaned, a cleaned or undeclared record is untouched; nil exactly when every record ends cleaned |
| LayerRun.SetupPublishesInnermost | app/internal/effect/layer_run.go:91-112 | a complete setup leaves outputs on the innermost record only, as the write laws need |
| LayerRun.UnwindRepeatedly | app/internal/effect/layer_run.go:138-211 | however often unwinding is retried, a layer with a cleanup is cleaned exactly once a run of it succeeded, and is never run again after that |
| LayerRun.SetUpAndRelease | app/internal/effect/layer_run.go:43-236 | over a whole lifetime each layer is set up and released in one and the same environment |
| WorkflowGraph.Walker.DeriveEdges | app/internal/lang/workflow.go:243-260 | the edges are exactly the declared reads and the reversed declared blocks |
| WorkflowGraph.Walker.Walk | app/internal/lang/workflow.go:262-278 | a visited node is finished with all it depends on, or the returned nodes close a walk back onto the path |
| WorkflowGraph.ScheduledHasNoCycle | app/internal/lang/workflow.go:242-285 | a graph whose nodes can be ordered after their dependencies has no cycle |
| WorkflowGraph.CheckWorkflowGraph | app/internal/lang/workflow.go:242-293 | accepts exactly the graphs without a cycle, which then have a schedule; the reported path of a rejected one is a real walk whose last node occurs in it before |
| WorkflowGraph.ReadIdIs | app/internal/lang/workflow.go:220-229 | a path reads a node id exactly when it is the prefix, a dotless id, a dot and anything |
| WorkflowGraph.NodeReads | app/internal/lang/workflow.go:164-216 | exactly the ids that some path projected by an input reads, however deep in a document it stands, each once |
| WorkflowGraph.FirstAppearancesInOrder | app/internal/lang/workflow.go:164-216 | the ids found stand in the order in which the paths first read them |
| SessionRelations.IsAncestor | app/internal/domain/session.go:224-245 | true exactly when one or more parent links lead up to the ancestor, on any map, cyclic or not |
| SessionRelations.Subtree | app/internal/domain/session.go:207-222 | exactly the root and everything below it, sorted, for every map order; nothing for a missing root |
| SessionRelations.SubtreesNest | app/internal/domain/session.go:207-222 | a member's subtree is part of the subtree |
| SessionRelations.RelationFromTarget | app/internal/domain/session.go:139-164 | the first relation that holds in the documented order |
| SessionRelations.SiblingsShareAParent | app/internal/domain/session.go:124-134 | two sessions are siblings exactly when they share a parent, or one is named as the other's root |
| SessionRelations.ViewsAreDual | app/internal/domain/session.go:139-164 | two sessions' views of each other are dual unless they are each other's parents, or each other's ancestors without a link or shared parent |
| SessionRelations.ForestViewsAreDual | app/internal/domain/session.go:139-164 | on acyclic maps of named sessions the views are always dual |
| SessionRelations.MutualParentsAreNotDual | app/internal/domain/session.go:148-150 | a map on which both see a parent |
| SessionRelations.MutualAncestorsAreNotDual | app/internal/domain/session.go:157-162 | a map on which both see an ancestor |
| SessionTree.PseudoNamesARoot | app/internal/legacystate/legacystate.go:255-262 | a parent is a pseudo-parent exactly when it is the root prefix and a name |
| SessionTree.WouldCreateCycle | app/internal/legacystate/legacystate.go:280-297 | true exactly when the walk from the parent reaches the child or never ends |
| SessionTree.UniqueSessionNames | app/internal/legacystate/legacystate.go:299-314 | the non-blank names, each once, sorted |
| SessionTree.Forest.Adopt | app/internal/legacystate/legacystate.go:229-242 | only sessions without a parent gain one, from a session listing them, and only a link that would close or enter a cycle is withheld |
| SessionTree.Forest.LinkChildren | app/internal/legacystate/legacystate.go:250-271 | links are cleared, never changed; whatever stands and ends is kept, whatever remains stands and ends |
| SessionTree.Forest.NormalizeSessionTree | app/internal/legacystate/legacystate.go:228-278 | for every map order: remaining links name existing sessions or their roots and end, and each children list is the sorted set of sessions naming it |
| SessionTree.NormalIsAForest | app/internal/legacystate/legacystate.go:228-278 | no session with an ordinary parent is above itself |
| SessionTree.LinksMirror | app/internal/legacystate/legacystate.go:244-278 | children and parents name each other |
| SessionTree.NormalisingAgainChangesNothing | app/internal/legacystate/legacystate.go:228-278 | a second run, in any order, changes nothing |
| SortedNames.AscendingIsUnique | app/internal/config/extends_resolve.go:173-180 | the sorted listing of a key set is the only ascending one, so what is computed from it has no order to depend on |
| SortedNames.BeforeIsLexicographic | app/internal/config/extends_resolve.go:173-180 | one name comes before another exactly when it ends, or has the smaller character, where they first differ |
| TaskExtends.SchemaKeyRules | app/internal/lang/extends.go:108-165 | accepts exactly the chains whose types agree, whose keys keep their constraints and have one default at most, and returns their keys |
| TaskExtends.MergeSchemaProperties | app/internal/config/extends_resolve.go:136-171 | the merged properties are the layer-by-layer combination of each key's entries |
| TaskExtends.MergeSchemaField | app/internal/config/extends_resolve.go:104-134 | the first schema's keywords, the first declared type and the merged properties |
| TaskExtends.MergedKeyKeepsEveryWord | app/internal/config/extends_resolve.go:136-171 | over accepted layers a merged key has every declaring layer's constraints and the one declared default |
| TaskExtends.MergeAgreesWithRules | app/internal/config/extends_resolve.go:104-171 | the merged schema of an accepted chain has exactly the checker's keys, every layer's constraints, the single default and every layer's type |
| TaskExtends.MergesInTwoSteps | app/internal/config/extends_resolve.go:104-171 | merging a chain is merging its base first and then the last layer |
| TaskExtends.ComposeTaskDocument | app/internal/config/extends_resolve.go:71-98 | instructions joined, chains and leaves in layer order, the root's observer, merged schemas, everything else the last layer's |
| TaskExtends.CompositionInherits | app/internal/config/extends_resolve.go:71-98 | a composed document field by field: the root's observer; the last layer's budget and remaining fields; every non-empty instruction once, in layer order, a blank line between two; all the layers' chains in order; all their leaves in order with the last layer's budget, or the last layer's own completion when there is no leaf |
| TaskExtends.ComposesInTwoSteps | app/internal/config/extends_resolve.go:71-98 | composing a whole chain equals composing the base's result with the last document |
| TaskExtends.ComposedNames | app/internal/lang/extends.go:59-91 | the ids of a chain, or an error exactly when one is declared twice; judges and chains alike |
| TaskExtends.NamesAreChecked | app/internal/lang/extends.go:59-91 | the checked names are unique exactly when no two judge leaves of the chain, and no two of its chains, have the same non-empty id |
| TaskExtends.CompositionKeepsNames | app/internal/lang/extends.go:172-197 | the composed document answers to exactly the ids its checkers saw |
| TaskExtends.ExtendsChain | app/internal/lang/extends.go:17-50 | the chain root first, or an error exactly when following extends never arrives at a root |
| TaskExtends.ChainIsUnique | app/internal/lang/extends.go:17-50 | a declaration has one chain |
| TaskExtends.RejectSchemaFileInChain | app/internal/lang/extends.go:208-222 | a real chain holds no schema file, a lone document may |
| TaskExtends.Catalog.ComposeExtendedTaskDocuments | app/internal/config/extends_resolve.go:14-69 | succeeds exactly when every document's chain is loaded and passes every rule, and then each document is composed from its chain's documents as loaded, with the observer of the chain's root |
| TaskExtends.OrderNeverMatters | app/internal/config/extends_resolve.go:15-34 | a document's composition does not depend on the order of addresses |
| TaskExtends.ComposingOntoTheBase | app/internal/config/extends_resolve.go:14-98 | composing a document onto its base's already composed result gives the loaded composition |
| TaskExtends.LoadedDocumentsAgree | app/internal/config/extends_resolve.go:14-171 | a loaded document's names are unique and its schemas keep everything its checkers vouched for |
| LegacyCursor.ReadLegacyLog | app/internal/legacyimport/eventlog.go:193-241 | accepts exactly the files whose complete lines are records of the session with distinct ids, and returns their events, their end offsets and the number given a direction |
| LegacyCursor.EndsFollowNewlines | app/internal/legacyimport/eventlog.go:207-234 | line ends are exactly the offsets just after a newline |
| LegacyCursor.LineIs | app/internal/legacyimport/eventlog.go:207-234 | a line is the bytes from the end of the one before it up to its own newline |
| LegacyCursor.LinesAfter | app/internal/legacyimport/eventlog.go:205-240 | reading on from a line's end finds exactly the lines after it |
| LegacyCursor.Translate | app/internal/legacyimport/eventlog.go:54-68 | accepts exactly 0 and line ends, and answers 1 or one past that line |
| LegacyCursor.OnlyLineEndsTranslate | app/internal/legacyimport/eventlog.go:48-68 | an offset translates exactly when it is 0 or just after a newline |
| LegacyCursor.TranslationAscends | app/internal/legacyimport/eventlog.go:54-68 | translation is strictly increasing |
| LegacyCursor.UnreadSuffixIsKept | app/internal/legacyimport/eventlog.go:48-68 | decoding from an offset gives exactly the imported events from the translated sequence on |
| AdmitCache.ClassifyIs | app/internal/admitstatus/admitstatus.go:20-61 | a success or a retry of the member resets it; a conflict, or a failure for one of the four admission reasons, refuses it; nothing else says anything |
| AdmitCache.Scan | app/internal/admitstatus/admitstatus.go:44-71 | the newest-first loop over the scanned types finds what a scan of the whole log finds |
| AdmitCache.OtherTypesSayNothing | app/internal/admitstatus/admitstatus.go:20-25 | reading only the scanned types loses nothing |
| AdmitCache.ScanTellsTheStreak | app/internal/admitstatus/admitstatus.go:44-71 | the scan counts exactly the member's refusals since its last reset and tells the one that names them |
| AdmitCache.NamingIsNewest | app/internal/admitstatus/admitstatus.go:63-66 | that one is the newest refusal with a reason |
| AdmitCache.ScanOfOneMore | app/internal/admitstatus/admitstatus.go:44-71 | what each kind of newest event does to the scan |
| AdmitCache.RecordingIsScanning | app/internal/admitstatus/admitstatus.go:103-130 | updating in place equals scanning anew exactly when the outcome succeeded, has a reason, has no streak before it, or joins a streak as nameless as itself whose told error text is the same |
| AdmitCache.UnrecordedEventIsMissed | app/internal/admitstatus/admitstatus.go:73-101 | an event appended without being recorded leaves the scan as it was exactly when it is no outcome, or a reset of nothing |
| AdmitCache.Cache.AppendElsewhere | app/internal/admitstatus/admitstatus.go:73-101 | an event appended by another process leaves every cached status right exactly when it says nothing of a cached member or resets one that had nothing to reset |
| AdmitCache.RetryElsewhere | app/internal/admitstatus/admitstatus.go:73-101 | a refused member that was looked at once stays refused for the cache after the operator's retry, which a scan would find reset |
| AdmitCache.Cache.Get | app/internal/admitstatus/admitstatus.go:88-101 | tells what a scan of the current log would, cached or not, as long as every entry cached is such a scan; a cached entry is told as it stands |
| AdmitCache.Cache.Record | app/internal/admitstatus/admitstatus.go:107-130 | the first touch scans, later ones update in place, and only the recorded member's entry changes |
| AdmitCache.Cache.Outcome | app/internal/admitstatus/admitstatus.go:103-130 | appending a classified outcome and recording it keeps every cached member's status that of a scan |
| AdmitCache.Run | app/internal/admitstatus/admitstatus.go:73-130 | over any history, other resources and other failures interleaved, every look tells what a scan of the log as it then stands would |

## Left out

- SQLite, migrations, file locks, backups and atomic renames: the store is its contract, as `EventStore.Store` states it.
- HTTP, SSE bytes, flushing, pings, sockets, process execution and wall-clock timeouts: only lines, frames, outcomes and an abstract clock remain. A response breaks off between lines; a last id line cut in its middle, which the client would read as a shorter number, is not modelled.
- EventBus.HandleStream: a connection is cut after a given number of reads and frames, since a method must end; every such number is covered.
- `FollowAcross` and the dispatcher's cursor reset over rotations: their cursors are keyed by session name and rest on store code that is not part of this model. The dispatcher stays within one incarnation.
- Dispatcher.Session.FanOut: workers run one after another. They share only the log and their own channel's entry, and anything may be appended between them. `processEvent` reads its delivered set while workers write it; the model takes the set as it was before the event.
- Dispatcher.Session.RecordFailures: the append of a channel error is taken to succeed, since the source discards its result. Ids are any id not in the log.
- Channel names are taken to be distinct, as the loader demands of named channels.
- Event bodies and the text of error messages.
- Failed updates of the health record in the state store, and the validation-error events and streaks beside the delivery ones.
- CEL, JSON Schema, TOML and regular expressions are library behaviour: a computed binding is a function with the inner outputs it was classified as reading, a schema a predicate on objects, a decoded line an option, an expression the list of paths it projects.
- NestedOutputs.TaskState.ApplyMutableOutputs: in a chain of a single layer the source's projection is that layer's own map, so the merge writes into the record too; the model keeps the two apart.
- NestedOutputs.UnwrittenKeyStays: assumes that a computation reads no inner output but those its classification found, which a regular expression over the expression text decides.
- NestingChecks.NestingChain: identifies layers by source file as the source does, so it claims no more than that about cycles; stamping the resolved chain onto the loaded definitions is not modelled.
- LayerRun.RunLayers: timestamps, standard error and error text; a variable is a name and a value rather than one string.
- The parsing of workflow nodes, duplicate node ids and field checks around `CheckWorkflowGraph`.
- SessionTree.UniqueSessionNames: deduplicates into a new list instead of the front of the old one.
- TaskExtends.Catalog.ComposeExtendedTaskDocuments: a chain that leaves the loaded documents is an error before its rules are checked rather than after; either way it is an error. Array-valued and other non-table values are atoms.
- `checkExtendsSchemaShape`, `JudgeRelationAccepted`, `MergedTasks`, `ParseDuration` and other single-branch checks.
- Errors while reading a legacy log file from disk, and the directory scan around it.
- AdmitCache.Cache.Get: a log that cannot be read counts as no history in the source and is cached as such; the model's log is always readable.
- Nothing was executed.

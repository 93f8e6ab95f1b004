# A verified model of rnsapid

`rnsapid` is a daemon that offers Reticulum (RNS) over REST and WebSockets. Two kinds of thread share its
per-session state: the asyncio loop, which runs every handler and background task between two `await`s, and
RNS worker threads, which fire callbacks whenever they like. This project models that state and proves what
holds in every interleaving.

Each protocol is a transition system: a state, a `Next` function over actions, and `Run` over any sequence of
actions, so that "in every run" is a statement about all sequences. A step is as small as the code lets another
thread in: loop code is cut at its `await`s, and finer where an RNS thread writes the same fields; callbacks are
cut at every line that touches shared state. An action that is not enabled changes nothing. Beside each
transition system stand the classes of the service, with the fields the source has, whose methods are proved to
take the same steps.

| file | models |
|---|---|
| Wrappers.dfy, Statuses.dfy | an optional value; the status of a resource transfer |
| Text.dfy | split and join, hexadecimal, decimal literals, `lower` |
| LinkProtocol.dfy | opening a link: the continuation, the wired callbacks, `session.open_links` |
| LinkSafety.dfy | identify before `link.established`; the conversation of an open; the link cache |
| LinkEcho.dfy | which `link.established` may echo a client id |
| LinkRaces.dfy | late closed callbacks, reuse, and runs that fall short of the documentation |
| LinkOutcomes.dfy | exactly when an open reports both ends, leaves its entry, echoes an id twice |
| LinkIds.dfy | whose id a success event carries, for every kind of open |
| LinkPhases.dfy | exactly when `finding_path`, failure, success and `link.closed` are sent |
| LinkEntries.dfy | the link services as objects: `_LinkEntry`, `open_links`, the polling wait |
| LinkRequests.dfy | `link.request` raced by two callbacks and a watchdog |
| Polling.dfy | the path-request deadline loops |
| Sessions.dfy | the session registry with sweeps, creates, touches and revokes interleaved |
| Teardown.dfy | the cleanup hooks in their registered order |
| Listeners.dfy | packet listeners beside creation and removal of destinations |
| Destinations.dfy | destination names; the active identity of a session's destinations |
| Hub.dfy | the connection index, fan-out, the life of a WebSocket handler |
| Bridge.dfy | `AsyncBridge`: the bounded backlog and the tracked futures |
| Progress.dfy | throttling of progress events; the byte counts of a transfer |
| Receive.dfy | a received resource: copy, announcement, download, retention |
| Uploads.dfy | who owns an uploaded file |
| Passwords.dfy | the encoded form of a password hash |

## What the environment may do

RNS is a nondeterministic environment. It may change a link's status at any moment, fire `_on_established` and
`_on_closed` any number of times and in any number of threads once they are wired, and raise from any call.
Assumed: no callback before the callbacks of a link are wired; session tokens, session ids, transfer ids and
upload paths are never drawn twice; `load(h)` returns the identity with hash `h`; the clock never runs
backwards, and every sleep of a polling loop lasts at least its 0.02 s; `unlink` succeeds; the loop is not
closed under a running submission. Time, percentages and progress are reals. Strings are ASCII, and `scrypt`
(section 6 of RFC 7914) is any function that returns as many bytes as asked.

## Where the code does less than it says

Each of these is a property that turned out false. The first lemma named is a run or an input that shows it; the
second says exactly when the property holds, over all runs.

- A late `_on_closed` checks the slot and then pops it (`src/rnsapi/rns/links.py:764-766`). A store between the
  two lines is evicted: `CloseRaceHappens`; `LateCloseEvictsOnlyAcrossStore`.
- Two overlapping activations of `_on_established` on one link echo the same client id twice: `OverlapHappens`;
  `EchoedTwiceExactly`.
- Without auto_identify one open can report both success and failure, although docs/api-reference.md promises one
  terminal event: `PlainOpenReportsBoth`; `BothExactly`.
- docs/api-reference.md says that the terminal events echo the id of the open they belong to. A reuse writes its
  own id into the entry (`src/rnsapi/handlers/links.py:254`, `src/rnsapi/rns/links.py:595`), and the success event
  of the first open then carries it, with auto_identify (`SuccessCarriesOtherId`) and without it
  (`PlainCarriesOtherId`); `FirstReadingExactly` and `OwnIdEchoedExactly` for every open, `OwnIdExactly` for the one
  success event of an open to be identified.
- An open that fails before its link exists leaves its placeholder in `open_links`: `FailedOpenStays`;
  `FailedEntryStaysExactly`.
- With a negative session limit a session created during a sweep counts as expired: `BornExpired`;
  `SweepsHoldExactly`.
- REST `set_active_identity` awaits its body between its check and its write: `RestRace`; `CoherentExactly`, and
  `WsCoherent` shows that the WebSocket operations never break it.
- `delete` of a transfer whose status is not one of the six it treats as active leaves the upload file behind:
  `DeleteOrphans`; `OrphansExactly`.
- A COMPLETE transfer can show too few bytes: between the status and the bytes of its completion callback
  (`CompletionWindow`) and after a report of COMPLETE that stops short (`ShortReport`); `SettledExactly`.
- Two successive `resource.progress` events can show less than the configured percentage between them: the progress
  is read once for the throttle and once more for the event (`src/rnsapi/rns/resources.py:331`, `:338`), and an RNS
  thread may write it in between: `ShownTooClose`; `ShownExactly`, and `ShownSpacing` says how much less.
- A coroutine buffered by a thread that still saw no loop waits for the next `set_main_loop`:
  `BufferedAfterDrain`; `StrandedExactly`.
- A listened destination that is created again stays on the list but is deaf: `RecreatedIsDeaf`; `AgreeExactly`.

In these the code is taken at its word, and the model does the same:

- The docstring of `ws_open` places the identity lookup before the ack; the code does it in the continuation.
- A failed local copy is always announced with `resource.completed`: `FailedCopyAnnouncedComplete`.
- `$` in the hash pattern also matches before a final newline, `bytes.fromhex` skips white space, and an error
  inside `scrypt` escapes `verify_password`.

## Model

| member | source | states |
|---|---|---|
| LinkSafety.ReuseExactly | src/rnsapi/rns/links.py:408-414 | in every run a request is offered an open for reuse exactly when that open's entry is the cached one for the destination and its link is ACTIVE at that moment |
| LinkSafety.IdentifyBeforeEstablished | src/rnsapi/rns/links.py:467-521 | in every run, for a gated open, each `link.established` by any thread follows a successful identify; without one, or after a failure event, there is none |
| LinkSafety.OpenConversation | src/rnsapi/rns/links.py:645-702 | in every run, what a WebSocket continuation has sent spells one of the allowed conversations, ack first, with exactly one terminal event, the last, when it ends with auto_identify; nothing is established before `establishing_link`; when the optional `finding_path` is in it, is `LinkPhases.FindingPathExactly` |
| LinkSafety.SummaryMeans | src/rnsapi/rns/links.py:725-743 | the digest the invariants use says exactly what the history of events says |
| LinkSafety.TalkSpells | src/rnsapi/handlers/links.py:295-350 | a conversation the digest accepts is the exact event sequence of its spelling |
| LinkSafety.ContinuationEnds | src/rnsapi/rns/links.py:645-702 | every step of a continuation brings it closer to its end, except a poll whose deadline is still ahead |
| LinkSafety.CacheStep | src/rnsapi/rns/links.py:416-437 | every action keeps each cache key equal to its entry's destination hash |
| LinkSafety.WorldRun | src/rnsapi/rns/links.py:439-491 | every run keeps the invariant of all opens and of the cache |
| LinkEcho.BookMeans | src/rnsapi/rns/links.py:508-512 | the ledger of read and echoed ids says exactly which ids the history echoes and whether one is echoed twice |
| LinkEcho.EchoedAtMostOnce | src/rnsapi/rns/links.py:725-735 | without overlapping activations each stored id is echoed by at most one event of the whole session, with `_emit_established` and the callbacks interleaved line by line |
| LinkEcho.OverlapDuplicates | src/rnsapi/rns/links.py:734-743 | from any world in which an overlapping read can happen, letting both activations finish echoes the id twice |
| LinkRaces.LateCloseEvictsOnlyAcrossStore | src/rnsapi/rns/links.py:763-766 | a closed callback evicts another open's entry exactly when its check found its own entry and the slot has another by the time of the pop, which needs a store in between |
| LinkRaces.SlotKept | src/rnsapi/rns/links.py:483-483 | a slot holds only its open while no action stores into it |
| LinkRaces.ReuseOnlyActive | src/rnsapi/handlers/links.py:252-254 | only a request for its destination overwrites an entry's id, and only while it is cached with an ACTIVE link |
| LinkRaces.OverlapHappens | src/rnsapi/rns/links.py:725-735 | a concrete run from the start that echoes one id twice |
| LinkRaces.CloseRaceHappens | src/rnsapi/rns/links.py:763-766 | a concrete run in which a newer open, closed by no one, loses its slot |
| LinkRaces.PlainOpenReportsBoth | src/rnsapi/rns/links.py:535-554 | a concrete run in which an open without auto_identify reports success and failure |
| LinkRaces.FailedOpenStays | src/rnsapi/handlers/links.py:320-333 | a concrete run: the open was acknowledged, failed to resolve, and is still cached |
| LinkRaces.SuccessCarriesOtherId | src/rnsapi/handlers/links.py:252-254 | a concrete run in which the success event of the first open carries the id of the second request |
| LinkRaces.PlainCarriesOtherId | src/rnsapi/handlers/links.py:252-254 | the same for an open without auto_identify, announced by `_on_established` |
| LinkOutcomes.BothExactly | src/rnsapi/rns/links.py:535-554 | in every run an open without auto_identify reports success and failure if and only if a callback sent its event, the last reading of the poll was not ACTIVE, and the continuation has ended |
| LinkOutcomes.FailedEntryStaysExactly | src/rnsapi/rns/links.py:541-554 | in every run a failed open's entry is still cached if and only if it did not fail at a last reading other than ACTIVE and nobody has taken its slot away since it was stored; a failed poll always empties the slot, whether the continuation or the closed callback comes first |
| LinkIds.EventsCarryReadings | src/rnsapi/rns/links.py:734-743 | in every run, for every open, each success event carries what its own source, the continuation or one activation, had read before, and no source reads twice |
| LinkIds.FirstReadingExactly | src/rnsapi/handlers/links.py:252-254 | in every run, for every open with an id, of any mode, the first reading of the entry yields that id if and only if no request reused the entry before it |
| LinkIds.OwnIdEchoedExactly | src/rnsapi/rns/links.py:725-743 | in every run, for every open with an id, of any mode, its own id is echoed only if no request reused the entry before the first reading, and an entry that was read has echoed it, once continuation and callbacks have finished, exactly then |
| LinkIds.OwnIdExactly | src/rnsapi/rns/links.py:508-521 | in every run the success event the continuation of an open to be identified sends carries the open's own id if and only if no request reused the entry before the continuation read it |
| LinkPhases.FindingPathExactly | src/rnsapi/rns/links.py:282-284 | in every run an open has sent `finding_path` if and only if it is a WebSocket open whose continuation started without a known path |
| LinkPhases.EndsExactly | src/rnsapi/handlers/links.py:306-350 | in every run a WebSocket open has reported its failure if and only if its continuation has ended and met one (unresolved destination, link not constructed, last reading not ACTIVE, failed identify); with auto_identify it has reported its success if and only if it has ended and met none |
| LinkPhases.UnmutedAfterSuccess | src/rnsapi/rns/links.py:508-512 | in every run an open whose continuation has reported success has ended and suppresses no later callback |
| LinkPhases.ClosedExactly | src/rnsapi/rns/links.py:745-762 | in every run `link.closed` is sent for an open once by each activation of its closed callback and by nothing else |
| LinkOutcomes.EchoedTwiceExactly | src/rnsapi/rns/links.py:725-743 | in every run whose callbacks have all returned some entry echoed an id twice if and only if an activation read an id another was about to clear |
| LinkEntries.OutcomeConverses | src/rnsapi/handlers/links.py:306-350 | whatever the environment answers, an uninterrupted continuation ends having told the client exactly the events its answers call for, written out for every combination: `finding_path` if and only if there was no path, a failure if and only if a needed answer was bad, and one proper conversation |
| LinkEntries.AttemptIdentifies | src/rnsapi/rns/links.py:618-643 | an uninterrupted open that is to identify establishes nothing before it identified, identifies exactly when every answer was good, and establishes nothing when it fails |
| LinkEntries.SnapshotIdResolves | src/rnsapi/rns/links.py:329-348 | in every run the link_id shown for a cached entry, in either letter case, resolves to that entry's slot |
| LinkEntries.FindEntry | src/rnsapi/rns/links.py:329-337 | an id is bad exactly when `fromhex` refuses it, in either letter case, unknown exactly when no entry has it, and otherwise names the slot of those bytes |
| LinkEntries.CreateSteps | src/rnsapi/rns/links.py:467-491 | creating an entry equals the protocol's steps from construction to wiring |
| LinkEntries.EmitSteps | src/rnsapi/rns/links.py:508-521 | `_emit_established` equals the protocol's four steps: read, clear, unsuppress, send |
| LinkEntries.FireSteps | src/rnsapi/rns/links.py:712-743 | an uninterrupted `_on_established` equals the protocol's lines for it, suppressed or not |
| LinkEntries.CloseSteps | src/rnsapi/rns/links.py:745-766 | an uninterrupted `_on_closed` equals the protocol's lines for it |
| LinkEntries.LinkEntry.EmitEstablished | src/rnsapi/rns/links.py:493-521 | the event carries the stored id, which is consumed with the flag; without a link nothing changes |
| LinkEntries.LinkEntry.OnEstablished | src/rnsapi/rns/links.py:712-743 | a suppressed callback changes nothing; otherwise the id is consumed and echoed |
| LinkEntries.LinkEntry.Identify | src/rnsapi/rns/links.py:837-878 | succeeds exactly with a link and a working identity, and only then marks the entry identified |
| LinkEntries.LinkEntry.IdentifyAndEmit | src/rnsapi/rns/links.py:695-702 | identify, then established; after a failed identify the entry stays suppressed with its id |
| LinkEntries.Session.WsOpen | src/rnsapi/handlers/links.py:250-304 | a reuse changes the client id of the cached entry only; otherwise a fresh placeholder takes the slot and the ack is sent; no other entry changes |
| LinkEntries.Session.OpenLink | src/rnsapi/rns/links.py:589-643 | a reuse overwrites the id and identifies if needed; otherwise success is exactly every needed answer being good, a failure before the link leaves no entry, and a link that never became ACTIVE leaves an empty slot; no other entry changes |
| LinkEntries.Session.CreateLinkEntry | src/rnsapi/rns/links.py:439-491 | the placeholder, or a new entry on REST, gets a new link and the suppress flag and owns the slot |
| LinkEntries.Session.OnClosed | src/rnsapi/rns/links.py:745-766 | sends the event and evicts the slot exactly when it still holds this entry |
| LinkEntries.Session.Close | src/rnsapi/rns/links.py:882-895 | a bad or unknown id changes nothing; a known one is torn down once and its slot emptied; no other link is touched |
| LinkEntries.Session.Poll | src/rnsapi/rns/links.py:534-541 | at most ceil(timeout / 0.02) + 1 readings, and it stops only on ACTIVE, CLOSED or the deadline |
| LinkEntries.Session.WaitForActive | src/rnsapi/rns/links.py:523-554 | succeeds exactly on a last reading of ACTIVE; otherwise one teardown and an empty slot |
| LinkEntries.Session.Establish | src/rnsapi/rns/links.py:680-692 | the phase is sent before the link exists; the entry owns its slot afterwards |
| LinkEntries.Session.ResolveDestination | src/rnsapi/rns/links.py:279-286 | `finding_path` is sent exactly when there is no path |
| LinkEntries.Session.ContinueOpenLinkWs | src/rnsapi/rns/links.py:645-702 | returns exactly when every needed answer was good, with the entry in the protocol's state and exactly the events of the answers sent, `finding_path` included; the cache keeps a placeholder that failed before its link, holds a wired entry, and has lost one whose link was not ACTIVE |
| LinkEntries.Session.RunContinuation | src/rnsapi/handlers/links.py:306-350 | the entry ends in the outcome that `OutcomeConverses` is about, the client has been told exactly the events of the answers, with one failure event for an exception, and the cache is as above |
| LinkRequests.DoneMeansTold | src/rnsapi/rns/links.py:1031-1071 | with any number of requests in flight a done future means an event with the id and path of that request's own dispatch was sent or the watchdog is sending it, a finished watchdog means it was sent, and no event for it carries another id or path |
| LinkRequests.EventsTellOutcome | src/rnsapi/rns/links.py:1031-1127 | in every run the clients are told exactly this, in this order: each activation of a callback, at its first line, tells a response if it was started as `_on_response` and a failure if as `_on_failed`, and a watchdog that has given up, which takes its deadline, tells a failure |
| LinkRequests.ResultHasCause | src/rnsapi/rns/links.py:1045-1118 | in every run a future that ended as a response or a failure was set for an activation of that very callback which had told it, one that ended as a timeout for a watchdog past its deadline |
| LinkRequests.ResultStays | src/rnsapi/rns/links.py:1045-1118 | over every run the first result of a future is final: neither a later callback nor the watchdog changes it |
| LinkRequests.ToldExactlyOnce | src/rnsapi/rns/links.py:1103-1129 | after the watchdog the client was told exactly once if and only if one callback fired in time or none fired |
| LinkRequests.DeadlineDecides | src/rnsapi/rns/links.py:1103-1128 | from any reachable world the deadline and two turns of the watchdog leave at least one terminal event |
| LinkRequests.RequestTask.OnResult | src/rnsapi/rns/links.py:1051-1071 | a callback always sends its event, a response or a failure as it is, and queues its result exactly when the future is not done; what the object has sent is, value by value, what the bus has for its request |
| LinkRequests.RequestTask.RunQueued | src/rnsapi/rns/links.py:1045-1049 | the first queued result decides the future; a later one raises and changes nothing |
| LinkRequests.RequestTask.Expire | src/rnsapi/rns/links.py:1107-1127 | at the deadline a failure is sent, and the future set, exactly when the future is still open |
| Polling.WithinBudget | src/rnsapi/rns/paths.py:155-171 | while the sleeps have not used up the timeout there is room for one more within ceil(timeout / 0.02) |
| Polling.BudgetRoundsUp | src/rnsapi/rns/paths.py:155-171 | the bound is the timeout in poll intervals, rounded up |
| Polling.RequestPath | src/rnsapi/rns/paths.py:121-171 | found exactly when the last of at most ceil(timeout / 0.02) + 1 polls said yes and no earlier one did; not found only after the deadline; a bad hash sends nothing |
| Polling.AwaitPath | src/rnsapi/rns/links.py:244-252 | the same bound for the wait of a link open; every answer but the last was no, and an exception of has_path ends the wait |
| Sessions.IndexesMirror | src/rnsapi/auth/session.py:74-109 | in every run the two indexes are mirror images and the anonymous session is in both or absent |
| Sessions.SweepsHoldExactly | src/rnsapi/auth/session.py:124-141 | after a sweep no registered session that is not anonymous was, at its start, idle longer than the inactivity limit or alive longer than the lifetime; over all runs exactly for non-negative limits |
| Sessions.BornExpired | src/rnsapi/auth/session.py:124-141 | a concrete run that breaks it under a negative limit |
| Sessions.SweepTakesExactly | src/rnsapi/auth/session.py:124-136 | a sweep takes, of the registered sessions, exactly those that are not anonymous and whose last use or creation lies further back than its limit |
| Sessions.FoundExactly | src/rnsapi/auth/session.py:89-141 | in every run a session that was created is found by its token if and only if it was neither revoked nor popped by a sweep; what is gone never comes back |
| Sessions.UsedSessionStays | src/rnsapi/auth/session.py:124-141 | in every run a session that at the start of every sweep had been used and created within the limits, or is anonymous, and that nobody revoked, is found by its token |
| Sessions.StampsTell | src/rnsapi/auth/session.py:54-93 | in every run the two stamps of a session are the times of its creation and of its last use |
| Sessions.LookupAgeBound | src/rnsapi/auth/session.py:89-93 | after a sweep within the last delta seconds a lookup returns no session older than its lifetime plus delta |
| Sessions.SessionRegistry.Create | src/rnsapi/auth/session.py:74-81 | a fresh session, its two timestamps now, enters both indexes and nothing else changes |
| Sessions.SessionRegistry.GetByToken | src/rnsapi/auth/session.py:89-93 | returns the session of the token, if any, with its last-seen time set to now |
| Sessions.SessionRegistry.Anonymous | src/rnsapi/auth/session.py:83-87 | returns the one anonymous session, registered on first use, with its last-seen time set to now |
| Sessions.SessionRegistry.Revoke | src/rnsapi/auth/session.py:101-109 | the session of the token leaves both indexes and the anonymous slot; an unknown token changes nothing |
| Sessions.SessionRegistry.SelectExpired | src/rnsapi/auth/session.py:135-136 | selects exactly the registered sessions that are not anonymous and whose last use or creation lies further back than its limit |
| Sessions.SessionRegistry.NamesSelected | src/rnsapi/auth/session.py:135-136 | the selection, by name, is one a sweep of the runs may start with, which `SweepTakesExactly` describes |
| Sessions.SessionRegistry.PopExpired | src/rnsapi/auth/session.py:137-139 | one selected session leaves both indexes |
| Sessions.SessionRegistry.SweepOnce | src/rnsapi/auth/session.py:133-141 | an undisturbed sweep drops exactly the registered sessions idle or alive for too long, keeps every other under its token, and records its start time |
| Teardown.HooksInOrder | src/rnsapi/server.py:245-248 | whatever raises or runs inside the calls, no call of a hook comes before a call of an earlier one, and the farewell and the closes come last |
| Teardown.LinksTornDownOnce | src/rnsapi/rns/links.py:1160-1168 | a cached link is torn down exactly once, or not at all exactly when its closed callback evicted it while transfers were cancelled |
| Teardown.ResourcesCancelledOnce | src/rnsapi/rns/resources.py:675-681 | for distinct transfers each one with a resource has it cancelled exactly once, and no other is cancelled |
| Teardown.PollersCancelledOnce | src/rnsapi/rns/resources.py:682-683 | the same for the pollers |
| Teardown.FilesUnlinkedOnce | src/rnsapi/rns/resources.py:684-693 | each temp file and each upload file is unlinked exactly once, whether the transfer completes inside its cancel or not, and no other file is |
| Teardown.CancelledBeforeUnlinked | src/rnsapi/rns/resources.py:675-693 | a transfer's resource is cancelled before its files are removed |
| Teardown.ReceiptsClearedOnce | src/rnsapi/rns/packets.py:342-349 | a pending receipt has its delivery callback cleared exactly once, or not at all exactly when one of its callbacks dropped it while earlier hooks ran, and its timeout callback exactly once if clearing the first did not raise |
| Teardown.SocketsClosedOnce | src/rnsapi/auth/session.py:117-122 | the farewell is sent once and every socket is closed once |
| Teardown.NothingElseCalled | src/rnsapi/auth/session.py:111-122 | a teardown makes no call that is not for something the session held when it began |
| Teardown.DestinationsReleased | src/rnsapi/rns/destinations.py:169-176 | deregistration is attempted exactly once per owned destination, after its packet callback was cleared if it is listened to |
| Teardown.SecondTeardown | src/rnsapi/auth/session.py:111-122 | a second teardown touches nothing the session held |
| Teardown.SurvivesExactly | src/rnsapi/rns/links.py:763-766 | a link entry survives exactly the calls inside which its closed callback does not run |
| Teardown.LinkCount | src/rnsapi/rns/links.py:1161-1165 | the link hook tears each cached link down exactly once and no other |
| Teardown.Session.CleanupTransfers | src/rnsapi/rns/resources.py:674-694 | makes exactly the calls that `ResourcesCancelledOnce`, `PollersCancelledOnce` and `FilesUnlinkedOnce` count, transfer by transfer, and empties the table |
| Teardown.Session.CleanupLinks | src/rnsapi/rns/links.py:1160-1168 | makes exactly one call per constructed link and empties the cache, despite re-entrant evictions |
| Teardown.Session.CleanupListeners | src/rnsapi/rns/packets.py:331-340 | clears the callback of every listened owned destination and empties the set |
| Teardown.Session.CleanupReceipts | src/rnsapi/rns/packets.py:342-349 | clears the callbacks of the receipts still pending and empties the table |
| Teardown.Session.CleanupDestinations | src/rnsapi/rns/destinations.py:169-176 | deregisters every owned destination in order and empties the table |
| Teardown.Session.RunTeardown | src/rnsapi/auth/session.py:111-122 | leaves transfers, links, listeners, receipts and destinations empty and makes exactly the calls the results are about |
| Listeners.AgreeExactly | src/rnsapi/rns/packets.py:92-148 | over every run, listed and called back agree for owned destinations if and only if no listened one is created again, removed before or not, and no clearing is refused |
| Listeners.RecreatedIsDeaf | src/rnsapi/rns/packets.py:100-101 | a listened destination created again, removed before or not, hears nothing; listening again changes nothing, unlisten and listen repairs it |
| Listeners.Session.Listen | src/rnsapi/rns/packets.py:92-132 | only an owned destination not yet listed gets its callback set and is listed; the reply of each case; a bad hash changes nothing |
| Listeners.Session.Unlisten | src/rnsapi/rns/packets.py:134-148 | a listed destination leaves the list and loses its callback unless clearing raises; the reply of each case; a bad hash changes nothing |
| Destinations.NameParsesBack | src/rnsapi/rns/destinations.py:72-88 | the info of a created destination reports exactly the app name and aspects it was given, even when the last aspect is the identity hash |
| Destinations.CoherentExactly | src/rnsapi/handlers/identity.py:103-122 | over every run every owned destination carries the active identity if and only if no REST write lands with another identity while destinations are owned |
| Destinations.WsCoherent | src/rnsapi/handlers/identity.py:241-286 | runs of the WebSocket operations keep it always |
| Destinations.HeldIdentityStays | src/rnsapi/handlers/identity.py:40-47 | over every run, as long as a session owns a destination or holds a link, its active identity stays, unless a REST request had passed its check before |
| Destinations.IdleIdentityChanges | src/rnsapi/handlers/identity.py:99-144 | a session that holds nothing takes the identity it is given, or none |
| Destinations.RestRace | src/rnsapi/handlers/identity.py:99-134 | a concrete run in which the REST write breaks it |
| Destinations.Session.SetActiveIdentity | src/rnsapi/handlers/identity.py:241-271 | refused exactly while destinations or links exist; otherwise the loaded identity becomes active |
| Destinations.Session.AddDestination | src/rnsapi/rns/destinations.py:92-142 | accepted exactly for valid inputs that RNS registers; the reply reports the given parts, or the first check that failed; a refusal changes nothing |
| Destinations.Session.RemoveDestination | src/rnsapi/rns/destinations.py:144-158 | removes exactly the owned destination of that hash and reports it, or refuses |
| Hub.IndexAgrees | src/rnsapi/ws/hub.py:34-39 | in every run the hub's scan for a session equals that session's own set, sets of different sessions are disjoint, and a finished handler's connection is in neither |
| Hub.MembersExactly | src/rnsapi/ws/connection.py:55-62 | in every run a session's set holds exactly the connections whose last accepted attach was to it with no detach since, and a new connection that is registered and attached is in it |
| Hub.SendReaches | src/rnsapi/ws/hub.py:52-58 | in every run a send appends the event once to each open connection of the session, a broadcast to each open connection, and both to no other |
| Hub.WSHub.ScanIsIndex | src/rnsapi/ws/connection.py:55-62 | for coherent objects the scan is the session's set |
| Hub.WSHub.Handle | src/rnsapi/server.py:98-200 | an undisturbed handler, rejected or attached, leaves hub and sessions as it found them |
| Hub.WSHub.SendSession | src/rnsapi/ws/hub.py:55-58 | every connection's stream after a send, for members, others, closed sockets and the empty session id |
| Hub.WSHub.Broadcast | src/rnsapi/ws/hub.py:52-53 | every open registered connection gets the event once |
| Bridge.Conservation | src/rnsapi/async_bridge.py:30-72 | in every run the submitted coroutines are, as a multiset, those dispatched, buffered, dropped, on their way or being drained, and the backlog is the end, in order, of the coroutines that have landed since the last drain: all of them or the latest 256 |
| Bridge.StrandedExactly | src/rnsapi/async_bridge.py:30-63 | companion of `BufferedAfterDrain`: in every run the backlog holds something if and only if a coroutine whose submission saw no loop has landed since the backlog was last taken |
| Bridge.BufferedAfterDrain | src/rnsapi/async_bridge.py:50-63 | a concrete run that leaves a coroutine buffered under a running loop |
| Bridge.RoutedKeeps | src/rnsapi/async_bridge.py:44-72 | an uninterrupted submission equals submitting and landing, and keeps conservation |
| Bridge.AsyncBridge.Track | src/rnsapi/async_bridge.py:52-58 | no unfinished future is dropped, and from 32 on every finished one is |
| Bridge.AsyncBridge.Hold | src/rnsapi/async_bridge.py:61-72 | the backlog is the end of the old one and the new coroutine, all of it or the latest 256, and exactly what came before is dropped |
| Bridge.AsyncBridge.RunAsync | src/rnsapi/async_bridge.py:44-72 | dispatches under a running loop and leaves the backlog alone; otherwise buffers, keeping the latest 256 and dropping the rest; never loses an unfinished future |
| Bridge.AsyncBridge.SetMainLoop | src/rnsapi/async_bridge.py:30-37 | dispatches the backlog in order and completely into a running loop, and restores it unchanged for one that does not run |
| Progress.Spacing | src/rnsapi/rns/resources.py:325-336 | what the throttle reads at successive progress events differs by at least the configured time and percentage |
| Progress.SentExactly | src/rnsapi/rns/resources.py:325-339 | a call sends its event if and only if it is due: the time since the last event has passed and, unless that one was read as negative, the progress has moved far enough either way |
| Progress.ShownSpacing | src/rnsapi/rns/resources.py:331-339 | what successive events show differs by at least the configured percentage less what the progress moved between the two readings of either call |
| Progress.ShownExactly | src/rnsapi/rns/resources.py:331-339 | over all calls the shown values are a configured percentage apart if and only if nothing moves the progress between the two readings |
| Progress.ShownTooClose | src/rnsapi/rns/resources.py:331-339 | a concrete run: two events at a minimum of 10 percent show 19 and 20 |
| Progress.WindowBound | src/rnsapi/rns/resources.py:325-339 | a window of T seconds holds at most floor(T / min) + 1 events |
| Progress.RisingBound | src/rnsapi/rns/resources.py:325-339 | progress that never falls sends at most floor(100 / min percentage) + 1 events |
| Progress.BytesInRange | src/rnsapi/rns/resources.py:505-506 | the bytes are the progress times the total rounded down, lie between 0 and the total, and full progress gives the total |
| Progress.FullOnly | src/rnsapi/rns/resources.py:505-506 | of a non-empty transfer only full progress counts every byte |
| Progress.BytesStayInRange | src/rnsapi/rns/resources.py:499-515 | for progress in [0, 1] the bytes stay in [0, total] over every interleaving of the callbacks' lines |
| Progress.SettledExactly | src/rnsapi/rns/resources.py:499-577 | with every callback cut at its three writes, and `send` adopting the status of the new resource at any point, a transfer shows COMPLETE with too few bytes if and only if it has bytes, the last status written is COMPLETE, and the last count written was neither of every byte nor from a report of full progress |
| Progress.CompletionWindow | src/rnsapi/rns/resources.py:512-515 | a concrete run: one line into its completion callback a transfer is COMPLETE and has moved nothing |
| Progress.ShortReport | src/rnsapi/rns/resources.py:505-507 | a concrete run: a COMPLETE report at half progress leaves too few bytes |
| Progress.TransferProgress.EmitProgressIfDue | src/rnsapi/rns/resources.py:325-339 | the object's throttle and events are those of the series of calls, the throttle deciding on the first reading of the progress and the event showing the second |
| Progress.LinesInOrder | src/rnsapi/rns/resources.py:499-515 | a report tells its status last, a completion tells it first |
| Progress.TransferProgress.Report | src/rnsapi/rns/resources.py:499-507 | an uninterrupted report makes its three writes in order; the total and the throttle stay |
| Progress.TransferProgress.Finish | src/rnsapi/rns/resources.py:510-515 | an uninterrupted completion makes its three writes in order and leaves a COMPLETE transfer settled |
| Receive.ServedIsDelivered | src/rnsapi/rns/resources.py:657-670 | in every run a download yields exactly the bytes last handed over in full for that transfer, and the recorded sizes are their length |
| Receive.ServedExactly | src/rnsapi/rns/resources.py:657-670 | in every run a download yields bytes if and only if they were handed over in full for that received transfer and since then it was not concluded again, cancelled, deleted or cleaned up and no sweep found them too old; and it yields those bytes |
| Receive.FilesGoExactly | src/rnsapi/rns/resources.py:608-694 | a file goes exactly with the cancel, delete or cleanup of the transfer that holds it, or when a sweep finds it too old |
| Receive.ServedUntilRetention | src/rnsapi/rns/resources.py:161-176 | bytes handed over in full are served unchanged until the transfer ends or a sweep finds its file too old |
| Receive.CompletedEventsTell | src/rnsapi/rns/resources.py:430-440 | in every run a completed event with status COMPLETE tells the delivered size and inlines the bytes exactly when there are at most max_inline_bytes |
| Receive.FailedCopyAnnouncedComplete | src/rnsapi/rns/resources.py:409-415 | a failed copy is announced as completed with status FAILED and cannot be downloaded |
| Receive.DataHandle.Read | src/rnsapi/rns/resources.py:392-396 | a read returns the next bytes, fewer than asked if the handle likes, and none only at the end |
| Receive.Resources.CopyThrough | src/rnsapi/rns/resources.py:386-396 | the loop ends and the file holds exactly what the handle had from where the copy began; after an exception a prefix of it |
| Receive.Resources.Assemble | src/rnsapi/rns/resources.py:377-396 | the copy holds the named file if it exists, else what the handle had |
| Receive.Resources.OnComplete | src/rnsapi/rns/resources.py:341-415 | for a resource RNS reports COMPLETE: the transfer, made up if unlisted, its file and its event are as the outcome of the copy demands |
| Receive.Resources.OnEnded | src/rnsapi/rns/resources.py:416-428 | for any other ending: no file, the status as failure reason unless there is one, and a failed event |
| Receive.Resources.SweepOnce | src/rnsapi/rns/resources.py:161-176 | removes exactly the files whose age exceeds the retention time, leaves the others as they are, and returns their number |
| Uploads.OneOwner | src/rnsapi/handlers/resources.py:69-104 | in every run an upload file on disk is still with its handler or referenced by exactly one transfer |
| Uploads.EndRemovesOwnFile | src/rnsapi/rns/resources.py:523-532 | the end of a transfer removes its file, and every file that goes belongs to what ended, was refused or was swept |
| Uploads.OrphansExactly | src/rnsapi/rns/resources.py:643-655 | over every run no file outlives its listing if and only if no transfer is deleted uncancelled with its file |
| Uploads.DeleteOrphans | src/rnsapi/rns/resources.py:643-655 | a concrete run in which delete leaves a file behind |
| Uploads.DeleteAmidCompletion | src/rnsapi/rns/resources.py:510-532 | a concrete run: a delete between the status and the unlink of a completion unlists the transfer, and the rest of the completion still removes the file |
| Uploads.CompletionInTwo | src/rnsapi/rns/resources.py:510-532 | a completion cut after its status line adds up to the whole |
| Uploads.ConcatInOrder | src/rnsapi/handlers/resources.py:74-84 | the contents of a body are its chunks one after the other |
| Uploads.Resources.WriteBody | src/rnsapi/handlers/resources.py:72-84 | the file holds exactly the chunks in order and the count is its length |
| Uploads.Resources.RestSendResource | src/rnsapi/handlers/resources.py:68-113 | the reply of every exit; the file is gone again on every refusal and owned by one transfer otherwise |
| Uploads.Resources.OnComplete | src/rnsapi/rns/resources.py:510-532 | the transfer's file goes and no other, its reference is dropped, its status is the final one |
| Uploads.Resources.Cancel | src/rnsapi/rns/resources.py:608-641 | the transfer's file goes and it ends CANCELLED, also when RNS completes it inside the cancel |
| Uploads.Resources.DeleteTransfer | src/rnsapi/rns/resources.py:643-655 | cancels first exactly for the six active statuses, then unlists; an unknown transfer changes nothing |
| Uploads.Resources.CleanupSession | src/rnsapi/rns/resources.py:674-694 | exactly the upload files of the listed transfers go and the list is empty |
| Passwords.HashVerifies | src/rnsapi/auth/passwords.py:20-44 | every non-empty password verifies against its hash, for every salt |
| Passwords.AcceptedMeans | src/rnsapi/auth/passwords.py:26-44 | acceptance means the stored digest is scrypt of the password with the parameters written in the encoding |
| Passwords.RaisedMeans | src/rnsapi/auth/passwords.py:26-44 | an exception leaves `verify_password` exactly for a non-empty password and well-formed fields when the password cannot be encoded or scrypt refuses the spelled parameters |
| Passwords.EncodeParses | src/rnsapi/auth/passwords.py:23-41 | parsing undoes encoding |
| Passwords.ParseSpells | src/rnsapi/auth/passwords.py:26-42 | an encoding parses to given parameters exactly when its six fields spell them |
| Text.SplitJoin | src/rnsapi/rns/destinations.py:74-74 | splitting undoes joining for parts without the separator |
| Text.HexRoundTrip | src/rnsapi/rns/links.py:329-332 | `fromhex` undoes `hex` |
| Text.ToHexSpells | src/rnsapi/rns/links.py:103-103 | `hex` spells each byte by two of the sixteen digits, the high one first |
| Text.FromHexByte | src/rnsapi/rns/links.py:331-332 | two characters are read as a byte exactly if both are digits in either case, the high one first |
| Text.FromHexLower | src/rnsapi/rns/links.py:331-331 | `fromhex` reads digits in either case |
| Text.LowerExactly | src/rnsapi/rns/links.py:331-331 | `lower` makes each capital its small letter and changes nothing else |
| Text.HexHashParses | src/rnsapi/rns/paths.py:128-132 | a string that matches the hash pattern decodes to 16 bytes, with or without the final newline the pattern lets through |
| Text.DecimalRoundTrip | src/rnsapi/auth/passwords.py:36-38 | `int` undoes the decimal form of a number |
| Text.IntReads | src/rnsapi/auth/passwords.py:36-38 | `int` reads a sign, single underscores and white space around |
| Text.IntRefuses | src/rnsapi/auth/passwords.py:36-38 | it refuses an empty string, a bare sign, two underscores and other characters |

## Left out

- RNS itself: transport, handshakes, resource segmentation and identity cryptography are environment.
- aiohttp, sockets, TLS, signals, logging, the command line, INI parsing, storage paths: I/O and library calls.
- JSON shape checks, HTTP status codes and the reason table of `link_error_reason`: finite tables.
- base64 and msgpack: events carry the bytes themselves.
- The identify task that a WebSocket reuse starts: the protocol lets any later identify mark the entry, without its phase and failure events.
- A continuation cancelled in the middle: a task is never cancelled in a run.
- Announces, path table listing and snapshots, sending packets with the receipts it records, raw data on a link: each call stands alone.
- `link.request` with `await_response=True`: it has no watchdog task and no race.
- The hooks of one teardown interleaved with other handlers of the same session: between the calls of a teardown only RNS callbacks run here.
- LinkEntries.Session.RunContinuation: between its statements only the status of the link changes, because every other interleaving is covered by the runs of the protocol.
- LinkEntries.Session.WsOpen: takes the destination hash as given; the validation that computes it is not part of this model.
- Hub.WSHub.Handle: shows one handler by itself, because interleaved handlers are what `Hub.IndexAgrees` is about.
- Sessions.SessionRegistry.SweepOnce: nothing else runs during it, because the interleaved sweep is what `Sessions.SweepsHoldExactly` is about.
- Progress.TransferProgress.Finish: one callback without interruption, because its interleavings are what `Progress.SettledExactly` is about.
- Outbound transfers in Receive.dfy: they are listed and change status there, but have no file and are not served, so their completion is one step.
- LinkRequests.RequestTask.OnResult: one callback without interruption, because its interleavings are what `LinkRequests.ToldExactlyOnce` is about.
- Passwords.HashVerifies: the limit Python puts on the number of digits `int` accepts, and Unicode digits, are not modelled.
- Uploads.Resources.OnComplete: one completion without interruption, because a run may cut it after its status line.
- Uploads.Resources.RestSendResource: a `stat` that fails on the file just written is not modelled.
- Receive.Resources.OnComplete: a `stat` that fails on the file just copied is not modelled.

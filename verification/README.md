# hermes-node relay: a verified model

hermes-node lets an agent run commands and read and write files on remote machines. Each machine (a
*node*) keeps one WebSocket open to the relay; a caller sends a request over it and waits for the reply
with its request id. This project models the relay in Dafny and proves what its design relies on:

* **The relay as a step system** (`Relay*.dfy`). Node sessions, callers and the stale sweep interleave at
  every `await`. A state holds the connection table, the waiter map, the position of every session and
  of every caller, and the history of registrations; a run is any sequence of actions, and an action
  whose actor is not at that point changes nothing, so every theorem about `Run(actions, cfg)` is about
  every interleaving. Each body under the registry's lock is one step.
  `RelayTable` is about the connection table, `RelayMail` about the waiter map, `RelayReplies` about what
  reaches a caller, `RelayDelivery` about replies and wake-ups over whole runs, `RelayGaps` (with
  `RelayStray`) about reconnect safety: which sessions' ends can fail a call, `RelaySweep` about heartbeats and
  the stale sweep, `RelayAudit` about the audit rows of calls, `RelayLimiter` about the rate limit across
  reconnects. `RelayTrails`, `RelayOrigins` and `RelayCourse` say in terms of the actions alone what must have
  happened, and in which order, for a session to have its name, a call its outcome and a row its status.
* **The registry as a class** (`Registry.dfy`, `Handlers.dfy`): the dictionaries and futures changed in
  place, proved against the same pure functions the step system uses.
* **The handshake and hold loop** of one connection (`Handshake.dfy`), as a method over every input.
* **The rate limiter** (`RateLimiter.dfy`): the deques, the naive reading of the cap, the window bound,
  greedy optimality and node isolation.
* **The audit log** (`AuditDisk`, `AuditLog`, `AuditBounds`, `AuditExcess`, `AuditHole`, `AuditWriter`): rotation with
  failures at any point, retention and size bounds.
* **The token store** (`Tokens.dfy`, `TokenRecords.dfy`, with `Text.dfy`): the record list against "last issued,
  not revoked or deleted since".
* **The decoders of node answers** (`Environment.dfy`, with `Wire.dfy`), **the dotenv helper**
  (`Dotenv.dfy`) and **the HTTP retry loop** (`Retry.dfy`).

Times are reals and the clock does not run backwards. Tokens are hashed injectively. Sockets appear as
frames received, sends that may fail, and closes.

## Where the code differs from its documentation

The model follows the code.

* `audit.py:49-53` promises at most `(keep + 1) * max_bytes` on disk. The size is checked before a row is
  written (`audit.py:380-385`), so each file can end one row over. `AuditExcess.DocumentedBoundExactly`:
  as long as the size of the active log can be read, the promise holds of every run exactly if no row is
  longer than one byte or, with `keep = 0`, where a `.1` file is kept all the same (`audit.py:595`), if every
  row is empty. The bound that does hold then is `AuditBounds.DiskFootprint`, and
  `AuditExcess.FootprintIsTight` reaches it for every configuration. If reading the size may fail
  (`audit.py:541-542`), nothing rotates meanwhile, and the promise holds of every run exactly if every row is
  empty (`AuditExcess.BoundAlwaysHoldsExactly`).
* `env.py` promises that an existing line is found again. A line `VAR=` with an empty value is skipped over
  by the writer but decides every later read, so each call writes one more key that is never read back
  (`Dotenv.ReadsBackExactly`, `Dotenv.SecondCall`, `Dotenv.EmptyLineExample`). Carriage returns in the old
  text are not preserved (`Dotenv.FilePreservedExactly`, `Dotenv.CarriageReturnExample`), and an unreadable
  file in a writable directory is replaced (`Dotenv.Process.EnsureKey`).
* `tokens.py` strips a name when it stores it, but `validate` compares the presented name as it is:
  a fresh token validates under the name it was created for exactly if that name is stripped
  (`Tokens.IssuedTokenValidatesExactly`, `Tokens.PaddedNameExample`). A create that raises has changed a live
  token exactly if it failed after its rename (`Tokens.RaisedCreateExactly`, `Tokens.LateFailureExample`).
* `environment.py` promises an audit row on every exit. An answer whose fields have the wrong JSON types can
  make the decoder raise something `execute`, `read` and `write` do not catch; such a call leaves no row.
  `Environment.ExecCrashesExactly` and its siblings say for which answers, and `Environment.CrashExamples`
  gives one of each kind.
* `audit.py` purges the expired files one by one and skips over unlinks that fail, so a failed unlink can leave a hole
  in the history (`AuditHole.FailedUnlinkLeavesAHole`); `AuditLog.PurgeSuffixExactly` says exactly when the
  rest is still a suffix.
* The sweep closes one stale socket after another (`lifecycle.py:393-401`). It asks to close the first right
  after its scan, but with two stale sockets the second may be heard while the first is closed, and is closed
  all the same (`RelaySweep.SweptThoughHeard`, `RelaySweep.StillSilentExactly`).

## Locks

The step system lets any step come between two lock bodies, also between the table step of `register` or
`unregister` and the snapshot of the waiters that follows it. In the registry no lock body pauses, so the
lock always is free, and asyncio takes a free lock without a pause: the snapshot follows at once.
`RelayGaps.OldSessionsFailNoNewCalls` is about such runs, and about every run in which merely no waiter is
registered in between. In the same way `complete_waiter` delivers a reply right after it popped the waiter
(`registry.py:400-405`); `RelayDelivery.RepliesReachTheirCalls` is about runs that do. All other theorems hold
with or without this. `RelayStray.StrayWakeHappens` is a remark: it shows the run a lock that paused would
allow.

## Model

| member | source | states |
|---|---|---|
| RelayTable.TableRefinesHistory | registry.py:205-271 | In every reachable state, `connections[n]` is session s if and only if s is the last session registered for n and has not run its unregister. |
| RelayTable.SessionsAreConserved | registry.py:205-271 | Every session ever registered is in exactly one of: the table, popped by its own unregister, handed back as `previous`. |
| RelayTable.DisplacedOnceAndClosed | wsserver/server.py:450-458 | A displaced session went to one later registrant of its own name, which displaced no other, and its socket has been asked to close before that registrant reads a message. |
| RelayTable.OnlyOwnerOrSuccessor | wsserver/server.py:495-500 | No step takes an entry away or gives it to another session except the owner's own unregister and the registration of a newer session of that name: no displaced session's `finally`, heartbeat or sweep does. |
| RelayTable.StepGrows | registry.py:205-207 | Authentications, registration order, displacements, removals and close requests, once recorded, never change over any step. |
| RelaySweep.HeartbeatIsLastHeard | registry.py:313-335 | Over every run, an entry's heartbeat is the last time a session of its name registered or received a message; nothing else moves it. |
| RelaySweep.ScanPicksExactlyTheSilent | registry.py:337-351 | A scan picks a session if and only if it is in the table and its name was last heard before the cutoff. |
| RelaySweep.ClosedWereDisplacedOrPicked | lifecycle.py:386-401 | Over every run, a socket somebody asked to close belongs to a displaced session, or was picked by an earlier scan, in the table and last heard before that scan's cutoff. |
| RelaySweep.StaleWasPicked | lifecycle.py:386-393 | Over every run, what the sweep is about to close was picked by an earlier scan. |
| RelaySweep.StillSilentExactly | lifecycle.py:393-401 | A name a scan found silent is still silent since the cutoff if and only if nothing was heard of it after the scan. |
| RelaySweep.SweptThoughHeard | lifecycle.py:393-401 | A run with two stale sockets: the second is heard while the first is closed, and is asked to close all the same. |
| RelayMail.KeysBelongToLiveCalls | registry.py:382-415 | Every key in the waiter map belongs to one call between its register_waiter and its exit, under its own node and id; a done future in the map means its owner timed out and is about to unregister. |
| RelayMail.FinishedLeavesNoKey | environment.py:375-436 | A call that ended by reply, disconnect, timeout or send failure leaves no key, and the ending agrees with its future. |
| RelayMail.SettledAtMostOnce | registry.py:400-448 | Over every run each future is settled at most once, and settled exactly when it is not pending. |
| RelayMail.FutureChangesOnce | registry.py:400-405 | No step changes a done future; a pending one is changed only by the session holding it, to that session's verdict, or by its own caller's timeout. |
| RelayMail.NoLostWakeUp | registry.py:355-405 | The pending future of a registered call is reachable: its key is in the map, or a session holds it and settling it gives it that session's verdict; never both. |
| RelayMail.KeyLeavesOnlyBy | registry.py:407-456 | A key leaves the map only by its caller, by a message of a result type whose `id` field is that key's id over a session of its node, or in a snapshot of such a session that was just registered or popped. |
| RelayReplies.AnswersCorrelate | wsserver/handlers.py:61-92 | A call is answered only by an object whose `id` field is the call's own id and whose `type` is one of the four result types, from a session authenticated as its node. |
| RelayReplies.FailuresHaveCause | registry.py:417-456 | A call fails as disconnected only if a registered session of its node was popped by its own unregister, or displaced another session of that node. |
| RelayReplies.HeldUntilSettled | registry.py:440-448 | A popped future is held by a session of its node that is in the very phase that settles it, with the matching reason or message, until it is settled. |
| RelayReplies.DisplacedUnregistersInVain | registry.py:246-265 | Over every run, the unregister of a displaced session changes neither the table nor any waiter, and no call is ever failed as disconnected on account of a displaced session. |
| RelayTrails.FollowsPicks | wsserver/server.py:317-500 | What the next rows mean by a trail: its actions occur in the run at increasing positions. |
| RelayOrigins.NamesHaveTokens | wsserver/server.py:419-447 | A session has a name only if it connected, then sent a compatible hello under that name, then an auth under the same name whose token was valid, in this order. |
| RelayOrigins.EntriesHaveTokens | wsserver/server.py:349-456 | So a session in the table under n presented a valid token for n before it was registered. |
| RelayOrigins.AnswersCameThisWay | wsserver/server.py:463-494 | An answered call was answered by this sequence of actions: a socket connected, presented the call's node in hello and with a valid token, was registered, received that very message, passed the limit, routed it and settled this call. |
| RelayOrigins.FailuresCameThisWay | registry.py:205-271 | A call that failed as replaced or disconnected was failed by a session of its node, authenticated with a valid token, right after its own registration or its own unregister. |
| RelayCourse.RunKeepsCourse | environment.py:302-436 | The stage of a call tells its actions in order: begin, lookup, waiter, send with its outcome, then expiry and unregister, or wake; only an execute of an empty command ends without a lookup. |
| RelayCourse.SendDecides | environment.py:377-392 | A call fails as not sent only after its send failed, and waits, times out, is answered or disconnected only after its send went through; either send came after its waiter was registered. |
| RelayCourse.LookDecides | environment.py:322-335 | A call ends as not connected exactly if its node was not in the table when it looked; any other runs on the session that stood there then. |
| RelayDelivery.RepliesReachTheirCalls | registry.py:400-405 | In every run that delivers a reply right after popping its waiter, a reply that finds its waiter becomes the call's final outcome if and only if the caller has not timed out yet; otherwise the outcome stays. |
| RelayDelivery.SnapshotWakesItsNode | registry.py:432-448 | Over every run, a snapshot takes every waiter of its node and no other; once the session has moved on, each that was pending is failed by it with its reason or had timed out, and each done one keeps its outcome. |
| RelayGaps.OldSessionsFailNoNewCalls | registry.py:250-271 | Reconnect safety: in every run whose snapshots follow their table steps at once, or in which no waiter is registered in between, a call fails as disconnected only through its own connection's unregister or through a session registered later than its connection. |
| RelayGaps.AtOnceMeansNobodyInGap | registry.py:205-212 | If each snapshot follows its table step at once, no waiter is registered in between. |
| RelayGaps.StrayWakesComeFromTheGap | registry.py:208-212 | Over every run whatever: a call failed by any other session had registered its waiter between that session's table step and its snapshot. |
| RelayAudit.OneRowPerCall | environment.py:302-462 | Every non-empty execute, read or write that ended has exactly one row, with its own id, a fitting status, exit code -1 unless an answer decided it, and no zero exit code for a failure, except if the answer crashes the decoder, which no well-typed one does. |
| RelayAudit.NoOtherRows | environment.py:617-712 | No other request has a row: running calls, empty commands and the HTTP endpoints' calls leave none. |
| RelayAudit.ExitCodeIsRecorded | environment.py:455-461 | The row of an execute that was answered with a well-typed success says Ok and exactly the `exit_code` of the message. |
| RelayCourse.RowsTellTheCourse | environment.py:377-461 | A row that says Ok or Timeout belongs to a request that was sent, and Timeout to one that then expired; Error means a failed send or an answer. |
| RelayLimiter.RoutedWithinCap | wsserver/server.py:478-494 | Over every run, the frames of n that went to routing in any half-open interval of k windows number at most k times the cap, across reconnects and overlapping sessions. |
| RelayLimiter.RoutedAreAccepted | wsserver/server.py:478-494 | Over every run, the times at which frames of n went to routing are exactly the limiter's accepted calls of n, in order. |
| RelayLimiter.RoutingIsAccepted | wsserver/server.py:478-494 | A session comes to route a frame only by a check accepted at that moment under the name it authenticated as. |
| RelayLimiter.CheckedExactly | wsserver/server.py:478-494 | Over every run, a frame is routed exactly if it is an object and fewer than max frames of its node, over all its sessions, were routed in the last window; otherwise its session leaves. |
| RelayLimiter.LeavesOnlyBy | wsserver/server.py:463-500 | A registered session leaves its loop only when its socket fails or at a check; delivering or dropping a reply brings it back to the loop. |
| Registry.NodeRegistry.Register | registry.py:189-213 | Installs the connection, hands back the one it displaced, and then wakes every pending waiter of that name and no other, unless the very object that is installed is registered again. |
| Registry.NodeRegistry.Unregister | registry.py:215-271 | Removes the entry only if it is the expected session and then wakes its waiters; a guarded no-op changes nothing at all. |
| Registry.NodeRegistry.TouchHeartbeat | registry.py:313-335 | Changes one heartbeat and nobody's session; reports whether the name was there. |
| Registry.NodeRegistry.RegisterWaiter | registry.py:355-384 | A fresh pending future under exactly the key (name, id). |
| Registry.NodeRegistry.CompleteWaiter | registry.py:386-405 | Takes the key away; resolves its future, and says so, exactly if it was pending. |
| Registry.NodeRegistry.UnregisterWaiter | registry.py:407-415 | Takes exactly one key away without settling its future. |
| Registry.NodeRegistry.FailNodeWaiters | registry.py:417-456 | Pops every key of the node, fails every pending future of it, keeps done ones, and returns exactly how many were pending. |
| Registry.NodeRegistry.PopWaiters | registry.py:432-439 | The locked loop: returns each future of the node once and leaves the other nodes' keys. |
| Registry.WakeAll | registry.py:443-448 | The settling loop: fails pending futures, passes over done ones, counts the former. |
| Handlers.RouteInbound | wsserver/handlers.py:61-92 | A message of one of the four result types with a non-empty text `id` takes away the key of the authenticated name and that id and resolves its future if pending; every other key and future stays. |
| Wire.AnswersExactly | wsserver/handlers.py:61-92 | The routing key of a message is its `id` field, and only for the four result types. |
| Handshake.WsNodes | wsserver/server.py:317-500 | Frames follow the handshake grammar; each error frame is sent exactly for its cause, and announces the one close, whose code tells the failing phase; registers exactly if a compatible hello and an auth of the same name validated; unregisters last. |
| Handshake.Hold | wsserver/server.py:463-494 | Every frame counts as a heartbeat and pings are answered; frames are routed in order up to the first that is no object or is over the limit, which alone is announced and closed with 4004. |
| RateLimiter.WindowBound | ratelimit.py:145-187 | Any half-open interval of length k*W holds at most k*max accepted calls of a node. |
| RateLimiter.GreedyOptimal | ratelimit.py:158-187 | For any non-decreasing arrivals, the limiter's j-th accepted call comes no later than the j-th of any selection that respects the cap, and it accepts at least as many. |
| RateLimiter.NoPolicyAcceptsMore | ratelimit.py:158-187 | At no point of a run has any admissible policy accepted more calls than the limiter. |
| RateLimiter.LastIsAccepted | ratelimit.py:179-187 | When the limiter is level with an admissible selection it has room for the call the selection takes next. |
| RateLimiter.NodesAreIsolated | ratelimit.py:158-177 | The answers to n in an interleaved run are those of a limiter that sees n's calls alone. |
| RateLimiter.Deterministic | ratelimit.py:158-187 | The arrivals determine every answer: two faithful histories of the same calls are equal. |
| RateLimiter.AnswerKeepsRefinement | ratelimit.py:158-187 | Answering by the naive reading keeps every deque a sorted, bounded, non-empty tail of its node's accepted calls from which only aged-out calls are missing. |
| RateLimiter.Limiter.Check | ratelimit.py:145-187 | Accepts exactly if fewer than max accepted calls lie in (now-W, now]; fails open for a non-positive cap; records nothing for a rejected call. |
| RateLimiter.Limiter.CheckCapped | ratelimit.py:158-187 | Afterwards the node's deque is exactly its accepted times in (now-W, now], and no other deque changed. |
| RateLimiter.Limiter.Evict | ratelimit.py:161-174 | The popleft loop leaves exactly the entries later than the cutoff. |
| RateLimiter.Limiter.TrackedNodes | ratelimit.py:130-141 | The prune never finds an empty deque: every key has an accepted call. |
| AuditLog.HistoryOnDisk | audit.py:364-417 | Over every run in which each purge is orderly, and whatever unlink, rename, reopen, open, stat or write fails in any record, the files read oldest first are a suffix of the rows for which record returned True. |
| AuditLog.CleanPurgesAreOrderly | audit.py:435-500 | Purges whose unlinks succeed are orderly over every run, so the same holds then without any condition on purges. |
| AuditLog.WrittenIsLast | audit.py:364-417 | A recorded row is the last on disk; a dropped one adds nothing and what remains is a suffix of what was there. |
| AuditDisk.ShiftKeepsChain | audit.py:582-594 | However far it gets, the shift loop overwrites no file (the files stay the same, and as many) and keeps the history. |
| AuditDisk.RotationDropsOnlyOldest | audit.py:545-607 | A rotation loses nothing but the rows of the oldest slot, wherever it breaks off. |
| AuditDisk.RotationWithoutSlots | audit.py:595-602 | With keep 0 the old `.1` gives way to the active log and nothing else is lost. |
| AuditDisk.RotationKeepsAge | audit.py:545-607 | With a non-decreasing clock, modification times never increase with the slot index, through any rotation. |
| AuditLog.PurgeLeavesSuffix | audit.py:435-500 | Removing every expired file leaves a suffix of the history. |
| AuditLog.PurgeSuffixExactly | audit.py:488-499 | With failing unlinks, the rest is a suffix if and only if the purge is orderly: no removed file with rows is younger than one with rows that stays. |
| AuditHole.FailedUnlinkLeavesAHole | audit.py:488-499 | A run of two rotations and a purge that fails on `.2` and removes `.1`, after which the middle row is missing. |
| AuditBounds.DiskFootprint | audit.py:380-385 | As long as the size of the active log can be read, over every run with rows of at most L bytes the files total at most (k+1)*(max_bytes-1+L), where k is keep, or 1 if keep is 0. |
| AuditBounds.RunIsBounded | audit.py:536-607 | As long as the size of the active log can be read, every file is at most max_bytes-1+L bytes, and every rotated one has reached max_bytes. |
| AuditBounds.RetainedBytes | audit.py:572-607 | For keep of at least 1, without failures or purges, a row is gone only when at least keep*max_bytes newer bytes are in the rotated files. |
| AuditExcess.DocumentedBoundExactly | audit.py:49-53 | As long as the size of the active log can be read, the documented bound (keep+1)*max_bytes holds of every run with rows of up to L bytes if and only if L is at most 1, or at most 0 when keep is 0. |
| AuditExcess.BoundAlwaysHoldsExactly | audit.py:536-543 | If reading the size may fail, the documented bound holds of every run with rows of up to L bytes if and only if L is 0. |
| AuditExcess.FootprintIsTight | audit.py:380-385 | For every configuration and L of at least 1 a run reaches the proved footprint exactly. |
| AuditExcess.DocumentedBoundFails | audit.py:49-53 | A run with 36 bytes on disk where 20 are promised. |
| AuditWriter.Writer.Record | audit.py:321-417 | The stepwise record does what the history theorems assume of it, row refused, dropped or written. |
| AuditWriter.Writer.EnsureOpen | audit.py:504-534 | Opens lazily; a failed open changes nothing. |
| AuditWriter.Writer.Rotate | audit.py:545-607 | The descending loop does exactly the modelled rotation, and the handle is open afterwards exactly if it succeeded. |
| AuditLog.ClosedUntilRestart | audit.py:364-378 | After a close and until a restart, no operation records a row or writes or renames a file; without purges the disk stays as it was. |
| AuditWriter.Writer.Purge | audit.py:435-500 | Keeps exactly the active log, the files whose unlink fails, and those last written within retention_days days of 24 hours; returns how many are gone. |
| AuditLog.PurgeKeepsExactly | audit.py:457-499 | The same of the history model: after a purge a file is there, unchanged, exactly if it was, and is active, fails to go, or was last written within the retention. |
| AuditLog.AgeIsLastWrite | audit.py:364-417 | Only a record dates a file, the active log, with its own time; a rotation carries rows and age to the next slot. |
| AuditLog.RecordSucceedsExactly | audit.py:321-417 | record raises exactly for a row without node, id or known status; else it returns True exactly if the writer is not closed, opens, completes a rotation that is due, and writes. |
| AuditLog.ClosedExactly | audit.py:364-378 | The writer is closed exactly if some close was not followed by a restart. |
| Tokens.HistoryIsRepresented | tokens.py:361-449 | Over every history of create, revoke, delete and validate, whatever rewrites fail, the non-revoked records of each name are exactly its live token. |
| Tokens.OneLiveRecord | tokens.py:361-385 | At most one non-revoked record exists per name. |
| Tokens.ValidatesLiveToken | tokens.py:451-522 | validate(n, t) is True if and only if t is presentable and is the token last issued for n with no revoke or delete of n since. |
| Tokens.CreateSucceedsExactly | tokens.py:339-385 | create hands out a token if and only if the name is valid, nothing live stands under it and the rewrite goes through. |
| Tokens.ForcePair | cli.py:301-309 | Delete then create always succeeds for a valid name, its token is the live one, and no other name notices. |
| Tokens.LiveNamesAreStripped | tokens.py:95-146 | Only a name that strip leaves alone ever has a live token. |
| Tokens.IssuedTokenValidatesExactly | tokens.py:339-385 | Right after create(name) issued a token, validate under that same name is True if and only if strip leaves the name alone and the token is presentable. |
| Tokens.RaisedCreateExactly | tokens.py:613-628 | A create that raises changes some live token if and only if it fails after its rename for a valid name nothing stands for; then its token is live. |
| Tokens.Store.Create | tokens.py:339-385 | The stepwise create replies and rewrites as the history theorems assume. |
| Tokens.Store.Revoke | tokens.py:397-427 | The in-place loop marks exactly the records of the stripped name. |
| Tokens.HashesDeleted | tokens.py:429-449 | Deleting a name removes its live token and leaves every other name's. |
| Tokens.Store.Validate | tokens.py:451-522 | True exactly for the live token of the presented name. |
| TokenRecords.NamesExactly | tokens.py:95-146 | A name can hold a token if and only if it is 1 to 64 printable ASCII characters, without blank ends, slash, backslash or two dots in a row. |
| TokenRecords.GeneratedTokensValidate | tokens.py:451-522 | With url-safe tokens, as the generator makes them, validate(n, t) is True if and only if t is the live token of n. |
| TokenRecords.OddTokensNeverValidate | tokens.py:149-180 | A token that is empty or holds a control or non-ASCII character, a slash or a backslash never validates and changes nothing. |
| TokenRecords.RecordsAreEntries | tokens.py:361-449 | Over every history the one live record of a name shows when it was created and when it was last used, as far as the writes reached the disk. |
| TokenRecords.RevokeKeepsRecords | tokens.py:412-427 | Revoking marks the records of the name and keeps everything else about the list, in order. |
| TokenRecords.DeleteRemovesRecords | tokens.py:429-449 | Deleting removes all records of the name, revoked ones too, and no other. |
| Text.StripIsStripped | tokens.py:108-146 | Stripping leaves no blank at either end and is idempotent. |
| Text.StripExactly | tokens.py:108-146 | strip(s) is c if and only if c has no blank ends and s is c between blanks: nothing else is removed. |
| Environment.ExecCrashesExactly | environment.py:860-959 | Exactly which exec answers, by their fields, raise something execute does not catch. |
| Environment.ReadCrashesExactly | environment.py:714-785 | The same for read answers. |
| Environment.WriteCrashesExactly | environment.py:786-828 | The same for write answers. |
| Environment.WellTypedLeavesOneRow | environment.py:438-462 | A well-typed answer leaves exactly one row: Ok for a success, Error with a non-zero exit code otherwise. |
| Environment.OutputKeepsStdout | environment.py:900-959 | The agent's output begins with all of stdout; stderr follows behind its tag exactly if `exit_code` is not zero and stderr not empty; a truncated output ends with the hint; nothing else is added. |
| Environment.ExitCodeIsReturned | environment.py:930-941 | The return code, and the exit code of the Ok row, are the integer in `exit_code`, 1 for true, and 0 for anything else. |
| Environment.ExecErrorIsReported | environment.py:911-928 | A failed execute reports the node's code, 3001 for a timeout without one, and its Error row says that code, or -1 for 0. |
| Environment.ReadIsReturned | environment.py:766-784 | A well-formed read answer gives the decoded content, its size and whether it was cut, and an Ok row. |
| Environment.WriteIsReturned | environment.py:824-828 | A well-formed write answer gives the number of bytes it names and an Ok row. |
| Environment.FileErrorIsReported | environment.py:108-116 | A read or write error leaves an Error row with the code of its name, or -1 for any other name. |
| Environment.MalformedIsReported | environment.py:746-775 | An answer of another type, or a read that is not base64, leaves an Error row with -1. |
| Dotenv.ReadsBackExactly | env.py:117-127 | The written key is read back if and only if no line of the old text assigned the variable, an empty one included. |
| Dotenv.LookupAfterWrite | env.py:252-268 | After a write every lookup is that of the old text, and the new line decides what is left. |
| Dotenv.OthersUnchanged | env.py:252-268 | Lookups of other names are what they were. |
| Dotenv.SecondCall | env.py:233-241 | A second call reports the same key as present and changes nothing, exactly if the first write can be read back; otherwise it writes another key. |
| Dotenv.FilePreservedExactly | env.py:252-271 | The stored file is a prefix of the new one if and only if it holds no carriage return. |
| Dotenv.ReadExisting | env.py:104-127 | The scanning loop finds what the first assigning line says, an empty value counting as none. |
| Dotenv.AssignmentExactly | env.py:117-127 | A line assigns v to the variable if and only if it is the name, `=` and v with white space allowed at both ends and around the `=`. |
| Dotenv.UniversalUndoesBreaks | env.py:111-117 | Text stored with CR LF or CR line ends reads back as the same text. |
| Dotenv.Process.EnsureKey | env.py:233-291 | The process environment always ends up with the reported key; the status says whether it was found, written or could not be written, and the file changes exactly in the second case; an unreadable file is replaced by the one new line. |
| Retry.RequestWithRetry | tools.py:76-124 | Stops after the first non-transient answer or max_retries+1 attempts, returns that answer or the last attempt's outcome, and sleeps exactly before each retry. |
| Retry.TransientExactly | tools.py:47-58 | An attempt is retried if and only if no response could be read, its status is at least 500, or its reason, or else its error, mentions "not connected" in letters of either case; exactly a non-text reason or error below 500 raises. |
| Retry.VerdictIsUnique | tools.py:76-124 | The server's answers determine the number of attempts and the outcome. |
| Retry.UsesAllAttemptsExactly | tools.py:80-117 | All max_retries+1 attempts are made if and only if every one before the last met a transient failure. |
| Retry.MoreRetriesKeepAnswer | tools.py:102-117 | Allowing more retries changes neither a conclusive answer nor the number of attempts it took. |
| Retry.SleepBounds | tools.py:93-98 | The sleep before attempt n totals at most 30*n and at most b*(2^n-1), and equals the latter while the cap is not reached. |
| Retry.SleepBeyondCap | tools.py:93-98 | Once b*2^m has reached the cap, each further sleep is exactly 30. |

## Left out

- `ServerRunner.start` and `drain`: they depend on the web server's internals.
- Cancellation of tasks from outside: a caller that is cancelled between `register_waiter` and its exit is not modelled.
- The HTTP endpoints' answers: only their use of the waiter map is modelled; a disconnect during one of them ends it with the internal exception, not with a structured answer.
- The stale sweep's loop and stop event: its scan and its closes are two kinds of step of the relay, in any order and number.
- Registering the same connection object twice is modelled in `Registry` only; in the relay session ids are fresh.
- Frames and callers of the relay are modelled on values, with program counters; a future there is a record of its state, and aliasing of futures is modelled in `Registry` only.
- Handshake.WsNodes: the field caps of the hello and auth messages, the parser of the version and the token store's answer are parameters, and a failed send is not told apart from a successful one, as in the source.
- AuditLog.HistoryOnDisk: a purge that leaves a hole is excluded, as `AuditHole` shows it must be; a write that fails leaves the file as it was; partial lines left in a buffer are not modelled, nor is a file changed by anyone else.
- AuditBounds.DiskFootprint: assumes that the size of the active log can be read, and so do AuditBounds.RunIsBounded and AuditExcess.DocumentedBoundExactly; AuditExcess.BoundAlwaysHoldsExactly is about the other runs.
- RelayAudit.OneRowPerCall: is about the rows handed to the audit writer, which may still drop a row, as `AuditLog` models.
- AuditLog.PurgeSuffixExactly: assumes distinct rows, as request ids make them.
- Tokens.ValidatesLiveToken: calls are sequential; `validate` writes back outside the lock, and nothing is claimed about concurrent calls, files edited by others or a lost key.
- Environment.OutputKeepsStdout: parsing integers out of text, printing of values that are not text, base64 and UTF-8 decoding are parameters.
- Dotenv.ReadsBackExactly: requires a variable name without blanks at its ends, `=`, `#` in front or line breaks, and a non-empty key of one line, as every Fernet key is.
- Retry.SleepBounds: arithmetic is over the reals; floating-point rounding is not modelled.
- `config.py`, the command line, the tool schemas, logging, file modes and the plugin hooks: plumbing without state of its own.

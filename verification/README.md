# ArcRelay web gateway: a verified model

The gateway serves shared directories over HTTP. This project models the five parts of it whose correctness
is not visible in any one function, and proves what they promise over every run:

- **Stream admission** (`Admission*.dfy`, `StreamAdmission.dfy`). Each download needs a client handle, one of its
  client's 16 request slots, one of its 4 stream slots and one of 16 global slots. Clients live in a registry of at
  most 1024 entries that is swept by idleness and reference count. Every atomic section of the source is one event,
  and events of different calls interleave freely: the locked lookup, the request poll, the two semaphore polls, the
  start of a drop, and the release of every single thing a call holds.
- **Sessions** (`Sessions.dfy`, `SessionHistory.dfy`, `SessionExpiry.dfy`, `SessionStore.dfy`). A bounded map with lazy
  expiry, eviction, per-share grants and four kinds of revocation. It is compared with a log of calls and answers, and
  with a store that deletes expired sessions eagerly.
- **Failed-password limiter** (`Limiter.dfy`, `LimiterHistory.dfy`, `LimiterOverlap.dfy`, `AuthLimiter.dfy`). A sliding window of failures for
  each address and share, pruned from the front only, compared with the log of what happened.
- **Supervisor** (`Supervisor.dfy`, `GatewaySupervisor.dfy`). `reconfigure` replaces a server task which itself writes
  the shared status when it ends.
- **Ranges, entity tags, tokens and cookies** (`Ranges.dfy`, `RangeTheorems.dfy`, `Validators.dfy`, `Tokens.dfy`). The
  parsers and printers with their 64-bit arithmetic. RFC 9110 (sections 13.1.5, 14.1.2, 14.2, 14.4 and 15.5.17) and
  section 4.2.1 of RFC 6265 are the standards; where the code decides differently (an unknown unit and several ranges
  are a 416, a leading plus is accepted) the model follows the code.

Each stateful part is a step system on values, whose invariants and whole-run theorems are lemmas, and a class that
updates its fields in place as the source does, each method being proved to take exactly the step of its name.

## How to read the model

- `LimitId` names one allocation of a `ClientLimit`, so two allocations for one address differ. `handles` counts the
  clones of the `Arc` outside the registry; the strong count of a registered limit is one more.
- A waiter that has been handed its slot and has not been polled yet counts as holding it: `HasStream`, `Complete`.
- `Close` stands for a timeout, a cancellation, a failed acquire and the end of a finished permit. What the call holds
  is then released one thing at a time, in any order; the order of the source, `_client` first
  (`src/admission.rs:27-32`), is one of them.
- The clock of a lookup is read before the lock, so the `now` of a lookup is arbitrary; `Since` saturates at zero.
- The session methods read the clock under the lock, up to three times in one call; the readings are kept apart.
  Tokens are drawn fresh and the idle lifetime is fixed within a run of the session theorems; the session calls beside a
  `reconfigure` may use any idle lifetime.
- `auth_rate_limited` reads its clock before the lock and `record_auth_failure` under it; `mark` is the latest reading
  a sweep has used.
- `Await` in the supervisor object is an await point. Its contract allows any number of steps of the old server task and of
  session calls, and its callers know no more than that contract.
- A header that is absent, or is not visible ASCII text, is `None`.

## What turned out false

- The comment at `src/admission.rs:51-52` says an address can never get a second independent semaphore. It can, because a
  permit drops `_client` first: the reference count falls to one while the slots are still out, an insertion on another
  thread may sweep the entry, and the address may come back. `SecondSemaphoreHappens` is such a run. `OnePerAddressExactly`
  and `RunOnePerAddressExactly` say when the claim holds: exactly when no lookup of an address is admitted while an older
  limit of it is out of the registry and still missing slots. Releasing the handle last, or all at once, rules that out
  (`HandlesKeepOneSemaphore`).
- Five failures in 60 seconds bound the recorded failures in every interleaving, but not always the verifications
  themselves. `VerificationsBoundedExactly` says when they do: exactly when each failure of the key finds room in its
  deque, the guard at `src/server.rs:692`. Calls that do not overlap always do (`UnlocksBounded`). At most k calls past
  their check at once give at most 6k - 1 verifications (`OverlapBound`); without a limit on the overlap there is no bound
  (`OverlapEscapesBound`).
- `revoke_share` also counts expired sessions that no sweep has met: `ExpiredHolderIsCounted` is an example, and
  `RevokedCountExactly` says by how many.

## Model

| member | source | states |
|---|---|---|
| AdmissionSafety.ActKeeps | src/admission.rs:86-119 | every step of a call (polls, waiting, hand-off, timeout, cancellation, each single release) keeps the whole invariant: handles point to registered limits, available plus held is 4, 16 and 16, handle counts are exact, queues hold exactly the waiters once each, nobody waits beside a free slot |
| AdmissionSafety.MovedKeeps | src/admission.rs:91-118 | conservation and queues survive any change of one call's stage in which the semaphores lose exactly what the call gains |
| AdmissionSafety.StreamHandOff | src/admission.rs:98-103 | releasing a stream slot that somebody waits for is two balanced moves, so a direct hand-off conserves every slot |
| AdmissionSafety.GlobalHandOff | src/admission.rs:104-109 | the same for the global slots |
| AdmissionRegistry.LookupKeeps | src/admission.rs:44-80 | a lookup, with its sweep, eviction, insertion or refusal, keeps the whole invariant |
| AdmissionRegistry.RunKeeps | src/admission.rs:43-119 | so does every run of any interleaving |
| AdmissionRegistry.ReachableIsSafe | src/admission.rs:44-119 | in every reachable state: outstanding handles for one address all point to the limit registered for it, the address has at most 4 live streams and 16 live requests, all together hold at most 16 global slots, the registry has at most 1024 entries |
| AdmissionRegistry.ReleasedMeansGone | src/admission.rs:91-118 | an acquire that failed, timed out or was cancelled has given back exactly what it took: what each semaphore lacks is held by other calls |
| AdmissionRegistry.KnownAddressKeepsLimit | src/admission.rs:47-50 | a known address gets its own limit again, evicts nobody, and changes nothing but its access time |
| AdmissionRegistry.InsertionEvicts | src/admission.rs:53-67 | an insertion removes an entry exactly when it is unreferenced and either idle for 300 s or the least recently accessed unreferenced one of a registry the sweep left full |
| AdmissionRegistry.NewAddressGetsFreshLimit | src/admission.rs:68-79 | an admitted new address gets a limit nobody had before, with 4 and 16 free slots and one handle, and no other entry, limit or call changes |
| AdmissionRegistry.RefusedExactlyWhenFull | src/admission.rs:56-67 | a lookup is refused exactly when the address is new and all 1024 entries are referenced, and then changes nothing |
| AdmissionSemaphores.AllSlotsBackMeansUnused | src/admission.rs:12-15 | the semaphores of a limit are full exactly when no call holds a slot of it |
| AdmissionSemaphores.OutlivedHasUser | src/admission.rs:51-67 | a limit of an address is out of the registry and missing slots exactly when some call still uses an unregistered limit of it |
| AdmissionSemaphores.OnePerAddressExactly | src/admission.rs:44-80 | after a lookup all calls of one address use one limit if and only if the lookup was refused or, before it, no limit of that address was out of the registry and missing slots |
| AdmissionSemaphores.ActKeepsOnePerAddress | src/admission.rs:86-119 | no poll, hand-off, timeout or release ever gives an address a second limit |
| AdmissionSemaphores.RunOnePerAddressExactly | src/admission.rs:51-67 | over whole runs: no address ever uses two limits if and only if none is admitted while an older limit of it is out of the registry and missing slots |
| AdmissionSemaphores.HandlesKeepOneSemaphore | src/admission.rs:51-52 | in a state with no half dropped permit every used limit is the registered one of its address, so no address uses two |
| AdmissionSemaphores.OnePerAddressBounds | src/admission.rs:68-71 | while no address uses two limits each has at most 4 streams and 16 requests, half dropped permits included |
| AdmissionSemaphores.ReachableBounds | src/admission.rs:44-119 | those bounds in every reachable state of a run in which no address returns early |
| AdmissionSemaphores.SecondSemaphoreHappens | src/admission.rs:27-32 | a concrete run in which one address holds streams of two independent semaphores, because `_client` is dropped first |
| AdmissionFairness.WaiterStep | src/admission.rs:97-109 | a release serves the first in line; everybody else in line moves up by it, and no event ever moves a waiter back |
| AdmissionFairness.NobodyOvertakes | src/admission.rs:97-109 | while a call waits, whoever newly gets a slot of that semaphore stood before it |
| AdmissionFairness.ServedInTurn | src/admission.rs:97-109 | a call at position k of a stream or global queue has its slot after k + 1 releases of that semaphore at the latest, whatever arrives in between, and nobody behind it is served before it |
| AdmissionEffects.CloseTakesNothing | src/admission.rs:97-118 | a call can be closed at any stage; afterwards it holds exactly what it held, is on its way out and in no queue, and no count, other call, registry entry or other place in a queue is different |
| AdmissionEffects.DropsAreEnabled | src/admission.rs:27-32 | each thing a closed call holds can be released next |
| AdmissionEffects.OwnSlots | src/admission.rs:91-118 | a call takes a slot exactly where it asks for one and fewer than 4 or 16 are held, gives one back exactly where it drops it, and keeps every other |
| AdmissionEffects.Unwinds | src/admission.rs:92-96 | a call unwinds exactly after a close or a request refused because 16 are held |
| AdmissionEffects.OtherCalls | src/admission.rs:98-109 | another call changes only when it is first in line for the slot that is dropped, and then it has that slot |
| AdmissionEffects.OtherLimits | src/admission.rs:86-119 | no step of a call touches the registry or the limit of another client |
| AdmissionEffects.StepEffects | src/admission.rs:86-119 | all of this for any step in any reachable state |
| AdmissionProgress.RequestGrantedWhileSlotsLast | src/admission.rs:92-96 | a request slot is granted exactly while fewer than 16 are held, otherwise the call unwinds with only its handle to give back |
| AdmissionProgress.StreamGrantedWhileSlotsLast | src/admission.rs:98-103 | a stream slot is granted exactly while fewer than 4 are held, otherwise the call joins the end of the queue |
| AdmissionProgress.GlobalGrantedWhileSlotsLast | src/admission.rs:104-109 | a global slot is granted exactly while fewer than 16 are held, otherwise the call joins the end of the queue |
| AdmissionProgress.BlockedOnGlobalNeedsManyLimits | src/admission.rs:97-116 | a call blocked on the global slots means that four for each busy limit and one for each half dropped permit come to at least 17 |
| AdmissionProgress.FourClientsNeverBlock | src/admission.rs:97-116 | while at most four addresses hold streams, none of two limits, and no permit is half dropped, no call with a stream slot is blocked on the global slots |
| AdmissionProgress.NoDeadlock | src/admission.rs:86-119 | whenever a call waits, a call that holds a slot in its way does not wait and can go on without any timeout |
| AdmissionProgress.ReleaseMovesWaiter | src/admission.rs:98-103 | whenever the queue is not empty its first member waits for it, dropping a stream admits exactly that one, and the slot never returns to the pool |
| AdmissionProgress.ReleaseMovesGlobalWaiter | src/admission.rs:104-109 | the same for the global slots, across addresses |
| AdmissionProgress.StepsDown | src/admission.rs:86-119 | every step of a call leaves less work, hand-offs included |
| AdmissionProgress.DrainingEnds | src/admission.rs:86-119 | without new arrivals a run has at most as many steps as there is work left |
| AdmissionProgress.QuiescentMeansFull | src/admission.rs:86-119 | when no call can go on, every call is gone and every semaphore is full, for every limit and globally |
| AdmissionProgress.DrainingAdmits | src/admission.rs:86-119 | along any run that only finishes permits and goes as far as it can, every call that had a request slot comes to hold a complete permit |
| AdmissionProgress.DrainingIsPossible | src/admission.rs:86-119 | from every state of the invariant there is such a run |
| StreamAdmissionObject.StreamAdmission.constructor | src/admission.rs:34-41 | a new object is the initial state: 16 global slots, no clients |
| StreamAdmissionObject.StreamAdmission.Oldest | src/admission.rs:57-61 | finds a least recently accessed unreferenced entry, and nothing exactly when all are referenced |
| StreamAdmissionObject.StreamAdmission.MakeRoom | src/admission.rs:53-67 | sweep and eviction leave exactly the remaining entries, evicting a least recently accessed unreferenced one |
| StreamAdmissionObject.StreamAdmission.Client | src/admission.rs:44-80 | takes exactly a lookup step, refuses exactly when the address is new and all 1024 entries are referenced, and returns the registered limit |
| StreamAdmissionObject.StreamAdmission.TryRequest | src/admission.rs:92-96 | takes exactly the request step |
| StreamAdmissionObject.StreamAdmission.PollStream | src/admission.rs:98-103 | takes exactly the stream step: a slot, or the end of the queue |
| StreamAdmissionObject.StreamAdmission.PollGlobal | src/admission.rs:104-109 | takes exactly the global step |
| StreamAdmissionObject.StreamAdmission.DropHandle | src/admission.rs:28 | gives back the handle and nothing else |
| StreamAdmissionObject.StreamAdmission.DropRequest | src/admission.rs:29 | gives back the request slot and nothing else |
| StreamAdmissionObject.StreamAdmission.DropStream | src/admission.rs:30 | gives the stream slot to the first waiter, or to the pool |
| StreamAdmissionObject.StreamAdmission.DropGlobal | src/admission.rs:31 | gives the global slot to the first waiter, or to the pool |
| StreamAdmissionObject.StreamAdmission.Close | src/admission.rs:97-118 | a timeout or cancellation takes the call out of its queue and leaves it exactly what it held, to be released; nothing else changes |
| StreamAdmissionObject.StreamAdmission.LookUp | src/admission.rs:44-80 | a lookup keeps the object consistent, and a known address its limit |
| StreamAdmissionObject.StreamAdmission.Step | src/admission.rs:86-119 | so does whatever step a call takes next |
| SessionHistory.StepKeeps | src/session.rs:20-155 | after every call each stored session is exactly what the log says of its token, every token that is absent is expired or ended in the log, and there are at most 1024 sessions |
| SessionHistory.RunKeeps | src/session.rs:20-155 | the same after any run |
| SessionHistory.AuthorizedExactly | src/session.rs:72-104 | `authorized` answers true exactly when the log alone says so: latest grant of this share with this revision, same address, not withdrawn since, less than 24 h old, no idle gap |
| SessionHistory.AuthorizedMeansHistory | src/session.rs:26-147 | the same over every run from an empty store |
| SessionHistory.LatestGrantIs | src/session.rs:42-44 | the latest grant is the position in the log after which nothing grants, locks, revokes, logs out, evicts or clears |
| SessionHistory.OriginIs | src/session.rs:59-68 | the origin of a session is the position of its creation, with no later end |
| SessionHistory.LatestAccessIs | src/session.rs:102 | the latest access is the position of the last creation, reuse or successful authorization |
| SessionHistory.ReusedExactly | src/session.rs:39-49 | `create_or_authorize` returns the caller's token exactly when its session is unexpired by the log and from the same address, and a newly drawn one otherwise |
| SessionHistory.AccessNeedsLiveSession | src/session.rs:84-91 | no access but the creation ever happens to a session 24 h old or idle for the idle lifetime, or from another address |
| SessionHistory.AccessesNeverGap | src/session.rs:84-102 | over the whole log of any run: between successive accesses of a session less than the idle lifetime passes, and each comes less than 24 h after its creation, from the same address, with no end in between |
| SessionHistory.NeverAdopted | src/session.rs:39-69 | every returned token was drawn by the store, never taken over from a caller |
| SessionHistory.NeverReturns | src/session.rs:59-69 | a drawn token that has left the store never comes back in any continuation |
| SessionHistory.RevokedForever | src/session.rs:139-147 | after revoke-all no token issued earlier authorizes or is issued again, in any continuation |
| SessionHistory.OriginFixed | src/session.rs:12-18 | no run moves a session to another address or changes its creation time |
| SessionHistory.CreationEvicts | src/session.rs:50-58 | a creation removes a session exactly when it is expired, or is a least recently accessed one of exactly 1024 unexpired sessions |
| SessionHistory.AuthorizedRemovesExpired | src/session.rs:84-103 | `authorized` removes a session exactly when it asks about it and it is 24 h old or idle for the idle lifetime, and changes nothing else but the access time of one it lets through |
| SessionHistory.RevokeAllExactly | src/session.rs:139-147 | `revoke_all` leaves no session and counts as many as it removed |
| SessionHistory.RevokeShareExactly | src/session.rs:125-137 | `revoke_share` counts exactly the holders, leaves none, and changes no other grant or field |
| SessionHistory.StoreStaysSmall | src/session.rs:50-58 | no call takes the store above 1024 sessions |
| SessionExpiry.RunAgrees | src/session.rs:84-94 | after any run the lazy store and one that sweeps before every call have the same unexpired sessions |
| SessionExpiry.LazyAnswersLikeEager | src/session.rs:26-104 | so every authorization and every creation is answered alike, token included |
| SessionExpiry.RevokedCountExactly | src/session.rs:125-137 | the revoked counts of the two differ by the expired holders, and agree exactly when there are none |
| SessionExpiry.ExpiredHolderIsCounted | src/session.rs:125-137 | a run from the empty store after which the lazy store counts one revoked session and the eager store none |
| SessionStoreObject.SessionStore.constructor | src/session.rs:20-23 | a new store is empty |
| SessionStoreObject.SessionStore.Oldest | src/session.rs:51-54 | finds a session with the least last access, and nothing exactly in an empty store |
| SessionStoreObject.SessionStore.CreateOrAuthorize | src/session.rs:26-70 | takes exactly the creation step, with an oldest victim, and returns the token the log prescribes |
| SessionStoreObject.SessionStore.Authorized | src/session.rs:72-104 | takes exactly the authorization step and answers what the log prescribes |
| SessionStoreObject.SessionStore.LockShare | src/session.rs:106-114 | removes one grant of one session |
| SessionStoreObject.SessionStore.Logout | src/session.rs:116-123 | removes one session |
| SessionStoreObject.SessionStore.StripInPlace | src/session.rs:130-136 | the loop removes the share everywhere, whatever the order, and counts exactly the sessions that held it |
| SessionStoreObject.SessionStore.RevokeShare | src/session.rs:125-137 | takes exactly the revocation step, returns the number of holders and leaves none |
| SessionStoreObject.SessionStore.RevokeAll | src/session.rs:139-147 | empties the store and returns how many sessions it had |
| Limiter.FrontPopsExactly | src/server.rs:669-679 | popping from the front equals filtering the whole deque exactly when no expired failure stands behind a recent one |
| Limiter.SortedPops | src/server.rs:669-679 | which holds for every deque in time order |
| LimiterHistory.EveryWindowHoldsFive | src/server.rs:656-703 | in any interleaving a deque is exactly the recorded failures since the last success inside the window, keys with none are absent, none has more than five, no 60 s hold more than five recorded failures, and the map has at most 4096 keys |
| LimiterHistory.RecordedExactly | src/server.rs:681-695 | a failure is recorded exactly when a check at that instant would have let it through |
| LimiterHistory.PassesLater | src/server.rs:656-667 | time alone never turns a passed check into a refusal, so neither cap drops the failure of a call that ran alone |
| LimiterHistory.UnlockExactly | src/server.rs:182-211 | a correct password that is let through forgets every failure of its key; a wrong one is the newest of those still in the window; a refused call changes no record; no other key changes |
| LimiterHistory.UnlocksBounded | src/server.rs:182-211 | without overlap every failed verification is recorded, so no 60 s without a success hold more than five verifications of one key |
| LimiterOverlap.VerificationsBoundedExactly | src/server.rs:681-695 | in any interleaving that never crowds the key out of a full map: no 60 s ever hold more than five failed verifications of the key if and only if each of them finds room in its deque, if and only if none goes unrecorded |
| LimiterOverlap.AllRecordedExactly | src/server.rs:681-695 | in any interleaving at all: every failed verification is recorded if and only if a check in its place would have passed each time, and then the bound of five holds for them |
| LimiterOverlap.OverlapBound | src/server.rs:182-211 | with at most k calls of a key past their check at once, no 60 s hold more than 6k - 1 failed verifications of it |
| LimiterOverlap.OverlapEscapesBound | src/server.rs:194-210 | any number of overlapping calls can all pass the check and fail within one window, with only five recorded |
| AuthLimiterObject.AuthLimiter.PopFront | src/server.rs:671-676 | the pop loop keeps exactly the failures in the window |
| AuthLimiterObject.AuthLimiter.PruneInPlace | src/server.rs:669-679 | every deque is pruned and emptied keys go |
| AuthLimiterObject.AuthLimiter.RateLimited | src/server.rs:656-667 | takes exactly the check step and answers whether the key has five failures or is new to a full map |
| AuthLimiterObject.AuthLimiter.Record | src/server.rs:681-695 | takes exactly the failure step |
| AuthLimiterObject.AuthLimiter.Clear | src/server.rs:697-703 | forgets exactly one key |
| AuthLimiterObject.AuthLimiter.Unlock | src/server.rs:182-211 | refuses exactly with five failures on record in the window, or for a key without any when the map is full; otherwise the outcome is that of the verification, a correct password leaves the key without failures, a wrong one ends its deque, no other key changes, and a complete record stays complete |
| AuthLimiterObject.RefusesExactly | src/server.rs:662-666 | the same for any state and any clock reading of the check |
| Supervisor.QuietStateIsConsistent | src/lib.rs:155-270 | with no `reconfigure` in progress at most the installed task is unfinished, the status says running exactly while it is, it carries the latest settings, and the last published status is the stored one |
| Supervisor.FinalWriteIsOwn | src/lib.rs:259-266 | a task that can still write only ever writes over the status of its own round, and no two tasks are unfinished together |
| Supervisor.FinalWriteReports | src/lib.rs:259-266 | the final write says not running, the sessions of that moment and the error the task ended with, keeps the rest, and is published |
| Supervisor.PublishedReports | src/lib.rs:155-270 | with no `reconfigure` in progress the published status is what the events alone say: the latest settings, the bind error or final error of the latest round or none, the addresses of its binding, the sessions counted at its final write |
| Supervisor.RunKeeps | src/lib.rs:155-270 | the invariant behind both, over every interleaving of the call with ending tasks and session calls |
| Supervisor.ReconfigureRevokes | src/lib.rs:170 | once a `reconfigure` has returned no token issued before it began authorizes again, whatever ran beside it or follows |
| GatewaySupervisorObject.GatewaySupervisor.StopOld | src/lib.rs:158-169 | after the shutdown signal, the five seconds and the abort, no old task is unfinished |
| GatewaySupervisorObject.GatewaySupervisor.Announce | src/lib.rs:222-223 | what is published is what was stored, although other tasks run between the two |
| GatewaySupervisorObject.GatewaySupervisor.Reconfigure | src/lib.rs:155-270 | returns with the new settings stored and published, running exactly when enabled and bound, no sessions counted, the addresses of the binding, only the new task unfinished, the bind error reported exactly then, and every earlier token gone |
| RangeTheorems.ParseU64Exactly | src/server.rs:577-588 | a text parses as a `u64` exactly when, after one optional plus, it is a non-empty string of digits whose value fits in 64 bits |
| RangeTheorems.PrintParses | src/server.rs:508 | a printed number parses as itself |
| RangeTheorems.AcceptedIsInside | src/server.rs:449 | an accepted range lies inside the file, and the 64-bit length computation neither underflows nor wraps |
| RangeTheorems.AcceptedExactly | src/server.rs:557-594 | a range is accepted exactly for `bytes=start-end` without a comma on a non-empty file whose bounds denote a non-empty part of it |
| RangeTheorems.RangeTextSelects | src/server.rs:569-593 | for any text around the dash: a byte is selected exactly when both sides ask for it, a side that is neither empty nor a number is a 416, and so is asking for no byte |
| RangeTheorems.ClosedRangeSelects | src/server.rs:581-593 | `bytes=a-b` selects exactly the existing bytes from a to b, and is a 416 exactly when there are none |
| RangeTheorems.OpenRangeSelects | src/server.rs:582-584 | `bytes=a-` selects exactly the bytes from a on, and is a 416 exactly at or after the end |
| RangeTheorems.SuffixRangeSelects | src/server.rs:574-579 | `bytes=-n` selects exactly the last n bytes, all of a shorter file, and is a 416 exactly for n = 0 or an empty file |
| RangeTheorems.RangeRoundTrip | src/server.rs:505-510 | printing an accepted range and parsing it again gives the same range |
| RangeTheorems.PlainRequestServesWhole | src/server.rs:561-563 | without a `Range` header the whole file is sent |
| RangeTheorems.ServesSlice | src/server.rs:440-476 | the whole file is sent exactly when there is no range to honour, a 416 exactly when there is one that selects nothing, and otherwise exactly the selected bytes, as the headers announce |
| RangeTheorems.DownloadIsPrefix | src/server.rs:440-476 | any sequence of satisfiable requests, each from the byte after those received, yields consecutive slices of the file and makes progress each time |
| RangeTheorems.DownloadEndsWithFile | src/server.rs:590-592 | such a download takes at most one request a byte, and its next request is a 416 exactly when it has the whole file |
| RangeTheorems.PrefixPlusSuffix | src/server.rs:574-588 | a prefix range and the matching suffix range rebuild the file |
| Validators.ETagExactly | src/server.rs:439 | two entity tags are equal exactly when size and modification time are |
| Validators.ETagText | src/server.rs:439 | the tag is, in quotes, size and then modification time in lower-case hexadecimal without leading zeros |
| Validators.QuotedTagServes | src/server.rs:596-604 | without `If-Range` the range counts; with a quoted one it counts exactly when that is the file's own tag |
| Validators.StaleTagServesWhole | src/server.rs:440-448 | with the quoted tag of an earlier response a part is sent only if size and modification time are unchanged, and otherwise the whole file |
| Validators.DatedRangeServes | src/server.rs:596-610 | with a date in `If-Range` the range counts exactly when the date is readable and the file changed at most a second after it, so the file's own time cut to seconds always counts; otherwise the whole file is sent |
| Tokens.EncodeDecodes | src/session.rs:165-175 | decoding the hexadecimal text of any bytes gives the bytes back |
| Tokens.TokensAreInjective | src/session.rs:165-175 | tokens are 64 hexadecimal characters, and equal exactly for equal random bytes |
| Tokens.TokenText | src/server.rs:653 | what passes as a token is 64 hexadecimal digits in either case |
| Tokens.RandomToken | src/session.rs:165-175 | the loop writes two lower-case hexadecimal digits for each byte, high half first |
| Tokens.SplitJoin | src/server.rs:646 | splitting undoes joining with a separator that no part holds |
| Tokens.JoinSplit | src/server.rs:646 | joining undoes splitting, and no part holds the separator |
| Tokens.CookieRoundTrip | src/server.rs:641-654 | the token is recovered from any cookie header that carries it among others, with any padding, provided no earlier cookie has its name |
| Tokens.CookieExactly | src/server.rs:641-654 | a header yields a token exactly when it is a semicolon-separated list whose first cookie of that name, between blanks or tabs, holds it; no header yields none |
| Tokens.UsualHeader | src/server.rs:646-647 | the form browsers send, with a semicolon and a blank, yields the token |
| Tokens.NamedExactly | src/server.rs:647-652 | a cookie has the session's name exactly when the name follows its leading blanks or tabs |
| Tokens.SetCookieRoundTrip | src/server.rs:224-231 | the header has its exact text, and its pair yields the token when it comes back |
| Tokens.SessionCookieExactly | src/server.rs:641-654 | a header yields a token exactly when its first cookie with the session's name holds that token |

## Left out

- WAIT_TIMEOUT: a timer is not modelled; a waiting call may be closed at any time, which covers every timeout.
- The numeric `Arc::strong_count` during a lookup: handles are cloned only under the lock, and a handle dropped on another thread is an event before or after the lookup, not in the middle of its sweep.
- Semaphore closing (`"gateway stopped"`): nothing in the source closes these semaphores.
- Drops of one permit are not tied to one thread: any order of its four releases is allowed, which includes the order of the source.
- Randomness of tokens: a drawn token is assumed new; no probability is modelled.
- Mutex poisoning: the source goes on with the data as it is, and so does the model.
- The iteration order of hash maps: which of several equally old entries or sessions is evicted is an input. The lazy and the eager session store are given the same choice.
- AdmissionRegistry.ReachableIsSafe: counts a stream or request of an address until the permit's handle is dropped, because after that drop the source itself can give the address a second limit. `ReachableBounds` counts every slot, for the runs in which that does not happen; the bounds of 4 and 16 for each single limit hold always (`ActKeeps`).
- LimiterOverlap.OverlapBound: says nothing of a key without failures that meets a map full of 4096 other keys: such a failure is not recorded, and the map may empty and fill again within one window. The same holds for `VerificationsBoundedExactly`; `AllRecordedExactly` covers that case.
- Calls that die during the verification: they stay counted among the k calls of `OverlapBound`.
- GatewaySupervisorObject.GatewaySupervisor.Reconfigure: assumes that the call completes and that no task panics; a cancelled call detaches its old task. A task's final status write and its end are one step.
- `WebGatewaySupervisor::status`, `revoke_sessions` and `requires_background`: reads, or one session call each.
- Settings validation, hostname normalization, the IPv6 listener and the listing of local addresses: inputs of `Reconfigure`.
- Connections that outlive their server task: nothing is claimed about requests still served after a shutdown.
- Share lookup and password verification come from another crate: their results are inputs of `Unlock`.
- `content` around the byte selection: routing, opening and seeking the file, the encoded file name, other headers, and the `HEAD` method. The file is taken to keep its bytes during one request.
- HTTP dates: the parsed date of `If-Range` is an optional input.
- Multiple `Cookie` or `Range` header lines: the source reads the first, which is the model's header.
- `src/network_guard.rs`, `src/assets.rs`, error mapping and security headers: short branch tables.

# Stateful components of the server: model and proofs

The server's session tokens, agent task manager, rate limiter, credential generator, remote session
sync, assistant service, agent runtime and QR login tokens are small objects whose code fits on a page
each. What they promise is about every run and, for most, about every interleaving of their callers.
Each module below models one of them and proves those promises.

A component that updates fields in place is a class with the same fields and one method per entry
point; each method is proved against a specification function. Where other threads can run in the
middle of a call, the module also has a transition system whose events are the pieces of the calls
between those points, with lemmas (`Uninterrupted...`) tying an undisturbed sequence of pieces back to
the method.

| module | component | main results |
|---|---|---|
| `Jwt` | session tokens: sign, verify, revoke, rotate, clean up | in every interleaving a verify after a revocation succeeds if and only if the token is of the current secret and within the leeway after its expiry; every instant of the leeway is reached by some run |
| `TaskManager` | one agent per conversation | single flight per slot and per conversation; where every agent ever built is; an agent is lost exactly when its slot was taken out of the map and looked into before the cell was set |
| `RateLimit` | fixed windows, the auth middleware | at most `max` grants a window and 2 * max - 1 in any interval of window length, which is reached, if calls take effect in the order of their clock readings, and without that order no bound at all; a cleanup that overtakes no call cannot be observed; the middleware's limit holds if and only if one request is in flight at a time (or the window is empty), and `max` is at least 1 |
| `Passwords` | generation and validation | the shuffle reaches every order of n characters if and only if n <= 256; generated passwords and user names validate, and every user name and strong password of the right lengths is generated from some bytes |
| `RemoteSync` | mirroring listed sessions into conversations | pagination returns every key; one row for each missing session of each opencode agent's listing, if and only if it is listed once; what a second pass creates; a failed listing costs exactly the failing agent's own rows |
| `Assistants`, `AssistantLaws` | merged list, point lookup, import, overrides | list equals lookup over whole runs if and only if the extensions' ids fit; import accounting and what a second import inserts; last writer wins per field |
| `RuleFiles` | rule files addressed by name | the directory is a map keyed by (id, locale) if and only if no id in use continues another after a dot; two ids collide, and a delete of one reaches the other's files, under just that condition |
| `AgentRuntime` | status machine and terminal events | at most one terminal event more than there were resets; from any state, one per turn if and only if the turn is owed no more, and a run can bring about one that is owed two |
| `QrTokens` | one-time login tokens | accepted if and only if generated, unspent and not past the returned expiry; consumed once; cleanup changes no outcome, only which refusal an expired token gets |

## Where the code differs from what it says

- `Jwt`: `verify` leaves the leeway of its decoder at that library's default while cleanup drops an entry at
  its nominal expiry, so a revoked token can be accepted again at any instant of the leeway
  (`Jwt.RevivedThroughoutLeeway`). The model takes the leeway as the parameter `grace`.
- `TaskManager`: the comment that a kill removes the agent holds for a built one; a conversation killed while
  its agent is being built leaves that agent running and unreachable (`TaskManager.KillDuringBuildLosesAgent`).
- `RateLimit`: the middleware checks on arrival and records on return, so c requests in flight can record
  max + c - 1 failures in a window (`RateLimit.BusyReachable`); with `max` = 0 as many failures as requests
  in flight pass (`RateLimit.ZeroLimitLetsThrough`). Its calls read the clock before they lock their entry. When
  calls are overtaken in between, no number bounds the grants of an interval (`RateLimit.BoundedIffTrivial`), and for
  every limiter a cleanup can change an answer (`RateLimit.OvertakingCleanupShows`).
- `RemoteSync`: a session that one listing contains twice gets two rows in one pass, because the keys are read
  once at the start; a session with an empty agent or session id gets a new row on every pass.
- `RuleFiles`: deleting the rules of `a`, or the assistant `a`, also deletes the files of an assistant `a.b`, and
  deleting `a.b` deletes the files that `a` has for locale `b` (`RuleFiles.DeleteReachesOther`).
- `Assistants`: the comments call the import idempotent; every accepted entry without an id of its own is inserted
  again each time (`AssistantLaws.ReimportInserts`).
- `QrTokens`: once a cleanup has swept a token, its refusal says invalid instead of already used or expired
  (`QrTokens.CleanupChangesTheRefusal`).
- `AgentRuntime`: the comments call the two emits atomic, but the event is sent after the lock is released, so a
  terminal event can arrive in the turn after its own (`AgentRuntime.LateTerminalEvent`).

## Assumptions

- `Jwt`: secrets drawn by a rotation are new, tokens have distinct hashes (the blacklist is keyed by the token
  itself), a token decodes only under the secret that signed it, the clock does not go back, and every token
  presented was issued earlier or never decodes. The expiry rule is section 4.1.4 of RFC 7519 with its leeway:
  accepted while `now < exp + grace`; a rule `now <= exp + L` is `grace` = L + 1. The blacklist is a
  sharded map, so a clear or a sweep may drop any part of what it is to drop, one piece at a time.
- `TaskManager`: the once-cell excludes concurrent initialisers and stays empty on failure; a caller's future
  may be dropped at any time; the agents that a factory builds are distinct.
- `RateLimit`: each call is one step because it locks its entry once, and calls take effect in the order of their
  clock readings. As a reading precedes the lock, that asks of the scheduler, besides a clock that does not go back,
  that no call is overtaken in between. The results on windows and intervals and the middleware use it;
  `RateLimit.CleanupIsUnobservable` asks only that no call is overtaken by a cleanup, and
  `RateLimit.CountNeverExceedsMax` and `RateLimit.CleanupChangesAnswer` ask nothing.
- `QrTokens`: each call is one step for its token; a validation's clock reading, taken under the lock, is no earlier
  than those of the cleanups before it, which holds of any clock that does not go back.
- `Passwords`: the random bytes are an input stream of any content.
- `RemoteSync`: the table holds the sync user's rows in the order the repository lists them, row ids are
  numbers in the order of the text ids, new ids are unused, and each insert succeeds or fails on its own.
- `Assistants`: user rows are listed most recently updated first and an override write keeps the stored preset
  and last use where none is given, as `crates/chisl-db/src/repository/sqlite_assistant.rs` does; each
  operation runs alone. Ids generated by an import are new where a result says so.

## Model

| member | source | states |
|---|---|---|
| Jwt.JwtService.Sign | crates/chisl-auth/src/jwt.rs:61-85 | the token holds the user's id and name, issued now, expiring 86400 seconds later, with the service's issuer and audience; it decodes to them under the current secret and under no other |
| Jwt.JwtService.Verify | crates/chisl-auth/src/jwt.rs:90-112 | blacklisted tokens are refused as such, and only those; of the others exactly those of another secret, issuer or audience are invalid and those past expiry and leeway expired; the rest give back their claims |
| Jwt.JwtService.BlacklistToken | crates/chisl-auth/src/jwt.rs:117-123 | the token is stored with its own expiry, or a full lifetime from now when it does not decode |
| Jwt.JwtService.RotateSecret | crates/chisl-auth/src/jwt.rs:128-139 | the new secret is installed and returned, the blacklist is empty |
| Jwt.JwtService.CleanupBlacklist | crates/chisl-auth/src/jwt.rs:142-145 | exactly the entries whose expiry has passed go, the others keep their expiry |
| Jwt.StepKeepsInv | crates/chisl-auth/src/jwt.rs:90-145 | the invariant behind revocation survives every piece of every call, whichever thread runs it |
| Jwt.ExecutionKeepsInv | crates/chisl-auth/src/jwt.rs:90-145 | it holds after every execution |
| Jwt.RevokedTokenStaysDead | crates/chisl-auth/src/jwt.rs:90-145 | in every interleaving a verify that starts after a revocation returned and finds no entry succeeds if and only if the token is of the current secret and exp <= now < exp + grace |
| Jwt.RevocationFinalIffNoLeeway | crates/chisl-auth/src/jwt.rs:101-145 | no verify after a revocation ever succeeds if and only if the leeway is zero |
| Jwt.RevivingRunExecutes | crates/chisl-auth/src/jwt.rs:101-145 | sign, revoke, wait until some instant of the leeway, clean up, verify: this run is feasible for every such instant |
| Jwt.RevivedThroughoutLeeway | crates/chisl-auth/src/jwt.rs:101-145 | so at each instant of the leeway a token revoked before is accepted |
| Jwt.ClearLosesNoLiveRevocation | crates/chisl-auth/src/jwt.rs:128-139 | what a rotation's clear drops can never decode again, then or later |
| Jwt.OnlyRevocationBlacklists | crates/chisl-auth/src/jwt.rs:117-123 | a token nobody revoked is on no blacklist in any execution |
| Jwt.UnrevokedTokenVerifies | crates/chisl-auth/src/jwt.rs:90-112 | a token of the current secret, unexpired and unrevoked, verifies after any execution |
| Jwt.UninterruptedSign | crates/chisl-auth/src/jwt.rs:61-85 | the pieces of a sign run together hand out a token with those claims |
| Jwt.UninterruptedVerify | crates/chisl-auth/src/jwt.rs:90-112 | the pieces of a verify run together refuse a listed token at once, else answer what the token deserves, and change nothing |
| Jwt.UninterruptedRevocation | crates/chisl-auth/src/jwt.rs:117-163 | the pieces of a revocation run together do what the call does |
| Jwt.UninterruptedRotation | crates/chisl-auth/src/jwt.rs:128-139 | so do those of a rotation |
| Jwt.UninterruptedCleanup | crates/chisl-auth/src/jwt.rs:142-145 | so do those of a cleanup |
| TaskManager.OnceCell.GetOrTryInit | crates/chisl-ai-agent/src/task_manager.rs:117-123 | a set cell keeps its value and returns it; an empty one is set by a success and left empty by a failure |
| TaskManager.WorkerTaskManager.GetTask | crates/chisl-ai-agent/src/task_manager.rs:90-100 | the agent of the conversation's slot, if there is a slot and it is set |
| TaskManager.WorkerTaskManager.GetOrBuildTask | crates/chisl-ai-agent/src/task_manager.rs:102-124 | an existing agent is returned, otherwise the factory's outcome decides slot and answer; no other conversation changes |
| TaskManager.WorkerTaskManager.Kill | crates/chisl-ai-agent/src/task_manager.rs:126-148 | the slot goes, its agent's kill is called once if it is set, and its error is passed on |
| TaskManager.WorkerTaskManager.Clear | crates/chisl-ai-agent/src/task_manager.rs:150-160 | the map is empty and every built agent was killed exactly once |
| TaskManager.WorkerTaskManager.ActiveCount | crates/chisl-ai-agent/src/task_manager.rs:162-164 | the number of conversations whose agent is built |
| TaskManager.UninterruptedKill | crates/chisl-ai-agent/src/task_manager.rs:126-148 | the pieces of a kill run together do what the call does, for a conversation with a slot or without |
| TaskManager.UninterruptedBuild | crates/chisl-ai-agent/src/task_manager.rs:102-124 | the pieces of a build run together leave the new agent findable and other conversations as they were |
| TaskManager.UninterruptedFailedBuild | crates/chisl-ai-agent/src/task_manager.rs:102-124 | those of a failing build leave a slot without an agent and other conversations as they were |
| TaskManager.UninterruptedLookup | crates/chisl-ai-agent/src/task_manager.rs:102-124 | those of a call that finds its slot set return that agent and change nothing |
| TaskManager.UninterruptedClear | crates/chisl-ai-agent/src/task_manager.rs:150-160 | so do those of a clear, whatever the order of its keys |
| TaskManager.ReachableInv | crates/chisl-ai-agent/src/task_manager.rs:102-160 | flight, map and fate invariants hold in every reachable state |
| TaskManager.Conservation | crates/chisl-ai-agent/src/task_manager.rs:102-160 | every agent ever built is in the map, killed, about to be, or was built into a slot removed before its cell was set; one whose slot was not removed so early is never lost; an agent's kill is called at most once, and never while it is in the map |
| TaskManager.LostIffAbandoned | crates/chisl-ai-agent/src/task_manager.rs:126-160 | outside a removal in progress an agent is neither findable nor killed exactly when its remover had found the cell unset |
| TaskManager.KillDuringBuildLosesAgent | crates/chisl-ai-agent/src/task_manager.rs:102-134 | a concrete run in which a kill during the build loses the agent |
| TaskManager.SetCellNeverChanges | crates/chisl-ai-agent/src/task_manager.rs:70-124 | a set cell holds the same agent for ever, mapped or not |
| TaskManager.OneBuilderPerSlot | crates/chisl-ai-agent/src/task_manager.rs:70-124 | in every reachable state at most one factory call is running for a slot |
| TaskManager.SingleFlightPerSlot | crates/chisl-ai-agent/src/task_manager.rs:70-124 | at most one factory call ever succeeds for a slot |
| TaskManager.SameAgentForEveryCaller | crates/chisl-ai-agent/src/task_manager.rs:102-124 | all callers answered Ok by a slot got the same agent, at whatever times |
| TaskManager.SingleFlightPerConversation | crates/chisl-ai-agent/src/task_manager.rs:33-44 | the factory succeeds at most once for a conversation nobody kills or clears |
| TaskManager.FailureLeavesSlotRetryable | crates/chisl-ai-agent/src/task_manager.rs:70-74 | right after a failed or dropped build every waiter and every newcomer can start over, and map and agents are untouched |
| TaskManager.FailedBuildCanBeRetried | crates/chisl-ai-agent/src/task_manager.rs:70-74 | a newcomer's build after a failed one gives the conversation its agent |
| TaskManager.WaitersMakeProgress | crates/chisl-ai-agent/src/task_manager.rs:117-123 | a waiting caller can go on, or the build it waits for can end |
| RateLimit.RateLimiter.Check | crates/chisl-auth/src/rate_limit.rs:58-67 | refuses exactly when a window is open and used up, and changes nothing |
| RateLimit.RateLimiter.CheckAndIncrement | crates/chisl-auth/src/rate_limit.rs:72-92 | grants while the current or newly opened window has room and counts exactly the grants |
| RateLimit.RateLimiter.RecordAttempt | crates/chisl-auth/src/rate_limit.rs:97-112 | counts one more in the current or newly opened window |
| RateLimit.RateLimiter.AuthMiddleware | crates/chisl-auth/src/rate_limit.rs:149-164 | refused exactly when blocked on arrival; only an unsuccessful request is recorded, at the time it came back |
| RateLimit.RateLimiter.Cleanup | crates/chisl-auth/src/rate_limit.rs:115-118 | only the entries of open windows remain |
| RateLimit.CleanupIsUnobservable | crates/chisl-auth/src/rate_limit.rs:58-118 | a run in which no cleanup overtakes a call, in any other order of readings, gives the same answers as without its cleanups, and ends in a state no later call can tell apart |
| RateLimit.CleanupChangesAnswer | crates/chisl-auth/src/rate_limit.rs:58-118 | for any entries, reading and call: a cleanup changes the call's answer if and only if it drops an entry that is used up and, to the call's earlier reading, still open |
| RateLimit.OvertakingCleanupShows | crates/chisl-auth/src/rate_limit.rs:58-118 | every limiter has a run in which an overtaking cleanup changes an answer |
| RateLimit.WindowsFollow | crates/chisl-auth/src/rate_limit.rs:72-112 | the kept entry follows the key's last window, whatever other keys do |
| RateLimit.GrantsPerWindow | crates/chisl-auth/src/rate_limit.rs:72-92 | the windows do not overlap, hold at most max grants each, and together hold every grant |
| RateLimit.GrantsPerInterval | crates/chisl-auth/src/rate_limit.rs:72-92 | at most 2 * max - 1 grants in any half-open interval of window length, max if a window is one tick and none if it is empty |
| RateLimit.IntervalBoundIsReached | crates/chisl-auth/src/rate_limit.rs:72-92 | for every max and window some ordered run grants exactly that many |
| RateLimit.CountNeverExceedsMax | crates/chisl-auth/src/rate_limit.rs:72-92 | in whatever order the clock readings take effect, no entry counts more than max grants |
| RateLimit.BoundedIffTrivial | crates/chisl-auth/src/rate_limit.rs:72-92 | in any order of readings that bound, or any bound at all, holds if and only if windows are empty or max is 0 |
| RateLimit.GateStepKeepsInv | crates/chisl-auth/src/rate_limit.rs:149-164 | with up to c requests of a key in flight, its open window's count plus those in flight stays within the bound |
| RateLimit.FailuresPerWindow | crates/chisl-auth/src/rate_limit.rs:149-164 | every recorded failure lies in one window and no window holds more than max + c - 1 (c when max is 0, 1 when windows are empty) |
| RateLimit.FailuresPerInterval | crates/chisl-auth/src/rate_limit.rs:149-164 | any interval of window length holds less than twice that many failures, or that many if a window is one tick |
| RateLimit.BusyReachable | crates/chisl-auth/src/rate_limit.rs:149-164 | for every limiter, every mix of failures and requests in flight within that bound is reached |
| RateLimit.ZeroLimitLetsThrough | crates/chisl-auth/src/rate_limit.rs:149-164 | with max = 0 a key reaches c failures |
| RateLimit.LimitHoldsIffSequential | crates/chisl-auth/src/rate_limit.rs:149-164 | for every limiter, no key ever counts more than max failures if and only if max >= 1 and, unless windows are empty, c = 1 (or no request ever runs) |
| Passwords.Shuffle | crates/chisl-auth/src/password.rs:149-155 | the in-place loop is the Fisher-Yates function of its bytes, with indices in range, and permutes the array |
| Passwords.ShuffledPermutes | crates/chisl-auth/src/password.rs:149-155 | the swaps at positions i and below permute those positions and leave the later ones alone |
| Passwords.BytesFor | crates/chisl-auth/src/password.rs:149-155 | for up to 256 characters, bytes that turn a text into any given rearrangement of it |
| Passwords.EveryPermutationIffAtMost256 | crates/chisl-auth/src/password.rs:149-155 | every rearrangement of every text of length n is produced by some bytes if and only if n <= 256 |
| Passwords.LastComesFromBelow256 | crates/chisl-auth/src/password.rs:149-155 | beyond 256 the last character always comes from the first 256 |
| Passwords.FisherYatesLast | crates/chisl-auth/src/password.rs:149-155 | the last byte says which character ends up last, and the other bytes shuffle the rest |
| Passwords.SwapIndexRepeats | crates/chisl-auth/src/password.rs:149-155 | a byte greater by the number of positions swaps with the same one |
| Passwords.InRange | crates/chisl-auth/src/password.rs:111-116 | four random bytes give a number in the half-open range |
| Passwords.InRangeIsRemainder | crates/chisl-auth/src/password.rs:111-116 | the number is that of the four bytes, least significant first, modulo the length of the range |
| Passwords.InRangeReaches | crates/chisl-auth/src/password.rs:111-116 | every number of a range of at most 2^32 comes from some bytes |
| Passwords.PickGoesRound | crates/chisl-auth/src/password.rs:119-123 | the first bytes pick the characters of a charset in order, and the next ones the same again |
| Passwords.DrawAt | crates/chisl-auth/src/password.rs:126-147 | position i is picked from its charset by byte i |
| Passwords.DrawChars | crates/chisl-auth/src/password.rs:135-147 | one character of each class, then the rest from the full set, one byte each |
| Passwords.GenerateStrongPassword | crates/chisl-auth/src/password.rs:135-158 | the password is the shuffled draw of the first 2 * max(len, 4) bytes of the stream, which are consumed |
| Passwords.GeneratePassword | crates/chisl-auth/src/password.rs:95-98 | the strong password of length max(len, 4) that the next bytes give; it validates if and only if 8 <= len <= 128 |
| Passwords.GenerateUserCredentials | crates/chisl-auth/src/password.rs:81-89 | for every byte stream both results validate, with 6 to 8 and 12 to 17 characters, and are the credentials of the stream: four bytes for each length, then the user name's, the password's and the shuffle's |
| Passwords.StrongPasswordClasses | crates/chisl-auth/src/password.rs:135-158 | after the shuffle there is still a character of each of the four classes and none outside them |
| Passwords.WeakPasswordsHaveNoSpecial | crates/chisl-auth/src/validation.rs:16-32 | a text with a special character is not on the weak list in any case |
| Passwords.StrongPasswordValidates | crates/chisl-auth/src/validation.rs:16-32 | a generated password passes the rules if and only if its length is within them |
| Passwords.AlphanumericUsernameValidates | crates/chisl-auth/src/validation.rs:40-68 | any 3 to 32 ASCII letters and digits are a valid user name |
| Passwords.GeneratedUsernameValidates | crates/chisl-auth/src/password.rs:81-89 | so every generated user name is valid |
| Passwords.EveryStrongPassword | crates/chisl-auth/src/password.rs:135-158 | every text of 4 to 256 password characters with one of each class is the password of some bytes |
| Passwords.EveryRandomString | crates/chisl-auth/src/password.rs:126-132 | every text of lower-case letters and digits is the random string of some bytes |
| Passwords.EveryCredentials | crates/chisl-auth/src/password.rs:81-89 | every such user name and password of the right lengths are the credentials of some stream |
| Passwords.PasswordVerdict | crates/chisl-auth/src/validation.rs:16-32 | which refusal a password gets: its length in bytes, or one of the five common passwords in any case |
| Passwords.UsernameVerdict | crates/chisl-auth/src/validation.rs:40-68 | a user name validates if and only if it is 3 to 32 letters, digits, hyphens and underscores with neither of these at an end; which refusal any other gets |
| Passwords.Utf8Parts | crates/chisl-auth/src/validation.rs:16-24 | the length in bytes adds up over parts |
| Passwords.Utf8OfOne | crates/chisl-auth/src/validation.rs:16-24 | and a character takes one to four by its code point |
| RemoteSync.CursorIsSuffix | crates/chisl-db/src/repository/sqlite_conversation.rs:130-189 | the rows behind a cursor are exactly those after the cursor's row in the listing |
| RemoteSync.RemoteSessionSync.ExistingSessionKeys | crates/chisl-app/src/remote_session_sync.rs:142-179 | for any table and page size the loop ends with exactly the pairs that some row of type remote with parseable extra mirrors, both ids present and not empty |
| RemoteSync.RemoteSessionSync.InsertConversation | crates/chisl-app/src/remote_session_sync.rs:186-225 | the session's row is put in its place in the listing, or the repository refuses this insert and nothing changes |
| RemoteSync.NewRowTimes | crates/chisl-app/src/remote_session_sync.rs:186-225 | the row carries the session's own times; one known time stands in for the other, the clock for neither |
| RemoteSync.NewRowContents | crates/chisl-app/src/remote_session_sync.rs:186-225 | the row is a remote conversation named by the session's title or Untitled session, with the agent's and the session's id and the directory |
| RemoteSync.RemoteSessionSync.SyncSession | crates/chisl-app/src/remote_session_sync.rs:111-133 | one listed session: skipped, inserted and broadcast, or left out, as the pass's specification says |
| RemoteSync.RemoteSessionSync.SyncOnce | crates/chisl-app/src/remote_session_sync.rs:84-136 | every way a pass can end: repository errors, no agent to ask, or the mirrored table with the number of rows made and a broadcast for each |
| RemoteSync.OnlyOpenCodeMatters | crates/chisl-app/src/remote_session_sync.rs:85-96 | dropping the agents of other protocols drops no session to be mirrored |
| RemoteSync.TargetsCount | crates/chisl-app/src/remote_session_sync.rs:85-131 | a pass goes through a session of an agent as often as the opencode agent is in the repository's answer times how often the session is in its listing |
| RemoteSync.TargetsConcat | crates/chisl-app/src/remote_session_sync.rs:97-131 | the sessions come in the order of the agents |
| RemoteSync.TargetsOfOneAgent | crates/chisl-app/src/remote_session_sync.rs:111-131 | and for one agent in the order of its listing, every one of them |
| RemoteSync.KeyBagCounts | crates/chisl-app/src/remote_session_sync.rs:142-179 | the keys of a table count the rows that mirror each pair |
| RemoteSync.InsertKeepsListed | crates/chisl-app/src/remote_session_sync.rs:186-225 | an insert keeps the listing order and the ids distinct |
| RemoteSync.MirroredAddsRows | crates/chisl-app/src/remote_session_sync.rs:98-136 | a pass adds exactly the rows of the sessions that were missing and whose insert succeeds, as many as it reports; reporting none it changed nothing |
| RemoteSync.MirroredKeyCount | crates/chisl-app/src/remote_session_sync.rs:98-136 | how many rows every key has after a pass, whichever inserts fail |
| RemoteSync.OneRowIffListedOnce | crates/chisl-app/src/remote_session_sync.rs:98-136 | a missing session gets exactly one row if and only if it is listed once |
| RemoteSync.PassMirrorsEachMissingOnce | crates/chisl-app/src/remote_session_sync.rs:84-136 | with distinct nonempty ids and no failures: one row per missing pair, no other pair changes, and the returned number is the number of missing pairs |
| RemoteSync.PassMirrorsEveryListing | crates/chisl-app/src/remote_session_sync.rs:84-136 | for agents and listings with ids that fit and no failures: exactly one row, made from it, for every listed session that no row mirrored, no other pair changes, and the returned number is the number of those sessions |
| RemoteSync.SecondPassIsIdle | crates/chisl-app/src/remote_session_sync.rs:84-136 | and a second pass creates nothing and leaves the table unchanged |
| RemoteSync.CreatedAreNewRows | crates/chisl-app/src/remote_session_sync.rs:115-124 | what is counted and broadcast are the ids of the rows made, in order |
| RemoteSync.SecondPassCreates | crates/chisl-app/src/remote_session_sync.rs:84-136 | a second pass creates exactly the sessions with an empty id once more; none means an unchanged table |
| RemoteSync.FailedListingIsIsolated | crates/chisl-app/src/remote_session_sync.rs:100-109 | a pass in which one agent's listing fails makes the very rows it makes otherwise, less those of that agent |
| Assistants.AssistantService.Get | crates/chisl-assistant/src/service.rs:132-160 | the response of the one source that has the id, or not found |
| Assistants.AssistantService.List | crates/chisl-assistant/src/service.rs:95-130 | the sorted merge of the three sources; overrides without an entry in it are dropped |
| Assistants.AssistantService.Create | crates/chisl-assistant/src/service.rs:204-253 | every refusal in its order, else the new row, and the answer a lookup would give |
| Assistants.AssistantService.Update | crates/chisl-assistant/src/service.rs:255-329 | what each source allows to be changed, the error cases, and the answer a lookup would give |
| Assistants.AssistantService.Delete | crates/chisl-assistant/src/service.rs:331-358 | only an existing user row goes, with its override and with every rule, skill and avatar file that matches its id and can be removed |
| Assistants.AssistantService.SetState | crates/chisl-assistant/src/service.rs:360-397 | the merged override, the error cases, and the answer a lookup would give |
| Assistants.AssistantService.Import | crates/chisl-assistant/src/service.rs:406-524 | the batch with its cached default agent type gives the rows and counters of one that resolves the default afresh for every entry |
| AssistantLaws.StepFits | crates/chisl-assistant/src/service.rs:204-253 | every operation keeps user ids distinct and apart from built-in and extension ids |
| AssistantLaws.SortSorts | crates/chisl-assistant/src/service.rs:116-120 | the list is a rearrangement in order of sort_order, then newest use |
| AssistantLaws.SortIsStable | crates/chisl-assistant/src/service.rs:116-120 | entries that compare equal keep the order of the merge |
| AssistantLaws.ListOrder | crates/chisl-assistant/src/service.rs:95-120 | of two entries of the list the earlier has the smaller sort_order, or the newer use, or ties with the later and comes before it in the order built-ins, users, extensions and within each source |
| AssistantLaws.ListRefinesGet | crates/chisl-assistant/src/service.rs:95-160 | the list has one entry for every id that can be looked up, that entry is the lookup, and the list is sorted |
| AssistantLaws.ListMatchesGetIffExtensionsFit | crates/chisl-assistant/src/service.rs:78-160 | that holds after every run if and only if extension ids are distinct and none is a built-in's |
| AssistantLaws.OrphanCleanupIsSafe | crates/chisl-assistant/src/service.rs:122-127 | a list drops no override of an existing assistant, keeps no other, and changes no lookup |
| AssistantLaws.RunHasNoOrphans | crates/chisl-assistant/src/service.rs:204-397 | in every run each override belongs to an assistant that can be looked up |
| AssistantLaws.CreatedIsFound | crates/chisl-assistant/src/service.rs:204-253 | a created assistant is looked up with the requested values and default state, and was not there before |
| AssistantLaws.CreateDecides | crates/chisl-assistant/src/service.rs:204-253 | which refusal a create gets, by the name, the ids in use and the providers |
| AssistantLaws.UpdateDecides | crates/chisl-assistant/src/service.rs:255-329 | which refusal an update gets |
| AssistantLaws.DeleteAndStateDecide | crates/chisl-assistant/src/service.rs:331-397 | which refusal a delete and a state change get |
| AssistantLaws.ClassifyDecides | crates/chisl-assistant/src/service.rs:78-86 | an id is a built-in's before it is an extension's before it is a user's |
| AssistantLaws.AgentTypeDecides | crates/chisl-assistant/src/service.rs:182-198 | a given preset is taken; else one enabled provider gives aionrs, none a bad request, an unreadable list an internal error |
| AssistantLaws.TrimCuts | crates/chisl-assistant/src/service.rs:205 | trimming cuts whitespace off both ends, until neither end is whitespace, and nothing else |
| AssistantLaws.ChangedRowFirst | crates/chisl-assistant/src/service.rs:204-329 | a created or updated row comes first and the other rows keep their order |
| AssistantLaws.WithoutRowCloses | crates/chisl-assistant/src/service.rs:331-346 | a row taken out leaves the others in their order |
| AssistantLaws.ExtensionShown | crates/chisl-assistant/src/service.rs:805-827 | an extension is shown with its own name, description, icon and context, enabled, sort_order 0, never used, with aionrs |
| AssistantLaws.RowStep | crates/chisl-assistant/src/service.rs:204-397 | no operation but a delete of the id removes a user row, and none but an update of the id changes it |
| AssistantLaws.DeleteRemovesOne | crates/chisl-assistant/src/service.rs:331-358 | a delete makes its id unknown and changes the lookup of no other |
| AssistantLaws.ImportAccounts | crates/chisl-assistant/src/service.rs:406-524 | imported + skipped + failed is the batch length, there is an error per failure, and existing rows are untouched below the new ones |
| AssistantLaws.ImportSettles | crates/chisl-assistant/src/service.rs:406-524 | after a batch the id of each entry the repository did not fail is taken, or the entry is one that is always refused |
| AssistantLaws.ImportDecides | crates/chisl-assistant/src/service.rs:414-521 | what becomes of one entry: skipped, failed and why, or imported |
| AssistantLaws.ImportErrorsName | crates/chisl-assistant/src/service.rs:414-521 | the errors name exactly the entries that failed, with the reason |
| AssistantLaws.ImportedIsFound | crates/chisl-assistant/src/service.rs:414-521 | an imported entry is in the table at the end of the batch, as requested |
| AssistantLaws.ReimportImportsNothing | crates/chisl-assistant/src/service.rs:400-524 | the same requests with explicit ids imported again insert nothing |
| AssistantLaws.ReimportInserts | crates/chisl-assistant/src/service.rs:400-524 | any requests imported again insert exactly the accepted entries without an id of their own |
| AssistantLaws.LastWriterWins | crates/chisl-assistant/src/service.rs:255-397 | after any run the lookup of a built-in, or of a user assistant not deleted in it, shows in each field the value last supplied, else the one it showed at the start |
| AssistantLaws.BuiltinDefaults | crates/chisl-assistant/src/service.rs:755-779 | for a built-in the start is: enabled, sort_order 0, never used, its own preset |
| Assistants.AssistantService.ReadRule | crates/chisl-assistant/src/service.rs:531-552 | the readable file of a user assistant or nothing, the bundle's rule of a built-in for that locale, nothing for an extension |
| Assistants.AssistantService.WriteRule | crates/chisl-assistant/src/service.rs:555-571 | only a user assistant's file is written and no other; after a success it reads back; a missing directory or a failed write is an internal error |
| Assistants.AssistantService.DeleteRule | crates/chisl-assistant/src/service.rs:574-582 | exactly the matching files that can be removed go, and the answer says whether there were any |
| RuleFiles.RemoveFiles | crates/chisl-assistant/src/service.rs:942-981 | whatever the directory order, exactly the doomed files that are not stuck go, and the answer says whether any did |
| RuleFiles.WrittenIs | crates/chisl-assistant/src/service.rs:561-568 | a write that works is there to be read; whatever befalls it, no other file changes |
| RuleFiles.MdNames | crates/chisl-assistant/src/service.rs:942-961 | the rule and skill files of an id are id.md and id.something.md |
| RuleFiles.AvatarNames | crates/chisl-assistant/src/service.rs:963-981 | its avatar files are id. with any extension |
| RuleFiles.NamesInjective | crates/chisl-assistant/src/service.rs:928-934 | for ids of which none continues another after a dot the file name determines id and locale, an empty locale counting as none |
| RuleFiles.DotFreeApart | crates/chisl-assistant/src/service.rs:928-934 | ids without dots are such ids |
| RuleFiles.CollideIffDotExtension | crates/chisl-assistant/src/service.rs:928-934 | two different ids share a file name for some locales if and only if one continues the other after a dot |
| RuleFiles.DeleteReach | crates/chisl-assistant/src/service.rs:942-961 | which files a delete takes: those whose stem is the id or continues it after a dot |
| RuleFiles.DeleteReachesOther | crates/chisl-assistant/src/service.rs:942-961 | a delete can take a file of another id if and only if one of the two continues the other after a dot |
| RuleFiles.DeleteEmptiesId | crates/chisl-assistant/src/service.rs:942-961 | an unobstructed delete leaves no locale of its id, dotted or not |
| RuleFiles.WriteRefines | crates/chisl-assistant/src/service.rs:555-571 | on such ids a write is a map update |
| RuleFiles.ReadRefines | crates/chisl-assistant/src/service.rs:531-552 | a read is a map lookup |
| RuleFiles.DeleteRefines | crates/chisl-assistant/src/service.rs:942-961 | a delete removes all locales of that id and no other key |
| RuleFiles.DeleteReports | crates/chisl-assistant/src/service.rs:942-961 | and its answer says whether the map had such a key |
| RuleFiles.RulesBehaveAsMap | crates/chisl-assistant/src/service.rs:531-582 | after any writes and deletes of such ids every read gives what a map keyed by (id, locale) holds |
| RuleFiles.RulesBehaveAsMapIffApart | crates/chisl-assistant/src/service.rs:531-582 | for a set of ids that holds over all runs if and only if none continues another after a dot |
| AgentRuntime.Runtime.TransitionTo | crates/chisl-ai-agent/src/agent_runtime.rs:87-94 | sets the status unless it is Finished |
| AgentRuntime.Runtime.EmitFinish | crates/chisl-ai-agent/src/agent_runtime.rs:110-125 | the status is Finished, and one event was sent if and only if it was not before |
| AgentRuntime.Runtime.EmitError | crates/chisl-ai-agent/src/agent_runtime.rs:129-148 | the same for an error |
| AgentRuntime.UninterruptedEmit | crates/chisl-ai-agent/src/agent_runtime.rs:110-148 | the locked section and the send run together do what the call does |
| AgentRuntime.StatusSteps | crates/chisl-ai-agent/src/agent_runtime.rs:87-102 | a transition sets any status but from Finished, a reset any status |
| AgentRuntime.TerminalEventsBounded | crates/chisl-ai-agent/src/agent_runtime.rs:87-148 | from any state, sent and outstanding terminal events grow by no more than the resets allow |
| AgentRuntime.AtMostOneTerminalEventPerTurn | crates/chisl-ai-agent/src/agent_runtime.rs:87-148 | in every interleaving at most one terminal event more than there were resets |
| AgentRuntime.FinishedIsAbsorbing | crates/chisl-ai-agent/src/agent_runtime.rs:84-102 | Finished is left only by a reset |
| AgentRuntime.OnePerTurnIffOwed | crates/chisl-ai-agent/src/agent_runtime.rs:99-148 | from any state a turn sees at most one terminal event, however it goes on, if and only if the outstanding sends and its own, unless it is over, come to at most one |
| AgentRuntime.LateTerminalEvent | crates/chisl-ai-agent/src/agent_runtime.rs:99-148 | an emit and the next turn's reset bring a fresh runtime into a turn that can see two |
| QrTokens.ExpiredMeans | crates/chisl-auth/src/qr_token.rs:86-87 | the saturating difference decides expiry as the exact one would |
| QrTokens.QrTokenStore.GenerateWithExpiry | crates/chisl-auth/src/qr_token.rs:51-70 | the new token is accepted exactly up to the returned expiry |
| QrTokens.QrTokenStore.ValidateAndConsume | crates/chisl-auth/src/qr_token.rs:75-93 | the three refusals in their order; after a success every later validation says already used |
| QrTokens.QrTokenStore.Cleanup | crates/chisl-auth/src/qr_token.rs:96-100 | exactly the expired entries go |
| QrTokens.StoreTracks | crates/chisl-auth/src/qr_token.rs:51-100 | in every run the store holds a token exactly when it was generated and not swept since, and then its true record |
| QrTokens.AcceptedIffRedeemable | crates/chisl-auth/src/qr_token.rs:75-93 | in every run a validation succeeds if and only if the token was generated, is unspent and not past its expiry |
| QrTokens.ConsumedAtMostOnce | crates/chisl-auth/src/qr_token.rs:75-93 | no token is accepted twice unless its text is generated again in between |
| QrTokens.CleanupChangesTheRefusal | crates/chisl-auth/src/qr_token.rs:75-100 | a validation is answered as without cleanups, unless the token was swept: then it is past its expiry and the answer is invalid where it would be already used or expired |
| QrTokens.CleanupKeepsOutcomes | crates/chisl-auth/src/qr_token.rs:51-100 | cleanups anywhere in a run turn no Ok into an error or back, and an error only into invalid |

## Left out

- HTTP routing, cookies, CSRF and the request and response types: no state of their own.
- Signature, hashing and bcrypt arithmetic, and timing of password checks: only what the assumptions above say of them.
- Poisoned locks, a failing clock and failing token encoding in `jwt.rs`: the model's calls always get lock and clock.
- The random generation of secrets, ids and token texts: they are inputs.
- `resolve_jwt_secret`, `collect_idle`, the API and per-user rate limit middlewares: one-branch functions over modelled state.
- What an agent does when killed, and waiting for its process to end: a kill is a log entry and an answer.
- `last_activity` and the raw `emit` of other events in the agent runtime, and the lag of broadcast subscribers.
- Passwords.Shuffle: the bytes' distribution is not modelled, only which orders they can produce.
- RateLimit: counters and clock are unbounded, so the 32-bit count and the 64-bit milliseconds never overflow.
- RemoteSync.RemoteSessionSync.SyncOnce: listing sessions over HTTP is the map of answers it is given; the polling loop and the content of a broadcast are not modelled.
- Assistants.AssistantService.Delete: a failing removal of the override row is not modelled.
- Assistants.AssistantService.Import: entries whose lists cannot be encoded as JSON are not modelled; JSON columns are their decoded text.
- Repository failures outside import, and interleaved requests to the assistant service and the sync table.
- Assistants.AssistantService.WriteRule: names that contain a path separator are not modelled.
- Reading and writing skills: the same code as for rules, on another directory; and serving avatars.
- Upper and lower case beyond ASCII in password validation: no other character lower-cases to one that occurs in the weak list.

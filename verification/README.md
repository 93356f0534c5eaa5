# Desktop sidecar protocols, proved

A Dafny 4.11 project about the hand-written state machines of the desktop sidecar and its
server: the agent-turn lock and its durable intent rows, the streaming parser of
server-sent events, two rate limiters, the teardown of a lazily built native resource, the
single-flight asset download, the model gateway's cancelable generations, and the two
stores that keep exactly one row active. `dafny verify dfyconfig.toml` checks all of it.

## How the models are built

* A protocol that threads run concurrently is a step system. Each atomic operation of the
  source (a `LoadOrStore`, a `TryLock`, a critical section, one SQL statement or
  transaction) is one action; `Step` applies one action to a state and `Run` a whole
  sequence. An action that is not enabled changes nothing, so "for every sequence of
  actions" means every interleaving of any number of threads, of any length. Theorems are
  stated over `Run` from the initial state, or over every reachable state.
* Code that works in place is a class or a method with loops, proved against functions of
  its old state: `SseParser`, `ScanFrames`, `Registry`, `Limiter`, `UserRateLimitRegistry`,
  `KnowledgeAssets`, `Environment`, `Gateway`, `MindStore`, `AccountStore`. Where a method
  leaves its mutex half way, a parameter `between` holds what other threads do meanwhile.
* Statements that may fail carry a flag for it; clocks, random tokens, fresh ids, SHA-256,
  the outcome of `Chat` and of the native constructor are parameters.

| file | component |
|---|---|
| `TurnLocks.dfy`, `TurnIntents.dfy`, `AgentTurns.dfy`, `TurnRecovery.dfy`, `TurnRuns.dfy` | the agent-turn protocol |
| `SseParser.dfy`, `SseRoundTrip.dfy`, `SseGrammar.dfy` | printing and parsing event streams |
| `TokenLimiter.dfy`, `UserLimiter.dfy` | the two rate limiters |
| `LazyKnowledge.dfy`, `KnowledgeAssets.dfy` | the native embedder and its assets |
| `ModelGateway.dfy` | gateway generations |
| `TextOrder.dfy`, `Minds.dfy`, `LocalAccounts.dfy` | exactly-one-active stores |
| `Wrappers.dfy`, `Counting.dfy` | the option type, and a bound on finite sets |

## Where the code is not what its text says

* The mind that inherits the active flag is called "the oldest survivor"
  (server/desktop/minds.go:455-456), but the query orders timestamps as text, whose
  fraction has no trailing zeros. The heir is the oldest if and only if no survivor of the
  same second continues the oldest one's fraction (`OldestIsFirstExactly`); `.5` and `.52`
  are in the wrong order in every second (`EarlierSortsLater`).
* The limit of sixteen minds is counted and inserted in two statements. With `k` creations
  in progress at once the bound is 15 + k (`Minds.LimitHolds`), and it is reached
  (`Minds.RacingCreations`).
* Terminal bookkeeping ignores the session so that a new login does not leave a row stuck
  in streaming (server/desktop/server_agent_turn.go:295-297). No row is stuck in any run
  whose terminal writes reach the database (`StreamingOnlyInFlight`); a write that fails is
  only logged and always strands the row (`FailedWriteStrands`, `StrandedRun`), until an
  attempt writes it again or the process restarts (`StreamingExactlyInFlight`).
* The per-user registry's retry-after is "seconds until the user's window refills"
  (server/middleware/user_rate_limit.go:121-122), but truncated: it is too short unless what
  is left of the window is at most a second or a whole number of them (`RetryAfterExactly`,
  `RetryAfterTooShort`).
* The limit of 32 local accounts is counted and inserted in two statements as well: 31 + k
  with `k` calls in between, and it is reached (`LocalAccounts.LimitHolds`,
  `LocalAccounts.RacingCreations`).
* "The table always has an active row" and "atomically exactly one" hold for local
  accounts in exactly the interleavings that avoid two steps (`StepKeepsOneExactly`,
  `LocalAccounts.ExactlyOneActive`): removing a row that was selected after the deletion's active
  check, and a second seeding insert that the unique name does not stop.
* The local-account uid equals the no-match sentinel for exactly one id, 2^62
  (`UidsAreDistinct`).
* The Go replay loop loses line feeds at the start of an event's data; it agrees with the
  page's parser if and only if no data starts with one (`ScannerAgreesExactly`,
  `LeadingLFIsLost`).
* The page's parser departs from section 9.2.6 of the WHATWG HTML Living Standard in
  handing out an event that the end of the stream, not a blank line, closes; the model does
  what the code does.

## Model

| member | source | states |
|---|---|---|
| TurnLocks.StepKeepsInv | server/desktop/server_agent_turn.go:45-77 | Every atomic step keeps: holders are registered, retired and stale mutexes are not, ownership is exclusive, every entry has a keeper |
| TurnLocks.MutualExclusion | server/desktop/server_agent_turn.go:57-77 | In every interleaving at most one thread holds a turn, and the registry maps the turn to that holder's mutex |
| TurnLocks.DeleteRemovesOwnEntry | server/desktop/server_agent_turn.go:74-77 | The unconditional Delete of a release removes its own mutex's entry and no other |
| TurnLocks.NoLeak | server/desktop/server_agent_turn.go:45-77 | With no thread on a turn it has no entry; with no thread active the registry is empty and no mutex is locked |
| TurnLocks.LoneClaimantSucceeds | server/desktop/server_agent_turn.go:57-72 | A claimant with no other thread on its turn is never refused and never retries |
| TurnLocks.RefusedOrRetriedForCause | server/desktop/server_agent_turn.go:57-72 | A refusal means another thread has that mutex; a retry means another mutex is registered, kept by another thread |
| TurnLocks.Registry.TryOnce | server/desktop/server_agent_turn.go:57-72 | One pass of the claiming loop, under any interference at each of its three gaps, wins, is refused because another thread has a mutex of the turn locked, or retries; it retries only after interference |
| TurnLocks.Registry.Acquire | server/desktop/server_agent_turn.go:57-72 | The loop ends once interference ends; true exactly when the caller is the only holder, false only when another thread has a mutex of the turn locked |
| TurnLocks.Registry.Release | server/desktop/server_agent_turn.go:74-77 | Delete before Unlock, with anything in between, keeps the registry's invariant |
| TurnIntents.KindsAreOk | server/desktop/agent_turn_intent.go:89-119 | Every error kind written is within the validator's byte bound and free of control characters |
| TurnIntents.AdmittedIsRecoverable | server/desktop/server_agent.go:88-115 | What the chat handler admits passes the recovery validator, with any error kind written later |
| TurnIntents.DefaultModeIsAdmitted | server/desktop/skills_filter.go:19-51 | A concrete request without a mode is admitted, as one with the default mode |
| TurnIntents.AdmittedExactly | server/desktop/server_agent.go:88-115 | A body is admitted if and only if its mode can be frozen and the row frozen for it passes the recovery validator |
| TurnIntents.LengthsAreBounded | server/desktop/agent_turn_intent.go:77-101 | On plain letters the bounds are 200 bytes for a thread id and 256 KiB for a text |
| TurnIntents.Write | server/desktop/agent_turn_intent.go:324-376 | A state write reaches a live row of its owner and no other row; no row, owner, request or canceled state is lost |
| TurnIntents.Ensure | server/desktop/agent_turn_intent.go:138-224 | First writer wins: accepted if and only if the user owns the thread and the turn is new or has this owner, request and digest and is not canceled; each refusal is exact and changes no row |
| TurnIntents.Finalize | server/desktop/agent_turn_intent.go:378-423 | Stores exactly a valid outcome on a live row of the owner, and changes nothing else; an owned canceled row is a success, only a missing or foreign row is an ownership error |
| TurnIntents.Cancel | server/desktop/agent_turn_intent.go:479-513 | Cancels an owned turn that has not completed; changes nothing else |
| TurnIntents.Cleanup | server/desktop/agent_turn_intent.go:515-527 | After the boot sweep no row is starting or streaming; what changed is interrupted by the restart, completed and canceled rows are as before |
| AgentTurns.Next | server/desktop/server_agent_turn.go:190-310 | An attempt writes only inside the lock, only on its own turn's row, and only forwards; it calls Chat only from its streaming entry with its own intent, and loses a terminal write only in its finalize |
| AgentTurns.StepKeepsInv | server/desktop/server_agent_turn.go:108-310 | Every step of every chat, replay, cancel, session replacement and restart keeps the protocol invariant |
| AgentTurns.OneChatPerTurn | server/desktop/server_agent_turn.go:190-303 | In every reachable state at most one attempt per turn is between streaming entry and terminal write |
| AgentTurns.ChatRunsOnLiveRow | server/desktop/server_agent_turn.go:190-303 | While Chat runs, its attempt holds the lock, carries the frozen request, and the row is streaming or canceled |
| AgentTurns.StreamingExactlyInFlight | server/desktop/agent_turn_intent.go:348-423 | In every reachable state a row that is not canceled is streaming if and only if a lock-holding attempt is between its streaming entry and its terminal write, or that write failed and no attempt wrote the row since; never both |
| AgentTurns.StreamingOnlyInFlight | server/desktop/server_agent_turn.go:190-303 | In every run whose terminal writes reach the database, a row that is not canceled is streaming if and only if a lock-holding attempt is in flight |
| AgentTurns.LostOnlyByFailedWrite | server/desktop/server_agent_turn.go:294-302 | No other step ever makes a turn lost |
| AgentTurns.FailedWriteStrands | server/desktop/server_agent_turn.go:294-302 | From every reachable state a failed terminal write leaves a row that is not canceled streaming with nobody in flight |
| AgentTurns.RowsAreFrozen | server/desktop/agent_turn_intent.go:138-224 | Over every run no row disappears, changes owner or request, or leaves canceled |
| AgentTurns.ChatsUseTheFrozenRequest | server/desktop/server_agent.go:116-186 | Every Chat of a turn, past or future, gets the owner, thread, text and mode of the first insert |
| AgentTurns.ForeignerCannotWrite | server/desktop/agent_turn_intent.go:204-252 | No step on behalf of another uid changes a row |
| AgentTurns.LateFinalizeSucceeds | server/desktop/agent_turn_intent.go:378-423 | A terminal write never misses: it leaves a canceled row unchanged, else stores completed exactly for a finished Chat and interrupted with the reason otherwise |
| AgentTurns.CancelIsAuthoritative | server/desktop/agent_turn_intent.go:479-513 | After a cancel the row never changes again in any run, and Chat is called at most once more, by an attempt that had already entered streaming |
| AgentTurns.CanceledForGood | server/desktop/server_agent_turn.go:154-188 | From the owner's cancel of a turn that has not completed, it is canceled in every continuation, with the same bound on Chat |
| AgentTurns.RowsStayRecoverable | server/desktop/agent_turn_intent.go:89-119 | Every row of every reachable state passes the recovery validator |
| TurnRecovery.SelectInterrupted | server/desktop/agent_turn_intent.go:441-451 | The owner's interrupted turns, newest update first and then by uuid, up to the limit, and none left out that comes before one of them |
| TurnRecovery.ValidateAll | server/desktop/agent_turn_intent.go:452-472 | The loop accepts if and only if every selected row validates |
| TurnRecovery.ListRecoverable | server/desktop/agent_turn_intent.go:435-477 | In every reachable state the listing succeeds if and only if the session is current, with exactly the query's rows |
| TurnRuns.ChatGoesThroughExactly | server/desktop/server_agent.go:88-186 | From every reachable state with nobody on the turn, a chat calls Chat once with the admitted request if and only if it is admissible, the thread owned, the turn new or the same and not canceled, every statement reaches the database, and on the cloud route no login comes before the streaming entry; if it is not accepted no row changes |
| TurnRuns.ReplayGoesThroughExactly | server/desktop/server_agent_turn.go:108-152 | The same for a replay: if and only if the row is the user's and interrupted, the thread owned, and nothing fails or replaces the session on the way |
| TurnRuns.BusyTurnIsRefused | server/desktop/server_agent.go:140-155 | From every reachable state in which a thread holds the turn, another chat of it calls nothing and changes no row |
| TurnRuns.FinishedAttemptEnds | server/desktop/server_agent_turn.go:285-303 | From every reachable state, once Chat returns and its terminal write arrives, exactly the outcome is recorded, no other row changed, the attempt is over and the turn let go |
| TurnRuns.StoppedAttemptEnds | server/desktop/server_agent_turn.go:305-310 | An attempt stopped before Chat records its reason exactly if the statement arrives, the session is current and the row is not canceled; it calls nothing and lets the turn go |
| TurnRuns.EntryFailsExactly | server/desktop/agent_turn_intent.go:348-376 | An entry fails if and only if the database, a login or a cancel stops it, and then changes no row |
| TurnRuns.PreflightStops | server/desktop/server_agent_turn.go:196-234 | A preflight failure stops the attempt with its reason and changes nothing else |
| TurnRuns.StaleCancelIsVoid | server/desktop/agent_turn_intent.go:479-513 | A cancel on a session that was replaced changes nothing, whatever happened since |
| TurnRuns.RestartMakesTurnsReplayable | server/desktop/agent_turn_intent.go:515-527 | After a restart every turn that was neither completed nor canceled can be replayed by its owner, on either route, with the frozen request |
| TurnRuns.StrandedRun | server/desktop/server_agent_turn.go:294-302 | For every admitted request, the run from boot whose Chat finishes and whose terminal write fails ends with a streaming row and nobody in flight |
| SseParsing.SseParser.Push | desktop/wails/killcheck_page.go:43 | Consumes the lines that are decided so far and keeps the undecided rest, a trailing CR included |
| SseParsing.SseParser.Drain | desktop/wails/killcheck_page.go:45-55 | The loop ends and consumes exactly the finished lines of the buffer, at the end of the stream all of them |
| SseParsing.SseParser.FindLineEnding | desktop/wails/killcheck_page.go:56-65 | Returns the first line ending with its length, or none if a lone last CR is still undecided |
| SseParsing.CutAppend | desktop/wails/killcheck_page.go:43-65 | Cutting a longer text equals cutting the shorter one and resuming from its rest, for every split including CR and LF |
| SseParsing.CutThenEnd | desktop/wails/killcheck_page.go:44-55 | Ending the stream after any cut gives the lines of the whole text |
| SseParsing.ParseChunks | desktop/wails/killcheck_page.go:35-77 | For every text and every split into chunks the frames are those of parsing the whole text at once |
| SseGrammar.ParsesAsItMeans | desktop/wails/killcheck_page.go:45-77 | Every stream of fields, in any mix of the three line endings, is parsed into the frames its blocks mean: known, unknown, bare and comment fields, with or without the space, and a last block that no blank line ends |
| SseGrammar.EveryLineIsAField | desktop/wails/killcheck_page.go:66-74 | Every line is such a field |
| SseGrammar.EndIsABlankLine | desktop/wails/killcheck_page.go:52-53 | Ending the stream is the same as two line feeds, for every text |
| SseRoundTrip.RoundTrip | server/desktop/cloud_proxy/sse_pipe.go:80-121 | Every printable list of events, with keepalives anywhere between, is parsed back unchanged, multi-line data included |
| SseRoundTrip.ReadBack | server/desktop/server_system.go:74-92 | The same under every chunking of the printed text |
| SseRoundTrip.ParsedIsPrintable | desktop/wails/killcheck_page.go:66-77 | Every frame the parser ever hands out has a non-empty one-line event and no CR in its data |
| SseRoundTrip.SurvivesExactly | server/desktop/cloud_proxy/sse_pipe.go:80-109 | A frame survives print and parse if and only if it is printable |
| SseRoundTrip.PrintedText | server/desktop/cloud_proxy/sse_pipe.go:80-109 | The exact text of an event with one line of data, named or not |
| SseRoundTrip.KeepaliveText | server/desktop/cloud_proxy/sse_pipe.go:111-121 | The exact text of a keepalive |
| SseRoundTrip.PrintConcat | server/desktop/server_system.go:69-94 | A stream is the texts of its items one after the other |
| SseRoundTrip.ScanFrames | desktop/wails/killcheck.go:241-279 | The scanner loop computes the fold of its line interpretation |
| SseRoundTrip.ScannerAgreesExactly | desktop/wails/killcheck.go:241-279 | The loop sees the printed events without leading line feeds of data, and agrees with the parser if and only if there are none |
| SseRoundTrip.LeadingLFIsLost | desktop/wails/killcheck.go:270-275 | Every event whose data is a line feed and a line of text: the parser keeps the line feed, the loop does not |
| SseGrammar.ScansAsItMeans | desktop/wails/killcheck.go:241-279 | The loop reads every stream of LF and CR LF lines into the frames its own reading of blocks gives: names only with a colon, data from the first line that is not empty, and nothing that no blank line ends |
| TokenLimiting.Limiter.Evict | server/middleware/rate_limit.go:71-75 | The cleanup loop removes exactly the buckets idle for more than two windows |
| TokenLimiting.Limiter.Handle | server/middleware/rate_limit.go:56-105 | Decision and new state of one request, including pass-through, capacity refusal and token refusal |
| TokenLimiting.EvictionIsInvisible | server/middleware/rate_limit.go:71-103 | On every ordered trace the answers equal those of a limiter that never evicts, fed the trace without the capacity refusals |
| TokenLimiting.CapacityHolds | server/middleware/rate_limit.go:80-88 | The map never exceeds maxBuckets and every bucket stays between empty and full |
| TokenLimiting.NewKeyAnsweredExactly | server/middleware/rate_limit.go:70-87 | A key without a bucket is refused for capacity if and only if the map is full, of buckets used within two windows if a cleanup is due and of any otherwise; else it is admitted |
| TokenLimiting.KnownKeyIsNeverFull | server/middleware/rate_limit.go:70-87 | A key with a bucket is never refused for capacity |
| TokenLimiting.OthersExactly | server/middleware/rate_limit.go:70-77 | Of the other keys' buckets exactly the idle ones go, exactly when a cleanup is due, and the cleanup clock restarts exactly then |
| TokenLimiting.AdmissionBound | server/middleware/rate_limit.go:50-103 | In every interval a key is admitted at most maxRequests + rate times the length |
| TokenLimiting.RefusedExactly | server/middleware/rate_limit.go:89-102 | After every ordered trace, a request not refused for capacity is refused for tokens if and only if admitting it would exceed maxRequests + rate times length in some interval ending now |
| TokenLimiting.InflowIsRate | server/middleware/rate_limit.go:50 | That rate is maxRequests / window |
| TokenLimiting.RetryAfterIsEnough | server/middleware/rate_limit.go:51-101 | After a token refusal, waiting the advertised seconds rules out another token refusal, and admits if the bucket is still there |
| TokenLimiting.RetryAfterIsLeast | server/middleware/rate_limit.go:51-54 | No smaller whole number of seconds, from one on, brings a token |
| TokenLimiting.BurstIsAdmitted | server/middleware/rate_limit.go:80-103 | A key without a bucket, while the map has room, is admitted maxRequests times within two windows of its first request, whatever other keys interleave |
| UserLimiting.UserRateLimitRegistry.AcquireSlot | server/middleware/user_rate_limit.go:124-178 | Answer, advertised seconds and new counters of one acquire, with the order of the three limits |
| UserLimiting.UserRateLimitRegistry.ReleaseSlot | server/middleware/user_rate_limit.go:168-176 | The guarded decrements of a release |
| UserLimiting.UserRateLimitRegistry.Pass | server/middleware/user_rate_limit.go:96-111 | A janitor pass removes exactly the idle users without open slots, in every bucket |
| UserLimiting.PermitsAreConserved | server/middleware/user_rate_limit.go:96-178 | After every history globalInUse is the sum of all users' counters and the number of outstanding permits; both caps hold |
| UserLimiting.ReturnKeepsCounted | server/middleware/user_rate_limit.go:168-176 | Every one-shot release finds its user with a positive counter, and a positive global one |
| UserLimiting.MinuteLimitHolds | server/middleware/user_rate_limit.go:129-165 | At most perMinute grants per (uid, op) in any minute of any ordered history, janitor passes included |
| UserLimiting.GrantsAreCounted | server/middleware/user_rate_limit.go:129-165 | A window's counter is the number of grants of that minute in the history |
| UserLimiting.AcquireTouches | server/middleware/user_rate_limit.go:129-165 | Every acquire, granted or not, marks its user as seen now in this minute's window, and touches no other user |
| UserLimiting.GrantedExactly | server/middleware/user_rate_limit.go:129-165 | After every ordered history each of the four answers is given if and only if its limit is the first reached, in terms of this minute's grants, the user's open permits and all open permits |
| UserLimiting.RetryAfterExactly | server/middleware/user_rate_limit.go:141-149 | A client refused for its rate that returns after the advertised seconds is refused for it again if and only if more than a second, and no whole number of seconds, was left of the window |
| UserLimiting.RetryAfterTooShort | server/middleware/user_rate_limit.go:141-149 | At half past a whole second the advertised seconds end in the same minute |
| UserLimiting.JanitorIsInvisible | server/middleware/user_rate_limit.go:96-111 | Every ordered history is answered as by a registry that keeps every user |
| UserLimiting.JanitorRemovesExactly | server/middleware/user_rate_limit.go:96-111 | A pass removes exactly the users without open slots not seen for more than thirty minutes, and changes no counter |
| LazyKnowledge.StepKeepsInv | server/desktop/bootstrap_cgo.go:125-215 | Every step keeps: the wait group counts the registered calls, one thread loads, the embedder in use is live, one Close proceeds |
| LazyKnowledge.TeardownIsSafe | server/desktop/bootstrap_cgo.go:415-439 | In every interleaving: built at most once, destroyed at most once, used only while live, destroyed only with no call registered |
| LazyKnowledge.DestroyedOnlyWhenAlone | server/desktop/bootstrap_cgo.go:424-439 | The destroying step is that of a drained Close on a live embedder with no call in flight |
| LazyKnowledge.NothingAfterDrain | server/desktop/bootstrap_cgo.go:125-135 | Once Close has drained nothing is ever built, used or registered again, in any continuation |
| LazyKnowledge.NeverDestroyedAfterTimeout | server/desktop/bootstrap_cgo.go:412-434 | If the wait timed out the embedder is never destroyed, in any continuation |
| LazyKnowledge.CallGetsIn | server/desktop/bootstrap_cgo.go:125-191 | From every state with the load mutex free: refused exactly if closed; otherwise registered, and in exactly if it needs no model, the embedder is there, or it is built; when it builds, what it remembers, and that a success spawns exactly one re-index |
| LazyKnowledge.CallIsDone | server/desktop/bootstrap_cgo.go:135 | A finished call is no longer registered and leaves the rest as it is |
| LazyKnowledge.ReindexBegins | server/desktop/bootstrap_cgo.go:195-213 | A spawned re-index uses the embedder as a registered call, unless the environment was closed before |
| LazyKnowledge.AtMostOneReindex | server/desktop/bootstrap_cgo.go:187-190 | Over every run at most one re-index is waiting, and none before a build |
| LazyKnowledge.Environment.Load | server/desktop/bootstrap_cgo.go:157-191 | Lets the caller in only to a live embedder; builds only if there is none, none failed before and the assets are there; remembers a failed build |
| LazyKnowledge.Environment.CloseAll | server/desktop/bootstrap_cgo.go:415-439 | A second Close does nothing; a first one drains, with no call in flight and no live embedder left, or gives up without destroying |
| KnowledgeAcquisition.KnowledgeAssets.EnsureAssets | server/desktop/bootstrap_knowledge.go:171-201 | Answer, new state and what it started, in each branch |
| KnowledgeAcquisition.KnowledgeAssets.DownloadEnds | server/desktop/bootstrap_knowledge.go:218-235 | The state a finished or failed download leaves |
| KnowledgeAcquisition.SingleFlightWithBackoff | server/desktop/bootstrap_knowledge.go:171-235 | Over every history one download is outstanding exactly when fetching is set, and neither a plan nor a download starts within ten minutes of a recorded failure |
| KnowledgeAcquisition.PlansExactly | server/desktop/bootstrap_knowledge.go:171-201 | After every history ensure succeeds exactly when the probe does, and plans if and only if the assets are absent, nothing is outstanding and no failure is younger than ten minutes |
| KnowledgeAcquisition.AnsweredExactly | server/desktop/bootstrap_knowledge.go:171-201 | After every history, with the assets absent: fetching if a download is outstanding, else the last failure's error while it is younger than ten minutes, else what the plan decides |
| ModelGateways.CanceledExactlyOnce | server/desktop/model_gateway.go:150-190 | No generation is canceled twice; once all calls have returned every one but the current has been canceled once |
| ModelGateways.LiveExactlyIfCurrent | server/desktop/model_gateway.go:195-213 | Then a bound context is live if and only if its parent is, it is unreleased and its generation is current |
| ModelGateways.BoundIsLive | server/desktop/model_gateway.go:195-213 | From every reachable state of an open gateway a bind adds exactly one context, live if and only if its parent is in every continuation without a rotation, a shutdown, its release or its parent's end |
| ModelGateways.ContextsDieFor | server/desktop/model_gateway.go:195-213 | A release, the parent's end, and once rotations have returned the delivery to any but the current generation, each kill exactly that context, for good |
| ModelGateways.UnboundIsDead | server/desktop/model_gateway.go:202-206 | A context bound before the first rotation is dead from the start |
| ModelGateways.OnlyNewestMatches | server/desktop/model_gateway.go:130-144 | A candidate matches if and only if it is the newest token of a gateway that is not shut down |
| ModelGateways.ShutMeansShut | server/desktop/model_gateway.go:176-190 | After Shutdown nothing matches until a Rotate, whatever else happens |
| ModelGateways.Gateway.RotateToken | server/desktop/model_gateway.go:150-172 | Whatever others do between swap and cancel, on return the generation that was current has been canceled exactly once; the new token matches unless others rotated or shut down |
| ModelGateways.Gateway.ShutDown | server/desktop/model_gateway.go:176-190 | The same, and nothing matches unless somebody rotated meanwhile |
| TextOrder.TextOrderIsTimeOrder | server/desktop/minds.go:455-461 | For an earlier and a later timestamp, text order is time order if and only if they are not of one second with the earlier fraction a prefix |
| TextOrder.EarlierSortsLater | server/desktop/minds.go:455-461 | In every second .5 is earlier than .52 and sorts after it |
| Minds.MindStore.FirstOf | server/desktop/minds.go:457-463 | Finds the (created_at, id)-least mind of an identity |
| Minds.MindStore.CreateMind | server/desktop/minds.go:271-322 | Seed, count and insert; succeeds exactly below the limit and keeps sixteen as the bound |
| Minds.MindStore.DeleteMind | server/desktop/minds.go:431-469 | Deleted if and only if the mind is there and not the last; then exactly its row is gone and the only flag that changes is the heir's; otherwise nothing changes |
| Minds.MindStore.SelectMind | server/desktop/minds.go:473-504 | Exactly the selected mind of the identity is active afterwards, nothing else changes |
| Minds.StepIsProper | server/desktop/minds.go:145-504 | Every transaction leaves other identities' rows alone, keeps one row and exactly one active |
| Minds.ExactlyOneActive | server/desktop/minds.go:145-504 | In every interleaving an identity that ever had minds has at least one, and exactly one active |
| Minds.OthersAreUntouched | server/desktop/minds.go:145-504 | Over every run, actions for other identities leave an identity's rows as they are |
| Minds.FirstSurvivorInherits | server/desktop/minds.go:454-467 | After deleting the active mind a mind is active if and only if it is the (created_at, id)-least survivor |
| Minds.DeleteRemoves | server/desktop/minds.go:431-469 | The same of the transaction in every interleaving |
| Minds.OldestIsFirstExactly | server/desktop/minds.go:455-461 | The oldest mind is the first if and only if no mind of its second continues its fraction |
| Minds.LimitHolds | server/desktop/minds.go:294-319 | With at most k creations past their count at once, at most 15 + k minds: sixteen when serialized |
| Minds.RacingCreations | server/desktop/minds.go:294-319 | For every k > 0 a run with at most k such creations reaches 15 + k |
| LocalAccounts.UidsAreDistinct | server/desktop/local_accounts.go:46-48 | Uids of the ids a table can issue are distinct, at least 2^62, equal to 2^62 for id 1 only, and to the sentinel for id 2^62 only |
| LocalAccounts.UidsAreNeverReissued | server/desktop/migrations_desktop/0005_local_accounts.sql:14-23 | In every interleaving a deleted account's uid never belongs to an account again |
| LocalAccounts.FirstAccountIsTheOldUser | server/desktop/local_accounts.go:131-144 | The first row ever is the seeded one, active, with the reserved single-user uid |
| LocalAccounts.RenameMovesNothing | server/desktop/local_accounts.go:207-240 | A rename changes one name, no id and no flag, and names stay unique |
| LocalAccounts.DeletionRemovesExactly | server/desktop/server_local_accounts.go:181-252 | From every state the check passes exactly for an idle account that is there and not active, and the removal takes exactly its row |
| LocalAccounts.StepKeepsOneExactly | server/desktop/local_accounts.go:131-264 | A step keeps exactly one account active if and only if it is neither of the two hazards |
| LocalAccounts.ExactlyOneActive | server/desktop/local_accounts.go:131-264 | Of every interleaving: all its states have exactly one account active, once one was created, if and only if none of its steps is a hazard |
| LocalAccounts.SerializedRunsAreHealthy | server/desktop/local_accounts.go:131-283 | Serialized runs, with calls that may fail at any statement, have no hazard and at most 32 accounts |
| LocalAccounts.LimitHolds | server/desktop/local_accounts.go:178-204 | With at most k calls between a count and its insert at once, at most 31 + k accounts: 32 when serialized |
| LocalAccounts.RacingCreations | server/desktop/local_accounts.go:178-204 | For every k > 0, as far as ids reach, a run with at most k such calls gets to 31 + k |
| LocalAccounts.SelectDuringDelete | server/desktop/server_local_accounts.go:181-255 | From every state, selecting an account between its deletion's check and its removal leaves none active |
| LocalAccounts.SeedAfterSeed | server/desktop/local_accounts.go:131-144 | From every state with one account active, the insert of a call that had counted zero leaves one active if and only if the unique name refuses it or the ids have run out |
| LocalAccounts.RenameDuringSeed | server/desktop/local_accounts.go:131-144 | One such run: two seeding calls count zero and the first account is renamed between the inserts; two are active, and one without the rename |
| LocalAccounts.AccountStore.ActiveUid | server/desktop/local_accounts.go:269-283 | The uid of the least active id, or the single user's when none is active |
| LocalAccounts.AccountStore.Create | server/desktop/local_accounts.go:178-204 | Seed, limit, unique name and insert; succeeds if and only if there is room, the name is free and ids are left, with each refusal exact |
| LocalAccounts.AccountStore.Select | server/desktop/local_accounts.go:242-264 | Exactly the selected account is active afterwards; a missing one changes nothing but the seed |
| LocalAccounts.AccountStore.Delete | server/desktop/server_local_accounts.go:171-255 | Refuses a missing, an active and a busy account, in this order; otherwise exactly its row is gone |

## Left out

- HTTP and gin plumbing, JSON decoding, headers, status codes and response bodies.
- The cloud proxy, the token store and the Keychain; a session lease is only "current or replaced".
- Deleting intent rows with their thread or account (server/desktop/server_agent_thread_delete.go), and panics: the turn runs have no row purge.
- The network-state watcher, its debounce and its fan-out: one counter, and subscriptions.
- SHA-256, the UTF-8 decoder and random sources: a digest function, decoded characters, and fresh tokens and ids. Limiter keys are not hashed, so equal digests of different keys are excluded.
- The scanner's one-megabyte line limit, and the JSON payload it reads from a frame.
- The columns of an intent row that no transition reads (thread id, timestamps); the listing takes the update times as a parameter.
- TurnIntents.AdmittedIsRecoverable: does not model the validator's parse of updated_at, because the column is not part of the row.
- AgentTurns.RowsStayRecoverable: does not model the validator's parse of updated_at, for the same reason.
- A mind's description, role hint, model and `updated_at`, an account's timestamps, and the normalization of names.
- The gateway's port and `BaseURLFor`.
- Which error a caller is shown when the owner check before the lock and the one in the transaction disagree.
- float64 rounding in the token limiter, which computes with reals; both limiters and the asset download take clock readings that do not go backwards in lock order.
- AgentTurns.Next: works on values; aliasing and in-place update of the handlers' variables are not modelled.
- LazyKnowledge.Environment.CloseAll: when the wait and its timeout end together it takes the wait; the step system allows either.
- LocalAccounts.AccountStore.Delete: the cascade over threads, messages and intents is not part of this model; `busy` stands for its count of running turns.

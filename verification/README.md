# King Louie: verified model of its protocols and stores

King Louie runs long-lived cases for an owner. It asks the owner's phones before it acts, keeps an audit ledger and
append-only case files, and lets an administrator manage the devices that may approve. This project models the parts of
it where every run must keep something, as Dafny programs, and proves what they keep.

Each component is a module of pure step functions with its runs, one or more modules of lemmas over all inputs and all
runs, and, where the source changes objects in place, a class whose methods are proved to take exactly those steps. What
a step does is itself proved, by lemmas that say when it happens and what it leaves without naming the step function.

| files | component |
|---|---|
| NonceCache, PhoneApproval, PhoneApprovalRuns, PhoneApprovalSealing, PhoneApprovalEndings, PhoneApprover | phone approval: requests, responses, audits, timers, aborts, reconnects and stop() between awaits |
| VerifyPass, VerifyPassSteps, VerifyPassRuns, VerifyPassLandings, VerifyPassDebts, CaseRuntime | the background verify pass of a case, beside turns, wake-ups, system actions, "Check now", Stop and shutdown |
| AuditChain, AuditDisk, AuditLedger | the hash-chained audit ledger over monthly segments, torn writes, pruning, slices and paging |
| ApproverAdmin, ApproverBatch, ApproverRuns, ApproverRecords, ApproverResults, ApproverAdministrator, ApproverStore, ApproverStaging, ApproverOverlay | batches of enrollments, revocations and key statements, and the relayed-revoke overlay |
| Jsonl, FactLedger, FactLedgerRuns, FactLedgerEffects, FactLedgerFile, Abandoned | one-value-a-line files, the fact ledger and the abandoned approaches, from characters up |
| ContactFormat, ContactReading, ContactReplies, ContactHints | reading an owner's reply, and the hint that is printed under a batch |
| ContactInbox, ContactInboxSteps, ContactInboxRuns, ContactInboxTries, ContactInboxFile | answers queued behind a busy case, drained while others append, with failed rewrites and crashes |
| Budget, BudgetRuns, BudgetDays, BudgetFile | budgets, their thresholds and day changes |
| RateLimits, RateLimiters | the ack budget and the limiter of audited rejections |
| LinkRpc, LinkRpcObject | calls over a link |
| SealPolicy | the durable latch that makes a node seal what it sends |

What a step cannot decide itself is one of its inputs: the clock, the outcome of an audit or a write, the approver set,
what the live action hashes to, whether another process holds a lock. A method with awaits is one step per segment
between them, so an interleaving is a list of steps. Hashes and signatures are free constructors: equal exactly when
what was hashed or signed, and the key, are equal. Instants are integers and amounts are real numbers.

Where the code keeps less than its comments or a first reading suggest, the code is kept, the failing run is a lemma,
and the exact condition is proved:

- Audit ledger: a crash inside the first line of a new segment lets the next entry restart the chain
  (`AuditDisk.AppendVerifiesExactlyWhenAnchored`, `AuditDisk.TornFirstLineBreaksTheChain`).
- Verify pass: a debt cleared by a check that the owner then stops is not restored: at rest and not owed, the newest
  pass answers for all before it if and only if no such stop reached it in its call
  (`VerifyPassDebts.NewestPassAnswersForAll`, `VerifyPassDebts.OwedUntilStopped`,
  `VerifyPassDebts.StoppedCheckForgetsAnOlderDebt`).
- Phone approval: a clear request whose audit is in flight when the node begins to seal still leaves in clear
  (`PhoneApprovalSealing.OnlyDraftsLeaveClear`, `PhoneApprovalSealing.DraftLeavesExactlyWhen`,
  `PhoneApprovalSealing.ClearDraftLeaves`).
- Device batches: where test keys are allowed, the listing order of enrollments that disagree about a demo device matters
  (`ApproverBatch.BatchIgnoresOrder`, `ApproverBatch.OrderMatters`, `ApproverBatch.DemoFirstOrLast`).
- Relayed revokes: a service that starts while it does not trust the approver directory, and comes to trust it later,
  does not hold the revokes staged before (`ApproverOverlays.StagedRevokesHold`, `ApproverOverlays.UntrustedStartForgets`).
- Fact ledger: assert and unknown write the caller's basis unchecked
  (`FactLedgerRuns.BasisHoldsExactlyWhenGiven`, `FactLedgerRuns.AssertedFactCanRestOnItself`).
- Contact inbox: an append to a file that lost its final newline can lose two answers
  (`ContactInboxRuns.AppendAddsExactlyWhen`, `ContactInboxRuns.GluedLinesAreLost`), and an answer is judged again where
  a drain does not get to write its file (`ContactInboxRuns.JudgedOnceExactlyWhen`, `ContactInboxRuns.JudgedTwice`).
- Reply hint: item numbers above 99 and options with a shared key do not parse back (`ContactHints.HintWorksExactlyWhen`,
  `ContactHints.PrintedHintWorksExactlyWhen`, `ContactHints.HundredthHintFails`, `ContactHints.SharedKeyHintFails`).
- App-only questions: text can reach a question that was only announced (`ContactHints.AppQuestionsAreOnlyAnnounced`,
  `ContactHints.TextReachesExactlyWhen`, `ContactHints.AnnouncedTakesYes`).
- Sealing: a latch path that merely could not be read once does not keep a node sealing, and an unwritten latch is
  forgotten by a restart (`SealPolicy.SealingStaysExactlyWhen`, `SealPolicy.UnreadableOnceIsForgotten`,
  `SealPolicy.UnwrittenIsForgotten`).

`dafny verify dfyconfig.toml` checks the whole project.

## Model

| member | source | states |
|---|---|---|
| `NonceCaches.NonceCache.Prune` | `src/approvals/verify-device.js:19-25` | the loop from the oldest entry leaves exactly the window of what was there |
| `NonceCaches.NonceCache.Get` | `src/approvals/verify-device.js:27-31` | prunes, and gives the digest that the pruned list holds for the nonce, if any |
| `NonceCaches.NonceCache.Add` | `src/approvals/verify-device.js:33-37` | moves the nonce to the newest end with its new digest, then prunes |
| `NonceCaches.WindowIsNewestFresh` | `src/approvals/verify-device.js:19-25` | on a list sorted by time, cutting the old end keeps exactly the newest `max` of the entries within `ttlMs` |
| `NonceCaches.CacheRefinesSpecification` | `src/approvals/verify-device.js:11-38` | after any run with a clock that does not run back, the cache is the newest `max` distinct nonces last added within `ttlMs`, and never holds more than `max` |
| `NonceCaches.FoundExactlyWhenFreshAndRecent` | `src/approvals/verify-device.js:27-31` | a nonce is found if and only if that specification holds it, and then with the digest of its latest add |
| `PhoneApprovalRuns.RunKeepsInv` | `src/approvals/phone-approver.js:98-374` | every interleaving keeps: ids are used once, a request is drafted or pending and never both, `deciding` is set exactly while a response is audited, every caller counted once |
| `PhoneApprovalRuns.EveryCallerIsInOnePlace` | `src/approvals/phone-approver.js:98-156` | each call is waiting for its audit, waiting for a phone, or answered, exactly one of them and once; after stop() nothing waits for a phone |
| `PhoneApprovalRuns.ApprovalIsEarned` | `src/approvals/phone-approver.js:289-374` | an approve outcome proves, in order: the request was audited, a response was accepted from a then-active device with nonce, hash and expiry equal to the request's, the response was audited, and at the committing step the live action still hashed the same, the deadline had not passed and stop() had not run |
| `PhoneApprovalRuns.ToolRunsOnlyWhenEarned` | `src/approvals/phone-approver.js:378-424` | requestApproval answers true, and so lets a tool run, only on an approval earned step by step as above, by a response that said approve |
| `PhoneApprovalRuns.CommitApprovesExactlyWhen` | `src/approvals/phone-approver.js:340-374` | a response under audit approves its caller if and only if the audit succeeds, the request is still pending, the phone said approve, the action is unchanged and the deadline holds (the approver set is not looked at again) |
| `PhoneApprovalRuns.FailedAuditIsUndone` | `src/approvals/phone-approver.js:340-352` | a response whose audit fails leaves the state it met, but for pruned nonces: the phone may answer again |
| `PhoneApprovalRuns.SecondPhoneWaits` | `src/approvals/phone-approver.js:296-339` | while a response is being audited, another one to the same request changes nothing |
| `PhoneApprovalRuns.SealedNowSendsNothingClear` | `src/approvals/phone-approver.js:201-244` | on a reconnect of a node that seals, no request leaves in clear: held clear ones are rebuilt or ended |
| `PhoneApprovalSealing.OnlyDraftsLeaveClear` | `src/approvals/phone-approver.js:98-208` | over every run, once the node seals the only requests that can leave in clear are those whose own audit was in flight at that step |
| `PhoneApprovalSealing.DraftLeavesExactlyWhen` | `src/approvals/phone-approver.js:120-156` | a request whose audit is in flight leaves if and only if the audit succeeds with the link up, before any stop() or abort |
| `PhoneApprovalSealing.ClearDraftLeaves` | `src/approvals/phone-approver.js:112-156` | the run that shows it: asked for before the node seals, audited after, and sent as it was built |
| `PhoneApprovalEndings.TimerExpires` | `src/approvals/phone-approver.js:147-149` | the timer of a pending request takes exactly that request and answers its caller as expired, which the tool hears as a timeout; nothing else changes |
| `PhoneApprovalEndings.LateTimerDoesNothing` | `src/approvals/phone-approver.js:265-267` | a timer or a refusal of the relay that comes after its request was ended changes nothing |
| `PhoneApprovalEndings.RefusalEndsSealed` | `src/approvals/phone-approver.js:182-191` | a pending request that the relay's validator turns down ends as unavailable, the relay too old, if it is sealed; a clear one goes on waiting |
| `PhoneApprovalEndings.AbortWithdraws` | `src/approvals/phone-approver.js:150-153` | an abort withdraws exactly the pending requests on its signal, in order; the others stay as they were |
| `PhoneApprovalEndings.StopEndsAll` | `src/approvals/phone-approver.js:432-438` | stop() ends every pending request, in order, as unavailable because the service is stopping, and leaves none |
| `PhoneApprovalEndings.WhatToolsHear` | `src/approvals/phone-approver.js:403-424` | a tool runs on an approval alone, hears a timeout on an expired request alone, and is told apart whether someone said no or nobody was asked |
| `PhoneApprovalEndings.EndsAtOnce` | `src/approvals/phone-approver.js:98-117` | a call goes on to a phone if and only if nothing refuses it before its first await; else it ends with the outcome of the first thing that does |
| `PhoneApprovalEndings.CallAsks` | `src/approvals/phone-approver.js:98-119` | a call gets its own number, and either its one outcome or one draft: over the hash of its own action, under a fresh id |
| `PhoneApprovalEndings.AuditReturns` | `src/approvals/phone-approver.js:121-156` | when its audit returns a request waits for a phone, submitted where the link is up, if the audit succeeded and neither stop() nor an abort came first; else its caller hears which of the three it was |
| `PhoneApprovalEndings.ReconnectSends` | `src/approvals/phone-approver.js:201-244` | a reconnect sends every pending request again, in order, but the late ones and, on a node that seals, the clear ones; exactly the clear ones not under decision are taken back and asked for again for the same caller, or their callers answered |
| `PhoneApprovalEndings.EnvelopePasses` | `src/approvals/verify-device.js:54-97` | an envelope passes if and only if it is well-formed, for this node, and signed with the device key of a device that is enrolled, not revoked, not blocked, no demo and no test device |
| `PhoneApprovalEndings.SignerIsRefused` | `src/approvals/verify-device.js:72-88` | a well-formed envelope is refused for its device, its signature or its node by the first of them that is wrong |
| `PhoneApprovalEndings.ResponseArrives` | `src/approvals/phone-approver.js:289-339` | a response to a pending request either changes nothing but pruned nonces, or brings exactly that request under decision, or, where its action has changed, ends it as denied and spends the nonce; each exactly when it must |
| `PhoneApprovalEndings.DecisionEnds` | `src/approvals/phone-approver.js:340-374` | when a response's audit returns the request waits as before if it failed; else its caller gets the decision (approved, expired or denied, each exactly when) and the nonce is spent |
| `PhoneApprovalEndings.SpentNonceIsRefused` | `src/approvals/verify-device.js:90-95` | until the cache forgets it, no envelope that carries a spent nonce again has any effect |
| `PhoneApprovalRuns.PendingWasAudited` | `src/approvals/phone-approver.js:98-156` | a request that a phone may answer was audited by an earlier step of the run |
| `PhoneApprovalRuns.DecisionWasEarned` | `src/approvals/phone-approver.js:289-339` | a response under audit was accepted after its request's audit, under all of the envelope checks |
| `PhoneApprovalRuns.ApprovedBy` | `src/approvals/phone-approver.js:340-374` | the only step that can resolve a caller with approve is the end of a successful response audit |
| `PhoneApprovalRuns.StepKeepsInv` | `src/approvals/phone-approver.js:98-374` | each single step keeps the invariant |
| `PhoneApprovers.PendingRequests.Add` | `src/approvals/pending-store.js:14-17` | the entry goes to the end of the map |
| `PhoneApprovers.PendingRequests.Get` | `src/approvals/pending-store.js:19-21` | finds the entry of a request id, if it is pending |
| `PhoneApprovers.PendingRequests.Take` | `src/approvals/pending-store.js:23-28` | takes the entry out, and tells whether it was there: the first to take it wins |
| `PhoneApprovers.PendingRequests.Expire` | `src/approvals/pending-store.js:30-39` | exactly the requests past their deadline are taken out and returned, the others stay in order |
| `PhoneApprovers.DueSplits` | `src/approvals/pending-store.js:30-39` | exactly the requests past their deadline are expired and exactly the others kept, each as often as it was there |
| `PhoneApprovers.PhoneApprover.FinishRequest` | `src/approvals/phone-approver.js:265-276` | resolves the caller of a pending request once, whoever asks |
| `PhoneApprovers.PhoneApprover.BeginRequest` | `src/approvals/phone-approver.js:98-122` | the request path up to its audit: refused at once, or drafted under a fresh id |
| `PhoneApprovers.PhoneApprover.RequestAction` | `src/approvals/phone-approver.js:98-122` | one more caller, and the step that begins its request |
| `PhoneApprovers.PhoneApprover.OnRequestAudited` | `src/approvals/phone-approver.js:121-156` | after the audit: failed, stopped or aborted meanwhile, or pending and submitted |
| `PhoneApprovers.PhoneApprover.OnTimer` | `src/approvals/phone-approver.js:147-149` | the timer takes the step that `PhoneApprovalEndings.TimerExpires` describes: what is still pending ends as expired |
| `PhoneApprovers.PhoneApprover.OnAbort` | `src/approvals/phone-approver.js:150-153` | an abort withdraws every pending request on the signal |
| `PhoneApprovers.PhoneApprover.OnSubmitRefused` | `src/approvals/phone-approver.js:182-190` | a sealed request that the relay's validator turns down ends as unavailable |
| `PhoneApprovers.PhoneApprover.OnConnected` | `src/approvals/phone-approver.js:201-208` | a reconnect goes through the entries as they were when it came up |
| `PhoneApprovers.PhoneApprover.Resubmit` | `src/approvals/phone-approver.js:201-208` | an expired entry is left, a clear one is rebuilt if the node seals by now, any other is sent again |
| `PhoneApprovers.PhoneApprover.RebuildEntry` | `src/approvals/phone-approver.js:223-244` | one under decision is left; one whose action changed is denied; else it is taken and its caller goes through the whole request path again |
| `PhoneApprovers.PhoneApprover.HandleResponse` | `src/approvals/phone-approver.js:289-339` | the envelope checks, the request's own checks and the live action, up to the response's audit; the reason given is the first check that fails |
| `PhoneApprovers.GoesOnExactlyWhen` | `src/approvals/phone-approver.js:289-339` | a response is given no reason exactly when it comes to be under decision |
| `PhoneApprovers.EnvelopeIsRefused` | `src/approvals/phone-approver.js:289-304` | before the request is looked at a response is refused by a stopped approver, then for the first check of its envelope that fails, then for a nonce that was used |
| `PhoneApprovers.ResponseIsRefused` | `src/approvals/phone-approver.js:305-338` | then for the first thing in which it and its request differ, then for being late, then for a changed action |
| `PhoneApprovers.PhoneApprover.OnResponseAudited` | `src/approvals/phone-approver.js:340-374` | the response's audit undone or committed, and what is answered to the phone |
| `PhoneApprovers.AcceptedIsDecided` | `src/approvals/phone-approver.js:340-374` | a response is answered as accepted exactly when its decision is what its caller gets |
| `PhoneApprovers.PhoneApprover.Stop` | `src/approvals/phone-approver.js:432-438` | marks the approver stopped and ends every pending request |
| `VerifyPassRuns.LandingIsNewest` | `src/cases/case-runtime.js:1885-1964` | a pass writes its result only if, since it started, no turn of this process took the case and no newer pass started; the service is not closing and nothing holds the case |
| `VerifyPassRuns.AtMostOnePassCanLand` | `src/cases/case-runtime.js:1807-1883` | of all passes of a case at most one can ever land, and it is the newest |
| `VerifyPassLandings.LandsExactlyWhen` | `src/cases/case-runtime.js:1885-1957` | a pass that resumes with its reply writes it if and only if it is not superseded, the service runs on, nobody holds the case, the case is open and the write does not fail; and waits, is dropped, meets a closed case or fails, each exactly when it must |
| `VerifyPassLandings.ResumeChanges` | `src/cases/case-runtime.js:1885-1957` | the lock becomes its own exactly when it gets to the record; a dropped pass is owed unless the owner stopped it; nothing else changes |
| `VerifyPassLandings.SettlesAsItEnded` | `src/cases/case-runtime.js:1869-1883` | a pass settles as what it came back as once its lock is given back; only one whose write failed leaves a debt |
| `VerifyPassLandings.EndingWasEarned` | `src/cases/case-runtime.js:1885-1957` | over every run a pass has landed if and only if it came back with its way free to an open case and the write did not fail, and was ended by the case's close if and only if it came back so to a closed one |
| `VerifyPassSteps.TakingSays` | `src/cases/case-runtime.js:1271-1312` | a turn takes a free case, a wake-up only where no pass runs and the service is not closing; taking it overtakes the running pass and owes one, and changes nothing else |
| `VerifyPassSteps.SkippedForTheFirst` | `src/cases/verify/judge.js:342-375` | a close skips its pass for the first of eleven reasons that speaks against it |
| `VerifyPassSteps.PreparingSays` | `src/cases/verify/judge.js:342-396` | where none does it prepares and counts one pass, which its turn carries |
| `VerifyPassSteps.EndingSays` | `src/cases/case-runtime.js:1966-2021` | a turn's end gives back its own lock and registration and no other; its pass starts if the turn committed, was not replaced and the service runs on, and is given up and owed if not |
| `VerifyPassSteps.RefusedForTheFirst` | `src/cases/case-runtime.js:748-809` | Check now is refused for the first of ten reasons that holds, and changes nothing |
| `VerifyPassSteps.CheckGoesOn` | `src/cases/case-runtime.js:748-809` | after its commit a check starts if the case is still free, no pass runs and the service runs on, and is given up and owed if not |
| `VerifyPassSteps.ShutdownSays` | `src/cases/case-runtime.js:1794-1806` | a closing service supersedes every pass that is not over and clears no debt |
| `VerifyPassRuns.WakeupWaitsForThePass` | `src/cases/case-runtime.js:1271-1312` | a wake-up never takes the case from a pass that may still land, nor from a closing service |
| `VerifyPassDebts.NoDebtIsLost` | `src/cases/case-runtime.js:1966-2021` | over every run every counted pass is carried still or out; or, at a step of the run, it wrote its verdicts to the open case, came back to a closed one, or was a check that the owner stopped; or else the case is owed one or a newer pass started |
| `VerifyPassDebts.NewestPassAnswersForAll` | `src/cases/case-runtime.js:1966-2021` | at rest and with nothing owed, the newest pass wrote its verdicts to the open case, or came back to a closed one, at a step of the run, if and only if no stop by the owner reached it while its model call was out |
| `VerifyPassDebts.DebtIsTakenUp` | `src/cases/verify/judge.js:342-375` | where a pass is owed a turn that wrote nothing prepares one, exactly unless another reason skips it; where none is owed it prepares none |
| `VerifyPassDebts.OwedUntilStopped` | `src/cases/case-runtime.js:1822-1832` | a pass is no longer owed if and only if the run holds a Stop with no turn registered, or a status that stops work, at a step where it was the owner's running check |
| `VerifyPassDebts.StoppedCheckForgetsAnOlderDebt` | `src/cases/case-runtime.js:1822-1869` | a run in which a check clears a debt, the owner stops it, and the debt is gone |
| `CaseRuntimes.CaseRuntime.VerifyRunning` | `src/cases/case-runtime.js:1775-1778` | whether a pass of the case may still land |
| `CaseRuntimes.CaseRuntime.SupersedeVerify` | `src/cases/case-runtime.js:1807-1816` | the running pass is superseded and owed |
| `CaseRuntimes.CaseRuntime.StopTheCheck` | `src/cases/case-runtime.js:1822-1832` | only the owner's own check is stopped, and it leaves no debt |
| `CaseRuntimes.CaseRuntime.StartVerifyPass` | `src/cases/case-runtime.js:1859-1883` | supersedes the pass before, clears the debt and becomes the newest pass |
| `CaseRuntimes.CaseRuntime.AcquireForTurn` | `src/cases/case-runtime.js:1271-1312` | one attempt of a turn or a wake-up to take the case, superseding in the same step |
| `CaseRuntimes.CaseRuntime.ReleaseLock` | `src/cases/case-runtime.js:1404-1417` | only the holder's own lock is given back |
| `CaseRuntimes.CaseRuntime.BeginTurnReturns` | `src/cases/case-runtime.js:1597-1676` | the turn is registered, or gives the lock back |
| `CaseRuntimes.CaseRuntime.PrepareAtClose` | `src/cases/verify/judge.js:342-396` | the close prepares and counts a pass, or says why not: the first reason that holds |
| `CaseRuntimes.CaseRuntime.EndTurn` | `src/cases/case-runtime.js:1966-2021` | releases, then starts the prepared pass, or owes it when the turn did not commit, was replaced or the service closes |
| `CaseRuntimes.CaseRuntime.SystemAction` | `src/cases/case-runtime.js:2097-2110` | takes the case unless this process holds it already |
| `CaseRuntimes.CaseRuntime.SystemActionEnds` | `src/cases/case-runtime.js:2097-2110` | releases the case; a check whose preparation it was goes on to its start |
| `CaseRuntimes.CaseRuntime.SetStatus` | `src/cases/case-runtime.js:1141-1193` | a status that stops work reaches the owner's check |
| `CaseRuntimes.CaseRuntime.AbortTurn` | `src/cases/case-runtime.js:2379-2391` | Stop reaches the running turn, or else the owner's check |
| `CaseRuntimes.CaseRuntime.VerifyNow` | `src/cases/case-runtime.js:748-809` | a check is refused for the first reason that holds, or prepared under the lock |
| `CaseRuntimes.CaseRuntime.VerifyNowContinues` | `src/cases/case-runtime.js:748-809` | after its commit the check starts, or is given up and owed if something took the case in between |
| `CaseRuntimes.CaseRuntime.RunVerifyJob` | `src/cases/case-runtime.js:1885-1964` | what a pass does each time it resumes with its reply: waits, drops, gives up, fails or lands |
| `CaseRuntimes.CaseRuntime.DropJob` | `src/cases/case-runtime.js:1885-1964` | a dropped pass is owed, unless the owner stopped it |
| `CaseRuntimes.CaseRuntime.SettleVerifyJob` | `src/cases/case-runtime.js:1872-1881` | a settled pass is done; one that threw is owed |
| `CaseRuntimes.CaseRuntime.BeginShutdownNow` | `src/cases/case-runtime.js:1794-1801` | every pass that is out is superseded and no new one starts |
| `CaseRuntimes.CaseRuntime.ReleaseEverything` | `src/cases/case-runtime.js:1399-1402` | all locks of the process are given back |
| `AuditChain.SeqsAreConsecutive` | `src/audit/audit-ledger.js:327-348` | in a chain sequence numbers rise by one |
| `AuditChain.HashesAreDistinct` | `src/audit/audit-ledger.js:26-28` | no two entries of a chain share a hash |
| `AuditChain.HeadDeterminesChain` | `src/audit/audit-ledger.js:26-28` | two chains that end in the same head hash are equal entry for entry, back to where the shorter begins |
| `AuditChain.GrowIsGreedy` | `src/audit/audit-ledger.js:376-400` | a page fits its caps, is the longest that does, and is not empty while entries remain |
| `AuditChain.GrowByOne` | `src/audit/audit-ledger.js:384-389` | what one turn of the page loop decides |
| `AuditChain.CapSays` | `src/audit/audit-ledger.js:378-378` | a page has room for as many entries as were asked for, for at least one and at most two hundred |
| `AuditChain.EverySliceIsAccepted` | `src/audit/audit-ledger.js:442-469` | every contiguous part of a node's chain, with the chain's head and anchor, is accepted |
| `AuditChain.AcceptedToHeadIsTheLedger` | `src/audit/audit-ledger.js:442-469` | an accepted slice that reaches its signed head equals the end of the ledger with that head, back to where the shorter of the two begins; with an anchor no older than the ledger's it lies within the ledger |
| `AuditChain.AfterOwnEntry` | `src/audit/audit-ledger.js:357-361` | the entries after a retained entry's hash are exactly those behind it |
| `AuditChain.ForwardPagingRebuilds` | `src/audit/audit-ledger.js:357-391` | asking again with the last hash received rebuilds the ledger exactly, for any limit and byte cap, and ends |
| `AuditChain.BackwardPagingRebuilds` | `src/audit/audit-ledger.js:391-400` | asking again with the first sequence number received rebuilds the ledger exactly, for any limit and byte cap, and ends |
| `AuditDisk.AppendAdds` | `src/audit/audit-ledger.js:270-320` | however far a write gets, the complete lines are those before it and the new entry when it landed whole |
| `AuditDisk.NextEntryGoesOn` | `src/audit/audit-ledger.js:270-290` | the next entry continues the chain if and only if the newest segment holds a complete line or nothing is retained |
| `AuditDisk.AppendVerifiesExactlyWhenAnchored` | `src/audit/audit-ledger.js:270-348` | verify() passes after an acknowledged append if and only if the newest segment held a complete line (or nothing is retained) |
| `AuditDisk.UnterminatedEntryVerifiesThenGoes` | `src/audit/audit-ledger.js:117-136` | an entry that lost only its newline passes verify() and is healed away by the next append |
| `AuditDisk.PruneDropsFiles` | `src/audit/audit-ledger.js:422-435` | prune removes a prefix of the segments: exactly those whose month ended before the cutoff, but never the newest |
| `AuditDisk.PruneKeepsExactly` | `src/audit/audit-ledger.js:422-435` | a segment survives a prune if and only if its month ended at or after the cutoff or it is the newest |
| `AuditDisk.PruneDropsAPrefix` | `src/audit/audit-ledger.js:422-435` | with them goes a prefix of the entries; what is in the newest segment stays |
| `AuditDisk.AppendKeepsFiles` | `src/audit/audit-ledger.js:270-320` | however far a write gets, every file stays with its month and its complete lines at its beginning, and a new file sorts behind them |
| `AuditDisk.EveryRunIsOneChain` | `src/audit/audit-ledger.js:270-348` | for every run of appends with any clock, of writes cut short and of prunes, the segments in name order are one chain in the order of the writes, less what was pruned from the front, and verify() passes after each acknowledged append, while the newest segment holds a complete line before every operation |
| `AuditDisk.HistorySaysWhatWasAsked` | `src/audit/audit-ledger.js:282-296` | over every run line k of the history says the node, the writer, the kind, the data and the instant of the k-th append whose line was written whole |
| `AuditDisk.EntriesAreNumbered` | `src/audit/audit-ledger.js:280-292` | over every anchored run the k-th entry ever written has number k and names the hash of the one before it, and the first names none |
| `AuditDisk.EntriesStayInPlace` | `src/audit/audit-ledger.js:270-435` | over every run an entry stays in the file of its month behind the lines that were there, if and only if no prune since finds that month past the cutoff with a newer file there; a month once dropped has no file again |
| `AuditDisk.OnlyATornFirstLineUnanchors` | `src/audit/audit-ledger.js:276-320` | that condition fails only after a write is cut inside the first line of a new segment |
| `AuditDisk.TornFirstLineBreaksTheChain` | `src/audit/audit-ledger.js:276-286` | the run that shows it: the first line of a new month is torn, and the next acknowledged append restarts at 1 and does not verify |
| `AuditLedgers.FaultBreaksTheChain` | `src/audit/audit-ledger.js:327-348` | a chain goes on with the next line exactly when none of verify()'s checks fails on it |
| `AuditLedgers.FaultSays` | `src/audit/audit-ledger.js:327-348` | each fault that verify() finds is what it is called, looked for in that order |
| `AuditLedgers.AuditLedger.HealTornTail` | `src/audit/audit-ledger.js:117-136` | what follows the newest segment's last newline is taken away, nothing else |
| `AuditLedgers.AuditLedger.LastValidEntry` | `src/audit/audit-ledger.js:138-148` | the last complete line of the newest segment, or that it does not parse |
| `AuditLedgers.AuditLedger.AppendEntry` | `src/audit/audit-ledger.js:270-320` | heals, continues from the newest segment's last entry, and writes to the later of the clock's month and the newest segment; an acknowledged entry says the caller's kind and data, this ledger's node and writer and the clock's instant, and is the last complete line on disk |
| `AuditLedgers.AuditLedger.Verify` | `src/audit/audit-ledger.js:327-348` | ok exactly on one chain; otherwise the longest good prefix, the first check that fails after it, and the sequence number it broke at |
| `AuditLedgers.AuditLedger.AllRawLines` | `src/audit/audit-ledger.js:97-101` | every line of every segment, an unfinished tail included |
| `AuditLedgers.AuditLedger.AllEntries` | `src/audit/audit-ledger.js:103-115` | the complete lines of all segments in name order |
| `AuditLedgers.AuditLedger.PruneSegments` | `src/audit/audit-ledger.js:422-435` | removes what Prune says and counts it |
| `AuditLedgers.SliceForward` | `src/audit/audit-ledger.js:380-391` | the longest page within both caps from the oldest candidate on |
| `AuditLedgers.SliceBackward` | `src/audit/audit-ledger.js:391-400` | the longest page within both caps from the newest candidate back |
| `AuditLedgers.BeforeIsAPrefix` | `src/audit/audit-ledger.js:392-392` | the entries before a sequence number are the first of the chain |
| `AuditLedgers.CutSlice` | `src/audit/audit-ledger.js:376-411` | in either direction a slice is the longest contiguous page within 200 entries, the limit and the byte cap, not empty when anything matches, with the ledger's head and anchor; cut from a node's own chain it is accepted |
| `AuditLedgers.VerifyAuditSlice` | `src/audit/audit-ledger.js:442-469` | no fault exactly on the acceptable slices, otherwise the first fault: of who signed, of the oldest bad entry, or of the head and anchor |
| `AuditLedgers.NoReasonExactlyWhenAcceptable` | `src/audit/audit-ledger.js:442-469` | that search gives no reason exactly when every entry and both ends are in order |
| `AuditLedgers.EntryFaultSays` | `src/audit/audit-ledger.js:442-458` | each fault of a slice's entry is what it is called, looked for in that order |
| `AuditLedgers.EndsFaultSays` | `src/audit/audit-ledger.js:459-469` | each fault of a slice's ends is what it is called, looked for in that order |
| `ApproverBatch.BatchActive` | `src/approvals/approver-admin.js:237-364` | after a batch the active devices are the ones before it less all valid revoke targets plus the enrolled ones, without those whose first enrollment is of a demo device (only where test keys are allowed) |
| `ApproverBatch.EnrolledAreNew` | `src/approvals/approver-admin.js:309-350` | an enrolled device is no revoke's target, had no record, and was signed for within the week by an active device that no revoke names |
| `ApproverBatch.RevocationIsSigned` | `src/approvals/approver-admin.js:266-304` | a revoke target is named by another active device's signed message of the last week |
| `ApproverBatch.RevokeAlwaysWins` | `src/approvals/approver-admin.js:266-304` | a valid revoke of a device with a record counts, even when its own signer is revoked beside it |
| `ApproverBatch.BatchIgnoresOrder` | `src/approvals/approver-admin.js:237-364` | every order of the same staged files leaves the same active devices if and only if the enrollments of each device agree on its being a demo device, as they do whenever test keys are not allowed |
| `ApproverBatch.OrderMatters` | `src/approvals/approver-admin.js:141-191` | of two staged enrollments of a device that disagree, moving one or the other to the front of the same files leaves different active devices |
| `ApproverBatch.DemoFirstOrLast` | `src/approvals/approver-admin.js:309-350` | the two files that show it, in both orders |
| `ApproverBatch.NamesDoNotMatter` | `src/approvals/approver-admin.js:146-191` | a file's name, its nonce, counts only through its place in the sorted listing |
| `ApproverBatch.DeferredRevokeBlocks` | `src/approvals/approver-admin.js:281-304` | a revoke of a device without a record stays staged and keeps later batches from enrolling it |
| `ApproverBatch.DeferredRevokeLasts` | `src/approvals/approver-admin.js:266-304` | it stays honoured exactly for its week, while its signer is active and no valid revoke of the batch names the signer |
| `ApproverBatch.RevokeAllActive` | `src/approvals/approver-admin.js:286-304` | the revoke pass takes exactly the honoured targets out of use |
| `ApproverBatch.EnrollAllActive` | `src/approvals/approver-admin.js:306-350` | the enrollment pass puts in use exactly the new devices whose first enrollment in the listing is carried out and of no demo device |
| `ApproverBatch.StateAllActive` | `src/approvals/approver-admin.js:352-356` | key statements change nobody's being in use |
| `ApproverRuns.BatchFollows` | `src/approvals/approver-admin.js:237-386` | a batch takes no key away, puts no older key for a newer, touches no revoked record and never changes who enrolled a device |
| `ApproverRuns.RevokedForever` | `src/approvals/approver-admin.js:119-139` | over any run of console enrollments, revocations and batches a revoked record is never touched again and never active |
| `ApproverRuns.BoxKeyStays` | `src/service/commands/devices.js:182-190` | no operation takes a box key from a record in use |
| `ApproverRuns.EveryChainEndsAtTheConsole` | `src/approvals/approver-admin.js:331-346` | over any run every device's chain of enrollers is finite and ends at the console |
| `ApproverRuns.NewestFirstSorts` | `src/approvals/approver-admin.js:256-258` | the sort puts statements newest first and loses none |
| `ApproverRuns.NewestStatementWins` | `src/approvals/approver-admin.js:253-258` | of a device's statements of one key in a batch at most one is carried out, and those after it are no newer |
| `ApproverRuns.BatchKeepsKeysApart` | `src/approvals/approver-store.js:56-74` | device, read and box key of every record stay three different points |
| `ApproverRuns.StatementFollows` | `src/approvals/approver-admin.js:371-386` | one key statement only ever sets the key it names, to a newer one |
| `ApproverRecords.RevokeCountsExactlyWhen` | `src/approvals/approver-admin.js:262-276` | a revoke counts if and only if it is in date, well-formed and signed by another active device |
| `ApproverRecords.RevokeIsHonouredExactlyWhen` | `src/approvals/approver-admin.js:275-300` | it is honoured if its device has a record, or else if no revoke of the batch that counts names its signer |
| `ApproverRecords.EnrollmentCountsExactlyWhen` | `src/approvals/approver-admin.js:303-330` | an enrollment counts if and only if it is in date, well-formed, of a device without a record that no revoke names, signed by an active device that none names, and of no demo device or published key unless allowed |
| `ApproverRecords.StatementSetsExactlyWhen` | `src/approvals/approver-admin.js:371-386` | a key statement is carried out if and only if it is in date, well-formed, signed by its own active device that no revoke names, of a record that stands, with a point that is free and a key that is absent or older; then that one key is set, and else nothing changes |
| `ApproverRecords.KeyIsRefusedBecause` | `src/approvals/approver-store.js:94-121` | a stated key is refused for the first of four rules that it breaks, and for nothing else |
| `ApproverRecords.RevokeIsTold` | `src/approvals/approver-admin.js:262-300` | what is said of a revoke is the first thing wrong with it, or that it is carried out or deferred, exactly when it is |
| `ApproverRecords.EnrollmentIsTold` | `src/approvals/approver-admin.js:303-350` | what is said of an enrollment is the first thing wrong with it, or that its device is enrolled, exactly when it is |
| `ApproverRecords.StatementIsTold` | `src/approvals/approver-admin.js:371-386` | what is said of a key statement is the first thing wrong with it, at last with the key itself |
| `ApproverRecords.StaysExactlyWhenDeferred` | `src/approvals/approver-admin.js:288-298` | a file stays staged exactly when it cannot safely be acted on or is a revoke that is said to be deferred |
| `ApproverRecords.NewestFirstIsStable` | `src/approvals/approver-admin.js:255-257` | statements of one instant stay in the order of the listing |
| `ApproverRecords.StandingRecord` | `src/approvals/approver-admin.js:262-386` | a record that no honoured revoke names is left by a batch as it was, but that each of its two keys is that of the newest staged statement that counts, if any does |
| `ApproverRecords.RevokedRecord` | `src/approvals/approver-admin.js:262-300` | a device that an honoured revoke names is revoked at this instant by the signer of the first such revoke, with its keys as they were |
| `ApproverRecords.NewRecord` | `src/approvals/approver-admin.js:303-350` | a device without a record gets exactly that of the first staged enrollment that counts, enrolled by its signer, and none if none does |
| `ApproverRecords.ConsoleEnrolls` | `src/service/commands/devices.js:181-235` | the console writes a device's record, enrolled by itself, unless that would undo a revocation or take its box key away |
| `ApproverRecords.ConsoleRevokes` | `src/approvals/approver-admin.js:131-139` | the console revokes a device that has a record, once, and changes nothing else of it |
| `ApproverResults.OneResultEach` | `src/approvals/approver-admin.js:286-361` | every staged file gets exactly one result |
| `ApproverResults.RevokeVerdict` | `src/approvals/approver-admin.js:286-304` | "revoked" is said of exactly the valid revokes of devices with a record, "deferred" of the honoured ones without |
| `ApproverResults.EnrollVerdict` | `src/approvals/approver-admin.js:306-350` | "enrolled" is said of exactly the first enrollment of each newly enrolled device |
| `ApproverAdministrators.ApproverAdministrator.EvaluateRevokes` | `src/approvals/approver-admin.js:266-279` | judges every revoke against the snapshot and collects the devices with a record that valid ones name |
| `ApproverAdministrators.ApproverAdministrator.ApplyRevokes` | `src/approvals/approver-admin.js:281-304` | fills the revoke targets, marks the records, moves the files that are done with |
| `ApproverAdministrators.ApproverAdministrator.ApplyEnrollments` | `src/approvals/approver-admin.js:306-350` | carries out and reports the enrollments in listing order |
| `ApproverAdministrators.ApproverAdministrator.ApplyStatements` | `src/approvals/approver-admin.js:352-355` | carries out and reports the key statements, newest first |
| `ApproverAdministrators.ApproverAdministrator.ApplyKeyStatement` | `src/approvals/approver-admin.js:371-386` | judges one statement against the snapshot and the record as it is now |
| `ApproverAdministrators.ApproverAdministrator.ApplyStaged` | `src/approvals/approver-admin.js:237-364` | a confirmed batch leaves exactly the batch's records and results, and staged exactly the deferred revokes and unsafe files; an unconfirmed one changes nothing |
| `ApproverStores.StagingOnlyShrinks` | `src/approvals/approver-store.js:494-503` | nothing relayed makes a device active: active implies admin-applied, and staging only takes away |
| `ApproverOverlays.StagedRevokesHold` | `src/approvals/approver-store.js:323-555` | over any run of relayed messages, starts, later checks of the directory, enrollments and revocations at the console and batches, a staged revoke that checks out blocks its device if and only if the last start trusted the directory and could list the staged files, or the service has taken a revoke of that device since |
| `ApproverOverlays.RevokedStaysInactive` | `src/approvals/approver-store.js:323-555` | where the directory is checked only at a start and every start can list the staged files, no device that a standing staged revoke names is ever active |
| `ApproverOverlays.UntrustedStartForgets` | `src/approvals/approver-store.js:323-354` | the run that shows it: a service starts while its directory is not trusted, a later check trusts it, and a device that a staged revoke names is active |
| `ApproverOverlays.ApplyLeaves` | `src/approvals/approver-admin.js:230-386` | device apply leaves the records of the batch, staged exactly what stays and done what no longer is, and the running service's overlay as it was |
| `ApproverOverlays.DeferredRevokeHolds` | `src/approvals/approver-admin.js:281-350` | over any such run a staged revoke of a device without a record stays staged and no batch gives the device one, while every batch honours it and the console does not enroll the device |
| `ApproverOverlays.HonouredExactlyWhen` | `src/approvals/approver-admin.js:266-304` | a batch honours such a revoke if and only if its directory is trusted, it is within the week of its date and no revoke of the batch names its signer |
| `ApproverStores.CounterRevokeWorks` | `src/approvals/approver-store.js:521-530` | a revoke by an admin-applied device is taken whatever the overlay holds, and blocks at once |
| `ApproverStores.StagedRevokeIsApplied` | `src/approvals/approver-store.js:601-619` | a revoke the service took, applied within its week while its signer is trusted, revokes its device |
| `ApproverStaging.RevokeIsStaged` | `src/approvals/approver-store.js:557-600` | a new revoke that is in time and signed by another admin-applied device blocks its device whether or not it can be written, and is kept if it can; any other changes nothing |
| `ApproverStaging.EnrollmentIsStaged` | `src/approvals/approver-store.js:557-625` | a new enrollment is kept if and only if it is in time, signed by a device that nothing blocks, of keys of its own, and of a device that was not revoked and may not approve yet |
| `ApproverStaging.StatementIsStaged` | `src/approvals/approver-store.js:626-642` | a new key statement is kept if and only if it is in time, signed by its own device that nothing blocks, and the record may take the key; else the answer says which rule of the record it breaks |
| `ApproverStaging.NothingNew` | `src/approvals/approver-store.js:557-575` | a message that came before changes nothing, and is said to be applied exactly when its key is the one the record holds |
| `ApproverStaging.RevokeIsTurnedAway` | `src/approvals/approver-store.js:524-531` | a revoke is turned away for the first of four checks of its signer that fails |
| `ApproverStaging.EnrollmentIsTurnedAway` | `src/approvals/approver-store.js:577-615` | an enrollment is turned away for the first of six checks that fails |
| `ApproverStores.ApproverStore.RebuildOverlay` | `src/approvals/approver-store.js:532-555` | the overlay is exactly the targets of the staged revokes that check out |
| `ApproverStores.ApproverStore.IsKnownNonce` | `src/approvals/approver-store.js:517-519` | a nonce is known exactly when a staged or done file has it |
| `ApproverStores.ApproverStore.Receive` | `src/approvals/approver-store.js:557-641` | which messages are staged, refused and why, or answered as known or applied already; a revoke blocks even when its file cannot be written |
| `Jsonl.SplitJoins` | `src/cases/jsonl.js:45-45` | splitting at a newline in between is splitting both sides |
| `Jsonl.TrimSays` | `src/cases/jsonl.js:36-48` | trimming takes all the white space in front of a line and behind it, and nothing else |
| `Jsonl.AppendAddsALine` | `src/cases/jsonl.js:9-31` | an append adds one line and leaves the others where they were, whether or not the file ended with a newline |
| `Jsonl.AppendIsOneStep` | `src/cases/jsonl.js:28-56` | for any text, reading after an append is the state before and one more checked value, with the earlier errors and their line numbers unchanged |
| `Jsonl.JsonlFile.Append` | `src/cases/jsonl.js:28-31` | a line that lost its newline is closed before the new one is written |
| `Jsonl.JsonlFile.Read` | `src/cases/jsonl.js:35-56` | the fold over the non-blank lines, with the 1-based numbers of those that do not parse or are rejected |
| `FactLedgerRuns.RunKeepsInv` | `src/cases/ledger.js:45-127` | over every run: superseded exactly when a later fact that replaces it is named, sources as their provenance demands, inferences on earlier known facts |
| `FactLedgerRuns.FactsOnlyAge` | `src/cases/ledger.js:45-65` | no fact is lost or rewritten; a status only leaves active, and never comes back |
| `FactLedgerRuns.IdsAreFresh` | `src/cases/ledger.js:71-84` | an operation that writes a fact adds exactly one id, above all others |
| `FactLedgerRuns.Current` | `src/cases/ledger.js:51-55` | following replacements from any fact ends, at a fact that is not superseded |
| `FactLedgerRuns.NoFactIsReplacedTwice` | `src/cases/ledger.js:86-95` | two facts that replace the same fact are one |
| `FactLedgerRuns.OnlyTheOwnerDiscloses` | `src/cases/ledger.js:107-113` | sensitive, inferred and unknown facts stay private over any run without setDisclosable for them |
| `FactLedgerRuns.BasisHoldsExactlyWhenGiven` | `src/cases/ledger.js:93-127` | after a write every basis is of earlier known facts if and only if the caller's basis was |
| `FactLedgerRuns.InferencesAreGrounded` | `src/cases/ledger.js:163-174` | infer accepts only a basis of existing, active facts that are no unknowns |
| `FactLedgerRuns.AssertedFactCanRestOnItself` | `src/cases/ledger.js:129-161` | assert writes a basis that names the fact's own id |
| `FactLedgerRuns.WrittenFactIsFit` | `src/cases/ledger.js:129-179` | what assert, infer and unknown have checked by the time they write |
| `FactLedgerEffects.WritesExactly` | `src/cases/ledger.js:93-127` | an operation that writes adds the one fact that was given, its texts trimmed, private where a rule or the caller says so; the one it replaces is superseded by it, and every other is as it was |
| `FactLedgerEffects.AssertsExactlyWhen` | `src/cases/ledger.js:129-161` | assert writes a fact if and only if its texts are there, its source fits its provenance and what it replaces is active |
| `FactLedgerEffects.InfersExactlyWhen` | `src/cases/ledger.js:163-174` | infer writes one if and only if its texts are there and every fact of a non-empty basis is active and no unknown |
| `FactLedgerEffects.UnknownsExactlyWhen` | `src/cases/ledger.js:176-179` | unknown writes one if and only if all of its six texts are there and what it replaces is active |
| `FactLedgerEffects.RefusedWritesNothing` | `src/cases/ledger.js:86-179` | a refused write changes nothing and gives a reason that holds |
| `FactLedgerEffects.RetractsExactly` | `src/cases/ledger.js:181-186` | retracting an active fact makes it retracted and changes nothing else; any other is refused |
| `FactLedgerEffects.DisclosesExactly` | `src/cases/ledger.js:189-194` | the owner shows or hides one fact and changes nothing else |
| `FactLedgerEffects.MarksExactly` | `src/cases/ledger.js:196-202` | after markLoadBearing a fact is load-bearing if and only if it was before or is one of the ids; nothing else changes |
| `FactLedgerFiles.AppendReplays` | `src/cases/ledger.js:45-69` | a line appended to the file is one step of the replay, whatever the file holds |
| `FactLedgerFiles.FactLedgerFile.HighestOf` | `src/cases/ledger.js:71-78` | the highest id in the ledger |
| `FactLedgerFiles.FactLedgerFile.Write` | `src/cases/ledger.js:93-127` | refuses to replace what is not active, else appends the fact with the next id |
| `FactLedgerFiles.FactLedgerFile.Assert` | `src/cases/ledger.js:129-161` | the replayed state takes exactly the step of assert; a refused call writes nothing |
| `FactLedgerFiles.FactLedgerFile.Infer` | `src/cases/ledger.js:163-174` | the replayed state takes exactly the step of infer |
| `FactLedgerFiles.FactLedgerFile.RecordUnknown` | `src/cases/ledger.js:176-179` | the replayed state takes exactly the step of unknown |
| `FactLedgerFiles.FactLedgerFile.Retract` | `src/cases/ledger.js:181-186` | only an active fact is retracted |
| `FactLedgerFiles.FactLedgerFile.SetDisclosable` | `src/cases/ledger.js:189-194` | only a fact of the ledger is disclosed or hidden |
| `FactLedgerFiles.FactLedgerFile.MarkLoadBearing` | `src/cases/ledger.js:196-202` | exactly the named facts become load-bearing, whatever ids are repeated or unknown |
| `Abandoned.IdIsNeverReused` | `src/cases/abandoned.js:81-115` | the next id is above every number any parsed record line carried, rejected lines included |
| `Abandoned.EveryFileIsSound` | `src/cases/abandoned.js:76-116` | whatever is in the file, the records have different ids, none above the highest number |
| `Abandoned.NothingIsEdited` | `src/cases/abandoned.js:81-113` | whatever lines follow, no record is edited, dropped or brought back once withdrawn |
| `Abandoned.LineSays` | `src/cases/abandoned.js:81-116` | a line is accepted exactly when it records a new approach under a new id or withdraws one that stands, and then adds that record or withdraws that one; a rejected line changes no record |
| `Abandoned.HighestSays` | `src/cases/abandoned.js:81-116` | the highest number goes up to that of any line with an id, accepted or not, and never down |
| `Abandoned.StandsUntilWithdrawn` | `src/cases/abandoned.js:131-160` | an approach stands once it is recorded, until the last standing record of it is withdrawn |
| `Abandoned.NewRecordFits` | `src/cases/abandoned.js:150-170` | the line of a new record is never rejected |
| `Abandoned.AbandonedStore.AbandonApproach` | `src/cases/abandoned.js:131-171` | refuses an approach that stands already, else adds exactly one record under a fresh id |
| `Abandoned.AbandonedStore.WithdrawApproach` | `src/cases/abandoned.js:175-183` | withdraws exactly the named standing record |
| `ContactReplies.PicksExactlyTheOnlyMatch` | `src/cases/contact-format.js:389-395` | an option is chosen if and only if exactly one option's id or label matches a non-empty key, and it is that one |
| `ContactReplies.TokenlessLinesOnlyPick` | `src/cases/contact-format.js:475-484` | a line without a token only picks an option, and only in a threaded reply to several items |
| `ContactReplies.TextIsForThisItem` | `src/cases/contact-format.js:443-451` | free text is no copy of the question and no other item's option |
| `ContactReplies.AnswerHasALine` | `src/cases/contact-format.js:453-496` | what a reply answers was said by one of its lines, unless it is read as a whole |
| `ContactReplies.FreeTextNeedsAToken` | `src/cases/contact-format.js:439-497` | in a batch of several items no free text is taken from a line that names no token |
| `ContactReplies.AnsweredExactlyWhenAgreed` | `src/cases/contact-format.js:485-496` | an item is answered if and only if something was found for it and everything found agrees, and then once |
| `ContactReplies.ResolveOne` | `src/cases/contact-format.js:487-495` | one turn of the conflict loop keeps the standing answers and the conflicted items |
| `ContactReplies.Resolve` | `src/cases/contact-format.js:485-496` | the loop's result is exactly the standing answers, in the order they first came |
| `ContactReplies.Parse` | `src/cases/contact-format.js:439-497` | the whole reply: its lines, what they say and the conflicts dropped, or the one answer of a threaded reply to a single item |
| `ContactReplies.SingleThreadAnswer` | `src/cases/contact-format.js:418-423` | one answer of what is left without quoted history, signature and copies of the question |
| `ContactReplies.StripQuoted` | `src/cases/contact-format.js:526-535` | the lines before the quoted history, without quoted ones |
| `ContactReading.TokenSays` | `src/cases/contact-format.js:398-400` | a token and the words behind it are read off a line exactly where it is `#`, six letters or digits, and then nothing or spaces and the rest of the line |
| `ContactReading.NumberSays` | `src/cases/contact-format.js:477-481` | a number and the answer behind it are read off exactly where there are one or two digits, perhaps a point or a bracket, spaces, and something |
| `ContactReading.MatchKeySays` | `src/cases/contact-format.js:381-382` | options are compared in small letters, without spaces in front and without spaces and stops behind |
| `ContactReading.OwnTokenSays` | `src/cases/contact-format.js:455-467` | a line with an item's own token answers that item and no other, free text included |
| `ContactReading.BatchTokenSays` | `src/cases/contact-format.js:455-482` | a line with the batch's token answers the item of its number, or the only item, free text included |
| `ContactReading.TokenlessSays` | `src/cases/contact-format.js:469-482` | a line without a token answers by number, only in a reply to a batch of several items, and picks options only |
| `ContactReading.WordedSays` | `src/cases/contact-format.js:453-453` | the lines that are read are exactly the lines of the reply, trimmed, that are neither blank nor quoted |
| `ContactReading.WholeExactlyWhen` | `src/cases/contact-format.js:454-466` | a reply to a batch of one item is one answer unless a line of it names a token of the batch |
| `ContactReading.UnquotedSays` | `src/cases/contact-format.js:526-535` | what is kept of a mail is every line before the first at which quoted history starts, less the quoted ones, in order |
| `ContactReading.DropEndSays` | `src/cases/contact-format.js:411-420` | blank lines and signatures of a phone go at the end and nowhere else |
| `ContactReading.BodySays` | `src/cases/contact-format.js:418-422` | what counts as the answer are exactly the lines left that are neither blank nor a copy of the question |
| `ContactReading.JoinedSplits` | `src/cases/contact-format.js:422-422` | the lines of an answer are joined so that they split as they were |
| `ContactReading.WholeSays` | `src/cases/contact-format.js:418-466` | a reply that is one answer answers the only item with what is left of it, unless nothing is |
| `ContactHints.HintWorksExactlyWhen` | `src/cases/contact-format.js:364-367` | sending the printed hint back answers exactly that item with exactly that option, if and only if the number has at most two digits or is left out and no other option has the same key |
| `ContactHints.PrintedHintWorksExactlyWhen` | `src/cases/contact-format.js:339-370` | every hint that is printed under a batch is of one of its answerable items, and for one with options works under exactly that condition |
| `ContactHints.SharedKeyHintFails` | `src/cases/contact-format.js:364-367` | the options a) Yes and b) a: the printed hint says a, and is read as text |
| `ContactHints.HundredthHintFails` | `src/cases/contact-format.js:363-370` | a batch of ninety-nine briefings or more and then one question: the one hint printed under it is that question's, and sent back it answers nothing |
| `ContactHints.RenderedBatch` | `src/cases/contact-format.js:339-356` | a batch rendered under a fresh token is numbered from one and satisfies what the hint needs |
| `ContactHints.SortSorts` | `src/cases/contact-format.js:340-341` | every entry is shown once, the most urgent first and then the oldest |
| `ContactHints.ShowSays` | `src/cases/contact-format.js:342-356` | what needs the app is only announced where replies are not the owner's own or its text would be cut; what is announced shows no options, anything else the first that there is room for |
| `ContactHints.HintsSay` | `src/cases/contact-format.js:363-370` | the footer has a hint for the first two of the items that can be answered and are no briefing, or for the only one |
| `ContactHints.AppQuestionsAreOnlyAnnounced` | `src/cases/contact-format.js:339-497` | no reply ever picks an option of a question that is only announced; text reaches one only in a line that names a token, or as the whole of a reply tied to that single item |
| `ContactHints.TextReachesExactlyWhen` | `src/cases/contact-format.js:439-497` | a word sent with the number of an item without options reaches it as text if and only if the number has at most two digits or is left out and no other item has that option |
| `ContactHints.AnnouncedTakesYes` | `src/cases/contact-format.js:339-497` | the reply that shows it: an approval announced alone, and yes sent with the token |
| `BudgetRuns.ReachedIsPrefix` | `src/cases/budget.js:93-99` | the reached thresholds are the first of 50, 80 and 100, exactly those the ratio reaches |
| `BudgetRuns.CrossedIsAlwaysAPrefix` | `src/cases/budget.js:44-146` | over any run the stored thresholds are a prefix of 50, 80, 100 |
| `BudgetRuns.ReportsBalance` | `src/cases/budget.js:93-146` | over any run, limit changes and new days included, reports less withdrawals of a threshold are whether it is stored now |
| `BudgetRuns.ReportedOncePerPeriod` | `src/cases/budget.js:93-146` | with fixed limits, on one day and without refunds, a threshold is never withdrawn and is reported exactly once if it comes to be crossed |
| `BudgetRuns.SpentIsTheSum` | `src/cases/budget.js:101-124` | after n charges of a day `spent` differs from the true sum by at most n halves of 1e-8; a clock going back never starts the day over |
| `BudgetRuns.RoundIsNear` | `src/cases/budget.js:13-13` | rounding moves an amount by at most half of 1e-8 |
| `BudgetDays.RoundsToNearest` | `src/cases/budget.js:13-13` | an amount is rounded to the nearest multiple of 1e-8, a half away from zero |
| `BudgetDays.ReachesExactlyWhen` | `src/cases/budget.js:77-99` | a threshold is reached if and only if so much of the limit is spent, or so much of the time to the deadline is over |
| `BudgetDays.SettlingSays` | `src/cases/budget.js:44-135` | a charge or a reconcile goes on from what was spent, or from nothing where a day begins; exactly the thresholds reached now stand crossed, and exactly those of them are reported that did not, all of them where a day begins |
| `BudgetDays.LaterDayStartsOver` | `src/cases/budget.js:66-74` | a later day starts a daily count over: the stored day becomes today, the rounded charge alone is spent, and each threshold it reaches is reported again |
| `BudgetDays.SpentOfTheDay` | `src/cases/budget.js:44-135` | over a run that spans days, what is spent of a daily limit is within n roundings of the n charges since the first operation of the latest day |
| `BudgetDays.GrantSays` | `src/cases/budget.js:164-169` | a grant is remembered once, in the day that is begun if it is a later one, and reports nothing |
| `BudgetFiles.BudgetFile.Charge` | `src/cases/budget.js:101-124` | one category's entry takes the step, the others are untouched, and the newly crossed thresholds are returned |
| `BudgetFiles.BudgetFile.Reconcile` | `src/cases/budget.js:126-135` | every category is settled, and exactly those with something to report are returned |
| `BudgetFiles.BudgetFile.Status` | `src/cases/budget.js:137-146` | shows what settling would give and keeps nothing of it |
| `BudgetFiles.BudgetFile.RecordGrant` | `src/cases/budget.js:164-169` | remembers the grant once, in a day's entry that is open |
| `ContactInboxRuns.NothingIsLost` | `src/cases/contact.js:588-648` | over any interleaving of appends, drains, failed rewrites and crashes every answer is applied, refused, dropped or waiting, once for each time it came and once more for each time a drain that had judged it did not write its file |
| `ContactInboxRuns.JudgedOnceExactlyWhen` | `src/cases/contact.js:588-648` | every answer is accounted for exactly once if and only if no drain of the run ends unwritten after a line of it was gone |
| `ContactInboxRuns.JudgedTwice` | `src/cases/contact.js:602-647` | the run that shows it: an answer is applied, the rewrite fails, and the next drain applies it again |
| `ContactInboxRuns.RewriteKeepsTheRest` | `src/cases/contact-state.js:236-246` | the rewritten file is the kept lines in order and then everything appended since the snapshot |
| `ContactInboxSteps.JudgeSays` | `src/cases/contact.js:602-641` | a line is applied, refused, dropped, kept as it is or kept with one more attempt, each exactly when its outcome and its earlier failures say so |
| `ContactInboxSteps.NextSays` | `src/cases/contact.js:602-641` | one turn of a drain keeps or drops exactly its next line and marks a change unless the case was busy |
| `ContactInboxSteps.FinishSays` | `src/cases/contact.js:642-648` | a drain that changed something writes the kept lines and all that came meanwhile; any other leaves the file |
| `ContactInboxRuns.AppendAddsExactlyWhen` | `src/cases/contact-state.js:209-213` | an append adds its line and keeps the others if and only if the file ends with a newline, or what follows the last one was no line and still makes the new one |
| `ContactInboxRuns.GluedLinesAreLost` | `src/cases/contact-state.js:209-213` | where two values on a line do not parse, an append to a line that lost its newline loses both |
| `ContactInboxTries.GoneAfterFiveFailures` | `src/cases/contact.js:616-632` | over every run, failed rewrites and crashes included, no line still to be seen to has failed five times |
| `ContactInboxTries.DroppedOnlyAfterFiveFailures` | `src/cases/contact.js:616-632` | over every run a well-formed answer is among the dropped only when applying it failed five times, counting those it came with |
| `ContactInboxTries.FifthFailureIsTheLast` | `src/cases/contact.js:616-632` | where every drain writes its file, an answer that came once waits no longer after its fifth failure |
| `ContactInboxTries.UnwrittenFailureIsForgotten` | `src/cases/contact.js:616-647` | where the rewrite fails the failure is forgotten with it |
| `ContactInboxFiles.EveryLineHasOneFate` | `src/cases/contact.js:602-647` | applied, refused, dropped and kept lines add up to the snapshot |
| `ContactInboxFiles.CountsSay` | `src/cases/contact.js:602-641` | applied, refused and dropped lines are each counted under their own fate |
| `ContactInboxFiles.StepsKeepTheSame` | `src/cases/contact.js:588-648` | judging lines step by step keeps exactly the lines that the loop keeps |
| `ContactInboxFiles.ContactInboxFile.AppendInbox` | `src/cases/contact-state.js:209-213` | the line goes at the end of the file as it is |
| `ContactInboxFiles.ContactInboxFile.InboxSnapshot` | `src/cases/contact-state.js:231-234` | the lines that parse, and the size of the file |
| `ContactInboxFiles.ContactInboxFile.RewriteInbox` | `src/cases/contact-state.js:236-246` | writes the kept lines and the rest of the file; an empty result leaves no file |
| `ContactInboxFiles.JudgeLine` | `src/cases/contact.js:602-641` | what becomes of one line |
| `ContactInboxFiles.DrainLines` | `src/cases/contact.js:602-647` | the lines kept and the counts; unchanged means nothing to rewrite |
| `RateLimits.TwentyAnHour` | `src/cases/contact.js:320-339` | of the acks that leave on a channel no more than twenty lie within any hour |
| `RateLimits.HeldBackOnlyAtTheCap` | `src/cases/contact.js:320-339` | an ack that is no refusal is held back only when twenty have left within the hour |
| `RateLimits.OneRefusalInTenMinutes` | `src/cases/contact.js:333-336` | no two refusals leave for a channel and sender within ten minutes |
| `RateLimits.LeavesExactlyWhen` | `src/cases/contact.js:320-339` | over every run an ack leaves if and only if fewer than twenty left on its channel within the hour and, for a refusal, none left for its sender within ten minutes |
| `RateLimits.FortyAMinute` | `src/approvals/service-wiring.js:55-79` | at most forty rejections are audited within any minute |
| `RateLimits.UnauditedOnlyAfterTwenty` | `src/approvals/service-wiring.js:58-79` | a rejection goes unaudited only when twenty were audited within the minute before it |
| `RateLimiters.AckBudget.BudgetAck` | `src/cases/contact.js:320-339` | the maps take the step and the ack goes out or is held back |
| `RateLimiters.RejectedAuditLimiter.Admitted` | `src/approvals/service-wiring.js:58-79` | the closure takes the step, and warns once a window |
| `LinkRpc.RunKeepsInv` | `src/approvals/link-rpc.js:26-162` | over every run the pending calls are exactly the unsettled ones, and no peer has more than maxPendingPerPeer of them |
| `LinkRpc.SettledAtMostOnce` | `src/approvals/link-rpc.js:56-66` | no call is settled twice, and a settled call stays as it was settled |
| `LinkRpc.OnlyThePeerAnswers` | `src/approvals/link-rpc.js:56-66` | only the called peer's answer with the call's id gives it a result |
| `LinkRpc.DisconnectClears` | `src/approvals/link-rpc.js:97-104` | a disconnect leaves no call to the peer pending and touches no other |
| `LinkRpc.ClosedForGood` | `src/approvals/link-rpc.js:150-159` | after a close nothing is ever pending and every later call ends as closed |
| `LinkRpc.CallSays` | `src/approvals/link-rpc.js:110-132` | a call waits if the link is open, its peer has room and it can be sent; else it ends at once, as closed, busy or offline, the first that holds |
| `LinkRpc.AnswerSays` | `src/approvals/link-rpc.js:56-66` | an answer settles exactly its call, with the peer's error if it names one and else with its result |
| `LinkRpc.EndingSays` | `src/approvals/link-rpc.js:97-159` | a disconnect ends exactly the calls to its peer, and a close all that wait, each as just that; every other stays as it was |
| `LinkRpcObjects.LinkRpcObject.CountInFlight` | `src/approvals/link-rpc.js:112-114` | the loop counts exactly the peer's pending calls |
| `LinkRpcObjects.LinkRpcObject.Call` | `src/approvals/link-rpc.js:110-132` | refused at once, or pending until settled |
| `LinkRpcObjects.LinkRpcObject.OnMessage` | `src/approvals/link-rpc.js:45-66` | an answer settles its call, anything else settles none |
| `LinkRpcObjects.LinkRpcObject.OnTimeout` | `src/approvals/link-rpc.js:120-123` | a timer ends what is still pending |
| `LinkRpcObjects.LinkRpcObject.OnDisconnect` | `src/approvals/link-rpc.js:97-104` | ends the peer's calls while going through the map |
| `LinkRpcObjects.LinkRpcObject.Close` | `src/approvals/link-rpc.js:150-159` | ends every call and closes the link |
| `SealPolicy.SealingStaysExactlyWhen` | `src/approvals/seal-policy.js:129-163` | once sealing() says yes it says yes ever after in this process, if and only if a device was there, the latch's path held something or a write was owed |
| `SealPolicy.UnreadableOnceIsForgotten` | `src/approvals/seal-policy.js:136-163` | with no device and no file, a path that cannot be read seals and the next look ends it |
| `SealPolicy.LatchedSurvivesRestarts` | `src/approvals/seal-policy.js:48-64` | with something at the latch's path a node seals over any run, restarts included |
| `SealPolicy.UnwrittenIsForgotten` | `src/approvals/seal-policy.js:133-134` | with nothing at the latch's path a restart can end sealing |
| `SealPolicy.CanSealMeansLatched` | `src/approvals/seal-policy.js:164-167` | who can seal must seal, has the latch on disk, and seals ever after |
| `SealPolicy.RecipientsMeanLatched` | `src/approvals/seal-policy.js:178-187` | keys are given out only by a trusted store with the latch on disk |
| `SealPolicy.HeldStays` | `src/approvals/seal-policy.js:136-156` | what makes a node seal is never undone by a look |
| `SealPolicy.LookSays` | `src/approvals/seal-policy.js:136-156` | a look writes the latch exactly when it must and can, and owes it exactly when it must and cannot |
| `SealPolicy.SealsExactlyWhen` | `src/approvals/seal-policy.js:160-163` | sealing() says yes if and only if a device is there, anything is at the latch's path, the path cannot be read, or a latch is owed |
| `SealPolicy.CanSealExactlyWhen` | `src/approvals/seal-policy.js:164-167` | canSeal() says yes if and only if the node has a box, a device is there, and the latch is on disk or can be written |
| `SealPolicy.RecipientsSay` | `src/approvals/seal-policy.js:178-187` | the keys given out are the devices' and the node's own, and none before the latch is on disk |
| `SealPolicy.Policy.LookNow` | `src/approvals/seal-policy.js:136-156` | the closure and the file take the step of a look |
| `SealPolicy.Policy.IsSealing` | `src/approvals/seal-policy.js:160-163` | yes while latched or while a device is there |
| `SealPolicy.Policy.MaySeal` | `src/approvals/seal-policy.js:164-167` | yes with an own box, a durable latch and a device |
| `SealPolicy.Policy.RecipientKeys` | `src/approvals/seal-policy.js:178-187` | the devices' keys and the node's own, or none |

## Left out

- Cryptography and encodings: signatures, key agreement, canonical JSON and base64url are abstract; hashes and encodings are taken to be injective.
- True multi-process races: the audit ledger's file lock and the case lock's stale takeover; appends of one ledger are serialized, and of other processes only "holds the lock" is an input.
- File ownership, links, modes, probes and the cache of the approver directory; a directory is trusted or not.
- PhoneApprovalRuns.ApprovalIsEarned: the device's active status holds when the response is accepted; the code does not check it again after the response's audit, and the approver set is no input of that step.
- Phone approval: best-effort audits and status messages to phones; request ids are a counter, which random ids are taken not to repeat.
- PhoneApprovers.PhoneApprover.OnResponseAudited: a request that something else ended during the response's audit is answered as finished, without saying by what.
- Verify pass: one case of one process; waiting for a lock is a repeated attempt; the settings and records that speak for or against a pass are flags; the calls a pass makes and its late charges are left out.
- Audit ledger: a failed fsync after a whole write is the caller seeing no entry.
- AuditLedgers.VerifyAuditSlice: a slice message of the wrong shape is one that cannot be written here; its own reasons are left out.
- ApproverOverlays.StagedRevokesHold: the service, the console and `device apply` have the same test-key setting; one staged file that cannot be read at a start is left out.
- Approver administration: record and message shape checks are one flag; the console's roll-back after a failed audit is left out.
- ApproverStores.ApproverStore.Receive: a message of the wrong shape has one reason, and a missing staging directory none.
- Fact ledger: ids are the canonical `f-NNNN` ones; value, unit, confidence, dates and query() are left out; the basis of an assert or unknown is only as good as the caller's, as `FactLedgerRuns.BasisHoldsExactlyWhenGiven` says.
- Jsonl.AppendIsOneStep: one process appends at a time; a value's encoding is taken to stay on one line and to decode to itself.
- Abandoned approaches: the length and plain-text checks of what is recorded are one flag, and the orientation's lines are left out.
- Reply parsing: lower-casing is that of ASCII; at which line of a mail the quoted history starts is an input, a predicate on its lines; the footer but for its hints, subjects, the case title as it is shown and the cut to a channel's length are left out.
- ContactHints.AppQuestionsAreOnlyAnnounced: that the text which reaches such a question is refused when it is applied (src/cases/contact.js:444-450) is not part of this model.
- Contact inbox: sizes count characters; raw lines that do not parse disappear uncounted when the file is rewritten; a read-only state, and the journal note of a dropped answer, are left out.
- Budgets: amounts are real numbers, so only the rounding to eight decimals is modelled; unpriced and local tokens and the parsing of limits are left out; a deadline is the instant its day ends.
- RateLimits.TwentyAnHour: for a clock that does not run back, as are the other limits; the phone app's and the desktop app's acks are not budgeted and never come to it.
- Link calls: a link's handlers for incoming calls and notifications; random ids are fresh.
- SealPolicy.LatchedSurvivesRestarts: for a latch that nothing outside the program deletes; the console's unseal command is left out.
- Electron, browser automation, channel adapters, prompts, settings, playbooks, wake-ups, questions and the mesh transport are not part of this model.

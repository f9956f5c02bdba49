# A verified model of the money paths of TollGate

TollGate sells internet access for Cashu ecash. This project models the parts of it whose
safety rests on invariants over long runs, in Dafny 4.11, and proves those invariants. It is
self-contained: `dafny verify dfyconfig.toml` checks every file.

Five groups of modules follow the program's own components.

* **The bearer port** (`Ledger`, `BearerPort`, `Recovery`, `PortInvariant`, `Restoration`,
  `PortRuns`, `PortConservation`, `PayeeSafety`, `StoreLoss`, `PayeeReuse`, `StaleHoldings`,
  `PortExamples`, `PortAnswers`, `TokenState`, `Blobs`): a wallet that holds
  outputs at several authorities, issues, swaps, pays out, loses its whole store and rebuilds it
  from a seed. `Authorities` and `Ports` are the two objects of the program, whose methods are
  proved equal to the value-level operations the theorems are about.
* **Sessions and tickets** (`Sessions`, `SessionMeter`, `SessionRuns`, `SessionTerms`,
  `SessionTickets`, and the object in `SessionStore`): a paid session moves between addresses and carries its meter.
* **Money coming in** (`LightningQuotes`, `LightningInFlight`, `LightningGrants`, `QuoteTables`;
  `ReceiveIntents`, `ReceiveSafety`, `ReceiveService`, `ReceiveOnce`, `ReceiveBacked`,
  `ReceiveGuards`; `OwedGrants`,
  `OwedMonitors`): each protocol is a state machine
  over any number of workers whose steps are the program's lock regions, and an object whose
  methods perform those lock regions.
* **Mint health** (`MintProbes`, `MintTracker`, and the object in `MintTrackers`): hysteresis with
  wrapping and saturating 8-bit counters over unbounded histories.
* **The wallet's evidence and transport** (`TokenEvidence`, `Sidecar`).

`Basics` holds the shared datatypes and `Words` the fixed-width integers. Amounts, counters and meters wrap exactly where the Go
program's registers do. History that the program does not keep - which session a handle was drawn
for, the readings behind a meter, how often a claim was applied - is carried beside the state and
never read by a step.

Where a promised property does not hold of the code, the code is modelled as it is, a lemma shows
an input for which it fails, and another says exactly when it holds:

* acquiring an output the wallet already holds (`PortExamples.HeldAcquired`;
  `PortInvariant.AcquireKeepsIff`, `StaleHoldings.AcquiringHeldBlocksSpending`);
* a derivation counter at its last 64-bit value (`PortExamples.CounterComesRound`;
  `PortInvariant.IssueIntoKeepsIff`, `PortInvariant.SpendKeepsIff`);
* naming a note twice in one swap (`Ledger.RepeatedInputCreatesValue`; `Ledger.SwapConserves`);
* going on after a recovery whose counters did not come back: some run overwrites what somebody
  was paid, or signed for, exactly unless the sweep met every index of the wallet and the
  recovered counter is past every payee (`PayeeReuse.PayeeOverwritten`;
  `StoreLoss.RestoredMayGoOnIff`, `PayeeSafety.MayGoOnIff`);
* a `Retry-After` of more seconds than a duration holds, which the code comment says can never
  give a negative wait (`MintProbes.NegativeWait`, `MintProbes.NonNegativeIff`);
* a note without a reference, for which the in-flight guard is off
  (`ReceiveSafety.EmptyReferenceTwoLive`, `ReceiveSafety.OneLiveCall`);
* an in-flight mark kept by a resubmission, which blocks the note even after its attempt was
  given up and it could be tried again (`ReceiveOnce.MarkKept`; `ReceiveSafety.OpenLeaks`,
  `ReceiveSafety.LookLeaks`, `ReceiveSafety.LeakBlocksForever`);
* having every attempt in the journal before money moves: a resubmission reads a prior intent's
  state twice, once without the lock, and goes on to an unrecorded call if the intent is given up
  in between (`ReceiveOnce.CallUnwritten`; `ReceiveSafety.StartsOnlyFresh`);
* serving a note at most once: serving and the journal entry are two lock regions, and a
  resubmission that has the note reconciled in between, or beside start-up, serves it again
  (`ReceiveOnce.ServedTwice`; `ReceiveOnce.ServedOnceIff`, `ReceiveOnce.NeverThrice`);
* a time claim whose window overflows a duration (`OwedGrants.WindowOverflows`;
  `OwedGrants.DeadlineIff`).

One more pair of results is about arbitrary histories rather than about a promise: the 8-bit
hysteresis counters of mint health could hide a failure after at least 253 aggressive failures on a
mint that is up. `MintProbes.WrappingIff` says for which histories exactly, and
`MintProbes.TwelveWindowsHideNothing` that twelve whole windows of the aggressive loop between two
answers to proactive probes do not make one.

## Model

| member | source | states |
|---|---|---|
| Ledger.SwapConserves | research/bearer-port-demo/authorities.go:192-245 | an accepted swap with new replacements, whatever the amounts, changes the unspent value by what it signed less what it consumed, which is what was named twice up to multiples of 2^64; while the sums fit a register value is conserved exactly when no worthwhile input is named twice |
| Ledger.SwapConservesModulo | research/bearer-port-demo/authorities.go:202-228 | with distinct inputs the balance test of wrapping sums conserves value modulo 2^64, and exactly when both sides agree as unbounded numbers |
| Ledger.ConsumeAllTotal | research/bearer-port-demo/authorities.go:231-239 | consuming inputs removes their recorded value, less what is named twice, which is nothing exactly when no worthwhile input is |
| Ledger.SwapExtends | research/bearer-port-demo/authorities.go:230-244 | a swap only adds to the log and the spend set: the inputs become spent, the replacements unspent at their amounts |
| Ledger.AcceptedInputs | research/bearer-port-demo/authorities.go:204-217 | the input check passes exactly when every input is of the right kind, issued and unspent |
| Ledger.RepeatedInputCreatesValue | research/bearer-port-demo/authorities.go:204-244 | a concrete swap that names one note twice turns 10 into 20 |
| Recovery.HorizonIsFirstGap | research/bearer-port-demo/port.go:359-387 | the sweep stops at the first run of eight unissued indices, at most eight times the issued ones away |
| Recovery.RecoverExact | research/bearer-port-demo/port.go:349-404 | for any authority memory, recovery fails and changes nothing if one authority is offline, and otherwise holds, in increasing index order, exactly the unspent outputs of the seed behind which no gap of eight starts |
| Recovery.RecoverCounter | research/bearer-port-demo/port.go:388-401 | the counter ends where it was or just past the last index met, as a 64-bit number, whichever is further |
| Recovery.RecoveredBalances | research/bearer-port-demo/port.go:356-403 | the reported map names exactly the authorities where something is held, with the balance the wallet then has there |
| Recovery.RecoveredIndices | research/bearer-port-demo/port.go:381-395 | exactly the recovered outputs are remembered, each with the index that derives it |
| Recovery.ForeignSeedRecoversNothing | research/bearer-port-demo/port.go:342-348 | a seed that signed nothing at an authority recovers nothing there |
| PortInvariant.IssueIntoKeepsIff | research/bearer-port-demo/port.go:133-155 | issuing keeps the wallet's books true exactly when its counter has not reached the last 64-bit value |
| PortInvariant.AcquireCreditsRecord | research/bearer-port-demo/port.go:166-207 | the credited amount is the authority's record of a live note, and the authority's total is unchanged |
| PortInvariant.AcquireKeepsIff | research/bearer-port-demo/port.go:177-207 | acquiring keeps the books true exactly when the note is not one the wallet already holds and its counter has not reached the last 64-bit value |
| PortInvariant.SpendKeepsIff | research/bearer-port-demo/port.go:216-277 | a spend, accepted or refused, keeps the books true exactly when its amount is refused or the counter has not reached the last 64-bit value |
| PortInvariant.SpendConservesIff | research/bearer-port-demo/port.go:216-277 | a spend conserves the authority's total exactly when the held amounts fit a 64-bit register, and always modulo 2^64 |
| PortInvariant.HeldPayable | research/bearer-port-demo/port.go:251-259 | in a true book everything held is accepted as the input of a swap |
| PortRuns.RunKeeps | research/bearer-port-demo/port.go:133-469 | over any run, losses of the store among its steps, holdings at every authority are the authority's unspent record of the wallet's derivation space, in index order |
| PortConservation.RunConservesValue | research/bearer-port-demo/authorities.go:142-245 | over any run an authority's unspent value changes by what it issued, exactly while that fits 64 bits; beyond that it is never more, and the same modulo 2^64 |
| PortConservation.RunExtends | research/bearer-port-demo/authorities.go:142-245 | over any run everything signed is new when it is signed, so nothing is signed twice; nothing signed changes its amount, and nothing spent becomes unspent |
| PortConservation.RunBalance | research/bearer-port-demo/port.go:417-422 | over any run the reported balance is the unspent value signed in the wallet's own derivation space |
| PortConservation.OthersUntouched | research/bearer-port-demo/port.go:133-277 | an operation changes no authority but its own, and a recovery changes none |
| Restoration.ResumedBooks | research/bearer-port-demo/port.go:349-469 | if the sweep meets every index signed for the wallet, the books it comes back with are true, whatever counters are persisted again |
| Restoration.ResumedOneByOne | research/bearer-port-demo/port.go:463-469 | persisting several saved counters after a recovery is persisting them one by one, none of them moving back |
| PayeeSafety.MayGoOnIff | research/bearer-port-demo/port.go:216-277 | a wallet with true books may go on - in no run does anybody lose a signed or consumed output or unspent value - exactly when at every authority each payee was paid below the counter, or at it while nothing is held |
| PortConservation.FreshWalletHonest | research/bearer-port-demo/port.go:41-51 | a new wallet starts with true books |
| StoreLoss.StoreLossIff | research/bearer-port-demo/port.go:349-434 | losing the store and recovering gives back the identical holdings exactly when no held output lies behind a gap of eight |
| StoreLoss.StoreLossLosesNothing | research/bearer-port-demo/port.go:133-434 | after any run that never left eight indices in a row unissued, store loss and recovery restore holdings and balance |
| StoreLoss.RestoredMayGoOnIff | research/bearer-port-demo/port.go:349-469 | a recovered wallet may go on exactly when at every authority the sweep met every index signed for the wallet and each payee was paid below the index where the sweep stopped, or at it while nothing is held |
| StoreLoss.PersistAfterRecovery | research/bearer-port-demo/port.go:349-469 | with counters persisted again that are no older than the lost ones, a wallet resumes with all its holdings, true books and every payee out of reach, at all authorities |
| PayeeReuse.PayeeOverwritten | research/bearer-port-demo/port.go:189-245 | a concrete run in which a recovered wallet overwrites a payee's unspent output of 10 by one of 5 |
| StaleHoldings.AcquiringHeldBlocksSpending | research/bearer-port-demo/port.go:177-277 | after a wallet acquired its own output, every funded spend at that authority is refused as consumed or unavailable and changes no authority, over any run without a recovery |
| StaleHoldings.RecoveryUnblocks | research/bearer-port-demo/port.go:349-404 | a recovery drops the stale holding: everything held afterwards is unspent |
| PortExamples.HeldAcquired | research/bearer-port-demo/port.go:177-207 | a concrete run: a wallet has 10 issued and acquires that very output; the port accepts it, reports 20 and can pay none |
| PortExamples.CounterComesRound | research/bearer-port-demo/port.go:133-155 | a concrete run: issuing at the last index brings the counter to 0, and the next issue makes an unspent output of 10 worth 7 |
| PortAnswers.SpendHandsOver | research/bearer-port-demo/port.go:216-277 | in a true book a spend answers with an output of the authority's kind and the amount asked, new to the authority and live there now, in the payee's derivation space and neither held nor remembered by the payer |
| PortAnswers.IssueHandsOver | research/bearer-port-demo/port.go:133-155 | an issue answers with the new live output it adds to what is held, remembered with its index |
| PortAnswers.SpendAnswers | research/bearer-port-demo/port.go:216-277 | in a true book a spend goes through exactly if its amount is positive and covered and the authority answers, and each refusal has its own error |
| PortAnswers.AcquireAnswers | research/bearer-port-demo/port.go:177-207 | an acquisition goes through exactly for a note not taken before, live at its authority, of its kind and at the attested amount; what the authority refuses has burned one index and nothing else |
| PortAnswers.AcquiredOnce | research/bearer-port-demo/port.go:181-207 | a note that was taken is refused from then on, without burning an index |
| PortAnswers.SwapAcceptedIff | research/bearer-port-demo/authorities.go:192-228 | a swap goes through exactly if the authority answers, there are inputs, all are live and of its kind, no replacement is for nothing and both sides agree in 64 bits; empty and zero amounts, unequal sums and silence have their own errors |
| PortAnswers.FirstRejected | research/bearer-port-demo/authorities.go:204-217 | the first input that cannot be swapped decides the error: unknown, or spent |
| PortAnswers.PersistExact | research/bearer-port-demo/port.go:463-469 | one counter ends where it was or at the new value, whichever is further; nothing else moves |
| PortAnswers.StoreIsGone | research/bearer-port-demo/port.go:427-434 | a lost store holds nothing and counts from 0; seed and authorities are as they were |
| TokenState.AttestationSound | research/bearer-port-demo/authorities.go:247-284 | SPENT means consumed; UNSPENT from an authority that does not guess means issued and not consumed |
| TokenState.CheckStateSound | research/bearer-port-demo/port.go:279-324 | in query, probe and none modes an answer is something the authority can vouch for when asked |
| TokenState.ProbeSound | research/bearer-port-demo/port.go:300-308 | a probe that succeeds met a live note, and one that answers SPENT a consumed one |
| TokenState.OptimisticUnspentIsNotExistence | research/bearer-port-demo/authorities.go:272-282 | a raw mint answers UNSPENT about an output it never signed |
| TokenState.RunHonest | research/bearer-port-demo/authorities.go:231-239 | over any run in which nobody reveals a foreign tag, every log holds only the tags its outputs derive |
| TokenState.CheckStateAnswers | research/bearer-port-demo/port.go:292-324 | an answer comes exactly where the declared mode can give one: never, for a known tag while the authority answers, or, where asking is spending, UNSPENT for a note that could be taken and SPENT for one taken or consumed before |
| TokenState.IssuedIsKnown | research/bearer-port-demo/authorities.go:142-153 | an authority that learns at issuance answers UNSPENT about what it signed; one that does not says UNKNOWN unless it guesses |
| TokenState.SwappedIsKnown | research/bearer-port-demo/authorities.go:230-284 | after an accepted swap whose inputs reveal their tags the answer about each is SPENT |
| TokenState.RevealedIsKnown | research/bearer-port-demo/authorities.go:155-164 | a revealed tag is answered for from then on; nothing is learned about an output that was not issued |
| Authorities.Authority.Issue | research/bearer-port-demo/authorities.go:142-153 | the object performs the issue the totals are about |
| Authorities.Authority.Reveal | research/bearer-port-demo/authorities.go:155-164 | a tag is learned only for an issued output |
| Authorities.Authority.Issued | research/bearer-port-demo/authorities.go:166-178 | offline, unknown, or the record with its spent flag |
| Authorities.Authority.Swap | research/bearer-port-demo/authorities.go:192-245 | all or nothing: a refusal, in the program's order of checks, leaves the authority as it was |
| Authorities.Authority.CheckStates | research/bearer-port-demo/authorities.go:247-284 | every answer, for whatever order the log is walked in, is one the log attests |
| Authorities.Authority.SetOffline | research/bearer-port-demo/authorities.go:136-140 | only the reachability changes |
| Ports.Port.Register | research/bearer-port-demo/port.go:60-65 | an authority is routed to by its name, whoever had it before, and appended to its kind |
| Ports.DecodedWasIssued | research/bearer-port-demo/port.go:81-124 | a decoded instrument carries the blob's kind, commitment and claim, was issued at its attested amount by an authority that was asked and answered, and has the tag that one has learned or the wallet can derive; otherwise none that answered had issued it |
| Ports.FirstVouches | research/bearer-port-demo/port.go:81-124 | it is attributed to the first authority in registration order that answers and has issued it |
| Ports.Port.Decode | research/bearer-port-demo/port.go:81-124 | the candidates of the kind are asked in registration order |
| Ports.Port.IssueInto | research/bearer-port-demo/port.go:133-155 | performs the issue of the value model |
| Ports.Port.Acquire | research/bearer-port-demo/port.go:177-207 | performs the acquisition of the value model, counter first |
| Ports.Port.AcquireRaw | research/bearer-port-demo/port.go:158-164 | decode, then acquire |
| Ports.Port.Spend | research/bearer-port-demo/port.go:216-277 | performs the spend of the value model, with its wrapping sums |
| Ports.Port.CheckState | research/bearer-port-demo/port.go:292-324 | answers as the declared mode allows |
| Ports.Port.SweepAuthority | research/bearer-port-demo/port.go:359-391 | the loop ends, finds the unspent outputs up to the first gap, and reports where it stopped |
| Ports.Port.Recover | research/bearer-port-demo/port.go:349-404 | performs the recovery of the value model |
| Ports.Port.PersistCounterBeforeExposure | research/bearer-port-demo/port.go:463-469 | the counter moves forward or not at all |
| Ports.Port.DestroyStore | research/bearer-port-demo/port.go:427-434 | everything but the seed is gone |
| Ports.Port.SumOutputs | research/bearer-port-demo/port.go:487-493 | the wrapping sum of the amounts |
| Ports.Port.BalanceByAuthority | research/bearer-port-demo/port.go:418-422 | the wrapping sum of what is held at an authority |
| Blobs.BlobRoundTrip | research/bearer-port-demo/instrument.go:78-109 | reading back what was written gives kind, commitment and amount exactly when the kind is known and the commitment free of the separator |
| Blobs.BlobInjective | research/bearer-port-demo/instrument.go:78-84 | such blobs are injective in kind, commitment, amount and claim |
| Blobs.AcceptedIsCanonical | research/bearer-port-demo/instrument.go:88-109 | whatever is accepted survives being written and read again |
| Blobs.SpelledIsAccepted | research/bearer-port-demo/instrument.go:88-109 | every known kind, bar, separator-free commitment, separator and 64-bit decimal number, with anything behind a further separator, is accepted for what it says |
| Blobs.AcceptedIsSpelled | research/bearer-port-demo/instrument.go:88-109 | nothing else is accepted, and every refusal is the same |
| Blobs.DecimalRoundTrip | research/bearer-port-demo/instrument.go:79-82 | a number is the value of its decimal form |
| TokenEvidence.CountDecides | src/tollwallet/tollwallet.go:668-671 | answers without a fault settle the question exactly when there are as many distinct ones as questions |
| TokenEvidence.Decide | src/tollwallet/tollwallet.go:636-672 | decides exactly on complete evidence, says spent exactly when some answer is, and otherwise reports the first fault in order |
| TokenEvidence.ComplaintTells | src/tollwallet/tollwallet.go:645-667 | a faulty answer is reported as not asked, given twice, pending or of no known state, in that order |
| TokenEvidence.CheckTokenSpent | src/tollwallet/tollwallet.go:612-673 | without error exactly when the asked values are distinct, each is answered once as spent or unspent, and nothing else is answered; and otherwise the first thing that went wrong, from a nil token to the first fault of the reply |
| Sidecar.PairingNeedsQuiet | src/tollwallet/sidecar.go:142-151 | a response answers the request just written exactly when nothing was left unread on the connection |
| Sidecar.CallDelivers | src/tollwallet/sidecar.go:119-174 | a money-moving call delivers at most one request: none if it reports not-connected, one otherwise; the response read is its own |
| Sidecar.RunDeliversOnce | src/tollwallet/sidecar.go:119-184 | over any run what the daemon received falls into one share per event: one copy of its own request for a money-moving call that did not fail cleanly, none for one that did, at most one per attempt for other calls |
| Sidecar.RunAnswersOwn | src/tollwallet/sidecar.go:119-184 | after any run an answered call read the answer to its own request, the last the daemon received |
| Sidecar.CallReports | src/tollwallet/sidecar.go:119-174 | a call is done, refused or undecodable exactly as the last request it wrote was answered; ambiguous, with that request's number, exactly if it moves money and met no answer; and not connected otherwise |
| Sidecar.RunReports | src/tollwallet/sidecar.go:119-184 | and so after any run |
| Sidecar.TwoAttempts | src/tollwallet/sidecar.go:135-173 | which of its two attempts a call makes and which reach the daemon; a dial that fails ends the call |
| Sidecar.RunNumbers | src/tollwallet/sidecar.go:141-142 | over any run each request received has a number higher than all before, until the counter comes round |
| Sidecar.SidecarWallet.Call | src/tollwallet/sidecar.go:119-174 | the retry loop performs the call of the value model |
| Sidecar.SidecarWallet.ShutdownConn | src/tollwallet/sidecar.go:176-184 | closes the connection and forgets what was unread |
| MintProbes.WrappingIff | src/merchant/mint_health_tracker.go:550-583 | the reachable bit computed with wrapping 8-bit counters is, all along a history, the one unbounded counting gives exactly when no proactive failure due to take the mint down wraps the count below the threshold |
| MintProbes.TwelveWindowsHideNothing | src/merchant/mint_health_tracker.go:262-293 | no history in which aggressive probing fails at most twelve whole windows long between two answers to proactive probes hides a failure |
| MintProbes.RemovedOnThirdFailure | src/merchant/mint_health_tracker.go:574-582 | a proactive probe takes a reachable mint down exactly when it fails after two or more failures in a row, and there are no more than two unless aggressive probing failed on a mint that was up |
| MintProbes.FailuresAreTheLast | src/merchant/mint_health_tracker.go:574-579 | the failures counted are the most recent answers |
| MintProbes.ThrottlingNeverRemoves | src/merchant/mint_health_tracker.go:562-573 | 429 answers alone never take a mint down |
| MintProbes.WrapShowsUnderAggression | src/merchant/mint_health_tracker.go:663-675 | among arbitrary histories, 255 aggressive failures on a reachable mint hide the next proactive one |
| MintProbes.PersistentIff | src/merchant/mint_health_tracker.go:762-816 | for arbitrary times, demotion is exactly enough throttled answers since the last OK one, the first of them later than it, despite saturation |
| MintProbes.PersistentIffThrottled | src/merchant/mint_health_tracker.go:762-806 | with strictly increasing pass times the clock drops out of that condition |
| MintProbes.WaitHonoured | src/merchant/mint_health_tracker.go:389-398 | a mint is left alone for exactly the wait its last answer asked for |
| MintProbes.RetryAfterIff | src/merchant/mint_health_tracker.go:825-850 | the wait granted is the one asked for, clamped to the cap, exactly unless the seconds overflow and wrap below the cap |
| MintProbes.NonNegativeIff | src/merchant/mint_health_tracker.go:817-850 | the wait is negative exactly when the seconds overflow and wrap to a negative duration |
| MintProbes.NegativeWait | src/merchant/mint_health_tracker.go:832-836 | 9223372037 seconds give a negative wait |
| MintTracker.CountIsCardinality | src/merchant/mint_health_tracker.go:585-590 | counting along a configuration without repeats counts the reachable set |
| MintTracker.CountAlwaysTrue | src/merchant/mint_health_tracker.go:400-425 | over every run of passes and failed payments the cached count is the true number of reachable mints |
| MintTracker.EmptinessAnnounced | src/merchant/mint_health_tracker.go:585-609 | the set-changed callback fires exactly when the number changes, so no change between empty and nonempty is missed, whoever sees it first |
| MintTracker.SwapUnannounced | src/merchant/mint_health_tracker.go:592-609 | a pass in which one mint goes down and one comes up fires nothing |
| MintTracker.RecordIsHistory | src/merchant/mint_health_tracker.go:444-712 | over every run each mint's record is a function of its own history |
| MintTracker.ReachableIsHysteresis | src/merchant/mint_health_tracker.go:522-583 | over every run a mint is reachable exactly when unbounded counting of its history says so, unless the wrap hides a failure in it |
| MintTracker.DemotionIsHistory | src/merchant/mint_health_tracker.go:762-806 | over every run a mint is demoted exactly by its throttled answers since its last OK one |
| MintTracker.AdvertisedIsReachable | src/merchant/mint_health_tracker.go:350-387 | only reachable mints are advertised, some whenever any is reachable, and throttled ones only when all reachable ones are |
| MintTracker.AdvertisedInOrder | src/merchant/mint_health_tracker.go:350-387 | the advertisement keeps the order of the configuration and names no mint twice |
| MintTracker.FirstReachableExact | src/merchant/mint_health_tracker.go:592-609 | over every run the first-reachable callback fires in a pass after boot exactly if it ends with a mint reachable and none before it did |
| MintTracker.FirstReachableOnce | src/merchant/mint_health_tracker.go:592-609 | and so once at most |
| MintTrackers.MintHealthTracker.RunInitialProbe | src/merchant/mint_health_tracker.go:444-516 | mints the budget did not reach stay unlearned; no callback fires |
| MintTrackers.MintHealthTracker.RunProactiveCheck | src/merchant/mint_health_tracker.go:522-609 | mints inside their own wait are skipped and learn nothing; the rest take the step of the value model |
| MintTrackers.MintHealthTracker.RunAggressiveCheck | src/merchant/mint_health_tracker.go:629-712 | as above, and reports whether a mint that was down came up |
| MintTrackers.MintHealthTracker.MarkUnreachable | src/merchant/mint_health_tracker.go:400-425 | a failed payment takes a mint down, counts it out and fires the callback, exactly if it was up |
| MintTrackers.MintHealthTracker.ProbeDue | src/merchant/mint_health_tracker.go:392-398 | due exactly without a wait or once it is over |
| MintTrackers.MintHealthTracker.GetAdvertisedMintConfigs | src/merchant/mint_health_tracker.go:362-387 | the advertised list of the value model |
| SessionMeter.MovedMetered | src/merchant/session_ticket.go:441-466 | a rebind carries the sum of the peaks of all earlier attachments and starts the new one at nothing |
| SessionMeter.MeteredTotal | src/merchant/merchant.go:955-964 | the meter is the exact total of the peaks modulo 2^64 |
| SessionMeter.HandlesUnique | src/merchant/session_ticket.go:290-297 | no two addresses hold sessions with the same handle |
| SessionMeter.RunKeeps | src/merchant/session_ticket.go:270-528 | in every reachable state a handle names one session, is attached to its address, and every meter is the sum of its peaks |
| SessionRuns.RunContinues | src/merchant/session_ticket.go:363-472 | over any run a living session keeps its handle and history, its total never decreases, and its terms change only by a purchase at its own address |
| SessionRuns.MeterNeverDecreases | src/merchant/merchant.go:943-981 | while the true total fits 64 bits the meter is that total and never walks backwards |
| SessionRuns.RunAllotment | src/merchant/merchant.go:2615-2649 | over any run a living session's allotment grew by exactly what was bought for it |
| SessionRuns.PurchaseExtendsIff | src/merchant/merchant.go:2608-2649 | a purchase extends the session at its address exactly when that one is not spent, and otherwise starts a new one |
| SessionRuns.SurvivorBelowAllotment | src/merchant/merchant.go:904-941 | a bytes session survives a sweep with a reading and a confirmed close exactly when its total use is below its allotment |
| SessionRuns.IssuedIsClaimable | src/merchant/session_ticket.go:270-323 | an issued ticket names the session at its own address until the ticket ends |
| SessionRuns.RemainderSurvivesRetirement | src/merchant/merchant.go:124-161 | however often a departed client's record, of bytes or of time not run out, is up for retirement before its ticket ends, and whatever other clients buy, issue, move or use meanwhile, the ticket still moves the same session, terms and whole meter included |
| SessionRuns.RebindMovesItsSession | src/merchant/session_ticket.go:376-528 | a successful rebind moves the one session its handle was drawn for, loses only the destination's own, and never from an authenticated address |
| SessionRuns.FailedRebindMovesNothing | src/merchant/session_ticket.go:496-511 | a failed rebind moves nothing; only a gate that does not open drops the destination's session |
| SessionRuns.TicketMovesOnlyItsSession | src/merchant/session_ticket.go:425-433 | a ticket can only ever move the session it was issued for, even after expiry and re-purchase at the same address |
| SessionRuns.StepKeepsDead | src/merchant/merchant.go:119-161 | a session that is gone stays gone |
| SessionTerms.PurchaseTerms | src/merchant/merchant.go:2615-2649 | every purchase, first or not, leaves a session that starts in its second, with the register of what was unspent and what was bought, in the old metric or, if new, in the one bought, and the rest of an old record as it was |
| SessionTerms.PurchaseFails | src/merchant/lightning.go:731-747 | a purchase fails exactly if its gate does not open, and then changes nothing |
| SessionTerms.PurchaseLasts | src/merchant/merchant.go:2430-2465 | a time session a purchase left has run out exactly from its start plus its allotment on; until then, and a data session always, it is answered for as it was left |
| SessionTerms.GateClosesInTime | src/merchant/lightning.go:749-756 | the gate of a time session closes within its last second |
| SessionTerms.EnforceExact | src/merchant/merchant.go:881-941 | a sweep notes the reading in usage and nothing else, and drops the record exactly if its total use is not below its allotment and the close is confirmed |
| SessionTerms.EnforceNothing | src/merchant/merchant.go:881-903 | without a reading, or for a session not of bytes, a sweep changes nothing |
| SessionTerms.RetireExact | src/merchant/merchant.go:150-161 | a record is retired exactly if no ticket for it is good any more |
| SessionTerms.LookupExact | src/merchant/merchant.go:2430-2465 | a lookup answers with the record as it is unless its time is over, and then the record is gone |
| SessionTickets.IssueTells | src/merchant/session_ticket.go:270-323 | ticket, record and attachment end together, the time to live after now; the handle is the session's own if it has one; a spent or missing session gets no ticket |
| SessionTickets.MovesOnlyInTime | src/merchant/session_ticket.go:174-261 | a rebind succeeds only before its ticket and its attachment have ended |
| SessionTickets.BadTicketRefused | src/merchant/session_ticket.go:154-181 | a forged, malformed or ended ticket is refused as such and changes nothing |
| SessionTickets.LostAttachmentRefused | src/merchant/session_ticket.go:249-261 | a good ticket without a live attachment is refused as unknown or expired, and the expired attachment is dropped |
| SessionTickets.GoodTicketAnswers | src/merchant/session_ticket.go:376-528 | a good ticket with a live attachment moves its session exactly if the old address is the one asked for or not in use, still has that session, and the gate opens; each refusal has its own error |
| SessionTickets.MoveTouches | src/merchant/session_ticket.go:470-528 | a move writes address and second into the attachment, one whose gate does not open the second alone |
| SessionTickets.TicketRunsOut | src/merchant/session_ticket.go:154-181 | over any run, once its time to live is over a ticket is refused as expired and changes nothing, whatever happened to its session |
| SessionTickets.TicketGoodUntil | src/merchant/session_ticket.go:270-528 | and until then it moves the remainder of a client that is gone, whatever others do |
| SessionStore.EvictedForRoom | src/merchant/session_ticket.go:233-246 | a live attachment is dropped only when at least 4095 others, none older, are kept |
| SessionStore.CapExceededOnlyNow | src/merchant/session_ticket.go:233-246 | the store outgrows its cap only when everything the sweep kept was attached in the current second |
| SessionStore.Merchant.SweepLocked | src/merchant/session_ticket.go:227-247 | nothing expired is left, oldest dropped first, no more than the cap demands |
| SessionStore.Merchant.IssueSessionTicket | src/merchant/session_ticket.go:270-323 | performs the issue of the value model after such a sweep |
| SessionStore.Merchant.FindAttachment | src/merchant/session_ticket.go:154-261 | verifies in the program's order; an expired attachment is dropped on the way |
| SessionStore.Merchant.RebindSession | src/merchant/session_ticket.go:376-528 | performs the rebind of the value model, roll-back included |
| SessionStore.Merchant.AddAllotment | src/merchant/merchant.go:2615-2649 | extends a live session or replaces a spent one |
| SessionStore.Merchant.GrantSessionAccess | src/merchant/lightning.go:731-747 | a purchase whose gate does not open leaves no trace |
| SessionStore.Merchant.EnforceBytesSession | src/merchant/merchant.go:881-941 | notes the reading and retires a spent session only once its gate is confirmed closed |
| SessionStore.Merchant.RetireSessionOrParkForTicket | src/merchant/merchant.go:150-161 | retires a record unless a live ticket can still claim it |
| SessionStore.Merchant.GetSession | src/merchant/merchant.go:2430-2465 | a spent time session is retired by the lookup |
| LightningQuotes.AdmitsDrops | src/merchant/lightning.go:258-279 | room is made only by dropping ungranted records not in work and at least five minutes old; an admitted client has room for one more |
| LightningQuotes.ReapedDrops | src/merchant/lightning.go:268-273 | the eviction loop drops evictable records only, down to the watermark at most |
| LightningQuotes.AlwaysBounded | src/merchant/lightning.go:142-182 | over any sequence of requests handled one at a time, with grants and clean-ups between, at most 128 records and at most 3 ungranted ones per client |
| LightningInFlight.AlwaysWithin | src/merchant/lightning.go:142-182 | with up to k requests between admission and insertion at any time, m of them one client's, at most 127 + k records and at most 2 + m ungranted ones of that client, those still waiting included |
| LightningQuotes.FreshQuoteSurvives | src/merchant/lightning.go:213-227 | for five minutes a quote survives every request, eviction, clean-up, grant and deletion, so a payment for it is recognised |
| LightningQuotes.StaleIsGone | src/merchant/lightning.go:511-560 | a quote half an hour old, five minutes past its invoice or served ten minutes ago is gone for good after the first clean-up or request that does not find it in work |
| LightningQuotes.InvoiceRunsOut | src/merchant/lightning.go:526-560 | an unserved quote under half an hour old is stale exactly five minutes past its invoice, which counts from creation if given in seconds and is a Unix time if too large for that |
| LightningQuotes.EvictableFrom | src/merchant/lightning.go:213-227 | a quote may have to make room exactly from five minutes on, unless served or in work |
| LightningGrants.GrantedAtMostOnce | src/merchant/lightning.go:652-715 | under every interleaving each quote has at most one worker between claim and record and at most one grant |
| LightningGrants.ProcessingIffInWork | src/merchant/lightning.go:652-710 | a record is marked as processing exactly while some worker has it, however its grant fails |
| LightningGrants.RecordsTellTheTruth | src/merchant/lightning.go:652-711 | a record not in work says granted exactly when its one grant happened, and carries the allotment of that grant |
| LightningGrants.GrantedFor | src/merchant/lightning.go:652-690 | access is granted for the amount the mint issued, or the quote's own if it was issued before |
| QuoteTables.GrantWrites | src/merchant/lightning.go:669-711 | a failed grant leaves the table as it found it; an applied one leaves the same quote, completed now with the allotment its amount comes to, and every other record as it was |
| QuoteTables.GrantAnswers | src/merchant/lightning.go:652-715 | not found, already handled, unissued, gate shut and applied, each exactly when |
| QuoteTables.AttemptIsARun | src/merchant/lightning.go:652-715 | an uninterrupted attempt is a run of the lock regions of one worker |
| QuoteTables.QuoteTable.CountActive | src/merchant/lightning.go:200-211 | the number of ungranted records of a client |
| QuoteTables.QuoteTable.EvictOldest | src/merchant/lightning.go:232-252 | drops the oldest eligible record, if there is one |
| QuoteTables.QuoteTable.AdmitLightningQuote | src/merchant/lightning.go:258-279 | performs the admission of the value model; the loop ends |
| QuoteTables.QuoteTable.CleanupStaleLightningQuotes | src/merchant/lightning.go:511-560 | drops exactly the stale records, never one in work |
| QuoteTables.QuoteTable.RequestLightningInvoice | src/merchant/lightning.go:117-195 | refusals in the program's order, those of address, amount and price before the table is touched; an invoice puts one record under the id the mint drew, whatever was there |
| QuoteTables.QuoteTable.EnsureLightningAccessGranted | src/merchant/lightning.go:652-715 | claim, mint, grant and record, or release |
| ReceiveSafety.OneLiveCall | src/merchant/merchant.go:307-333 | for a note with a reference two live calls are the same call, and its note is marked |
| ReceiveSafety.EmptyReferenceTwoLive | src/merchant/merchant.go:307-310 | without a reference two calls can be live at once |
| ReceiveSafety.StepOnward | src/merchant/receive_intent.go:161-222 | granted and owed are final and abandoned can only return to pending |
| ReceiveSafety.StartsOnlyFresh | src/merchant/merchant.go:1596-1626 | a call starts only in a step that finds the intent absent or abandoned, and is in the journal as pending exactly if that step opened the intent |
| ReceiveSafety.NoCallAfterFinal | src/merchant/merchant.go:1596-1626 | once a note is granted or owed no call for it ever starts again |
| ReceiveSafety.CallsAccounted | src/merchant/receive_intent.go:161-222 | the calls made for a note, a restored intent standing for one, are those not in the journal, its abandoned attempts and the one that was not |
| ReceiveService.RunStory | src/merchant/merchant.go:1596-1811 | over every run each note has one worker per part - its call, start-up, a resubmission - none after it has served; start-up has no call beside it; whoever is at the note keeps new calls out; and what was served is not pending but for the call that has yet to say so |
| ReceiveOnce.ServedOnceIff | src/merchant/merchant.go:1590-1811 | under every interleaving of lock regions, restarts included, a note whose calls are all in the journal is served - a session granted or a claim opened - at most once exactly when no reconciliation that began while another worker was at the note serves it together with that worker |
| ReceiveOnce.AloneServedOnce | src/merchant/merchant.go:1590-1811 | a note whose reconciliations all begin while nobody else is at it is served once at most |
| ReceiveOnce.NeverThrice | src/merchant/merchant.go:1590-1811 | no run serves a note three times |
| ReceiveOnce.OneIsResubmitted | src/merchant/merchant.go:1590-1811 | of two steps that serve a note one is the resubmission's; its calls together serve it once at most |
| ReceiveOnce.ServedTwice | src/merchant/merchant.go:1590-1811 | a concrete run in which a session is granted and, before the journal says so, a resubmission's reconciliation opens a claim: served two times, both found the intent pending |
| ReceiveOnce.ServedOnceAstray | src/merchant/merchant.go:1590-1811 | a concrete run in which a resubmission has the intent given up before the session is granted: served once, and the journal says abandoned |
| ReceiveOnce.MarkKept | src/merchant/merchant.go:1596-1624 | a concrete run after which a note given up by the mint's refusal is turned away at every submission |
| ReceiveOnce.CallUnwritten | src/merchant/merchant.go:1596-1637 | a concrete run in which a second look at an intent starts a call while the journal says abandoned |
| ReceiveSafety.OpenLeaks | src/merchant/merchant.go:1596-1624 | opening an intent leaves the mark behind exactly when the note is granted or owed |
| ReceiveSafety.LookLeaks | src/merchant/merchant.go:1596-1624 | a submission that met a pending intent leaves its mark behind exactly when its second look does not find the intent abandoned |
| ReceiveSafety.LeakBlocksForever | src/merchant/merchant.go:307-321 | such a mark blocks its note for as long as the process runs |
| ReceiveSafety.LeaksOnlyThere | src/merchant/merchant.go:326-333 | in no other step does a mark lose its owner without being released |
| ReceiveBacked.NothingForNothing | src/merchant/merchant.go:1654-1811 | over every run a note comes to be called granted or owed only once it was served, or while its claim is about to be opened |
| ReceiveBacked.AnswerNotLost | src/merchant/merchant.go:229-275 | a call on the wire stays there, its deadline passed or not, until its answer is taken up |
| ReceiveBacked.SuccessServed | src/merchant/merchant.go:1640-1811 | a success in time grants a session, and the journal says so if the intent is still pending |
| ReceiveBacked.SuccessOwed | src/merchant/merchant.go:1790-1798 | a success whose session cannot be opened leaves an open claim and an owed intent |
| ReceiveBacked.LateSuccessOwed | src/merchant/merchant.go:229-275 | so does a success after the deadline, and then the mark is released |
| ReceiveBacked.DoubtDecided | src/merchant/merchant.go:239-255 | a late answer in doubt is decided by the mint's evidence, and without it stays pending |
| ReceiveGuards.ReceiveGuard.BeginReceive | src/merchant/merchant.go:307-321 | marks a note for the first caller only |
| ReceiveGuards.ReceiveGuard.EndReceive | src/merchant/merchant.go:326-333 | releases the mark |
| ReceiveGuards.ReceiveGuard.BeginReceiveIntent | src/merchant/receive_intent.go:161-204 | opens an intent, or reports a prior one that was not abandoned |
| ReceiveGuards.ReceiveGuard.ResolveReceiveIntent | src/merchant/receive_intent.go:207-222 | only a pending intent is resolved |
| ReceiveGuards.ReceiveGuard.LookUpPending | src/merchant/receive_intent.go:247-260 | the first lock region of a reconciliation: only a pending intent is reconciled |
| ReceiveGuards.ReceiveGuard.ConcludeReconciliation | src/merchant/receive_intent.go:261-286 | evidence resolves an intent that is still pending; a note found spent and priced gets its claim however the intent was resolved meanwhile |
| OwedGrants.AppliedAtMostOnce | src/merchant/owed_grant.go:337-383 | under every interleaving a claim is applied at most once; granted records were applied, expired ones never |
| OwedGrants.NeverAppliedAfterExpiry | src/merchant/owed_grant.go:318-356 | no claim is applied after its record was marked expired, whatever takes its place |
| OwedGrants.OwedIffMonitored | src/merchant/owed_grant.go:207-235 | a reference is owed exactly while one monitor serves it, and never two |
| OwedGrants.StepSettled | src/merchant/owed_grant.go:188-235 | a settled record changes only when a new claim takes its place |
| OwedGrants.DeadlineIff | src/merchant/owed_grant.go:260-265 | a time claim lapses with the time paid for exactly unless that overflows a duration |
| OwedGrants.WindowOverflows | src/merchant/owed_grant.go:260-265 | the first allotment too long for a duration lapses before it was bought |
| OwedGrants.DataClaimLasts | src/merchant/owed_grant.go:260-265 | a data claim of whatever size lapses a day after it was made |
| OwedGrants.ClaimRecorded | src/merchant/owed_grant.go:188-235 | a claim is recorded exactly if it has a reference not owed already; it starts owed, with its own deadline and monitor |
| OwedGrants.NeverExpiredEarly | src/merchant/owed_grant.go:270-332 | over every run a claim is marked expired only after a monitor found its deadline past |
| OwedMonitors.AttemptsBounded | src/merchant/owed_grant.go:270-306 | at most one attempt per 5 seconds of the window, and one more; per 30 seconds from the fourth on |
| OwedMonitors.BackoffExact | src/merchant/owed_grant.go:294-299 | the waits are 5, 10, 20 and then 30 seconds |
| OwedMonitors.AttemptIsARun | src/merchant/owed_grant.go:337-383 | an uninterrupted attempt is a run of the lock regions of a monitor |
| OwedMonitors.OwedBook.RecordOwedGrant | src/merchant/owed_grant.go:188-235 | a claim already owed is not recorded twice; otherwise a monitor is started |
| OwedMonitors.OwedBook.ExpireOwedGrant | src/merchant/owed_grant.go:318-332 | only an owed record expires |
| OwedMonitors.OwedBook.EnsureOwedGrantGranted | src/merchant/owed_grant.go:337-383 | one attempt: granted, or counted as failed and free again |
| OwedMonitors.OwedBook.MonitorOwedGrant | src/merchant/owed_grant.go:270-306 | the loop stops; it sat down to every attempt before the deadline and all but the last failed; the record is granted exactly when the last worked, and otherwise expired with the deadline past; a reference that is gone, settled or in work is left alone |

## Left out

- Cryptography: commitments and tags are taken to be injective in seed, index and authority, ticket envelopes to be a payload and a validity verdict, random handles and mint quote ids never to repeat.
- In the bearer port, other holders sign only in their own derivation spaces and never name a note twice, and no other wallet uses the seed; the test helper that marks an output spent is not modelled.
- Units of the bearer port: an instrument's unit is carried by the program and never compared, so the model has none.
- The sweep over authorities goes in sorted order in the program and in any order here; the index it asks about is unbounded here, while recovery lies below eight times the number of issued outputs.
- The total over all authorities, `Balance`, and the listing of capabilities.
- Commitments in `Ports` are abstract while `Blobs` treats them as text; the text form of a commitment has only hexadecimal digits, so it is free of separators.
- A write on the sidecar connection that fails is taken not to have delivered the request, as the program takes it; and the daemon writes one response line per request.
- Log lines, message wording, HTTP handlers, CORS, rate limiters, configuration reloads: routing and reporting.
- Disk: the stores of quotes, intents and owed claims, and what a restart makes of them. Snapshot and save are two steps in the program, so nothing is claimed about what is on disk.
- The valve and the NoDogSplash control program: gate operations may succeed or fail and readings may be absent or take any value.
- Sessions: a purchase, a rebind, a sweep and a retirement are each one step here; the program releases its lock around the gate operations. Addresses are taken as already normalised. The history of expired sessions, the baselines and the grace counter of unreadable sessions are not modelled.
- Mint health: both callbacks are taken to be registered before the first pass, and the configuration is fixed with distinct URLs.
- The outbound quote budget toward a mint is a yes-or-no answer, and pricing fails only where an invoice is asked for, a note is reconciled or a late success comes in.
- PortRuns.RunKeeps: the wallet acquires only notes it does not hold, no counter reaches its last value, and the store is lost only while authorities answer, a sweep meets every index of the wallet and the counters it comes back with are past its payees; AcquireKeepsIff, IssueIntoKeepsIff, SpendKeepsIff and RestoredMayGoOnIff say what happens otherwise.
- StoreLoss.RestoredMayGoOnIff: about recoveries that went through; while an authority is offline a recovery changes nothing, which is Recovery.RecoverExact.
- LightningQuotes.AlwaysBounded: stated for requests handled one at a time; what requests handled at the same time can come to is LightningInFlight.AlwaysWithin.
- ReceiveSafety.OneLiveCall: says nothing about serving once per note, because the mark is dropped before the intent is resolved; that is ReceiveOnce.ServedOnceIff. A note that serialises for its reference is taken to serialise for the journal too.
- ReceiveOnce.ServedOnceIff: counts services of one process, for notes whose calls are all in the journal; a call that is not, ReceiveOnce.CallUnwritten, keeps nobody out, and what the mint answers is free here; that an open claim is applied at most once is OwedGrants.AppliedAtMostOnce. Start-up may see to several restored notes at a time here and sees to one after the other in the program.
- Whether a note was spent by a call of ours: the mint says spent or unspent about it, and a reconciliation opens a claim for any note found spent, also one spent elsewhere.
- LightningQuotes.FreshQuoteSurvives: the copy on which a monitor decides to delete a quote is taken to be of the quote on the table, since ids never repeat, and to have its completion time if it has one, since LightningGrants.GrantedAtMostOnce.
- OwedMonitors.OwedBook.MonitorOwedGrant: other workers do not touch the record while the loop runs; that they cannot is OwedGrants.OwedIffMonitored.
- Payouts, melts and wallet internals of the Cashu libraries.

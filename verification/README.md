# Bahia: verified models of its state machines

Bahia is a control plane that keeps its state as signed Nostr events on relays. This project
models the parts of it where many steps, retries, failures and restarts meet, and proves what
they keep:

- reading all events a relay stores, page by page, when the relay caps its answers and chooses
  among events of one second (`StoredEvents`, `HistoryPages`, `LeakScan`);
- the delivery ledger of the F74a migration: receipts, relay policies, restarts under other
  policies, proof by inspection or by a fresh publish (`F74aPolicy`, `F74aLedger`);
- the Hive-CI policy hydrator: a signal, a one-slot channel and a retry loop that run
  concurrently (`Hydrator`);
- planning and delivering deletion requests for leaked events (`LeakPlan`, `LeakDelivery`);
- the sidecar supervisor and the signer it owns (`Supervisor`);
- the sanitiser of rollback Compose files: a line scanner (`ComposeImage`), its plan
  (`BackupTree`) and a transaction over files with an undo list (`BackupSwap`);
- publishing events to quorum in order, what of a history needs it, and the run from reading
  every relay to a nil error (`QuorumPublish`, `AssistantHistory`, `AssistantReencrypt`);
- the windowed inventory of the SQL outbox (`OutboxInventory`).

`Sorting` is the library sort the tools call, `Common` what several modules share. Code that
updates state step by step is modelled by classes and methods with loops, each proved against a
function of its inputs or of the old state; the theorems are lemmas about those functions and
about runs. Failures of the outside world (a relay's answer, a failing rename, a signal at any moment) are parameters over which
the theorems quantify. Relay URL normalisation is an arbitrary function of strings.

`dafny verify dfyconfig.toml` checks everything.

## What turned out

Most promises hold as stated. Where one does not hold for all inputs, the exact condition is
proved:

- A history read without an error can be short. With no event stamped 1 that happens only if
  the relay's own cap is below the page limit and everything stored lies in one second that
  holds more than the cap (`HistoryPages.ReadGuarantees`), and every such history has a relay
  that reads it short (`HistoryPages.FoolingRelay`). An event stamped 1 silences the report of
  a crowded second.
- With no event stamped 1, `truncated` on a complete scan is raised exactly when some second holds
  a full answer, or all that is stored lies in one second (`LeakScan.ScanRelay`), also where
  nothing was missed (`LeakScan.TruncatedWhole`).
- `namesExactly` accepts a request that repeats an e tag and leaves a target unnamed; it is
  exact if and only if no e tag is repeated (`LeakPlan.AgreementIsExact`,
  `LeakPlan.RepeatedTagPasses`). Planned requests never repeat one.
- Rewriting a service's image is idempotent exactly when the new image is read back where it
  was put: not for an empty image, and not for one that begins with `#` at the indent of the
  services (`ComposeImage.RewriteAgain`, `ComposeImage.CommentImageIsLost`). Image ids are safe.
- A failed sanitising run gives back permission bits but not set-id and sticky bits, since only
  the lower nine mode bits are remembered; the tree is exactly restored if and only if no file
  moved by then had one (`BackupSwap.Sanitize`, `BackupSwap.SpecialBitsAreLost`). A Compose file
  with one service and a special bit is such a file (`BackupSwap.SpecialBitsInput`).
- A sanitised tree is as planned unless the manifest path is itself a planned file or a raw copy
  (`BackupSwap.SanitizedMeans`).
- A reload whose old runtime stops with an error leaves nothing running, although the log line
  says that the current sidecar is kept (`Supervisor.RuntimeSupervisor.Replace`).
- A chain of inventory windows is refused exactly if a full window that another follows ends at a
  row without a receive time or with an empty id (`OutboxInventory.Chain`,
  `OutboxInventory.RefusedChain`).

## Model

| member | source | states |
|---|---|---|
| `StoredEvents.WalkFreshPage` | cmd/bahia-assistant-reencrypt/history.go:202-228 | a page that brings something new lets a walk by `until` go on from its oldest event having passed only what it saw or what lies in overfull seconds |
| `StoredEvents.SeenPageIsOneSecond` | cmd/bahia-assistant-reencrypt/history.go:215-228 | a page of events already seen lies wholly in the second of the bound |
| `StoredEvents.SeenPageMisses` | cmd/bahia-assistant-reencrypt/history.go:215-228 | stepping past such a page leaves behind only events of a second that holds more than one answer, of which a full answer was seen |
| `StoredEvents.WalkSeenPage` | cmd/bahia-assistant-reencrypt/history.go:215-228 | the walk may go on one second further down |
| `StoredEvents.EmptyPageEndsWalk` | cmd/bahia-assistant-reencrypt/history.go:196-201 | an empty answer means nothing is stored at or below the bound |
| `HistoryPages.Absorb` | cmd/bahia-assistant-reencrypt/history.go:202-211 | adds the unseen events of a page once each, in page order |
| `HistoryPages.Advance` | cmd/bahia-assistant-reencrypt/history.go:212-228 | the loop variables after a page are those of the step function of the read |
| `HistoryPages.AlwaysReading` | cmd/bahia-assistant-reencrypt/history.go:178-230 | the invariant of the read holds after every request, for every honest relay, cap and choice among ties |
| `HistoryPages.ReadProgress` | cmd/bahia-assistant-reencrypt/history.go:178-230 | every request but the last leaves less: more events are seen, or as many and the bound is lower, and that only after a request that brought something |
| `HistoryPages.ReadGuarantees` | cmd/bahia-assistant-reencrypt/history.go:178-230 | a read fails exactly if its last request did; without error it holds stored events once each and misses only overfull seconds; with no stamp 1 it is complete except for the undetectable family, reports a crowded second exactly when there is one, and names such a second; at most two requests per stored event and one more |
| `HistoryPages.ReadsPlain` | cmd/bahia-assistant-reencrypt/history.go:178-230 | a relay that answers every request and stores neither a full second nor a stamp of 1 is read completely; an error means a request without an answer or a second that holds a full answer |
| `HistoryPages.Pages` | cmd/bahia-assistant-reencrypt/history.go:178-230 | the loop itself meets all of these guarantees, the error cases included |
| `HistoryPages.EndsOnce` | cmd/bahia-assistant-reencrypt/history.go:178-230 | a read has one last request and one result |
| `HistoryPages.RepeatedAnswerIsReadShort` | cmd/bahia-assistant-reencrypt/history.go:178-230 | a relay that repeats one answer of an undetectable history is read short without an error |
| `HistoryPages.FoolingRelay` | cmd/bahia-assistant-reencrypt/history.go:178-230 | every undetectable history has an honest relay from which the read returns one answer at the third request, without error and not complete |
| `LeakScan.Admit` | cmd/bahia-leak-delete/scan.go:93-116 | a page passes exactly when no event is newer than asked for, and then its events are merged by id, with the count of new ones and the oldest stamp |
| `LeakScan.Turn` | cmd/bahia-leak-delete/scan.go:85-134 | one turn of the scan loop is a step of the scan or leaves it with the right status |
| `LeakScan.AlwaysScanning` | cmd/bahia-leak-delete/scan.go:71-148 | the invariant of the scan holds after every request |
| `LeakScan.ScanProgress` | cmd/bahia-leak-delete/scan.go:71-148 | every request that goes on leaves less: more events are seen, or as many and the bound is lower; there are at most two per stored event |
| `LeakScan.ScanGuarantees` | cmd/bahia-leak-delete/scan.go:71-148 | what the scan claims at its last request is true |
| `LeakScan.SeenIsShown` | cmd/bahia-leak-delete/scan.go:85-134 | what the scan has gathered after any number of requests is exactly what those requests were answered with |
| `LeakScan.Walk` | cmd/bahia-leak-delete/scan.go:71-135 | the paging loop ends where the steps of the scan do, with their status, flag and events |
| `LeakScan.Listed` | cmd/bahia-leak-delete/scan.go:136-146 | the reported events are the map's, newest first, whatever order the map is ranged over |
| `LeakScan.ScanPages` | cmd/bahia-leak-delete/scan.go:71-148 | that loop ends with claims that are true, and reports exactly what it was shown |
| `LeakScan.ScanRelay` | cmd/bahia-leak-delete/scan.go:71-148 | the reported events are exactly those the requests were answered with, newest first; a complete scan misses only events of seconds with more than one answer and holds at least one answer of each; complete and not truncated means every stored event once; truncated exactly when a second alarms; incomplete exactly if the last request the scan made failed |
| `LeakScan.TruncatedWhole` | cmd/bahia-leak-delete/scan.go:121-131 | a scan that says truncated although it holds everything |
| `F74aPolicy.PolicyIdOf` | cmd/bahia-migrate/f74a_proof.go:62-99 | computes the identity; an error exactly for a quorum below -1, no relays, or a relay without a normal form; all relays are required for -1, one for 0, and otherwise the quorum or all relays if there are fewer |
| `F74aPolicy.PolicyNamesWriteSet` | cmd/bahia-migrate/f74a_proof.go:62-99 | the identity names the normalised relays sorted and once each, and the number of them it requires |
| `F74aPolicy.ThresholdMeans` | cmd/bahia-migrate/f74a_proof.go:80-86 | as many acceptances as required means every write relay for a quorum of -1, one for 0, and otherwise the quorum or every relay if there are fewer |
| `F74aPolicy.PolicyIdentity` | cmd/bahia-migrate/f74a_proof.go:62-99 | two identities are equal if and only if author, normalised write set and effective threshold are: order and duplicates do not count |
| `F74aPolicy.PolicyFixpoint` | cmd/bahia-migrate/f74a_proof.go:62-99 | the identity of a policy's own relays and threshold is itself |
| `F74aPolicy.Reverify` | cmd/bahia-migrate/f74a_proof.go:101-133 | succeeds if and only if the distinct allowed relays that accepted suffice for the quorum, a relay answering twice counted once |
| `F74aLedger.KeyInjective` | cmd/bahia-migrate/f74a_proof.go:179-181 | distinct coordinates have distinct receipt keys |
| `F74aLedger.RoundIsQuorum` | cmd/bahia-migrate/f74a_proof.go:200-227 | a delivered outbox entry that passes the checks is a quorum under the current policy |
| `F74aLedger.PublishIsQuorum` | cmd/bahia-migrate/f74a_proof.go:101-133 | a fresh publish that re-verification accepts is a quorum under the current policy |
| `F74aLedger.ReviseSound` | cmd/bahia-migrate/f74a_proof.go:228-264 | a revised receipt still means what receipts mean |
| `F74aLedger.MutateSound` | cmd/bahia-migrate/f74a_proof.go:182-266 | so does the store after stage, accepted or abandoned |
| `F74aLedger.StepSound` | cmd/bahia-migrate/f74a_proof.go:182-329 | every atomic step keeps every receipt true, under whatever policy it is taken |
| `F74aLedger.RunSound` | cmd/bahia-migrate/f74a_proof.go:182-329 | every receipt is true in every state of every run, with restarts under any policies |
| `F74aLedger.ProofIsSound` | cmd/bahia-migrate/f74a_proof.go:182-402 | in every run a receipt that proves a row names an event staged there with the row's digest and deleted flag, accepted by the required number of distinct write relays of the current policy |
| `F74aLedger.OthersChangeNothing` | cmd/bahia-migrate/f74a_proof.go:228-264 | callbacks for other events, the replaced one included, leave the receipt of a coordinate as it is over any run |
| `F74aLedger.ReplacedCannotProve` | cmd/bahia-migrate/f74a_proof.go:228-264 | a newly staged event is unproved and stays so while only other events are heard of |
| `F74aLedger.ScopeKept` | cmd/bahia-migrate/f74a_proof.go:182-329 | a step changes the policy of a receipt only by staging another event or by an upgrade of the event it names, and the event only by staging |
| `F74aLedger.StagedAwaits` | cmd/bahia-migrate/f74a_proof.go:182-266 | staging a new event at a coordinate leaves a receipt that names it, with its digest and the current policy, unaccepted, and touches no other record |
| `F74aLedger.HeardOf` | cmd/bahia-migrate/f74a_proof.go:200-264 | the callback for an awaited event: accepted exactly if its outbox round is recorded as a quorum, and otherwise refused without change; abandoned marks it failed |
| `F74aLedger.AcceptanceMeans` | cmd/bahia-migrate/f74a_proof.go:200-227 | an acceptance is taken only of a delivered control-plane entry with as many acknowledging write relays as it requires |
| `F74aLedger.DeliveredProves` | cmd/bahia-migrate/f74a_proof.go:182-329 | in every run an event that is staged and later heard of with a recorded quorum, while all other steps speak for other events, proves its row ever after, whatever is wired or retained |
| `F74aLedger.CoordinateMeans` | cmd/bahia-migrate/f74a_proof.go:182-199 | which events have a coordinate, and that it is their legacy kind and d |
| `F74aLedger.ProvableMeans` | cmd/bahia-migrate/f74a_proof.go:270-329 | a receipt can be proved exactly if it did not fail and is accepted under the current policy, or was accepted or delivered under another one and its event is at hand and a fresh publish reaches enough relays |
| `F74aLedger.ProofIsStep` | cmd/bahia-migrate/f74a_proof.go:312-328 | a successful proof that publishes afresh is an upgrade step of a run |
| `F74aLedger.ProvedRow` | cmd/bahia-migrate/f74a_proof.go:270-402 | proving a row in a world some run has reached leaves only true receipts, and the event it proves by was staged with the digest and deleted flag of the row and accepted by a quorum of the current policy |
| `F74aLedger.Distinctly` | cmd/bahia-migrate/f74a_proof.go:483-497 | true exactly if no entry is empty or listed twice |
| `F74aLedger.Ledger.Mutate` | cmd/bahia-migrate/f74a_proof.go:182-266 | the new store and the error are those of the specified mutation, every ignored and refused case included |
| `F74aLedger.Ledger.Write` | cmd/bahia-migrate/f74a_proof.go:228-266 | the atomic update of one control record does the same |
| `F74aLedger.Ledger.ProveReceipt` | cmd/bahia-migrate/f74a_proof.go:270-329 | true exactly when the receipt says so under the current policy or a fresh publish reaches it; on success the store is unchanged or is the upgrade of that one receipt, which is accepted under that policy; otherwise nothing changes |
| `F74aLedger.Ledger.Republish` | cmd/bahia-migrate/f74a_proof.go:312-328 | succeeds exactly when enough distinct write relays accept the fresh publish, and then upgrades that receipt and no other |
| `F74aLedger.Ledger.Prove` | cmd/bahia-migrate/f74a_proof.go:351-402 | true exactly when the stored receipt matches the row and can be proved, and then a quorum of the current write relays accepted the event it names |
| `F74aLedger.Ledger.ProveEnvelope` | cmd/bahia-migrate/f74a_proof.go:625-640 | one manifest coordinate: true exactly when its undeleted receipt can be proved, and no other record changes |
| `F74aLedger.Ledger.ProveOCK` | cmd/bahia-migrate/f74a_proof.go:611-653 | true exactly when the manifest is complete and each receipt can be proved from the store at the start, so proving one never disturbs another; then every coordinate has an undeleted receipt accepted by a quorum, one per recipient; a manifest that does not decode is an error |
| `F74aLedger.OtherCoordinate` | cmd/bahia-migrate/f74a_proof.go:179-181 | two envelope coordinates of one author never share a record |
| `F74aLedger.EnvelopeVersion` | cmd/bahia-migrate/f74a_proof.go:623-629 | a coordinate is an envelope of at most one version |
| `Hydrator.StepKeepsInv` | internal/app/hiveci_policy_hydrator.go:52-153 | every step of every signaller and of the loop keeps the protocol's invariant |
| `Hydrator.RunKeepsInv` | internal/app/hiveci_policy_hydrator.go:52-153 | so it holds in every state of every interleaving |
| `Hydrator.ReadyIsCurrent` | internal/app/hiveci_policy_hydrator.go:105-137 | whenever ready is set, or an uncancelled activation runs, the last activated attempt began after every signal that took effect and no attempt has failed since |
| `Hydrator.ParkedWillWake` | internal/app/hiveci_policy_hydrator.go:138-151 | a parked loop that is not ready has a token, an armed retry, or a signaller yet to send |
| `Hydrator.ResumedSince` | internal/app/hiveci_policy_hydrator.go:107-129 | resumeNeeded is clear only if a resuming activation began and no signal or failure came since |
| `Hydrator.NeededSince` | internal/app/hiveci_policy_hydrator.go:107-129 | resumeNeeded is set exactly if every activation so far has been followed by a signal or a failure |
| `Hydrator.ResumesExactly` | internal/app/hiveci_policy_hydrator.go:117-129 | so an activation asks to resume exactly if that is so of every activation before it |
| `Hydrator.AttemptsCount` | internal/app/hiveci_policy_hydrator.go:105-151 | the failure count, and with it the delay, is the number of failed reads since the last success or wakeup |
| `Hydrator.Settles` | internal/app/hiveci_policy_hydrator.go:95-153 | under every schedule, once signals stop and reads succeed, a run that was not stopped goes on for at most its backlog of steps, and it cannot go on exactly when it is ready on the generation it had with nothing left to do |
| `Hydrator.QuietProgress` | internal/app/hiveci_policy_hydrator.go:95-153 | every step other than a new signal, a failed read, a stop or a second start leaves less to do |
| `Hydrator.StuckIsSettled` | internal/app/hiveci_policy_hydrator.go:95-153 | a loop left alone cannot go on if and only if it is parked and ready with no token, retry or send outstanding |
| `Hydrator.ShiftIsDelay` | internal/app/hiveci_policy_hydrator.go:112-116 | the capped shift of a second is the delay that doubles with each failure up to 16 seconds |
| `Hydrator.PolicyHydrator.Others` | internal/app/hiveci_policy_hydrator.go:52-68 | whatever signallers do between two steps of the loop, in any number and state, is what happens and no more; it extends the recorded run and leaves the place of the loop alone |
| `Hydrator.PolicyHydrator.Attempt` | internal/app/hiveci_policy_hydrator.go:105-139 | one attempt, interrupted anywhere by signals, begins at once and ends parked; a retry is armed exactly if the read failed, and failures count up or start again from zero; left alone with a read that succeeds it is the reread of the specified state |
| `Hydrator.PolicyHydrator.Select` | internal/app/hiveci_policy_hydrator.go:140-151 | the select stops exactly when told to, takes the token or the due retry exactly if it chose it and it is there, and otherwise stays parked |
| `Hydrator.PolicyHydrator.Turn` | internal/app/hiveci_policy_hydrator.go:95-153 | one turn begins an attempt exactly if one is pending and then reaches the select, where another becomes pending exactly if the chosen token or retry is there |
| `Hydrator.PolicyHydrator.Loop` | internal/app/hiveci_policy_hydrator.go:95-153 | for every schedule of signals, read results and choices, and any number of turns, what the goroutines do is a run of the protocol; the loop waits only until started, stops only when told to, attempts at once, and from any turn on that is left alone it comes to rest as fast as the specified turns do |
| `Hydrator.QuietTurnCalms` | internal/app/hiveci_policy_hydrator.go:95-153 | a turn without signals or failures, whatever the select prefers, brings the loop nearer to rest |
| `Hydrator.Hydrate` | internal/app/hiveci_policy_hydrator.go:95-153 | so after any schedule ready means that the last activated attempt began after every signal that took effect, a parked loop that is not ready will be woken, and three quiet turns leave a started loop settled, ready and current unless a send is still out |
| `LeakPlan.BuildRequest` | cmd/bahia-leak-delete/delete.go:57-71 | names the author and time, the events in their order, then each kind among them once in strictly increasing order, and nothing else |
| `LeakPlan.RequestTags` | cmd/bahia-leak-delete/delete.go:57-71 | the same of the specified request |
| `LeakPlan.NamesExactly` | cmd/bahia-leak-delete/report.go:253-269 | computes whether a request and its recorded targets agree |
| `LeakPlan.AgreementIsExact` | cmd/bahia-leak-delete/report.go:253-269 | an agreeing request names exactly its targets if and only if no e tag is repeated |
| `LeakPlan.RepeatedTagPasses` | cmd/bahia-leak-delete/report.go:253-269 | a request that repeats an e tag and leaves a target unnamed agrees |
| `LeakPlan.PlanCoversExactly` | cmd/bahia-leak-delete/delete.go:23-52 | recorded and planned deletions name every target exactly once; each planned batch is a request of the author for its events, holds between one and batchSize of them, all but the last exactly batchSize, and passes the check; the batches follow the plan order |
| `LeakPlan.PlanOrdered` | cmd/bahia-leak-delete/delete.go:30-45 | in that order kinds go up, within one kind stamps go down, and within one stamp ids go up |
| `LeakPlan.BatchesFlat` | cmd/bahia-leak-delete/delete.go:46-50 | batching loses no event and keeps the order |
| `LeakPlan.ReplanIsEmpty` | cmd/bahia-leak-delete/delete.go:19-52 | once appended, planning again gives nothing |
| `LeakPlan.SameTargets` | cmd/bahia-leak-delete/report.go:221-238 | appending a plan makes no new targets |
| `LeakPlan.LastMention` | cmd/bahia-leak-delete/report.go:221-238 | of several events recorded under one id the last is the target |
| `LeakPlan.NamedStaysTarget` | cmd/bahia-leak-delete/report.go:218-238 | an id a deletion names stays a target whatever later scans see |
| `LeakPlan.RunCoversExactly` | cmd/bahia-leak-delete/delete.go:19-52 | in every run of scans and deletes no event is ever named twice, and right after a delete every target is named exactly once |
| `LeakPlan.RunKeepsTargets` | cmd/bahia-leak-delete/report.go:206-238 | recorded deletions are kept over every run, and what they named stays a target |
| `LeakPlan.PutKeepsOrder` | cmd/bahia-leak-delete/report.go:206-216 | putting a scan keeps the scans sorted with one per relay: the new scan is its relay's and the others keep theirs |
| `LeakPlan.RunKeepsScansSorted` | cmd/bahia-leak-delete/report.go:206-216 | so in every run the scans are sorted by relay, one for each |
| `LeakPlan.OrderDetermined` | cmd/bahia-leak-delete/delete.go:30-45 | the planned order does not depend on the order the map is ranged over |
| `LeakPlan.Chunked` | cmd/bahia-leak-delete/delete.go:46-50 | cuts the sorted events into the specified batches |
| `LeakPlan.Report.PutScan` | cmd/bahia-leak-delete/report.go:206-216 | a scan replaces the scan of its relay or is inserted, and the scans stay sorted by relay with one for each |
| `LeakPlan.Report.TargetMap` | cmd/bahia-leak-delete/report.go:221-238 | the targets of scans and deletions by id |
| `LeakPlan.Report.CoveredIds` | cmd/bahia-leak-delete/delete.go:24-29 | the ids recorded deletions name |
| `LeakPlan.Report.PlanDeletions` | cmd/bahia-leak-delete/delete.go:23-52 | the plan is the specified one, whatever order maps are ranged over |
| `LeakPlan.Report.RecordPlan` | cmd/bahia-leak-delete/delete.go:19-52 | recording the plan keeps the exact cover |
| `LeakDelivery.NeverReoffered` | cmd/bahia-leak-delete/delete.go:150-186 | between two publishes of one deletion to one relay the earlier answer was retryable |
| `LeakDelivery.DoneNeverOffered` | cmd/bahia-leak-delete/delete.go:152-160 | a pair the report records as done is never offered |
| `LeakDelivery.AuthStopsRelay` | cmd/bahia-leak-delete/delete.go:152-173 | a relay that demanded authentication gets nothing more, of any deletion |
| `LeakDelivery.SettledStays` | cmd/bahia-leak-delete/delete.go:150-186 | a settled pair stays settled over every publish |
| `LeakDelivery.PublishSettles` | cmd/bahia-leak-delete/delete.go:168-179 | a publish without a retryable answer settles its deletion |
| `LeakDelivery.Classify` | cmd/bahia-leak-delete/delete.go:242-259 | which recorded status a result has: done exactly if accepted or a duplicate, and otherwise retryable, an authentication demand or a refusal |
| `LeakDelivery.AnswerOf` | cmd/bahia-leak-delete/delete.go:218-240 | the status of a relay is that of the result under its normal form, and retryable without one |
| `LeakDelivery.StatusIsSaid` | cmd/bahia-leak-delete/delete.go:150-186 | the status a deletion has at a relay records what the relay said to the last publish of it |
| `LeakDelivery.SettledIsOver` | cmd/bahia-leak-delete/delete.go:150-186 | a settled pair was done from the start, or its last publish was accepted, or the relay refused the request or demanded authentication |
| `LeakDelivery.Publisher.Needing` | cmd/bahia-leak-delete/delete.go:152-157 | the addressed relays are exactly those whose pair is not settled |
| `LeakDelivery.Publisher.RecordAll` | cmd/bahia-leak-delete/delete.go:168-179 | every addressed relay's outcome is recorded, and the stopped and rejected sets and the retry flag follow the answers |
| `LeakDelivery.Publisher.Deliver` | cmd/bahia-leak-delete/delete.go:164-179 | one publish to exactly the unsettled relays, recorded, with the sets still tracking the log |
| `LeakDelivery.Publisher.Offer` | cmd/bahia-leak-delete/delete.go:150-185 | one deletion's turn: a publish to the relays that need it or none, its answers in the log; it goes on exactly if what it published was answered and saved and the run is not cancelled |
| `LeakDelivery.Publisher.Round` | cmd/bahia-leak-delete/delete.go:149-186 | a round gives every deletion that is not settled one publish; without a retry everything is settled; it ends well only if every publish did |
| `LeakDelivery.Publisher.Run` | cmd/bahia-leak-delete/delete.go:137-194 | at most one publish per deletion and attempt, and the log holds the answers of the relays; the report says of each deletion and relay what the last publish was answered; a nil return before the last round leaves every pair done from the start, accepted at its last publish, refused, or on a relay that demanded authentication; any nil return leaves unsettled only deletions published in every round, and rules out a refused, killed, unsaved or cancelled publish and a failed wait; an error has a cause |
| `Supervisor.ClosedAtMostOnce` | cmd/relay/main.go:128-229 | in a legal history a signer is closed at most once |
| `Supervisor.ClosedAfterUse` | cmd/relay/main.go:195-229 | when a signer is closed, each runtime built with it was started or closed before, and if started has ended |
| `Supervisor.BuiltIsStartedOrClosed` | cmd/relay/main.go:195-215 | when none is left idle, every built runtime was started or closed |
| `Supervisor.RuntimeSupervisor.Discard` | cmd/relay/main.go:166-170 | a signer other than the one owned is closed, legally; the owned one is left alone |
| `Supervisor.RuntimeSupervisor.ChooseSigner` | cmd/relay/main.go:149-156 | the open signer if its configuration is the same and otherwise a newly opened one, and nothing else has happened |
| `Supervisor.RuntimeSupervisor.Prepare` | cmd/relay/main.go:128-163 | succeeds exactly when every step does, reuses the open signer or opens a new one, leaves the active runtime alone, and closes a new signer if the runtime cannot be built |
| `Supervisor.RuntimeSupervisor.StartRuntime` | cmd/relay/main.go:172-182 | the runtime is started and active, or nothing is |
| `Supervisor.RuntimeSupervisor.Stop` | cmd/relay/main.go:184-193 | the active runtime has ended and nothing is active, error or not |
| `Supervisor.RuntimeSupervisor.GiveUp` | cmd/relay/main.go:202-208 | a prepared runtime and a signer opened for it are closed in a legal order, and the owned signer is all that is left |
| `Supervisor.RuntimeSupervisor.Install` | cmd/relay/main.go:209-214 | the prepared runtime runs with the signer it was built with, and the one before is closed |
| `Supervisor.RuntimeSupervisor.Replace` | cmd/relay/main.go:195-215 | succeeds exactly when preparing and stopping do; then the new runtime runs with the signer it was built with and the old signer is closed; a failed preparation changes nothing; a failed stop keeps the signer and nothing runs; what is in charge afterwards is what the reload makes of what was |
| `Supervisor.RuntimeSupervisor.Shutdown` | cmd/relay/main.go:218-223 | nothing runs and no signer is open; a second call does nothing |
| `Supervisor.RuntimeSupervisor.Exited` | cmd/relay/main.go:226-229 | the returned runtime is no longer active and the signer stays |
| `Supervisor.HangupApplies` | cmd/relay/main.go:195-287 | after a hangup whose steps all succeed the runtime it asked for is in charge, with a signer of its configuration, or nothing is if it disables the sidecar |
| `Supervisor.HangupRefused` | cmd/relay/main.go:128-287 | a hangup that does not load or cannot be prepared leaves in charge what was |
| `Supervisor.SignerKept` | cmd/relay/main.go:149-156 | a hangup with the same signer configuration keeps the open signer, and needs none to be opened |
| `Supervisor.EndsWhen` | cmd/relay/main.go:238-287 | the program ends exactly when it is told to or the runtime in charge returns |
| `Supervisor.EndCause` | cmd/relay/main.go:238-287 | over any sequence it has ended only if the first configuration could not be prepared or a wakeup other than a hangup came, and goes on only if it was never told to end |
| `Supervisor.Program` | cmd/relay/main.go:238-287 | for every first configuration and every sequence of wakeups with failures anywhere, every event is legal; it finishes exactly when the sequence of reloads ends, and otherwise has in charge what that sequence leaves; when it has finished no signer is open, nothing runs and nothing built was left over |
| `ComposeImage.ReplaceServiceImage` | scripts/edge_image_admission.py:131-169 | the scanner loop computes the specified rewriting, or the number of images found |
| `ComposeImage.NoServices` | scripts/edge_image_admission.py:140-167 | a text in which no line opens services gives no image |
| `ComposeImage.HitMeans` | scripts/edge_image_admission.py:140-164 | the line it changes gives an image, in a services block, below the line that names the service, with no other service named in between |
| `ComposeImage.ImageMeans` | scripts/edge_image_admission.py:18-20 | the lines read as giving an image are exactly those of the form the pattern describes |
| `ComposeImage.NameMeans` | scripts/edge_image_admission.py:18-20 | the lines read as naming a service are exactly those of the form the pattern describes, and the name is theirs |
| `ComposeImage.OneLineChanges` | scripts/edge_image_admission.py:131-169 | success changes one line of a newline-separated text, which keeps its indent and gives the new image |
| `ComposeImage.RenderSplit` | scripts/edge_image_admission.py:132-133 | a newline-separated text is its lines joined again |
| `ComposeImage.SplitRendered` | scripts/edge_image_admission.py:168-169 | splitting a rendered text gives its lines back, but for an empty last line without a newline |
| `ComposeImage.RewriteAgain` | scripts/edge_image_admission.py:131-169 | for every image without spaces, rewriting again leaves the text as it is if and only if the image is read back where it was put, and otherwise finds no image |
| `ComposeImage.RewriteIdempotent` | scripts/edge_image_admission.py:131-169 | with an image that is not empty and starts no comment it is idempotent |
| `ComposeImage.OneServiceRewritten` | scripts/edge_image_admission.py:131-169 | in a file with one service whatever image it has is replaced by whatever image is given |
| `ComposeImage.ServicesRewritten` | scripts/edge_image_admission.py:131-169 | in a file of any services at any indents, with any other lines before, in and after them, exactly the image of the service asked for is replaced; none or several of that name are reported by their number |
| `ComposeImage.CommentImageIsLost` | scripts/edge_image_admission.py:131-169 | in such a file an image that starts a comment is lost by the next rewriting if and only if it stands at the indent of the service's name |
| `BackupTree.MakePlan` | scripts/edge_image_admission.py:216-255 | computes the plan; refused exactly if some candidate hinders it |
| `BackupTree.ChoiceMeans` | scripts/edge_image_admission.py:216-255 | a candidate is planned exactly if it has one image, another than the one asked for, and nothing hinders it; refused exactly if it has several images, or has to be rewritten and its raw copy or temporary is there |
| `BackupTree.PlanMeans` | scripts/edge_image_admission.py:216-255 | a plan is refused exactly if a candidate hinders it, for the reason of the first that does; otherwise it holds exactly the outdated candidates |
| `BackupTree.TakenIsReady` | scripts/edge_image_admission.py:216-255 | a planned file exists, its raw copy and temporary do not, and its rendering is the rewriting of its text and differs from it |
| `BackupTree.PlanIsGood` | scripts/edge_image_admission.py:216-255 | over distinct candidates no file, raw copy or temporary of a plan takes another's place |
| `BackupSwap.Backup.SwapItem` | scripts/edge_image_admission.py:269-279 | all operations done swap the file; a failure leaves it untouched exactly if it comes before the move, and otherwise moved with nothing but its three names touched |
| `BackupSwap.Backup.WriteRest` | scripts/edge_image_admission.py:275-279 | the same for the operations after the move |
| `BackupSwap.Backup.SwapNext` | scripts/edge_image_admission.py:268-279 | the next item is swapped on top of those before it exactly if no operation on it fails; otherwise what is moved by then can be undone |
| `BackupSwap.Backup.UndoItem` | scripts/edge_image_admission.py:281-291 | one item of the undo list |
| `BackupSwap.Backup.UndoItems` | scripts/edge_image_admission.py:280-311 | the undo list is undone from its end |
| `BackupSwap.Backup.SwapItems` | scripts/edge_image_admission.py:266-279 | all items are swapped exactly if no operation on an item fails; otherwise the items moved by then, the current one with them if it was, are ready to be undone |
| `BackupSwap.Backup.CarryOut` | scripts/edge_image_admission.py:261-312 | the plan is carried out and the manifest written if and only if no operation fails; whichever fails, the tree is the one before but for special mode bits of the files moved by then |
| `BackupSwap.UndoneAll` | scripts/edge_image_admission.py:280-292 | undoing from anywhere in the item loop brings the files back |
| `BackupSwap.UndoneDone` | scripts/edge_image_admission.py:300-311 | so does undoing after a manifest failure, which does not look for temporaries |
| `BackupSwap.RestoredExactly` | scripts/edge_image_admission.py:280-311 | after an undo the same files exist with the same contents and owners, and the tree is exactly the one before if and only if no moved file had a special mode bit |
| `BackupSwap.SpecialBitsAreLost` | scripts/edge_image_admission.py:236-311 | every planned file with a special mode bit comes back without it when anything fails after its move |
| `BackupSwap.SpecialBitsInput` | scripts/edge_image_admission.py:187-311 | every Compose file with one service and a special mode bit is such a file: it is planned, and comes back with its lower nine bits |
| `BackupSwap.DoneAt` | scripts/edge_image_admission.py:268-279 | after the loop a planned path holds the rendered text with its mode and owner, and its raw copy the original without permissions |
| `BackupSwap.Sanitize` | scripts/edge_image_admission.py:187-312 | which outcome a run has, for every tree, plan, failing operation and manifest; the tree after it: untouched, exactly restored if and only if no file moved by then had a special bit, or the planned tree with the manifest |
| `BackupSwap.SanitizedMeans` | scripts/edge_image_admission.py:266-312 | what every path holds after success, the manifest standing in a planned place included |
| `BackupSwap.PlanAgain` | scripts/edge_image_admission.py:206-228 | sanitising a sanitised tree plans nothing, wherever the manifest was written |
| `QuorumPublish.Run.Attempt` | cmd/bahia-assistant-reencrypt/publish.go:68-100 | one publish, justified, and those that hold the item after it; it decides as the kill switch, the quorum, the attempts and the wait do, in that order |
| `QuorumPublish.Run.Try` | cmd/bahia-assistant-reencrypt/publish.go:64-102 | another attempt follows only if the item is under quorum, nothing was killed and the wait was over |
| `QuorumPublish.Run.ToQuorum` | cmd/bahia-assistant-reencrypt/publish.go:56-103 | success means quorum relays hold the item and nothing was killed; at most maxAttempts publishes, all for this item and all justified; giving up has a cause |
| `QuorumPublish.Run.PublishItem` | cmd/bahia-assistant-reencrypt/publish.go:44-50 | an item stays within what is left of its operation's budget and keeps the order |
| `QuorumPublish.Run.PublishBatch` | cmd/bahia-assistant-reencrypt/publish.go:38-52 | the same for the items of one operation |
| `QuorumPublish.Run.Operate` | cmd/bahia-assistant-reencrypt/publish.go:37-52 | one operation is admitted with a budget of all attempts at its items, at most 2048 for up to 2048 attempts |
| `QuorumPublish.Run.PublishInOrder` | cmd/bahia-assistant-reencrypt/publish.go:29-54 | if it returns n, the first n items are held by quorum relays, no item past the next was ever sent, the items were sent in order, and every publish was charged to an operation within its budget and justified: of an item under quorum, after no killed publish and no cut wait, to exactly the relays without it; held means held at the start or accepted in a publish of that item; each operation but the last is as full as its budget allows; a nil error means all items are at quorum and nothing was killed or refused; stopping short has a cause |
| `QuorumPublish.EarlierFirst` | cmd/bahia-assistant-reencrypt/publish.go:29-54 | by the time an item is sent, every item before it is at quorum |
| `QuorumPublish.TargetsAreMissing` | cmd/bahia-assistant-reencrypt/publish.go:68-73 | a relay is addressed exactly if it is in the pool and no holder |
| `QuorumPublish.AcceptingMeans` | cmd/bahia-assistant-reencrypt/publish.go:74-83 | the relays that accepted a publish are the normal forms of those with an ok result |
| `QuorumPublish.HeldMeans` | cmd/bahia-assistant-reencrypt/publish.go:57-83 | an item is held by exactly the relays it was found on and those that accepted a publish of it |
| `QuorumPublish.ChargedMeans` | cmd/bahia-assistant-reencrypt/publish.go:38-52 | what an operation is charged is the number of publishes made in it |
| `AssistantHistory.QuorumIsReachable` | cmd/bahia-assistant-reencrypt/history.go:36-51 | an accepted quorum can be met by the relays unless there are none and one is asked for |
| `AssistantHistory.KeyIsCoordinate` | cmd/bahia-assistant-reencrypt/history.go:86 | the winner key is the coordinate: kind and d |
| `AssistantHistory.WinnersAreWinners` | cmd/bahia-assistant-reencrypt/history.go:75-91 | after the walk, in whatever order, each coordinate has its newest event, of two as old the one with the lower id |
| `AssistantHistory.WinnerIsNewest` | cmd/bahia-assistant-reencrypt/history.go:75-91 | a winner is at least as new as every replaceable event of its kind and d, and of two as old it has the lower id |
| `AssistantHistory.SortedCheckpoints` | cmd/bahia-assistant-reencrypt/history.go:92-100 | all valid checkpoints, sorted by session and run and then revision |
| `AssistantHistory.ChainMeans` | cmd/bahia-assistant-reencrypt/history.go:92-100 | in that order a chain is contiguous and goes up by revision |
| `AssistantHistory.UnderQuorum` | cmd/bahia-assistant-reencrypt/history.go:71-118 | exactly the valid checkpoints and winners that lack a quorum, checkpoints first and in chain order, then winners in the order of their keys |
| `AssistantHistory.TopUpsReachQuorum` | cmd/bahia-assistant-reencrypt/main.go:219-247 | once the top-ups are published every valid checkpoint and every winner is held by quorum relays |
| `AssistantHistory.AcceptedMeans` | cmd/bahia-assistant-reencrypt/publish.go:74-83 | an event is accepted by exactly the relays with an ok result for a publish of it |
| `AssistantHistory.PredecessorsFirst` | cmd/bahia-assistant-reencrypt/publish.go:29-54 | at the moment a checkpoint is sent, the earlier ones of its chain that were under quorum have already reached it |
| `AssistantHistory.Fresh` | cmd/bahia-assistant-reencrypt/publish.go:21-27 | planned events start held by no relay, in order |
| `AssistantHistory.TopUp` | cmd/bahia-assistant-reencrypt/main.go:219-247 | the work is the top-ups in that order and then the planned events; relays are credited exactly with what they accepted; with a nil error every valid checkpoint and every winner is at quorum and nothing was killed or refused; an error has a cause |
| `AssistantReencrypt.ReadAll` | cmd/bahia-assistant-reencrypt/history.go:138-164 | without an error each reading is what reading its relay comes to, holds only what the relay stores, and all of it if the relay can be read completely; an error has a read that failed, at a relay that left a request unanswered or stores a full second |
| `AssistantReencrypt.FileAll` | cmd/bahia-assistant-reencrypt/history.go:138-164 | files the readings by event id with the relays they came from |
| `AssistantReencrypt.HistoryMeans` | cmd/bahia-assistant-reencrypt/history.go:138-164 | the history holds exactly the author's events that some relay was read to hold, each with exactly those relays |
| `AssistantReencrypt.MattersIsFiled` | cmd/bahia-assistant-reencrypt/history.go:74-164 | after complete reads every valid checkpoint and every winner of all that is stored anywhere is one of the history, with the relays that store it |
| `AssistantReencrypt.Reestablish` | cmd/bahia-assistant-reencrypt/main.go:199-258 | complete reads of all relays and then a nil error put every stored valid checkpoint and every winner on quorum relays: relays that stored it or accepted it; a nil error rules out a failed read, a killed publish and a refused operation; an error has an unreadable relay, a refused operation or an item that failed |
| `OutboxInventory.ListFrom` | internal/repository/pg_nostr_event.go:248-268 | a keyset query by the key of a row goes on right after that row |
| `OutboxInventory.InspectPage` | cmd/bahia-migrate/outbox_transfer.go:110-138 | one line per row with its reason, a later check overriding an earlier one, and the number of conflicts |
| `OutboxInventory.ReasonOf` | cmd/bahia-migrate/outbox_transfer.go:110-138 | a row is clean exactly if it is signed, never attempted, without an error and still pending for this target; that it changed counts before that it was attempted, and that before a missing signature |
| `OutboxInventory.ConflictsMeans` | cmd/bahia-migrate/outbox_transfer.go:110-138 | the conflicts of a pass are the number of rows that are not clean |
| `OutboxInventory.ReadPage` | cmd/bahia-migrate/outbox_transfer.go:102-141 | one more page on top of those inspected |
| `OutboxInventory.InventoryRows` | cmd/bahia-migrate/outbox_transfer.go:93-151 | the pages add up to one window, and a token is returned exactly when the window is full |
| `OutboxInventory.Transfer` | cmd/bahia-migrate/outbox_transfer.go:63-86 | one invocation: a token is refused exactly if it is of another target, without receive time or id, or has a negative count; the status fails exactly if the chain so far has conflicts |
| `OutboxInventory.Chain` | cmd/bahia-migrate/outbox_transfer.go:63-151 | windows of any sizes of at least one inspect a prefix of the table once, with the conflicts of a single pass; an empty token means the table is exhausted; a token is refused if and only if a window that another follows is full and ends at a row without receive time or id |
| `OutboxInventory.RefusedChain` | cmd/bahia-migrate/outbox_transfer.go:50-52 | a chain whose second invocation is refused |
| `OutboxInventory.LinesAreRows` | cmd/bahia-migrate/outbox_transfer.go:110-138 | a pass has one line for each row, in the table's order |

## Left out

- Relay pool, subscriptions, end-of-stored-events timing, authentication and websockets: one
  request is one answer, one publish one list of results.
- Relays that break their side of the model: an honest relay answers with the newest stored
  events not newer than asked for, as many as its cap and the limit allow, choosing freely among
  events of one second. Events stamped 0, and events rejected as invalid inside a page, are not
  modelled.
- Signatures, event ids, SHA-256, JSON and base64: checks are parameters, encodings injective.
- Wrap-around of the hydrator's 64-bit generation counter, and of other fixed-width integers.
- Context cancellation between two rows or before a proof, and failing writes to standard
  output.
- The rules inside `deletionguard.Check`, `PlanAssistantReencryption`, relay policy validation and
  trust epochs: their results are parameters.
- Supervisor.Program: two signer configurations are the same exactly if their configuration values
  are equal; what a runtime does while it runs is not modelled.
- ComposeImage.OneLineChanges: other line separators become newlines on success, as the source
  joins with newlines; universal newline translation on reading is not modelled.
- BackupTree.MakePlan: candidates are given as a list of paths below the root without
  symbolic links; the name filter is a parameter.
- BackupSwap.Sanitize: directories are not modelled, so an emptied quarantine directory may stay;
  a move is one rename; the undo steps succeed; interrupts between two statements are not
  modelled; checking the image against Docker and git comes before.
- BackupSwap.PlanAgain: that every line of the manifest begins with a bracket or a quote is taken
  from how an indented JSON object is written, and not derived from a model of JSON.
- AssistantHistory.UnderQuorum: checkpoints with the same session, run and revision come in some
  order, as the source's sort is not stable.
- QuorumPublish.Run.PublishInOrder: the number of attempts is at least one, as the command line
  demands.
- OutboxInventory.Chain: the table does not change between queries; the length limit of a token is
  not modelled.
- Commands, flags, output formats, database and Docker calls.

# Restart outbox, owner journal, worktrees and recovery evidence: a verified model

This project models the concurrent and evidence-bearing core of the repository in Dafny and proves
what its documentation and tests promise, over every run and every input. `dafny verify
dfyconfig.toml` checks it.

**The owner journal** (`Contracts`, `Journal`, `JournalProofs`, `JournalRows`, `CodecExists`). A hash-chained,
append-only SQLite table per (run, revision), appended to by compare-and-swap on an integer cursor.
Each `BEGIN IMMEDIATE` transaction is one atomic step, so every interleaving of callers, duplicates,
conflicts and faults is a sequence of calls. `Append` specifies a call; the class method follows the
code's control flow with its seven fault points. The codec and the digests are parameters. Only
"decoding gives back what was encoded" is assumed, and `CodecExists` shows that it can be met;
nothing is assumed of the digests: tamper evidence is stated with an explicit collision as the only
way out.

**The restart outbox** (`OutboxRecord` to `OutboxLease`, `OutboxFields`,
`OutboxFinality`, `OutboxReplay`, `OutboxRuns`, `OutboxPromises`, `Outbox`, `Services`, `Supervisor`,
`OutboxEvidence`). One record couples restart status, delivery with leases and a retry budget, and
replay of the interrupted turn. `OutboxSystem` is the transition system of all actors: requesters
whose `prepare` scans record by record, supervisors, startup reconciliation, concurrent sweepers
with a clock reading taken when the sweep began, and processes that crash at any point. What
`_pid_is_live` answers is an input, since it takes a process it may not signal for dead. `Outbox` is
the same code as a class whose methods loop and update in place, and `Supervisor` drives it through
one prepared restart. The host is a sequence of observations.

**Worktrees** (`Porcelain`, `Worktrees`, `Locks`, `Host`). The non-destructive allocator beside the
separately written classifier; the lock file under every interleaving; and the multi-repository
launch with other operations allocating between its steps. Git is abstract state: branches and tips,
remote refs, registered worktrees in any listing order, existing paths.

**Evidence** (`Ordering`, `NoDebt`, `NoDebtReceipt`, `NoDebtFields`, `Baseline`, `Predeploy`, `Closure`,
`ShellQuote`). The no-debt shard aggregator and its validator, the predeploy baseline and its checks,
route closure against a manifest, and the shell quoter against the tokenising rules of sections 2.2,
2.3 and 2.10 of the POSIX.1-2017 Shell Command Language.

## Where the code differs from what one would expect

The model follows the code; each of these is a lemma, with the exact condition beside it.

- A record that `prepare` cannot read is skipped, so two restarts can be active
  (`BlindSkipBreaksExclusivity`, reached in `TwoActiveReached`) and two records can have one source and
  runtime (`BlindSkipBreaksUniqueness`, reached in `TwoOfOneKeyReached`); without such a skip
  `AtMostOneActive` holds, and `CommitNeedsTheScan` and `CommitNeedsTheSourceScan` say when a commit
  keeps each.
- The outcome recorders do not compare attempt ids: once a lease lapses, or its live claimer is taken
  for dead, a recorded delivery can be lost (`LapsedLeaseGrantsTwo`, `SecondAttemptLosesDelivered`,
  reached in `LostDeliveryReached`); otherwise it cannot (`DeliveredIsFinal`).
- `finish_restart_interrupted_turn` does not compare the holder of the turn
  nor its status: a late "pending" reopens even a complete turn (`FinishingFreesAnothersTurn`,
  `GivenAgainExactlyWhen`), and another identity takes a held turn over (`TakenOverExactlyWhen`).
- `mark_reset_succeeded` upgrades a failed restart, which nothing else does (`FailedLeftExactlyWhen`);
  restart status still only climbs (`StatusClimbs`).
- A suppressed delivery is not final. A reconciled failure makes it pending, and when a recovered turn
  takes over a delivery of which an attempt is out, the outcome of that attempt is recorded over it;
  nothing else reopens it (`SuppressedLeftExactlyWhen`, reached in
  `SuppressedReopenedByReconciliation` and `SuppressedReopenedByLateOutcome`).
- Startup reconciliation accepts an equal process id on another backend
  (`ReconcilerAcrossBackends`, `ReconcilerSawReplacement`), and a supervisor can be misled into a
  false success for exactly the requests that do not bind it to an old identity on their backend
  (`SupervisedSafelyExactlyWhenBound`).
- A fault hook that raises `StorageError` after the commit, or `CommitIndeterminate` before it,
  misreports what happened, and no other fault does (`TruthfulExactlyWhen`).
- A crash while holding a repository lock, or a token that could not be written, leaves the lock file
  for ever (`LeakExactlyWhen`, `LeakedForever`).
- The allocator and the classifier look at git's listing only: a listed worktree whose directory was
  deleted is reused and called ready (`DeletedWorktreeIsReused`, `DirectoryExactlyWhen`), and tmux is
  started in the missing directory, against the launch's promise that every repository has its
  worktree (`SessionWithoutItsDirectory`, `SessionHasItsDirectoriesExactlyWhen`).
- The allocator's stale-resource refusal is unreachable (`AllocatesExactlyWhen`).
- Launching a running operation again, or failing to record a started session, records the operation
  as failed before running while its session runs (`SessionHiddenExactlyWhen`).
- A queue claim escapes the decision check exactly if its raw kind does not end in the suffix although
  its stripped kind does (`ClaimNeedsDecisionExactlyWhen`).
- The source check does not see a new branch under a wildcard pattern
  (`NewRefIsSeenExactlyWhen`, `NewBranchUnderGlobIsUnseen`).
- Two surfaces of one kind on one line share an id, and the second is invisible to closure
  (`SecondOnTheLineIsUnseen`).
- An edited baseline whose two addresses are recomputed passes the digest check (`EditsAreCaught`).
- The capture's test for ordered cursors never decides coherence: a window that is not torn is ordered
  (`CoherentExactlyWhen`).

## Model

| member | source | states |
|---|---|---|
| `Journal.Decode` | arnold_pipelines/run_authority_store.py:372-451 | replay accepts a stream only as cursors 1..n: the decoded cursor, the number of rows and the number of records agree |
| `Journal.DecodePrefix` | arnold_pipelines/run_authority_store.py:372-451 | replay fails at the first bad row and reports that one: a bad prefix decides the error of the whole stream |
| `Journal.DecodeRows` | arnold_pipelines/run_authority_store.py:372-451 | the replay loop, with its running cursor and prior hash, computes the fold it is specified by |
| `Journal.RunAuthorityJournal.ReadView` | arnold_pipelines/run_authority_store.py:453-468 | blank arguments are refused; otherwise the decoded records and cursor of the view, the corruption that stops replay, or, for a stream that cannot be serialised, an exception that escapes |
| `Journal.RunAuthorityJournal.CompareAndAppend` | arnold_pipelines/run_authority_store.py:470-637 | the whole transaction with its seven fault points: the committed table and the result are those of the specification `Append`; every exit before COMMIT leaves the table alone |
| `JournalProofs.ReplayedRow` | arnold_pipelines/run_authority_store.py:372-451 | each row of a stream that replays belongs to the view, sits at its cursor, is chained to its predecessor, hashes to its record hash and decodes to its record |
| `JournalProofs.TamperEvidence` | arnold_pipelines/run_authority_store.py:372-451 | two streams that replay with one head hash are equal row for row, or exhibit a hash collision or a preimage of the genesis hash |
| `JournalProofs.AppendedRow` | arnold_pipelines/run_authority_store.py:559-614 | a call that inserts a row inserts one, last in its view, after finding the expected cursor equal to the view length, its identity unused in the view and its GLEK unused anywhere |
| `JournalProofs.AppendsExactlyWhen` | arnold_pipelines/run_authority_store.py:470-619 | a call inserts a row exactly when its arguments are admitted, no fault comes before the commit, it expects the present cursor, and its identity and GLEK are unused |
| `JournalProofs.TwoAppends` | arnold_pipelines/run_authority_store.py:470-619 | whatever the codec, two calls on one view both append: the hypotheses of the run theorems can be met |
| `JournalProofs.AppendKeepsWellFormed` | arnold_pipelines/run_authority_store.py:470-637 | one call, whatever its arguments and fault, keeps every view replayable and every GLEK unique |
| `JournalProofs.RunWellFormed` | arnold_pipelines/run_authority_store.py:470-637 | every table reachable from empty by any sequence of calls is well formed |
| `JournalProofs.ReachableReplays` | arnold_pipelines/run_authority_store.py:372-451 | every view of a reachable table replays: cursors 1..n, hashes chained, and no GLEK twice in the table |
| `JournalProofs.AppendOnView` | arnold_pipelines/run_authority_store.py:353-369 | a call adds one row to its own view or nothing, and leaves every other (run, revision) as it was |
| `JournalProofs.ViewsGrow` | arnold_pipelines/run_authority_store.py:453-468 | append-only over a whole run: each earlier view, rows and records, is a prefix of each later one |
| `JournalProofs.AppendedRowSurvives` | arnold_pipelines/run_authority_store.py:572-619 | an appended row stays, in every later state, at the cursor after the expected one with its record, GLEK and identity |
| `JournalProofs.CompareAndSwap` | arnold_pipelines/run_authority_store.py:559-572 | two appends to one view expected different cursors, the later call the larger: each cursor wins at most once |
| `JournalProofs.SuccessMeaning` | arnold_pipelines/run_authority_store.py:531-619 | a success is either a fresh row at the expected cursor plus one, or a duplicate report that changed nothing |
| `JournalProofs.ExactRetry` | arnold_pipelines/run_authority_store.py:531-556 | in any later state, an exact retry with any cursor returns the original record and cursor and changes nothing |
| `JournalProofs.DivergentRetry` | arnold_pipelines/run_authority_store.py:531-571 | a retry of the identity with other content or another GLEK always raises, under any fault, and changes nothing |
| `JournalProofs.FaultAtomicity` | arnold_pipelines/run_authority_store.py:510-637 | on any table: a storage error means unchanged, an indeterminate one exactly one row more, for every fault but a hook raising StorageError after the commit or CommitIndeterminate before it |
| `JournalProofs.MisreportingIsUntruthful` | arnold_pipelines/run_authority_store.py:620-634 | each of those faults, at each of its stages, misreports a first append, under every codec |
| `JournalProofs.TruthfulExactlyWhen` | arnold_pipelines/run_authority_store.py:510-637 | so a fault leaves the errors truthful over all tables and calls if and only if it is not one of those |
| `JournalProofs.IndeterminateThenRetry` | arnold_pipelines/run_authority_store.py:612-634 | after an indeterminate commit, in any later state, repeating the call reports a duplicate at the very cursor of the row that was added |
| `JournalRows.AdmittedExactlyWhen` | arnold_pipelines/run_authority_store.py:489-507 | exactly which calls are admitted, by their own arguments: nothing blank, a non-negative cursor, an authority contract of this run, coherent, under its intrinsic key if it has one |
| `JournalRows.AdmittedMeans` | arnold_pipelines/run_authority_store.py:495-507 | what an admitted call goes under: the given key, else a non-empty intrinsic key, else the contract's own id; the identity of type and key; the given GLEK, else the one derived from run, revision and identity |
| `JournalRows.DerivedGleks` | arnold_pipelines/run_authority_store.py:236-244 | two admitted calls without a GLEK get the same one if and only if run, revision and identity agree, or the hash collides on two different triples |
| `JournalRows.PlainContractsBothAppend` | arnold_pipelines/run_authority_store.py:470-619 | two contracts with different ids, given neither key nor GLEK, both append, or the hash collides on them |
| `JournalRows.AppendedRowMeans` | arnold_pipelines/run_authority_store.py:572-607 | the row an append adds, cell by cell: this call's run, revision and record, the next cursor, the digest of the record, and the hash of the row before it |
| `JournalRows.RowAcceptedExactlyWhen` | arnold_pipelines/run_authority_store.py:372-451 | replay accepts a row as a record exactly if the row is the one made for that record at that cursor behind that hash |
| `JournalRows.AnswerMeans` | arnold_pipelines/run_authority_store.py:470-637 | the answer to every admitted call on a well-formed table: fault, identity, cursor, GLEK, fault, in this order |
| `JournalRows.ViewMeans` | arnold_pipelines/run_authority_store.py:353-369 | in any table, also a tampered one, a view holds exactly the rows of its run and revision, as often as the table does, integers first and by cursor |
| `OutboxRecordProofs.NewRecordInv` | agentbox/reset_notifications.py:93-234 | the record a preparation writes starts a transaction: prepared, invariant holding; its delivery is left to the restart exactly if the restart terminal owns it, suppressed otherwise; only the interrupted-turn ownership is refused; its fields are in `NewRecordMeans` |
| `OutboxRecordProofs.SupervisorStartedIsGood` | agentbox/reset_notifications.py:247-276 | only moves a record forward and keeps its invariant |
| `OutboxRecordProofs.RestartingIsGood` | agentbox/reset_notifications.py:279-302 | only moves a record forward and keeps its invariant |
| `OutboxRecordProofs.SucceededIsGood` | agentbox/reset_notifications.py:305-353 | always ends in succeeded, also from failed, and never backwards |
| `OutboxRecordProofs.FailedIsGood` | agentbox/reset_notifications.py:356-404 | only moves a record forward and never takes a success back |
| `OutboxRecordProofs.ReconcileIsGood` | agentbox/reset_notifications.py:560-606 | reconciliation only moves a record forward and keeps its invariant |
| `OutboxRecordProofs.ClaimGrants` | agentbox/reset_notifications.py:733-857 | a grant is for a finished restart and an open delivery, is numbered one more than the last and within the budget, and never beside a held lease; when it is given is `GrantedExactlyWhen` |
| `OutboxRecordProofs.ClaimIsGood` | agentbox/reset_notifications.py:733-857 | claiming keeps the record invariant and touches neither restart nor replay |
| `OutboxRecordProofs.DeliveredIsGood` | agentbox/reset_notifications.py:860-890 | recording a success keeps the record invariant, the restart and the attempt count |
| `OutboxRecordProofs.FailureIsGood` | agentbox/reset_notifications.py:893-946 | recording a failure keeps the record invariant, the restart and the attempt count |
| `OutboxFields.NewRecordMeans` | agentbox/reset_notifications.py:93-207 | every field of a new record in terms of the arguments: the request as given; source, turn, reply target and pending replay from the provenance that applies; the fallback only for an undelegated request the restart terminal owns |
| `OutboxFields.ReusedExactlyWhen` | agentbox/reset_notifications.py:1086-1123 | an existing record is reused for a request exactly if it came from the same message and, where the request names a revision, from a request for that revision and runtime source |
| `OutboxFields.MarksMean` | agentbox/reset_notifications.py:247-404 | what each mark does by the status it finds, and that it changes nothing else of the record |
| `OutboxFields.ReconciliationMeans` | agentbox/reset_notifications.py:560-1346 | what reconciliation does by what it finds, in the fields of the record and the identity: succeeded, left to a live supervisor, or failed and to be delivered |
| `OutboxFields.GrantedExactlyWhen` | agentbox/reset_notifications.py:733-857 | a send attempt is granted exactly if the restart is over, the record current, the delivery not terminal, somebody reachable, fewer than eight attempts counted, no retry due later, and no unexpired lease of a live claimer |
| `OutboxFields.ClaimMeans` | agentbox/reset_notifications.py:733-857 | what a claim leaves in the record in each of the other cases, and that it touches the delivery only |
| `OutboxFields.OutcomesMean` | agentbox/reset_notifications.py:860-946 | what recording an outcome leaves: delivered; a retry after 30, 60, 120, 240, 480, 960 or 1920 seconds by attempt; or failed, after a permanent error or the eighth; and no claim |
| `OutboxFields.LogMeans` | agentbox/reset_notifications.py:1396-1409 | a history keeps its latest nineteen entries in order and gains the new one |
| `OutboxFields.ReplayMeans` | agentbox/reset_notifications.py:609-710 | an interrupted turn is given exactly if its restart succeeded, it is pending or held by another, and turn and a source are known; and what giving and reporting leave |
| `OutboxProofs.ScheduleInv` | agentbox/reset_notifications.py:407-1346 | the invariant holds in every state of every schedule |
| `OutboxProofs.StepEvolves` | agentbox/reset_notifications.py:247-1346 | no step removes a record, changes its request or lowers its status |
| `OutboxProofs.StatusClimbs` | agentbox/reset_notifications.py:305-404 | over any stretch of any schedule the status climbs prepared < supervisor_started < restarting < failed < succeeded |
| `OutboxFinality.FailedLeftExactlyWhen` | agentbox/reset_notifications.py:305-353 | a failed restart is left exactly by marking it succeeded |
| `OutboxFinality.SuppressedLeftExactlyWhen` | agentbox/reset_notifications.py:694-1346 | a suppressed delivery is left exactly by a reconciled failure of a current record, or by the recorded outcome of an attempt that was out |
| `OutboxRuns.SuppressedReopenedByReconciliation` | agentbox/reset_notifications.py:1307-1346 | three steps from any unused outbox do the first |
| `OutboxRuns.SuppressedReopenedByLateOutcome` | agentbox/reset_notifications.py:694-946 | a schedule with every claim judged fairly and no lease lapsed does the second |
| `OutboxProofs.RetryBudget` | agentbox/reset_notifications.py:733-857 | at most eight send attempts in the life of a record and no attempt id granted twice, under any crashes, lapsed leases and concurrent sweepers |
| `OutboxProofs.NoFalseSuccess` | agentbox/reset_notifications.py:459-493 | no message goes out for an active restart; a "complete" message is about a record that says succeeded, then and ever after |
| `OutboxPromises.MessageSaysWhatWasRead` | agentbox/reset_notifications.py:459-493 | over every schedule, the message of an attempt says "complete" if and only if the record said succeeded when that attempt was granted |
| `OutboxPromises.RetriesWaitTheirPause` | agentbox/reset_notifications.py:775-946 | over every schedule, a claim granted while a record waits for its retry reads a clock at least 30 * 2^(n-1) seconds after the failure of attempt n |
| `OutboxPromises.RequestIsKept` | agentbox/reset_notifications.py:93-234 | over every schedule, a record keeps the request it was asked with |
| `OutboxPromises.PreparationMeans` | agentbox/reset_notifications.py:93-234 | each step of a preparation: which scan it makes, over which records, on which record it stops, and that only the commit writes |
| `OutboxProofs.HistoriesAreBounded` | agentbox/reset_notifications.py:1256-1265 | in every reachable state both histories hold 1 to 20 entries and end with the current status |
| `OutboxProofs.AtMostOneActive` | agentbox/reset_notifications.py:209-231 | in every interleaving at most one restart is active and one record exists per non-empty source and runtime, though the scan reads record by record under the root lock only; provided no scan skips a record it cannot read and that would have stopped it |
| `OutboxProofs.CommitNeedsTheScan` | agentbox/reset_notifications.py:1074-1083 | writing the new record keeps one active restart at most if and only if no record is active then |
| `OutboxProofs.BlindSkipBreaksExclusivity` | agentbox/reset_notifications.py:1074-1083 | the proviso is needed: skipping the unreadable active record that is left to read ends with two active restarts |
| `OutboxProofs.CommitNeedsTheSourceScan` | agentbox/reset_notifications.py:209-231 | writing the new record keeps one record per key if and only if no record has its key |
| `OutboxProofs.BlindSkipBreaksUniqueness` | agentbox/reset_notifications.py:1102-1106 | the proviso is needed there too: a source scan that cannot read the record of its own source ends with two records of one key |
| `OutboxRuns.TwoOfOneKeyReached` | agentbox/reset_notifications.py:1102-1106 | and a schedule of nine steps from any unused outbox ends so |
| `OutboxRuns.TwoActiveReached` | agentbox/reset_notifications.py:1074-1083 | and a schedule of five steps from any unused outbox ends so |
| `OutboxLease.OneAttemptAtATime` | agentbox/reset_notifications.py:733-946 | if every claimer dies or records its outcome before its lease lapses and no live claimer is taken for dead: never two outstanding attempts of one record, and its backoffs sum to at most 3810 seconds |
| `OutboxLease.DeliveredIsFinal` | agentbox/reset_notifications.py:860-946 | under that discipline `delivered` is final |
| `OutboxLease.LapsedLeaseGrantsTwo` | agentbox/reset_notifications.py:773-790 | for a record that can be addressed, a second attempt is granted beside a live one exactly when the lease has lapsed or the live claimer is taken for dead |
| `OutboxLease.SecondAttemptLosesDelivered` | agentbox/reset_notifications.py:893-946 | and then one attempt's recorded success is lost to the other's failure: the recorders do not compare attempt ids |
| `OutboxRuns.LostDeliveryReached` | agentbox/reset_notifications.py:733-946 | schedules from an unused outbox lose a recorded delivery: one with every claimer judged fairly, one with no lease ever lapsed |
| `OutboxEvidence.SuccessMeansReplacement` | agentbox/reset_notifications.py:305-353 | over every schedule whose `mark_reset_succeeded` comes from supervisors, whatever reconciliation looks at: a succeeded bound record keeps an observation as evidence, which shows another process id on the recorded backend exactly when it was made on that backend |
| `OutboxPromises.RestartReplacesTheNamedProcess` | agentbox/reset_notifications.py:305-353 | over every schedule, from the request of `restart_service` itself: its record is marked succeeded by a supervisor only on seeing another process, on the same backend, than the one that request names |
| `OutboxReplay.TurnsNeedSuccess` | agentbox/reset_notifications.py:609-664 | an interrupted turn is given only after its restart succeeded, which it then has for ever |
| `OutboxReplay.OncePerIdentity` | agentbox/reset_notifications.py:609-664 | between two gifts of a turn to one identity, in any schedule, it was finished or taken over by another |
| `OutboxReplay.TakenOverExactlyWhen` | agentbox/reset_notifications.py:627-634 | a held turn is given to an identity exactly if that is not the holder |
| `OutboxReplay.FinishingFreesAnothersTurn` | agentbox/reset_notifications.py:667-710 | finishing does not compare the holder: whoever reports pending takes the turn from it, and it is given the turn a second time |
| `OutboxReplay.GivenAgainExactlyWhen` | agentbox/reset_notifications.py:667-710 | whatever the state of a turn, held, complete or skipped, a report leaves it open to be given exactly if it says pending: complete is not final |
| `Outbox.OutcomeIsStatus` | agentbox/reset_notifications.py:560-606 | the reconciliation counters say the status each record is left with |
| `Outbox.ResetOutbox.Prepare` | agentbox/reset_notifications.py:93-234 | over the records that can be read: reuse the one that consumed this source, refuse while one is active, otherwise write exactly one new record, the one `NewRecordMeans` describes |
| `Outbox.ResetOutbox.Reconcile` | agentbox/reset_notifications.py:560-606 | every record is reconciled once; the counters count the active records by how they were left |
| `Outbox.SweptMeans` | agentbox/reset_notifications.py:407-493 | one record: a message goes out exactly after a grant, for a finished restart, within the budget, and delivered, retrying with its backoff, failed, waiting and skipped mean what they say |
| `Outbox.ResetOutbox.Sweep` | agentbox/reset_notifications.py:407-456 | every record is swept once at one reading of the clock, and the counters partition the records by what happened; what happens is `SweptMeans`, `GrantedExactlyWhen`, `ClaimMeans` and `OutcomesMean` |
| `Services.WaitForResident` | agentbox/services.py:706-802 | the wait loops return the process of the first poll that is answered and shows the live resident under another id, positive for systemd; none exactly if no poll does |
| `Services.ReplacedExactlyWhen` | agentbox/services.py:491-591 | exactly when a supervisor reports a replacement, in the fields of request and host: the process found is not the one named, or the command exits with zero and some poll shows another resident; and on which evidence |
| `Services.IdentityReadingsAgree` | agentbox/services.py:935-944 | the identity projections of the supervisor and of the outbox agree |
| `Services.RestartServiceBinds` | agentbox/services.py:232-342 | the requests of `restart_service` are bound: they record an old identity on the backend they name |
| `Services.SupervisorSawReplacement` | agentbox/services.py:491-591 | for a bound request a supervisor reports success only after seeing another process id on the same backend, at the preflight or at a poll |
| `Services.UnboundRequestSucceedsUnseen` | agentbox/services.py:530-591 | every request that is not bound is called successful on a host that shows one process and no replacement |
| `Services.SupervisedSafelyExactlyWhenBound` | agentbox/services.py:491-591 | so exactly the bound requests are supervised without a false success, whatever the host shows |
| `Supervisor.ExecutePreparedRestart` | agentbox/services.py:491-626 | the restart is over afterwards, succeeded if the supervisor says so, and no other record is touched |
| `Supervisor.SupervisionFinishes` | agentbox/services.py:594-626 | a supervision leaves the restart finished, succeeded exactly if it saw a replacement or the restart had succeeded before |
| `Supervisor.SupervisionMeans` | agentbox/services.py:491-626 | what it leaves in the record: the evidence of the replacement, its own process id if it went on to restart, the waiting delivery released |
| `Services.ReconcilerSawReplacement` | agentbox/reset_notifications.py:1210-1229 | a reconciled success shows another process on the same backend exactly when the backends agree |
| `Services.ReconcilerAcrossBackends` | agentbox/reset_notifications.py:1223-1229 | across backends even an equal process id counts as a change |
| `Worktrees.AllocatorAgreesWithClassifier` | agentbox/worktrees.py:134-267 | with a fitting resource and git succeeding, the allocator does exactly what the classifier's state says; only for a durable resource without git state does it create where the classifier asks for inspection |
| `Worktrees.AllocatesExactlyWhen` | agentbox/worktrees.py:134-267 | for all inputs and outcomes, exactly when an allocation succeeds in the classifier's terms; the stale-resource refusal is unreachable |
| `Worktrees.AllocationBase` | agentbox/worktrees.py:96-267 | a created branch starts at the commit of the base asked for, or else the default; a reattached one keeps its tip; a new resource records that base, commit and status, and an existing one comes back unchanged |
| `Worktrees.RefusalMeans` | agentbox/worktrees.py:134-267 | which refusal each call gets when git and the lock do not fail: repository, base, state of branch and path, resource, in this order |
| `Worktrees.BadLuckMeans` | agentbox/worktrees.py:134-267 | what a busy lock or a failing git command changes: nothing, or the new branch alone |
| `Worktrees.AllocateIsNonDestructive` | agentbox/worktrees.py:80-112 | whatever is returned and wherever git stopped, no branch, tip, ref, registration, path or resource is removed or changed |
| `Worktrees.AllocateFinishes` | agentbox/worktrees.py:134-305 | a success leaves the branch listed by git at its path, with a fitting resource; whether the directory exists is the next rows |
| `Worktrees.DirectoryExactlyWhen` | agentbox/worktrees.py:145-176 | a success leaves the directory existing if and only if it existed or the classifier did not say ready |
| `Worktrees.DeletedWorktreeIsReused` | agentbox/worktrees.py:145-176 | a listed worktree whose directory was deleted is reused as it is, and the classifier says ready |
| `Worktrees.FinishedSurvives` | agentbox/worktrees.py:80-112 | later allocations of any operation leave it so |
| `Worktrees.FinishedIsReused` | agentbox/worktrees.py:134-191 | allocating again reuses the same worktree and resource and changes nothing, even if git would fail, and the classifier says ready |
| `Worktrees.Allocator.AllocateWorktree` | agentbox/worktrees.py:80-267 | the allocation takes nothing away, and what it returns is listed by git with its resource |
| `Worktrees.ClassifyMeans` | agentbox/reconcile.py:338-378 | what each answer of the classifier says about worktrees, path, branch, remote branch and resource, and in which order they decide |
| `Locks.RunKeepsInv` | agentbox/locks.py:53-79 | one owner at most, and the file there exactly when there is one, along every interleaving |
| `Locks.MutualExclusion` | agentbox/locks.py:53-79 | on every interleaving with failing writes and crashes at most one call holds the lock, whatever the tokens |
| `Locks.FreeExactlyWhen` | agentbox/locks.py:53-79 | the lock is free exactly when no call holds it and none left it behind |
| `Locks.LeakExactlyWhen` | agentbox/locks.py:68-79 | a call leaves the file behind exactly when it crashes holding it or cannot write the token; leaving the body always removes it |
| `Locks.StagesLeftExactlyWhen` | agentbox/locks.py:53-79 | how a call leaves each stage: it creates the file only where there is none, gives up only where there is one, removes it only on reading its own token |
| `Locks.FileChangesExactlyWhen` | agentbox/locks.py:53-79 | exactly when the file changes and to what; a failed write leaves the part of the token that was written |
| `Locks.LeakedForever` | agentbox/locks.py:53-66 | a file left behind is never removed: no later call ever holds the lock |
| `Locks.Acquire` | agentbox/locks.py:53-66 | the polling loop takes the lock at the first poll that finds no file, and times out only if every poll found one |
| `Host.ProvisionedFinishes` | agentbox/host.py:150-194 | however far the loop got, nothing was removed and every worktree it returned is still listed with its resource at the end, after all that others did meanwhile |
| `Host.PathsAfter` | agentbox/host.py:150-165 | the paths after a full provisioning are those before it, those of the allocations that did not reuse, and those others made |
| `Host.SessionNeedsEveryWorktree` | agentbox/host.py:80-112 | a launch adds a session only when git lists every requested repository's worktree with its resource; only such a launch, recorded, is called running |
| `Host.SessionHasItsDirectoriesExactlyWhen` | agentbox/host.py:80-112 | where the other actors keep off this operation: a started session finds every directory if and only if each was there before the launch, or is that of a requested repository whose worktree the classifier does not call ready |
| `Host.SessionDirectoriesByReuse` | agentbox/host.py:80-112 | with any other actors: if and only if those of the reused worktrees were there or something made them meanwhile |
| `Host.SessionWithoutItsDirectory` | agentbox/host.py:95-112 | so a session is started without its directory: the one worktree was deleted by hand |
| `Host.SessionStartedMeans` | agentbox/host.py:197-274 | starting adds that session or nothing, calls the operation running exactly if it started and was recorded, failed otherwise, and logs that one event |
| `Host.LaunchRecords` | agentbox/host.py:80-274 | what every launch records: its start, one event per worktree with how it was come by, and how it ended; running exactly on success, nothing of any other operation |
| `Host.PreparationRecords` | agentbox/host.py:115-194 | between preparation and session a new operation is launching and a known one as it was |
| `Host.BranchesStartAtTheirBases` | agentbox/host.py:150-165 | every branch a launch creates starts at the commit that the base wanted for its repository had before the launch, whatever others did meanwhile |
| `Host.FailureKeepsThePrefix` | agentbox/host.py:166-188 | a failed launch keeps the worktrees before the failing repository, names exactly those, touches no session |
| `Host.RetryReusesThePrefix` | agentbox/host.py:115-194 | a later launch reuses exactly those worktrees and resources first |
| `Host.RelaunchHidesARunningSession` | agentbox/host.py:218-246 | launching a running operation again records it as failed before running while its session runs on |
| `Host.SessionHiddenExactlyWhen` | agentbox/host.py:218-246 | a launch leaves an operation recorded as failed with its session there exactly when the session was there before, or it started and could not be recorded |
| `Host.HostLauncher.ProvisionWorktrees` | agentbox/host.py:150-165 | allocations and ready events, one per repository, up to the first refusal |
| `Host.HostLauncher.LaunchHost` | agentbox/host.py:80-112 | the launch takes nothing away, adds a session only when git lists every requested worktree, and succeeds exactly if the session was added and recorded |
| `NoDebt.CheckAggregate` | scripts/generate_m11_no_debt.py:196-254 | accepts exactly the well-formed aggregates and indexes their expected receipts by hash |
| `NoDebt.Consume` | scripts/generate_m11_no_debt.py:260-281 | the loop over the shards accepts exactly distinct, expected, pairwise disjoint shards and collects their hashes, inventories and kinds |
| `NoDebt.CompletedIsPartition` | scripts/generate_m11_no_debt.py:260-287 | what the ordered loops check is the unordered condition: an exact partition |
| `NoDebt.Generate` | scripts/generate_m11_no_debt.py:196-322 | a receipt is produced if and only if the shards are an exact partition, and it is that partition's receipt under its own hash |
| `NoDebtFields.PartitionExactlyWhen` | scripts/generate_m11_no_debt.py:196-287 | what is accepted, in the fields of aggregate and shards: each shard asked for by kind, digest, command, inventory, revision and runtime; each entry supplied; no shard and no test twice; both kinds; the expected inventory |
| `NoDebtFields.ShardAcceptedExactlyWhen` | scripts/generate_m11_no_debt.py:138-193 | the accepted shards are exactly the clean runs of an increasing inventory under their own digests |
| `NoDebtFields.AggregateAcceptedExactlyWhen` | scripts/generate_m11_no_debt.py:196-254 | what an accepted aggregate is, field by field |
| `NoDebtFields.StringListExactlyWhen` | scripts/generate_m11_no_debt.py:112-121 | a string list is accepted exactly if it is not empty, holds no empty string and climbs strictly |
| `NoDebtFields.LtMeans` | scripts/generate_m11_no_debt.py:117-118 | strings are ordered by code points: a proper prefix, or the smaller where they first differ |
| `NoDebtFields.ReceiptMeans` | scripts/generate_m11_no_debt.py:289-321 | the sources of an emitted receipt are the supplied shards, each once, by climbing digest, with what they ran and where their custody lies; the counts are those of the whole inventory |
| `NoDebtReceipt.DisjointShardsAreAPartition` | scripts/generate_m11_no_debt.py:256-287 | well-formed shards of both kinds with disjoint inventories are an exact partition of the aggregate that asks for them: acceptance excludes nothing else |
| `NoDebtReceipt.Validate` | scripts/generate_m11_no_debt.py:325-415 | the independent validator accepts exactly the valid receipts |
| `NoDebtFields.ReceiptAcceptedExactlyWhen` | scripts/generate_m11_no_debt.py:325-415 | what an accepted receipt is, field by field: clean counts that its climbing, accounted sources of both kinds add up to |
| `NoDebtReceipt.ShardOrderIsIrrelevant` | scripts/generate_m11_no_debt.py:256-321 | any permutation of the shards is accepted alike and gives the identical receipt |
| `NoDebtReceipt.CountsAddUp` | scripts/generate_m11_no_debt.py:289-321 | collected and passed counts are the inventory size, nothing else is counted, and the shard sizes add up to it |
| `NoDebtReceipt.ValidatorAcceptsGenerator` | scripts/generate_m11_no_debt.py:325-415 | everything the generator emits passes the validator |
| `ShellQuote.LexQuote` | agentbox/tmux.py:219-222 | a quoted argument, whatever follows it, tokenises to that argument |
| `ShellQuote.ArgvRoundTrip` | agentbox/tmux.py:208-211 | tokenising the rendered argv gives back exactly the arguments |
| `ShellQuote.CommandRoundTrip` | agentbox/tmux.py:202-216 | the whole command tokenises to the arguments and the two append redirections, nothing else |
| `ShellQuote.RenderingIsInjective` | agentbox/tmux.py:208-222 | different argument lists never render alike |
| `ShellQuote.QuotedExactlyWhen` | agentbox/tmux.py:219-222 | an argument is left as it is exactly if it is not empty and has only characters the shell never interprets; otherwise it is put between apostrophes |
| `Porcelain.ParseWorktreePorcelain` | agentbox/git_worktree.py:123-150 | the parsing loop computes the specified fold |
| `Porcelain.PorcelainRoundTrip` | agentbox/git_worktree.py:123-150 | parsing printed records, unknown lines interspersed, blank lines or not, gives back the records |
| `Porcelain.ListWorktreesRoundTrip` | agentbox/git_worktree.py:153-158 | stripping the output first changes nothing |
| `Porcelain.ParsedIsClean` | agentbox/git_worktree.py:245-269 | whatever the text, every record returned is clean |
| `Porcelain.CleanIsExact` | agentbox/git_worktree.py:245-269 | a record can be recovered from some text if and only if it is clean |
| `Baseline.CaptureFiles` | scripts/fixer_recovery_baseline.py:308-362 | captures exactly when every path is readable; then one record per path as read, and a window that spans them |
| `Baseline.WindowOf` | scripts/fixer_recovery_baseline.py:332-361 | the window runs from the least start to the greatest end, torn exactly if a file changed under its read |
| `Baseline.CursorsAreOrdered` | scripts/fixer_recovery_baseline.py:203-208 | cursors are ordered totally, by time, then size, then file |
| `Baseline.RouteRecords` | scripts/fixer_recovery_baseline.py:846-883 | entries by category in order, each record's direct violations, and the requests with an accepted decision |
| `Baseline.RouteQueue` | scripts/fixer_recovery_baseline.py:809-917 | the violations are exactly the records that offend against the whole queue, with their reasons |
| `Baseline.CanonicalMeans` | scripts/fixer_recovery_baseline.py:903-910 | a queue is canonical exactly when no record offends |
| `Baseline.CanonicalExactlyWhen` | scripts/fixer_recovery_baseline.py:809-910 | the same in the records' own fields: canonical kinds, every request id captured, every raw claim accepted by a decision routed as an action |
| `Baseline.ClassifyMeans` | scripts/fixer_recovery_baseline.py:786-806 | which records fall in which category and under which action |
| `Baseline.EntriesMean` | scripts/fixer_recovery_baseline.py:846-883 | the lists hold exactly an entry for each routed record, with its path, kind, action and request |
| `Baseline.CanonicalClaimsAreAccepted` | scripts/fixer_recovery_baseline.py:885-901 | then every claim whose raw kind ends in the suffix has an accepted decision and a captured request |
| `Baseline.PaddedClaimNeedsNoDecision` | scripts/fixer_recovery_baseline.py:885-901 | every other claim makes a canonical queue with its request alone and no decision |
| `Baseline.ClaimNeedsDecisionExactlyWhen` | scripts/fixer_recovery_baseline.py:786-901 | so canonical queues force a decision for a claim if and only if its raw kind ends in the suffix |
| `Predeploy.CaptureRefs` | scripts/fixer_recovery_baseline.py:1093-1113 | records each live ref that a pattern matches and each pattern that matched none, sorted by name |
| `Predeploy.RefMatchesMeans` | scripts/fixer_recovery_baseline.py:1129-1133 | a pattern that ends in a wildcard matches what lies under its prefix, any other only itself |
| `Predeploy.FindOverlaps` | scripts/fixer_recovery_baseline.py:1343-1357 | finds exactly the paths that are captured more than once |
| `Predeploy.BuildEnvelope` | scripts/fixer_recovery_baseline.py:1334-1430 | coherent exactly if no window is torn or unordered, nothing overlaps and the router is canonical; addressed by its digest |
| `Predeploy.CoherentExactlyWhen` | scripts/fixer_recovery_baseline.py:1334-1430 | a capture is coherent exactly when no file changed under its read, none was captured twice and the queue has no violation; the test for order never decides |
| `Predeploy.CaptureBaseline` | scripts/fixer_recovery_baseline.py:1433-1483 | captures exactly when everything is readable and the queue routes; the envelope holds what was read |
| `Predeploy.CheckSourceProof` | scripts/fixer_recovery_predeploy.py:196-239 | passes exactly if every file and recorded ref is unchanged; lists exactly the missing files, the mismatched files and the drifted refs with their reasons |
| `Predeploy.CheckWindowIntegrity` | scripts/fixer_recovery_predeploy.py:263-286 | passes exactly if every window is whole and ordered and nothing overlaps; lists exactly the torn and the unordered sources |
| `Predeploy.Verify` | scripts/fixer_recovery_predeploy.py:150-296 | the four checks pass exactly when all their conditions hold |
| `Predeploy.PassesExactlyWhen` | scripts/fixer_recovery_predeploy.py:150-296 | what it takes to pass, in the fields of the envelope and the live state |
| `Predeploy.DriftMeans` | scripts/fixer_recovery_predeploy.py:215-232 | what each reported drift says about the recorded ref and the live ones, and that none is reported exactly if the ref is as recorded |
| `Predeploy.CaptureAndVerifyAgree` | scripts/fixer_recovery_predeploy.py:150-296 | a captured envelope passes later exactly when the capture was coherent and everything captured is unchanged |
| `Predeploy.FreshCaptureIsUnchanged` | scripts/fixer_recovery_predeploy.py:196-239 | against the state it was read from, a captured envelope is unchanged |
| `Predeploy.CoherentCapturePasses` | scripts/fixer_recovery_predeploy.py:150-296 | a coherent capture over unchanged files and refs passes all four checks |
| `Predeploy.ChangedFileFails` | scripts/fixer_recovery_predeploy.py:196-213 | a captured file that is gone or differs always fails |
| `Predeploy.EditsAreCaught` | scripts/fixer_recovery_predeploy.py:150-193 | an edited envelope that keeps an address passes exactly if only the capture time was edited; an edited payload needs both addresses replaced, or a digest collision |
| `Predeploy.NewRefIsSeenExactlyWhen` | scripts/fixer_recovery_predeploy.py:215-232 | a ref that appears after an unchanged capture is seen exactly when its full name was recorded as an unmatched pattern |
| `Predeploy.NewBranchUnderGlobIsUnseen` | scripts/fixer_recovery_predeploy.py:215-232 | so a new branch under a wildcard pattern never fails the check |
| `Closure.Deduplicate` | scripts/check_recovery_topology_surfaces.py:174-182 | the scan keeps the first surface of each id |
| `Closure.BuildRouteClosureManifest` | scripts/check_recovery_topology_surfaces.py:413-448 | the manifest holds, per id, the record of its last surface with a closing step |
| `Closure.ClassifyFinalRouteAuthority` | scripts/check_recovery_topology_surfaces.py:451-585 | closure is complete exactly when every surface has its closed, equal, proven record, every record a surface and every kind a step; each list of ids and kinds in the verdict is exact |
| `Closure.ClosureDetectsDrift` | scripts/check_recovery_topology_surfaces.py:413-545 | against an earlier manifest, complete exactly when each id has the same surface in id, family, kind, location and content hash |
| `Closure.RecordMeans` | scripts/check_recovery_topology_surfaces.py:396-448 | the record of a surface repeats it, is closed by the step of its kind and forbids the four sources of authority |
| `Closure.ClosedSurfacesAreProven` | scripts/check_recovery_topology_surfaces.py:396-545 | complete closure carries, for each surface, a proof that names that surface and content and no other |
| `Closure.ReferencesAreUnambiguous` | scripts/check_recovery_topology_surfaces.py:396-410 | equal proof references name the same surface and the same content |
| `Closure.ScansCloseExactlyWhenEqual` | scripts/check_recovery_topology_surfaces.py:413-545 | for scans: complete exactly when the later scan found precisely the mapped surfaces of the earlier |
| `Closure.SecondOnTheLineIsUnseen` | scripts/check_recovery_topology_surfaces.py:174-182 | a second surface of one kind on one line leaves no trace in any scan, before or after |

## Left out

- SQLite, `flock`, `os.replace`, fsync and JSON are atomic steps and a codec with an inverse; SHA-256
  is an arbitrary function of its argument, with collisions stated and never assumed away.
- Records' error histories, the attempt ids inside histories, token and nonce texts, and the public
  and listing projections of the outbox: they feed no decision modelled here.
- Reply and fallback addresses are kept as given; the source strips blanks around them.
- Times are whole seconds, and unreadable timestamps in a record count as absent.
- The message wording beyond "complete" or "failed".
- Provider errors are classified before they reach the model: permanent or not.
- How `restart_service` builds its request, launches the detached process and reads the service
  manager: the request and the observations are inputs.
- A contract that `to_json` cannot serialise, and contract fields the journal never reads (`body`
  stands for them). The contract classes are not part of this model.
- `OutboxEvidence.SuccessMeansReplacement`: assumes that `mark_reset_succeeded` is called by supervisors
  only, as `services.py` does.
- `Outbox.ResetOutbox.Prepare`: one undisturbed call; the interleaved scan is in `OutboxSystem`.
- `Outbox.ResetOutbox.Sweep`: one undisturbed sweep, without the legacy acknowledgement, a separate part
  of a record that no delivery decision reads; interleaved sweeps are in `OutboxSystem`.
- Paths are text with an idempotent `resolve`; branch and path names are arbitrary functions of the
  operation and repository, so nothing rests on their being distinct.
- A failed `git worktree add` leaves nothing but possibly the new branch; a successful one does not
  change what base references resolve to.
- `Host.SessionHasItsDirectoriesExactlyWhen`: for other actors that neither make this operation's
  directories nor check out its branches; `Host.SessionDirectoriesByReuse` is about all others.
- Generic parts of the operation store: other resource types, lock versions and the operation's own
  state, whose transition to running may be refused after the session started.
- Directory creation, the process environment and the text of the lock's token, beyond that it
  neither starts nor ends with a blank.
- JSON typing of the no-debt inputs (booleans for integers, missing keys), and which of several
  errors is reported first.
- Mapping shapes of a malformed baseline, the parsing of queue files, and the predeploy checks on
  versions, selectors, editable installs, ledger, initiative and session: presence checks on single
  fields. Paths sort as text.
- `Closure.ClassifyFinalRouteAuthority`: returns its sorted lists as sets, and not the counts
  derived from them.
- The scanners that detect surfaces, and the end-to-end verdicts built on these receipts.
- Text the quoter never produces (double quotes, expansions, control operators) is outside the
  modelled tokeniser, which returns nothing for it.
- `cli.py`, `resident_profile.py`, `notify.py`, `doctor.py`, `bootstrap.py`, `github.py`,
  `cleanup.py`, `operation_resolver.py` and `redaction.py`: plumbing around the modelled code.

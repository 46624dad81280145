# Verification of the PAYO browser and script cores

PAYO pays private payroll on Starknet. Its browser half is a set of asynchronous operations that
share a few mutable references; its scripts print witnesses, encode field elements, join limbs and
build journals. This project models those cores in Dafny and proves what they keep.

The asynchronous cores (wallet, recovery, refresh, reviewer lookup) are modelled twice: as a step
function over a state and an event, where an event is one stretch of code between two awaits, and as
a class whose methods update the same fields in place. Their theorems are about every run, that is,
every interleaving of events from the initial state (`IsRun`). Each class carries the run it has gone
through as a ghost history, so that its methods promise their callers what those theorems say.
The deployment is a method over a chain on which others act at every await; its theorems are about
one run however it ends, and about any history of such runs.

| file | core |
|---|---|
| `wallet_protocol.dfy`, `wallet_display.dfy`, `wallet_properties.dfy`, `wallet_progress.dfy`, `wallet_provider.dfy` | the single-wallet-request protocol: lock token, lock kind, displayed transaction |
| `shield_quotes.dfy` | amounts of a shield, from quote to measured balance |
| `deployment.dfy`, `deployment_history.dfy` | the resumable contract deployment, one run and any sequence of interrupted runs |
| `recovery_poller.dfy`, `recovery_properties.dfy`, `recovery_effect.dfy` | background recovery of proof jobs by overlapping effect instances |
| `activity_refresh.dfy`, `reviewer_identity.dfy` | latest-wins refresh of the activity page; reviewer lookup against file import |
| `toml_value.dfy`, `toml_printer.dfy`, `toml_decoder.dfy`, `toml_round_trip.dfy` | the witness printer and a strict decoder that shares nothing with it but the values |
| `bits.dfy`, `byte_encoders.dfy`, `limb_joins.dfy` | bitwise operations, the two 32-byte encoders, 128-bit limbs |
| `linear_entitlement.dfy` | linear stream entitlement and stream drafts |
| `replay_cache.dfy` | the policy signer's replay cache against its whole call history |
| `versions.dfy` | the wallet API version order |
| `payroll_journal.dfy` | per-token totals, double-entry journal, package partition |
| `evidence_coverage.dfy` | the coverage checks of the evidence verifier |
| `wrappers.dfy`, `text.dfy` | `Option` and `Result`; shared characters |

`dafny verify dfyconfig.toml` checks everything.

## What the code does not promise

Some statements one would expect are false of the code. Each is shown by a concrete run or for a
whole family of inputs, next to the condition under which the statement does hold: an exact one,
except for the printer's keys.

- Registry operations test the lock, await, and take it without testing again, so they can overlap a
  payroll (`RegistryOverlapsPayroll`). Every acquire finds the lock free if and only if no registry
  acquire falls while a rival that acquired after its own check still holds (`ExclusionExactly`), and
  the kind agrees with the holder if and only if no registry acquire hits a private holder
  (`KindNamesPrivateHolder`).
- Of the steps after an operation has started, only wallet replies and balance refreshes make sure
  that the display is still theirs before they write it. The confirmation
  watcher does not (`StaleWatcherRegressesDisplay`), and neither do registry replies and finishes
  (`DeadRegistryWritesOverPayroll`) or deployment broadcasts and finishes. While a private request is
  unanswered and holds the lock, its own progress is shown if and only if none of these, no clear and
  no reconcile or release that reaches the displayed transaction has come in between
  (`OwnProgressExactly`).
- Reconciling a recovered run does not ask whose hash it was given: it takes the lock of a payroll
  that is still unanswered and shows it confirmed under the foreign hash, so that a second payroll can
  start beside it (`ForeignReconcileOpensSecondPayroll`). An unanswered request holds its lock if and
  only if nothing of the kind has come in between (`UnansweredHoldsExactly`).
- A deployment rerun started while an earlier broadcast is open declares or deploys again, and the
  earlier one can still land (`UnsettledRerunRepeats`): an undisturbed run repeats an earlier submission if and only if the plan
  still asks for it and it has not taken effect (`RerunRepeatsExactly`). Nothing that took effect is
  submitted twice when each run's broadcasts settle before the next run (`NothingTwice`).
- Locking, or switching the workspace, empties the attempted set but not the recoveries in flight
  (`RelockRecoversTwice`), and an eligible run listed twice is recovered again at once
  (`DuplicateIsRetriedAtOnce`). Recoveries and timers exclude each other in every state if and only if
  the set is never emptied while a recovery is in flight or a timer is pending, and no run is started
  while its own timer is pending (`ExclusiveExactly`). A finished run stays out of reach exactly until the set is emptied
  (`FinishedExactlyUntilCleared`).
- A refresh runs with the session its closure captured, not with the workspace's session. A handler
  that was under way when the workspace was locked refreshes with the old session afterwards: it takes
  a new generation, sets the loading flag and refills the locked page (`StaleHandlerRefillsLockedPage`).
  A report correction writes the contributor list without a generation check
  (`CorrectionAfterLockShowsPayees`). From a locking refresh on, a list shows records if and only if
  the last step that wrote it answered a refresh that captured a session and started since, or, for
  contributors, was a correction (`LockedPageShowsExactly`); while the workspace stays locked, every
  such refresh is a stale one (`RefillingRefreshIsStale`).
- A failed identity import does not start a new generation (`FailedImportDoesNotSupersede`): until the
  user acts again, an identity is shown if and only if the newest generation's lookup has answered
  with a verified one since (`FailedImportExactly`).
- The printer writes keys raw, so keys outside the TOML v1.0.0 bare-key alphabet can collide
  (`RawKeysCollide`). With bare keys every value and every file is recovered (`ValueRoundTrip`,
  `FileRoundTrip`).
- Limbs out of range overlap (`OutOfRangeLimbsCollide`): splitting returns the joined limbs if and
  only if the low one is in range (`SplitReturnsLimbsExactly`).
- A repeated expected name hides an extra coverage entry (`RepeatedNameHidesExtra`): whatever passes
  is a reordering of the expected entries if and only if their names are distinct, or conflict so that
  nothing passes (`SoundExactly`). The verifier checks that the names are distinct first.
- With a clock that runs backwards a nonce can be accepted twice within a minute
  (`BackwardClockReplays`): for any clock, it is refused if and only if it was accepted before and
  every call since came before its expiry (`RefusedExactly`).

## Model

| member | source | states |
|---|---|---|
| WalletProperties.TokensUniqueAlways | app/starknet/starknet-wallet.tsx:889-900 | In every interleaving each operation in flight works under its own token, whose purpose matches the operation's stage and kind, and the lock holds an already issued token |
| WalletProperties.KindNamesPrivateHolder | app/starknet/starknet-wallet.tsx:895-897 | Over any run, the kind is set exactly when the holder is a private action and then equals its kind, in every state, if and only if no registry acquire hits a private holder |
| WalletProperties.PrivateHolderHasKind | app/starknet/starknet-wallet.tsx:895-897 | In every run without exception, a private action that holds the lock has its own kind set |
| WalletProperties.CoherenceStep | app/starknet/starknet-wallet.tsx:1382-1383 | The only step that makes kind and lock disagree is a registry acquire over a private holder |
| WalletProperties.LockGain | app/starknet/starknet-wallet.tsx:895-896 | A token comes to hold the lock only by an acquire, and then it is fresh |
| WalletProperties.LockLoss | app/starknet/starknet-wallet.tsx:790-793 | Without an overwriting acquire a held lock is lost only to nobody, and only through reconcile or release of a payroll, disconnect, or a finishing step of the operation that carries the token |
| WalletProperties.LostForever | app/starknet/starknet-wallet.tsx:902-923 | A token that lost the lock never holds it again |
| WalletProperties.SecondRequestNeedsHandover | app/starknet/starknet-wallet.tsx:889-897 | In any run, a private request that starts while an earlier one is unanswered was let in by a reconcile, release, disconnect or overwriting registry acquire that took the earlier request's own lock in between |
| WalletProperties.UnansweredHoldsExactly | app/starknet/starknet-wallet.tsx:1311-1314 | An unanswered request holds its lock exactly as long as there is no disconnect, no overwriting registry acquire and, for a payroll, no release and no reconcile with any valid hash |
| WalletProperties.ForeignReconcileOpensSecondPayroll | app/ui/app-shell.tsx:184-186 | A run in which recovering another run's hash shows an unanswered payroll confirmed under it and lets a second payroll start beside the first |
| WalletProperties.FinishKeepsOthersLock | app/starknet/starknet-wallet.tsx:845-850 | In any interleaving, registry operations included, a finishing operation whose token does not hold the lock changes neither lock nor kind; one whose token does hold it frees it when it ends, except when a recoverable kind is kept for recovery |
| WalletProperties.LateReplyIsInert | app/starknet/starknet-wallet.tsx:902-923 | Once a request's token has lost the lock, its later wallet reply, success or rejection, leaves lock, kind and displayed transaction unchanged |
| WalletProperties.RejectionFreesUnlessAmbiguous | app/starknet/starknet-wallet.tsx:924-957 | A definitive non-submission, or any rejection of another kind, frees the lock at once and shows the failure; an ambiguous one of a payroll, claim or remediation keeps the lock with neutral progress |
| WalletProperties.AmbiguousRejectionHoldsLock | app/starknet/starknet-wallet.tsx:928-935 | From any reachable state, over every continuation without an overwriting registry acquire: the lock is held at any later point exactly when no disconnect, and for a payroll no reconcile or release, has happened since; a claim's or remediation's is freed by disconnect alone |
| WalletProperties.RegistryCheckOrigin | app/starknet/starknet-wallet.tsx:1359-1361 | Every pending registry check was passed at an earlier step with the lock free |
| WalletProperties.OverwriteNeedsRival | app/starknet/starknet-wallet.tsx:1610-1633 | A registry acquire overwrites a held lock only when another acquire fell between its own check and it |
| WalletProperties.ExclusionExactly | app/starknet/starknet-wallet.tsx:1610-1633 | Every acquire of any kind finds the lock free if and only if no registry acquire falls while a rival that acquired after its own check still holds |
| WalletProperties.ExclusionWithoutRivals | app/starknet/starknet-wallet.tsx:2032-2045 | In particular, exclusion holds in every run where no other acquire falls between a registry operation's check and its acquire |
| WalletProperties.HolderLetsGo | app/starknet/starknet-wallet.tsx:1445-1459 | Between two acquires, with no overwriting one after the first, the earlier holder let go, by a handover or by finishing |
| WalletProperties.RegistryOverlapsPayroll | app/starknet/starknet-wallet.tsx:1359-1383 | A run with two open wallet requests, a registry lock whose kind says payroll, and a second payroll with no handover |
| WalletProperties.StaleWatcherRegressesDisplay | app/starknet/starknet-wallet.tsx:784-789 | A run in which an old watcher shows a reconciled payroll over a newer request's progress |
| WalletProperties.DeadRegistryWritesOverPayroll | app/starknet/starknet-wallet.tsx:1392-1398 | A run in which a registry operation that lost its token is shown over a new payroll's progress, while the payroll holds the lock |
| WalletProperties.OwnProgressExactly | app/starknet/starknet-wallet.tsx:900-957 | While a private request is unanswered and holds the lock, the display is its own pending transaction if and only if no chain reply, registry reply or finish, deployment broadcast or finish, clear, or reconcile or release that reaches the display has come since its start |
| WalletDisplay.DisplayAlwaysWellFormed | app/starknet/starknet-wallet.tsx:777-957 | In every reachable state the stage and the fields shown agree: a waiting transaction has neither hash nor error, a confirming one has a hash, a confirmed one has a hash unless it is a deployment with nothing to submit, a failed one has an error |
| WalletDisplay.ConfirmedHasEvidence | app/starknet/starknet-wallet.tsx:784-837 | A transaction shown as confirmed was confirmed by the chain, or recovered by the canonical indexer, under the very hash that is shown |
| WalletDisplay.BalanceReachesOwnHashOnly | app/starknet/starknet-wallet.tsx:818-835 | A balance outcome reaches the display only while its own hash is shown, and leaves that hash as it is |
| WalletProgress.SubmissionStartsExactly | app/starknet/starknet-wallet.tsx:871-900 | A request has an effect if and only if the wallet is a connected Ready wallet on Mainnet, the privacy capability is unknown, zero, available or an error, and nobody holds the lock; then it holds the lock under a token of its own, with its kind, and is shown waiting with just its amounts |
| WalletProgress.SubmittedAwaitsChain | app/starknet/starknet-wallet.tsx:902-917 | After the wallet submits a request that still holds the lock, the operation awaits the chain for that very hash, and its own transaction is shown confirming it |
| WalletProgress.ConfirmedAwaitsBalance | app/starknet/starknet-wallet.tsx:779-799 | After a successful chain reply a shield, swap or withdrawal awaits the balance under the same token, hash and transaction; after one of a payroll, claim or remediation, or any failure, the operation is gone |
| WalletProgress.OwnValuesWin | app/starknet/starknet-wallet.tsx:800-827 | A measured balance puts the values the request has over those displayed under its hash and keeps the rest, except that a shield's earlier balance is its own even when undefined |
| WalletProgress.OperationStays | app/starknet/starknet-wallet.tsx:777-957 | Over any run an operation stays exactly as it is until an event that names it |
| WalletProgress.UnexpectedIsIgnored | app/starknet/starknet-wallet.tsx:777-957 | No operation is answered twice or out of turn: a reply or continuation that its operation is not waiting for changes nothing |
| WalletProgress.ValidHashExactly | app/starknet/starknet-wallet.tsx:1304 | A recovered hash is accepted if and only if it is 0x and one to sixty-four hexadecimal digits |
| WalletProvider.Provider.SubmitPrivateActions | app/starknet/starknet-wallet.tsx:871-900 | A request starts exactly when it is admitted and the lock is free; every earlier request that is still unanswered has then had its own lock taken from it |
| WalletProvider.Provider.OnWalletReply | app/starknet/starknet-wallet.tsx:902-957 | A token that ever lost the lock changes nothing visible; one that holds it keeps it for a submitted or an ambiguous recoverable request and frees it otherwise; a submitted request goes on to await the chain for its hash |
| WalletProvider.Provider.OnChainReply | app/starknet/starknet-wallet.tsx:779-799 | The outcome is shown under its hash without a token test; nobody else's lock or kind is touched, and the own lock is freed; a successful shield, swap or withdrawal goes on to await the balance under the same token, hash and transaction, and every other operation is finished |
| WalletProvider.Provider.OnBalanceReply | app/starknet/starknet-wallet.tsx:799-850 | The display changes only while it shows this hash, which stays, and then says whether the balance was refreshed and why not; nobody else's lock is touched and the operation ends |
| WalletProvider.Provider.ReconcilePayrollTransaction | app/starknet/starknet-wallet.tsx:1300-1338 | A malformed hash changes nothing; any valid one takes the lock of whatever payroll holds it and never that of another private kind |
| WalletProvider.Provider.OnReconcileBalanceReply | app/starknet/starknet-wallet.tsx:1328-1336 | The outcome reaches only a displayed payroll with this hash, and no lock |
| WalletProvider.Provider.ReleasePayrollTransaction | app/starknet/starknet-wallet.tsx:1340-1346 | Afterwards no payroll holds the lock or is shown; another private action keeps its lock and kind |
| WalletProvider.Provider.ClearConnection | app/starknet/starknet-wallet.tsx:519-521 | Lock, kind and display are empty, the operations stay in flight, and the holder's token counts as lost |
| WalletProvider.Provider.AcquireForRegistry | app/starknet/starknet-wallet.tsx:1888-1890 | The later acquire leaves the kind alone, and overwrites only a rival that acquired after this operation's own check and still holds |
| WalletProvider.Provider.OnRegistryFinish | app/starknet/starknet-wallet.tsx:1427-1434 | Frees the lock only under the operation's own token, which does not hold it afterwards |
| WalletProvider.Provider.OnDeploymentFinish | app/starknet/starknet-wallet.tsx:1825-1848 | Nobody else's lock is touched; the hash shown is the deploy transaction's, or else on success the last declaration's |
| WalletProvider.Provider.Promises | app/starknet/starknet-wallet.tsx:777-957 | Between any two stretches tokens are unique, a private holder's kind is set, the display is well formed and a confirmation on it has evidence |
| ShieldQuotes.ShieldAmountsBalanced | app/starknet/starknet-wallet.tsx:1026-1078 | Amounts from shieldToken, by a new or a reused quote, have gross = fee + net with fee and net positive |
| ShieldQuotes.QuoteDecidesOrIsIgnored | app/starknet/starknet-wallet.tsx:1051-1058 | With a usable quote no answer of the fee service changes the outcome; any other quote gives the outcome of none |
| ShieldQuotes.ShieldedExactly | app/starknet/starknet-wallet.tsx:1026-1078 | An amount is shielded if and only if the public balance covers it and either a quote for this token and amount, at most 30 000 ms old, or a positive answer of the service for this token below the amount is there; the amounts are those of that quote or answer |
| ShieldQuotes.DisplayedShieldBalanced | app/starknet/starknet-wallet.tsx:784-837 | In every reachable state a displayed shield has gross = fee + net, all non-negative, given amounts that came from shieldToken |
| ShieldQuotes.MeasuredBalanceIsDisplayed | app/starknet/starknet-wallet.tsx:801-827 | When the measured balance of any shield that awaits it arrives, the displayed net is the measured increase, floored at zero, unless it exceeds gross, when the quote stands |
| ShieldQuotes.ShieldEndsMeasured | app/starknet/starknet-wallet.tsx:777-830 | Over any run: a shield with a known earlier balance that starts, is submitted while it holds the lock, confirmed and measured, with its hash still displayed, ends confirmed with the measured net, the fee that leaves of gross, and the balance refreshed |
| TopologyDeployment.DeployTopology | app/starknet/starknet-wallet.tsx:1726-1824 | From any chain, with others acting at every await: a normal return means every planned class is declared, every planned address holds its planned class and every binding reads its expected value, with exactly the reported transactions broadcast; a foreign class at a planned address means an error and no deploy transaction; on a chain that answers and does not interfere, exactly the missing classes and the missing contracts are submitted, nothing unplanned appears, and it succeeds if and only if the bindings match |
| TopologyDeployment.DeployPayoMainnet | app/starknet/starknet-wallet.tsx:1726-1824 | A normal return means that the generated verifier, the bundle verifier, the policy registry, the obligation registry and the payroll seal are each declared and deployed under their class, and that the seven reads answer as expected; on an undisturbed, empty chain it succeeds exactly when they do, the five are all that is deployed, and five different classes take six transactions, in the source's order |
| TopologyDeployment.PlanHasAllFive | lib/starknet/payo-deployment-plan.ts:13-19 | The plan consists of exactly these five contracts |
| TopologyDeployment.BindingsAreSevenAnswers | app/starknet/starknet-wallet.tsx:1807-1815 | The bindings hold if and only if the seven named getters of the named contracts answer with the named addresses |
| TopologyDeployment.ReadsDetermineTopology | app/starknet/starknet-wallet.tsx:1807-1815 | The seven reads pin the topology down from its seal and its bundle verifier: two topologies that verify against the same answers and share these agree on pool, administrator, both registries and generated verifier |
| TopologyDeployment.DeclareMissing | app/starknet/starknet-wallet.tsx:1733-1756 | Declares one class only when the chain lacks it, and ends normally only when it is declared |
| TopologyDeployment.CollectMissing | app/starknet/starknet-wallet.tsx:1759-1775 | Exactly the planned contracts whose address is empty, in order; a foreign class is an error |
| TopologyDeployment.Verify | app/starknet/starknet-wallet.tsx:1795-1824 | Ends normally only when every address read back holds its planned class and every getter answers with the one expected value; on an undisturbed chain, exactly then |
| DeploymentHistory.NothingTwice | app/starknet/starknet-wallet.tsx:1726-1793 | Over any sequence of runs interrupted anywhere and settled in between, no class that took effect is declared again and no address that took effect is deployed again |
| DeploymentHistory.FinishedTopologyIsQuiet | app/starknet/starknet-wallet.tsx:1733-1776 | A run on a finished topology submits nothing |
| DeploymentHistory.CompletedStaysQuiet | app/starknet/starknet-wallet.tsx:1726-1793 | After a run leaves its topology complete, every later run of that plan submits nothing and leaves it complete |
| DeploymentHistory.RerunRepeatsExactly | app/starknet/starknet-wallet.tsx:1733-1776 | A run that submits what is missing repeats an earlier submission if and only if the plan still asks for it and it has not taken effect |
| DeploymentHistory.InterruptedIsARun | app/starknet/starknet-wallet.tsx:1726-1793 | An undisturbed run stopped after any of its broadcasts submitted only planned, missing things, each once, with all but the last landed |
| DeploymentHistory.UnsettledRerunRepeats | app/starknet/starknet-wallet.tsx:1739-1793 | For every world a history can reach whose last broadcast, declaration or deployment, is open, could still land and is still asked for: the next undisturbed run broadcasts it again, and if that run stops there the first can land after all |
| RecoveryProperties.AlwaysExclusive | app/ui/app-shell.tsx:118-216 | Over any number of sessions with calm entries and eligible runs listed once, across overlapping instances: every recovery in flight and every pending timer is in the attempted set, and no run has two recoveries, two timers, or one of each; only the mounted instance can start more, and it holds only fresh candidates |
| RecoveryProperties.ExclusiveExactly | app/ui/app-shell.tsx:118-216 | Whatever the sessions and listings: that exclusion holds in every state if and only if the set is never emptied while a recovery is in flight or a timer is pending, and no run is started while its own timer is pending |
| RecoveryProperties.ExclusiveExactlyWhenCalm | app/ui/app-shell.tsx:122-130 | Given eligible runs listed once, the first of these two conditions alone is exact |
| RecoveryProperties.OneSessionIsCalm | app/ui/app-shell.tsx:122-130 | Within one unlocked session this is so, and after the first unlock the set is never emptied |
| RecoveryProperties.CandidatesExactly | app/ui/app-shell.tsx:150-158 | The candidates are exactly the listed runs that are confirmed, carry a transaction hash and have not been attempted |
| RecoveryProperties.FreshExactlyWhenListedOnce | app/ui/app-shell.tsx:150-158 | The candidates are distinct and unattempted exactly when no eligible run is listed twice; other repetitions do no harm |
| RecoveryProperties.StartIsFresh | app/ui/app-shell.tsx:150-163 | A recovery only starts for a run that is not attempted, not in flight and not timed |
| RecoveryProperties.EndSettlesOrHolds | app/ui/app-shell.tsx:187-203 | An end with a pending verification or another error holds its run and leaves one more timer, for that run, due exactly 15 000 ms later; an end with a complete authorization, a queued verification or a missed deadline settles it and sets no timer |
| RecoveryProperties.TimerReleasesWhenDue | app/ui/app-shell.tsx:187-202 | A timer that is due takes exactly its run out of the set and is gone; before that it does nothing |
| RecoveryProperties.ClockIsElapsedTime | app/ui/app-shell.tsx:187-202 | Over any run the clock differs between two states by the time that has passed between them |
| RecoveryProperties.CandidatesInOrder | app/ui/app-shell.tsx:159-204 | An instance that is not cancelled recovers all candidates of its listing in order: after n ends the n-th, counted from zero, is being recovered, and after all of them it rests |
| RecoveryProperties.FinishedIsNeverRetried | app/ui/app-shell.tsx:187-203 | A run whose recovery ended with a complete authorization, a queued verification or a missed deadline is not attempted again while the set is not emptied |
| RecoveryProperties.FinishedExactlyUntilCleared | app/ui/app-shell.tsx:187-203 | Until it is started again, such a run stays in the attempted set exactly as long as the set is not emptied |
| RecoveryProperties.OneSessionNeverRetries | app/ui/app-shell.tsx:118-216 | Within one unlocked session such a run is never attempted again |
| RecoveryProperties.RetryWaits | app/ui/app-shell.tsx:187-203 | A run whose recovery ended with a pending verification or another error is attempted again no sooner than 15 000 ms later, over any number of sessions |
| RecoveryProperties.AttemptsAreSpaced | app/ui/app-shell.tsx:159-204 | Between two attempts of one run, by whichever instances, the first ended; if that end was retryable 15 seconds have passed since, and otherwise the set was emptied |
| RecoveryProperties.DuplicateIsRetriedAtOnce | app/ui/app-shell.tsx:159-163 | A run in which a twice-listed run is recovered while its own release timer is pending |
| RecoveryProperties.RelockRecoversTwice | app/ui/app-shell.tsx:122-130 | A run in which lock and unlock let two instances recover the same run at once |
| RecoveryEffect.Shell.RunEffect | app/ui/app-shell.tsx:118-133 | Recoveries in flight and timers stay as they are, the set is emptied exactly on entering a session that is not the one on record, and outside the evidence page an unlocked session mounts a new idle instance |
| RecoveryEffect.Shell.Poll | app/ui/app-shell.tsx:134-136 | Only an idle instance that is not cancelled lists, and nothing is attempted yet |
| RecoveryEffect.Shell.OnListReply | app/ui/app-shell.tsx:149-163 | Given calm entries and eligible runs listed once, the recovery it starts, if any, is of a run that is unattempted, not in flight and untimed, and spaced from each of its earlier attempts; always, an instance that is not cancelled starts with the first candidate and keeps the others, and any other rests |
| RecoveryEffect.Shell.OnRecoveryEnd | app/ui/app-shell.tsx:159-207 | Always, a timer for the run 15 000 ms on is set after a pending verification or another error, and none after the other outcomes, and the instance goes on to the next run unless it is cancelled; on the same conditions, the run that ended is settled or held, and the one started after it is safe to start in the same sense |
| RecoveryEffect.Shell.OnTimer | app/ui/app-shell.tsx:187-202 | A due timer frees exactly its run, which on the same conditions is not in flight and has no other timer |
| RecoveryEffect.Shell.Cleanup | app/ui/app-shell.tsx:211-215 | The mounted instance is cancelled; no recovery in flight and no timer is stopped |
| ActivityRefresh.WriterNeverDecreases | app/activity/page.tsx:434-522 | Under any interleaving of refreshes and late replies the generation of each list's last writer never decreases |
| ActivityRefresh.ContentsHaveAWriter | app/activity/page.tsx:458-510 | What a list shows is the answer to its writer's own read of that list, given while that writer was newest, or the clearing of a refresh that captured no session; the contributor list alone can also be a report correction |
| ActivityRefresh.RefreshReadsEveryList | app/activity/page.tsx:459-512 | A refresh that captured a session reads all nine lists under its own generation with that session, and adds no other read |
| ActivityRefresh.RecordsAreOfCapturedSession | app/activity/page.tsx:455-510 | Records on display were read with the session that their writer's closure captured, whatever the workspace's session is by now, or come from a report correction |
| ActivityRefresh.LockedPageShowsExactly | app/activity/page.tsx:434-522 | From a locking refresh on, whatever else happens: a list shows records if and only if the last step that wrote it was the answer to a refresh that captured a session and started since, or a report correction of the contributors |
| ActivityRefresh.RefillingRefreshIsStale | app/activity/page.tsx:1534-1559 | While the workspace stays locked, such a refresh is that of a closure made before the lock |
| ActivityRefresh.StaleHandlerRefillsLockedPage | app/activity/page.tsx:1534-1559 | A run in which a handler's own refresh, captured before the lock, loads and refills the locked page |
| ActivityRefresh.SupersededRefreshIsInert | app/activity/page.tsx:454-522 | Once a newer refresh has started, an older one's replies and end change no list and not the loading flag |
| ActivityRefresh.LoadingIffNewestRuns | app/activity/page.tsx:434-522 | The page is loading exactly while the newest refresh runs |
| ActivityRefresh.OnlyNewestClearsLoading | app/activity/page.tsx:519-521 | Only the newest refresh's end, or a refresh that captured no session, clears the loading flag |
| ActivityRefresh.LoadingExactly | app/activity/page.tsx:434-522 | The page is loading if and only if the newest refresh captured a session and has not ended, whether or not the workspace is locked |
| ActivityRefresh.LockedStaysEmpty | app/activity/page.tsx:437-450 | From a locking refresh on, as long as no refresh that captured a session starts, no reply, however late, refills a list or sets the loading flag; for the contributor list, as long as no report correction finishes either |
| ActivityRefresh.CorrectionAfterLockShowsPayees | app/activity/page.tsx:1222-1232 | A run in which a report correction refills the contributor list of a locked page |
| ActivityRefresh.LockedPayeesAreLastCorrection | app/activity/page.tsx:1222-1232 | From a locking refresh on, as long as no refresh that captured a session starts, the contributor list shows exactly the last report correction's records, and none when there was none |
| ActivityRefresh.ActivityPage.RefreshActivity | app/activity/page.tsx:434-512 | Every earlier refresh is superseded; whether the page is cleared, or loads and keeps what it shows, depends on the session the closure captured alone; with one, all nine lists are read under the new generation and that session |
| ActivityRefresh.ActivityPage.ChangeSession | app/activity/page.tsx:524-527 | A change of the vault's session changes nothing on the page until a refresh runs |
| ActivityRefresh.ActivityPage.OnTaskReply | app/activity/page.tsx:459-510 | A superseded read shows nothing, and no list goes back to an older writer than in any earlier state |
| ActivityRefresh.ActivityPage.OnRefreshEnd | app/activity/page.tsx:519-521 | The flag stays set exactly while the newest refresh runs; a superseded end changes nothing shown |
| ActivityRefresh.ActivityPage.OnPayeesReconciled | app/activity/page.tsx:1222-1232 | Reaches the contributor list whatever has been refreshed or locked since it began, and no other list |
| ReviewerIdentity.EarlierLookupIsInert | app/activity/page.tsx:949-951 | After a successful file import no timer and no reply of a lookup set up before it changes the reviewer identity, whatever has happened since |
| ReviewerIdentity.ImportStands | app/activity/page.tsx:949-951 | The imported identity stands until the address is edited, another import ends or the lookup effect runs again |
| ReviewerIdentity.FailedImportExactly | app/activity/page.tsx:954-958 | After a failed import, until the user acts again, an identity is shown if and only if the newest generation's lookup has answered with a verified one since, and then it is that one |
| ReviewerIdentity.IdentityHasASource | app/activity/page.tsx:529-590 | A displayed identity was imported, or verified by the lookup that was newest when it answered |
| ReviewerIdentity.LookupWasRequested | app/activity/page.tsx:532-563 | Every lookup in flight asks for the address captured by its own generation's effect run: for a tax book, in an unlocked workspace, typed, parsed, and not the connected wallet's own |
| ReviewerIdentity.AdmittedAddressIsLookedUp | app/activity/page.tsx:535-563 | Conversely, when the timer of a tax book's newest effect run fires, an address is looked up if and only if the captured workspace was unlocked and the typed address parses to it and is not the connected wallet's; the identity is cleared in any case |
| ReviewerIdentity.FailedImportDoesNotSupersede | app/activity/page.tsx:954-955 | A run in which a lookup sets the identity after a failed import cleared it |
| ReviewerIdentity.ReviewerLookup.RunEffect | app/activity/page.tsx:529-534 | The new generation outdates every lookup in flight, and the identity stays |
| ReviewerIdentity.ReviewerLookup.OnTimer | app/activity/page.tsx:535-562 | A timer set up before an import leaves the identity alone, whatever has happened since |
| ReviewerIdentity.ReviewerLookup.OnLookupReply | app/activity/page.tsx:563-588 | A lookup set up before an import leaves the identity alone, whatever it answers; the newest one leaves it when nothing is published, shows a verified identity and clears a refused one |
| ReviewerIdentity.ReviewerLookup.OnImport | app/activity/page.tsx:932-958 | Success shows the imported identity and supersedes every lookup set up so far; failure clears it and supersedes none |
| TomlRoundTrip.ValueRoundTrip | scripts/generate-payroll-proof-input.ts:94-106 | A strict decoder, written in literal TOML code units and sharing no constant with the printer, recovers every nested value from its text followed by any delimiter |
| TomlRoundTrip.TomlInjective | scripts/generate-payroll-proof-input.ts:94-106 | Two printable bare-key values with the same text are the same value |
| TomlRoundTrip.TextRoundTrip | scripts/generate-payroll-proof-input.ts:98 | Strings of any UTF-16 code units, lone surrogates included, are recovered from their JSON text (section 7 of RFC 8259) by a decoder that admits one text for each string |
| TomlRoundTrip.NoNewline | scripts/generate-payroll-proof-input.ts:94-106 | No printed value contains a newline |
| TomlRoundTrip.FileRoundTrip | scripts/generate-payroll-proof-input.ts:387-390 | The same decoder recovers exactly the ordered list of keys and values from the lines of the file, each key, space, equals sign, space, value |
| TomlRoundTrip.FileInjective | scripts/generate-payroll-proof-input.ts:387-390 | Two bare-key lists that are written alike are the same list |
| TomlRoundTrip.PrintsExactlyPrintable | scripts/generate-payroll-proof-input.ts:95-105 | The printer throws exactly when some nested value is unsupported, integers beyond 9 007 199 254 740 991 included |
| TomlRoundTrip.RawKeysCollide | scripts/generate-payroll-proof-input.ts:101-103 | Two different tables with the same text, one of whose keys is not bare |
| Bits.OrOfShiftedIsSum | scripts/verify-phase3-ui-workflow-evidence.ts:46 | Shift-and-or is multiplication and addition whenever the low part fits below the shift |
| Bits.AndMaskIsMod | scripts/generate-vesting-transition-proof-fixture.ts:40 | Masking with n ones is the remainder modulo 2^n |
| ByteEncoders.WriteField | scripts/generate-vesting-transition-proof-fixture.ts:39-42 | The inner loop writes the 32 big-endian bytes of the value into its slot and nothing else |
| ByteEncoders.SerializeFields | scripts/generate-vesting-transition-proof-fixture.ts:27-45 | Exactly the lists of 58 values from 0 to 2^256 - 1 are accepted, and every value stands in its own slot |
| ByteEncoders.BigEndianRepresents | scripts/generate-vesting-transition-proof-fixture.ts:39-42 | The written bytes represent the value when it is below 256^n |
| ByteEncoders.BigEndianUnique | scripts/generate-vesting-transition-proof-fixture.ts:39-42 | No other bytes of that length represent it |
| ByteEncoders.FieldAt | scripts/generate-vesting-transition-proof-fixture.ts:34-43 | Each slot of the output represents its value |
| ByteEncoders.FieldsInjective | scripts/generate-vesting-transition-proof-fixture.ts:27-45 | The bytes determine the value list |
| ByteEncoders.EncodersAgree | scripts/generate-payroll-proof-input.ts:29-30 | For hex text of at most 64 digits, prefixed or not and in either case, the padding encoder equals the field serializer's slot |
| ByteEncoders.DecodingStops | scripts/generate-payroll-proof-input.ts:29-30 | Hex decoding stops at the first pair that is not two hex digits, and drops a digit left without a pair |
| ByteEncoders.HexDigitValues | scripts/generate-payroll-proof-input.ts:29-30 | The sixteen digits of either case stand for their values |
| LimbJoins.SplitUndoesJoin | scripts/verify-phase3-ui-workflow-evidence.ts:46 | Joining an in-range low limb gives high * 2^128 + low, and splitting undoes it |
| LimbJoins.JoinUndoesSplit | scripts/verify-phase3-ui-workflow-evidence.ts:46 | Splitting any value gives limbs whose join is the value, the low one in range |
| LimbJoins.SplitReturnsLimbsExactly | scripts/verify-phase3-ui-workflow-evidence.ts:46 | Splitting returns the limbs that were joined if and only if the low one is in range |
| LimbJoins.SplitInRange | scripts/verify-phase3-ui-workflow-evidence.ts:46 | The high limb of a value below 2^256 is in range too |
| LimbJoins.JoinInjective | scripts/verify-phase3-ui-workflow-evidence.ts:46 | The join is injective on in-range low limbs |
| LimbJoins.LayoutsAgree | scripts/test-phase4-private-payroll-devnet.ts:329-344 | Scalar, array and object layouts of one value agree with the high and low join |
| LimbJoins.LayoutAcceptedExactly | scripts/test-phase4-private-payroll-devnet.ts:329-344 | A value is read if and only if it is a scalar, a pair, or an object with both limbs |
| LimbJoins.JoinedRootBytes | scripts/verify-phase3-ui-workflow-evidence.ts:45-48 | The joined root has 64 digits, its number is the join, and its 32 bytes are the high limb's 16 followed by the low limb's |
| LimbJoins.JoinedRootIsLowerCase | scripts/verify-phase3-ui-workflow-evidence.ts:45-48 | Whatever the limbs, the text is 0x followed by lower-case digits |
| LimbJoins.JoinedRootInjective | scripts/verify-phase3-ui-workflow-evidence.ts:45-48 | The joined root text determines both in-range limbs |
| LimbJoins.OutOfRangeLimbsCollide | scripts/verify-phase3-ui-workflow-evidence.ts:46 | Limbs out of range that join alike |
| LinearEntitlement.EntitlementIsFloor | lib/client/advanced-agreement-draft.ts:25-32 | Inside the window e * (end - start) <= total * (c - start) < (e + 1) * (end - start), between 0 and the total, and both shortcut branches equal the general formula |
| LinearEntitlement.ShareMonotone | lib/client/advanced-agreement-draft.ts:32 | The entitlement is monotone in the checkpoint |
| LinearEntitlement.NoDrift | lib/client/advanced-agreement-draft.ts:32 | Between any two checkpoints the paid amount is non-negative and within one atomic unit of its exact share |
| LinearEntitlement.StreamConserved | lib/client/advanced-agreement-draft.ts:28-32 | Over any nondecreasing checkpoints from start to end the increments are non-negative, sum exactly to the total, and are each within one atomic unit of their exact share |
| LinearEntitlement.AccruesExactly | lib/client/advanced-agreement-draft.ts:92-94 | Inside the window the entitlement guard passes exactly when total * (c - start) >= end - start |
| LinearEntitlement.DraftAcceptedExactly | lib/client/advanced-agreement-draft.ts:78-110 | The exact conditions under which a stream draft is accepted, with every bound written out; an accepted draft has the given start, end, total, interval and checkpoint, settled zero, and as entitlement the exact floor at that checkpoint; the schema never refuses one for its entitlement |
| LinearEntitlement.RefusalNamesItsCause | lib/client/advanced-agreement-draft.ts:78-110 | A refused draft really has the fault that its refusal names |
| ReplayCache.CacheIsWindow | scripts/payo-policy-owner-signer.ts:103-110 | With a nondecreasing clock, a nonce is in the cache with an expiry after a call if and only if it was accepted in the last 60 000 ms with that expiry |
| ReplayCache.RefusedExactly | scripts/payo-policy-owner-signer.ts:104-110 | For any clock, a nonce is refused if and only if it was accepted before and every call since, this one included, came before its expiry |
| ReplayCache.KeptIsListed | scripts/payo-policy-owner-signer.ts:105-109 | For any clock, every accepted call that no later call has outlived is in the cache with its expiry |
| ReplayCache.EntryIsKept | scripts/payo-policy-owner-signer.ts:105-109 | For any clock, every cache entry is that of such a call |
| ReplayCache.RefusedExactlyWithinWindow | scripts/payo-policy-owner-signer.ts:108 | With a nondecreasing clock a nonce is refused exactly when it was accepted within the last 60 000 ms |
| ReplayCache.AcceptancesFarApart | scripts/payo-policy-owner-signer.ts:104-110 | Two acceptances of one nonce are at least 60 000 ms apart |
| ReplayCache.BackwardClockReplays | scripts/payo-policy-owner-signer.ts:105-107 | A history with a backward clock in which a nonce is accepted twice |
| ReplayCache.Signer.DeleteExpired | scripts/payo-policy-owner-signer.ts:105-107 | The loop, in whatever order it visits the entries, removes exactly the expired ones |
| ReplayCache.Signer.AcceptNonce | scripts/payo-policy-owner-signer.ts:104-110 | The map in memory follows the call history, and for any clock a refusal means exactly such an earlier acceptance |
| Versions.CompareVersions | app/starknet/starknet-wallet.tsx:408-416 | The loop returns the difference at the first place where the padded part lists differ |
| Versions.FirstDifference | app/starknet/starknet-wallet.tsx:411-415 | The comparison is the difference at the first disagreement of the zero-padded lists |
| Versions.VersionOrder | app/starknet/starknet-wallet.tsx:408-416 | Comparison is sign-antisymmetric and transitive, and zero exactly on padded equality |
| Versions.PartsNeverNegative | app/starknet/starknet-wallet.tsx:401-406 | There is at least one part and none is negative |
| Versions.PartsOfPrinted | app/starknet/starknet-wallet.tsx:401-406 | Parsing undoes printing of any dotted list of numbers |
| Versions.PartReadThroughNoise | app/starknet/starknet-wallet.tsx:401-406 | A part is read past white space and a plus sign up to its first other character, and one that begins with no digit is zero |
| Versions.MinimumParts | app/starknet/starknet-wallet.tsx:418-420 | The required version has the parts 0, 10, 3 |
| Versions.LatestIsMaximum | app/starknet/starknet-wallet.tsx:422-424 | No listed version exceeds the latest, and later equals lose to none |
| Versions.StableSortEndsWithLatest | app/starknet/starknet-wallet.tsx:423 | Every stable sort of the list ends with the latest version, which is what latestVersion returns |
| Versions.StableSortExists | app/starknet/starknet-wallet.tsx:423 | A stable sort by this comparison exists for every list |
| Versions.SupportIsLatestSupport | app/starknet/starknet-wallet.tsx:418-424 | STRK20 support holds exactly when the list is non-empty and its latest version compares no lower than the parts 0, 10, 3 |
| Versions.SuffixIsIgnored | app/starknet/starknet-wallet.tsx:402-403 | A suffix changes no comparison, unlike section 11 of SemVer 2.0.0 |
| Versions.PreReleaseCountsAsSupported | app/starknet/starknet-wallet.tsx:418-420 | Any pre-release of 0.10.3 counts as supported |
| PayrollJournal.AddTotals | scripts/generate-phase3-matrix-disclosure.ts:168-171 | The loop sums each token's net amounts, keyed in order of first appearance |
| PayrollJournal.BuildJournal | scripts/generate-phase3-matrix-disclosure.ts:168-186 | The journal is the two postings of each token in scope |
| PayrollJournal.JournalBalances | scripts/generate-phase3-matrix-disclosure.ts:172-186 | For any lines and token, expense is debited and treasury credited with exactly the net in scope, and nothing is posted the other way round |
| PayrollJournal.JournalEntries | scripts/generate-phase3-matrix-disclosure.ts:168-186 | Token by token, each in the place of the first line that has it, the journal debits the expense account and then credits the treasury with the token's net pay |
| PayrollJournal.WorkersCoverLines | scripts/generate-phase3-matrix-disclosure.ts:124-139 | One worker package a line, in order, with its own key, output stem and line index, exactly when every line has an advanced agreement |
| PayrollJournal.FirstUncoveredIsRefused | scripts/generate-phase3-matrix-disclosure.ts:124-129 | What is refused is the first line whose agreement is missing or not advanced |
| PayrollJournal.WorkersAddUpToEmployer | scripts/generate-phase3-matrix-disclosure.ts:124-186 | Token by token the worker packages together debit what each of the employer, auditor and tax packages debits, the net of all lines; these three follow the workers in that order under their own keys and stems; the request list is refused exactly when an agreement is missing or not advanced |
| EvidenceCoverage.CoversExactlyPermutations | scripts/verify-phase3-ui-workflow-evidence.ts:98-111 | For any number of distinctly named workflows the check passes exactly when the evidence is a reordering of the expected entries, none extra, duplicated or substituted |
| EvidenceCoverage.SoundExactly | scripts/verify-phase3-ui-workflow-evidence.ts:103-111 | Whatever passes is a reordering of the expected entries if and only if their names are distinct, or conflict so that nothing passes |
| EvidenceCoverage.ContainmentIsPermutation | scripts/verify-phase3-ui-workflow-evidence.ts:130-140 | Equal lengths and one match for each distinct name force the same entries, once each |
| EvidenceCoverage.RepeatedNameHidesExtra | scripts/verify-phase3-ui-workflow-evidence.ts:64 | For every list with a repeated, unconflicting name, some evidence that is no reordering passes |

## Left out

- React rendering, toasts, labels, messages, progress callbacks and error banners: presentation; the error text of a failed transaction is kept.
- Token, totals and fee-reserve fields of the displayed transaction: carried along unread, except the amounts that `ShieldQuotes` follows.
- The privacy capability written after error 118: it is a fact an operation reads from its `Session` parameter.
- `isDefinitiveWalletNonSubmission`: its verdict is part of the wallet's answer, an event parameter.
- `app/payroll/page.tsx` and `app/team/page.tsx`: they wire the wallet operations together.
- TopologyDeployment.DeclareMissing: a confirmed declaration has taken effect, so its second look at the class only fails when the read itself does.
- DeploymentHistory.NothingTwice: assumes that every broadcast takes effect or is lost before the next run, because the code does not remember earlier hashes; `RerunRepeatsExactly` says what happens without it.
- TopologyDeployment.DeployTopology: the chain only grows, that is, no contract replaces its class; its promise of success needs distinct planned addresses, which rest on a hash that is not part of this model; and what the getters answer at the verified block is a fact about the deployed contracts, not derived from their constructors.
- Hashes of the reviewed deployment package: the review's verdict is a parameter of `BeginDeployment`.
- The pending submission that a recovery reads from local storage, and what the recovery itself does: its outcome is an event.
- ActivityRefresh.SupersededRefreshIsInert: the activity error text, which other operations write too, is not modelled.
- `runProgressiveTasks`: its concurrency and deadline are covered by letting tasks answer, fail or outlive the runner in any order.
- TomlRoundTrip.ValueRoundTrip: keys are assumed bare, as TOML demands and as all keys of the written file are, although some other keys happen to be decodable too; negative zero prints as 0 and is not distinguished from it; and array holes, which print as nothing, are not values of the model.
- `asScalar` and negative limbs: unwrapping of one-element containers, and inputs that BigInt accepts but no limb takes.
- Parsing of dates, integers and trimmed commitments in drafts, and of typed addresses: an invalid one arrives as `None`.
- Recurring, milestone and vesting drafts: they copy validated fields.
- Version parts above 2^53, where the original's numbers round.
- Verifier checks beside coverage, and the hashes they compare.
- Dates, memos and account texts of postings, and the disclosed fields other than the journal.

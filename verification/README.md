# Durable store: what every run keeps

The `database` crate is a durable protocol engine. Each public method is one immediate database
transaction over a few tables: it commits as a whole, or an error rolls it back and leaves no trace.
This project models the tables and those transactions and proves what every interleaving of them
keeps, including across restarts, which change nothing in the store.

How to read it:

- A file `…Model.dfy` (or the head of a one-file component) holds the tables of a component as
  datatypes and each transaction as a function from the tables to `Commit(tables, reply)` or
  `Rollback(error)` (`Prelude.dfy`).
- A class (`…Store`) holds the same tables as fields. Its methods update them in place, with the loops
  and the write-then-roll-back order of the source, and each is proved equal to the transaction
  function of the same name.
- Files named for admissions, decisions, effects, plans and histories (`AccountAdmission.dfy`,
  `InboxEffects.dfy`, `ConfigObservations.dfy` and their like) say, without the transaction functions,
  when each request is granted and what stands afterwards: a row, a mode or a verdict is read back from
  the requests of the run and the answers they were given.
- The remaining files prove invariants over all runs of commands and the theorems that follow.
  Everything is stated for arbitrary command sequences from the empty store, or for any state that
  satisfies the invariant.

Modelling conventions, used throughout:

- Clock readings, provider answers and answers of neighbouring components are arbitrary inputs of a
  transaction; nothing assumes that the clock moves forward. Row identities and claim tokens come from
  supplies that never repeat. Identities are opaque and only compared.
- Unique keys and row checks of `database/schema.sql` that a transaction can run into are modelled as
  errors that roll back.
- Digests are taken as injective, and JSON texts as value trees.

Components: account operations, routing universe and credentials (`Account*.dfy`, `Routing*.dfy`,
`LifecycleExamples.dfy`), command receipts with expiring leases (`Command*.dfy`,
`AccountCommands.dfy`), dispatch and inbox (`Inbox*.dfy`), dependencies (`Reachability.dfy`,
`Dependencies.dfy`), config and settings journals (`Config*.dfy`, `Settings*.dfy`), process
ownership (`Process*.dfy`), conversation routing and continuation (`Conversation*.dfy`), and
the kernels: prompt upload, display slots, UTF-8 output budgets, quota facts, stored JSON and request
framing.

Eight statements one might expect are false of the code, and the model says so, with the exact condition
of each and a run that fails it:

- A tombstone cannot always be restored. `set_account_enabled_sync` does not look for an unsettled
  operation, so the account may change between the preparation and the commit of a logout; and
  preparing a logout does not compare the credential's provider identity with the account's. Either
  leaves a tombstone whose predecessor lookup fails. `TombstonesRestoreExactly`,
  `SwitchDuringLogoutStrands` and `ForeignLogoutStrands`.
- A restorable tombstone does not always resolve to its restore: the credential of a cancelled restore
  may still be stored. `TombstoneResolvesExactly` and `AbandonedRestoreBlocks`.
- A logout does not always commit. The bulk update of the compaction adds 512 row by row against a
  unique position, so with more than 513 ordered accounts (or 513, unless the first or last one
  leaves) a row order exists that rolls the logout back. `LogoutCommitsExactly` and
  `AnyLogoutIsReached`.
- Committed credential versions do not always increase: a credential may be created afresh for a live
  account. `VersionsIncreaseExactly`, `CommittedVersionsIncrease` and `CarelessRefreshFallsBack`.
- The quota facts of an account do not depend on the order of arrival, but its state does, since errors
  do not restate it. `StateIsOrderFreeExactly`, `ErrorFreeStateIsExact` and `StateDependsOnOrder`.
- A publication that matches a permission selection does not always settle it. When the selection
  names a mode and the reviewed settings already met it, the repeated publication is taken for the
  reviewed revision. `PublicationSettlesExactly` and `RepeatLeavesPending`.
- A pending selection or prompt edit does not always come to an end. Activating an assistant context
  moves a work to another thread without looking at them, and nothing observes the old thread any
  more; and an attempt made without a process has nobody left to answer for it once any process was
  admitted. `EndsExactlyUnlessStuck`, `ActivationLeavesAttempts` and `AdmissionOrphansAttempts`.
- An account operation cannot always be settled. A version above an i64 is stored, but the row does not
  read back, and every later request for the operation is an error. `SettlesExactlyIfReadable` and
  `HugeAnswerBlocks`.

## Model

| member | source | states |
|---|---|---|
| `AccountSafety.RunKeepsInv` | database/src/account_lifecycle.rs:1293-1920 | over every interleaving of prepare, advance, target, enable, routing and credential commands: operation rows, takeovers, liveness, the routing universe and provider identities stay consistent |
| `AccountTheorems.OneOperationAtATime` | database/src/account_lifecycle.rs:1324-1342 | two unsettled operations of one account are exactly one primary and the one takeover that names it |
| `AccountTheorems.SupersededExactlyByItsTakeover` | database/src/account_lifecycle.rs:1828-1874 | a refresh is superseded by T exactly when T is committed and recovers it |
| `AccountTheorems.RecoveryCodeExactlyInRecovery` | database/src/account_lifecycle.rs:2775-2784 | in every reachable state the phase is RecoveryRequired exactly when a recovery code is stored |
| `AccountTheorems.RunFreezes` | database/src/account_lifecycle.rs:1550-1560 | a committed, cancelled or superseded operation is the same row in every later state |
| `AccountTheorems.RejectionsChangeNothing` | database/src/account_lifecycle.rs:1293-1415 | every lifecycle answer other than success leaves all tables as they were, although the transaction commits |
| `AccountTheorems.PreparationsAreReplayed` | database/src/account_lifecycle.rs:1293-1324 | after any later run a preparation that was applied is answered as a replay of the operation's present phase, unless the provider's answer was recorded since, and changes nothing; a row whose version does not read back is an error |
| `AccountTheorems.UnreadableOperationsStay` | database/src/account_lifecycle.rs:1922-1985 | an operation whose row holds a version above an i64 is an error to every later advance, over every run, and its account stays blocked |
| `AccountTheorems.SettlesExactlyIfReadable` | database/src/account_lifecycle.rs:1534-1598 | some continuation settles an operation in progress exactly when the versions on its row read back |
| `AccountTheorems.AnswersReadBackExactly` | database/src/account_lifecycle.rs:1876-1920 | a recorded answer reads back exactly when its version fits an i64 |
| `LifecycleExamples.HugeAnswerBlocks` | database/src/account_lifecycle.rs:1876-1920 | a run in which a recorded answer leaves a refresh that can never be settled |
| `AccountTheorems.AdvancesAreReplayed` | database/src/account_lifecycle.rs:1534-1560 | after any later run a transition that was applied replays while the operation stays in the phase it led to, and for good after a commit or cancellation |
| `AccountTheorems.ReachableSnapshotsAreAccepted` | database/src/account_lifecycle.rs:2812-2835 | on every reachable state the registry check passes, the order lists exactly the live accounts at positions 0..n-1, and a fixed target is live |
| `AccountRuns.CompactionKeepsOrder` | database/src/account_lifecycle.rs:2538-2574 | compaction keeps the accounts and their relative order and leaves dense positions |
| `RoutingCompaction.ShiftSafeExactlyWithoutClash` | database/src/account_lifecycle.rs:2548-2557 | the bulk shift by 512 violates no uniqueness check for any row order exactly when no two rows stand 512 positions apart |
| `RoutingCapacity.LogoutCommitsExactly` | database/src/account_lifecycle.rs:1768-1826 | in every reachable state a logout that passes the other checks commits for every row order exactly when at most 512 accounts are ordered, or 513 and the first or last one leaves; otherwise some row order rolls it back |
| `RoutingCapacity.AnyLogoutIsReached` | database/src/account_lifecycle.rs:1716-1728 | some run enrolls any number of accounts in dense order and readies the logout of any one of them, which some row order then rolls back where the compaction is not safe |
| `RoutingCompaction.RewriteStaysUnique` | database/src/account_lifecycle.rs:2559-2571 | at every step of the rewriting loop all positions are distinct and the next rank is free |
| `AccountRuns.NumberedIsDense` | database/src/account_lifecycle.rs:2513-2530 | a freshly written order has exactly the listed accounts at dense positions |
| `AccountHistory.RevisionCountsChanges` | database/src/account_lifecycle.rs:1733-1802 | over every run an account's revision is the number of its committed enrollments, refreshes, logouts and restores plus its effective enable switches |
| `AccountRestore.CommittedVersionsIncrease` | database/src/account_lifecycle.rs:1626-1802 | on runs that create host credentials only for accounts that are not live, committed credential versions strictly increase across refresh, logout and re-enrollment |
| `AccountVersions.VersionsIncreaseExactly` | database/src/account_lifecycle.rs:1626-1802 | on every run whatever, committed versions of each account strictly increase exactly when each commit that the operation, account and credential rows make ready had a target above all that the account's operation rows had installed |
| `AccountVersions.CommitDecides` | database/src/account_lifecycle.rs:1626-1766 | whether an enrollment or refresh commits is decided by those rows before the call |
| `LifecycleExamples.CarelessRefreshFallsBack` | database/src/credentials.rs:40-88 | creating instead of rotating the credential of a live account lets a refresh commit a version that is not newer |
| `AccountTombstones.LogoutLeavesRestorable` | database/src/account_lifecycle.rs:1768-1826 | in every reachable state a committed logout leaves a restorable tombstone exactly when the account's revision is still the one it was prepared under and the credential it removed carried the account's provider identity |
| `AccountTombstones.TombstonesRestoreExactly` | database/src/account_lifecycle.rs:2130-2162 | on every run whatever, all tombstones have their predecessor credential at every moment exactly when each logout met that condition at its commit |
| `AccountTombstones.TombstoneResolvesExactly` | database/src/account_lifecycle.rs:2078-2128 | the provider identity of a tombstone resolves to its restore exactly when it is restorable and no credential is stored for it but that of the enrollment now restoring it; otherwise resolving is an error |
| `AccountDating.RunsAreDated` | database/src/account_lifecycle.rs:2130-2162 | on every run whatever, committed logouts expect revisions below the account's, a refresh or logout in progress started past all of them, and every tombstone has a newest logout |
| `AccountTombstones.EveryTombstoneCanBeRestored` | database/src/account_lifecycle.rs:2078-2162 | when host credentials are created only for accounts that are not live and no enable switch lands on an account whose logout is in progress, every tombstone of every reachable state is restorable, and its provider identity resolves to it unless a stray credential is stored |
| `AccountTombstones.RestoreIsAdmittedExactly` | database/src/account_lifecycle.rs:1417-1457 | the enrollment that restores a restorable tombstone is admitted exactly when nothing is unsettled, no credential is stored for the account, and the version counter is not exhausted |
| `LifecycleExamples.SwitchDuringLogoutStrands` | database/src/account_lifecycle.rs:2345-2390 | a run in which an enable switch during a logout leaves a tombstone whose resolution is an error |
| `LifecycleExamples.ForeignLogoutStrands` | database/src/account_lifecycle.rs:1345-1362 | a run without switches in which a logout at the exact revision removes a credential of another provider identity and leaves such a tombstone |
| `LifecycleExamples.AbandonedRestoreBlocks` | database/src/account_lifecycle.rs:2107-2119 | a careful and quiet run whose tombstone is restorable, yet its resolution is an error because the credential of a cancelled restore is still stored |
| `AccountSafety.CommitStandsAlone` | database/src/account_lifecycle.rs:1600-1624 | when an operation commits, the only other unsettled operation its account can have is the refresh it recovers |
| `AccountLedger.RowsStandAsAnswered` | database/src/account_lifecycle.rs:1293-1598 | in every reachable state an operation row is what its preparation asked for, with the provider's answer recorded on it if one was, in the phase and with the code of the last transition that was answered as applied |
| `AccountLedger.AccountsStandAsAnswered` | database/src/account_lifecycle.rs:1626-1826 | over every run an account exists exactly if it was enrolled, is enabled as its last enrollment, switch or logout left it, has the provider of its last enrollment or refresh, and is a tombstone exactly if logged out since; the stored credential is the last one put and not removed |
| `AccountAdmission.OperationsAreOpenedExactly` | database/src/account_lifecycle.rs:1293-1457 | an operation is opened exactly when the request has the shape of its kind, a primary has the account to itself or a takeover finds its failed refresh untaken, and it starts from the present account row and credential |
| `AccountAdmission.RepeatsAreToldApart` | database/src/account_lifecycle.rs:1293-1324 | a request under a known identity is a replay exactly if it asks for the same operation, and otherwise a conflict; neither changes anything |
| `AccountAdmission.TransitionsAreAppliedExactly` | database/src/account_lifecycle.rs:1534-1598 | an operation moves exactly from the phase the caller saw along one of the ten listed transitions, with a code exactly into recovery; only its phase and code change |
| `AccountAdmission.CommitsAreAppliedExactly` | database/src/account_lifecycle.rs:1600-1826 | an operation commits exactly from an applied store, not superseded, with its failed refresh still as it was taken over and the stored credential and account rows as its kind needs them |
| `AccountAdmission.SwitchesAreMadeExactly` | database/src/account_lifecycle.rs:2345-2390 | a live account is switched exactly at the revision the caller saw, and to what was asked |
| `AccountAdmission.AnswersAreRecordedExactly` | database/src/account_lifecycle.rs:1876-1920 | the provider's answer is recorded exactly once, on the pending operation that wrote it; the same answer again is recognised |
| `AccountAdmission.BundlesAreWrittenExactly` | database/src/credentials.rs:40-218 | a first bundle needs a free account and provider and an existing writer; exactly the expected bundle is rotated to its successor or deleted |
| `AccountAdmission.IdentitiesResolveExactly` | database/src/account_lifecycle.rs:2078-2128 | an unknown provider identity enrolls anew, that of a live account is enrolled already, and that of a tombstone restores it from the credential its last logout removed unless another one lies in the way |
| `AccountRouting.RoutesStandAsAccepted` | database/src/account_lifecycle.rs:2392-2494 | over every run routing is fixed to an account exactly when the last accepted change of the mode fixed it and it was not logged out since, and the routing revision is one plus the accepted changes, enlistments and logouts |
| `AccountRouting.RoutesAreAcceptedExactly` | database/src/account_lifecycle.rs:2392-2536 | a routing command is accepted exactly when its caller knows every change so far and what it names is live and at the revision it knows; an order must list each live account once |
| `AccountRouting.ReadersSeeTheHistory` | database/src/account_lifecycle.rs:2496-2574 | a reader of any reachable state lists exactly the last accepted order, with later enlistments at its end and logouts taken out in place |
| `AccountRouting.AcceptedOrdersAreRead` | database/src/account_lifecycle.rs:2496-2536 | after an accepted order every reader lists exactly that order until the next order, enlistment or logout |
| `AccountStore.Store.Prepare` | database/src/account_lifecycle.rs:1293-1415 | preparing in place: identity replay, admission of takeovers, the kind's checks, and the row inserted only if all pass |
| `AccountStore.Store.CheckPreparation` | database/src/account_lifecycle.rs:1417-1457 | enrollments of absent or restorable accounts, and refreshes and logouts of the exact revision and credential |
| `AccountStore.Store.NewestLogout` | database/src/account_lifecycle.rs:2130-2162 | the committed logout with the greatest revision, then identity |
| `AccountStore.Store.TombstonePredecessor` | database/src/account_lifecycle.rs:2130-2162 | the credential that the last logout removed, if that logout was the last revision |
| `AccountStore.Store.Advance` | database/src/account_lifecycle.rs:1534-1598 | one allowed transition with its commit effect, or a full rollback, or a rejection without effect |
| `AccountStore.Store.SettleOperation` | database/src/account_lifecycle.rs:1600-1624 | the commit of each kind, followed by the supersession of the recovered refresh |
| `AccountStore.Store.CommitEnrollment` | database/src/account_lifecycle.rs:1626-1731 | a fresh or restored account goes live and joins the routing order last |
| `AccountStore.Store.CommitRefresh` | database/src/account_lifecycle.rs:1733-1766 | the revision and provider move on with the stored target credential |
| `AccountStore.Store.CommitLogout` | database/src/account_lifecycle.rs:1768-1826 | the account is tombstoned, leaves the order, and a fixed route falls back to balanced |
| `AccountStore.Store.OrderedRows` | database/src/account_lifecycle.rs:2538-2545 | the routing rows sorted by position |
| `AccountStore.Store.ShiftPositions` | database/src/account_lifecycle.rs:2548-2557 | the bulk shift in an arbitrary row order, checked row by row |
| `AccountStore.Store.NumberRows` | database/src/account_lifecycle.rs:2559-2571 | each row rewritten to its index |
| `AccountStore.Store.CompactRoutingOrder` | database/src/account_lifecycle.rs:2538-2574 | shift and rewrite together move every row to its rank |
| `AccountStore.Store.SetTarget` | database/src/account_lifecycle.rs:1876-1920 | the provider's answer recorded once on its own pending operation |
| `AccountStore.Store.SetEnabled` | database/src/account_lifecycle.rs:2345-2390 | the switch under the exact revision |
| `AccountStore.Store.SetFixed` | database/src/account_lifecycle.rs:2392-2432 | a fixed route under the exact routing and account revisions |
| `AccountStore.Store.RouteFixed` | database/src/account_lifecycle.rs:2434-2466 | routing to the account that is already fixed changes nothing |
| `AccountStore.Store.SetBalanced` | database/src/account_lifecycle.rs:2468-2494 | back to balanced under the exact routing revision |
| `AccountStore.Store.SetOrder` | database/src/account_lifecycle.rs:2496-2536 | a proposed order replaces the rows exactly when it lists the visible accounts once each |
| `AccountStore.Store.CreateCredential` | database/src/credentials.rs:40-88 | the first bundle of an account, if its provider identity is free |
| `AccountStore.Store.RotateCredential` | database/src/credentials.rs:146-193 | exactly the expected bundle is replaced by its successor version |
| `AccountStore.Store.DeleteCredential` | database/src/credentials.rs:195-218 | exactly the expected bundle is removed |
| `CommandTheorems.CommandsHappenOnce` | database/src/account_lifecycle.rs:1160-1291 | under any clock and any effects: per key at most one completion, the store is the fold of the completed effects, and grants match the rows |
| `CommandTheorems.EffectAndCompletionTogether` | database/src/account_lifecycle.rs:389-444 | a receipt is completed exactly when its key's effect happened, with the stored response, and the store holds nothing else |
| `CommandTheorems.OnlyTheNewestLeaseFinishes` | database/src/account_lifecycle.rs:1264-1291 | a lease finishes exactly when it is the newest granted for its key, the key is not completed, the clock is inside the lease and the effect goes through |
| `CommandTheorems.CompletedKeysReplay` | database/src/account_lifecycle.rs:1183-1203 | after any later events a matching reserve of a completed key returns the stored response, any other conflicts, and no lease finishes it again |
| `CommandTheorems.NotificationsOwnedOnce` | database/src/account_lifecycle.rs:1204-1217 | a notification command is owned at most once per key, ever |
| `CommandTheorems.ReceiptsAreFinal` | database/src/account_lifecycle.rs:1182-1189 | what a key was reserved for never changes and a completed receipt is final |
| `CommandLeaseTimes.LeasesNeverOverlap` | database/src/account_lifecycle.rs:1204-1262 | two leases of one key are never both inside their granted time: the later one is given a whole lifetime after the earlier one, over every run and clock |
| `CommandLeaseTimes.LeasedExactly` | database/src/account_lifecycle.rs:1160-1262 | a key is leased exactly when it has not completed, the expiry can be represented, and it was never leased or its own ordinary command is asked for again a whole lifetime after the newest lease; the token is new |
| `CommandLeaseTimes.LiveLeasesAreRespected` | database/src/account_lifecycle.rs:1204-1217 | a matching ordinary request before the newest lease's expiry loses ownership, and at or after it is given a new lease as long as times can be represented |
| `CommandLeaseTimes.LeasesFinishInTheirTime` | database/src/account_lifecycle.rs:1264-1291 | a lease finishes exactly if it is the newest of a key that has not completed, the effect goes through, and the clock stands between the first request and the end of the lease's lifetime |
| `CommandStore.ReceiptStore.ReserveCommand` | database/src/account_lifecycle.rs:1160-1262 | claim, replay, refuse or reclaim in place under the table's time checks |
| `CommandStore.ReceiptStore.FinishReceipt` | database/src/account_lifecycle.rs:1264-1291 | the row completes exactly for the lease that still holds it |
| `CommandStore.ReceiptStore.FinishCommand` | database/src/account_lifecycle.rs:538-581 | effect and completion in one transaction; a lost lease takes the effect back |
| `AccountCommands.LeasedRunsAreCommandRuns` | database/src/account_lifecycle.rs:617-764 | with leases expiring, reclaimed and coming back late, the account tables are those of a plain run of the completed commands, so the account invariant holds |
| `Reachability.Closure` | database/src/agent.rs:1741-1743 | the recursive UNION as a queue terminates with exactly the reachable nodes |
| `Dependencies.RefusedExactlyWhenCyclic` | database/src/agent.rs:1732-1752 | in an acyclic graph the check refuses exactly the edges that would close a cycle |
| `Dependencies.DependenciesStayAcyclic` | database/src/agent.rs:371-485 | over every sequence of creations and added edges the graph is acyclic and between existing works |
| `Dependencies.EdgesAreAddedExactly` | database/src/agent.rs:1732-1752 | an edge is added exactly between existing works when the graph stays acyclic, and nothing else changes |
| `Dependencies.WorksAreCreatedExactly` | database/src/agent.rs:371-485 | a work is created exactly if it is new and all it needs exists, and then depends on exactly that |
| `Dependencies.DependenciesStandAsTaken` | database/src/agent.rs:564-581 | in every reachable state a work depends on another exactly if some command that was taken said so |
| `Dependencies.DependencyStore.Insert` | database/src/agent.rs:564-581 | one edge, refused without effect when it closes a cycle |
| `Dependencies.DependencyStore.Create` | database/src/agent.rs:371-485 | a work with all its dependencies, or nothing |
| `InboxTheorems.TheFenceHolds` | database/src/agent.rs:588-712 | in every reachable state an undecided event behind the empty turn belongs to a bound work that is dispatching or unknown; idle and dispatching works have no turn, running works have one; threads are unique |
| `InboxTheorems.HistoryIsKept` | database/src/agent.rs:1578-1616 | over every later run decisions are final, identities fixed, an undecided event stays with the work that claimed it, and a bound work keeps its thread unless an assistant context was activated for it |
| `InboxTheorems.ContextsMoveIdleWorks` | database/src/assistant.rs:375-392 | activating a context moves exactly an idle work with nothing claimed, to a thread that no other work has |
| `InboxTheorems.UnknownIsLeftByReconcileOnly` | database/src/agent.rs:955-1006 | a work leaves the unknown state only by reconciling, and only with its own turn when one was known |
| `InboxTheorems.DispatchCarriesExactly` | database/src/agent.rs:643-712 | a committed dispatch carries exactly the listed events and its instruction, each once, none of them in another dispatch before |
| `InboxTheorems.ClaimsAreNeverStolen` | database/src/agent.rs:782-821 | a claimed event is decided, stays claimed by its work in flight, or is taken by that work's acknowledged or reconciled turn |
| `InboxTheorems.NativeTurnsAreAdoptedOnce` | database/src/agent_native_turns.rs:65-119 | a native turn that was adopted is not adopted again by the same account, nor by any once its terminal event was recorded, whatever happens in between |
| `InboxTheorems.AnotherAccountAdoptsAgain` | database/src/agent_native_turns.rs:88-103 | an idle work adopts the turn again for an account that never observed it exactly when no terminal event of the turn was recorded |
| `InboxTheorems.RetriesAreQueuedOnce` | database/src/agent.rs:1305-1353 | retrying an unsent input again, at any later time, changes nothing |
| `InboxTheorems.RefusalReturnsTheClaim` | database/src/agent_dispatch_rejection.rs:57-111 | a refusal before any effect returns exactly the claimed events, undelivered, to the user, and each user message of a manager can then be queued again |
| `InboxSteps.RunGood` | database/src/agent.rs:588-1006 | every transaction, in any interleaving, keeps the fence and evolves rows only as allowed |
| `InboxEffects.CompletionsAreTakenExactly` | database/src/agent.rs:847-900 | a terminal event is taken exactly from the running turn of its own work, unless another input was recorded from its source |
| `InboxEffects.CompletionsSettleTheirInput` | database/src/agent.rs:847-952 | a completed turn settles exactly the undecided user messages and answers that it carried, any other turn none; every other row stays, the work is idle without a turn, and the terminal row holds what was reported |
| `InboxEffects.CompletedInputIsNeverSentAgain` | database/src/agent.rs:939-941 | over every later run no dispatch of any work carries a message or answer that a completed turn had carried |
| `InboxEffects.OnlyUnfinishedInputIsOfferedAgain` | database/src/agent.rs:939-941 | a message that a turn carried may go out again exactly when the turn ended without coming to its end |
| `InboxEffects.AcknowledgedTurnsCarryTheClaim` | database/src/agent.rs:782-821 | an acknowledgement is taken exactly from a dispatching work and turns its whole claim into the turn's input, with accepted instructions settled |
| `InboxEffects.ReconciledTurnsCarryTheClaim` | database/src/agent.rs:955-984 | evidence is taken exactly for a dispatch in flight or unknown and its own turn, and turns the whole claim into that turn's input, deciding nothing |
| `InboxEffects.UnknownEffectsKeepTheClaim` | database/src/agent.rs:988-1006 | a dispatch in flight becomes unknown with its claim and its turn kept |
| `InboxEffects.MessagesReachTheirTurn` | database/src/agent.rs:643-821 | whether acknowledged or found after an unknown effect, the turn runs and carries every dispatched message |
| `InboxEffects.MessagesAreSettledByTheirTurn` | database/src/agent.rs:643-952 | from dispatch to terminal event a message ends settled exactly when its turn came to its end, and else undecided |
| `InboxAdmission.ClaimsAreTakenExactly` | database/src/agent.rs:674-682 | the events of a dispatch are claimed exactly when each may travel with it and none is listed twice; which may travel is told from kind, owner, delivery and the line of works without a manager between |
| `InboxAdmission.DispatchesBeginExactly` | database/src/agent.rs:643-712 | a dispatch begins exactly from an idle work on a thread without a settings edit, with at most a thousand listed events that may travel and are not stale and an instruction newer than the last; tasks and managers reopen |
| `InboxAdmission.NewInputIsRecordedExactly` | database/src/agent.rs:1838-1900 | a new input is recorded exactly when its work exists and nothing forbids its kind, as it came, undecided unless only observed |
| `InboxAdmission.InputIsRecordedOnce` | database/src/agent.rs:1838-1900 | after any later run the same input finds its row and changes nothing, and another input of that source is a conflict |
| `InboxDecisions.WorksAreCreatedExactly` | database/src/agent.rs:371-485 | a work is created idle and unbound exactly under an existing goal, waiting only as a manager |
| `InboxDecisions.StatusIsSetExactly` | database/src/agent.rs:506-532 | any work takes a status and a next check that is not negative and not kept by a settled work |
| `InboxDecisions.ThreadsAreBoundExactly` | database/src/agent.rs:534-631 | a thread is bound exactly to a work without one while no work has it, directly or by the acknowledgement of its creation, which leaves the work idle |
| `InboxDecisions.ContextsAreActivatedExactly` | database/src/assistant.rs:375-392 | a context is activated exactly for an idle work on the thread it leaves, with a thread that is acknowledged, free and unknown to the history |
| `InboxDecisions.ForksAreReservedExactly` | database/src/agent_fork.rs:141-191 | a fork is reserved exactly from an idle, bound, unsettled work, beside it or below it, and as a manager if its source is one or stands alone |
| `InboxDecisions.TheFirstForkAnswerStands` | database/src/agent_fork.rs:118-260 | the first of acknowledgement and refusal decides a fork, and the other changes nothing |
| `InboxDecisions.DecisionsAreTakenExactly` | database/src/agent.rs:1578-1616 | a decision is taken exactly about an undecided event, and its work follows unless a newer delegation replaced the result |
| `InboxDecisions.DecisionsAreTakenOnce` | database/src/agent.rs:1578-1616 | over every later run the event keeps its decision and no other is taken |
| `InboxDecisions.RetriesAreQueuedExactly` | database/src/agent.rs:1305-1353 | a retry is queued exactly for an undelivered message of an idle manager that waits for the user, as the same message, and reopens the work |
| `InboxDecisions.RefusalsAreAcceptedExactly` | database/src/agent_dispatch_rejection.rs:57-111 | a refusal is accepted exactly from the owner of a work still dispatching as it began, if everything claimed can be handed back |
| `InboxDecisions.RejectedAnswersAreRetiredExactly` | database/src/agent_question_rebuild.rs:15-46 | a rejected async input is retired exactly as a steer into the running turn or as the only claim of its dispatch, which then goes idle with its former status |
| `InboxDecisions.UnsentAnswersAreRetiredExactly` | database/src/agent_question_rebuild.rs:63-80 | exactly the undecided answers to gone questions that were never sent are retired |
| `InboxDecisions.RunningTurnsAnswerToTheirName` | database/src/agent.rs:715-845 | a running turn is completed and steered exactly under its own name, and a steer travels in it |
| `InboxDecisions.NativeTurnsAreRecordedExactly` | database/src/agent_native_turns.rs:65-119 | a native turn is recorded exactly when the owner reports it, the work is idle or runs it, and neither it nor its end was recorded; exactly an idle work adopts it |
| `InboxDecisions.CallsBeginExactly` | database/src/agent_voice.rs:45-92 | a call begins exactly on a hosted thread of an idle or running work while none is open and its session is new; closing closes it alone |
| `InboxDecisions.OneOpenCall` | database/src/agent_voice.rs:45-71 | over every run at most one call is open and no session has two |
| `InboxDecisions.VoiceTurnsAreHeardExactly` | database/src/agent_voice.rs:124-158 | a voice turn is heard exactly if it began during a call of the generation on the thread and was not heard before; the work of the newest call runs it, or is busy with something else, which is a conflict |
| `InboxDecisions.VoiceTurnsAreHeardOnce` | database/src/agent_voice.rs:124-158 | a turn that was heard is not heard again in any later state |
| `InboxStore.Store.Enqueue` | database/src/agent.rs:1838-1900 | an event is recorded once per source; a repeat must be identical |
| `InboxStore.Store.CreateWork` | database/src/agent.rs:371-485 | a new work is idle and unbound under a goal |
| `InboxStore.Store.SetStatus` | database/src/agent.rs:506-532 | status and next check, with the rejected combinations |
| `InboxStore.Store.BindThread` | database/src/agent.rs:534-562 | a thread is bound once and to one work |
| `InboxStore.Store.ActivateContext` | database/src/assistant.rs:375-392 | the acknowledged context's thread replaces the old one of an idle work, with its record, or nothing |
| `InboxStore.Store.BeginThreadCreation` | database/src/agent.rs:588-606 | the creation fence of an idle unbound work |
| `InboxStore.Store.AcknowledgeThreadCreation` | database/src/agent.rs:609-631 | the acknowledged thread releases only the creation fence |
| `InboxStore.Store.ReserveFork` | database/src/agent_fork.rs:141-191 | a fork's work is inserted already fenced |
| `InboxStore.Store.AcknowledgeFork` | database/src/agent_fork.rs:224-260 | an acknowledged fork binds its thread and goes idle |
| `InboxStore.Store.RejectFork` | database/src/agent_fork.rs:118-137 | a refused fork settles its unbound work |
| `InboxStore.Store.ClaimEvent` | database/src/agent.rs:674-682 | one event is claimed exactly when it is owned, deliverable and not behind a fence |
| `InboxStore.Store.BeginDispatch` | database/src/agent.rs:643-712 | the claim of all listed events and the saved instruction, or nothing |
| `InboxStore.Store.Acknowledge` | database/src/agent.rs:782-821 | the acknowledged turn takes the claim, and accepted instructions are settled |
| `InboxStore.Store.Complete` | database/src/agent.rs:823-845 | the exact running turn releases the dispatch |
| `InboxStore.Store.CompleteWithEvent` | database/src/agent.rs:847-952 | the terminal event, the release and the handled inputs are one transaction |
| `InboxStore.Store.Reconcile` | database/src/agent.rs:955-984 | positive evidence turns a dispatching or unknown work into its running turn |
| `InboxStore.Store.MarkUnknown` | database/src/agent.rs:988-1006 | an ambiguous effect keeps the turn identity |
| `InboxStore.Store.Dispose` | database/src/agent.rs:1578-1616 | one explicit decision per event, with the work's next wake time |
| `InboxStore.Store.RetryInput` | database/src/agent.rs:1305-1353 | one stable retry of an input that was never sent |
| `InboxStore.Store.RejectDispatch` | database/src/agent_dispatch_rejection.rs:57-111 | the whole claim is taken back, or nothing |
| `InboxStore.Store.RejectAsync` | database/src/agent_question_rebuild.rs:15-46 | one async input is retired; the only claim of a dispatch releases it |
| `InboxStore.Store.RetireUnsent` | database/src/agent_question_rebuild.rs:63-80 | only answers never claimed are retired |
| `InboxStore.Store.BeginSteer` | database/src/agent.rs:715-755 | a steer is fenced into the exact running turn |
| `InboxStore.Store.ObserveNativeTurn` | database/src/agent_native_turns.rs:65-119 | a native turn is recorded once and runs an idle work |
| `InboxStore.Store.ObserveVoiceTurn` | database/src/agent_voice.rs:124-158 | a voice turn is heard once per generation and thread and runs an idle work |
| `InboxStore.Store.BeginVoiceCall` | database/src/agent_voice.rs:45-71 | one open call, on a hosted thread of an idle or running work |
| `InboxStore.Store.CloseVoiceCall` | database/src/agent_voice.rs:75-92 | closing a call leaves the works alone |
| `ConfigJournal.OneWriterPerFile` | database/src/agent_config_journal.rs:31-43 | per config file at most one unresolved attempt among hooks and apps, always the newest, and no review used twice |
| `ConfigJournal.ResolvedForGood` | database/src/agent_hooks.rs:94-106 | a resolved attempt keeps its state on every later run |
| `ConfigJournal.ObservationNeverStrands` | database/src/agent_hooks.rs:109-146 | observing settles exactly the unresolved attempt on that target when the evidence suffices; looking only at the latest attempt never strands one |
| `ConfigJournal.ReservedExactly` | database/src/agent_app_settings.rs:102-118 | an edit is reserved exactly when nothing on the file is unresolved, its review is new and the latest attempt was seen; the insert is never ignored |
| `ConfigJournal.DeadWritersReleaseTheFile` | database/src/agent_app_settings.rs:140-176 | an attempt of a dead process can be settled by another owner and the file is then open for a new review |
| `ConfigObservations.AttemptsStandAsTold` | database/src/agent_hooks.rs:94-146 | in every reachable state an attempt reads as observed exactly when the reading that settled it found the target's value, as superseded exactly when that reading found another, and without a reading as its first retained report says |
| `ConfigObservations.SupersededWritersAreDead` | database/src/agent_app_settings.rs:165-176 | a superseded attempt's file held another value after its writer was proved dead, read by another process |
| `ConfigObservations.EditsAreReservedExactly` | database/src/agent_hooks.rs:75-91 | over every run an edit is reserved exactly for an owner with something to change, after a review of the newest attempt that the file never used, while none is unresolved |
| `ConfigObservations.FirstReportsAreRetained` | database/src/agent_hooks.rs:94-106 | a report is retained exactly when it names the reserved attempt, is one of the four responses, and is the first word on it |
| `ConfigObservations.ReadingsSettleExactly` | database/src/agent_hooks.rs:109-146 | a reading settles exactly an attempt of its kind and target that no reading settled and no report resolved: its own process by the target under a new version, another one after proved death |
| `ConfigJournal.JournalStore.ReserveSetting` | database/src/agent_hooks.rs:75-91 | the reservation in place |
| `ConfigJournal.JournalStore.FinishSetting` | database/src/agent_hooks.rs:94-106 | the first response is retained unless an observation settled the attempt |
| `ConfigJournal.JournalStore.ObserveSetting` | database/src/agent_hooks.rs:109-146 | the observation in place |
| `ConfigJournal.JournalStore.LatestAttempt` | database/src/agent_hooks.rs:148-160 | the newest attempt of one kind on a scope |
| `SettingsTheorems.OnePendingPerWork` | database/src/agent_prompt_edit.rs:75-97 | over every run at most one model selection, permission selection or prompt edit of a work is pending, counting edits installed by forks |
| `SettingsTheorems.SettledForGood` | database/src/agent_models.rs:161-198 | whatever the order of answer and observation, a settled attempt never becomes pending again |
| `SettingsTheorems.SettlingEvidenceIsLater` | database/src/agent_models.rs:200-277 | a selection is observed only by a later revision of its own conversation, and reads as applied only on the target settings |
| `SettingsTheorems.PublicationFindsThePending` | database/src/agent_permissions.rs:163-170 | looking for the newest unsettled selection before an observation finds exactly the pending one |
| `SettingsTheorems.PublicationSettlesExactly` | database/src/agent_settings_observations.rs:103-120 | a publication from any process settles a pending selection exactly when the work is still bound to the thread, the process may judge it (its own by the target settings, another one after proved death), and it does not repeat a reviewed revision |
| `SettingsEnds.EndsExactlyUnlessStuck` | database/src/agent_process.rs:229-235 | some continuation, without a refusal and without moving its work to free it, ends a pending selection or edit exactly when its work is on its thread and it was made by a process, or none was ever admitted, or it is an applied edit |
| `SettingsEnds.StuckAttemptsStayPending` | database/src/agent_permissions.rs:181-183 | an attempt of a thread that its work left, or made without a process before any was admitted, stays pending over every run and blocks the work, until it is refused or, in the first case, the work moves again |
| `SettingsEnds.ActivationLeavesAttempts` | database/src/assistant.rs:375-392 | a run in which a context is activated while a selection of the old thread is pending |
| `SettingsEnds.AdmissionOrphansAttempts` | database/src/agent_process.rs:229-235 | a run in which the first process is admitted while a selection made without one is pending |
| `SettingsTheorems.ReviewedTargetsAreNotRepeated` | database/src/agent_models.rs:143-147 | for model selections, and permission selections not already met when reviewed, such a repeat cannot occur |
| `SettingsEnds.RepeatLeavesPending` | database/src/agent_permissions.rs:71-75 | a run in which a permission selection with a mode, already met when reviewed, stays pending after the same publication |
| `SettingsDecisions.RevisionsAreRecordedExactly` | database/src/agent_settings_observations.rs:54-122 | a revision is recorded exactly from who speaks for the work on its thread, not twice in a row, and no absence before anything else; only a publication can append a verdict |
| `SettingsDecisions.SelectionsAreReservedExactly` | database/src/agent_models.rs:131-158 | a selection is reserved exactly by who speaks for an eligible work with nothing pending, against the newest revision of that source that leaves something to change, once per review, and under its account if it is bound to one |
| `SettingsDecisions.AnswersAreKeptExactly` | database/src/agent_permissions.rs:90-107 | a native answer is kept exactly once on the reservation it names, and only a refusal ends it |
| `SettingsDecisions.VerdictsStandAsShown` | database/src/agent_models.rs:200-277 | over every run a selection reads as applied exactly when it was seen with all its target settings by its own process or, bound to no account, by another; superseded only by another process |
| `SettingsDecisions.EditsAreReservedExactly` | database/src/agent_prompt_edit.rs:75-97 | an edit is reserved exactly by who speaks for an eligible work with nothing pending, once per review |
| `SettingsDecisions.HistoriesDecideExactly` | database/src/agent_prompt_edit.rs:143-174 | exactly the retained prefix applies an untold edit and the unchanged history disproves it, read by its own process (the prefix only) or by another after proved death |
| `SettingsDecisions.EditsAreHandedBackExactly` | database/src/agent_prompt_edit.rs:114-200 | exactly an untold edit is rejected and exactly an applied one hands its draft back, once |
| `SettingsDecisions.EditsAreToldOnce` | database/src/agent_prompt_edit.rs:114-200 | over every run an edit is applied at most once, handed back at most once, and never applied after that |
| `SettingsDecisions.ForksAreBoundExactly` | database/src/agent_fork.rs:224-274 | a fork binds a free thread to a work that has none and carries the edit over as applied, under a review that is new there |
| `SettingsDecisions.ThreadsAreBoundExactly` | database/src/assistant.rs:375-392 | a thread belongs to one work at a time and only an eligible work moves to another |
| `SettingsTheorems.ForkKeepsInv` | database/src/agent_fork.rs:224-274 | the edit that a fork installs is the only attempt of its newly bound work |
| `SettingsStore.Store.RecordSettings` | database/src/agent_settings_observations.rs:54-122 | a revision is appended unless it repeats the latest one of its source |
| `SettingsStore.Store.ObserveSelection` | database/src/agent_models.rs:200-277 | a wire-current observation settles the newest unsettled selection or nothing |
| `SettingsStore.Store.ReserveSelection` | database/src/agent_models.rs:131-158 | a selection is reserved against the exact reviewed revision |
| `SettingsStore.Store.FinishSelection` | database/src/agent_permissions.rs:90-107 | the native answer is appended once |
| `SettingsStore.Store.ReserveEdit` | database/src/agent_prompt_edit.rs:75-97 | an edit is reserved when nothing of the work is pending and its review is new |
| `SettingsStore.Store.RejectEdit` | database/src/agent_prompt_edit.rs:114-139 | only a reserved edit is released as not submitted |
| `SettingsStore.Store.ObserveEdit` | database/src/agent_prompt_edit.rs:143-174 | the exact retained prefix applies the edit; an unchanged history releases it only after the old process died |
| `SettingsStore.Store.ReleaseDraft` | database/src/agent_prompt_edit.rs:178-200 | only an applied edit hands its draft back |
| `SettingsStore.Store.AcknowledgeFork` | database/src/agent_fork.rs:224-274 | binding the fork and installing its edit are one transaction |
| `ProcessOwnership.OwnershipIsUnique` | database/src/agent_process.rs:194-236 | over every run no work is owned, or hosted, by two generations |
| `ProcessOwnership.OwnedIsHosted` | database/src/agent_process.rs:194-236 | everything owned is hosted by the same generation under its bound thread |
| `ProcessOwnership.LivingGenerationsShareTheAccount` | database/src/agent_process.rs:153-187 | all generations of a root that are not dead share one account |
| `ProcessOwnership.AccountsRotateWhenQuiet` | database/src/agent_process.rs:166-175 | an admitted change of account finds the whole family idle and every process of another account dead |
| `ProcessOwnership.AdmissionsAreFreshOnce` | database/src/agent_process.rs:158-164 | an operation key is admitted at most once; later requests replay or conflict and change nothing |
| `ProcessOwnership.AttachmentsShareTheAccount` | database/src/agent_process/attachments.rs:10-49 | attaching another root to a leading process takes over that process's account and finds every other process of the root dead |
| `ProcessAdmission.LeadersAreNewest` | database/src/agent_process.rs:115-130 | a generation decides for a root exactly when it is ready and named by the root's binding of latest clock reading, of several the last inserted |
| `ProcessAdmission.OwnedByLineage` | database/src/agent_process.rs:194-236 | owned is exactly what is reached from a led root past subordinates and acknowledged forks, hosted what is reached at all on its thread; without a process everything until the first admission |
| `ProcessAdmission.ProcessesAreAdmittedExactly` | database/src/agent_process.rs:133-191 | a process is admitted exactly for a parentless goal under a new key and identity, when living generations have its account, a change of account finds the family quiet, and the generation table agrees |
| `ProcessAdmission.AdmittedProcessesLead` | database/src/agent_process.rs:115-191 | once ready an admitted process decides for its root exactly if no earlier binding has a later clock reading, and then it alone |
| `ProcessAdmission.ProcessesAreAttachedExactly` | database/src/agent_process/attachments.rs:10-49 | a leading process is attached exactly to an independent parentless work on its thread whose other processes are dead, once, under its own account |
| `ProcessOwnership.BindingStore.Admit` | database/src/agent_process.rs:133-191 | binding and generation in one transaction |
| `ProcessOwnership.BindingStore.AttachProcess` | database/src/agent_process/attachments.rs:10-49 | the attachment in place |
| `ProcessOwnership.BindingStore.OwnsWorkNow` | database/src/agent_process.rs:209-236 | the recursive ownership query |
| `ProcessOwnership.BindingStore.HostsThreadNow` | database/src/agent_process.rs:194-207 | the recursive hosting query |
| `ProcessOwnership.BindingStore.NewestBinding` | database/src/agent_process.rs:115-130 | the newest binding by clock, then by insertion |
| `ConversationAffinity.AffinityHolds` | database/src/conversation_routing.rs:388-405 | one initial decision per conversation, and every session, continuation decision and plan of it, now and later, carries that decision's account |
| `ConversationAffinity.OneLiveSession` | database/src/continuations.rs:163-203 | a conversation has at most one starting or active session |
| `ConversationAffinity.FallbackReplacesExactlyOne` | database/src/continuations.rs:282-312 | a fallback ends exactly one active session, starts exactly one with the same conversation, account and profile, moves exactly one turn, and touches nothing else |
| `ConversationAffinity.PlansReplay` | database/src/continuations.rs:489-525 | a planned key is only ever replayed, with its stored plan |
| `ConversationPlans.ContinuationsNeedEvidence` | database/src/continuations.rs:384-487 | with authority a fresh request goes on in the thread exactly on success or definitive failure evidenced there, replaces the session exactly when its acknowledged task's newest attempt was not submitted, canceled, or unknown and recoverable and the pack fits, and else changes nothing |
| `ConversationPlans.BoundTurnsMayBePlanned` | database/src/continuations.rs:207-281 | over every later run a bound turn's decision has authority exactly while its session is active with a thread at the bound revision and the turn is untouched |
| `ConversationPlans.TurnsAreBoundExactly` | database/src/conversation_routing.rs:225-332 | a later turn is bound exactly when it is active in the active session at the revisions the caller saw, once, and carries the session's account |
| `ConversationPlans.ConversationsAreRoutedExactly` | database/src/conversation_routing.rs:81-197 | a conversation is routed exactly when open, not under review and never routed, to a live account that its reviewed model source agrees with; a source that differs puts it under review instead |
| `ConversationPlans.FirstSessionsStartExactly` | database/src/continuations.rs:122-203 | the first session starts exactly when the decision still speaks for the conversation and the account, which has a credential, and copies both the account and the present role |
| `ConversationAffinity.RunKeepsInv` | database/src/conversation_routing.rs:243-332 | decisions and plans only accumulate and sessions keep their conversation, account and profile |
| `ConversationStore.Store.RouteInitial` | database/src/conversation_routing.rs:81-197 | the first route in place: replay, rejections, the review mark, or one decision |
| `ConversationStore.Store.BindContinuation` | database/src/conversation_routing.rs:225-332 | a later turn is bound to its session's account |
| `ConversationStore.Store.PlanInitial` | database/src/continuations.rs:122-203 | one selected decision starts one session |
| `ConversationStore.Store.PlanContinuation` | database/src/continuations.rs:207-321 | same thread on terminal evidence, else a replacement when it is allowed |
| `ConversationStore.Store.ReplaceSession` | database/src/continuations.rs:282-312 | end, start and rebind |
| `PromptUpload.AppendExtendsTheLog` | database/src/agent_prompt_upload.rs:36-80 | an accepted chunk either repeats bytes already in the log and changes nothing, or extends the log by exactly itself |
| `PromptUpload.RunKeepsInv` | database/src/agent_prompt_upload.rs:113-121 | stored chunks tile the received bytes, and a complete upload has the declared digest and canonical encoding |
| `PromptUpload.AssemblyNeverMeetsAGap` | database/src/agent_prompt_upload.rs:123-156 | on every reachable state assembling meets no gap and returns the log as soon as it is complete |
| `PromptUpload.RepeatsAreHarmless` | database/src/agent_prompt_upload.rs:61-65 | repeating any saved chunk at any later time is accepted and changes nothing |
| `PromptUpload.LogOnlyGrows` | database/src/agent_prompt_upload.rs:36-80 | later states keep every earlier byte in its place |
| `PromptUpload.ChunksAreTakenExactly` | database/src/agent_prompt_upload.rs:36-80 | a chunk is taken exactly from the one source of an admitted upload when it fits and repeats a saved chunk or continues the log, and the completing one only if the whole checks out |
| `PromptUpload.UploadStore.Received` | database/src/agent_prompt_upload.rs:113-121 | the sum of the stored lengths, unless the source changed |
| `PromptUpload.UploadStore.AssembleNow` | database/src/agent_prompt_upload.rs:123-156 | the content read chunk by chunk, with its checks |
| `PromptUpload.UploadStore.AppendChunk` | database/src/agent_prompt_upload.rs:36-80 | the append in place; a final chunk that does not check out is taken back |
| `Slots.ReconcilingFillsUp` | database/src/agent_slots.rs:29-84 | numbers stay distinct, survivors keep theirs, and every new one is at most the number of positive bindings with no free number below it |
| `Slots.LeastFreeIsSmall` | database/src/agent_slots.rs:71-71 | by pigeonhole the least free number is at most one more than the positive numbers in use |
| `Slots.BoundExactly` | database/src/agent_slots.rs:64-76 | exactly the surviving bindings and the eligible members with an open thread are bound, duplicates included |
| `Slots.SlotStore.NextNumber` | database/src/agent_slots.rs:71-71 | counting up from one ends at the least free number |
| `Slots.SlotStore.Reconcile` | database/src/agent_slots.rs:29-84 | retire, root, drop and assign in place |
| `Slots.SlotStore.ReleaseThread` | database/src/agent_slots.rs:87-111 | a closed native child loses its binding and its thread is remembered |
| `Slots.NumbersStayDistinct` | database/src/agent_slots.rs:29-84 | over every run of reconciliations, releases and resumes numbers stay distinct |
| `Slots.ReleasedJoinsNone` | database/src/agent_slots.rs:87-111 | a native thread released while nothing managed was bound to it takes no new binding in any later reconciliation until it is resumed |
| `Slots.ResumedJoins` | database/src/agent_slots.rs:114-122 | once a thread was resumed and not released again, every reconciliation binds an eligible member that runs in it |
| `Slots.RootTakesZeroExactly` | database/src/agent_slots.rs:29-52 | the root is bound to zero exactly if a listed member runs for it, it is unbound and zero is free; otherwise exactly the remaining bindings of eligible works or of zero stay |
| `Slots.BindingsLearnTheirThread` | database/src/agent_slots.rs:53-84 | a binding that stays takes the thread of its last eligible member, a new one work and thread of the first that could join |
| `Slots.ReleasesUnbindExactly` | database/src/agent_slots.rs:87-111 | a release unbinds exactly the native children in the thread and closes it exactly if neither a work nor a managed agent is bound to it |
| `Utf8.FloorBoundary` | database/src/agent_output.rs:234-238 | stepping back to a byte boundary cuts exactly after the last character that fits |
| `Utf8.ClippingLosesLittle` | database/src/agent_reasoning_summary.rs:89-93 | clipping keeps a text that fits and otherwise gives up less than one character of four octets |
| `OutputBudget.TruncationIsExact` | database/src/agent_output.rs:213-243 | over every run of outputs and summaries at most 32 items of one turn within 65,536 octets each, with the exact relation of each row to what it was told |
| `OutputBudget.MessagesAreExact` | database/src/agent_output.rs:230-238 | a message is all it was told unless marked; marked, it is the beginning of that exactly as long as no delta found room for its first character after the cut |
| `OutputBudget.CompletedItemsStay` | database/src/agent_reasoning_summary.rs:65-66 | a completed item drops every later delta, whatever else its turn tells |
| `OutputBudget.SummariesAreBounded` | database/src/agent_reasoning_summary.rs:80-97 | the joined parts never exceed the budget; truncated exactly when something was lost; a beginning of each part is kept, and otherwise all parts |
| `OutputBudget.SummariesAreExact` | database/src/agent_reasoning_summary.rs:62-107 | over every run a summary is marked truncated exactly when the parts told since its start or completion exceed 32 or join to more than 65,536 octets, and otherwise has exactly those parts |
| `OutputBudget.SummaryRowsFit` | database/src/agent_reasoning_summary.rs:99-104 | the stored parts of every summary pass the row check of 524,288 octets |
| `OutputDecisions.MessagesAreTakenExactly` | database/src/agent_output.rs:193-243 | a message changes exactly in the running turn, as the kind it was, with room for it, and completed only by replacement; the rows of that turn are what is left |
| `OutputDecisions.SummariesAreTakenExactly` | database/src/agent_reasoning_summary.rs:47-107 | a summary changes exactly in the running turn until it is completed, a new one with room and before the handover; a part beyond the 32nd only marks it |
| `OutputDecisions.HandedTurnsTakeNoSummary` | database/src/agent_reasoning_summary.rs:30-66 | exactly the running turn is handed over, and no later run takes a new summary of it |
| `OutputBudget.OutputStore.UpdateSummary` | database/src/agent_reasoning_summary.rs:47-107 | one delta or completion in place: kind, handover, row and completion guards, then resized, bounded and marked |
| `OutputBudget.SpendOneByOne` | database/src/agent_reasoning_summary.rs:80-97 | one decreasing budget shared by all parts |
| `OutputBudget.RetainPartialOutput` | database/src/agent_output.rs:577-612 | the shrinking loop ends with an escaped payload within 65,536 octets whose text is a prefix, marked exactly when something is gone |
| `OutputBudget.IdentitiesFit` | database/src/agent_output.rs:595-606 | the bounded identities alone always leave room |
| `OutputBudget.OutputStore.UpdateOutput` | database/src/agent_output.rs:193-243 | append or replace in place within the item and octet budgets |
| `QuotaFacts.FactsConverge` | database/src/account_lifecycle.rs:766-912 | observations with distinct timestamps on live accounts leave the same facts in any order and multiplicity: per window the newest ever reported |
| `QuotaFacts.StateIsOrderFreeExactly` | database/src/account_lifecycle.rs:805-822 | every arrival order leaves an account the same state exactly when each restatement that can be the last one, with only errors after it, says the same |
| `QuotaFacts.ErrorFreeStateIsExact` | database/src/account_lifecycle.rs:805-822 | without errors every order leaves the same state: depleted exactly when a newest fact is exhausted, if any timely report restates the account |
| `QuotaFacts.StateDependsOnOrder` | database/src/account_lifecycle.rs:833-873 | two observations whose facts agree in both orders while the account's state does not |
| `QuotaFacts.ReportsAreTakenExactly` | database/src/account_lifecycle.rs:766-912 | a report is taken exactly when well formed, not older than the fact that stands and, unless a failure, of a live account; it stands in its window alone and, unless a failure, restates depletion exactly |
| `QuotaFacts.QuotaStore.ObserveQuota` | database/src/account_lifecycle.rs:766-912 | newer or equal observations overwrite, older ones are refused, and non-errors restate the account |
| `StoredJson.SnapshotRoundTrip` | database/src/conversation_routing.rs:834-980 | a stored routing snapshot reads back as it was exactly when its positions fit an i64, and is an error otherwise |
| `StoredJson.CausesRoundTrip` | database/src/conversation_routing.rs:982-1011 | a stored list of causes reads back as it was |
| `StoredJson.ExclusionsRoundTrip` | database/src/conversation_routing.rs:1013-1061 | a stored list of exclusions reads back exactly when its positions fit an i64 |
| `StoredJson.BindingRoundTrip` | database/src/account_lifecycle.rs:2609-2688 | a stored credential binding reads back exactly when its version fits an i64 |
| `StoredJson.BindingReadsOnlyWritten` | database/src/account_lifecycle.rs:2625-2688 | whatever reads as a binding carries the same six fields that writing it produces |
| `RequestFraming.UnframeUndoesFrame` | database/src/conversation_routing.rs:1152-1161 | length-prefixed framing is uniquely decodable |
| `RequestFraming.RequestsAreRecognised` | database/src/conversation_routing.rs:1137-1150 | two requests, of any kinds, frame alike exactly when they are the same request |
| `RequestFraming.Feed` | database/src/conversation_routing.rs:1152-1161 | feeding part after part hashes exactly the frame |

## Left out

- AccountModel.Prepare: the phase echoed with an unsettled-operation rejection, which is that of any one unsettled row; the reply carries the account revision only.
- AccountRestore.CommittedVersionsIncrease: holds for runs whose host credentials are created only for accounts that are not live; `VersionsIncreaseExactly` has the exact condition for all runs.
- AccountTombstones.EveryTombstoneCanBeRestored: holds for runs whose host credentials are created only for accounts that are not live, without an enable switch during a logout; the code prevents neither, and `TombstonesRestoreExactly` has the exact condition for all runs.
- InboxStore.Store.CompleteWithEvent: the capacity-retry branch, the quota invalidation of a failed turn and the partial-output rows written in the same transaction.
- InboxStore.Store.RejectDispatch: the branch that restores a failed turn of a capacity retry.
- InboxStore.Store.Enqueue: payload compaction, title derivation, retiring of open questions by a prompt, and prompt-input validation; whether an input validates is a parameter.
- InboxStore.Store.BeginDispatch: question retirement, delegation records and the stale collaboration lookup; which events are stale is a parameter.
- SettingsTheorems.PublicationSettlesExactly: accounts and revisions bound to a model selection are one flag of the environment.
- QuotaFacts.FactsConverge: equal timestamps, where the later arrival wins.
- ConversationModel.RouteInitial: the routing decision itself; any outcome over the live accounts is allowed.
- StoredJson.SnapshotRoundTrip: the concrete spellings of routing blockers, of which only unique readability is used, and JSON text itself.
- Utf8.FloorBoundary: characters are taken as their octets; scalar values are not computed.
- Account alias allocation, display labels, timestamps of rows and the completion times of operations.
- Diagnostics stored beside a completed receipt and the reading of nudge receipts.
- Text length limits count characters where the source counts octets, and trimming knows only space, tab, newline and return.
- Misalignment continuation: its finish step checks only the dispatching state and a pending row.
- Capacity retries, steer completion, delegation, collaboration, archive and deletion: those modules are not part of this model.
- Process generations, runtime session activation and death evidence appear only as environment steps.
- Replacing async question projections beyond which unsent answers are retired.
- Context pack manifests and the pack bytes of a fallback.
- Read-only projections, feeds, metrics, profiles, aliases, desktop settings and the assistant's own records; of its writes to works only the activation of a context is modelled.

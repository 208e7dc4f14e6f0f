/** When a tombstone can be restored: the exact condition of each logout, over all runs, and what the
    provider identity of a tombstone resolves to. */
module AccountTombstones {
  import opened Prelude
  import opened Collections
  import opened AccountModel
  import opened AccountRuns
  import opened AccountSafety
  import opened AccountDating
  import opened AccountHistory
  import opened AccountCredentials
  import opened AccountRestore

  predicate Tombstone(t: Tables, a: AccountId) {
    a in t.accounts && t.accounts[a].tombstoned
  }

  /** The predecessor credential of the tombstone is found. */
  ghost predicate Restorable(t: Tables, a: AccountId) {
    Tombstone(t, a) && Predecessor(t, a, t.accounts[a].revision, t.accounts[a].provider).Some?
  }

  /** The command commits a logout. */
  ghost predicate CommitsLogout(t: Tables, c: Command) {
    && c.DoAdvance? && c.to.Committed? && c.id in t.operations && t.operations[c.id].kind.Logout?
    && var tx := Advance(t, c.id, c.from, c.to, c.code, c.visit); tx.Commit? && tx.reply.Applied?
  }

  /** The logout was prepared under the account's present revision, for a credential of the account's
      provider identity. */
  predicate LeavesPredecessor(t: Tables, o: Operation) {
    && o.account in t.accounts && o.expected.Some?
    && o.expectedRevision == Some(t.accounts[o.account].revision)
    && o.expected.value.provider == t.accounts[o.account].provider
  }

  lemma LogoutLeaves(t: Tables, c: Command)
    requires Inv(t) && AllDated(t) && CommitsLogout(t, c)
    ensures
      var o, u := t.operations[c.id], Step(t, c);
      Tombstone(u, o.account) && (Restorable(u, o.account) <==> LeavesPredecessor(t, o))
  {
    AdvanceCases(t, c.id, c.from, c.to, c.code, c.visit);
    SettleCommits(t, c.id, c.visit);
    var a, u := t.operations[c.id].account, Step(t, c);
    assert OperationOk(t.operations, c.id) && Dated(t, a);
    assert PendingDated(t, a, t.operations[c.id]);
    LogoutIsNewest(t, c.id, c.visit);
    PredecessorIs(u, a, c.id, u.accounts[a].revision, u.accounts[a].provider);
    FinishedRows(t.operations, c.id, c.id);
  }

  /** In every reachable state, a committed logout leaves a restorable tombstone exactly when nothing
      changed the account since it was prepared and it removed a credential of the account's provider. */
  lemma LogoutLeavesRestorable(commands: seq<Command>, c: Command)
    requires CommitsLogout(Run(Empty, commands), c)
    ensures
      var t := Run(Empty, commands);
      var o, u := t.operations[c.id], Step(t, c);
      Tombstone(u, o.account) && (Restorable(u, o.account) <==> LeavesPredecessor(t, o))
  {
    RunKeepsInv(Empty, commands);
    forall a ensures Dated(Run(Empty, commands), a) { RunsAreDated(commands, a); }
    LogoutLeaves(Run(Empty, commands), c);
  }

  /** Every other command leaves the tombstones as they are, or restores one. */
  lemma TombstonesStay(t: Tables, c: Command, a: AccountId)
    requires Inv(t) && AllDated(t) && Tombstone(Step(t, c), a)
    requires !(CommitsLogout(t, c) && t.operations[c.id].account == a)
    ensures Tombstone(t, a) && (Restorable(Step(t, c), a) <==> Restorable(t, a))
  {
    var u := Step(t, c);
    RowStays(t, c, a);
    assert Dated(t, a);
    var id :| IsNewestLogout(t, a, id);
    NewestStays(t, u, a, id);
    PredecessorIs(t, a, id, t.accounts[a].revision, t.accounts[a].provider);
    PredecessorIs(u, a, id, u.accounts[a].revision, u.accounts[a].provider);
  }

  lemma RowStays(t: Tables, c: Command, a: AccountId)
    requires Inv(t) && Tombstone(Step(t, c), a)
    requires !(CommitsLogout(t, c) && t.operations[c.id].account == a)
    ensures a in t.accounts && t.accounts[a] == Step(t, c).accounts[a] && SameLogouts(t, Step(t, c), a)
  {
    if c.DoAdvance? { AdvanceLeavesRow(t, c, a); }
  }

  lemma AdvanceLeavesRow(t: Tables, c: Command, a: AccountId)
    requires c.DoAdvance? && Tombstone(Step(t, c), a) && !(CommitsLogout(t, c) && t.operations[c.id].account == a)
    ensures a in t.accounts && t.accounts[a] == Step(t, c).accounts[a] && SameLogouts(t, Step(t, c), a)
  {
    AdvanceCases(t, c.id, c.from, c.to, c.code, c.visit);
    if Step(t, c) != t && c.to.Committed? {
      SettleCommits(t, c.id, c.visit);
      if t.operations[c.id].account != a { CommitLeavesOthers(t, a, c.id, c.visit); }
    }
  }

  // ------------------------------------------------------------------- all runs

  ghost predicate AllRestorable(t: Tables) {
    forall a :: Tombstone(t, a) ==> Restorable(t, a)
  }

  /** At every moment of the run every tombstone can be restored. */
  ghost predicate AlwaysRestorable(commands: seq<Command>) {
    AllRestorable(Run(Empty, commands)) && (commands != [] ==> AlwaysRestorable(commands[..|commands| - 1]))
  }

  ghost predicate Faithful(t: Tables, c: Command) {
    CommitsLogout(t, c) ==> LeavesPredecessor(t, t.operations[c.id])
  }

  /** Every logout was committed under the revision it was prepared under, for a credential of the
      account's provider. */
  ghost predicate FaithfulRun(commands: seq<Command>) {
    commands != [] ==>
      var before := commands[..|commands| - 1];
      FaithfulRun(before) && Faithful(Run(Empty, before), commands[|commands| - 1])
  }

  lemma StepStaysRestorable(t: Tables, c: Command)
    requires Inv(t) && AllDated(t) && AllRestorable(t)
    ensures AllRestorable(Step(t, c)) <==> Faithful(t, c)
  {
    if CommitsLogout(t, c) { LogoutLeaves(t, c); }
    forall a | Tombstone(Step(t, c), a) && !(CommitsLogout(t, c) && t.operations[c.id].account == a)
      ensures Restorable(Step(t, c), a)
    {
      TombstonesStay(t, c, a);
    }
  }

  /** On every run whatever, all tombstones can be restored at every moment exactly when each logout met
      that condition at its commit. */
  lemma {:induction false} TombstonesRestoreExactly(commands: seq<Command>)
    ensures AlwaysRestorable(commands) <==> FaithfulRun(commands)
  {
    if commands != [] {
      var before := commands[..|commands| - 1];
      TombstonesRestoreExactly(before);
      RunKeepsInv(Empty, before);
      forall a ensures Dated(Run(Empty, before), a) { RunsAreDated(before, a); }
      if AlwaysRestorable(before) { StepStaysRestorable(Run(Empty, before), commands[|commands| - 1]); }
    }
  }

  // -------------------------------------------------------- resolving a tombstone

  /** No credential is stored for the tombstone, or only that of the enrollment now restoring it. */
  predicate NoStrayCredential(t: Tables, a: AccountId)
    requires a in t.accounts
  {
    a !in t.credentials || EnrollmentInFlight(t, a)
  }

  /** The provider identity of a tombstone resolves to its restore exactly when the tombstone is
      restorable and holds no stray credential; otherwise resolving it is an error. */
  lemma TombstoneResolvesExactly(t: Tables, a: AccountId, requested: AccountId)
    requires ProvidersUnique(t) && Tombstone(t, a)
    ensures
      var account := t.accounts[a];
      Resolve(t, requested, account.provider) ==
        if Restorable(t, a) && NoStrayCredential(t, a) then
          Some(Restore(a, account.revision, Predecessor(t, a, account.revision, account.provider).value))
        else None
  {
    assert Owns(t, a, t.accounts[a].provider);
  }

  /** The enrollment that a resolved restore asks for. */
  function Restoring(id: OperationId, a: AccountId, revision: int, previous: Binding, displayLabel: int, enabled: bool,
                     schema: nat, fingerprint: int): Preparation
  {
    Preparation(a, Enroll, Some(displayLabel), Some(enabled), Some(revision), None,
                Some(Binding(schema, previous.version + 1, fingerprint, previous.provider, id)), previous.provider)
  }

  /** Preparing the restore of a restorable tombstone is admitted exactly when nothing of the account is
      unsettled, no credential is stored for it, and the version counter is not exhausted. */
  lemma RestoreIsAdmittedExactly(t: Tables, a: AccountId, id: OperationId, displayLabel: int, enabled: bool,
                                 schema: nat, fingerprint: int)
    requires Restorable(t, a) && id !in t.operations && t.accounts[a].revision >= 1
    ensures
      var revision := t.accounts[a].revision;
      var previous := Predecessor(t, a, revision, t.accounts[a].provider).value;
      var tx := Prepare(t, id, Restoring(id, a, revision, previous, displayLabel, enabled, schema, fingerprint), None);
      (tx.Commit? && tx.reply == Applied(Mutation(revision, Prepared)))
        <==> (!HasUnsettled(t, a) && a !in t.credentials && 1 <= previous.version != U64_MAX)
  {
    assert Predecessor(t, a, t.accounts[a].revision, t.accounts[a].provider).value.provider == t.accounts[a].provider;
  }

  // ------------------------------------------------------- careful and quiet runs

  /** No enable switch lands on an account whose logout is in progress. */
  ghost predicate Quiet(t: Tables, c: Command) {
    c.DoSetEnabled? ==> forall id :: id in t.operations ==> !LoggingOut(t.operations[id], c.account)
  }

  predicate LoggingOut(o: Operation, a: AccountId) {
    o.account == a && o.kind.Logout? && Unsettled(o)
  }

  ghost predicate QuietRun(commands: seq<Command>) {
    forall i :: 0 <= i < |commands| ==> Quiet(Run(Empty, commands[..i]), commands[i])
  }

  /** A logout in progress still expects its account's revision. */
  ghost predicate UpToDate(t: Tables) {
    forall id :: id in t.operations && t.operations[id].kind.Logout? && Unsettled(t.operations[id]) ==>
      t.operations[id].expectedRevision == Some(Revision(t, t.operations[id].account))
  }

  lemma AdvanceStaysUpToDate(t: Tables, c: Command)
    requires Inv(t) && UpToDate(t) && c.DoAdvance?
    ensures UpToDate(Step(t, c))
  {
    AdvanceCases(t, c.id, c.from, c.to, c.code, c.visit);
    var u := Step(t, c);
    if u != t && c.to.Committed? {
      SettleCommits(t, c.id, c.visit);
      forall x | x in u.operations && u.operations[x].kind.Logout? && Unsettled(u.operations[x])
        ensures u.operations[x].expectedRevision == Some(Revision(u, u.operations[x].account))
      {
        FinishedRows(t.operations, c.id, x);
        if t.operations[x].account == t.operations[c.id].account { CommitLeavesNonePending(t, c.id, c.visit, x); }
      }
    }
  }

  lemma StepStaysUpToDate(t: Tables, c: Command)
    requires Inv(t) && UpToDate(t) && Quiet(t, c)
    ensures UpToDate(Step(t, c))
  {
    if c.DoAdvance? { AdvanceStaysUpToDate(t, c); }
    else if c.DoPrepare? {
      var u := Step(t, c);
      if u != t && !IsNew(c.preparation.kind) { assert PreparationCheck(t, c.preparation).Done?; }
    }
  }

  /** On careful runs a logout in progress removes a credential of its account's provider; on quiet ones
      it expects the present revision. */
  lemma {:induction false} CarefulQuietRunsAreFaithful(commands: seq<Command>)
    requires CarefulRun(commands) && QuietRun(commands)
    ensures UpToDate(Run(Empty, commands)) && FaithfulRun(commands)
  {
    if commands != [] {
      var n := |commands| - 1;
      var before, c := commands[..n], commands[n];
      assert forall i :: 0 <= i < n ==> before[..i] == commands[..i];
      CarefulQuietRunsAreFaithful(before);
      RunKeepsInv(Empty, before);
      CarefulRunsKeepCredentials(before);
      PlayRuns(Start, before);
      var t := Run(Empty, before);
      StepStaysUpToDate(t, c);
      if CommitsLogout(t, c) {
        var a := t.operations[c.id].account;
        AdvanceCases(t, c.id, c.from, c.to, c.code, c.visit);
        assert AccountOk(t, LastWritten(Play(Start, before).log, a), a);
        assert PendingOk(t, LastWritten(Play(Start, before).log, a), a, t.operations[c.id]);
      }
    }
  }

  /** On careful and quiet runs every tombstone can be restored, and its provider identity resolves to
      that restore unless a stray credential is stored for it. */
  lemma EveryTombstoneCanBeRestored(commands: seq<Command>, a: AccountId, requested: AccountId)
    requires CarefulRun(commands) && QuietRun(commands) && Tombstone(Run(Empty, commands), a)
    ensures Restorable(Run(Empty, commands), a)
    ensures
      var t := Run(Empty, commands);
      var r := Resolve(t, requested, t.accounts[a].provider);
      (r.Some? <==> NoStrayCredential(t, a)) && (r.Some? ==> r.value.Restore? && r.value.account == a)
  {
    CarefulQuietRunsAreFaithful(commands);
    TombstonesRestoreExactly(commands);
    RunKeepsInv(Empty, commands);
    TombstoneResolvesExactly(Run(Empty, commands), a, requested);
  }
}

/** When each account request is granted: the conditions of every preparation, transition, commit, switch and
    credential write, told from the rows that the caller could look at. */
module AccountAdmission {
  import opened Prelude
  import opened AccountModel
  import opened AccountRuns
  import opened AccountSafety
  import opened AccountDating
  import opened AccountLedger
  import opened AccountVersions

  // ------------------------------------------------------------------ preparing

  /** A request in the shape of its kind: an enrollment names what to install and nothing to replace, and asks
      for version 1 exactly for a new account; a refresh or logout names what it starts from. Bindings
      belong to the requested provider, and the target is written by this very operation. */
  predicate WellAsked(id: OperationId, p: Preparation, recovery: Option<OperationId>) {
    && recovery != Some(id)
    && (p.expectedRevision.Some? ==> p.expectedRevision.value >= 1)
    && (p.expected.Some? ==> p.expected.value.provider == p.provider)
    && (p.target.Some? ==> p.target.value.provider == p.provider && p.target.value.writer == id)
    && if p.kind == Enroll || p.kind == Import then
         && p.displayLabel.Some? && p.enabled.Some? && p.expected.None? && p.target.Some?
         && (p.target.value.version == 1 <==> p.expectedRevision.None?)
       else
         p.displayLabel.None? && p.enabled.None? && p.expected.Some? && p.expectedRevision.Some?
  }

  predicate InProgress(o: Operation) {
    o.phase != Committed && o.phase != Cancelled && o.supersededBy.None?
  }

  /** A refresh in recovery that never got an answer and was not taken over, which this request may take over:
      by a refresh that brings a target, or by a logout if the provider had refused the credential. Both start
      from the same revision and credential. */
  predicate MayTakeOver(failed: Operation, account: AccountId, kind: Kind, expectedRevision: Option<int>,
                        expected: Option<Binding>, target: Option<Binding>)
  {
    && failed.account == account && failed.kind == Refresh && failed.phase == RecoveryRequired && failed.code.Some?
    && failed.target.None? && failed.recovers.None? && failed.supersededBy.None?
    && failed.expectedRevision == expectedRevision && failed.expected == expected
    && ((kind == Refresh && target.Some?)
        || (kind == Logout && target.None?
            && failed.code.value in {ProviderRefreshRejected, ProviderAccessRejectedAfterRefresh}))
  }

  predicate FitsI64(b: Option<Binding>) {
    b.Some? ==> b.value.version <= 0x7fff_ffff_ffff_ffff
  }

  predicate ReadsBack(o: Operation) {
    FitsI64(o.expected) && FitsI64(o.target)
  }

  /** A primary operation needs the account to itself, a takeover one failed refresh that nobody else is taking
      over. */
  ghost predicate Admitted(t: Tables, p: Preparation, recovery: Option<OperationId>) {
    if recovery.None? then
      forall x :: x in t.operations && t.operations[x].account == p.account ==> !InProgress(t.operations[x])
    else
      && recovery.value in t.operations && ReadsBack(t.operations[recovery.value])
      && MayTakeOver(t.operations[recovery.value], p.account, p.kind, p.expectedRevision, p.expected, p.target)
      && forall x :: x in t.operations && t.operations[x].recovers == recovery ==>
           t.operations[x].phase == Committed || t.operations[x].phase == Cancelled
  }

  predicate LoggedOutBy(t: Tables, a: AccountId, x: OperationId) {
    && x in t.operations && t.operations[x].account == a && t.operations[x].kind == Logout
    && t.operations[x].phase == Committed
  }

  /** The committed logout of the account that is newest by revision, then by identity. */
  ghost predicate LastLogout(t: Tables, a: AccountId, x: OperationId) {
    && LoggedOutBy(t, a, x)
    && forall y :: LoggedOutBy(t, a, y) ==>
         var r, s := t.operations[x].expectedRevision.GetOr(0), t.operations[y].expectedRevision.GetOr(0);
         s < r || (s == r && y <= x)
  }

  /** The account's last revision is the logout that removed this credential of its provider. */
  ghost predicate LastRemoved(t: Tables, a: AccountId, previous: Binding)
    requires a in t.accounts
  {
    exists x :: LastLogout(t, a, x)
      && t.operations[x].expected == Some(previous) && previous.provider == t.accounts[a].provider
      && previous.version <= 0x7fff_ffff_ffff_ffff
      && t.operations[x].expectedRevision.Some? && t.operations[x].expectedRevision.value + 1 == t.accounts[a].revision
  }

  lemma PredecessorIsRemoved(t: Tables, a: AccountId, previous: Binding)
    requires a in t.accounts
    ensures Predecessor(t, a, t.accounts[a].revision, t.accounts[a].provider) == Some(previous) <==> LastRemoved(t, a, previous)
  {
    var revision, provider := t.accounts[a].revision, t.accounts[a].provider;
    forall x | x in t.operations ensures LastLogout(t, a, x) <==> IsNewestLogout(t, a, x) {
      assert forall y :: IsLogout(t, a, y) <==> LoggedOutBy(t, a, y);
    }
    if x :| LastLogout(t, a, x) {
      PredecessorIs(t, a, x, revision, provider);
      forall y | LastLogout(t, a, y) ensures y == x { NewestLogoutIsOne(t, a, x, y); }
    } else {
      assert forall x :: !IsNewestLogout(t, a, x);
    }
  }

  /** Enrollments start a new account or restore a tombstone with the successor of the removed credential;
      refreshes and logouts start from the live account at the revision and credential that the caller saw. */
  ghost predicate StartsFrom(t: Tables, p: Preparation) {
    if p.kind == Enroll || p.kind == Import then
      if p.account !in t.accounts then p.expectedRevision.None?
      else
        && t.accounts[p.account].tombstoned && p.account !in t.credentials
        && p.expectedRevision == Some(t.accounts[p.account].revision) && p.provider == t.accounts[p.account].provider
        && exists previous :: LastRemoved(t, p.account, previous)
             && previous.version < 0xffff_ffff_ffff_ffff
             && p.target.Some? && p.target.value.version == previous.version + 1
    else
      && p.account in t.accounts && !t.accounts[p.account].tombstoned
      && p.expectedRevision == Some(t.accounts[p.account].revision)
      && (if p.account in t.credentials then p.expected == Some(t.credentials[p.account]) else p.expected.None?)
  }

  lemma ChecksAreStarts(t: Tables, p: Preparation)
    requires p.target.Some? ==> p.target.value.provider == p.provider
    requires IsNew(p.kind) ==> p.target.Some?
    ensures PreparationCheck(t, p).Done? <==> StartsFrom(t, p)
  {
    if IsNew(p.kind) && p.account in t.accounts && p.provider == t.accounts[p.account].provider {
      var predecessor := Predecessor(t, p.account, t.accounts[p.account].revision, p.provider);
      forall previous ensures predecessor == Some(previous) <==> LastRemoved(t, p.account, previous) {
        PredecessorIsRemoved(t, p.account, previous);
      }
      if predecessor.Some? {
        assert LastRemoved(t, p.account, predecessor.value);
        assert predecessor.value.version <= I64_MAX && predecessor.value.provider == p.provider by {
          var x :| LastLogout(t, p.account, x) && t.operations[x].expected == Some(predecessor.value)
            && predecessor.value.provider == t.accounts[p.account].provider && predecessor.value.version <= I64_MAX;
        }
      }
    }
  }

  /** A new operation is opened exactly when it is well asked, admitted, and starts from the present rows; then
      its row is the only change. */
  lemma OperationsAreOpenedExactly(t: Tables, id: OperationId, p: Preparation, recovery: Option<OperationId>)
    requires id !in t.operations
    ensures
      var tx := Prepare(t, id, p, recovery);
      && (IsApplied(tx) <==> WellAsked(id, p, recovery) && Admitted(t, p, recovery) && StartsFrom(t, p))
      && (IsApplied(tx) ==>
            && id in tx.state.operations
            && tx.state == t.(operations := t.operations[id := tx.state.operations[id]])
            && IsRow(tx.state.operations[id], DoPrepare(id, p, recovery), None, None))
      && (!WellAsked(id, p, recovery) ==> tx == Rollback(InvalidInput))
      && (WellAsked(id, p, recovery) && recovery.None? && !Admitted(t, p, recovery) ==>
            tx == Commit(t, Blocked(Revision(t, p.account))))
  {
    assert WellAsked(id, p, recovery) <==> ValidPreparation(id, p) && recovery != Some(id);
    if WellAsked(id, p, recovery) {
      ChecksAreStarts(t, p);
      AdmissionsAgree(t, p, recovery);
    }
  }

  lemma AdmissionsAgree(t: Tables, p: Preparation, recovery: Option<OperationId>)
    ensures ReadableAt(t, recovery) && AdmissionRefusal(t, p, recovery).None? <==> Admitted(t, p, recovery)
  {
  }

  /** A request under a known identity is recognised exactly if it asks for the very same operation, and is
      otherwise told that the identity is taken; neither changes anything. */
  lemma RepeatsAreToldApart(t: Tables, id: OperationId, p: Preparation, recovery: Option<OperationId>)
    requires id in t.operations && ReadsBack(t.operations[id]) && WellAsked(id, p, recovery)
    ensures
      var o, tx := t.operations[id], Prepare(t, id, p, recovery);
      var same :=
        && p.account == o.account && p.kind == o.kind && p.expectedRevision == o.expectedRevision
        && p.displayLabel == o.displayLabel && p.enabled == o.enabled && p.expected == o.expected
        && p.target == o.target && recovery == o.recovers;
      && tx.Commit? && tx.state == t
      && tx.reply == if same then Replayed(Mutation(Revision(t, o.account), o.phase))
                     else Rejected(IdentityConflict, Mutation(Revision(t, o.account), o.phase))
  {
  }

  // ------------------------------------------------------------------ advancing

  /** The transitions of an operation in progress, short of its commit. */
  const TRANSITIONS: set<(Phase, Phase)> := {
    (Prepared, ProviderEffectPending), (Prepared, StoreApplied), (Prepared, Cancelled), (Prepared, RecoveryRequired),
    (ProviderEffectPending, StoreApplied), (ProviderEffectPending, Cancelled), (ProviderEffectPending, RecoveryRequired),
    (StoreApplied, RecoveryRequired),
    (RecoveryRequired, StoreApplied), (RecoveryRequired, Cancelled)
  }

  /** An operation moves exactly from the phase that the caller saw, along an allowed transition, unless it was
      superseded or its row does not read back; it enters recovery exactly with a code. A transition that
      already happened is told again. Nothing but the row's phase and code changes. */
  lemma TransitionsAreAppliedExactly(t: Tables, id: OperationId, from: Phase, to: Phase, code: Option<RecoveryCode>,
                                     visit: seq<AccountId>)
    requires id in t.operations && ReadsBack(t.operations[id]) && to != Committed
    ensures
      var o, tx := t.operations[id], Advance(t, id, from, to, code, visit);
      var coded := code.Some? <==> to == RecoveryRequired;
      && (tx.Rollback? <==> !coded)
      && (IsApplied(tx) <==> coded && o.phase == from && (from, to) in TRANSITIONS && o.supersededBy.None?)
      && (tx.Commit? && tx.reply.Replayed? <==> coded && o.phase == to)
      && (IsApplied(tx) ==> tx.state == t.(operations := t.operations[id := o.(phase := to, code := code)]))
  {
  }

  /** What a takeover finds when it commits: the failed refresh still stands as it was taken over. */
  predicate TakeoverStands(t: Tables, o: Operation) {
    o.recovers.Some? ==>
      && o.recovers.value in t.operations && ReadsBack(t.operations[o.recovers.value])
      && MayTakeOver(t.operations[o.recovers.value], o.account, o.kind, o.expectedRevision, o.expected, o.target)
  }

  /** No revision that the commit counts up is at its end. */
  predicate RoomToCount(t: Tables, o: Operation) {
    && Revision(t, o.account) != 0x7fff_ffff_ffff_ffff
    && (o.kind != Refresh ==> t.routingRevision != 0x7fff_ffff_ffff_ffff)
  }

  /** The stored credential and the account rows are what this commit needs: an install finds its own target in
      the store, a logout finds the store empty and no process of the account alive. */
  ghost predicate CommitFits(t: Tables, o: Operation, visit: seq<AccountId>) {
    match o.kind
    case Logout =>
      && o.account in t.accounts && !t.accounts[o.account].tombstoned
      && o.account !in t.credentials && o.account !in t.busy && ShiftSucceeds(t.positions - {o.account}, visit)
    case Refresh =>
      && o.target.Some? && o.account in t.credentials && t.credentials[o.account] == o.target.value
      && o.account in t.accounts && !t.accounts[o.account].tombstoned
      && forall a :: a in t.accounts && t.accounts[a].provider == o.target.value.provider ==> a == o.account
    case _ =>
      && o.target.Some? && o.enabled.Some? && o.account in t.credentials && t.credentials[o.account] == o.target.value
      && if o.account !in t.accounts then
           && o.expectedRevision.None? && o.target.value.version == 1
           && forall a :: a in t.accounts ==> t.accounts[a].provider != o.target.value.provider
         else
           && t.accounts[o.account].tombstoned && o.expectedRevision == Some(t.accounts[o.account].revision)
           && o.target.value.provider == t.accounts[o.account].provider
           && exists previous :: LastRemoved(t, o.account, previous)
                && previous.version < 0xffff_ffff_ffff_ffff && o.target.value.version == previous.version + 1
  }

  /** An operation commits exactly from an applied store that the caller saw, when it was not superseded, any
      failed refresh it takes over still stands, and the credential and account rows are what it needs. */
  lemma CommitsAreAppliedExactly(t: Tables, id: OperationId, from: Phase, visit: seq<AccountId>)
    requires Inv(t) && id in t.operations && ReadsBack(t.operations[id])
    ensures
      var o := t.operations[id];
      IsApplied(Advance(t, id, from, Phase.Committed, None, visit)) <==>
        && o.phase == from == StoreApplied && o.supersededBy.None?
        && TakeoverStands(t, o) && RoomToCount(t, o) && CommitFits(t, o, visit)
  {
    var o := t.operations[id];
    assert TakeoverStands(t, o) <==>
      ReadableAt(t, o.recovers) && (o.recovers.Some? ==>
        o.recovers.value in t.operations && RecoversExactly(t.operations[o.recovers.value], o));
    AdvanceCases(t, id, from, Phase.Committed, None, visit);
    if o.kind.Logout? {
      LogoutsFit(t, id, visit);
    } else {
      CommitDecides(t, id, visit);
      if IsNew(o.kind) { EnrollmentsFit(t, o, visit); }
    }
  }

  lemma LogoutsFit(t: Tables, id: OperationId, visit: seq<AccountId>)
    requires id in t.operations && t.operations[id].kind.Logout?
    ensures
      var o := t.operations[id];
      Settle(t, id, visit).Done? <==>
        && ReadableAt(t, o.recovers)
        && (o.recovers.Some? ==> o.recovers.value in t.operations && RecoversExactly(t.operations[o.recovers.value], o))
        && RoomToCount(t, o) && CommitFits(t, o, visit)
  {
  }

  lemma EnrollmentsFit(t: Tables, o: Operation, visit: seq<AccountId>)
    requires IsNew(o.kind)
    ensures EnrollmentReady(t, o) <==> RoomToCount(t, o) && CommitFits(t, o, visit)
  {
    if o.account in t.accounts && o.target.Some? && o.target.value.provider == t.accounts[o.account].provider {
      var predecessor := Predecessor(t, o.account, t.accounts[o.account].revision, o.target.value.provider);
      forall previous ensures predecessor == Some(previous) <==> LastRemoved(t, o.account, previous) {
        PredecessorIsRemoved(t, o.account, previous);
      }
      assert predecessor.Some? ==> LastRemoved(t, o.account, predecessor.value);
    }
  }

  // ------------------------------------------------ switches, answers, credentials

  /** A live account is switched exactly at the revision that the caller saw, while it can still be counted. */
  lemma SwitchesAreMadeExactly(t: Tables, a: AccountId, expected: int, enabled: bool)
    ensures
      var tx := SetEnabled(t, a, expected, enabled);
      && (tx.Commit? && tx.reply.Updated? <==>
            && a in t.accounts && !t.accounts[a].tombstoned && t.accounts[a].revision == expected
            && 1 <= expected && expected != 0x7fff_ffff_ffff_ffff)
      && (tx.Commit? && tx.reply.Updated? ==>
            tx.state == t.(accounts := t.accounts[a := t.accounts[a].(enabled := enabled, revision := expected + 1)]))
  {
  }

  /** The provider's answer is recorded exactly once, on the operation that wrote it, while its effect is pending
      and it was not superseded. The same answer again is recognised. */
  lemma AnswersAreRecordedExactly(t: Tables, id: OperationId, target: Binding)
    requires id in t.operations && ReadsBack(t.operations[id])
    ensures
      var o, tx := t.operations[id], SetTarget(t, id, target);
      && tx.Commit?
      && (tx.reply.Replayed? <==> o.target == Some(target))
      && (tx.reply.Applied? <==>
            o.phase == ProviderEffectPending && o.target.None? && o.supersededBy.None? && target.writer == id)
      && (tx.reply.Applied? ==> tx.state == t.(operations := t.operations[id := o.(target := Some(target))]))
  {
  }

  /** A first bundle is stored exactly where none is, for a provider that no stored bundle has, and by an operation
      that exists. The expected bundle alone is rotated, to its successor of the same provider, and the
      expected bundle alone is deleted. */
  lemma BundlesAreWrittenExactly(t: Tables, a: AccountId, record: Binding, expected: Binding)
    ensures
      var created, rotated, deleted :=
        CreateCredential(t, a, record), RotateCredential(t, a, expected, record), DeleteCredential(t, a, expected);
      var written := t.(credentials := t.credentials[a := record]);
      var holds := a in t.credentials && t.credentials[a] == expected;
      && (created.Commit? <==>
            && a !in t.credentials && record.writer in t.operations && 1 <= record.version <= 0x7fff_ffff_ffff_ffff
            && forall b :: b in t.credentials ==> t.credentials[b].provider != record.provider)
      && (created.Commit? ==> created.state == written)
      && (rotated.Commit? <==>
            && holds && record.writer in t.operations && record.provider == expected.provider
            && record.version == expected.version + 1 <= 0x7fff_ffff_ffff_ffff)
      && (rotated.Commit? ==> rotated.state == written)
      && (deleted.Commit? <==> holds)
      && (deleted.Commit? ==> deleted.state == t.(credentials := t.credentials - {a}))
  {
  }

  // ------------------------------------------------------------------- resolving

  /** The enrollment that is restoring this tombstone has just stored its target. */
  ghost predicate BeingRestored(t: Tables, a: AccountId)
    requires a in t.accounts
  {
    exists x :: x in t.operations && t.operations[x].account == a && InProgress(t.operations[x])
      && (t.operations[x].kind == Enroll || t.operations[x].kind == Import) && ReadsBack(t.operations[x])
      && t.operations[x].expectedRevision == Some(t.accounts[a].revision)
      && a in t.credentials && t.operations[x].target == Some(t.credentials[a])
  }

  /** A provider identity that no account has enrolls where it was asked to; one of a live account is enrolled
      already; one of a tombstone restores it from the credential that its last logout removed, unless another
      credential lies in the way. */
  lemma IdentitiesResolveExactly(t: Tables, requested: AccountId, provider: ProviderId, a: AccountId, previous: Binding)
    requires ProvidersUnique(t)
    ensures (forall b :: b in t.accounts ==> t.accounts[b].provider != provider) ==>
      Resolve(t, requested, provider) == Some(Resolution.Fresh(requested))
    ensures a in t.accounts && t.accounts[a].provider == provider && !t.accounts[a].tombstoned ==>
      Resolve(t, requested, provider) == Some(AlreadyEnrolled(a, t.accounts[a].revision))
    ensures a in t.accounts && t.accounts[a].provider == provider && t.accounts[a].tombstoned ==>
      (Resolve(t, requested, provider) == Some(Restore(a, t.accounts[a].revision, previous)) <==>
         (a in t.credentials ==> BeingRestored(t, a)) && LastRemoved(t, a, previous))
  {
    if a in t.accounts && t.accounts[a].provider == provider {
      assert Owns(t, a, provider);
      assert forall b :: Owns(t, b, provider) ==> b == a;
      PredecessorIsRemoved(t, a, previous);
      if a in t.credentials { assert EnrollmentInFlight(t, a) <==> BeingRestored(t, a); }
    }
  }
}

/** Which logout of an account is the newest: on every run, whatever the host writes, logouts are dated
    by the revision they expect, and a tombstone remembers the last one. */
module AccountDating {
  import opened Prelude
  import opened Collections
  import opened AccountModel
  import opened AccountRuns
  import opened AccountSafety

  /** A refresh or logout in progress. */
  predicate Pending(o: Operation) {
    Unsettled(o) && !IsNew(o.kind)
  }

  /** It started from a revision past every committed logout of its account. */
  ghost predicate PendingDated(t: Tables, a: AccountId, o: Operation) {
    && a in t.accounts && o.expected.Some? && o.expectedRevision.Some?
    && o.expectedRevision.value <= t.accounts[a].revision
    && forall x :: IsLogout(t, a, x) ==> t.operations[x].expectedRevision.GetOr(0) < o.expectedRevision.value
  }

  ghost predicate Dated(t: Tables, a: AccountId) {
    && (forall x :: IsLogout(t, a, x) ==> t.operations[x].expectedRevision.GetOr(0) < Revision(t, a))
    && (forall id :: id in t.operations && t.operations[id].account == a && Pending(t.operations[id]) ==>
          PendingDated(t, a, t.operations[id]))
    && (a in t.accounts && t.accounts[a].tombstoned ==> exists id :: IsNewestLogout(t, a, id))
  }

  predicate CommittedWriter(t: Tables, writer: OperationId) {
    writer in t.operations && t.operations[writer].phase.Committed?
  }

  // --------------------------------------------------------- the logout history

  lemma NewestLogoutIsOne(t: Tables, a: AccountId, x: OperationId, y: OperationId)
    requires IsNewestLogout(t, a, x) && IsNewestLogout(t, a, y)
    ensures x == y
  {
    assert NoNewer(t, x, y) && NoNewer(t, y, x);
  }

  lemma PredecessorIs(t: Tables, a: AccountId, id: OperationId, revision: int, provider: ProviderId)
    requires IsNewestLogout(t, a, id)
    ensures Predecessor(t, a, revision, provider) == PredecessorOf(t.operations[id], revision, provider)
  {
    var x :| IsNewestLogout(t, a, x)
             && Predecessor(t, a, revision, provider) == PredecessorOf(t.operations[x], revision, provider);
    NewestLogoutIsOne(t, a, id, x);
  }

  /** The committed logouts of `a` are the same. */
  ghost predicate SameLogouts(t: Tables, u: Tables, a: AccountId) {
    && (forall x :: IsLogout(t, a, x) <==> IsLogout(u, a, x))
    && (forall x :: IsLogout(t, a, x) ==> t.operations[x] == u.operations[x])
  }

  lemma NewestStays(t: Tables, u: Tables, a: AccountId, id: OperationId)
    requires SameLogouts(t, u, a) && IsNewestLogout(t, a, id)
    ensures IsNewestLogout(u, a, id) && u.operations[id] == t.operations[id]
  {
    assert IsLogout(u, a, id);
  }

  /** Operations come, go and move without committing; the account keeps its tombstone and at least its
      revision. */
  lemma DatedKept(t: Tables, u: Tables, a: AccountId)
    requires Dated(t, a) && SameLogouts(t, u, a)
    requires a in t.accounts <==> a in u.accounts
    requires a in t.accounts ==>
      t.accounts[a].tombstoned == u.accounts[a].tombstoned && t.accounts[a].revision <= u.accounts[a].revision
    requires forall id :: id in u.operations && u.operations[id].account == a && Pending(u.operations[id]) ==>
      PendingDated(t, a, u.operations[id])
    ensures Dated(u, a)
  {
    if a in t.accounts && t.accounts[a].tombstoned {
      var id :| IsNewestLogout(t, a, id);
      NewestStays(t, u, a, id);
    }
    forall id | id in u.operations && u.operations[id].account == a && Pending(u.operations[id])
      ensures PendingDated(u, a, u.operations[id])
    {
      assert PendingDated(t, a, u.operations[id]);
    }
  }

  // ------------------------------------------------------------------ commits

  ghost function CommittedState(t: Tables, id: OperationId, visit: seq<AccountId>): Tables
    requires id in t.operations && Settle(t, id, visit).Done?
  {
    Settle(t, id, visit).tables.(operations := Finished(t.operations, id))
  }

  /** The rows a commit leaves: its own is committed, the failed refresh it replaces is superseded. */
  lemma FinishedRows(ops: map<OperationId, Operation>, id: OperationId, x: OperationId)
    requires Committable(ops, id) && x in ops
    ensures x in Finished(ops, id)
    ensures x == id ==> Finished(ops, id)[x] == ops[x].(phase := Committed, code := None)
    ensures x != id && ops[id].recovers != Some(x) ==> Finished(ops, id)[x] == ops[x]
    ensures x != id && ops[id].recovers == Some(x) ==>
      && Finished(ops, id)[x] == ops[x].(supersededBy := Some(id))
      && ops[x].phase.RecoveryRequired? && ops[x].account == ops[id].account
  {
  }

  /** Nothing of another account changes with a commit. */
  lemma CommitLeavesOthers(t: Tables, a: AccountId, id: OperationId, visit: seq<AccountId>)
    requires Committable(t.operations, id) && t.operations[id].account != a && Settle(t, id, visit).Done?
    ensures
      var u := CommittedState(t, id, visit);
      && SameLogouts(t, u, a) && u.operations.Keys == t.operations.Keys
      && (a in t.accounts <==> a in u.accounts) && (a in t.accounts ==> t.accounts[a] == u.accounts[a])
      && (forall x :: x in t.operations && u.operations[x].account == a ==> u.operations[x] == t.operations[x])
      && (forall x :: CommittedWriter(t, x) ==> CommittedWriter(u, x))
  {
    SettleCommits(t, id, visit);
    var u := CommittedState(t, id, visit);
    assert u.operations.Keys == t.operations.Keys;
    forall x | x in t.operations
      ensures t.operations[x].account == a ==> u.operations[x] == t.operations[x]
      ensures u.operations[x].account == t.operations[x].account
      ensures CommittedWriter(t, x) ==> CommittedWriter(u, x)
    {
      FinishedRows(t.operations, id, x);
    }
  }

  /** After a commit nothing is pending on its account. */
  lemma CommitLeavesNonePending(t: Tables, id: OperationId, visit: seq<AccountId>, x: OperationId)
    requires Inv(t) && Committable(t.operations, id) && Settle(t, id, visit).Done?
    requires x in t.operations && t.operations[x].account == t.operations[id].account
    ensures x in CommittedState(t, id, visit).operations && !Unsettled(CommittedState(t, id, visit).operations[x])
  {
    SettleCommits(t, id, visit);
    FinishedRows(t.operations, id, x);
    if x != id && Unsettled(t.operations[x]) {
      CommitStandsAlone(t, Settle(t, id, visit).tables, id, x);
    }
  }

  lemma CommitHistory(t: Tables, id: OperationId, visit: seq<AccountId>, x: OperationId)
    requires Committable(t.operations, id) && Settle(t, id, visit).Done?
    ensures var a, u := t.operations[id].account, CommittedState(t, id, visit);
      && (IsLogout(u, a, x) <==> IsLogout(t, a, x) || (x == id && t.operations[id].kind.Logout?))
      && (IsLogout(t, a, x) ==> u.operations[x] == t.operations[x])
      && (CommittedWriter(t, x) || x == id ==> CommittedWriter(u, x))
  {
    if x in t.operations { FinishedRows(t.operations, id, x); }
    assert CommittedState(t, id, visit).operations.Keys == t.operations.Keys;
  }

  /** A committed logout is the newest of its account. */
  lemma LogoutIsNewest(t: Tables, id: OperationId, visit: seq<AccountId>)
    requires Inv(t) && Committable(t.operations, id) && Settle(t, id, visit).Done?
    requires t.operations[id].kind.Logout? && Dated(t, t.operations[id].account)
    ensures IsNewestLogout(CommittedState(t, id, visit), t.operations[id].account, id)
  {
    var a, u := t.operations[id].account, CommittedState(t, id, visit);
    assert PendingDated(t, a, t.operations[id]);
    FinishedRows(t.operations, id, id);
    forall x | x in u.operations && IsLogout(u, a, x) ensures NoNewer(u, id, x) {
      CommitHistory(t, id, visit, x);
    }
  }

  lemma CommitKeepsDated(t: Tables, a: AccountId, id: OperationId, visit: seq<AccountId>)
    requires Inv(t) && Committable(t.operations, id) && Settle(t, id, visit).Done? && Dated(t, a)
    ensures Dated(CommittedState(t, id, visit), a)
  {
    SettleCommits(t, id, visit);
    var o, u := t.operations[id], CommittedState(t, id, visit);
    if o.account != a {
      CommitLeavesOthers(t, a, id, visit);
      DatedKept(t, u, a);
    } else {
      if o.kind.Logout? { assert PendingDated(t, a, o); LogoutIsNewest(t, id, visit); }
      forall x | x in u.operations && u.operations[x].account == a ensures !Unsettled(u.operations[x]) {
        FinishedRows(t.operations, id, x);
        CommitLeavesNonePending(t, id, visit, x);
      }
      forall x | IsLogout(u, a, x) ensures u.operations[x].expectedRevision.GetOr(0) < Revision(u, a) {
        CommitHistory(t, id, visit, x);
        if x == id { FinishedRows(t.operations, id, id); }
      }
    }
  }

  // --------------------------------------------------------------- every step

  lemma PrepareKeepsDated(t: Tables, a: AccountId, id: OperationId, p: Preparation, recovery: Option<OperationId>)
    requires Dated(t, a)
    ensures Dated(After(t, Prepare(t, id, p, recovery)), a)
  {
    var u := After(t, Prepare(t, id, p, recovery));
    if u != t {
      assert u == t.(operations := t.operations[id := Opened(p, recovery)]) && id !in t.operations;
      if !IsNew(p.kind) { assert PreparationCheck(t, p).Done?; }
      DatedKept(t, u, a);
    }
  }

  /** One unsettled operation moves on without being committed. */
  lemma MoveKeepsDated(t: Tables, a: AccountId, id: OperationId, n: Operation)
    requires Dated(t, a) && id in t.operations && Moves(t.operations[id], n)
    ensures Dated(t.(operations := t.operations[id := n]), a)
  {
    var u := t.(operations := t.operations[id := n]);
    forall x | x in u.operations && u.operations[x].account == a && Pending(u.operations[x])
      ensures PendingDated(t, a, u.operations[x])
    {
      assert x in t.operations && t.operations[x].account == a && Pending(t.operations[x]);
    }
    DatedKept(t, u, a);
  }

  lemma AdvanceKeepsDated(t: Tables, c: Command, a: AccountId)
    requires Inv(t) && Dated(t, a) && c.DoAdvance?
    ensures Dated(Step(t, c), a)
  {
    AdvanceCases(t, c.id, c.from, c.to, c.code, c.visit);
    if Step(t, c) != t {
      assert OperationOk(t.operations, c.id);
      if c.to.Committed? { CommitKeepsDated(t, a, c.id, c.visit); }
      else { MoveKeepsDated(t, a, c.id, t.operations[c.id].(phase := c.to, code := c.code)); }
    }
  }

  lemma OtherStepKeepsDated(t: Tables, c: Command, a: AccountId)
    requires Dated(t, a) && !c.DoAdvance? && !c.DoPrepare? && !c.DoSetTarget?
    ensures Dated(Step(t, c), a)
  {
    DatedKept(t, Step(t, c), a);
  }

  lemma StepKeepsDated(t: Tables, c: Command, a: AccountId)
    requires Inv(t) && Dated(t, a)
    ensures Dated(Step(t, c), a)
  {
    if c.DoAdvance? { AdvanceKeepsDated(t, c, a); }
    else if c.DoPrepare? { PrepareKeepsDated(t, a, c.id, c.preparation, c.recovery); }
    else if c.DoSetTarget? {
      if Step(t, c) != t {
        assert OperationOk(t.operations, c.id);
        MoveKeepsDated(t, a, c.id, t.operations[c.id].(target := Some(c.target)));
      }
    }
    else { OtherStepKeepsDated(t, c, a); }
  }

  lemma {:induction false} RunsAreDated(commands: seq<Command>, a: AccountId)
    ensures Dated(Run(Empty, commands), a)
  {
    if commands != [] {
      var before := commands[..|commands| - 1];
      RunsAreDated(before, a);
      RunKeepsInv(Empty, before);
      StepKeepsDated(Run(Empty, before), commands[|commands| - 1], a);
    }
  }
}

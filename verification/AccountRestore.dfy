/** Every command keeps the credential facts of every account, so committed versions climb on careful runs. */
module AccountRestore {
  import opened Prelude
  import opened Collections
  import opened AccountModel
  import opened AccountRuns
  import opened AccountSafety
  import opened AccountHistory
  import opened AccountDating
  import opened AccountCredentials

  // ------------------------------------------------------ commands that commit nothing

  lemma PrepareKeeps(t: Tables, last: Option<Binding>, a: AccountId,
                     id: OperationId, p: Preparation, recovery: Option<OperationId>)
    requires AccountOk(t, last, a)
    ensures AccountOk(After(t, Prepare(t, id, p, recovery)), last, a)
  {
    var u := After(t, Prepare(t, id, p, recovery));
    if u != t {
      assert u == t.(operations := t.operations[id := Opened(p, recovery)]) && id !in t.operations;
      if !IsNew(p.kind) { assert PreparationCheck(t, p).Done?; }
      AccountKept(t, u, last, a);
    }
  }

  /** One unsettled operation moves on without being committed. */
  lemma MoveKeeps(t: Tables, last: Option<Binding>, a: AccountId, id: OperationId, n: Operation)
    requires AccountOk(t, last, a)
    requires id in t.operations && Moves(t.operations[id], n)
    ensures AccountOk(t.(operations := t.operations[id := n]), last, a)
  {
    var u := t.(operations := t.operations[id := n]);
    forall x | x in u.operations && u.operations[x].account == a && Pending(u.operations[x])
      ensures PendingOk(t, last, a, u.operations[x])
    {
      assert x in t.operations && t.operations[x].account == a && Pending(t.operations[x]);
    }
    AccountKept(t, u, last, a);
  }

  /** The operations stay as they are. */
  lemma RowKeeps(t: Tables, u: Tables, last: Option<Binding>, a: AccountId)
    requires AccountOk(t, last, a) && u.operations == t.operations && StoredOk(u, last, a)
    requires a in t.accounts <==> a in u.accounts
    requires a in t.accounts ==>
      t.accounts[a].provider == u.accounts[a].provider && t.accounts[a].tombstoned == u.accounts[a].tombstoned
    ensures AccountOk(u, last, a)
  {
    AccountKept(t, u, last, a);
  }

  // ------------------------------------------------------------------ commits

  /** A committed enrollment or refresh installs a version above every committed one. */
  lemma CommitClimbs(t: Tables, last: Option<Binding>, id: OperationId, visit: seq<AccountId>)
    requires Inv(t) && Committable(t.operations, id) && Settle(t, id, visit).Done?
    requires !t.operations[id].kind.Logout? && AccountOk(t, last, t.operations[id].account)
    requires t.operations[id].account !in t.accounts ==> last.None?
    ensures t.operations[id].target.Some? && t.operations[id].target.value.version > VersionOf(last)
  {
    SettleCommits(t, id, visit);
    var o := t.operations[id];
    var a := o.account;
    assert OperationOk(t.operations, id);
    if IsNew(o.kind) {
      if a in t.accounts {
        var newest :| Remembers(t, last, a, newest);
        PredecessorIs(t, a, newest, t.accounts[a].revision, o.target.value.provider);
      }
    }
  }

  lemma CommitKeepsOther(t: Tables, last: Option<Binding>, a: AccountId, id: OperationId, visit: seq<AccountId>)
    requires Inv(t) && AccountOk(t, last, a)
    requires Committable(t.operations, id) && t.operations[id].account != a && Settle(t, id, visit).Done?
    ensures AccountOk(CommittedState(t, id, visit), last, a)
  {
    SettleCommits(t, id, visit);
    var u := CommittedState(t, id, visit);
    CommitLeavesOthers(t, a, id, visit);
    AccountKept(t, u, last, a);
  }

  lemma CommitKeepsOwn(t: Tables, last: Option<Binding>, id: OperationId, visit: seq<AccountId>)
    requires Inv(t) && Committable(t.operations, id) && Settle(t, id, visit).Done?
    requires AccountOk(t, last, t.operations[id].account) && Dated(t, t.operations[id].account)
    ensures
      var o := t.operations[id];
      AccountOk(CommittedState(t, id, visit), if o.kind.Logout? then last else o.target, o.account)
  {
    SettleCommits(t, id, visit);
    var o, u := t.operations[id], CommittedState(t, id, visit);
    var a := o.account;
    assert OperationOk(t.operations, id);
    if o.kind.Logout? {
      assert PendingOk(t, last, a, o) && PendingDated(t, a, o);
      LogoutIsNewest(t, id, visit);
      FinishedRows(t.operations, id, id);
      assert Remembers(u, last, a, id);
    }
    forall x | x in u.operations && u.operations[x].account == a ensures !Unsettled(u.operations[x]) {
      FinishedRows(t.operations, id, x);
      CommitLeavesNonePending(t, id, visit, x);
    }
    CommitHistory(t, id, visit, id);
    if o.kind.Logout? && last.Some? { CommitHistory(t, id, visit, last.value.writer); }
  }

  // --------------------------------------------------------------- every step

  ghost predicate AllDated(t: Tables) {
    forall a :: Dated(t, a)
  }

  lemma CommitStepKeeps(w: World, c: Command, a: AccountId)
    requires Inv(w.tables) && RevisionsCount(w) && CredentialsOk(w) && AllDated(w.tables) && c.DoAdvance?
    requires Recorded(w.tables, c) != []
    ensures AccountOk(Next(w, c).tables, LastWritten(Next(w, c).log, a), a)
    ensures Climbs(w.log) ==> Climbs(Next(w, c).log)
  {
    var t, last := w.tables, LastWritten(w.log, a);
    AdvanceCases(t, c.id, c.from, c.to, c.code, c.visit);
    AdvanceRecords(t, c);
    var change := Recorded(t, c)[0];
    Appended(w.log, change);
    if a == change.account { CommitKeepsOwn(t, last, c.id, c.visit); }
    else { CommitKeepsOther(t, last, a, c.id, c.visit); }
    if !t.operations[c.id].kind.Logout? {
      if change.account !in t.accounts {
        assert Revision(t, change.account) == 0;
        NothingWritten(w.log, change.account);
      }
      CommitClimbs(t, LastWritten(w.log, change.account), c.id, c.visit);
    }
  }

  lemma AdvanceKeeps(w: World, c: Command, a: AccountId)
    requires Inv(w.tables) && RevisionsCount(w) && CredentialsOk(w) && AllDated(w.tables) && c.DoAdvance?
    ensures AccountOk(Next(w, c).tables, LastWritten(Next(w, c).log, a), a)
    ensures Climbs(w.log) ==> Climbs(Next(w, c).log)
  {
    var t := w.tables;
    if Recorded(t, c) != [] {
      CommitStepKeeps(w, c, a);
    } else {
      AdvanceCases(t, c.id, c.from, c.to, c.code, c.visit);
      assert Next(w, c).log == w.log;
      if Step(t, c) != t {
        assert OperationOk(t.operations, c.id);
        MoveKeeps(t, LastWritten(w.log, a), a, c.id, t.operations[c.id].(phase := c.to, code := c.code));
      }
    }
  }

  lemma RowStepKeeps(t: Tables, last: Option<Binding>, a: AccountId, c: Command)
    requires AccountOk(t, last, a) && Careful(t, c)
    requires c.DoCreate? || c.DoRotate? || c.DoDelete? || c.DoSetEnabled?
    ensures AccountOk(Step(t, c), last, a)
  {
    RowKeeps(t, Step(t, c), last, a);
  }

  lemma StepKeeps(w: World, c: Command, a: AccountId)
    requires Inv(w.tables) && CredentialsOk(w) && Careful(w.tables, c) && !c.DoAdvance?
    ensures AccountOk(Step(w.tables, c), LastWritten(w.log, a), a)
  {
    var t, last := w.tables, LastWritten(w.log, a);
    match c
    case DoPrepare(id, p, recovery) => PrepareKeeps(t, last, a, id, p, recovery);
    case DoSetTarget(id, target) =>
      if Step(t, c) != t {
        assert OperationOk(t.operations, id);
        MoveKeeps(t, last, a, id, t.operations[id].(target := Some(target)));
      }
    case DoCreate(_, _) => RowStepKeeps(t, last, a, c);
    case DoRotate(_, _, _) => RowStepKeeps(t, last, a, c);
    case DoDelete(_, _) => RowStepKeeps(t, last, a, c);
    case DoSetEnabled(_, _, _) => RowStepKeeps(t, last, a, c);
    case _ => RowKeeps(t, Step(t, c), last, a);
  }

  lemma QuietRecord(w: World, c: Command, a: AccountId)
    requires !c.DoAdvance?
    ensures LastWritten(Next(w, c).log, a) == LastWritten(w.log, a)
    ensures Climbs(w.log) ==> Climbs(Next(w, c).log)
  {
    var recorded := Recorded(w.tables, c);
    if recorded != [] {
      Appended(w.log, recorded[0]);
    } else { assert Next(w, c).log == w.log; }
  }

  lemma StepKeepsCredentials(w: World, c: Command)
    requires Inv(w.tables) && RevisionsCount(w) && CredentialsOk(w) && AllDated(w.tables) && Climbs(w.log) && Careful(w.tables, c)
    ensures CredentialsOk(Next(w, c)) && Climbs(Next(w, c).log)
  {
    forall a ensures AccountOk(Next(w, c).tables, LastWritten(Next(w, c).log, a), a) {
      if c.DoAdvance? { AdvanceKeeps(w, c, a); }
      else { StepKeeps(w, c, a); QuietRecord(w, c, a); }
    }
    if c.DoAdvance? { AdvanceKeeps(w, c, 0); } else { QuietRecord(w, c, 0); }
  }

  lemma {:induction false} CarefulRunsKeepCredentials(commands: seq<Command>)
    requires CarefulRun(commands)
    ensures CredentialsOk(Play(Start, commands)) && Climbs(Play(Start, commands).log)
  {
    if commands != [] {
      var n := |commands| - 1;
      var before := commands[..n];
      assert forall i :: 0 <= i < n ==> before[..i] == commands[..i];
      CarefulRunsKeepCredentials(before);
      PlayRuns(Start, before);
      RunKeepsInv(Empty, before);
      RevisionCountsChanges(before, 0);
      forall a ensures Dated(Run(Empty, before), a) { RunsAreDated(before, a); }
      StepKeepsCredentials(Play(Start, before), commands[n]);
    }
  }

  /** Committed credential versions of one account strictly increase, across refresh, logout and
      re-enrollment, on every run that creates host credentials carefully. */
  lemma CommittedVersionsIncrease(commands: seq<Command>, i: nat, j: nat)
    requires CarefulRun(commands)
    requires
      var log := Play(Start, commands).log;
      && i < j < |log| && log[i].account == log[j].account
      && log[i].written.Some? && log[j].written.Some?
    ensures
      var log := Play(Start, commands).log;
      log[i].written.value.version < log[j].written.value.version
  {
    CarefulRunsKeepCredentials(commands);
    ClimbingVersions(Play(Start, commands).log, i, j);
  }
}

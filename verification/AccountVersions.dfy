/** When committed credential versions increase, on runs of any kind: the condition that one look at
    the operation rows decides before each commit. */
module AccountVersions {
  import opened Prelude
  import opened AccountModel
  import opened AccountRuns
  import opened AccountSafety
  import opened AccountHistory
  import opened AccountTheorems

  /** A committed enrollment or refresh of the account. */
  predicate Installs(t: Tables, a: AccountId, x: OperationId) {
    && x in t.operations && t.operations[x].account == a && t.operations[x].phase.Committed?
    && !t.operations[x].kind.Logout? && t.operations[x].target.Some?
  }

  /** The version is above all that enrollments and refreshes of the account have committed. */
  ghost predicate Exceeds(t: Tables, a: AccountId, version: int) {
    forall x :: Installs(t, a, x) ==> t.operations[x].target.value.version < version
  }

  /** What committing a refresh checks. */
  predicate RefreshReady(t: Tables, o: Operation) {
    && o.target.Some? && Stored(t, o.account) == o.target && Live(t, o.account)
    && t.accounts[o.account].revision != I64_MAX
    && forall a :: a in t.accounts && a != o.account ==> t.accounts[a].provider != o.target.value.provider
  }

  /** What committing an enrollment checks: the first version of a new account, or the successor of what
      the last logout removed. */
  ghost predicate EnrollmentReady(t: Tables, o: Operation) {
    && o.target.Some? && Stored(t, o.account) == o.target && o.enabled.Some? && t.routingRevision != I64_MAX
    && var target := o.target.value;
       if o.account !in t.accounts then
         && o.expectedRevision.None? && target.version == 1
         && forall a :: a in t.accounts ==> t.accounts[a].provider != target.provider
       else
         var account := t.accounts[o.account];
         var previous := Predecessor(t, o.account, account.revision, target.provider);
         && account.tombstoned && account.revision != I64_MAX && target.provider == account.provider
         && o.expectedRevision == Some(account.revision)
         && previous.Some? && previous.value.version != U64_MAX && target.version == previous.value.version + 1
  }

  /** The operation row and its account allow this commit to install a credential. */
  ghost predicate InstallReady(t: Tables, id: OperationId) {
    && id in t.operations
    && var o := t.operations[id];
       && o.phase.StoreApplied? && o.supersededBy.None? && !o.kind.Logout? && Readable(o) && ReadableAt(t, o.recovers)
       && (o.recovers.Some? ==>
             o.recovers.value in t.operations && RecoversExactly(t.operations[o.recovers.value], o))
       && if o.kind.Refresh? then RefreshReady(t, o) else EnrollmentReady(t, o)
  }

  predicate IsCommit(c: Command) {
    c.DoAdvance? && c.from.StoreApplied? && c.to.Committed? && c.code.None?
  }

  /** A commit that is ready to install a credential has one newer than all installed before. */
  ghost predicate Rises(t: Tables, c: Command) {
    IsCommit(c) && InstallReady(t, c.id) ==>
      Exceeds(t, t.operations[c.id].account, t.operations[c.id].target.value.version)
  }

  /** Exactly the ready commits install a credential. */
  lemma ReadyInstalls(t: Tables, c: Command)
    requires Inv(t)
    ensures
      var recorded := Recorded(t, c);
      if IsCommit(c) && InstallReady(t, c.id) then recorded == [Change(t.operations[c.id].account, t.operations[c.id].target)]
      else recorded == [] || recorded[0].written.None?
  {
    if c.DoAdvance? && c.to.Committed? && c.id in t.operations && !t.operations[c.id].kind.Logout? { CommitDecides(t, c.id, c.visit); }
  }

  lemma CommitDecides(t: Tables, id: OperationId, visit: seq<AccountId>)
    requires Inv(t) && id in t.operations && !t.operations[id].kind.Logout?
    ensures
      var o := t.operations[id];
      Settle(t, id, visit).Done? <==>
        && ReadableAt(t, o.recovers)
        && (o.recovers.Some? ==> o.recovers.value in t.operations && RecoversExactly(t.operations[o.recovers.value], o))
        && if o.kind.Refresh? then RefreshReady(t, o) else EnrollmentReady(t, o)
  {
    var o := t.operations[id];
    if IsNew(o.kind) && EnrollmentReady(t, o) { assert o.account !in t.positions && Free(t.positions, o.account, |t.positions|); }
  }

  /** Each command of the run rises from the state before it. */
  ghost predicate RisingRun(commands: seq<Command>) {
    commands != [] ==>
      var before := commands[..|commands| - 1];
      RisingRun(before) && Rises(Run(Empty, before), commands[|commands| - 1])
  }

  predicate Wrote(log: seq<Change>, i: int, a: AccountId) {
    0 <= i < |log| && log[i].account == a && log[i].written.Some?
  }

  /** Of two credentials committed for one account the later one is newer. */
  ghost predicate Increasing(log: seq<Change>) {
    forall i, j, a :: i < j && Wrote(log, i, a) && Wrote(log, j, a) ==>
      log[i].written.value.version < log[j].written.value.version
  }

  predicate WroteVersion(log: seq<Change>, a: AccountId, version: int) {
    exists i :: 0 <= i < |log| && Wrote(log, i, a) && log[i].written.value.version == version
  }

  predicate InstalledVersion(t: Tables, a: AccountId, version: int) {
    exists x :: x in t.operations && Installs(t, a, x) && t.operations[x].target.value.version == version
  }

  /** The history and the operation rows know the same committed versions. */
  ghost predicate SameVersions(w: World) {
    forall a, version :: WroteVersion(w.log, a, version) <==> InstalledVersion(w.tables, a, version)
  }

  lemma LogGrows(log: seq<Change>, more: seq<Change>, a: AccountId, version: int)
    requires |more| <= 1
    ensures WroteVersion(log + more, a, version) <==>
      WroteVersion(log, a, version)
      || (more != [] && more[0].account == a && more[0].written.Some? && more[0].written.value.version == version)
  {
    if WroteVersion(log, a, version) {
      var i :| 0 <= i < |log| && Wrote(log, i, a) && log[i].written.value.version == version;
      assert Wrote(log + more, i, a) && (log + more)[i].written.value.version == version;
    }
    if WroteVersion(log + more, a, version) {
      var i :| 0 <= i < |log + more| && Wrote(log + more, i, a) && (log + more)[i].written.value.version == version;
      if i < |log| { assert Wrote(log, i, a) && log[i].written.value.version == version; }
    }
    if more != [] && more[0].account == a && more[0].written.Some? && more[0].written.value.version == version {
      assert Wrote(log + more, |log|, a) && (log + more)[|log|].written.value.version == version;
    }
  }

  /** A command that commits nothing leaves the committed rows alone; a commit adds its own. */
  lemma InstalledAfter(t: Tables, c: Command, a: AccountId, x: OperationId)
    requires Inv(t)
    ensures
      var recorded := Recorded(t, c);
      Installs(Step(t, c), a, x) <==>
        Installs(t, a, x)
        || (c.DoAdvance? && recorded != [] && c.id == x && recorded[0].account == a && recorded[0].written.Some?)
    ensures Installs(t, a, x) ==> Step(t, c).operations[x] == t.operations[x]
    ensures c.DoAdvance? && Recorded(t, c) != [] ==>
      && c.id in t.operations && c.id in Step(t, c).operations
      && Step(t, c).operations[c.id].target == t.operations[c.id].target
      && (Recorded(t, c)[0].written.Some? ==> Recorded(t, c)[0].written == t.operations[c.id].target)
  {
    if Installs(t, a, x) { StepFreezes(t, c, x); }
    if c.DoAdvance? {
      AdvanceCases(t, c.id, c.from, c.to, c.code, c.visit);
      AdvanceRecords(t, c);
    }
  }

  lemma StepKeepsVersions(w: World, c: Command)
    requires Inv(w.tables) && SameVersions(w)
    ensures SameVersions(Next(w, c))
  {
    var t, u, recorded := w.tables, Step(w.tables, c), Recorded(w.tables, c);
    forall a, version
      ensures WroteVersion(Next(w, c).log, a, version) <==> InstalledVersion(u, a, version)
    {
      LogGrows(w.log, recorded, a, version);
      assert WroteVersion(w.log, a, version) <==> InstalledVersion(t, a, version);
      if InstalledVersion(t, a, version) {
        var x :| x in t.operations && Installs(t, a, x) && t.operations[x].target.value.version == version;
        InstalledAfter(t, c, a, x);
      }
      if InstalledVersion(u, a, version) {
        var x :| x in u.operations && Installs(u, a, x) && u.operations[x].target.value.version == version;
        InstalledAfter(t, c, a, x);
      }
      if c.DoAdvance? { InstalledAfter(t, c, a, c.id); }
    }
  }

  lemma IncreasingAppend(log: seq<Change>, more: seq<Change>)
    requires |more| <= 1
    ensures Increasing(log + more) <==>
      Increasing(log)
      && (more != [] && more[0].written.Some? ==>
            forall version :: WroteVersion(log, more[0].account, version) ==> version < more[0].written.value.version)
  {
    var all := log + more;
    forall i, a ensures Wrote(log, i, a) <==> i < |log| && Wrote(all, i, a) {}
    if Increasing(all) && more != [] && more[0].written.Some? {
      forall version | WroteVersion(log, more[0].account, version) ensures version < more[0].written.value.version {
        var i :| 0 <= i < |log| && Wrote(log, i, more[0].account) && log[i].written.value.version == version;
        assert Wrote(all, i, more[0].account) && Wrote(all, |log|, more[0].account);
      }
    }
    if Increasing(log)
       && (more != [] && more[0].written.Some? ==>
             forall version :: WroteVersion(log, more[0].account, version) ==> version < more[0].written.value.version) {
      forall i, j, a | i < j && Wrote(all, i, a) && Wrote(all, j, a)
        ensures all[i].written.value.version < all[j].written.value.version
      {
        assert Wrote(log, i, a);
        if j == |log| { assert WroteVersion(log, a, log[i].written.value.version); }
        else { assert Wrote(log, j, a); }
      }
    }
  }

  lemma RisesMeans(w: World, c: Command)
    requires Inv(w.tables) && SameVersions(w)
    ensures |Recorded(w.tables, c)| <= 1
    ensures Increasing(Next(w, c).log) <==> Increasing(w.log) && Rises(w.tables, c)
  {
    var t, recorded := w.tables, Recorded(w.tables, c);
    IncreasingAppend(w.log, recorded);
    ReadyInstalls(t, c);
    if recorded != [] && recorded[0].written.Some? {
      var a, target := recorded[0].account, recorded[0].written.value.version;
      if Exceeds(t, a, target) {
        forall version | WroteVersion(w.log, a, version) ensures version < target {
          assert InstalledVersion(t, a, version);
        }
      } else {
        var x :| Installs(t, a, x) && t.operations[x].target.value.version >= target;
        var version := t.operations[x].target.value.version;
        assert InstalledVersion(t, a, version) && WroteVersion(w.log, a, version);
      }
    }
  }

  /** On every run whatever, the versions committed for each account strictly increase exactly when each
      commit that was ready to install a credential had a target above all those that the account's
      operation rows had installed: what the rows say before the commit decides. */
  lemma {:induction false} VersionsIncreaseExactly(commands: seq<Command>)
    ensures Increasing(Play(Start, commands).log) <==> RisingRun(commands)
    ensures SameVersions(Play(Start, commands))
  {
    if commands != [] {
      var n := |commands| - 1;
      var before := commands[..n];
      VersionsIncreaseExactly(before);
      PlayRuns(Start, before);
      RunKeepsInv(Empty, before);
      StepKeepsVersions(Play(Start, before), commands[n]);
      RisesMeans(Play(Start, before), commands[n]);
    }
  }
}

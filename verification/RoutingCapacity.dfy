/** How many accounts a logout can compact: the exact bound, and runs on both sides of it. */
module RoutingCapacity {
  import opened Prelude
  import opened Collections
  import opened AccountModel
  import opened AccountRuns
  import opened AccountSafety
  import opened RoutingCompaction

  /** Every order in which the database may walk the rows. */
  predicate Walks(m: map<AccountId, nat>, visit: seq<AccountId>) {
    Distinct(visit) && Elements(visit) == m.Keys
  }

  /** The compaction may leave out one account without two rows standing 512 positions apart. */
  predicate CompactsSafely(positions: map<AccountId, nat>, leaving: AccountId)
    requires leaving in positions
  {
    || |positions| <= MAX_ACCOUNT_COUNT
    || (|positions| == MAX_ACCOUNT_COUNT + 1 && (positions[leaving] == 0 || positions[leaving] == MAX_ACCOUNT_COUNT))
  }

  /** A logout that passes every check but those of the compaction. */
  ghost predicate LogoutReady(t: Tables, id: OperationId) {
    && id in t.operations
    && var o := t.operations[id];
       && o.kind.Logout? && o.phase.StoreApplied? && o.supersededBy.None?
       && Readable(o) && ReadableAt(t, o.recovers)
       && (o.recovers.Some? ==>
             o.recovers.value in t.operations && RecoversExactly(t.operations[o.recovers.value], o))
       && o.account !in t.busy && o.account !in t.credentials
       && Revision(t, o.account) != I64_MAX && t.routingRevision != I64_MAX
  }

  lemma ReadyLogoutCommits(t: Tables, id: OperationId, visit: seq<AccountId>)
    requires Inv(t) && LogoutReady(t, id)
    ensures t.operations[id].account in t.positions
    ensures
      var tx := Advance(t, id, StoreApplied, Phase.Committed, None, visit);
      if ShiftSucceeds(t.positions - {t.operations[id].account}, visit) then tx.Commit? && tx.reply.Applied?
      else tx == Rollback(Constraint)
  {
    assert Live(t, t.operations[id].account);
  }

  lemma UnsafeOrder(m: map<AccountId, nat>) returns (visit: seq<AccountId>)
    requires Unique(m) && !NoClash(m)
    ensures Walks(m, visit) && !ShiftSucceeds(m, visit)
  {
    ShiftSafeExactlyWithoutClash(m);
    visit :| Distinct(visit) && (forall a :: a in visit <==> a in m) && !ShiftSucceeds(m, visit);
    assert forall a :: a in Elements(visit) <==> a in m.Keys;
  }

  ghost predicate AlwaysCommits(t: Tables, id: OperationId, a: AccountId) {
    forall visit :: Walks(t.positions - {a}, visit) ==>
      var tx := Advance(t, id, StoreApplied, Phase.Committed, None, visit); tx.Commit? && tx.reply.Applied?
  }

  ghost predicate MayRollBack(t: Tables, id: OperationId, a: AccountId) {
    exists visit :: Walks(t.positions - {a}, visit)
      && Advance(t, id, StoreApplied, Phase.Committed, None, visit) == Rollback(Constraint)
  }

  /** In every reachable state a logout that passes the other checks is committed for every row order
      exactly when at most 512 accounts are ordered, or 513 and the first or the last one leaves;
      otherwise some row order rolls it back. */
  lemma LogoutCommitsExactly(commands: seq<Command>, id: OperationId)
    requires LogoutReady(Run(Empty, commands), id)
    ensures
      var t := Run(Empty, commands);
      var a := t.operations[id].account;
      a in t.positions && if CompactsSafely(t.positions, a) then AlwaysCommits(t, id, a) else MayRollBack(t, id, a)
  {
    RunKeepsInv(Empty, commands);
    var t := Run(Empty, commands);
    ReadyLogoutCommits(t, id, []);
    var a := t.operations[id].account;
    var m := t.positions - {a};
    LogoutCompactsSafely(t.positions, a);
    if CompactsSafely(t.positions, a) {
      forall visit | Walks(m, visit)
        ensures var tx := Advance(t, id, StoreApplied, Phase.Committed, None, visit); tx.Commit? && tx.reply.Applied?
      {
        ShiftWithoutClash(m, visit);
        ReadyLogoutCommits(t, id, visit);
      }
    } else {
      var visit := UnsafeOrder(m);
      ReadyLogoutCommits(t, id, visit);
    }
  }

  // ------------------------------------------------- registries of every size

  function Bundle(n: nat): Binding {
    Binding(1, 1, 0, n, n)
  }

  function Enrolling(n: nat): Preparation {
    Preparation(n, Enroll, Some(0), Some(true), None, None, Some(Bundle(n)), n)
  }

  /** The accounts 0..n-1 were enrolled one after another and nothing is in progress. */
  ghost predicate Enrolled(t: Tables, n: nat) {
    && (forall a :: a in t.accounts <==> 0 <= a < n)
    && (forall a :: a in t.accounts ==> t.accounts[a] == Account(true, 1, a, false))
    && (forall id :: id in t.operations <==> 0 <= id < n)
    && (forall id :: id in t.operations ==> t.operations[id].phase.Committed?)
    && (forall a :: a in t.credentials <==> 0 <= a < n)
    && (forall a :: a in t.credentials ==> t.credentials[a].provider == a && t.credentials[a].version == 1)
    && (forall a :: a in t.positions <==> 0 <= a < n)
    && (forall a :: a in t.positions ==> t.positions[a] == a)
    && |t.positions| == n && t.routingRevision == n + 1 && t.busy == {}
  }

  function WithRow(t: Tables, id: OperationId, p: Preparation, phase: Phase): Tables {
    t.(operations := t.operations[id := Opened(p, None).(phase := phase)])
  }

  lemma Opens(t: Tables, n: nat)
    requires Enrolled(t, n)
    ensures Step(t, DoPrepare(n, Enrolling(n), None)) == WithRow(t, n, Enrolling(n), Prepared)
    ensures
      var u := WithRow(t, n, Enrolling(n), Prepared);
      Step(u, DoCreate(n, Bundle(n))) == u.(credentials := t.credentials[n := Bundle(n)])
  {
  }

  lemma Applies(t: Tables, id: OperationId, p: Preparation, visit: seq<AccountId>)
    requires FitsRow(p.expected) && FitsRow(p.target)
    ensures
      Step(WithRow(t, id, p, Prepared), DoAdvance(id, Prepared, StoreApplied, None, visit)) == WithRow(t, id, p, StoreApplied)
  {
    var u := WithRow(t, id, p, Prepared);
    assert u.operations[id := u.operations[id].(phase := StoreApplied, code := None)] == WithRow(t, id, p, StoreApplied).operations;
  }

  /** The state in which the next account's enrollment is ready to be committed. */
  function Ready(t: Tables, n: nat): Tables {
    WithRow(t.(credentials := t.credentials[n := Bundle(n)]), n, Enrolling(n), StoreApplied)
  }

  function Joined(t: Tables, n: nat): Tables {
    WithRow(t, n, Enrolling(n), Phase.Committed).(
      accounts := t.accounts[n := Account(true, 1, n, false)],
      credentials := t.credentials[n := Bundle(n)],
      positions := t.positions[n := n],
      routingRevision := n + 2)
  }

  lemma JoinedIsEnrolled(t: Tables, n: nat)
    requires Enrolled(t, n)
    ensures Enrolled(Joined(t, n), n + 1)
  {
  }

  lemma Settles(t: Tables, n: nat)
    requires Enrolled(t, n) && n + 1 < I64_MAX
    ensures
      var u := Ready(t, n);
      Settle(u, n, []) ==
        Done(u.(accounts := t.accounts[n := Account(true, 1, n, false)], positions := t.positions[n := n],
                routingRevision := n + 2))
  {
    var u := Ready(t, n);
    assert CommitEnrollment(u, u.operations[n]) == Enlist(u, n, Account(true, 1, n, false));
  }

  lemma Commits(t: Tables, n: nat)
    requires Enrolled(t, n) && n + 1 < I64_MAX
    ensures Step(Ready(t, n), DoAdvance(n, StoreApplied, Phase.Committed, None, [])) == Joined(t, n)
  {
    var u := Ready(t, n);
    var o := u.operations[n];
    Settles(t, n);
    assert u.operations[n := o.(phase := Phase.Committed, code := None)] == Joined(t, n).operations;
  }

  lemma Continue(t: Tables, commands: seq<Command>, c: Command)
    ensures Run(t, commands + [c]) == Step(Run(t, commands), c)
  {
    assert (commands + [c])[..|commands + [c]| - 1] == commands;
  }

  /** Some run enrolls any number of accounts. */
  lemma {:induction false} AnySizeIsReached(n: nat) returns (commands: seq<Command>)
    requires n < I64_MAX
    ensures Enrolled(Run(Empty, commands), n)
  {
    commands := [];
    if n > 0 {
      commands := AnySizeIsReached(n - 1);
      var t, m := Run(Empty, commands), n - 1;
      Opens(t, m);
      Continue(Empty, commands, DoPrepare(m, Enrolling(m), None));
      commands := commands + [DoPrepare(m, Enrolling(m), None)];
      Continue(Empty, commands, DoCreate(m, Bundle(m)));
      commands := commands + [DoCreate(m, Bundle(m))];
      Applies(t.(credentials := t.credentials[m := Bundle(m)]), m, Enrolling(m), []);
      Continue(Empty, commands, DoAdvance(m, Prepared, StoreApplied, None, []));
      commands := commands + [DoAdvance(m, Prepared, StoreApplied, None, [])];
      Commits(t, m);
      JoinedIsEnrolled(t, m);
      Continue(Empty, commands, DoAdvance(m, StoreApplied, Phase.Committed, None, []));
      commands := commands + [DoAdvance(m, StoreApplied, Phase.Committed, None, [])];
    }
  }

  function Leaving(t: Tables, a: AccountId): Preparation
    requires a in t.credentials
  {
    Preparation(a, Logout, None, None, Some(1), Some(t.credentials[a]), None, t.credentials[a].provider)
  }

  lemma Exits(t: Tables, n: nat, a: nat)
    requires Enrolled(t, n) && a < n
    ensures Step(t, DoPrepare(n, Leaving(t, a), None)) == WithRow(t, n, Leaving(t, a), Prepared)
    ensures
      var u := WithRow(t, n, Leaving(t, a), Prepared);
      Step(u, DoDelete(a, t.credentials[a])) == u.(credentials := t.credentials - {a})
  {
  }

  /** Any number of accounts is reached with a logout of any one of them ready to be committed; where
      the compaction is not safe, some row order then rolls it back. */
  lemma AnyLogoutIsReached(n: nat, a: nat) returns (commands: seq<Command>)
    requires a < n < I64_MAX - 1
    ensures
      var t := Run(Empty, commands);
      && LogoutReady(t, n) && t.operations[n].account == a && |t.positions| == n && a in t.positions && t.positions[a] == a
      && (!CompactsSafely(t.positions, a) ==> MayRollBack(t, n, a))
  {
    commands := AnySizeIsReached(n);
    var t := Run(Empty, commands);
    Exits(t, n, a);
    Continue(Empty, commands, DoPrepare(n, Leaving(t, a), None));
    commands := commands + [DoPrepare(n, Leaving(t, a), None)];
    Continue(Empty, commands, DoDelete(a, t.credentials[a]));
    commands := commands + [DoDelete(a, t.credentials[a])];
    Applies(t.(credentials := t.credentials - {a}), n, Leaving(t, a), []);
    Continue(Empty, commands, DoAdvance(n, Prepared, StoreApplied, None, []));
    commands := commands + [DoAdvance(n, Prepared, StoreApplied, None, [])];
    LogoutCommitsExactly(commands, n);
  }
}

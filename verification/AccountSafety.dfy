/** The invariant holds in every reachable state of the account tables. */
module AccountSafety {
  import opened Prelude
  import opened Collections
  import opened AccountModel
  import opened AccountRuns

  /** One operation row changes its phase or target without being committed or superseded. */
  ghost predicate Moves(o: Operation, n: Operation) {
    && n.account == o.account && n.kind == o.kind && n.recovers == o.recovers
    && n.expected == o.expected && n.expectedRevision == o.expectedRevision
    && o.supersededBy.None? && n.supersededBy.None? && !n.phase.Committed? && !Settled(o)
    && (n.phase.RecoveryRequired? <==> n.code.Some?)
    && (n.target == o.target || (o.phase.ProviderEffectPending? && n.phase == o.phase))
    && (o.phase == n.phase || AllowedTransition(o.phase, n.phase))
  }

  lemma MoveKeepsOperations(ops: map<OperationId, Operation>, id: OperationId, n: Operation)
    requires OperationsOk(ops) && Exclusive(ops)
    requires id in ops && Moves(ops[id], n)
    requires n.target.Some? ==> n.target.value.writer == id
    ensures OperationsOk(ops[id := n]) && Exclusive(ops[id := n])
  {
    var after := ops[id := n];
    forall x | x in after ensures OperationOk(after, x) {
      assert OperationOk(ops, x);
      if x != id && ops[x].recovers == Some(id) { assert StandsBeside(ops, x, id); }
    }
    forall x, y | x in after && y in after ensures Paired(after, x, y) {
      assert Paired(ops, x, y);
    }
  }

  lemma PrepareKeepsOperations(t: Tables, id: OperationId, p: Preparation, recovery: Option<OperationId>)
    requires Inv(t)
    ensures Inv(After(t, Prepare(t, id, p, recovery)))
  {
    var u := After(t, Prepare(t, id, p, recovery));
    if u != t {
      var ops, after := t.operations, u.operations;
      assert after == ops[id := Opened(p, recovery)] && id !in ops;
      forall x | x in after ensures OperationOk(after, x) {
        if x != id { assert OperationOk(ops, x); }
      }
      forall x, y | x in after && y in after ensures Paired(after, x, y) {
        if x != id && y != id { assert Paired(ops, x, y); }
        else if x != y && after[x].account == after[y].account && Unsettled(after[x]) && Unsettled(after[y]) {
          var other := if x == id then y else x;
          if recovery.Some? { assert Paired(ops, recovery.value, other); }
        }
      }
    }
  }

  /** A commit touches one account row, the routing tables, and the operation rows it settles. */
  ghost predicate Commits(t: Tables, u: Tables, id: OperationId)
    requires id in t.operations
  {
    var o := t.operations[id];
    && u.operations == Supersede(t.operations, id)
    && u.credentials == t.credentials && u.busy == t.busy
    && o.account in u.accounts && u.accounts == t.accounts[o.account := u.accounts[o.account]]
    && Live(u, o.account) == !o.kind.Logout?
    && Live(t, o.account) == !IsNew(o.kind)
    && (IsNew(o.kind) || o.kind.Refresh? ==> Stored(t, o.account) == o.target && o.target.Some?)
    && (o.kind.Logout? ==> o.account !in t.credentials)
    && u.accounts[o.account].revision == Revision(t, o.account) + 1
    && u.accounts[o.account].provider ==
         (if o.kind.Logout? then t.accounts[o.account].provider else o.target.value.provider)
    && ProviderStaysUnique(t, o.account, u.accounts[o.account].provider)
    && RoutingMoves(t, u, o)
    && (o.recovers.Some? ==>
          o.recovers.value in t.operations && RecoversExactly(t.operations[o.recovers.value], o))
  }

  ghost predicate ProviderStaysUnique(t: Tables, a: AccountId, provider: ProviderId) {
    || (a in t.accounts && t.accounts[a].provider == provider)
    || forall b :: b in t.accounts && b != a ==> t.accounts[b].provider != provider
  }

  ghost predicate RoutingMoves(t: Tables, u: Tables, o: Operation) {
    match o.kind
    case Refresh => u.positions == t.positions && u.mode == t.mode
    case Logout =>
      && u.positions == Compacted(t.positions - {o.account})
      && u.mode == if t.mode == Fixed(o.account) then Balanced else t.mode
    case _ =>
      && o.account !in t.positions && u.mode == t.mode
      && u.positions == t.positions[o.account := |t.positions|]
  }

  lemma SettleCommits(t: Tables, id: OperationId, visit: seq<AccountId>)
    requires id in t.operations && Settle(t, id, visit).Done?
    ensures Commits(t, Settle(t, id, visit).tables, id)
  {
  }

  /** An advance changes nothing, moves one row, or commits one. */
  lemma AdvanceCases(t: Tables, id: OperationId, from: Phase, to: Phase,
                     code: Option<RecoveryCode>, visit: seq<AccountId>)
    ensures
      var tx := Advance(t, id, from, to, code, visit);
      var u := After(t, tx);
      if !(tx.Commit? && tx.reply.Applied?) then u == t
      else
        && id in t.operations && t.operations[id].phase == from && AllowedTransition(from, to)
        && t.operations[id].supersededBy.None? && (to.RecoveryRequired? <==> code.Some?)
        && var n := t.operations[id].(phase := to, code := code);
           if to.Committed? then
             && Settle(t, id, visit).Done?
             && u == Settle(t, id, visit).tables.(operations := Finished(t.operations, id))
           else u == t.(operations := t.operations[id := n])
  {
  }

  /** Once an operation commits, nothing else is unsettled on its account: the only companion it can
      have had is the failed refresh that it now supersedes. */
  lemma CommitStandsAlone(t: Tables, u: Tables, id: OperationId, other: OperationId)
    requires OperationsOk(t.operations) && Exclusive(t.operations)
    requires id in t.operations && Unsettled(t.operations[id]) && Commits(t, u, id)
    requires other in t.operations && other != id
    requires t.operations[other].account == t.operations[id].account && Unsettled(t.operations[other])
    ensures t.operations[id].recovers == Some(other)
  {
    assert Paired(t.operations, id, other);
    if t.operations[other].recovers == Some(id) {
      assert OperationOk(t.operations, other);
      assert StandsBeside(t.operations, other, id);
    }
  }

  /** What Settle has checked about the row it commits. */
  ghost predicate Committable(ops: map<OperationId, Operation>, id: OperationId) {
    && id in ops && Unsettled(ops[id]) && ops[id].phase.StoreApplied?
    && (ops[id].kind.Refresh? ==> ops[id].target.Some?)
    && (ops[id].recovers.Some? ==>
          ops[id].recovers.value in ops && RecoversExactly(ops[ops[id].recovers.value], ops[id]))
  }

  function Finished(ops: map<OperationId, Operation>, id: OperationId): map<OperationId, Operation>
    requires id in ops
  {
    Supersede(ops, id)[id := ops[id].(phase := Committed, code := None)]
  }

  lemma CommitKeepsOne(ops: map<OperationId, Operation>, id: OperationId, x: OperationId)
    requires Committable(ops, id) && x in ops
    requires OperationOk(ops, x) && OperationOk(ops, id)
    ensures OperationOk(Finished(ops, id), x)
  {
    if ops[x].recovers.Some? { assert StandsBeside(ops, x, ops[x].recovers.value); }
    if ops[x].supersededBy.Some? { assert ReplacedBy(ops, x, ops[x].supersededBy.value); }
  }

  lemma CommitKeepsOperations(ops: map<OperationId, Operation>, id: OperationId)
    requires OperationsOk(ops) && Exclusive(ops) && Committable(ops, id)
    ensures OperationsOk(Finished(ops, id)) && Exclusive(Finished(ops, id))
  {
    var after := Finished(ops, id);
    assert after.Keys == ops.Keys;
    forall x | x in after ensures OperationOk(after, x) {
      CommitKeepsOne(ops, id, x);
    }
    forall x, y | x in after && y in after ensures Paired(after, x, y) {
      assert Paired(ops, x, y);
    }
  }

  lemma CommitKeepsLiveness(t: Tables, u: Tables, id: OperationId)
    requires OperationsOk(t.operations) && Exclusive(t.operations) && OnLiveAccounts(t)
    requires id in t.operations && Unsettled(t.operations[id]) && Commits(t, u, id)
    ensures OnLiveAccounts(u.(operations := Finished(t.operations, id)))
  {
    var v := u.(operations := Finished(t.operations, id));
    forall x | x in v.operations && Unsettled(v.operations[x])
      ensures IsNew(v.operations[x].kind) <==> !Live(v, v.operations[x].account)
    {
      assert x != id && x in t.operations && Unsettled(t.operations[x]);
      if t.operations[x].account == t.operations[id].account { CommitStandsAlone(t, u, id, x); }
    }
  }

  lemma JoinKeepsDense(m: map<AccountId, nat>, a: AccountId)
    requires Dense(m) && a !in m
    ensures Dense(m[a := |m|])
  {
    assert m[a := |m|].Keys == m.Keys + {a};
    assert |m[a := |m|].Keys| == |m.Keys| + 1 == |m| + 1;
  }

  lemma CommitKeepsDense(t: Tables, u: Tables, o: Operation)
    requires Dense(t.positions) && RoutingMoves(t, u, o)
    ensures Dense(u.positions)
    ensures u.positions.Keys ==
      match o.kind
      case Refresh => t.positions.Keys
      case Logout => t.positions.Keys - {o.account}
      case _ => t.positions.Keys + {o.account}
  {
    match o.kind
    case Refresh =>
    case Logout => CompactionKeepsOrder(t.positions - {o.account});
    case _ => JoinKeepsDense(t.positions, o.account);
  }

  lemma CommitMovesOneAccount(t: Tables, u: Tables, id: OperationId, a: AccountId)
    requires id in t.operations && Commits(t, u, id)
    ensures Live(u, a) <==> if a == t.operations[id].account then !t.operations[id].kind.Logout? else Live(t, a)
  {
  }

  lemma CommitKeepsRouting(t: Tables, u: Tables, id: OperationId)
    requires RoutingOk(t) && id in t.operations && Commits(t, u, id)
    ensures RoutingOk(u)
  {
    var o := t.operations[id];
    CommitKeepsDense(t, u, o);
    forall a ensures a in u.positions <==> Live(u, a) {
      CommitMovesOneAccount(t, u, id, a);
      assert a in u.positions <==> a in u.positions.Keys;
    }
    if u.mode.Fixed? { CommitMovesOneAccount(t, u, id, u.mode.account); }
  }

  lemma CommitKeepsInv(t: Tables, u: Tables, id: OperationId)
    requires Inv(t) && Committable(t.operations, id) && Commits(t, u, id)
    ensures Inv(u.(operations := Finished(t.operations, id)))
  {
    CommitKeepsOperations(t.operations, id);
    CommitKeepsLiveness(t, u, id);
    CommitKeepsRouting(t, u, id);
  }

  lemma AdvanceKeepsInv(t: Tables, id: OperationId, from: Phase, to: Phase,
                        code: Option<RecoveryCode>, visit: seq<AccountId>)
    requires Inv(t)
    ensures Inv(After(t, Advance(t, id, from, to, code, visit)))
  {
    AdvanceCases(t, id, from, to, code, visit);
    var tx := Advance(t, id, from, to, code, visit);
    if tx.Commit? && tx.reply.Applied? {
      if to.Committed? {
        SettleCommits(t, id, visit);
        CommitKeepsInv(t, Settle(t, id, visit).tables, id);
      } else {
        assert OperationOk(t.operations, id);
        MoveKeepsOperations(t.operations, id, t.operations[id].(phase := to, code := code));
      }
    }
  }

  lemma ReorderKeepsRouting(t: Tables, routing: int, order: seq<AccountId>)
    requires RoutingOk(t)
    ensures RoutingOk(After(t, SetOrder(t, routing, order)))
  {
    if Distinct(order) { NumberedIsDense(order); }
    if Elements(order) == Visible(t) {
      assert forall a :: a in Elements(order) <==> Live(t, a);
    }
  }

  lemma SetTargetKeepsInv(t: Tables, id: OperationId, target: Binding)
    requires Inv(t)
    ensures Inv(After(t, SetTarget(t, id, target)))
  {
    if After(t, SetTarget(t, id, target)) != t {
      assert OperationOk(t.operations, id);
      MoveKeepsOperations(t.operations, id, t.operations[id].(target := Some(target)));
    }
  }

  lemma SetEnabledKeepsInv(t: Tables, a: AccountId, revision: int, enabled: bool)
    requires Inv(t)
    ensures Inv(After(t, SetEnabled(t, a, revision, enabled)))
  {
  }

  lemma RoutingKeepsInv(t: Tables, routing: int, a: AccountId, revision: int)
    requires Inv(t)
    ensures Inv(After(t, SetFixed(t, routing, a, revision)))
    ensures Inv(After(t, RouteFixed(t, routing, a, revision)))
    ensures Inv(After(t, SetBalanced(t, routing)))
  {
  }

  /** The credential and process tables are not part of the invariant. */
  lemma OtherTablesKeepInv(t: Tables, u: Tables)
    requires Inv(t) && u == t.(credentials := u.credentials, busy := u.busy)
    ensures Inv(u)
  {
  }

  /** Every command of any client keeps the invariant. */
  lemma StepKeepsInv(t: Tables, c: Command)
    requires Inv(t)
    ensures Inv(Step(t, c))
  {
    match c
    case DoPrepare(id, p, recovery) => PrepareKeepsOperations(t, id, p, recovery);
    case DoAdvance(id, from, to, code, visit) => AdvanceKeepsInv(t, id, from, to, code, visit);
    case DoSetTarget(id, target) => SetTargetKeepsInv(t, id, target);
    case DoSetEnabled(a, revision, enabled) => SetEnabledKeepsInv(t, a, revision, enabled);
    case DoSetFixed(routing, a, revision) => RoutingKeepsInv(t, routing, a, revision);
    case DoRoute(routing, a, revision) => RoutingKeepsInv(t, routing, a, revision);
    case DoBalance(routing) => RoutingKeepsInv(t, routing, 0, 0);
    case DoReorder(routing, order) => ReorderKeepsRouting(t, routing, order);
    case _ => OtherTablesKeepInv(t, Step(t, c));
  }

  lemma {:induction false} RunKeepsInv(t: Tables, commands: seq<Command>)
    requires Inv(t)
    ensures Inv(Run(t, commands))
  {
    if commands != [] {
      var before := commands[..|commands| - 1];
      RunKeepsInv(t, before);
      StepKeepsInv(Run(t, before), commands[|commands| - 1]);
    }
  }
}

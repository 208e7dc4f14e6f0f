/** Every run of account commands: what each step keeps, for any interleaving of clients. */
module AccountRuns {
  import opened Prelude
  import opened Collections
  import opened AccountModel

  datatype Command =
    | DoPrepare(id: OperationId, preparation: Preparation, recovery: Option<OperationId>)
    | DoAdvance(id: OperationId, from: Phase, to: Phase, code: Option<RecoveryCode>, visit: seq<AccountId>)
    | DoSetTarget(id: OperationId, target: Binding)
    | DoSetEnabled(account: AccountId, revision: int, enabled: bool)
    | DoSetFixed(routing: int, account: AccountId, revision: int)
    | DoRoute(routing: int, account: AccountId, revision: int)
    | DoBalance(routing: int)
    | DoReorder(routing: int, order: seq<AccountId>)
    | DoCreate(account: AccountId, record: Binding)
    | DoRotate(account: AccountId, expected: Binding, target: Binding)
    | DoDelete(account: AccountId, expected: Binding)
    | ProcessesChange(busy: set<AccountId>) // generations start and die outside this component

  ghost function Step(t: Tables, c: Command): Tables {
    match c
    case DoPrepare(id, p, recovery) => After(t, Prepare(t, id, p, recovery))
    case DoAdvance(id, from, to, code, visit) => After(t, Advance(t, id, from, to, code, visit))
    case DoSetTarget(id, target) => After(t, SetTarget(t, id, target))
    case DoSetEnabled(a, revision, enabled) => After(t, SetEnabled(t, a, revision, enabled))
    case DoSetFixed(routing, a, revision) => After(t, SetFixed(t, routing, a, revision))
    case DoRoute(routing, a, revision) => After(t, RouteFixed(t, routing, a, revision))
    case DoBalance(routing) => After(t, SetBalanced(t, routing))
    case DoReorder(routing, order) => After(t, SetOrder(t, routing, order))
    case DoCreate(a, record) => After(t, CreateCredential(t, a, record))
    case DoRotate(a, expected, target) => After(t, RotateCredential(t, a, expected, target))
    case DoDelete(a, expected) => After(t, DeleteCredential(t, a, expected))
    case ProcessesChange(busy) => t.(busy := busy)
  }

  const Empty: Tables := Tables(map[], map[], map[], map[], Balanced, 1, {})

  ghost function Run(t: Tables, commands: seq<Command>): Tables {
    if commands == [] then t
    else Step(Run(t, commands[..|commands| - 1]), commands[|commands| - 1])
  }

  // ------------------------------------------------------------- the invariant

  /** What each operation row keeps about itself and about the operation it stands beside. */
  ghost predicate OperationOk(ops: map<OperationId, Operation>, id: OperationId)
    requires id in ops
  {
    var o := ops[id];
    && (o.phase.RecoveryRequired? <==> o.code.Some?)
    && (o.target.Some? ==> o.target.value.writer == id)
    && (!IsNew(o.kind) ==> o.expected.Some? && o.expectedRevision.Some?)
    && (o.supersededBy.Some? ==> ReplacedBy(ops, id, o.supersededBy.value))
    && (o.recovers.Some? ==> StandsBeside(ops, id, o.recovers.value))
  }

  /** A superseded refresh never got an answer, and a committed takeover names it. */
  ghost predicate ReplacedBy(ops: map<OperationId, Operation>, id: OperationId, takeover: OperationId)
    requires id in ops
  {
    && ops[id].phase.RecoveryRequired? && ops[id].recovers.None?
    && takeover in ops && ops[takeover].phase.Committed? && ops[takeover].recovers == Some(id)
  }

  ghost predicate StandsBeside(ops: map<OperationId, Operation>, id: OperationId, failed: OperationId)
    requires id in ops
  {
    && failed != id && failed in ops
    && !IsNew(ops[id].kind) && ops[id].supersededBy.None?
    && ops[failed].account == ops[id].account
    && ops[failed].kind.Refresh? && ops[failed].target.None? && ops[failed].recovers.None?
    && (ops[failed].phase.RecoveryRequired? || ops[failed].phase.StoreApplied? || ops[failed].phase.Cancelled?)
    && (ops[id].phase.Committed? ==> ops[failed].supersededBy == Some(id))
  }

  ghost predicate OperationsOk(ops: map<OperationId, Operation>) {
    forall id :: id in ops ==> OperationOk(ops, id)
  }

  /** Two unsettled operations of one account are a failed refresh and its takeover. */
  ghost predicate Paired(ops: map<OperationId, Operation>, x: OperationId, y: OperationId)
    requires x in ops && y in ops
  {
    x != y && ops[x].account == ops[y].account && Unsettled(ops[x]) && Unsettled(ops[y]) ==>
      ops[x].recovers == Some(y) || ops[y].recovers == Some(x)
  }

  ghost predicate Exclusive(ops: map<OperationId, Operation>) {
    forall x, y :: x in ops && y in ops ==> Paired(ops, x, y)
  }

  /** Enrollments run on absent or tombstoned accounts, refreshes and logouts on live ones. */
  ghost predicate OnLiveAccounts(t: Tables) {
    forall id :: id in t.operations && Unsettled(t.operations[id]) ==>
      (IsNew(t.operations[id].kind) <==> !Live(t, t.operations[id].account))
  }

  /** The routing universe is the set of live accounts, and a fixed target belongs to it. */
  ghost predicate RoutingOk(t: Tables) {
    && (forall a :: a in t.positions <==> Live(t, a))
    && Dense(t.positions)
    && (t.mode.Fixed? ==> Live(t, t.mode.account))
  }

  ghost predicate ProvidersUnique(t: Tables) {
    forall a, b :: a in t.accounts && b in t.accounts && a != b ==>
      t.accounts[a].provider != t.accounts[b].provider
  }

  ghost predicate Inv(t: Tables) {
    && OperationsOk(t.operations)
    && Exclusive(t.operations)
    && OnLiveAccounts(t)
    && RoutingOk(t)
    && ProvidersUnique(t)
  }

  // ------------------------------------------------------- compaction arithmetic

  lemma RankOrder(m: map<AccountId, nat>, a: AccountId, b: AccountId)
    requires a in m && b in m && m[a] < m[b]
    ensures Rank(m, a) < Rank(m, b) < |m|
  {
    var below := set c | c in m && m[c] < m[a];
    var upto := set c | c in m && m[c] < m[b];
    assert a in upto && a !in below;
    SmallerSet(below, upto);
    assert b in m.Keys && b !in upto;
    SmallerSet(upto, m.Keys);
  }

  lemma RankBounded(m: map<AccountId, nat>, a: AccountId)
    requires a in m
    ensures Rank(m, a) < |m|
  {
    var below := set c | c in m && m[c] < m[a];
    assert a in m.Keys && a !in below;
    SmallerSet(below, m.Keys);
  }

  /** Compaction keeps the accounts and their relative order, and leaves no gap. */
  lemma CompactionKeepsOrder(m: map<AccountId, nat>)
    requires Unique(m)
    ensures Compacted(m).Keys == m.Keys && Dense(Compacted(m))
    ensures forall a, b :: a in m && b in m ==> (Compacted(m)[a] < Compacted(m)[b] <==> m[a] < m[b])
  {
    var c := Compacted(m);
    assert |c| == |m| by { assert c.Keys == m.Keys; assert |c.Keys| == |m.Keys|; }
    forall a | a in m ensures c[a] < |c| { RankBounded(m, a); }
    forall a, b | a in m && b in m ensures c[a] < c[b] <==> m[a] < m[b] {
      if m[a] < m[b] { RankOrder(m, a, b); }
      else if m[b] < m[a] { RankOrder(m, b, a); }
      else { assert a == b; }
    }
    forall a, b | a in c && b in c && a != b ensures c[a] != c[b] {
      if m[a] < m[b] { RankOrder(m, a, b); } else { RankOrder(m, b, a); }
    }
  }

  lemma {:induction false} NumberedAt(order: seq<AccountId>)
    requires Distinct(order)
    ensures forall a :: a in Numbered(order) <==> a in order
    ensures forall i :: 0 <= i < |order| ==> order[i] in Numbered(order) && Numbered(order)[order[i]] == i
  {
    if order != [] {
      var n := |order| - 1;
      var rest, last := order[..n], order[n];
      NumberedAt(rest);
      assert order == rest + [last];
      assert last !in rest;
      forall i | 0 <= i < |order| ensures order[i] in Numbered(order) && Numbered(order)[order[i]] == i {
        if i < n { assert order[i] == rest[i] && order[i] != last; }
      }
    }
  }

  lemma NumberedIsDense(order: seq<AccountId>)
    requires Distinct(order)
    ensures Numbered(order).Keys == Elements(order) && Dense(Numbered(order))
  {
    NumberedAt(order);
    DistinctSize(order);
    var m := Numbered(order);
    assert m.Keys == Elements(order) by {
      assert forall a :: a in m.Keys <==> a in Elements(order);
    }
    assert |m| == |m.Keys|;
    forall a | a in m ensures exists i :: 0 <= i < |order| && order[i] == a && m[a] == i {
      var i :| 0 <= i < |order| && order[i] == a;
      assert m[order[i]] == i;
    }
  }
}

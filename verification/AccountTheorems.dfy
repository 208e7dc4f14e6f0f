/** What the invariant means for readers of the account tables. */
module AccountTheorems {
  import opened Prelude
  import opened Collections
  import opened AccountModel
  import opened AccountRuns
  import opened AccountSafety
  import opened RoutingCompaction

  // ------------------------------------------------------ operations over runs

  /** At every moment of every run an account has at most one unsettled primary operation and at
      most one unsettled takeover, and the takeover stands beside that primary. */
  lemma OneOperationAtATime(commands: seq<Command>, x: OperationId, y: OperationId)
    requires
      var ops := Run(Empty, commands).operations;
      && x in ops && y in ops && x != y && ops[x].account == ops[y].account
      && Unsettled(ops[x]) && Unsettled(ops[y])
    ensures
      var ops := Run(Empty, commands).operations;
      && ops[x].recovers.None? != ops[y].recovers.None?
      && (ops[x].recovers.Some? ==> ops[x].recovers.value == y)
  {
    RunKeepsInv(Empty, commands);
    var ops := Run(Empty, commands).operations;
    assert Paired(ops, x, y);
    assert OperationOk(ops, x) && OperationOk(ops, y);
  }

  /** A refresh is superseded by exactly the committed takeover that names it. */
  lemma SupersededExactlyByItsTakeover(commands: seq<Command>, r: OperationId, takeover: OperationId)
    requires r in Run(Empty, commands).operations
    ensures
      var ops := Run(Empty, commands).operations;
      ops[r].supersededBy == Some(takeover) <==>
        takeover in ops && ops[takeover].recovers == Some(r) && ops[takeover].phase.Committed?
  {
    RunKeepsInv(Empty, commands);
    var ops := Run(Empty, commands).operations;
    assert OperationOk(ops, r);
    if takeover in ops && ops[takeover].recovers == Some(r) {
      assert OperationOk(ops, takeover);
      assert StandsBeside(ops, takeover, r);
    }
  }

  lemma RecoveryCodeExactlyInRecovery(commands: seq<Command>, id: OperationId)
    requires id in Run(Empty, commands).operations
    ensures
      var o := Run(Empty, commands).operations[id];
      o.phase.RecoveryRequired? <==> o.code.Some?
  {
    RunKeepsInv(Empty, commands);
    assert OperationOk(Run(Empty, commands).operations, id);
  }

  /** A committed, cancelled or superseded operation is never written again. */
  lemma StepFreezes(t: Tables, c: Command, id: OperationId)
    requires Inv(t) && id in t.operations && !Unsettled(t.operations[id])
    ensures id in Step(t, c).operations && Step(t, c).operations[id] == t.operations[id]
  {
    if c.DoAdvance? {
      AdvanceCases(t, c.id, c.from, c.to, c.code, c.visit);
      if Step(t, c) != t && c.to.Committed? { SettleCommits(t, c.id, c.visit); }
    }
  }

  lemma {:induction false} RunFreezes(t: Tables, commands: seq<Command>, id: OperationId)
    requires Inv(t) && id in t.operations && !Unsettled(t.operations[id])
    ensures id in Run(t, commands).operations && Run(t, commands).operations[id] == t.operations[id]
  {
    if commands != [] {
      var before := commands[..|commands| - 1];
      RunFreezes(t, before, id);
      RunKeepsInv(t, before);
      StepFreezes(Run(t, before), commands[|commands| - 1], id);
    }
  }

  /** Although the caller commits the transaction, an answer other than success changed nothing. */
  lemma RejectionsChangeNothing(t: Tables, id: OperationId, p: Preparation, recovery: Option<OperationId>,
                                from: Phase, to: Phase, code: Option<RecoveryCode>, visit: seq<AccountId>, target: Binding)
    ensures var tx := Prepare(t, id, p, recovery); tx.Commit? && !tx.reply.Applied? ==> tx.state == t
    ensures var tx := Advance(t, id, from, to, code, visit); tx.Commit? && !tx.reply.Applied? ==> tx.state == t
    ensures var tx := SetTarget(t, id, target); tx.Commit? && !tx.reply.Applied? ==> tx.state == t
  {
    AdvanceCases(t, id, from, to, code, visit);
  }

  /** What an operation row keeps for good. */
  predicate SameOperation(o: Operation, n: Operation) {
    n == o.(phase := n.phase, code := n.code, supersededBy := n.supersededBy,
            target := if o.target.Some? then o.target else n.target)
  }

  lemma AdvanceKeepsOperation(t: Tables, c: Command, id: OperationId)
    requires id in t.operations && c.DoAdvance?
    ensures id in Step(t, c).operations && SameOperation(t.operations[id], Step(t, c).operations[id])
  {
    AdvanceCases(t, c.id, c.from, c.to, c.code, c.visit);
  }

  lemma StepKeepsOperation(t: Tables, c: Command, id: OperationId)
    requires id in t.operations
    ensures id in Step(t, c).operations && SameOperation(t.operations[id], Step(t, c).operations[id])
  {
    if c.DoAdvance? { AdvanceKeepsOperation(t, c, id); }
  }

  lemma {:induction false} RunKeepsOperation(t: Tables, commands: seq<Command>, id: OperationId)
    requires id in t.operations
    ensures id in Run(t, commands).operations && SameOperation(t.operations[id], Run(t, commands).operations[id])
  {
    if commands != [] {
      RunKeepsOperation(t, commands[..|commands| - 1], id);
      StepKeepsOperation(Run(t, commands[..|commands| - 1]), commands[|commands| - 1], id);
    }
  }

  /** A preparation that was applied is recognised after any later run: the answer is a replay of its
      present phase and changes nothing, unless the provider's answer was recorded on it since, or its row
      holds a version that does not read back. */
  lemma PreparationsAreReplayed(t: Tables, id: OperationId, p: Preparation, recovery: Option<OperationId>,
                                later: seq<Command>)
    requires Prepare(t, id, p, recovery).Commit? && Prepare(t, id, p, recovery).reply.Applied?
    ensures
      var u := Run(Prepare(t, id, p, recovery).state, later);
      && id in u.operations
      && (p.target.Some? ==> u.operations[id].target == p.target)
      && var actual := Mutation(Revision(u, p.account), u.operations[id].phase);
         Prepare(u, id, p, recovery) ==
           if !Readable(u.operations[id]) then Rollback(Incompatible)
           else
             Commit(u, if u.operations[id].target == p.target then Replayed(actual) else Rejected(IdentityConflict, actual))
  {
    RunKeepsOperation(Prepare(t, id, p, recovery).state, later, id);
  }

  /** A transition that was applied is recognised as long as the operation stays in the phase it led to,
      which is for good when it led to a commit or a cancellation. */
  lemma AdvancesAreReplayed(t: Tables, id: OperationId, from: Phase, to: Phase, code: Option<RecoveryCode>,
                            visit: seq<AccountId>, later: seq<Command>, again: seq<AccountId>)
    requires Inv(t) && Advance(t, id, from, to, code, visit).Commit? && Advance(t, id, from, to, code, visit).reply.Applied?
    ensures
      var u := Run(Advance(t, id, from, to, code, visit).state, later);
      && id in u.operations
      && (to.Committed? || to.Cancelled? ==> u.operations[id].phase == to && Readable(u.operations[id]))
      && (u.operations[id].phase == to && Readable(u.operations[id]) ==>
            Advance(u, id, from, to, code, again) ==
              Commit(u, Replayed(Mutation(Revision(u, u.operations[id].account), to))))
  {
    var n := Advance(t, id, from, to, code, visit).state;
    AdvanceCases(t, id, from, to, code, visit);
    StepKeepsInv(t, DoAdvance(id, from, to, code, visit));
    assert n == Step(t, DoAdvance(id, from, to, code, visit));
    RunKeepsOperation(n, later, id);
    if to.Committed? || to.Cancelled? { RunFreezes(n, later, id); }
  }

  /** An operation whose row holds a version above an i64 is an error to every later request, over every
      run: it is never settled, and blocks its account for good. */
  lemma {:induction false} UnreadableOperationsStay(t: Tables, commands: seq<Command>, id: OperationId)
    requires id in t.operations && Unsettled(t.operations[id]) && !Readable(t.operations[id])
    ensures
      var u := Run(t, commands);
      && id in u.operations && u.operations[id] == t.operations[id] && HasUnsettled(u, t.operations[id].account)
      && forall from, to, code, visit ::
           Advance(u, id, from, to, code, visit) == Rollback(if to.RecoveryRequired? != code.Some? then InvalidInput else Incompatible)
  {
    if commands != [] {
      var before, c := commands[..|commands| - 1], commands[|commands| - 1];
      UnreadableOperationsStay(t, before, id);
      UnreadableRowStays(Run(t, before), c, id);
    }
  }

  /** Some continuation commits or cancels the operation. */
  ghost predicate CanSettle(t: Tables, id: OperationId) {
    exists commands :: id in Run(t, commands).operations && Settled(Run(t, commands).operations[id])
  }

  /** An operation in progress can be settled exactly when the versions on its row read back: it may always
      be cancelled, from an applied store by way of the recovery phase. */
  lemma SettlesExactlyIfReadable(t: Tables, id: OperationId)
    requires id in t.operations && Unsettled(t.operations[id])
    ensures CanSettle(t, id) <==> Readable(t.operations[id])
  {
    var phase := t.operations[id].phase;
    if !Readable(t.operations[id]) {
      forall commands ensures id in Run(t, commands).operations && !Settled(Run(t, commands).operations[id]) {
        UnreadableOperationsStay(t, commands, id);
      }
    } else if phase.StoreApplied? {
      var recover := DoAdvance(id, StoreApplied, RecoveryRequired, Some(OtherCode(0)), []);
      var cancel := DoAdvance(id, RecoveryRequired, Cancelled, None, []);
      assert [recover, cancel][..1] == [recover] && [recover][..0] == [];
      assert Run(t, [recover]) == Step(t, recover);
      assert Run(t, [recover, cancel]) == Step(Step(t, recover), cancel);
    } else {
      var cancel := DoAdvance(id, phase, Cancelled, None, []);
      assert [cancel][..0] == [];
      assert Run(t, [cancel]) == Step(t, cancel);
    }
  }

  /** A recorded answer reads back exactly when its version fits; the store does not look. */
  lemma AnswersReadBackExactly(t: Tables, id: OperationId, target: Binding)
    requires SetTarget(t, id, target).Commit? && SetTarget(t, id, target).reply.Applied?
    ensures
      var u := SetTarget(t, id, target).state;
      id in u.operations && (Readable(u.operations[id]) <==> target.version <= I64_MAX)
  {
  }

  lemma UnreadableRowStays(t: Tables, c: Command, id: OperationId)
    requires id in t.operations && !Readable(t.operations[id])
    ensures id in Step(t, c).operations && Step(t, c).operations[id] == t.operations[id]
  {
    if c.DoAdvance? {
      AdvanceCases(t, c.id, c.from, c.to, c.code, c.visit);
      if Step(t, c) != t && c.to.Committed? { SettleCommits(t, c.id, c.visit); }
    }
  }

  // --------------------------------------------------------- the routing order

  /** A reader lists the visible accounts by position. */
  ghost predicate ListsOrder(t: Tables, order: seq<AccountId>) {
    && (forall a :: a in order <==> a in Visible(t))
    && (forall i :: 0 <= i < |order| ==> order[i] in t.positions)
    && (forall i, j :: 0 <= i < j < |order| ==> t.positions[order[i]] < t.positions[order[j]])
  }

  /** The registry reader returns the accounts without a tombstone, each once. */
  ghost predicate ListsRegistry(t: Tables, registry: seq<AccountId>) {
    Distinct(registry) && forall a :: a in registry <==> Live(t, a)
  }

  /** The check a registry snapshot must pass before it is returned. */
  predicate SnapshotAccepted(t: Tables, registry: seq<AccountId>, order: seq<AccountId>) {
    && |Elements(registry)| == |registry|
    && |Elements(order)| == |order|
    && Elements(registry) == Elements(order)
    && (forall a :: a in registry ==> a in t.accounts && !t.accounts[a].tombstoned)
    && (t.mode.Fixed? ==> t.mode.account in Elements(registry))
  }

  lemma OrderListsThePositions(t: Tables, order: seq<AccountId>)
    requires RoutingOk(t) && ListsOrder(t, order)
    ensures Distinct(order) && Elements(order) == t.positions.Keys && |order| == |t.positions|
  {
    DistinctSize(order);
    assert forall a :: a in Elements(order) <==> a in t.positions.Keys;
    assert |t.positions.Keys| == |t.positions|;
  }

  lemma ListedPositions(t: Tables, order: seq<AccountId>, i: nat)
    requires RoutingOk(t) && ListsOrder(t, order) && i < |order|
    ensures t.positions[order[i]] == i
  {
    OrderListsThePositions(t, order);
    IncreasingFromZero(t.positions, order, i);
    IncreasingToEnd(t.positions, order, i);
  }

  /** On every reachable state the registry and the routing order are the same accounts, the order
      occupies positions 0..n-1, and the snapshot check passes. */
  lemma ReachableSnapshotsAreAccepted(commands: seq<Command>, registry: seq<AccountId>, order: seq<AccountId>)
    requires ListsRegistry(Run(Empty, commands), registry) && ListsOrder(Run(Empty, commands), order)
    ensures SnapshotAccepted(Run(Empty, commands), registry, order)
    ensures forall i :: 0 <= i < |order| ==> Run(Empty, commands).positions[order[i]] == i
  {
    RunKeepsInv(Empty, commands);
    var t := Run(Empty, commands);
    OrderListsThePositions(t, order);
    DistinctSize(registry);
    DistinctSize(order);
    assert Elements(registry) == t.positions.Keys by {
      assert forall a :: a in Elements(registry) <==> a in t.positions.Keys;
    }
    forall i | 0 <= i < |order| ensures t.positions[order[i]] == i { ListedPositions(t, order, i); }
  }
}

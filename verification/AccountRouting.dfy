/** The routing history of a run: the mode, the revision and the order that readers see are exactly what
    the answered routing commands, the enlistments and the logouts made them. */
module AccountRouting {
  import opened Prelude
  import opened Collections
  import opened AccountModel
  import opened AccountRuns
  import opened AccountSafety
  import opened AccountTheorems

  datatype RoutingEvent =
    | Pinned(account: AccountId)
    | Unpinned
    | Reordered(order: seq<AccountId>)
    | Joined(account: AccountId)
    | Left(account: AccountId)

  predicate RoutingAccepted(tx: Transaction<Tables, RoutingReply>) {
    tx.Commit? && tx.reply.RoutingUpdated?
  }

  /** What a command did to the routing, told from its answer. Routing again to the account that is fixed
      already does nothing. */
  ghost function Routed(t: Tables, c: Command): seq<RoutingEvent> {
    match c
    case DoSetFixed(routing, a, revision) =>
      if RoutingAccepted(SetFixed(t, routing, a, revision)) then [Pinned(a)] else []
    case DoRoute(routing, a, revision) =>
      if RoutingAccepted(RouteFixed(t, routing, a, revision)) && t.mode != Fixed(a) then [Pinned(a)] else []
    case DoBalance(routing) => if RoutingAccepted(SetBalanced(t, routing)) then [Unpinned] else []
    case DoReorder(routing, order) => if RoutingAccepted(SetOrder(t, routing, order)) then [Reordered(order)] else []
    case DoAdvance(id, from, to, code, visit) =>
      var tx := Advance(t, id, from, to, code, visit);
      if !(tx.Commit? && tx.reply.Applied? && to.Committed?) then []
      else if t.operations[id].kind.Refresh? then []
      else if t.operations[id].kind.Logout? then [Left(t.operations[id].account)]
      else [Joined(t.operations[id].account)]
    case _ => []
  }

  ghost function RoutingLog(commands: seq<Command>): seq<RoutingEvent> {
    if commands == [] then []
    else
      var before := commands[..|commands| - 1];
      RoutingLog(before) + Routed(Run(Empty, before), commands[|commands| - 1])
  }

  // ------------------------------------------------------------------- one step

  lemma SettleCountsRouting(t: Tables, id: OperationId, visit: seq<AccountId>)
    requires id in t.operations && Settle(t, id, visit).Done?
    ensures
      Settle(t, id, visit).tables.routingRevision == t.routingRevision + if t.operations[id].kind.Refresh? then 0 else 1
    ensures !t.operations[id].kind.Refresh? ==> t.routingRevision != I64_MAX
  {
  }

  /** How a committed advance shows in the routing tables. */
  lemma AdvanceRoutes(t: Tables, c: Command)
    requires c.DoAdvance?
    ensures
      var u := Step(t, c);
      if Routed(t, c) == [] then
        u.mode == t.mode && u.positions == t.positions && u.routingRevision == t.routingRevision
      else
        && u.routingRevision == t.routingRevision + 1 && t.routingRevision != I64_MAX
        && match Routed(t, c)[0]
           case Left(a) =>
             u.positions == Compacted(t.positions - {a}) && u.mode == if t.mode == Fixed(a) then Balanced else t.mode
           case Joined(a) => a !in t.positions && u.positions == t.positions[a := |t.positions|] && u.mode == t.mode
           case _ => false
  {
    AdvanceCases(t, c.id, c.from, c.to, c.code, c.visit);
    if Step(t, c) != t && c.to.Committed? && c.id in t.operations {
      SettleCommits(t, c.id, c.visit);
      SettleCountsRouting(t, c.id, c.visit);
    }
  }

  // ------------------------------------------------------ the mode and the revision

  /** The i-th entry fixed this account, and nothing since took the route away from it. */
  predicate PinHolds(log: seq<RoutingEvent>, a: AccountId, i: nat) {
    && i < |log| && log[i] == Pinned(a)
    && forall j :: i < j < |log| ==> !log[j].Pinned? && !log[j].Unpinned? && log[j] != Left(a)
  }

  lemma PinsExtend(log: seq<RoutingEvent>, e: RoutingEvent, a: AccountId)
    ensures
      (exists i: nat :: PinHolds(log + [e], a, i)) <==>
        e == Pinned(a)
        || (!e.Pinned? && !e.Unpinned? && e != Left(a) && exists i: nat :: PinHolds(log, a, i))
  {
    var more := log + [e];
    assert more[|log|] == e;
    if e == Pinned(a) { assert PinHolds(more, a, |log|); }
    if !e.Pinned? && !e.Unpinned? && e != Left(a) && exists i: nat :: PinHolds(log, a, i) {
      var i: nat :| PinHolds(log, a, i);
      assert PinHolds(more, a, i);
    }
    if exists i: nat :: PinHolds(more, a, i) {
      var i: nat :| PinHolds(more, a, i);
      if i < |log| {
        assert forall j :: i < j < |log| ==> more[j] == log[j];
        assert PinHolds(log, a, i);
      }
    }
  }

  /** What one command does to the mode and the revision. */
  lemma StepRoutes(t: Tables, c: Command)
    ensures |Routed(t, c)| <= 1 && Step(t, c).routingRevision == t.routingRevision + |Routed(t, c)|
    ensures t.routingRevision <= I64_MAX ==> Step(t, c).routingRevision <= I64_MAX
    ensures Routed(t, c) == [] ==> Step(t, c).mode == t.mode
    ensures Routed(t, c) != [] ==>
      var u, e := Step(t, c), Routed(t, c)[0];
      && (e.Pinned? ==> u.mode == Fixed(e.account))
      && (e.Unpinned? ==> u.mode == Balanced)
      && (e.Left? ==> u.mode == if t.mode == Fixed(e.account) then Balanced else t.mode)
      && (e.Reordered? || e.Joined? ==> u.mode == t.mode)
  {
    if c.DoAdvance? { AdvanceRoutes(t, c); }
  }

  /** Over every run the route is fixed to an account exactly when the last accepted change of the mode
      fixed it and the account was not logged out since; else routing is balanced. The routing revision
      counts the accepted changes, the enlistments and the logouts. */
  lemma {:induction false} RoutesStandAsAccepted(commands: seq<Command>, a: AccountId)
    ensures Run(Empty, commands).mode == Fixed(a) <==> exists i: nat :: PinHolds(RoutingLog(commands), a, i)
    ensures Run(Empty, commands).routingRevision == 1 + |RoutingLog(commands)| <= I64_MAX
  {
    if commands != [] {
      var before, c := commands[..|commands| - 1], commands[|commands| - 1];
      RoutesStandAsAccepted(before, a);
      var t := Run(Empty, before);
      StepRoutes(t, c);
      var routed := Routed(t, c);
      if routed == [] {
        assert RoutingLog(commands) == RoutingLog(before);
      } else {
        assert RoutingLog(commands) == RoutingLog(before) + [routed[0]];
        PinsExtend(RoutingLog(before), routed[0], a);
      }
    }
  }

  /** When a routing command is accepted: its caller knows the revision, and the account it names is live at
      the revision the caller knows, or the order it proposes lists each live account once. */
  lemma AcceptedExactly(t: Tables, routing: int, a: AccountId, revision: int, order: seq<AccountId>)
    requires 1 <= t.routingRevision <= I64_MAX && forall b :: b in t.positions <==> Live(t, b)
    ensures
      var seen := Live(t, a) && t.accounts[a].revision == revision && 1 <= revision;
      var room := routing < I64_MAX;
      && (RoutingAccepted(SetFixed(t, routing, a, revision)) <==> routing == t.routingRevision && seen && room)
      && (RoutingAccepted(RouteFixed(t, routing, a, revision)) <==>
            routing == t.routingRevision && seen && (room || t.mode == Fixed(a)))
      && (RoutingAccepted(SetBalanced(t, routing)) <==> routing == t.routingRevision && room)
    ensures RoutingAccepted(SetOrder(t, routing, order)) <==>
      && routing == t.routingRevision && routing < I64_MAX && |order| <= 512 && Distinct(order)
      && forall b :: b in order <==> Live(t, b)
  {
    assert forall b :: b in Visible(t) <==> Live(t, b);
    if Elements(order) == Visible(t) {
      forall b ensures b in order <==> Live(t, b) { assert b in order <==> b in Elements(order); }
    }
    if forall b :: b in order <==> Live(t, b) {
      assert forall b :: b in Elements(order) <==> b in Visible(t);
    }
  }

  /** A caller's routing command is accepted exactly when the caller knows every change so far, and what it
      names is live and known to it. */
  lemma RoutesAreAcceptedExactly(commands: seq<Command>, routing: int, a: AccountId, revision: int,
                                 order: seq<AccountId>)
    ensures
      var t := Run(Empty, commands);
      var current := routing == 1 + |RoutingLog(commands)|;
      var seen := Live(t, a) && t.accounts[a].revision == revision && 1 <= revision;
      && (RoutingAccepted(SetFixed(t, routing, a, revision)) <==> current && seen && routing < I64_MAX)
      && (RoutingAccepted(RouteFixed(t, routing, a, revision)) <==>
            current && seen && (routing < I64_MAX || t.mode == Fixed(a)))
      && (RoutingAccepted(SetBalanced(t, routing)) <==> current && routing < I64_MAX)
      && (RoutingAccepted(SetOrder(t, routing, order)) <==>
            current && routing < I64_MAX && |order| <= 512 && Distinct(order)
            && forall b :: b in order <==> Live(t, b))
  {
    RoutesStandAsAccepted(commands, a);
    RunKeepsInv(Empty, commands);
    AcceptedExactly(Run(Empty, commands), routing, a, revision, order);
  }

  // -------------------------------------------------------------------- the order

  function Without(order: seq<AccountId>, a: AccountId): (rest: seq<AccountId>)
    ensures forall b :: b in rest <==> b in order && b != a
  {
    if order == [] then []
    else
      var last := order[|order| - 1];
      var rest := Without(order[..|order| - 1], a);
      if last == a then rest else rest + [last]
  }

  /** A proposed order replaces the listing, an account joins at its end and leaves where it stood. */
  function OrderAfter(order: seq<AccountId>, e: RoutingEvent): seq<AccountId> {
    match e
    case Reordered(proposed) => proposed
    case Joined(a) => order + [a]
    case Left(a) => Without(order, a)
    case _ => order
  }

  /** The order that a history leaves. */
  function OrderOf(log: seq<RoutingEvent>): seq<AccountId> {
    if log == [] then []
    else OrderAfter(OrderOf(log[..|log| - 1]), log[|log| - 1])
  }

  /** The rows, sorted by position. */
  predicate Sorted(m: map<AccountId, nat>, order: seq<AccountId>) {
    && (forall a :: a in order ==> a in m)
    && (forall i, j :: 0 <= i < j < |order| ==> m[order[i]] < m[order[j]])
  }

  predicate Lists(m: map<AccountId, nat>, order: seq<AccountId>) {
    Sorted(m, order) && forall a :: a in m ==> a in order
  }

  lemma JoinLists(m: map<AccountId, nat>, order: seq<AccountId>, a: AccountId)
    requires Dense(m) && a !in m && Lists(m, order)
    ensures Lists(m[a := |m|], order + [a])
  {
    var more, listed := m[a := |m|], order + [a];
    forall i, j | 0 <= i < j < |listed| ensures listed[i] in more && listed[j] in more && more[listed[i]] < more[listed[j]] {
      assert listed[i] == order[i] && order[i] in order;
      if j < |order| { assert listed[j] == order[j] && order[j] in order; }
      else { assert listed[j] == a; }
    }
  }

  lemma {:induction false} WithoutStaysSorted(m: map<AccountId, nat>, order: seq<AccountId>, a: AccountId)
    requires Sorted(m, order)
    ensures Sorted(m, Without(order, a))
  {
    if order != [] {
      var n := |order| - 1;
      WithoutStaysSorted(m, order[..n], a);
      var rest := Without(order[..n], a);
      forall i | 0 <= i < |rest| ensures rest[i] in m && m[rest[i]] < m[order[n]] {
        assert rest[i] in rest && rest[i] in order[..n];
        var k :| 0 <= k < n && order[k] == rest[i];
      }
    }
  }

  lemma LeaveLists(m: map<AccountId, nat>, order: seq<AccountId>, a: AccountId)
    requires Unique(m) && Lists(m, order)
    ensures Lists(Compacted(m - {a}), Without(order, a))
  {
    WithoutStaysSorted(m, order, a);
    CompactionKeepsOrder(m - {a});
    var rest, after := Without(order, a), Compacted(m - {a});
    forall i, j | 0 <= i < j < |rest| ensures rest[i] in after && rest[j] in after && after[rest[i]] < after[rest[j]] {
      assert rest[i] in rest && rest[j] in rest;
    }
  }

  lemma WriteLists(order: seq<AccountId>)
    requires Distinct(order)
    ensures Lists(Numbered(order), order)
  {
    NumberedAt(order);
  }

  lemma RoutedLists(t: Tables, c: Command, order: seq<AccountId>)
    requires Inv(t) && Lists(t.positions, order)
    ensures Lists(Step(t, c).positions, if Routed(t, c) == [] then order else OrderAfter(order, Routed(t, c)[0]))
  {
    if c.DoAdvance? {
      AdvanceRoutes(t, c);
      if Routed(t, c) != [] {
        match Routed(t, c)[0]
        case Joined(a) => JoinLists(t.positions, order, a);
        case Left(a) => LeaveLists(t.positions, order, a);
        case _ =>
      }
    } else if c.DoReorder? && Routed(t, c) != [] {
      WriteLists(c.order);
    }
  }

  lemma RoutedExtends(t: Tables, c: Command, log: seq<RoutingEvent>)
    ensures OrderOf(log + Routed(t, c)) == if Routed(t, c) == [] then OrderOf(log) else OrderAfter(OrderOf(log), Routed(t, c)[0])
  {
    StepRoutes(t, c);
    var more := log + Routed(t, c);
    if Routed(t, c) == [] { assert more == log; } else { assert more[..|more| - 1] == log; }
  }

  lemma {:induction false} PositionsFollowTheHistory(commands: seq<Command>)
    ensures Lists(Run(Empty, commands).positions, OrderOf(RoutingLog(commands)))
  {
    if commands != [] {
      var before, c := commands[..|commands| - 1], commands[|commands| - 1];
      PositionsFollowTheHistory(before);
      RunKeepsInv(Empty, before);
      RoutedLists(Run(Empty, before), c, OrderOf(RoutingLog(before)));
      RoutedExtends(Run(Empty, before), c, RoutingLog(before));
    }
  }

  /** Two sorted listings of the same rows are the same. */
  lemma {:induction false} ListingsAgree(m: map<AccountId, nat>, x: seq<AccountId>, y: seq<AccountId>)
    requires Sorted(m, x) && Sorted(m, y) && forall a :: a in x <==> a in y
    ensures x == y
    decreases |x|
  {
    if x != [] || y != [] {
      var a := if x != [] then x[|x| - 1] else y[|y| - 1];
      assert a in x && a in y;
      var p, q := |x| - 1, |y| - 1;
      var last := y[q];
      assert last in x;
      assert x[p] == last;
      forall a ensures a in x[..p] <==> a in y[..q] {
        InPrefix(m, x, a);
        InPrefix(m, y, a);
      }
      ListingsAgree(m, x[..p], y[..q]);
      assert x == x[..p] + [x[p]] && y == y[..q] + [y[q]];
    }
  }

  lemma InPrefix(m: map<AccountId, nat>, x: seq<AccountId>, a: AccountId)
    requires Sorted(m, x) && x != []
    ensures a in x[..|x| - 1] <==> a in x && a != x[|x| - 1]
  {
  }

  /** A reader of any reachable state lists exactly the order that the history leaves. */
  lemma ReadersSeeTheHistory(commands: seq<Command>, order: seq<AccountId>)
    requires ListsOrder(Run(Empty, commands), order)
    ensures order == OrderOf(RoutingLog(commands))
  {
    PositionsFollowTheHistory(commands);
    RunKeepsInv(Empty, commands);
    ListingsAgree(Run(Empty, commands).positions, order, OrderOf(RoutingLog(commands)));
  }

  /** Nothing after the i-th entry changed the order. */
  predicate OrderStands(log: seq<RoutingEvent>, i: nat) {
    && i < |log| && log[i].Reordered?
    && forall j :: i < j < |log| ==> log[j].Pinned? || log[j].Unpinned?
  }

  lemma {:induction false} OrderStaysUntilChanged(log: seq<RoutingEvent>, i: nat)
    requires OrderStands(log, i)
    ensures OrderOf(log) == log[i].order
  {
    if i < |log| - 1 {
      assert OrderStands(log[..|log| - 1], i);
      OrderStaysUntilChanged(log[..|log| - 1], i);
    }
  }

  /** After an accepted order every reader lists exactly that order, until the next one, the next
      enlistment or the next logout. */
  lemma AcceptedOrdersAreRead(commands: seq<Command>, i: nat, order: seq<AccountId>)
    requires OrderStands(RoutingLog(commands), i) && ListsOrder(Run(Empty, commands), order)
    ensures order == RoutingLog(commands)[i].order
  {
    ReadersSeeTheHistory(commands, order);
    OrderStaysUntilChanged(RoutingLog(commands), i);
  }
}

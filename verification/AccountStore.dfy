/** The account store as the database holds it: tables updated in place, one transaction a method.
    Every method is proved against the transaction of the same name in AccountModel. */
module AccountStore {
  import opened Prelude
  import opened Collections
  import M = AccountModel
  import opened AccountModel
  import AccountRuns
  import AccountDating
  import opened RoutingCompaction

  /** What a commit step did to the tables, against what it was specified to do. */
  ghost predicate Performs(effect: Effect, answer: Result<Option<Rejection>>, before: Tables, after: Tables) {
    match effect
    case Refused(rejection) => answer == Ok(Some(rejection)) && after == before
    case Failed(error) => answer == Err(error)
    case Done(tables) => answer == Ok(None) && after == tables
  }

  class Store {
    var accounts: map<AccountId, Account>
    var operations: map<OperationId, Operation>
    var credentials: map<AccountId, Binding>
    var positions: map<AccountId, nat>
    var mode: Mode
    var routingRevision: int
    var busy: set<AccountId>

    constructor ()
      ensures Snapshot() == AccountRuns.Empty && Valid()
    {
      accounts, operations, credentials, positions := map[], map[], map[], map[];
      mode, routingRevision, busy := Balanced, 1, {};
    }

    function Snapshot(): Tables
      reads this
    {
      Tables(accounts, operations, credentials, positions, mode, routingRevision, busy)
    }

    /** The table's own constraint: no two rows share a position. */
    predicate Valid()
      reads this
    {
      Unique(positions)
    }

    method Restore(saved: Tables)
      modifies this
      ensures Snapshot() == saved
    {
      accounts, operations, credentials, positions := saved.accounts, saved.operations, saved.credentials, saved.positions;
      mode, routingRevision, busy := saved.mode, saved.routingRevision, saved.busy;
    }

    // ------------------------------------------------------------- the logout history

    /** ORDER BY expected revision, operation identity, newest first; LIMIT 1. */
    method NewestLogout(a: AccountId) returns (newest: Option<OperationId>)
      ensures newest.Some? ==> IsNewestLogout(Snapshot(), a, newest.value)
      ensures newest.None? ==> forall id :: !IsLogout(Snapshot(), a, id)
    {
      var rest := operations.Keys;
      newest := None;
      while rest != {}
        invariant rest <= operations.Keys
        invariant newest.Some? ==> IsLogout(Snapshot(), a, newest.value)
        invariant forall id :: id in operations && id !in rest && IsLogout(Snapshot(), a, id) ==>
          newest.Some? && NoNewer(Snapshot(), newest.value, id)
        decreases rest
      {
        ghost var some := Pick(rest);
        var id :| id in rest;
        rest := rest - {id};
        if IsLogout(Snapshot(), a, id) && (newest.None? || NoNewer(Snapshot(), id, newest.value)) {
          newest := Some(id);
        }
      }
    }

    method TombstonePredecessor(a: AccountId, revision: int, provider: ProviderId)
      returns (previous: Option<Binding>)
      ensures previous == Predecessor(Snapshot(), a, revision, provider)
    {
      var newest := NewestLogout(a);
      if newest.Some? {
        AccountDating.PredecessorIs(Snapshot(), a, newest.value, revision, provider);
        return PredecessorOf(operations[newest.value], revision, provider);
      }
      return None;
    }

    // ----------------------------------------------------------------------- preparing

    method Prepare(id: OperationId, p: Preparation, recovery: Option<OperationId>) returns (answer: Result<Reply>)
      modifies this`operations
      ensures Snapshot() == After(old(Snapshot()), M.Prepare(old(Snapshot()), id, p, recovery))
      ensures answer == Answer(M.Prepare(old(Snapshot()), id, p, recovery))
    {
      if !ValidPreparation(id, p) || recovery == Some(id) { return Err(InvalidInput); }
      if id in operations {
        var existing := operations[id];
        if !Readable(existing) { return Err(Incompatible); }
        var actual := Mutation(Revision(Snapshot(), existing.account), existing.phase);
        if Describes(existing, p, recovery) { return Ok(Replayed(actual)); }
        return Ok(Rejected(IdentityConflict, actual));
      }
      if !ReadableAt(Snapshot(), recovery) { return Err(Incompatible); }
      var refusal := AdmissionRefusal(Snapshot(), p, recovery);
      if refusal.Some? { return Ok(refusal.value); }
      var check := CheckPreparation(p);
      if check.Err? { return Err(check.error); }
      var actual := Mutation(Revision(Snapshot(), p.account), Prepared);
      if check.value.Some? { return Ok(Rejected(check.value.value, actual)); }
      operations := operations[id := Opened(p, recovery)];
      return Ok(Applied(actual));
    }

    method CheckPreparation(p: Preparation) returns (answer: Result<Option<Rejection>>)
      requires IsNew(p.kind) ==> p.target.Some?
      ensures Performs(PreparationCheck(Snapshot(), p), answer, Snapshot(), Snapshot())
    {
      if IsNew(p.kind) {
        if p.account !in accounts {
          return Ok(if p.expectedRevision.Some? then Some(StaleAccount) else None);
        }
        var account := accounts[p.account];
        if !account.tombstoned { return Ok(Some(IdentityConflict)); }
        if p.expectedRevision != Some(account.revision) || p.provider != account.provider || p.account in credentials {
          return Ok(Some(StaleAccount));
        }
        var previous := TombstonePredecessor(p.account, account.revision, p.provider);
        if previous.None? { return Err(Incompatible); }
        if previous.value.version == U64_MAX { return Err(InvalidInput); }
        return Ok(if || p.target.value.version != previous.value.version + 1
                     || p.target.value.provider != previous.value.provider
                  then Some(StaleAccount) else None);
      }
      if !Live(Snapshot(), p.account) { return Ok(Some(AccountMissing)); }
      if p.expectedRevision != Some(accounts[p.account].revision) { return Ok(Some(StaleAccount)); }
      return Ok(if Stored(Snapshot(), p.account) != p.expected then Some(StaleAccount) else None);
    }

    // ----------------------------------------------------------------------- advancing

    /** `visit` is the order in which the database happened to walk the routing rows. */
    method Advance(id: OperationId, expected: Phase, target: Phase, code: Option<RecoveryCode>)
      returns (answer: Result<Reply>, ghost visit: seq<AccountId>)
      requires Valid()
      modifies this
      ensures Valid()
      ensures Snapshot() == After(old(Snapshot()), M.Advance(old(Snapshot()), id, expected, target, code, visit))
      ensures answer == Answer(M.Advance(old(Snapshot()), id, expected, target, code, visit))
    {
      visit := [];
      if target.RecoveryRequired? != code.Some? { return Err(InvalidInput), visit; }
      if id !in operations { return Ok(Rejected(OperationMissing, Mutation(0, expected))), visit; }
      var o := operations[id];
      var actual := Mutation(Revision(Snapshot(), o.account), o.phase);
      if !Readable(o) { return Err(Incompatible), visit; }
      if o.phase == target { return Ok(Replayed(actual)), visit; }
      if o.supersededBy.Some? || o.phase != expected || !AllowedTransition(expected, target) {
        return Ok(Rejected(StaleOperation, actual)), visit;
      }
      if target.Committed? {
        var saved := Snapshot();
        var settled;
        settled, visit := SettleOperation(id);
        if settled.Err? {
          Restore(saved);
          return Err(settled.error), visit;
        }
        if settled.value.Some? { return Ok(Rejected(settled.value.value, actual)), visit; }
      }
      operations := operations[id := o.(phase := target, code := code)];
      return Ok(Applied(Mutation(Revision(Snapshot(), o.account), target))), visit;
    }

    method SettleOperation(id: OperationId) returns (answer: Result<Option<Rejection>>, ghost visit: seq<AccountId>)
      requires Valid() && id in operations
      modifies this`accounts, this`positions, this`mode, this`routingRevision, this`operations
      ensures Performs(Settle(old(Snapshot()), id, visit), answer, old(Snapshot()), Snapshot())
      ensures answer.Ok? ==> Valid()
    {
      visit := [];
      var o := operations[id];
      if o.recovers.Some? {
        if o.recovers.value !in operations { return Ok(Some(OperationMissing)), visit; }
        if !Readable(operations[o.recovers.value]) { return Err(Incompatible), visit; }
        if !RecoversExactly(operations[o.recovers.value], o) { return Ok(Some(StaleOperation)), visit; }
      }
      match o.kind {
        case Refresh => answer := CommitRefresh(o);
        case Logout => answer, visit := CommitLogout(o);
        case _ => answer := CommitEnrollment(o);
      }
      if answer == Ok(None) && o.recovers.Some? {
        var failed := operations[o.recovers.value];
        operations := operations[o.recovers.value := failed.(supersededBy := Some(id))];
      }
    }

    method CommitEnrollment(o: Operation) returns (answer: Result<Option<Rejection>>)
      requires Valid()
      modifies this`accounts, this`positions, this`routingRevision
      ensures Performs(M.CommitEnrollment(old(Snapshot()), o), answer, old(Snapshot()), Snapshot())
      ensures answer.Ok? ==> Valid()
    {
      if o.target.None? { return Ok(Some(InvalidRequest)); }
      if Stored(Snapshot(), o.account) != o.target { return Ok(Some(StaleAccount)); }
      if o.enabled.None? { return Err(InvalidInput); }
      var target := o.target.value;
      if o.account !in accounts {
        if o.expectedRevision.Some? || target.version != 1 { return Ok(Some(StaleAccount)); }
        if exists a :: a in accounts && accounts[a].provider == target.provider { return Err(Constraint); }
        accounts := accounts[o.account := Account(o.enabled.value, 1, target.provider, false)];
      } else {
        var account := accounts[o.account];
        if !account.tombstoned { return Ok(Some(IdentityConflict)); }
        if o.expectedRevision != Some(account.revision) || target.provider != account.provider {
          return Ok(Some(StaleAccount));
        }
        var previous := TombstonePredecessor(o.account, account.revision, target.provider);
        if previous.None? { return Err(Incompatible); }
        if previous.value.version == U64_MAX || target.version != previous.value.version + 1 {
          return Ok(Some(StaleAccount));
        }
        if account.revision == I64_MAX { return Err(Constraint); }
        accounts := accounts[o.account := Account(o.enabled.value, account.revision + 1, target.provider, false)];
      }
      if o.account in positions || !Free(positions, o.account, |positions|) || routingRevision == I64_MAX {
        return Err(Constraint);
      }
      positions := positions[o.account := |positions|];
      routingRevision := routingRevision + 1;
      return Ok(None);
    }

    method CommitRefresh(o: Operation) returns (answer: Result<Option<Rejection>>)
      modifies this`accounts
      ensures Performs(M.CommitRefresh(old(Snapshot()), o), answer, old(Snapshot()), Snapshot())
    {
      if o.target.None? { return Ok(Some(InvalidRequest)); }
      if Stored(Snapshot(), o.account) != o.target { return Ok(Some(StaleAccount)); }
      if !Live(Snapshot(), o.account) { return Ok(Some(AccountMissing)); }
      var account, provider := accounts[o.account], o.target.value.provider;
      if || account.revision == I64_MAX
         || exists a :: a in accounts && a != o.account && accounts[a].provider == provider
      { return Err(Constraint); }
      accounts := accounts[o.account := account.(revision := account.revision + 1, provider := provider)];
      return Ok(None);
    }

    method CommitLogout(o: Operation) returns (answer: Result<Option<Rejection>>, ghost visit: seq<AccountId>)
      requires Valid()
      modifies this`accounts, this`positions, this`mode, this`routingRevision
      ensures Performs(M.CommitLogout(old(Snapshot()), o, visit), answer, old(Snapshot()), Snapshot())
      ensures answer.Ok? ==> Valid()
    {
      var a := o.account;
      visit := [];
      if a in busy { return Ok(Some(AccountInUse)), visit; }
      if a in credentials { return Ok(Some(StaleAccount)), visit; }
      if !Live(Snapshot(), a) { return Ok(Some(AccountMissing)), visit; }
      var account := accounts[a];
      if account.revision == I64_MAX || routingRevision == I64_MAX { return Err(Constraint), visit; }
      accounts := accounts[a := account.(enabled := false, revision := account.revision + 1, tombstoned := true)];
      positions := positions - {a};
      var compacted;
      compacted, visit := CompactRoutingOrder();
      if !compacted { return Err(Constraint), visit; }
      if mode == Fixed(a) { mode := Balanced; }
      routingRevision := routingRevision + 1;
      return Ok(None), visit;
    }

    // --------------------------------------------------------------- the routing order

    method Lowest(rest: set<AccountId>) returns (low: AccountId)
      requires rest != {} && rest <= positions.Keys
      ensures low in rest && forall a :: a in rest ==> positions[low] <= positions[a]
    {
      ghost var some := Pick(rest);
      low :| low in rest;
      var unseen := rest;
      while unseen != {}
        invariant low in rest && unseen <= rest
        invariant forall a :: a in rest && a !in unseen ==> positions[low] <= positions[a]
        decreases unseen
      {
        ghost var next := Pick(unseen);
        var a :| a in unseen;
        unseen := unseen - {a};
        if positions[a] < positions[low] { low := a; }
      }
    }

    /** The rows ORDER BY position. */
    method OrderedRows() returns (ids: seq<AccountId>)
      requires Valid()
      ensures Increasing(positions, ids) && forall a :: a in ids <==> a in positions
    {
      var rest := positions.Keys;
      ids := [];
      while rest != {}
        invariant rest <= positions.Keys
        invariant forall a :: a in ids <==> a in positions && a !in rest
        invariant Increasing(positions, ids)
        invariant forall a, b :: a in ids && b in rest ==> positions[a] < positions[b]
        decreases rest
      {
        var low := Lowest(rest);
        rest := rest - {low};
        AppendIncreasing(positions, ids, low);
        ids := ids + [low];
      }
    }

    /** Add 512 to every position, in whatever order the database walks the rows; each row's new
        position is checked against the rows of that moment. */
    method ShiftPositions() returns (ok: bool, ghost visit: seq<AccountId>)
      modifies this`positions
      ensures Distinct(visit) && forall a :: a in visit <==> a in old(positions)
      ensures ok == ShiftSucceeds(old(positions), visit)
      ensures positions.Keys == old(positions).Keys
      ensures ok ==> forall a :: a in old(positions) ==> positions[a] == old(positions)[a] + MAX_ACCOUNT_COUNT
    {
      var rest := positions.Keys;
      ghost var before := positions;
      visit := [];
      while rest != {}
        invariant rest <= positions.Keys == before.Keys
        invariant Distinct(visit) && forall a :: a in visit <==> a in before && a !in rest
        invariant positions == Shifted(before, visit) && ShiftSucceeds(before, visit)
        decreases rest
      {
        ghost var some := Pick(rest);
        var a :| a in rest;
        if !Free(positions, a, positions[a] + MAX_ACCOUNT_COUNT) {
          visit := ShiftStops(before, visit, a, rest - {a});
          return false, visit;
        }
        ShiftGoesOn(before, visit, a);
        visit := visit + [a];
        rest := rest - {a};
        positions := positions[a := positions[a] + MAX_ACCOUNT_COUNT];
      }
      ShiftedAt(before, visit);
      return true, visit;
    }

    /** Rewrite the shifted rows one by one. No row ever takes an occupied position: those still to be
        rewritten stand at least 512 further on than their rank. */
    method NumberRows(ids: seq<AccountId>, ghost before: map<AccountId, nat>)
      requires Increasing(before, ids) && forall a :: a in ids <==> a in before
      requires positions.Keys == before.Keys
      requires forall a :: a in before ==> positions[a] == before[a] + MAX_ACCOUNT_COUNT
      modifies this`positions
      ensures HalfNumbered(before, ids, |ids|, positions)
    {
      forall k | 0 <= k < |ids|
        ensures ids[k] in before && positions[ids[k]] == before[ids[k]] + MAX_ACCOUNT_COUNT
      {
        var a := ids[k];
        assert a in before && positions[a] == before[a] + MAX_ACCOUNT_COUNT;
      }
      for i := 0 to |ids|
        invariant HalfNumbered(before, ids, i, positions)
      {
        RewriteStaysUnique(before, ids, i, positions);
        positions := positions[ids[i] := i];
      }
    }

    /** Move every row to its rank. */
    method CompactRoutingOrder() returns (ok: bool, ghost visit: seq<AccountId>)
      requires Valid()
      modifies this`positions
      ensures Distinct(visit) && forall a :: a in visit <==> a in old(positions)
      ensures ok == ShiftSucceeds(old(positions), visit)
      ensures ok ==> positions == Compacted(old(positions)) && Valid()
    {
      ghost var before := positions;
      var ids := OrderedRows();
      ok, visit := ShiftPositions();
      if !ok { return; }
      NumberRows(ids, before);
      NumberedRowsAreCompacted(before, ids, positions);
      AccountRuns.CompactionKeepsOrder(before);
    }

    /** Delete every row and insert the new order. */
    method WriteOrder(order: seq<AccountId>)
      requires Distinct(order)
      modifies this`positions
      ensures positions == Numbered(order) && Valid()
    {
      positions := map[];
      for i := 0 to |order|
        invariant positions == Numbered(order[..i])
      {
        assert order[..i + 1][..i] == order[..i];
        positions := positions[order[i] := i];
      }
      assert order[..|order|] == order;
      AccountRuns.NumberedIsDense(order);
    }

    method SetOrder(expected: int, order: seq<AccountId>) returns (answer: Result<RoutingReply>)
      requires Valid()
      modifies this`positions, this`routingRevision
      ensures Valid()
      ensures Snapshot() == After(old(Snapshot()), M.SetOrder(old(Snapshot()), expected, order))
      ensures answer == Answer(M.SetOrder(old(Snapshot()), expected, order))
    {
      if expected < 1 || |order| > MAX_ACCOUNT_COUNT || !Distinct(order) { return Err(InvalidInput); }
      if routingRevision != expected { return Ok(StaleRoutingControl(routingRevision)); }
      if Elements(order) != Visible(Snapshot()) { return Ok(InvalidOrder(routingRevision)); }
      if routingRevision == I64_MAX { return Err(Constraint); }
      WriteOrder(order);
      routingRevision := routingRevision + 1;
      return Ok(RoutingUpdated);
    }

    // ------------------------------------------------- targets, switches, routing modes

    method SetTarget(id: OperationId, target: Binding) returns (answer: Result<Reply>)
      modifies this`operations
      ensures Snapshot() == After(old(Snapshot()), M.SetTarget(old(Snapshot()), id, target))
      ensures answer == Answer(M.SetTarget(old(Snapshot()), id, target))
    {
      if id !in operations { return Ok(Rejected(OperationMissing, Mutation(0, ProviderEffectPending))); }
      var o := operations[id];
      var actual := Mutation(Revision(Snapshot(), o.account), o.phase);
      if !Readable(o) { return Err(Incompatible); }
      if o.target == Some(target) { return Ok(Replayed(actual)); }
      if !o.phase.ProviderEffectPending? || o.target.Some? || o.supersededBy.Some? || target.writer != id {
        return Ok(Rejected(StaleOperation, actual));
      }
      operations := operations[id := o.(target := Some(target))];
      return Ok(Applied(actual));
    }

    method SetEnabled(a: AccountId, expected: int, enabled: bool) returns (answer: Result<AdminReply>)
      modifies this`accounts
      ensures Snapshot() == After(old(Snapshot()), M.SetEnabled(old(Snapshot()), a, expected, enabled))
      ensures answer == Answer(M.SetEnabled(old(Snapshot()), a, expected, enabled))
    {
      if expected < 1 { return Err(InvalidInput); }
      if a !in accounts || accounts[a].tombstoned {
        return Ok(AdminRejected(AccountMissing, Revision(Snapshot(), a)));
      }
      var account := accounts[a];
      if account.revision != expected { return Ok(AdminRejected(StaleAccount, account.revision)); }
      if expected == I64_MAX { return Err(CapacityExhausted); }
      accounts := accounts[a := account.(enabled := enabled, revision := expected + 1)];
      return Ok(Updated(expected + 1));
    }

    method SetFixed(expected: int, a: AccountId, expectedAccount: int) returns (answer: Result<RoutingReply>)
      modifies this`mode, this`routingRevision
      ensures Snapshot() == After(old(Snapshot()), M.SetFixed(old(Snapshot()), expected, a, expectedAccount))
      ensures answer == Answer(M.SetFixed(old(Snapshot()), expected, a, expectedAccount))
    {
      if expected < 1 || expectedAccount < 1 { return Err(InvalidInput); }
      if routingRevision != expected { return Ok(StaleRoutingControl(routingRevision)); }
      if a !in accounts || accounts[a].tombstoned { return Ok(RoutingAccountMissing); }
      if accounts[a].revision != expectedAccount { return Ok(StaleRoutingAccount(accounts[a].revision)); }
      if expected == I64_MAX { return Err(CapacityExhausted); }
      mode, routingRevision := Fixed(a), expected + 1;
      return Ok(RoutingUpdated);
    }

    method RouteFixed(expected: int, a: AccountId, expectedAccount: int) returns (answer: Result<RoutingReply>)
      modifies this`mode, this`routingRevision
      ensures Snapshot() == After(old(Snapshot()), M.RouteFixed(old(Snapshot()), expected, a, expectedAccount))
      ensures answer == Answer(M.RouteFixed(old(Snapshot()), expected, a, expectedAccount))
    {
      if expected < 1 || expectedAccount < 1 { return Err(InvalidInput); }
      if routingRevision != expected { return Ok(StaleRoutingControl(routingRevision)); }
      if a !in accounts || accounts[a].tombstoned { return Ok(RoutingAccountMissing); }
      if accounts[a].revision != expectedAccount { return Ok(StaleRoutingAccount(accounts[a].revision)); }
      if mode == Fixed(a) { return Ok(RoutingUpdated); }
      answer := SetFixed(expected, a, expectedAccount);
    }

    method SetBalanced(expected: int) returns (answer: Result<RoutingReply>)
      modifies this`mode, this`routingRevision
      ensures Snapshot() == After(old(Snapshot()), M.SetBalanced(old(Snapshot()), expected))
      ensures answer == Answer(M.SetBalanced(old(Snapshot()), expected))
    {
      if expected < 1 { return Err(InvalidInput); }
      if routingRevision != expected { return Ok(StaleRoutingControl(routingRevision)); }
      if expected == I64_MAX { return Err(CapacityExhausted); }
      mode, routingRevision := Balanced, expected + 1;
      return Ok(RoutingUpdated);
    }

    // --------------------------------------------------------------------- credentials

    method CreateCredential(a: AccountId, record: Binding) returns (answer: Result<()>)
      modifies this`credentials
      ensures Snapshot() == After(old(Snapshot()), M.CreateCredential(old(Snapshot()), a, record))
      ensures answer == Answer(M.CreateCredential(old(Snapshot()), a, record))
    {
      if record.version > I64_MAX { return Err(Conflict); }
      if a in credentials { return Err(AlreadyExists); }
      if record.writer !in operations || record.version == 0 { return Err(Constraint); }
      if exists b :: b in credentials && credentials[b].provider == record.provider { return Err(Conflict); }
      credentials := credentials[a := record];
      return Ok(());
    }

    method RotateCredential(a: AccountId, expected: Binding, target: Binding) returns (answer: Result<()>)
      modifies this`credentials
      ensures Snapshot() == After(old(Snapshot()), M.RotateCredential(old(Snapshot()), a, expected, target))
      ensures answer == Answer(M.RotateCredential(old(Snapshot()), a, expected, target))
    {
      var next := if expected.version < U64_MAX then expected.version + 1 else U64_MAX;
      if expected.provider != target.provider || target.version != next || target.version > I64_MAX {
        return Err(Conflict);
      }
      if a !in credentials || credentials[a] != expected { return Err(Conflict); }
      if target.writer !in operations { return Err(Constraint); }
      credentials := credentials[a := target];
      return Ok(());
    }

    method DeleteCredential(a: AccountId, expected: Binding) returns (answer: Result<()>)
      modifies this`credentials
      ensures Snapshot() == After(old(Snapshot()), M.DeleteCredential(old(Snapshot()), a, expected))
      ensures answer == Answer(M.DeleteCredential(old(Snapshot()), a, expected))
    {
      if a !in credentials || credentials[a] != expected { return Err(NotFound); }
      credentials := credentials - {a};
      return Ok(());
    }
  }
}

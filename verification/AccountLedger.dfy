/** The tables read back from the answers that clients were given: every operation row, account row and
    stored credential is exactly what the answered requests of the run made it. */
module AccountLedger {
  import opened Prelude
  import opened AccountModel
  import opened AccountRuns
  import opened AccountSafety
  import opened AccountDating

  // ------------------------------------------------------------- operation rows

  predicate IsApplied(tx: Transaction<Tables, Reply>) {
    tx.Commit? && tx.reply.Applied?
  }

  /** The i-th request opened the operation. */
  ghost predicate OpenedAt(commands: seq<Command>, id: OperationId, i: nat) {
    && i < |commands| && commands[i].DoPrepare? && commands[i].id == id
    && IsApplied(Prepare(Run(Empty, commands[..i]), id, commands[i].preparation, commands[i].recovery))
  }

  /** The i-th request recorded the provider's answer on it. */
  ghost predicate AnsweredAt(commands: seq<Command>, id: OperationId, i: nat) {
    && i < |commands| && commands[i].DoSetTarget? && commands[i].id == id
    && IsApplied(SetTarget(Run(Empty, commands[..i]), id, commands[i].target))
  }

  /** The i-th request moved it to another phase. */
  ghost predicate MovedAt(commands: seq<Command>, id: OperationId, i: nat) {
    && i < |commands| && commands[i].DoAdvance? && commands[i].id == id
    && var c := commands[i]; IsApplied(Advance(Run(Empty, commands[..i]), id, c.from, c.to, c.code, c.visit))
  }

  ghost function Opening(commands: seq<Command>, id: OperationId): (i: Option<nat>)
    ensures i.Some? ==> i.value < |commands| && commands[i.value].DoPrepare?
  {
    if commands == [] then None
    else if OpenedAt(commands, id, |commands| - 1) then Some(|commands| - 1)
    else Opening(commands[..|commands| - 1], id)
  }

  ghost function Answering(commands: seq<Command>, id: OperationId): (i: Option<nat>)
    ensures i.Some? ==> i.value < |commands| && commands[i.value].DoSetTarget?
  {
    if commands == [] then None
    else if AnsweredAt(commands, id, |commands| - 1) then Some(|commands| - 1)
    else Answering(commands[..|commands| - 1], id)
  }

  ghost function Moving(commands: seq<Command>, id: OperationId): (i: Option<nat>)
    ensures i.Some? ==> i.value < |commands| && commands[i.value].DoAdvance?
  {
    if commands == [] then None
    else if MovedAt(commands, id, |commands| - 1) then Some(|commands| - 1)
    else Moving(commands[..|commands| - 1], id)
  }

  /** The row of an operation that was opened by this request, answered and moved by those. */
  predicate IsRow(o: Operation, opening: Command, answering: Option<Command>, moving: Option<Command>)
    requires opening.DoPrepare?
    requires answering.Some? ==> answering.value.DoSetTarget?
    requires moving.Some? ==> moving.value.DoAdvance?
  {
    var p := opening.preparation;
    && o.account == p.account && o.kind == p.kind && o.expectedRevision == p.expectedRevision
    && o.displayLabel == p.displayLabel && o.enabled == p.enabled && o.expected == p.expected
    && o.provider == p.provider && o.recovers == opening.recovery
    && o.target == (if answering.Some? then Some(answering.value.target) else p.target)
    && o.phase == (if moving.Some? then moving.value.to else Prepared)
    && o.code == (if moving.Some? then moving.value.code else None)
  }

  ghost predicate RowTold(commands: seq<Command>, id: OperationId) {
    var ops := Run(Empty, commands).operations;
    var opening, answering, moving := Opening(commands, id), Answering(commands, id), Moving(commands, id);
    && (id in ops <==> opening.Some?)
    && (id in ops ==>
          IsRow(ops[id], commands[opening.value],
                if answering.Some? then Some(commands[answering.value]) else None,
                if moving.Some? then Some(commands[moving.value]) else None))
    && (id !in ops ==> answering.None? && moving.None?)
  }

  /** A row that only its supersession may have changed. */
  predicate OnlySuperseded(o: Operation, n: Operation) {
    n == o.(supersededBy := n.supersededBy)
  }

  /** An advance rewrites its own row as asked, and no other but by supersession. */
  lemma AdvanceRewrites(t: Tables, c: Command, x: OperationId)
    requires Inv(t) && c.DoAdvance? && x in t.operations
    ensures x in Step(t, c).operations
    ensures
      var applied := IsApplied(Advance(t, c.id, c.from, c.to, c.code, c.visit));
      var o, n := t.operations[x], Step(t, c).operations[x];
      if applied && x == c.id then n == o.(phase := c.to, code := c.code) else OnlySuperseded(o, n)
  {
    AdvanceCases(t, c.id, c.from, c.to, c.code, c.visit);
    if IsApplied(Advance(t, c.id, c.from, c.to, c.code, c.visit)) && c.to.Committed? {
      SettleCommits(t, c.id, c.visit);
      FinishedRows(t.operations, c.id, x);
    }
  }

  lemma AdvanceOpensNone(t: Tables, c: Command, x: OperationId)
    requires c.DoAdvance? && x !in t.operations
    ensures x !in Step(t, c).operations && !IsApplied(Advance(t, x, c.from, c.to, c.code, c.visit))
  {
    AdvanceCases(t, c.id, c.from, c.to, c.code, c.visit);
    AdvanceCases(t, x, c.from, c.to, c.code, c.visit);
  }

  lemma MovesTell(commands: seq<Command>, id: OperationId)
    requires commands != [] && RowTold(commands[..|commands| - 1], id) && commands[|commands| - 1].DoAdvance?
    requires Inv(Run(Empty, commands[..|commands| - 1]))
    ensures RowTold(commands, id)
  {
    var t, c := Run(Empty, commands[..|commands| - 1]), commands[|commands| - 1];
    if id in t.operations { AdvanceRewrites(t, c, id); } else { AdvanceOpensNone(t, c, id); }
  }

  /** What the other requests do to the operation rows. */
  lemma OthersRewrite(t: Tables, c: Command)
    requires !c.DoAdvance?
    ensures Step(t, c).operations ==
      if c.DoPrepare? && IsApplied(Prepare(t, c.id, c.preparation, c.recovery)) then
        t.operations[c.id := Opened(c.preparation, c.recovery)]
      else if c.DoSetTarget? && c.id in t.operations && IsApplied(SetTarget(t, c.id, c.target)) then
        t.operations[c.id := t.operations[c.id].(target := Some(c.target))]
      else t.operations
    ensures c.DoPrepare? && IsApplied(Prepare(t, c.id, c.preparation, c.recovery)) ==> c.id !in t.operations
    ensures c.DoSetTarget? && c.id !in t.operations ==> !IsApplied(SetTarget(t, c.id, c.target))
  {
  }

  lemma PreparationsTell(commands: seq<Command>, id: OperationId)
    requires commands != [] && RowTold(commands[..|commands| - 1], id) && commands[|commands| - 1].DoPrepare?
    ensures RowTold(commands, id)
  {
    OthersRewrite(Run(Empty, commands[..|commands| - 1]), commands[|commands| - 1]);
  }

  lemma OthersTell(commands: seq<Command>, id: OperationId)
    requires commands != [] && RowTold(commands[..|commands| - 1], id)
    requires !commands[|commands| - 1].DoAdvance? && !commands[|commands| - 1].DoPrepare?
    ensures RowTold(commands, id)
  {
    OthersRewrite(Run(Empty, commands[..|commands| - 1]), commands[|commands| - 1]);
  }

  /** In every reachable state an operation row is what its preparation asked for, with the provider's answer
      that was recorded on it if one was, in the phase and with the code of the last applied transition. */
  lemma {:induction false} RowsStandAsAnswered(commands: seq<Command>, id: OperationId)
    ensures RowTold(commands, id)
  {
    if commands != [] {
      var before := commands[..|commands| - 1];
      RowsStandAsAnswered(before, id);
      RunKeepsInv(Empty, before);
      match commands[|commands| - 1]
      case DoAdvance(_, _, _, _, _) => MovesTell(commands, id);
      case DoPrepare(_, _, _) => PreparationsTell(commands, id);
      case _ => OthersTell(commands, id);
    }
  }

  // ------------------------------------------------- account rows and credentials

  datatype Entry =
    | Enrolled(account: AccountId, enabled: bool, provider: ProviderId)
    | Refreshed(account: AccountId, provider: ProviderId)
    | LoggedOut(account: AccountId)
    | Switched(account: AccountId, enabled: bool)
    | Put(account: AccountId, record: Binding)
    | Removed(account: AccountId)

  /** What a request did to the accounts and the credentials, told from its answer. */
  ghost function Entered(t: Tables, c: Command): seq<Entry> {
    match c
    case DoAdvance(id, from, to, code, visit) =>
      if !(IsApplied(Advance(t, id, from, to, code, visit)) && to.Committed? && id in t.operations) then []
      else
        var o := t.operations[id];
        (match o.kind
         case Logout => [LoggedOut(o.account)]
         case Refresh => if o.target.Some? then [Refreshed(o.account, o.target.value.provider)] else []
         case _ =>
           if o.target.Some? && o.enabled.Some? then [Enrolled(o.account, o.enabled.value, o.target.value.provider)] else [])
    case DoSetEnabled(a, revision, enabled) =>
      var tx := SetEnabled(t, a, revision, enabled);
      if tx.Commit? && tx.reply.Updated? then [Switched(a, enabled)] else []
    case DoCreate(a, record) => if CreateCredential(t, a, record).Commit? then [Put(a, record)] else []
    case DoRotate(a, expected, target) => if RotateCredential(t, a, expected, target).Commit? then [Put(a, target)] else []
    case DoDelete(a, expected) => if DeleteCredential(t, a, expected).Commit? then [Removed(a)] else []
    case _ => []
  }

  ghost function Ledger(commands: seq<Command>): seq<Entry> {
    if commands == [] then []
    else
      var before := commands[..|commands| - 1];
      Ledger(before) + Entered(Run(Empty, before), commands[|commands| - 1])
  }

  /** The last enrollment, switch or logout of the account decides whether it is enabled. */
  function LastSwitch(log: seq<Entry>, a: AccountId): Option<bool> {
    if log == [] then None
    else
      match log[|log| - 1]
      case Enrolled(b, enabled, _) => if b == a then Some(enabled) else LastSwitch(log[..|log| - 1], a)
      case Switched(b, enabled) => if b == a then Some(enabled) else LastSwitch(log[..|log| - 1], a)
      case LoggedOut(b) => if b == a then Some(false) else LastSwitch(log[..|log| - 1], a)
      case _ => LastSwitch(log[..|log| - 1], a)
  }

  /** The last enrollment or refresh names the provider identity. */
  function LastProvider(log: seq<Entry>, a: AccountId): Option<ProviderId> {
    if log == [] then None
    else
      match log[|log| - 1]
      case Enrolled(b, _, provider) => if b == a then Some(provider) else LastProvider(log[..|log| - 1], a)
      case Refreshed(b, provider) => if b == a then Some(provider) else LastProvider(log[..|log| - 1], a)
      case _ => LastProvider(log[..|log| - 1], a)
  }

  /** Whether the account was last enrolled or logged out. */
  function LastPresence(log: seq<Entry>, a: AccountId): Option<bool> {
    if log == [] then None
    else
      match log[|log| - 1]
      case Enrolled(b, _, _) => if b == a then Some(true) else LastPresence(log[..|log| - 1], a)
      case LoggedOut(b) => if b == a then Some(false) else LastPresence(log[..|log| - 1], a)
      case _ => LastPresence(log[..|log| - 1], a)
  }

  /** The bundle that was put last and not removed since. */
  function LastBundle(log: seq<Entry>, a: AccountId): Option<Binding> {
    if log == [] then None
    else
      match log[|log| - 1]
      case Put(b, record) => if b == a then Some(record) else LastBundle(log[..|log| - 1], a)
      case Removed(b) => if b == a then None else LastBundle(log[..|log| - 1], a)
      case _ => LastBundle(log[..|log| - 1], a)
  }

  ghost predicate AccountTold(t: Tables, log: seq<Entry>, a: AccountId) {
    && (a in t.accounts <==> LastPresence(log, a).Some?)
    && (a in t.accounts ==>
          && Some(t.accounts[a].enabled) == LastSwitch(log, a)
          && Some(t.accounts[a].provider) == LastProvider(log, a)
          && Some(!t.accounts[a].tombstoned) == LastPresence(log, a))
    && Stored(t, a) == LastBundle(log, a)
  }

  /** The account row that a settled operation leaves. */
  lemma SettledRow(t: Tables, id: OperationId, visit: seq<AccountId>)
    requires id in t.operations && Settle(t, id, visit).Done?
    ensures
      var o, u := t.operations[id], Settle(t, id, visit).tables;
      && o.account in u.accounts
      && match o.kind
         case Refresh =>
           && o.target.Some? && o.account in t.accounts
           && u.accounts[o.account] ==
                t.accounts[o.account].(revision := t.accounts[o.account].revision + 1, provider := o.target.value.provider)
         case Logout =>
           && o.account in t.accounts
           && u.accounts[o.account] ==
                t.accounts[o.account].(enabled := false, revision := t.accounts[o.account].revision + 1, tombstoned := true)
         case _ =>
           && o.target.Some? && o.enabled.Some?
           && u.accounts[o.account] == Account(o.enabled.value, Revision(t, o.account) + 1, o.target.value.provider, false)
  {
  }

  lemma EntryAppended(log: seq<Entry>, e: Entry)
    ensures (log + [e])[..|log + [e]| - 1] == log && (log + [e])[|log + [e]| - 1] == e
  {
  }

  /** What a committing advance enters, and what it leaves of the account rows. */
  lemma CommitEnters(t: Tables, c: Command)
    requires c.DoAdvance?
    ensures Step(t, c).credentials == t.credentials && |Entered(t, c)| <= 1
    ensures Entered(t, c) == [] ==> Step(t, c).accounts == t.accounts
    ensures Entered(t, c) != [] ==>
      var e, u := Entered(t, c)[0], Step(t, c);
      && !e.Switched? && !e.Put? && !e.Removed?
      && e.account in u.accounts && u.accounts == t.accounts[e.account := u.accounts[e.account]]
      && var n := u.accounts[e.account];
         && (e.Enrolled? ==> n.enabled == e.enabled && n.provider == e.provider && !n.tombstoned)
         && (e.Refreshed? ==>
               e.account in t.accounts && n == t.accounts[e.account].(revision := n.revision, provider := e.provider))
         && (e.LoggedOut? ==>
               e.account in t.accounts
               && n == t.accounts[e.account].(revision := n.revision, enabled := false, tombstoned := true))
  {
    AdvanceCases(t, c.id, c.from, c.to, c.code, c.visit);
    if IsApplied(Advance(t, c.id, c.from, c.to, c.code, c.visit)) && c.to.Committed? {
      SettleCommits(t, c.id, c.visit);
      SettledRow(t, c.id, c.visit);
    }
  }

  lemma CommitsAreTold(t: Tables, c: Command, log: seq<Entry>, a: AccountId)
    requires c.DoAdvance? && AccountTold(t, log, a)
    ensures AccountTold(Step(t, c), log + Entered(t, c), a)
  {
    CommitEnters(t, c);
    if Entered(t, c) == [] {
      assert log + Entered(t, c) == log;
    } else {
      assert Entered(t, c) == [Entered(t, c)[0]];
      EntryAppended(log, Entered(t, c)[0]);
    }
  }

  lemma OthersAreTold(t: Tables, c: Command, log: seq<Entry>, a: AccountId)
    requires !c.DoAdvance? && AccountTold(t, log, a)
    ensures AccountTold(Step(t, c), log + Entered(t, c), a)
  {
    if Entered(t, c) == [] {
      assert log + Entered(t, c) == log;
    } else {
      assert Entered(t, c) == [Entered(t, c)[0]];
      EntryAppended(log, Entered(t, c)[0]);
    }
  }

  /** In every reachable state an account exists exactly if it was ever enrolled; it is enabled as its last
      enrollment, switch or logout left it, carries the provider identity of its last enrollment or
      refresh, and is a tombstone exactly if it was logged out since its last enrollment. The stored
      credential is the one last put for it and not removed since. */
  lemma {:induction false} AccountsStandAsAnswered(commands: seq<Command>, a: AccountId)
    ensures AccountTold(Run(Empty, commands), Ledger(commands), a)
  {
    if commands != [] {
      var before, c := commands[..|commands| - 1], commands[|commands| - 1];
      AccountsStandAsAnswered(before, a);
      if c.DoAdvance? { CommitsAreTold(Run(Empty, before), c, Ledger(before), a); }
      else { OthersAreTold(Run(Empty, before), c, Ledger(before), a); }
    }
  }
}

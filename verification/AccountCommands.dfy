/** The account commands under receipts: leases may expire, be stolen and come back late, and still
    the account tables are those of a plain run of the commands that completed. */
module AccountCommands {
  import opened Prelude
  import opened AccountModel
  import opened AccountRuns
  import opened CommandReceipts
  import opened CommandTheorems
  import AccountSafety

  /** An effect is an account command, if any, with the response built from its outcome; building or
      validating the response may fail. */
  datatype AccountEffect = AccountEffect(command: Option<Command>, response: Option<Response>)

  ghost predicate RollsBack(t: Tables, c: Command) {
    match c
    case DoPrepare(id, p, recovery) => Prepare(t, id, p, recovery).Rollback?
    case DoAdvance(id, from, to, code, visit) => Advance(t, id, from, to, code, visit).Rollback?
    case DoSetTarget(id, target) => SetTarget(t, id, target).Rollback?
    case DoSetEnabled(a, revision, enabled) => SetEnabled(t, a, revision, enabled).Rollback?
    case DoSetFixed(routing, a, revision) => SetFixed(t, routing, a, revision).Rollback?
    case DoRoute(routing, a, revision) => RouteFixed(t, routing, a, revision).Rollback?
    case DoBalance(routing) => SetBalanced(t, routing).Rollback?
    case DoReorder(routing, order) => SetOrder(t, routing, order).Rollback?
    case DoCreate(a, record) => CreateCredential(t, a, record).Rollback?
    case DoRotate(a, expected, target) => RotateCredential(t, a, expected, target).Rollback?
    case DoDelete(a, expected) => DeleteCredential(t, a, expected).Rollback?
    case ProcessesChange(_) => false
  }

  ghost function Apply(t: Tables, effect: AccountEffect): Transaction<Tables, Response> {
    if effect.command.Some? && RollsBack(t, effect.command.value) then Rollback(Constraint)
    else if effect.response.None? then Rollback(InvalidInput)
    else Commit(if effect.command.Some? then Step(t, effect.command.value) else t, effect.response.value)
  }

  function CommandsOf(done: seq<Happened<AccountEffect>>): seq<Command> {
    if done == [] then []
    else
      var last := done[|done| - 1];
      CommandsOf(done[..|done| - 1]) + if last.effect.command.Some? then [last.effect.command.value] else []
  }

  /** Every effect that happened went through at its turn. */
  ghost predicate WentThrough(t: Tables, done: seq<Happened<AccountEffect>>) {
    done != [] ==>
      var before := done[..|done| - 1];
      WentThrough(t, before) && Apply(Fold(Apply, t, before), done[|done| - 1].effect).Commit?
  }

  lemma {:induction false} FoldIsRun(t: Tables, done: seq<Happened<AccountEffect>>)
    requires WentThrough(t, done)
    ensures Fold(Apply, t, done) == Run(t, CommandsOf(done))
  {
    if done != [] {
      var before, last := done[..|done| - 1], done[|done| - 1];
      FoldIsRun(t, before);
      var commands := CommandsOf(before);
      if last.effect.command.Some? {
        assert (commands + [last.effect.command.value])[..|commands|] == commands;
      } else {
        assert commands + [] == commands;
      }
    }
  }

  lemma {:induction false} DoneWentThrough(events: seq<Event<AccountEffect>>)
    ensures WentThrough(Empty, Play(Apply, Start(Empty), events).done)
  {
    if events != [] {
      var before := events[..|events| - 1];
      DoneWentThrough(before);
      CommandsHappenOnce(Apply, Empty, before);
      var w := Play(Apply, Start(Empty), before);
      var n := Play(Apply, Start(Empty), events);
      if n.done != w.done {
        Snoc(w.done, n.done[|w.done|]);
      }
    }
  }

  /** Whatever clients do with leases and whatever the clock reads, the account tables are reached by
      running exactly the completed commands, each key's at most once; so every account invariant
      holds in them. */
  lemma LeasedRunsAreCommandRuns(events: seq<Event<AccountEffect>>)
    ensures
      var w := Play(Apply, Start(Empty), events);
      && w.db.store == Run(Empty, CommandsOf(w.done))
      && (forall key :: Completions(w.done, key) <= 1)
      && Inv(w.db.store)
  {
    CommandsHappenOnce(Apply, Empty, events);
    DoneWentThrough(events);
    var w := Play(Apply, Start(Empty), events);
    FoldIsRun(Empty, w.done);
    forall key ensures Completions(w.done, key) <= 1 { assert KeyOk(w, key); }
    AccountSafety.RunKeepsInv(Empty, CommandsOf(w.done));
  }
}

/** Where every config attempt stands, told from the requests alone: who reserved it, what its writer
    reported first, and what the reading found that settled it. */
module ConfigObservations {
  import opened Prelude
  import opened ConfigJournal

  /** The i-th request reserved the attempt. */
  predicate ReservedAt(commands: seq<Command>, id: nat, i: nat) {
    && i < |commands| && commands[i].DoReserve?
    && Reserve(Run(Empty, commands[..i]), commands[i].a, commands[i].owned).Commit?
    && Reserve(Run(Empty, commands[..i]), commands[i].a, commands[i].owned).reply == Some(id)
  }

  /** The i-th request reported the writer's response, and was told that it is retained. */
  predicate ReportedAt(commands: seq<Command>, id: nat, i: nat) {
    && i < |commands| && commands[i].DoFinish? && commands[i].id == id
    && var c := commands[i];
       var tx := Finish(Run(Empty, commands[..i]), c.kind, id, c.attempt, c.state);
       tx.Commit? && tx.reply
  }

  /** The i-th request read the file, and was told that its reading settled the attempt. */
  predicate ReadAt(commands: seq<Command>, id: nat, i: nat) {
    && i < |commands| && commands[i].DoObserve? && commands[i].id == id
    && var c := commands[i];
       Observe(Run(Empty, commands[..i]), c.kind, id, c.o, c.owned, c.dead).reply
  }

  function Reserving(commands: seq<Command>, id: nat): (i: Option<nat>)
    ensures i.Some? ==> i.value < |commands| && commands[i.value].DoReserve?
  {
    if commands == [] then None
    else if ReservedAt(commands, id, |commands| - 1) then Some(|commands| - 1)
    else Reserving(commands[..|commands| - 1], id)
  }

  function Reporting(commands: seq<Command>, id: nat): (i: Option<nat>)
    ensures i.Some? ==> i.value < |commands| && commands[i.value].DoFinish?
  {
    if commands == [] then None
    else if ReportedAt(commands, id, |commands| - 1) then Some(|commands| - 1)
    else Reporting(commands[..|commands| - 1], id)
  }

  function Reading(commands: seq<Command>, id: nat): (i: Option<nat>)
    ensures i.Some? ==> i.value < |commands| && commands[i.value].DoObserve?
  {
    if commands == [] then None
    else if ReadAt(commands, id, |commands| - 1) then Some(|commands| - 1)
    else Reading(commands[..|commands| - 1], id)
  }

  /** What a reading may settle, and how: its own writer found the target under a new version, or the
      writer was proved dead. */
  predicate Settles(a: Attempt, o: Observation, dead: bool) {
    && o.scope == a.scope && o.target == a.target
    && if o.owner.generation == a.owner.generation then o.value == a.value && o.version != a.version else dead
  }

  /** The rows of one attempt against the requests so far. */
  predicate Told(commands: seq<Command>, id: nat) {
    var j := Run(Empty, commands);
    var reserving, reporting, reading := Reserving(commands, id), Reporting(commands, id), Reading(commands, id);
    && (id in j.attempts <==> reserving.Some?)
    && (id in j.attempts ==> j.attempts[id] == commands[reserving.value].a)
    && (id in j.results <==> reporting.Some?)
    && (reporting.Some? ==> j.results[id] == commands[reporting.value].state)
    && (id in j.observations <==> reading.Some?)
    && (reading.Some? ==>
          && id in j.attempts
          && var o := commands[reading.value].o;
             && Settles(j.attempts[id], o, commands[reading.value].dead)
             && j.observations[id] == if o.value == j.attempts[id].value then TargetObserved else Superseded)
  }

  lemma WritersTell(commands: seq<Command>, id: nat)
    requires commands != [] && Told(commands[..|commands| - 1], id) && !commands[|commands| - 1].DoObserve?
    requires Inv(Run(Empty, commands[..|commands| - 1]))
    ensures Told(commands, id)
  {
  }

  lemma ReadersTell(commands: seq<Command>, id: nat)
    requires commands != [] && Told(commands[..|commands| - 1], id) && commands[|commands| - 1].DoObserve?
    ensures Told(commands, id)
  {
    var j, c := Run(Empty, commands[..|commands| - 1]), commands[|commands| - 1];
    LatestIs(j, c.kind, c.o.scope, j.next);
  }

  lemma {:induction false} RowsAreTold(commands: seq<Command>, id: nat)
    ensures Told(commands, id)
  {
    if commands != [] {
      var before := commands[..|commands| - 1];
      RowsAreTold(before, id);
      RunKeepsInv(Empty, before);
      if commands[|commands| - 1].DoObserve? { ReadersTell(commands, id); } else { WritersTell(commands, id); }
    }
  }

  // ----------------------------------------------------------------- theorems

  /** In every reachable state an attempt is what its reservation asked for, and stands as the reading that
      settled it found: the target is observed exactly when that reading found the target's value, and the
      attempt is superseded exactly when it found another value after its writer was proved dead. Without
      such a reading the first retained report stands, and without a report it is only reserved. */
  lemma AttemptsStandAsTold(commands: seq<Command>, id: nat)
    requires id in Run(Empty, commands).attempts
    ensures
      var j := Run(Empty, commands);
      var reserving, reporting, reading := Reserving(commands, id), Reporting(commands, id), Reading(commands, id);
      var a := j.attempts[id];
      && reserving.Some? && commands[reserving.value].a == a
      && (reading.Some? ==> Settles(a, commands[reading.value].o, commands[reading.value].dead))
      && (StateOf(j, id) == TargetObserved <==> reading.Some? && commands[reading.value].o.value == a.value)
      && (StateOf(j, id) == Superseded <==> reading.Some? && commands[reading.value].o.value != a.value)
      && (reading.None? && reporting.Some? ==> StateOf(j, id) == commands[reporting.value].state)
      && (StateOf(j, id) == Reserved <==> reading.None? && reporting.None?)
  {
    RowsAreTold(commands, id);
    RunKeepsInv(Empty, commands);
  }

  /** An edit that was proved lost is never read as applied: a superseded attempt's file held another value
      after its writer had died. */
  lemma SupersededWritersAreDead(commands: seq<Command>, id: nat)
    requires id in Run(Empty, commands).attempts && StateOf(Run(Empty, commands), id) == Superseded
    ensures
      var i := Reading(commands, id);
      var a := Run(Empty, commands).attempts[id];
      && i.Some? && commands[i.value].dead && commands[i.value].o.owner.generation != a.owner.generation
      && commands[i.value].o.value != a.value
  {
    AttemptsStandAsTold(commands, id);
  }

  /** The review had seen the newest attempt of its kind on the file, or that there was none. */
  ghost predicate SawLatest(j: Journal, a: Attempt) {
    match a.previous
    case None => forall x: nat :: !IsAttempt(j, x, a.kind, a.scope)
    case Some(p) => IsAttempt(j, p, a.kind, a.scope) && forall x: nat :: IsAttempt(j, x, a.kind, a.scope) ==> x <= p
  }

  /** An edit is reserved exactly for an owner who asks for something to change, a hook's field to be there, after
      a review of the newest attempt that no edit of the file used before, while none is unresolved. */
  lemma EditsAreReservedExactly(commands: seq<Command>, a: Attempt, owned: bool)
    ensures
      var j, tx := Run(Empty, commands), Reserve(Run(Empty, commands), a, owned);
      tx.Commit? && tx.reply.Some? <==>
        && owned && a.value != a.previousValue && (a.kind.Hook? ==> a.value != None)
        && SawLatest(j, a)
        && forall x :: x in j.attempts && j.attempts[x].scope == a.scope ==>
             StateOf(j, x) != Reserved && StateOf(j, x) != NotKnown && j.attempts[x].token != a.token
  {
    RunKeepsInv(Empty, commands);
    var j := Run(Empty, commands);
    LatestIs(j, a.kind, a.scope, j.next);
    assert forall x: nat :: IsAttempt(j, x, a.kind, a.scope) ==> 0 < x < j.next;
  }

  /** A report is retained exactly when it names the attempt as it was reserved, is one of the four
      responses, and neither a report nor a reading came before it. */
  lemma FirstReportsAreRetained(commands: seq<Command>, kind: Kind, id: nat, attempt: int, state: State)
    ensures
      var tx := Finish(Run(Empty, commands), kind, id, attempt, state);
      var reserving := Reserving(commands, id);
      tx.Commit? && tx.reply <==>
        && (state.Saved? || state.Overridden? || state.Rejected? || state.NotKnown?)
        && reserving.Some? && commands[reserving.value].a.kind == kind && commands[reserving.value].a.attempt == attempt
        && Reporting(commands, id).None? && Reading(commands, id).None?
  {
    RowsAreTold(commands, id);
  }

  /** A reading settles an attempt exactly when it is of the attempt's kind and speaks for it, and the attempt
      had no reading and no report but that the outcome is unknown. */
  lemma ReadingsSettleExactly(commands: seq<Command>, kind: Kind, id: nat, o: Observation, dead: bool)
    ensures
      var reserving, reporting := Reserving(commands, id), Reporting(commands, id);
      Observe(Run(Empty, commands), kind, id, o, true, dead).reply <==>
        && reserving.Some? && commands[reserving.value].a.kind == kind
        && Settles(commands[reserving.value].a, o, dead)
        && Reading(commands, id).None?
        && (reporting.None? || commands[reporting.value].state.NotKnown?)
  {
    RowsAreTold(commands, id);
    RunKeepsInv(Empty, commands);
    ObservationNeverStrands(commands, kind, id, o, dead);
  }
}

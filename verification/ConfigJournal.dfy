/** One writer per native config file: the journal that hook and app settings share. Rows are only
    ever appended; the state of an attempt is read off the rows that follow it. */
module ConfigJournal {
  import opened Prelude

  type Scope = int

  datatype Kind = Hook | App

  datatype Owner = Owner(work: int, thread: int, generation: int, account: int)

  /** `target` names the edited field (hook and field, or connector, link and field); None as a value
      means the field is absent. */
  datatype Attempt = Attempt(
    kind: Kind,
    owner: Owner,
    scope: Scope,
    target: int,
    value: Option<int>,
    previousValue: Option<int>,
    version: int,
    token: int,
    attempt: int,
    previous: Option<nat>)

  datatype State = Reserved | NotKnown | Saved | Overridden | Rejected | TargetObserved | Superseded

  datatype Observation = Observation(owner: Owner, scope: Scope, target: int, value: Option<int>, version: int)

  /** Attempt rows by their event identity, and the result and observation rows that name them. */
  datatype Journal = Journal(
    attempts: map<nat, Attempt>,
    results: map<nat, State>,
    observations: map<nat, State>,
    next: nat)

  predicate Unresolved(s: State) {
    s.Reserved? || s.NotKnown?
  }

  /** The observation decides, else the first result, else the attempt is only reserved. */
  function StateOf(j: Journal, id: nat): State {
    if id in j.observations then j.observations[id]
    else if id in j.results then j.results[id]
    else Reserved
  }

  /** The newest attempt of one kind on a scope, among the rows before `n`. */
  function LatestBelow(j: Journal, kind: Kind, scope: Scope, n: nat): Option<nat> {
    if n == 0 then None
    else if n - 1 in j.attempts && j.attempts[n - 1].kind == kind && j.attempts[n - 1].scope == scope then Some(n - 1)
    else LatestBelow(j, kind, scope, n - 1)
  }

  function Latest(j: Journal, kind: Kind, scope: Scope): Option<nat> {
    LatestBelow(j, kind, scope, j.next)
  }

  /** No attempt of either kind on the scope is unresolved or already used the review. */
  predicate Available(j: Journal, scope: Scope, token: int) {
    forall id :: id in j.attempts && j.attempts[id].scope == scope ==>
      !Unresolved(StateOf(j, id)) && j.attempts[id].token != token
  }

  /** The source identity of an attempt row is its kind with the digest of scope and review. */
  predicate SourceUsed(j: Journal, a: Attempt) {
    exists id :: id in j.attempts && j.attempts[id].kind == a.kind
      && j.attempts[id].scope == a.scope && j.attempts[id].token == a.token
  }

  predicate ValidAttempt(a: Attempt) {
    && (a.kind.Hook? ==> a.value.Some?)
    && a.previousValue != a.value
    && (a.previous.Some? ==> a.previous.value > 0)
  }

  /** Reserve one reviewed edit. None: another writer is outstanding or the review is stale. `owned`
      also covers the pending native request of an app edit. */
  function Reserve(j: Journal, a: Attempt, owned: bool): Transaction<Journal, Option<nat>> {
    if !ValidAttempt(a) then Rollback(InvalidInput)
    else if !owned then Rollback(OwnershipLost)
    else if Latest(j, a.kind, a.scope) != a.previous || !Available(j, a.scope, a.token) then Commit(j, None)
    else if SourceUsed(j, a) then Commit(j, None)
    else Commit(j.(attempts := j.attempts[j.next := a], next := j.next + 1), Some(j.next))
  }

  predicate IsResult(s: State) {
    s.Saved? || s.Overridden? || s.Rejected? || s.NotKnown?
  }

  /** Retain the original response once, unless an observation already settled the attempt. */
  function Finish(j: Journal, kind: Kind, id: nat, attempt: int, state: State): Transaction<Journal, bool> {
    if !IsResult(state) then Rollback(InvalidInput)
    else if || id !in j.attempts || j.attempts[id].kind != kind || j.attempts[id].attempt != attempt
            || id in j.observations || id in j.results then
      Commit(j, false)
    else Commit(j.(results := j.results[id := state], next := j.next + 1), true)
  }

  /** What a config read can tell: the writing process sees its own target under a new version; any
      other process must first prove the writer dead, and then settles it either way. */
  predicate Evidence(a: Attempt, o: Observation, dead: bool) {
    if a.owner.generation == o.owner.generation then o.value == a.value && a.version != o.version
    else dead
  }

  function Verdict(a: Attempt, o: Observation): State {
    if o.value == a.value then TargetObserved else Superseded
  }

  function Observe(j: Journal, kind: Kind, id: nat, o: Observation, owned: bool, dead: bool): Transaction<Journal, bool> {
    if !owned then Commit(j, false)
    else
      match Latest(j, kind, o.scope)
      case None => Commit(j, false)
      case Some(latest) =>
        if latest != id || id !in j.attempts || !Unresolved(StateOf(j, id)) || j.attempts[id].target != o.target then
          Commit(j, false)
        else if !Evidence(j.attempts[id], o, dead) || id in j.observations then Commit(j, false)
        else
          Commit(j.(observations := j.observations[id := Verdict(j.attempts[id], o)], next := j.next + 1), true)
  }

  // --------------------------------------------------------------------- runs

  datatype Command =
    | DoReserve(a: Attempt, owned: bool)
    | DoFinish(kind: Kind, id: nat, attempt: int, state: State)
    | DoObserve(kind: Kind, id: nat, o: Observation, owned: bool, dead: bool)
    | OtherEvent // any other row of the shared event table takes an identity

  function Step(j: Journal, c: Command): Journal {
    match c
    case DoReserve(a, owned) => After(j, Reserve(j, a, owned))
    case DoFinish(kind, id, attempt, state) => After(j, Finish(j, kind, id, attempt, state))
    case DoObserve(kind, id, o, owned, dead) => After(j, Observe(j, kind, id, o, owned, dead))
    case OtherEvent => j.(next := j.next + 1)
  }

  const Empty: Journal := Journal(map[], map[], map[], 1)

  function Run(j: Journal, commands: seq<Command>): Journal {
    if commands == [] then j
    else Step(Run(j, commands[..|commands| - 1]), commands[|commands| - 1])
  }

  // ---------------------------------------------------------------- invariant

  ghost predicate RowsOk(j: Journal) {
    && j.next > 0
    && (forall id :: id in j.attempts ==> 0 < id < j.next)
    && (forall id :: id in j.results ==> id in j.attempts && IsResult(j.results[id]))
    && (forall id :: id in j.observations ==> id in j.attempts && !Unresolved(j.observations[id]))
  }

  predicate SameFile(j: Journal, x: nat, y: nat) {
    x in j.attempts && y in j.attempts && j.attempts[x].scope == j.attempts[y].scope
  }

  /** An unresolved attempt is newer than every other attempt on its scope. */
  ghost predicate OneWriter(j: Journal) {
    forall x, y :: SameFile(j, x, y) && Unresolved(StateOf(j, x)) ==> y <= x
  }

  ghost predicate TokensOnce(j: Journal) {
    forall x, y :: SameFile(j, x, y) && x != y ==> j.attempts[x].token != j.attempts[y].token
  }

  ghost predicate Inv(j: Journal) {
    RowsOk(j) && OneWriter(j) && TokensOnce(j)
  }

  /** Attempts are never rewritten, and what is resolved stays resolved as it is. */
  ghost predicate Grows(j: Journal, k: Journal) {
    forall id :: id in j.attempts ==>
      && id in k.attempts && k.attempts[id] == j.attempts[id]
      && (!Unresolved(StateOf(j, id)) ==> StateOf(k, id) == StateOf(j, id))
  }

  lemma ReserveKeepsInv(j: Journal, a: Attempt, owned: bool)
    requires Inv(j)
    ensures Inv(After(j, Reserve(j, a, owned))) && Grows(j, After(j, Reserve(j, a, owned)))
  {
    var k := After(j, Reserve(j, a, owned));
    if k != j {
      assert StateOf(k, j.next) == Reserved;
      forall x, y | SameFile(k, x, y) && Unresolved(StateOf(k, x)) ensures y <= x {
        if x != j.next && y != j.next { assert SameFile(j, x, y); }
      }
      forall x, y | SameFile(k, x, y) && x != y ensures k.attempts[x].token != k.attempts[y].token {
        if x != j.next && y != j.next { assert SameFile(j, x, y); }
      }
    }
  }

  /** Rows that name an existing attempt can only resolve it. */
  lemma ResolvingKeepsInv(j: Journal, k: Journal)
    requires Inv(j) && RowsOk(k) && k.attempts == j.attempts
    requires forall id :: id in j.attempts ==> StateOf(k, id) == StateOf(j, id) || Unresolved(StateOf(j, id))
    ensures Inv(k) && Grows(j, k)
  {
    forall x, y | SameFile(k, x, y) && Unresolved(StateOf(k, x)) ensures y <= x { assert SameFile(j, x, y); }
    forall x, y | SameFile(k, x, y) && x != y ensures k.attempts[x].token != k.attempts[y].token {
      assert SameFile(j, x, y);
    }
  }

  lemma StepKeepsInv(j: Journal, c: Command)
    requires Inv(j)
    ensures Inv(Step(j, c)) && Grows(j, Step(j, c))
  {
    match c
    case DoReserve(a, owned) => ReserveKeepsInv(j, a, owned);
    case _ => ResolvingKeepsInv(j, Step(j, c));
  }

  lemma {:induction false} RunKeepsInv(j: Journal, commands: seq<Command>)
    requires Inv(j)
    ensures Inv(Run(j, commands)) && Grows(j, Run(j, commands))
  {
    if commands != [] {
      var before := commands[..|commands| - 1];
      RunKeepsInv(j, before);
      StepKeepsInv(Run(j, before), commands[|commands| - 1]);
    }
  }

  predicate IsAttempt(j: Journal, id: nat, kind: Kind, scope: Scope) {
    id in j.attempts && j.attempts[id].kind == kind && j.attempts[id].scope == scope
  }

  lemma {:induction false} LatestIs(j: Journal, kind: Kind, scope: Scope, n: nat)
    ensures
      match LatestBelow(j, kind, scope, n)
      case None => forall id: nat :: IsAttempt(j, id, kind, scope) ==> id >= n
      case Some(id) =>
        && id < n && IsAttempt(j, id, kind, scope)
        && forall other: nat :: IsAttempt(j, other, kind, scope) && other < n ==> other <= id
  {
    if n > 0 { LatestIs(j, kind, scope, n - 1); }
  }

  // ----------------------------------------------------------------- theorems

  /** At every moment each config file has at most one unresolved attempt among hooks and apps
      together, it is the newest attempt on that file, and no review is used twice on it. */
  lemma OneWriterPerFile(commands: seq<Command>, x: nat, y: nat)
    requires
      var j := Run(Empty, commands);
      x in j.attempts && y in j.attempts && x != y && j.attempts[x].scope == j.attempts[y].scope
    ensures
      var j := Run(Empty, commands);
      && (Unresolved(StateOf(j, x)) ==> y < x && !Unresolved(StateOf(j, y)))
      && j.attempts[x].token != j.attempts[y].token
  {
    RunKeepsInv(Empty, commands);
    assert SameFile(Run(Empty, commands), x, y) && SameFile(Run(Empty, commands), y, x);
  }

  /** A resolved attempt keeps its state on every later run. */
  lemma ResolvedForGood(commands: seq<Command>, later: seq<Command>, id: nat)
    requires id in Run(Empty, commands).attempts && !Unresolved(StateOf(Run(Empty, commands), id))
    ensures
      var j, k := Run(Empty, commands), Run(Run(Empty, commands), later);
      id in k.attempts && k.attempts[id] == j.attempts[id] && StateOf(k, id) == StateOf(j, id)
  {
    RunKeepsInv(Empty, commands);
    RunKeepsInv(Run(Empty, commands), later);
  }

  /** Observing settles an attempt exactly when it is an unresolved attempt on that target and the
      evidence suffices: looking only at the latest attempt of a kind never strands one. */
  lemma ObservationNeverStrands(commands: seq<Command>, kind: Kind, id: nat, o: Observation, dead: bool)
    ensures
      var j := Run(Empty, commands);
      Observe(j, kind, id, o, true, dead).reply <==>
        && id in j.attempts && j.attempts[id].kind == kind && j.attempts[id].scope == o.scope
        && j.attempts[id].target == o.target && Unresolved(StateOf(j, id)) && Evidence(j.attempts[id], o, dead)
  {
    RunKeepsInv(Empty, commands);
    var j := Run(Empty, commands);
    LatestIs(j, kind, o.scope, j.next);
    if id in j.attempts && Latest(j, kind, o.scope).Some? && j.attempts[id].scope == o.scope {
      assert SameFile(j, id, Latest(j, kind, o.scope).value);
    }
    assert IsAttempt(j, id, kind, o.scope) <==> id in j.attempts && j.attempts[id].kind == kind && j.attempts[id].scope == o.scope;
  }

  /** A reviewed edit is reserved exactly when nothing on its file is unresolved, its review is new
      there, and the review had seen the latest attempt of its kind; the row is then never ignored. */
  lemma ReservedExactly(j: Journal, a: Attempt)
    requires Inv(j) && ValidAttempt(a)
    ensures
      Reserve(j, a, true).reply.Some? <==>
        && (forall id :: id in j.attempts && j.attempts[id].scope == a.scope ==>
              !Unresolved(StateOf(j, id)) && j.attempts[id].token != a.token)
        && Latest(j, a.kind, a.scope) == a.previous
  {
  }

  /** An attempt of a dead process can always be settled, by whoever owns the file's next reader, and
      the file is then open for a new review. */
  lemma DeadWritersReleaseTheFile(commands: seq<Command>, id: nat, o: Observation, token: int)
    requires
      var j := Run(Empty, commands);
      && id in j.attempts && Unresolved(StateOf(j, id))
      && o.scope == j.attempts[id].scope && o.target == j.attempts[id].target
      && o.owner.generation != j.attempts[id].owner.generation
      && (forall x :: x in j.attempts && j.attempts[x].scope == o.scope ==> j.attempts[x].token != token)
    ensures
      var j := Run(Empty, commands);
      var tx := Observe(j, j.attempts[id].kind, id, o, true, true);
      tx.reply && Available(tx.state, o.scope, token)
  {
    RunKeepsInv(Empty, commands);
    var j := Run(Empty, commands);
    ObservationNeverStrands(commands, j.attempts[id].kind, id, o, true);
    var k := Observe(j, j.attempts[id].kind, id, o, true, true).state;
    forall x | x in k.attempts && k.attempts[x].scope == o.scope
      ensures !Unresolved(StateOf(k, x)) && k.attempts[x].token != token
    {
      if x != id { assert StateOf(k, x) == StateOf(j, x) && SameFile(j, id, x) && SameFile(j, x, id); }
    }
  }

  // ---------------------------------------------------------- the journal in place

  class JournalStore {
    var attempts: map<nat, Attempt>
    var results: map<nat, State>
    var observations: map<nat, State>
    var next: nat

    constructor ()
      ensures Snapshot() == Empty
    {
      attempts, results, observations, next := map[], map[], map[], 1;
    }

    function Snapshot(): Journal
      reads this
    {
      Journal(attempts, results, observations, next)
    }

    /** ORDER BY identity, newest first; LIMIT 1. */
    method LatestAttempt(kind: Kind, scope: Scope) returns (latest: Option<nat>)
      ensures latest == Latest(Snapshot(), kind, scope)
    {
      var n := next;
      while n > 0
        invariant Latest(Snapshot(), kind, scope) == LatestBelow(Snapshot(), kind, scope, n)
      {
        n := n - 1;
        if n in attempts && attempts[n].kind == kind && attempts[n].scope == scope { return Some(n); }
      }
      return None;
    }

    method ReserveSetting(a: Attempt, owned: bool) returns (answer: Result<Option<nat>>)
      modifies this`attempts, this`next
      ensures Snapshot() == After(old(Snapshot()), Reserve(old(Snapshot()), a, owned))
      ensures answer == Answer(Reserve(old(Snapshot()), a, owned))
    {
      if a.kind.Hook? && a.value.None? { return Err(InvalidInput); }
      if a.previousValue == a.value || (a.previous.Some? && a.previous.value == 0) { return Err(InvalidInput); }
      if !owned { return Err(OwnershipLost); }
      var latest := LatestAttempt(a.kind, a.scope);
      if latest != a.previous || !Available(Snapshot(), a.scope, a.token) { return Ok(None); }
      if SourceUsed(Snapshot(), a) { return Ok(None); }
      var id := next;
      attempts := attempts[id := a];
      next := next + 1;
      return Ok(Some(id));
    }

    method FinishSetting(kind: Kind, id: nat, attempt: int, state: State) returns (answer: Result<bool>)
      modifies this`results, this`next
      ensures Snapshot() == After(old(Snapshot()), Finish(old(Snapshot()), kind, id, attempt, state))
      ensures answer == Answer(Finish(old(Snapshot()), kind, id, attempt, state))
    {
      if !IsResult(state) { return Err(InvalidInput); }
      if id !in attempts || attempts[id].kind != kind || attempts[id].attempt != attempt { return Ok(false); }
      if id in observations || id in results { return Ok(false); }
      results := results[id := state];
      next := next + 1;
      return Ok(true);
    }

    method ObserveSetting(kind: Kind, id: nat, o: Observation, owned: bool, dead: bool) returns (answer: Result<bool>)
      modifies this`observations, this`next
      ensures Snapshot() == After(old(Snapshot()), Observe(old(Snapshot()), kind, id, o, owned, dead))
      ensures answer == Answer(Observe(old(Snapshot()), kind, id, o, owned, dead))
    {
      if !owned { return Ok(false); }
      var latest := LatestAttempt(kind, o.scope);
      if latest != Some(id) || id !in attempts { return Ok(false); }
      var a := attempts[id];
      if !Unresolved(StateOf(Snapshot(), id)) || a.target != o.target { return Ok(false); }
      var same := a.owner.generation == o.owner.generation;
      var matches := o.value == a.value;
      if same && (!matches || a.version == o.version) { return Ok(false); }
      if !same && !dead { return Ok(false); }
      if id in observations { return Ok(false); }
      observations := observations[id := if matches then TargetObserved else Superseded];
      next := next + 1;
      return Ok(true);
    }
  }
}

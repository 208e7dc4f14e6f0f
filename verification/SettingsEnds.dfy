/** When a pending selection or edit can still come to an end, and runs in which it cannot. */
module SettingsEnds {
  import opened Prelude
  import opened SettingsModel
  import opened SettingsTheorems

  /** The attempt's work has moved to another thread. */
  predicate LeftBehind(b: Book, i: nat) {
    IsAttempt(b.rows, i) && OwnerAt(b.rows, i).work in b.bound
      && b.bound[OwnerAt(b.rows, i).work] != OwnerAt(b.rows, i).thread
  }

  /** The attempt was made without a process, and since one was admitted nobody may answer for it; only an
      applied edit can still hand its draft back. */
  predicate Orphaned(b: Book, i: nat) {
    && IsAttempt(b.rows, i) && OwnerAt(b.rows, i).generation.None? && b.admitted
    && !(b.rows[i].Editing? && Applied(b.rows, i))
  }

  predicate Stuck(b: Book, i: nat) {
    LeftBehind(b, i) || Orphaned(b, i)
  }

  /** What could still end the attempt: its own refusal, or that its work moves again, which is of no use
      to an orphaned one. */
  predicate Frees(b: Book, c: Command, i: nat)
    requires IsAttempt(b.rows, i)
  {
    || (c.DoFinish? && c.i == i && c.answer.Refused?)
    || (c.DoRebind? && c.work == OwnerAt(b.rows, i).work && !Orphaned(b, i))
  }

  lemma ObservingLeavesStuck(b: Book, kind: Kind, source: Owner, event: nat, settings: Option<Settings>, env: Env, i: nat)
    requires Inv(b) && Stuck(b, i) && Pending(b.rows, i) && event <= |b.rows|
    ensures Pending(Observe(b, kind, source, event, settings, env), i)
  {
    UnsettledIs(b.rows, kind, source.work, source.thread, event);
    var after := Observe(b, kind, source, event, settings, env);
    if after != b.rows { PendingThrough(b.rows, after[|b.rows|..], i); }
  }

  lemma RecordingLeavesPending(b: Book, c: Command, i: nat)
    requires Inv(b) && Stuck(b, i) && Pending(b.rows, i) && c.DoRecord?
    ensures Pending(Step(b, c).rows, i)
  {
    var row := Observed(c.kind, c.source, c.settings, c.digest);
    var noted := b.(rows := b.rows + [row]);
    NoteKeepsInv(b, row);
    PendingThrough(b.rows, [row], i);
    PendingShrinks(b.rows, [row], i);
    assert Orphaned(b, i) ==> Orphaned(noted, i);
    ObservingLeavesStuck(noted, c.kind, c.source, |b.rows|, c.settings, c.env, i);
    LatestIs(b.rows, c.kind, c.source, |b.rows|);
    var previous := Latest(b.rows, c.kind, c.source);
    if previous.Some? { ObservingLeavesStuck(b, c.kind, c.source, previous.value, c.settings, c.env, i); }
  }

  lemma StepLeavesPending(b: Book, c: Command, i: nat)
    requires Inv(b) && Stuck(b, i) && Pending(b.rows, i) && !Frees(b, c, i)
    ensures Pending(Step(b, c).rows, i)
  {
    if c.DoRecord? {
      RecordingLeavesPending(b, c, i);
    } else {
      var u := Step(b, c);
      StepKeepsInv(b, c);
      var more := u.rows[|b.rows|..];
      assert u.rows == b.rows + more;
      forall r | 0 <= r < |more| ensures !SettlesRow(more[r], i) {
        assert more[r] == u.rows[|b.rows| + r];
      }
      PendingThrough(b.rows, more, i);
    }
  }

  lemma OrphansAreNotApplied(b: Book, c: Command, i: nat)
    requires Orphaned(b, i) && Inv(b)
    ensures b.admitted ==> Step(b, c).admitted
    ensures IsAttempt(Step(b, c).rows, i) && (b.rows[i].Editing? ==> !Applied(Step(b, c).rows, i))
  {
    var u := Step(b, c);
    StepKeepsInv(b, c);
    forall r | 0 <= r < |u.rows| && b.rows[i].Editing? ensures u.rows[r] != EditSeen(i) {
      if r < |b.rows| { assert u.rows[r] == b.rows[r]; }
    }
  }

  lemma StepLeavesStuck(b: Book, c: Command, i: nat)
    requires Inv(b) && Stuck(b, i) && !Frees(b, c, i)
    ensures IsAttempt(Step(b, c).rows, i) && OwnerAt(Step(b, c).rows, i) == OwnerAt(b.rows, i)
    ensures Orphaned(b, i) ==> Orphaned(Step(b, c), i)
    ensures !Orphaned(b, i) ==> LeftBehind(Step(b, c), i)
  {
    StepKeepsInv(b, c);
    assert Step(b, c).rows[i] == b.rows[i];
    if Orphaned(b, i) { OrphansAreNotApplied(b, c, i); }
  }

  /** A stuck attempt stays pending over every run, and blocks every later one of its work, whatever is
      published or observed, until it is refused or its work, having left the thread, moves again. */
  lemma {:induction false} StuckAttemptsStayPending(b: Book, commands: seq<Command>, i: nat)
    requires Inv(b) && Stuck(b, i) && Pending(b.rows, i)
    requires forall c :: c in commands ==> !Frees(b, c, i)
    ensures
      var n := Run(b, commands);
      && Pending(n.rows, i) && OwnerAt(n.rows, i) == OwnerAt(b.rows, i)
      && (if Orphaned(b, i) then Orphaned(n, i) else LeftBehind(n, i))
      && PendingFor(n.rows, OwnerAt(b.rows, i).work)
  {
    if commands != [] {
      var before, c := commands[..|commands| - 1], commands[|commands| - 1];
      StuckAttemptsStayPending(b, before, i);
      RunKeepsInv(b, before);
      var m := Run(b, before);
      assert !Frees(b, c, i);
      StepLeavesPending(m, c, i);
      StepLeavesStuck(m, c, i);
    }
  }

  // ---------------------------------------------------------------- the other half

  /** The settings that a selection asks for. */
  function Target(a: Attempt): Settings {
    match a
    case ModelAttempt(_, _, _, model, provider, effort, recovery, _) =>
      ModelSettings(model, provider, effort, if recovery.Some? then recovery.value.tier else None)
    case PermissionAttempt(_, _, _, profile, mode) =>
      PermissionSettings(Some(profile), mode.GetOr(Mode(0, 0)).approval, mode.GetOr(Mode(0, 0)).reviewer)
  }

  /** The attempt's process died, and the account it was reviewed under has moved on. */
  const Succession: Env := Env(true, false, false, true, true)

  /** Who may answer for an attempt that is not stuck: a successor of its process, or, as long as no process
      was admitted, a caller without one. */
  function Answerer(o: Owner): Owner {
    if o.generation.Some? then o.(generation := Some(o.generation.value + 1)) else o
  }

  /** That caller ends a selection by a first publication of its target settings, and an edit by an
      unchanged history, by its rejection, or by handing back its draft. */
  lemma AnswererEnds(b: Book, i: nat) returns (c: Command)
    requires Inv(b) && Pending(b.rows, i) && !Stuck(b, i)
    requires OwnerAt(b.rows, i).generation.Some? ==> b.admitted
    ensures !Frees(b, c, i) && !Pending(Step(b, c).rows, i)
  {
    assert RowOk(b.rows, i);
    if b.rows[i].Selected? {
      var a := b.rows[i].attempt;
      var source := Answerer(a.owner);
      var previous := Latest(b.rows, KindOf(a), source);
      var digest := if previous.Some? && previous.value < |b.rows| && b.rows[previous.value].Observed?
                       && b.rows[previous.value].digest == 0 then 1 else 0;
      PublicationSettlesExactly(b, i, source, Target(a), digest, Succession);
      c := DoRecord(KindOf(a), source, Some(Target(a)), digest, true, Succession);
    } else {
      var e := b.rows[i].edit;
      var generation := Answerer(e.owner).generation;
      c := if Applied(b.rows, i) then DoReleaseDraft(i, if b.admitted then Some(0) else None, Succession)
           else if generation.Some? then DoObserveEdit(i, generation, e.turns, Succession)
           else DoRejectEdit(i, e, Succession);
      var after := Step(b, c).rows;
      assert after == b.rows + [EditReleased(i)];
      assert after[|b.rows|] == EditReleased(i);
    }
  }

  /** Some continuation ends the attempt, without refusing it and without moving its work to free it. */
  ghost predicate CanEnd(b: Book, i: nat)
    requires IsAttempt(b.rows, i)
  {
    exists commands :: (forall c :: c in commands ==> !Frees(b, c, i)) && !Pending(Run(b, commands).rows, i)
  }

  /** A pending selection or edit can still come to an end exactly when its work is on its thread and, in
      addition, it was made by a process, or none was ever admitted, or it is an applied edit. */
  lemma EndsExactlyUnlessStuck(b: Book, i: nat)
    requires Inv(b) && Pending(b.rows, i)
    ensures CanEnd(b, i) <==>
      && !LeftBehind(b, i)
      && (OwnerAt(b.rows, i).generation.Some? || !b.admitted || (b.rows[i].Editing? && Applied(b.rows, i)))
  {
    if Stuck(b, i) {
      forall commands | forall c :: c in commands ==> !Frees(b, c, i) ensures Pending(Run(b, commands).rows, i) {
        StuckAttemptsStayPending(b, commands, i);
      }
    } else if OwnerAt(b.rows, i).generation.Some? {
      assert [DoAdmit][..0] == [];
      assert Run(b, [DoAdmit]) == Admit(b);
      var c := AnswererEnds(Admit(b), i);
      assert [DoAdmit, c][..1] == [DoAdmit];
      assert Run(b, [DoAdmit, c]) == Step(Admit(b), c);
    } else {
      var c := AnswererEnds(b, i);
      assert [c][..0] == [];
      assert Run(b, [c]) == Step(b, c);
    }
  }

  // ------------------------------------------------------ attempts that stay pending

  const Reviewed: Settings := PermissionSettings(Some(4), 5, 6)
  const AllClear: Env := Env(true, true, true, true, false)

  function Someone(generation: Option<int>): Owner {
    Owner(1, 2, generation)
  }

  function Already(generation: Option<int>): Attempt {
    PermissionAttempt(Someone(generation), 0, 7, 4, Some(Mode(5, 6)))
  }

  function Publishing(generation: Option<int>): Command {
    DoRecord(Permissions, Someone(generation), Some(Reviewed), 8, true, AllClear)
  }

  /** Bind a thread, admit a process if one is to act, publish the permissions, and select exactly those
      permissions with a mode. */
  function Choosing(generation: Option<int>): seq<Command> {
    [DoBind(1, 2), if generation.Some? then DoAdmit else DoBind(1, 2), Publishing(generation),
     DoReserve(Already(generation), AllClear)]
  }

  function Chosen(generation: Option<int>): Book {
    Book([Observed(Permissions, Someone(generation), Some(Reviewed), 8), Selected(Already(generation))], map[1 := 2],
         generation.Some?)
  }

  lemma Continues(b: Book, commands: seq<Command>, c: Command)
    ensures Run(b, commands + [c]) == Step(Run(b, commands), c)
  {
    assert (commands + [c])[..|commands + [c]| - 1] == commands;
  }

  lemma ChoiceIsReached(generation: Option<int>)
    ensures Run(Empty, Choosing(generation)) == Chosen(generation)
  {
    var c := Choosing(generation);
    var bound := Book([], map[1 := 2], generation.Some?);
    Continues(Empty, [], c[0]);
    Continues(Empty, [c[0]], c[1]);
    assert Run(Empty, [c[0], c[1]]) == bound by { assert [] + [c[0]] == [c[0]]; assert [c[0]] + [c[1]] == [c[0], c[1]]; }
    Continues(Empty, [c[0], c[1]], c[2]);
    var seen := bound.(rows := [Observed(Permissions, Someone(generation), Some(Reviewed), 8)]);
    assert Run(Empty, [c[0], c[1], c[2]]) == seen by { assert [c[0], c[1]] + [c[2]] == [c[0], c[1], c[2]]; }
    assert Latest(seen.rows, Permissions, Someone(generation)) == Some(0);
    Continues(Empty, [c[0], c[1], c[2]], c[3]);
    assert [c[0], c[1], c[2]] + [c[3]] == c;
    assert seen.rows + [Selected(Already(generation))] == Chosen(generation).rows;
  }

  /** Publishing the same permissions again leaves the selection pending: it is not a new revision. */
  lemma RepeatLeavesPending()
    ensures
      var b := Run(Empty, Choosing(Some(3)) + [Publishing(Some(3))]);
      1 < |b.rows| && b.rows[1] == Selected(Already(Some(3))) && Shows(Reviewed, Already(Some(3))) && Pending(b.rows, 1)
  {
    var chosen := Chosen(Some(3));
    ChoiceIsReached(Some(3));
    Continues(Empty, Choosing(Some(3)), Publishing(Some(3)));
    assert Latest(chosen.rows, Permissions, Someone(Some(3))) == LatestBefore(chosen.rows, Permissions, Someone(Some(3)), 1) == Some(0);
    assert UnsettledBefore(chosen.rows, Permissions, 1, 2, 0) == None;
    assert Step(chosen, Publishing(Some(3))) == chosen;
  }

  /** Activating a context in another thread leaves the selection behind. */
  lemma ActivationLeavesAttempts()
    ensures
      var b := Run(Empty, Choosing(Some(3)) + [DoRebind(1, 2, 9, AllClear)]);
      Pending(b.rows, 1) && LeftBehind(b, 1) && !Orphaned(b, 1)
  {
    ChoiceIsReached(Some(3));
    Continues(Empty, Choosing(Some(3)), DoRebind(1, 2, 9, AllClear));
  }

  /** Admitting the first process orphans a selection that was made without one, on its own thread. */
  lemma AdmissionOrphansAttempts()
    ensures
      var b := Run(Empty, Choosing(None) + [DoAdmit]);
      Pending(b.rows, 1) && Orphaned(b, 1) && !LeftBehind(b, 1)
  {
    ChoiceIsReached(None);
    Continues(Empty, Choosing(None), DoAdmit);
  }
}

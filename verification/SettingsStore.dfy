/** The settings journal as the database holds it: one growing list of rows and the thread bindings,
    each transaction proved against the one of the same name in SettingsModel. */
module SettingsStore {
  import opened Prelude
  import M = SettingsModel
  import opened SettingsModel

  class Store {
    var rows: seq<Row>
    var bound: map<WorkId, ThreadId>
    var admitted: bool

    constructor ()
      ensures Snapshot() == Book([], map[], false)
    {
      rows, bound, admitted := [], map[], false;
    }

    function Snapshot(): Book
      reads this
    {
      Book(rows, bound, admitted)
    }

    /** ORDER BY identity, newest first; LIMIT 1. */
    method LatestRevision(kind: Kind, source: Owner) returns (latest: Option<nat>)
      ensures latest == Latest(rows, kind, source)
    {
      var n := |rows|;
      while n > 0
        invariant 0 <= n <= |rows| && Latest(rows, kind, source) == LatestBefore(rows, kind, source, n)
      {
        n := n - 1;
        if rows[n].Observed? && rows[n].kind == kind && rows[n].source == source { return Some(n); }
      }
      return None;
    }

    method NewestUnsettled(kind: Kind, work: WorkId, thread: ThreadId, before: nat) returns (found: Option<nat>)
      requires before <= |rows|
      ensures found == UnsettledBefore(rows, kind, work, thread, before)
    {
      var n := before;
      while n > 0
        invariant 0 <= n <= before
        invariant UnsettledBefore(rows, kind, work, thread, before) == UnsettledBefore(rows, kind, work, thread, n)
      {
        n := n - 1;
        if rows[n].Selected? && KindOf(rows[n].attempt) == kind && rows[n].attempt.owner.work == work
           && rows[n].attempt.owner.thread == thread && !Settled(rows, n) { return Some(n); }
      }
      return None;
    }

    method ObserveSelection(kind: Kind, source: Owner, observation: nat, settings: Option<Settings>, env: Env)
      requires observation <= |rows|
      modifies this`rows
      ensures rows == Observe(old(Snapshot()), kind, source, observation, settings, env)
    {
      if settings.None? || !Readable(kind, settings.value) || !Owns(Snapshot(), source.generation, env) { return; }
      if kind.Models? && source.generation.Some? && !env.active { return; }
      if source.work !in bound || bound[source.work] != source.thread { return; }
      var found := NewestUnsettled(kind, source.work, source.thread, observation);
      if found.None? || found.value >= |rows| || !rows[found.value].Selected? { return; }
      var a := rows[found.value].attempt;
      var matches := Meets(a, settings.value);
      if a.owner.generation == source.generation {
        if (BoundToAccount(a) && !env.current) || !matches { return; }
        rows := rows + [Seen(found.value, observation, TargetObserved)];
      } else {
        if a.owner.generation.None? || source.generation.None? || !env.dead { return; }
        var verdict := if matches && !BoundToAccount(a) then TargetObserved else Superseded;
        rows := rows + [Seen(found.value, observation, verdict)];
      }
    }

    method RecordSettings(kind: Kind, source: Owner, settings: Option<Settings>, digest: int, publication: bool, env: Env)
      returns (revision: Option<nat>)
      modifies this`rows
      ensures Commit(Snapshot(), revision) == Record(old(Snapshot()), kind, source, settings, digest, publication, env)
    {
      if source.work !in bound || bound[source.work] != source.thread || !Owns(Snapshot(), source.generation, env) { return None; }
      var previous := LatestRevision(kind, source);
      if previous.None? && settings.None? { return None; }
      var row := Observed(kind, source, settings, digest);
      if previous.Some? && previous.value < |rows| && rows[previous.value] == row {
        if publication { ObserveSelection(kind, source, previous.value, settings, env); }
        return previous;
      }
      var id := |rows|;
      rows := rows + [row];
      if publication { ObserveSelection(kind, source, id, settings, env); }
      return Some(id);
    }

    method ReserveSelection(a: Attempt, env: Env) returns (answer: Result<Option<nat>>)
      modifies this`rows
      ensures Snapshot() == After(old(Snapshot()), M.ReserveSelection(old(Snapshot()), a, env))
      ensures answer == Answer(M.ReserveSelection(old(Snapshot()), a, env))
    {
      var o := a.owner;
      if BoundToAccount(a) && o.generation.None? { return Err(InvalidInput); }
      if !Owns(Snapshot(), o.generation, env) || PendingFor(rows, o.work) { return Ok(None); }
      if o.work !in bound || bound[o.work] != o.thread || !env.eligible { return Ok(None); }
      if BoundToAccount(a) && !env.current { return Ok(None); }
      var latest := LatestRevision(KindOf(a), o);
      if latest != Some(a.settingsEvent) || a.settingsEvent >= |rows| { return Ok(None); }
      var reviewed := rows[a.settingsEvent];
      if !reviewed.Observed? || reviewed.settings.None? || !WorthChanging(a, reviewed.settings.value) { return Ok(None); }
      if KeyUsed(rows, a) { return Ok(None); }
      var id := |rows|;
      rows := rows + [Selected(a)];
      return Ok(Some(id));
    }

    method FinishSelection(i: nat, a: Attempt, answer: Outcome) returns (recorded: bool)
      modifies this`rows
      ensures Commit(Snapshot(), recorded) == M.FinishSelection(old(Snapshot()), i, a, answer)
    {
      if i >= |rows| || rows[i] != Selected(a) { return false; }
      if exists r :: 0 <= r < |rows| && rows[r].Answered? && rows[r].reservation == i { return false; }
      rows := rows + [Answered(i, answer)];
      return true;
    }

    method ReserveEdit(e: Edit, env: Env) returns (answer: Result<Option<nat>>)
      modifies this`rows
      ensures Snapshot() == After(old(Snapshot()), M.ReserveEdit(old(Snapshot()), e, env))
      ensures answer == Answer(M.ReserveEdit(old(Snapshot()), e, env))
    {
      if e.before !in e.turns { return Err(InvalidInput); }
      if !OwnsEdit(Snapshot(), e, e.owner.generation, env) || PendingFor(rows, e.owner.work) || !env.eligible { return Ok(None); }
      if EditKeyUsed(rows, e) { return Ok(None); }
      var id := |rows|;
      rows := rows + [Editing(e)];
      return Ok(Some(id));
    }

    method RejectEdit(i: nat, e: Edit, env: Env) returns (released: bool)
      modifies this`rows
      ensures Commit(Snapshot(), released) == M.RejectEdit(old(Snapshot()), i, e, env)
    {
      if !OwnsEdit(Snapshot(), e, e.owner.generation, env) || !EditReserved(rows, i) || rows[i].edit != e { return false; }
      rows := rows + [EditReleased(i)];
      return true;
    }

    method ObserveEdit(i: nat, generation: Option<int>, turns: seq<int>, env: Env) returns (answer: Result<bool>)
      modifies this`rows
      ensures Snapshot() == After(old(Snapshot()), M.ObserveEdit(old(Snapshot()), i, generation, turns, env))
      ensures answer == Answer(M.ObserveEdit(old(Snapshot()), i, generation, turns, env))
    {
      if !EditReserved(rows, i) { return Ok(false); }
      var e := rows[i].edit;
      if !OwnsEdit(Snapshot(), e, generation, env) { return Ok(false); }
      var same := e.owner.generation == generation;
      if !same && (e.owner.generation.None? || generation.None? || !env.dead) { return Ok(false); }
      var boundary := Position(e.turns, e.before);
      if boundary.None? { return Err(InvalidInput); }
      if turns == e.turns[..boundary.value] {
        rows := rows + [EditSeen(i)];
        return Ok(true);
      }
      if !same && turns == e.turns {
        rows := rows + [EditReleased(i)];
        return Ok(true);
      }
      return Ok(false);
    }

    method ReleaseDraft(i: nat, generation: Option<int>, env: Env) returns (released: bool)
      modifies this`rows
      ensures Commit(Snapshot(), released) == M.ReleaseDraft(old(Snapshot()), i, generation, env)
    {
      if i >= |rows| || !rows[i].Editing? || Released(rows, i) || !Applied(rows, i) { return false; }
      if !OwnsEdit(Snapshot(), rows[i].edit, generation, env) { return false; }
      rows := rows + [EditReleased(i)];
      return true;
    }

    method AcknowledgeFork(source: Edit, target: WorkId, thread: ThreadId, beforeInput: bool, env: Env)
      returns (answer: Result<bool>)
      modifies this
      ensures Snapshot() ==
        After(old(Snapshot()), M.AcknowledgeFork(old(Snapshot()), source, target, thread, beforeInput, env))
      ensures answer == Answer(M.AcknowledgeFork(old(Snapshot()), source, target, thread, beforeInput, env))
    {
      if source.before !in source.turns { return Err(InvalidInput); }
      if target in bound || !env.eligible || ThreadTaken(bound, thread) { return Ok(false); }
      if beforeInput {
        var e := source.(owner := source.owner.(work := target, thread := thread));
        if EditKeyUsed(rows, e) { return Err(Constraint); }
        var id := |rows|;
        rows := rows + [Editing(e)];
        rows := rows + [EditSeen(id)];
      }
      bound := bound[target := thread];
      return Ok(true);
    }
  }
}

/** One pending change per work, settled for good, by later evidence only. */
module SettingsTheorems {
  import opened Prelude
  import opened SettingsModel

  datatype Command =
    | DoRecord(kind: Kind, source: Owner, settings: Option<Settings>, digest: int, publication: bool, env: Env)
    | DoReserve(attempt: Attempt, env: Env)
    | DoFinish(i: nat, attempt: Attempt, answer: Outcome)
    | DoReserveEdit(edit: Edit, env: Env)
    | DoRejectEdit(i: nat, edit: Edit, env: Env)
    | DoObserveEdit(i: nat, generation: Option<int>, turns: seq<int>, env: Env)
    | DoReleaseDraft(i: nat, generation: Option<int>, env: Env)
    | DoAcknowledgeFork(edit: Edit, target: WorkId, thread: ThreadId, beforeInput: bool, env: Env)
    | DoBind(work: WorkId, thread: ThreadId)
    | DoRebind(work: WorkId, previous: ThreadId, thread: ThreadId, env: Env)
    | DoAdmit
    | OtherEvent

  function Step(b: Book, c: Command): Book {
    match c
    case DoRecord(kind, source, settings, digest, publication, env) =>
      After(b, Record(b, kind, source, settings, digest, publication, env))
    case DoReserve(a, env) => After(b, ReserveSelection(b, a, env))
    case DoFinish(i, a, answer) => After(b, FinishSelection(b, i, a, answer))
    case DoReserveEdit(e, env) => After(b, ReserveEdit(b, e, env))
    case DoRejectEdit(i, e, env) => After(b, RejectEdit(b, i, e, env))
    case DoObserveEdit(i, generation, turns, env) => After(b, ObserveEdit(b, i, generation, turns, env))
    case DoReleaseDraft(i, generation, env) => After(b, ReleaseDraft(b, i, generation, env))
    case DoAcknowledgeFork(e, target, thread, beforeInput, env) =>
      After(b, AcknowledgeFork(b, e, target, thread, beforeInput, env))
    case DoBind(work, thread) => After(b, Bind(b, work, thread))
    case DoRebind(work, previous, thread, env) => After(b, Rebind(b, work, previous, thread, env))
    case DoAdmit => Admit(b)
    case OtherEvent => b.(rows := b.rows + [Foreign])
  }

  const Empty: Book := Book([], map[], false)

  function Run(b: Book, commands: seq<Command>): Book {
    if commands == [] then b
    else Step(Run(b, commands[..|commands| - 1]), commands[|commands| - 1])
  }

  // ---------------------------------------------------------------- invariant

  /** An attempt belongs to a bound work. */
  ghost predicate AttemptsBound(b: Book) {
    forall i :: IsAttempt(b.rows, i) ==> OwnerAt(b.rows, i).work in b.bound
  }

  ghost predicate OnePending(b: Book) {
    forall i, k :: Pending(b.rows, i) && Pending(b.rows, k) && OwnerAt(b.rows, i).work == OwnerAt(b.rows, k).work ==> i == k
  }

  /** Settings that have everything the attempt asked for. */
  predicate Shows(s: Settings, a: Attempt) {
    if a.ModelAttempt? then
      && s.ModelSettings? && s.model == a.model && s.provider == a.provider && s.effort == a.effort
      && (a.recovery.Some? ==> s.tier == a.recovery.value.tier)
    else
      && s.PermissionSettings? && s.profile == Some(a.profile)
      && (a.mode.Some? ==> s.approval == a.mode.value.approval && s.reviewer == a.mode.value.reviewer)
  }

  /** A manual choice or a fallback speaks only for the account it was reviewed under. */
  predicate UnderAccount(a: Attempt) {
    a.ModelAttempt? && (a.manual || a.recovery.Some?)
  }

  /** A process speaks for the works it owns; without a process one speaks until the first was admitted. */
  predicate Speaks(b: Book, generation: Option<int>, env: Env) {
    if generation.Some? then b.admitted && env.owned else !b.admitted
  }

  /** What each row says about earlier rows. */
  predicate RowOk(rows: seq<Row>, r: nat)
    requires r < |rows|
  {
    match rows[r]
    case Selected(a) =>
      && LatestBefore(rows, KindOf(a), a.owner, r) == Some(a.settingsEvent)
      && a.settingsEvent < r && rows[a.settingsEvent].Observed? && rows[a.settingsEvent].settings.Some?
      && WorthChanging(a, rows[a.settingsEvent].settings.value)
      && (UnderAccount(a) ==> a.owner.generation.Some?)
    case Answered(i, _) => i < r && rows[i].Selected?
    case Seen(i, event, verdict) => i < event < r && Settles(rows, i, event, verdict)
    case Editing(e) => e.before in e.turns
    case EditSeen(i) => i < r && rows[i].Editing?
    case EditReleased(i) => i < r && rows[i].Editing?
    case _ => true
  }

  /** A later revision of the same conversation settled the selection. Its own process can only have seen the
      target; another process, known to be another, saw the target or proved the selection superseded. */
  predicate Settles(rows: seq<Row>, i: nat, event: nat, verdict: Verdict)
    requires i < |rows| && event < |rows|
  {
    && rows[i].Selected? && rows[event].Observed? && rows[event].settings.Some?
    && var a, source := rows[i].attempt, rows[event].source;
       && rows[event].kind == KindOf(a)
       && source.work == a.owner.work && source.thread == a.owner.thread
       && if source.generation == a.owner.generation then
            verdict.TargetObserved? && Shows(rows[event].settings.value, a)
          else
            && source.generation.Some? && a.owner.generation.Some?
            && (verdict.TargetObserved? <==> Shows(rows[event].settings.value, a) && !UnderAccount(a))
  }

  ghost predicate RowsOk(rows: seq<Row>) {
    forall r :: 0 <= r < |rows| ==> RowOk(rows, r)
  }

  ghost predicate Inv(b: Book) {
    AttemptsBound(b) && OnePending(b) && RowsOk(b.rows)
  }

  // ------------------------------------------------------------ growing journals

  lemma {:induction false} LatestKept(rows: seq<Row>, more: seq<Row>, kind: Kind, source: Owner, n: nat)
    requires n <= |rows|
    ensures LatestBefore(rows + more, kind, source, n) == LatestBefore(rows, kind, source, n)
  {
    if n > 0 { LatestKept(rows, more, kind, source, n - 1); }
  }

  lemma RowKept(rows: seq<Row>, more: seq<Row>, r: nat)
    requires r < |rows| && RowOk(rows, r)
    ensures RowOk(rows + more, r)
  {
    if rows[r].Selected? { LatestKept(rows, more, KindOf(rows[r].attempt), rows[r].attempt.owner, r); }
  }

  /** Nothing that an appended row says can make an attempt pending again. */
  lemma PendingShrinks(rows: seq<Row>, more: seq<Row>, i: nat)
    requires i < |rows|
    ensures Pending(rows + more, i) ==> Pending(rows, i)
    ensures IsAttempt(rows + more, i) <==> IsAttempt(rows, i)
    ensures IsAttempt(rows, i) ==> OwnerAt(rows + more, i) == OwnerAt(rows, i)
  {
    var after := rows + more;
    if IsAttempt(rows, i) {
      if Settled(rows, i) {
        var r :| 0 <= r < |rows| && SettlesAt(rows, i, r);
        assert SettlesAt(after, i, r);
      }
      if Released(rows, i) {
        var r :| 0 <= r < |rows| && rows[r] == EditReleased(i);
        assert after[r] == EditReleased(i);
      }
    }
  }

  /** One appended row that is not an attempt. */
  lemma NoteKeepsInv(b: Book, row: Row)
    requires Inv(b) && !row.Selected? && !row.Editing? && RowOk(b.rows + [row], |b.rows|)
    ensures Inv(b.(rows := b.rows + [row]))
  {
    var after := b.rows + [row];
    forall r | 0 <= r < |after| ensures RowOk(after, r) {
      if r < |b.rows| { RowKept(b.rows, [row], r); }
    }
    forall i | 0 <= i < |b.rows|
      ensures Pending(after, i) ==> Pending(b.rows, i)
      ensures IsAttempt(after, i) <==> IsAttempt(b.rows, i)
      ensures IsAttempt(b.rows, i) ==> OwnerAt(after, i) == OwnerAt(b.rows, i)
    {
      PendingShrinks(b.rows, [row], i);
    }
  }

  /** One appended attempt of a work on which nothing is pending. */
  lemma AttemptKeepsInv(b: Book, row: Row)
    requires Inv(b) && (row.Selected? || row.Editing?) && RowOk(b.rows + [row], |b.rows|)
    requires
      var o := if row.Selected? then row.attempt.owner else row.edit.owner;
      !PendingFor(b.rows, o.work) && o.work in b.bound
    ensures Inv(b.(rows := b.rows + [row]))
  {
    var after := b.rows + [row];
    forall r | 0 <= r < |after| ensures RowOk(after, r) {
      if r < |b.rows| { RowKept(b.rows, [row], r); }
    }
    forall i | 0 <= i < |b.rows|
      ensures Pending(after, i) ==> Pending(b.rows, i)
      ensures IsAttempt(after, i) <==> IsAttempt(b.rows, i)
      ensures IsAttempt(b.rows, i) ==> OwnerAt(after, i) == OwnerAt(b.rows, i)
    {
      PendingShrinks(b.rows, [row], i);
    }
  }

  /** A pending selection of one kind, work and thread. */
  predicate Waits(rows: seq<Row>, i: nat, kind: Kind, work: WorkId, thread: ThreadId) {
    && i < |rows| && rows[i].Selected? && KindOf(rows[i].attempt) == kind
    && rows[i].attempt.owner.work == work && rows[i].attempt.owner.thread == thread && Pending(rows, i)
  }

  lemma {:induction false} UnsettledIs(rows: seq<Row>, kind: Kind, work: WorkId, thread: ThreadId, n: nat)
    requires n <= |rows|
    ensures
      var found := UnsettledBefore(rows, kind, work, thread, n);
      if found.Some? then found.value < n && Waits(rows, found.value, kind, work, thread)
      else forall i: nat :: Waits(rows, i, kind, work, thread) ==> i >= n
  {
    if n > 0 { UnsettledIs(rows, kind, work, thread, n - 1); }
  }

  // ------------------------------------------------------------------ every step

  lemma ObserveKeepsInv(b: Book, kind: Kind, source: Owner, observation: nat, settings: Option<Settings>, env: Env)
    requires Inv(b) && observation < |b.rows|
    requires b.rows[observation].Observed? && b.rows[observation].kind == kind
    requires b.rows[observation].source == source && b.rows[observation].settings == settings
    ensures Inv(b.(rows := Observe(b, kind, source, observation, settings, env)))
  {
    UnsettledIs(b.rows, kind, source.work, source.thread, observation);
    var after := Observe(b, kind, source, observation, settings, env);
    if after != b.rows {
      assert after == b.rows + [after[|b.rows|]];
      NoteKeepsInv(b, after[|b.rows|]);
    }
  }

  lemma {:induction false} LatestIs(rows: seq<Row>, kind: Kind, source: Owner, n: nat)
    requires n <= |rows|
    ensures
      var found := LatestBefore(rows, kind, source, n);
      found.Some? ==> (
        && found.value < n && IsObserved(rows, found.value, kind, source)
        && LatestBefore(rows, kind, source, found.value + 1) == found)
  {
    if n > 0 { LatestIs(rows, kind, source, n - 1); }
  }

  lemma RecordKeepsInv(b: Book, kind: Kind, source: Owner, settings: Option<Settings>, digest: int, publication: bool, env: Env)
    requires Inv(b)
    ensures Inv(After(b, Record(b, kind, source, settings, digest, publication, env)))
  {
    var row := Observed(kind, source, settings, digest);
    LatestIs(b.rows, kind, source, |b.rows|);
    NoteKeepsInv(b, row);
    var noted := b.(rows := b.rows + [row]);
    ObserveKeepsInv(noted, kind, source, |b.rows|, settings, env);
    var previous := Latest(b.rows, kind, source);
    if previous.Some? && b.rows[previous.value] == row {
      ObserveKeepsInv(b, kind, source, previous.value, settings, env);
    }
  }

  lemma ReserveKeepsInv(b: Book, a: Attempt, env: Env)
    requires Inv(b)
    ensures Inv(After(b, ReserveSelection(b, a, env)))
  {
    if After(b, ReserveSelection(b, a, env)) != b {
      LatestIs(b.rows, KindOf(a), a.owner, |b.rows|);
      LatestKept(b.rows, [Selected(a)], KindOf(a), a.owner, |b.rows|);
      AttemptKeepsInv(b, Selected(a));
    }
  }

  lemma ForkKeepsInv(b: Book, e: Edit, target: WorkId, thread: ThreadId, beforeInput: bool, env: Env)
    requires Inv(b)
    ensures Inv(After(b, AcknowledgeFork(b, e, target, thread, beforeInput, env)))
  {
    var tx := AcknowledgeFork(b, e, target, thread, beforeInput, env);
    if tx.Commit? && tx.state != b {
      assert !PendingFor(b.rows, target);
      var c := b.(bound := b.bound[target := thread]);
      if beforeInput {
        var installed := e.(owner := e.owner.(work := target, thread := thread));
        AttemptKeepsInv(c, Editing(installed));
        var d := c.(rows := c.rows + [Editing(installed)]);
        NoteKeepsInv(d, EditSeen(|b.rows|));
        assert d.rows + [EditSeen(|b.rows|)] == tx.state.rows;
      }
    }
  }

  predicate IsEditStep(c: Command) {
    c.DoReserveEdit? || c.DoRejectEdit? || c.DoObserveEdit? || c.DoReleaseDraft?
  }

  lemma EditStepKeepsInv(b: Book, c: Command)
    requires Inv(b) && IsEditStep(c)
    ensures Inv(Step(b, c)) && b.rows <= Step(b, c).rows
  {
    var u := Step(b, c);
    if u != b {
      var row := u.rows[|b.rows|];
      assert u == b.(rows := b.rows + [row]);
      if c.DoReserveEdit? { AttemptKeepsInv(b, row); } else { NoteKeepsInv(b, row); }
    }
  }

  lemma StepKeepsInv(b: Book, c: Command)
    requires Inv(b)
    ensures Inv(Step(b, c)) && b.rows <= Step(b, c).rows
  {
    if IsEditStep(c) {
      EditStepKeepsInv(b, c);
    } else {
      match c
      case DoRecord(kind, source, settings, digest, publication, env) =>
        RecordKeepsInv(b, kind, source, settings, digest, publication, env);
      case DoReserve(a, env) => ReserveKeepsInv(b, a, env);
      case DoFinish(i, a, answer) => if Step(b, c) != b { NoteKeepsInv(b, Answered(i, answer)); }
      case DoAcknowledgeFork(e, target, thread, beforeInput, env) => ForkKeepsInv(b, e, target, thread, beforeInput, env);
      case OtherEvent => NoteKeepsInv(b, Foreign);
      case _ =>
    }
  }

  lemma {:induction false} RunKeepsInv(b: Book, commands: seq<Command>)
    requires Inv(b)
    ensures Inv(Run(b, commands)) && b.rows <= Run(b, commands).rows
  {
    if commands != [] {
      var before := commands[..|commands| - 1];
      RunKeepsInv(b, before);
      StepKeepsInv(Run(b, before), commands[|commands| - 1]);
    }
  }

  // ----------------------------------------------------------------- theorems

  /** Over every run at most one model selection, permission selection or prompt edit of a work is
      pending, counting the edits that forks install. */
  lemma OnePendingPerWork(commands: seq<Command>, i: nat, k: nat)
    requires
      var rows := Run(Empty, commands).rows;
      Pending(rows, i) && Pending(rows, k) && OwnerAt(rows, i).work == OwnerAt(rows, k).work
    ensures i == k
  {
    RunKeepsInv(Empty, commands);
  }

  /** Whatever the order of answer and observation, a settled attempt never becomes pending again. */
  lemma SettledForGood(commands: seq<Command>, later: seq<Command>, i: nat)
    requires IsAttempt(Run(Empty, commands).rows, i) && !Pending(Run(Empty, commands).rows, i)
    ensures
      var n := Run(Run(Empty, commands), later);
      IsAttempt(n.rows, i) && !Pending(n.rows, i)
  {
    RunKeepsInv(Empty, commands);
    var b := Run(Empty, commands);
    RunKeepsInv(b, later);
    var n := Run(b, later);
    assert n.rows == b.rows + n.rows[|b.rows|..];
    PendingShrinks(b.rows, n.rows[|b.rows|..], i);
  }

  /** A selection is observed only by a revision recorded after its reservation, of the same
      conversation, and reads as applied only when that revision has the target settings. */
  lemma SettlingEvidenceIsLater(commands: seq<Command>, r: nat)
    requires r < |Run(Empty, commands).rows| && Run(Empty, commands).rows[r].Seen?
    ensures
      var rows := Run(Empty, commands).rows;
      rows[r].reservation < rows[r].settingsEvent < r
        && Settles(rows, rows[r].reservation, rows[r].settingsEvent, rows[r].verdict)
  {
    RunKeepsInv(Empty, commands);
    assert RowOk(Run(Empty, commands).rows, r);
  }

  /** The reader of a pending selection's publication finds exactly that selection. */
  lemma PublicationFindsThePending(b: Book, i: nat, n: nat)
    requires Inv(b) && Pending(b.rows, i) && b.rows[i].Selected? && n <= |b.rows|
    ensures
      var a := b.rows[i].attempt;
      UnsettledBefore(b.rows, KindOf(a), a.owner.work, a.owner.thread, n) == if i < n then Some(i) else None
  {
    var a := b.rows[i].attempt;
    UnsettledIs(b.rows, KindOf(a), a.owner.work, a.owner.thread, n);
    var found := UnsettledBefore(b.rows, KindOf(a), a.owner.work, a.owner.thread, n);
    assert IsAttempt(b.rows, i) && Waits(b.rows, i, KindOf(a), a.owner.work, a.owner.thread);
    if found.Some? { assert OwnerAt(b.rows, found.value).work == OwnerAt(b.rows, i).work; }
  }

  /** The latest revision repeats one that the attempt was already reviewed against. */
  predicate RepeatsReviewed(b: Book, i: nat, row: Row)
    requires row.Observed?
  {
    var previous := Latest(b.rows, row.kind, row.source);
    previous.Some? && previous.value < i && previous.value < |b.rows| && b.rows[previous.value] == row
  }

  /** Whether a process may judge the attempt by these settings: its own process by the target
      settings, under the account it was reviewed with; another one after the first was proved dead. */
  predicate MayJudge(a: Attempt, source: Owner, s: Settings, env: Env) {
    if source.generation == a.owner.generation then Shows(s, a) && (UnderAccount(a) ==> env.current)
    else a.owner.generation.Some? && source.generation.Some? && env.dead
  }

  /** The source may publish for the attempt's conversation now. */
  predicate MaySettle(b: Book, a: Attempt, source: Owner, s: Settings, env: Env) {
    && source.work == a.owner.work && source.thread == a.owner.thread
    && source.work in b.bound && b.bound[source.work] == source.thread
    && Speaks(b, source.generation, env) && (a.ModelAttempt? && source.generation.Some? ==> env.active)
    && (if a.ModelAttempt? then s.ModelSettings? else s.PermissionSettings?)
    && MayJudge(a, source, s, env)
  }

  /** A publication settles a pending selection exactly when its source may judge it, on the thread that
      the work is still bound to, and it does not repeat a revision that the attempt was reviewed
      against. A selection made without a process is never settled by one, nor the other way round. */
  lemma PublicationSettlesExactly(b: Book, i: nat, source: Owner, s: Settings, digest: int, env: Env)
    requires Inv(b) && Pending(b.rows, i) && b.rows[i].Selected?
    ensures
      var a := b.rows[i].attempt;
      var u := Record(b, KindOf(a), source, Some(s), digest, true, env).state;
      Pending(u.rows, i) <==>
        !MaySettle(b, a, source, s, env) || RepeatsReviewed(b, i, Observed(KindOf(a), source, Some(s), digest))
  {
    var a := b.rows[i].attempt;
    var row := Observed(KindOf(a), source, Some(s), digest);
    assert IsAttempt(b.rows, i);
    LatestIs(b.rows, KindOf(a), source, |b.rows|);
    var previous := Latest(b.rows, KindOf(a), source);
    if previous.Some? && b.rows[previous.value] == row {
      ObservationSettlesExactly(b, i, source, previous.value, s, env);
    } else {
      NoteKeepsInv(b, row);
      var noted := b.(rows := b.rows + [row]);
      PendingThrough(b.rows, [row], i);
      ObservationSettlesExactly(noted, i, source, |b.rows|, s, env);
    }
  }

  predicate SettlesRow(row: Row, i: nat) {
    row == Answered(i, Refused) || (row.Seen? && row.reservation == i) || row == EditReleased(i)
  }

  lemma PendingThrough(rows: seq<Row>, more: seq<Row>, i: nat)
    requires Pending(rows, i) && forall r :: 0 <= r < |more| ==> !SettlesRow(more[r], i)
    ensures Pending(rows + more, i)
  {
    var after := rows + more;
    forall r | 0 <= r < |after| && SettlesRow(after[r], i) ensures r < |rows| && SettlesRow(rows[r], i) {
    }
    if rows[i].Selected? && Settled(after, i) {
      var r :| 0 <= r < |after| && SettlesAt(after, i, r);
      assert SettlesRow(after[r], i) && SettlesAt(rows, i, r);
    }
    assert forall r :: 0 <= r < |after| && after[r] == EditReleased(i) ==> SettlesRow(after[r], i);
  }

  lemma ObservationSettlesExactly(b: Book, i: nat, source: Owner, event: nat, s: Settings, env: Env)
    requires Inv(b) && Pending(b.rows, i) && b.rows[i].Selected? && event < |b.rows| && event != i
    ensures
      var a := b.rows[i].attempt;
      Pending(Observe(b, KindOf(a), source, event, Some(s), env), i) <==> !MaySettle(b, a, source, s, env) || event < i
  {
    var a := b.rows[i].attempt;
    var after := Observe(b, KindOf(a), source, event, Some(s), env);
    UnsettledIs(b.rows, KindOf(a), source.work, source.thread, event);
    var found := UnsettledBefore(b.rows, KindOf(a), source.work, source.thread, event);
    if source.work == a.owner.work && source.thread == a.owner.thread {
      PublicationFindsThePending(b, i, event);
      assert after != b.rows ==> SettlesAt(after, i, |b.rows|);
    } else if after != b.rows {
      assert found.Some? && found.value != i;
      PendingThrough(b.rows, [after[|b.rows|]], i);
    }
  }

  /** A model selection always has something to change, so no matching publication can be a repeat;
      the same holds for a permission selection whose target was not already met when reviewed. */
  lemma ReviewedTargetsAreNotRepeated(b: Book, i: nat, s: Settings, digest: int)
    requires Inv(b) && i < |b.rows| && b.rows[i].Selected? && Shows(s, b.rows[i].attempt)
    requires
      var a := b.rows[i].attempt;
      a.ModelAttempt? || (RowOk(b.rows, i) && !Shows(b.rows[a.settingsEvent].settings.value, a))
    ensures !RepeatsReviewed(b, i, Observed(KindOf(b.rows[i].attempt), b.rows[i].attempt.owner, Some(s), digest))
  {
    var a := b.rows[i].attempt;
    assert RowOk(b.rows, i);
    var previous := Latest(b.rows, KindOf(a), a.owner);
    if previous.Some? && previous.value < i {
      LatestIs(b.rows, KindOf(a), a.owner, |b.rows|);
      LatestBelow(b.rows, KindOf(a), a.owner, i, |b.rows|);
    }
  }

  /** When the newest revision stands before `i`, it is also the newest before `i`. */
  lemma {:induction false} LatestBelow(rows: seq<Row>, kind: Kind, source: Owner, i: nat, n: nat)
    requires i <= n <= |rows|
    requires
      var found := LatestBefore(rows, kind, source, n);
      found.Some? && found.value < i
    ensures LatestBefore(rows, kind, source, i) == LatestBefore(rows, kind, source, n)
  {
    if i < n { LatestBelow(rows, kind, source, i, n - 1); }
  }
}

/** When each settings request is granted and what it appends; and what every row of a journal tells about
    the attempt that it names. */
module SettingsDecisions {
  import opened Prelude
  import opened SettingsModel
  import opened SettingsTheorems

  predicate OnThread(b: Book, o: Owner) {
    o.work in b.bound && b.bound[o.work] == o.thread
  }

  /** The i-th row is the newest revision that this source recorded. */
  predicate IsNewest(rows: seq<Row>, kind: Kind, source: Owner, i: nat) {
    && i < |rows| && IsRevision(rows[i], kind, source)
    && forall k :: i < k < |rows| ==> !IsRevision(rows[k], kind, source)
  }

  predicate IsRevision(row: Row, kind: Kind, source: Owner) {
    row.Observed? && row.kind == kind && row.source == source
  }

  /** Reading from the end finds the newest revision, if there is one. */
  lemma NewestIsFound(rows: seq<Row>, kind: Kind, source: Owner, i: nat)
    ensures Latest(rows, kind, source) == Some(i) <==> IsNewest(rows, kind, source, i)
    ensures Latest(rows, kind, source) == None <==> forall k :: 0 <= k < |rows| ==> !IsRevision(rows[k], kind, source)
  {
    NewestBefore(rows, kind, source, |rows|);
    var found := Latest(rows, kind, source);
    if found.Some? && IsNewest(rows, kind, source, i) { assert IsRevision(rows[found.value], kind, source); }
  }

  lemma {:induction false} NewestBefore(rows: seq<Row>, kind: Kind, source: Owner, n: nat)
    requires n <= |rows|
    ensures
      var found := LatestBefore(rows, kind, source, n);
      && (found.Some? ==>
            && found.value < n && IsRevision(rows[found.value], kind, source)
            && forall k :: found.value < k < n ==> !IsRevision(rows[k], kind, source))
      && (found.None? ==> forall k :: 0 <= k < n ==> !IsRevision(rows[k], kind, source))
  {
    if n > 0 { NewestBefore(rows, kind, source, n - 1); }
  }

  // ------------------------------------------------------------------ revisions

  /** Rows that one recording appends: the revision if it is new, and at most one verdict after a publication. */
  predicate Extends(rows: seq<Row>, more: seq<Row>, publication: bool) {
    && rows <= more && |more| <= |rows| + 1
    && (more != rows ==> publication && more[|rows|].Seen?)
  }

  /** A revision is recorded exactly from someone who speaks for the work on its thread. It is not recorded twice
      in a row, nor is an absence that nothing came before; only a publication can append a verdict. */
  lemma RevisionsAreRecordedExactly(b: Book, kind: Kind, source: Owner, settings: Option<Settings>, digest: int,
                                    publication: bool, env: Env, newest: nat)
    ensures
      var tx := Record(b, kind, source, settings, digest, publication, env);
      var row := Observed(kind, source, settings, digest);
      var heard := OnThread(b, source) && Speaks(b, source.generation, env);
      var unknown := forall k :: 0 <= k < |b.rows| ==> !IsRevision(b.rows[k], kind, source);
      && tx.Commit? && tx.state.bound == b.bound && tx.state.admitted == b.admitted
      && (!heard || (unknown && settings.None?) ==> tx == Commit(b, None))
      && (heard && IsNewest(b.rows, kind, source, newest) && b.rows[newest] == row ==>
            tx.reply == Some(newest) && Extends(b.rows, tx.state.rows, publication))
      && (heard && (if unknown then settings.Some? else IsNewest(b.rows, kind, source, newest) && b.rows[newest] != row) ==>
            tx.reply == Some(|b.rows|) && Extends(b.rows + [row], tx.state.rows, publication))
  {
    NewestIsFound(b.rows, kind, source, newest);
  }

  // ----------------------------------------------------------------- selections

  /** The reviewed settings leave something to change: another model or effort of the same provider, from the
      model that a fallback leaves; a mode, or another profile. */
  predicate LeavesToChange(a: Attempt, s: Settings) {
    if a.ModelAttempt? then
      && s.ModelSettings? && s.provider == a.provider && (s.model != a.model || s.effort != a.effort)
      && (a.recovery.Some? ==> s.model == a.recovery.value.fromModel)
    else a.mode.Some? || !s.PermissionSettings? || s.profile != Some(a.profile)
  }

  /** The same review of the same conversation: the same token, or for fallbacks the same recovery to the same
      model and effort. */
  predicate SameReview(a: Attempt, c: Attempt) {
    && a.owner.work == c.owner.work && a.owner.thread == c.owner.thread && (a.ModelAttempt? <==> c.ModelAttempt?)
    && if a.ModelAttempt? && a.recovery.Some? then
         a.recovery == c.recovery && a.model == c.model && a.effort == c.effort
       else (c.ModelAttempt? ==> c.recovery.None?) && a.token == c.token
  }

  /** A selection is reserved exactly by someone who speaks for a work on its thread that admits a change and has
      none pending, against the newest revision of that very source, which leaves something to change, and
      once per review. One that speaks for an account needs a process and that account, still current. */
  lemma SelectionsAreReservedExactly(b: Book, a: Attempt, env: Env)
    requires Inv(b)
    ensures
      var tx := ReserveSelection(b, a, env);
      && (tx.Rollback? <==> UnderAccount(a) && a.owner.generation.None?)
      && (tx.Commit? && tx.reply.Some? <==>
            && (UnderAccount(a) ==> a.owner.generation.Some? && env.current)
            && Speaks(b, a.owner.generation, env) && OnThread(b, a.owner) && env.eligible
            && (forall i :: Pending(b.rows, i) ==> OwnerAt(b.rows, i).work != a.owner.work)
            && IsNewest(b.rows, if a.ModelAttempt? then Models else Permissions, a.owner, a.settingsEvent)
            && b.rows[a.settingsEvent].settings.Some? && LeavesToChange(a, b.rows[a.settingsEvent].settings.value)
            && forall i :: 0 <= i < |b.rows| && b.rows[i].Selected? ==> !SameReview(a, b.rows[i].attempt))
      && (tx.Commit? ==>
            tx.state == if tx.reply.Some? then b.(rows := b.rows + [Selected(a)]) else b)
  {
    NewestIsFound(b.rows, KindOf(a), a.owner, a.settingsEvent);
    assert forall c :: SameKey(c, a) <==> SameReview(a, c);
    assert PendingFor(b.rows, a.owner.work) <==>
      exists i: nat :: Pending(b.rows, i) && OwnerAt(b.rows, i).work == a.owner.work;
  }

  /** The native answer is kept exactly once, on the reservation it names; only a refusal ends the attempt. */
  lemma AnswersAreKeptExactly(b: Book, i: nat, a: Attempt, answer: Outcome)
    ensures
      var tx := FinishSelection(b, i, a, answer);
      && tx.Commit?
      && (tx.reply <==>
            && i < |b.rows| && b.rows[i] == Selected(a)
            && forall r :: 0 <= r < |b.rows| && b.rows[r].Answered? ==> b.rows[r].reservation != i)
      && tx.state == (if tx.reply then b.(rows := b.rows + [Answered(i, answer)]) else b)
      && (tx.reply ==> (Pending(tx.state.rows, i) <==> Pending(b.rows, i) && answer != Refused))
  {
    var tx := FinishSelection(b, i, a, answer);
    if tx.reply {
      var after := tx.state.rows;
      assert after[|b.rows|] == Answered(i, answer) && forall r :: 0 <= r < |b.rows| ==> after[r] == b.rows[r];
      if Settled(b.rows, i) {
        var r :| 0 <= r < |b.rows| && SettlesAt(b.rows, i, r);
        assert SettlesAt(after, i, r);
      }
      if Settled(after, i) {
        var r :| 0 <= r < |after| && SettlesAt(after, i, r);
        assert r < |b.rows| ==> SettlesAt(b.rows, i, r);
      }
      if answer.Refused? { assert SettlesAt(after, i, |b.rows|); }
    }
  }

  /** Over every run, a selection that reads as applied was seen with all of its target settings, by its own
      process or, if it speaks for no account, by another one; one that reads as superseded was judged by
      another process, and either speaks for an account or was not seen with its target. */
  lemma VerdictsStandAsShown(commands: seq<Command>, r: nat)
    requires r < |Run(Empty, commands).rows| && Run(Empty, commands).rows[r].Seen?
    ensures
      var rows := Run(Empty, commands).rows;
      var i, e := rows[r].reservation, rows[r].settingsEvent;
      && i < e < r && rows[i].Selected? && rows[e].Observed? && rows[e].settings.Some?
      && var a, source, s := rows[i].attempt, rows[e].source, rows[e].settings.value;
         && source.work == a.owner.work && source.thread == a.owner.thread
         && (rows[r].verdict == TargetObserved <==>
               Shows(s, a) && (source.generation == a.owner.generation || !UnderAccount(a)))
         && (rows[r].verdict == Superseded ==>
               source.generation.Some? && a.owner.generation.Some? && source.generation != a.owner.generation)
  {
    SettlingEvidenceIsLater(commands, r);
  }

  // --------------------------------------------------------------------- edits

  /** Neither applied nor handed back. */
  predicate Untold(rows: seq<Row>, i: nat) {
    && i < |rows| && rows[i].Editing?
    && forall r :: 0 <= r < |rows| ==> rows[r] != EditSeen(i) && rows[r] != EditReleased(i)
  }

  /** The history that the edit leaves: everything before the first turn that it removes. */
  predicate IsKept(turns: seq<int>, e: Edit) {
    exists k :: 0 <= k < |e.turns| && e.turns[k] == e.before && e.before !in e.turns[..k] && turns == e.turns[..k]
  }

  lemma KeptPrefix(turns: seq<int>, e: Edit)
    requires e.before in e.turns
    ensures Position(e.turns, e.before).Some? && (turns == e.turns[..Position(e.turns, e.before).value] <==> IsKept(turns, e))
    ensures IsKept(turns, e) ==> turns != e.turns
  {
    var at := Position(e.turns, e.before).value;
    if IsKept(turns, e) {
      var k :| 0 <= k < |e.turns| && e.turns[k] == e.before && e.before !in e.turns[..k] && turns == e.turns[..k];
      assert forall j :: 0 <= j < at ==> e.turns[j] in e.turns[..at];
      assert forall j :: 0 <= j < k ==> e.turns[j] in e.turns[..k];
    }
  }

  /** An edit is reserved exactly by someone who speaks for the work on its thread, when the work admits it, has
      nothing pending, and did not use the review before. */
  lemma EditsAreReservedExactly(b: Book, e: Edit, env: Env)
    requires e.before in e.turns
    ensures
      var tx := ReserveEdit(b, e, env);
      && tx.Commit?
      && (tx.reply.Some? <==>
            && Speaks(b, e.owner.generation, env) && OnThread(b, e.owner) && env.eligible
            && (forall i :: Pending(b.rows, i) ==> OwnerAt(b.rows, i).work != e.owner.work)
            && forall i :: 0 <= i < |b.rows| && b.rows[i].Editing? ==>
                 !(b.rows[i].edit.owner.work == e.owner.work && b.rows[i].edit.owner.thread == e.owner.thread
                   && b.rows[i].edit.token == e.token))
      && tx.state == if tx.reply.Some? then b.(rows := b.rows + [Editing(e)]) else b
  {
    assert PendingFor(b.rows, e.owner.work) <==>
      exists i: nat :: Pending(b.rows, i) && OwnerAt(b.rows, i).work == e.owner.work;
  }

  /** Reading the history decides an untold edit exactly when the reader speaks for the work on its thread, and is
      the edit's own process or came after that one was proved dead. Exactly the retained prefix applies the
      edit; the unchanged history disproves it, but not to the process that may still be at it. */
  lemma HistoriesDecideExactly(b: Book, i: nat, generation: Option<int>, turns: seq<int>, env: Env)
    requires Inv(b) && i < |b.rows| && b.rows[i].Editing?
    ensures
      var e, tx := b.rows[i].edit, ObserveEdit(b, i, generation, turns, env);
      var own := generation == e.owner.generation;
      var heard :=
        && Untold(b.rows, i) && Speaks(b, generation, env) && OnThread(b, e.owner)
        && (own || (generation.Some? && e.owner.generation.Some? && env.dead));
      && tx.Commit? && (tx.reply <==> heard && (IsKept(turns, e) || (!own && turns == e.turns)))
      && tx.state ==
           if !tx.reply then b
           else b.(rows := b.rows + [if IsKept(turns, e) then EditSeen(i) else EditReleased(i)])
  {
    assert RowOk(b.rows, i);
    KeptPrefix(turns, b.rows[i].edit);
    assert Untold(b.rows, i) <==> EditReserved(b.rows, i);
  }

  /** Exactly an untold edit is rejected, by who made it; exactly an applied one hands its draft back, once, to
      whoever speaks for the work. */
  lemma EditsAreHandedBackExactly(b: Book, i: nat, e: Edit, generation: Option<int>, env: Env)
    requires i < |b.rows| && b.rows[i] == Editing(e)
    ensures
      var rejected, released := RejectEdit(b, i, e, env), ReleaseDraft(b, i, generation, env);
      var back := b.(rows := b.rows + [EditReleased(i)]);
      && rejected == (if Speaks(b, e.owner.generation, env) && OnThread(b, e.owner) && Untold(b.rows, i)
                      then Commit(back, true) else Commit(b, false))
      && released == (if && Speaks(b, generation, env) && OnThread(b, e.owner)
                         && (exists r :: 0 <= r < |b.rows| && b.rows[r] == EditSeen(i))
                         && (forall r :: 0 <= r < |b.rows| ==> b.rows[r] != EditReleased(i))
                      then Commit(back, true) else Commit(b, false))
      && (forall other :: other != e ==> RejectEdit(b, i, other, env) == Commit(b, false))
  {
    assert Untold(b.rows, i) <==> EditReserved(b.rows, i);
  }

  /** No edit is told twice: it is applied at most once, handed back at most once, and never applied after it
      was handed back. */
  ghost predicate ToldOnce(rows: seq<Row>) {
    && (forall i: nat, r, q :: 0 <= r < |rows| && 0 <= q < |rows| && rows[r] == EditSeen(i) && rows[q] == EditSeen(i) ==> r == q)
    && (forall i: nat, r, q ::
          0 <= r < |rows| && 0 <= q < |rows| && rows[r] == EditReleased(i) && rows[q] == EditReleased(i) ==> r == q)
    && (forall i: nat, r, q ::
          0 <= r < |rows| && 0 <= q < |rows| && rows[r] == EditSeen(i) && rows[q] == EditReleased(i) ==> r < q)
  }

  /** What a step may tell of the edits: nothing, something of a new edit, or one thing of an untold or only
      applied one. */
  ghost predicate TellsOnce(rows: seq<Row>, after: seq<Row>) {
    && rows <= after && |after| <= |rows| + 2
    && forall r :: |rows| <= r < |after| ==>
         && (after[r].EditSeen? ==>
               if r == |rows| then Untold(rows, after[r].reservation) else after[r].reservation == |rows|)
         && (after[r].EditReleased? ==>
               r == |rows| && |after| == |rows| + 1 && !Released(rows, after[r].reservation))
  }

  lemma StepTells(b: Book, c: Command)
    requires Inv(b)
    ensures TellsOnce(b.rows, Step(b, c).rows)
  {
    StepKeepsInv(b, c);
  }

  lemma ToldAgain(rows: seq<Row>, after: seq<Row>)
    requires ToldOnce(rows) && TellsOnce(rows, after)
    requires forall r :: 0 <= r < |rows| && (rows[r].EditSeen? || rows[r].EditReleased?) ==> rows[r].reservation < |rows|
    ensures ToldOnce(after)
  {
    forall r | 0 <= r < |rows| ensures after[r] == rows[r] {}
  }

  lemma {:induction false} EditsAreToldOnce(commands: seq<Command>)
    ensures ToldOnce(Run(Empty, commands).rows)
  {
    if commands != [] {
      var before := commands[..|commands| - 1];
      EditsAreToldOnce(before);
      RunKeepsInv(Empty, before);
      var rows := Run(Empty, before).rows;
      StepTells(Run(Empty, before), commands[|commands| - 1]);
      forall r | 0 <= r < |rows| && (rows[r].EditSeen? || rows[r].EditReleased?) ensures rows[r].reservation < |rows| {
        assert RowOk(rows, r);
      }
      ToldAgain(rows, Run(Empty, commands).rows);
    }
  }

  // -------------------------------------------------------------------- threads

  /** An acknowledged fork binds a free thread to a work that has none, and carries the edit over as one that is
      applied already; its review must be new there. */
  lemma ForksAreBoundExactly(b: Book, source: Edit, target: WorkId, thread: ThreadId, beforeInput: bool, env: Env)
    requires source.before in source.turns
    ensures
      var tx := AcknowledgeFork(b, source, target, thread, beforeInput, env);
      var e := source.(owner := Owner(target, thread, source.owner.generation));
      var free := forall w :: w in b.bound ==> b.bound[w] != thread;
      var used := exists i :: 0 <= i < |b.rows| && b.rows[i].Editing? && b.rows[i].edit.owner.work == target
                    && b.rows[i].edit.owner.thread == thread && b.rows[i].edit.token == source.token;
      if target in b.bound || !env.eligible || !free then tx == Commit(b, false)
      else if beforeInput && used then tx == Rollback(Constraint)
      else
        tx == Commit(b.(bound := b.bound[target := thread],
                        rows := if beforeInput then b.rows + [Editing(e), EditSeen(|b.rows|)] else b.rows), true)
  {
  }

  /** A thread is bound to a work once, and to one work at a time; only an eligible work moves to another. */
  lemma ThreadsAreBoundExactly(b: Book, work: WorkId, thread: ThreadId, previous: ThreadId, env: Env)
    ensures
      var bound, moved := Bind(b, work, thread), Rebind(b, work, previous, thread, env);
      var free := forall w :: w in b.bound && w != work ==> b.bound[w] != thread;
      && (bound.Commit? <==> if work in b.bound then b.bound[work] == thread else free)
      && (moved.Commit? <==> work in b.bound && b.bound[work] == previous && env.eligible && free)
      && (bound.Commit? ==> bound.state == b.(bound := b.bound[work := thread]))
      && (moved.Commit? ==> moved.state == b.(bound := b.bound[work := thread]))
  {
  }
}

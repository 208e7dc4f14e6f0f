/** When each request about works, threads, decisions, refusals and observed turns is granted, and exactly
    what it leaves; and what holds of it in every later state. */
module InboxDecisions {
  import opened Prelude
  import opened InboxModel
  import opened InboxFence
  import opened InboxSteps
  import opened InboxTheorems

  // ----------------------------------------------------------- works and threads

  predicate HasThread(s: Inbox, id: WorkId, thread: ThreadId) {
    id in s.works && s.works[id].thread == Some(thread)
  }

  /** A work is created idle and unbound, under an existing goal if it has a parent; only a manager may start
      waiting, and only goals are managers. */
  lemma WorksAreCreatedExactly(s: Inbox, id: WorkId, parent: Option<WorkId>, kind: WorkKind, manager: bool, status: Status)
    ensures
      var tx := CreateWork(s, id, parent, kind, manager, status);
      && (tx.Commit? <==>
            && id !in s.works && (parent.Some? ==> parent.value in s.works && s.works[parent.value].kind == Goal)
            && (status == Open || (status == Wait && manager)) && (manager ==> kind == Goal))
      && (tx.Commit? ==>
            tx.state == s.(works := s.works[id := Work(parent, kind, None, Idle, None, status, None)],
                           managers := s.managers + if manager then {id} else {}))
  {
    assert s.managers + {} == s.managers;
  }

  /** Any work may be given a status and a next check; the check is not negative, and a settled work has none. */
  lemma StatusIsSetExactly(s: Inbox, id: WorkId, status: Status, nextCheck: Option<int>)
    ensures
      var tx := SetStatus(s, id, status, nextCheck);
      && (tx.Commit? <==> id in s.works && (nextCheck.Some? ==> nextCheck.value >= 0 && status != Settled))
      && (tx.Commit? ==>
            tx.state == s.(works := s.works[id := s.works[id].(status := status, nextCheck := nextCheck)]))
  {
  }

  /** A thread is bound exactly to a work that has none while no work has it, and binding it again to the same
      work is no change. A thread made for a work is bound to it by the acknowledgement of its creation. */
  lemma ThreadsAreBoundExactly(s: Inbox, id: WorkId, thread: ThreadId)
    ensures
      var free := forall w :: w in s.works ==> s.works[w].thread != Some(thread);
      var bound, begun, made := BindThread(s, id, thread), BeginThreadCreation(s, id), AcknowledgeThreadCreation(s, id, thread);
      && (bound.Commit? <==> HasThread(s, id, thread) || (id in s.works && s.works[id].thread.None? && free))
      && (bound.Commit? ==> bound.state == s.(works := s.works[id := s.works[id].(thread := Some(thread))]))
      && (begun.Commit? <==> id in s.works && s.works[id].dispatch == Idle && s.works[id].thread.None?)
      && (begun.Commit? ==>
            && begun.state == s.(works := s.works[id := s.works[id].(dispatch := Dispatching)])
            && (free ==> AcknowledgeThreadCreation(begun.state, id, thread) ==
                           Commit(s.(works := s.works[id := s.works[id].(thread := Some(thread))]), ())))
      && (made.Commit? <==> id in s.works && s.works[id].dispatch == Dispatching && s.works[id].thread.None? && free)
  {
    if id in s.works {
      var w := s.works[id];
      var begun := s.works[id := w.(dispatch := Dispatching)];
      assert begun[id := begun[id].(thread := Some(thread), dispatch := Idle)] ==
             s.works[id := w.(thread := Some(thread), dispatch := Idle)];
      assert s.works[id := w] == s.works;
    }
  }

  /** A context is activated exactly for an idle work on the thread that it leaves, with an acknowledged thread
      that no other work has and the history does not know. */
  lemma ContextsAreActivatedExactly(s: Inbox, id: WorkId, left: ThreadId, thread: ThreadId, receipt: bool, revised: bool)
    requires Fence(s) && forall e :: e in s.events ==> s.events[e].source != Refreshed(id, thread)
    ensures
      ActivateContext(s, id, left, thread, receipt, revised).Commit? <==>
        && receipt && HasThread(s, id, left) && s.works[id].dispatch == Idle
        && (forall w :: w in s.works && s.works[w].thread == Some(thread) ==> w == id) && !revised
  {
    if id in s.works {
      assert WorkOk(s.works[id]);
      var moved := SetWork(s, id, s.works[id].(thread := Some(thread)));
      assert RowsOk(moved);
      FindIs(moved, Refreshed(id, thread));
    }
  }

  // ----------------------------------------------------------------------- forks

  /** The row that a fork reserves: beside its source under the same parent, or below it. */
  function Forked(s: Inbox, source: WorkId, attached: bool): Work
    requires source in s.works
  {
    var w := s.works[source];
    Work(if !attached && w.parent.Some? then w.parent else Some(source), w.kind, None, Dispatching, None, Open, None)
  }

  /** A fork is reserved exactly from an idle, bound, unsettled work, for a new work whose parent is a goal; it
      is a manager if its source is one or stands alone. */
  lemma ForksAreReservedExactly(s: Inbox, source: WorkId, target: WorkId, attached: bool)
    requires source in s.works && WorkOk(s.works[source])
    ensures
      var w, fork := s.works[source], Forked(s, source, attached);
      var tx := ReserveFork(s, source, target, attached);
      var managing := source in s.managers || w.parent.None?;
      var ready := w.thread.Some? && w.dispatch == Idle && w.status != Settled;
      var sound :=
        && target !in s.works && fork.parent.value in s.works && s.works[fork.parent.value].kind == Goal
        && (managing ==> w.kind == Goal);
      && (tx.Commit? <==> ready ==> sound)
      && (tx.Commit? ==>
            tx.state == if ready then s.(works := s.works[target := fork],
                                         managers := s.managers + if managing then {target} else {}) else s)
  {
    assert s.managers + {} == s.managers;
  }

  /** The acknowledged thread makes a reserved fork an idle work of its own, a refusal settles it unbound; the
      first of the two answers stands. */
  lemma TheFirstForkAnswerStands(s: Inbox, target: WorkId, thread: ThreadId)
    requires target in s.works && s.works[target].thread.None? && s.works[target].dispatch == Dispatching
    ensures
      var free := forall w :: w in s.works ==> s.works[w].thread != Some(thread);
      var bound, refused := After(s, AcknowledgeFork(s, target, thread)), After(s, RejectFork(s, target));
      && bound == (if free then s.(works := s.works[target := s.works[target].(thread := Some(thread), dispatch := Idle)]) else s)
      && (free ==> After(bound, RejectFork(bound, target)) == bound)
      && refused == s.(works := s.works[target := s.works[target].(status := Settled, dispatch := Idle)])
      && After(refused, AcknowledgeFork(refused, target, thread)) == refused
  {
  }

  // ------------------------------------------------------------------- decisions

  /** An explicit decision is taken exactly about an undecided event, with a next check only if the work is not
      settled. It is written on the event, and the work follows it unless a newer delegation replaced
      the one whose result this is. */
  lemma DecisionsAreTakenExactly(s: Inbox, event: EventId, disposition: Status, nextCheck: Option<int>, superseded: bool)
    ensures
      var tx := Dispose(s, event, disposition, nextCheck, superseded);
      && (tx.Commit? <==>
            && event in s.events && s.events[event].disposition.None? && disposition != Open
            && (nextCheck.Some? ==> nextCheck.value >= 0 && disposition != Settled))
      && (tx.Commit? ==>
            var e := s.events[event];
            var follows := e.work in s.works && !(superseded && e.kind == WorkerTurnCompleted);
            tx.state == s.(events := s.events[event := e.(disposition := Some(disposition))],
                           works := if follows then
                                      s.works[e.work := s.works[e.work].(status := disposition, nextCheck := nextCheck)]
                                    else s.works))
  {
  }

  /** A decision is taken once: whatever happens later, the event keeps it, and no other one is taken. */
  lemma DecisionsAreTakenOnce(s: Inbox, event: EventId, disposition: Status, nextCheck: Option<int>, superseded: bool,
                              later: seq<Command>, other: Status, check: Option<int>, replaced: bool)
    requires Fence(s) && Dispose(s, event, disposition, nextCheck, superseded).Commit?
    ensures
      var n := Run(Dispose(s, event, disposition, nextCheck, superseded).state, later);
      && event in n.events && n.events[event] == s.events[event].(disposition := Some(disposition))
      && Dispose(n, event, other, check, replaced).Rollback?
  {
    DisposeGood(s, event, disposition, nextCheck, superseded);
    var u := Dispose(s, event, disposition, nextCheck, superseded).state;
    RunGood(u, later);
    assert EventEvolves(u.events[event], Run(u, later).events[event]);
  }

  /** A retry is queued exactly for an undelivered message of an idle manager that a refusal returned to the
      user, when such a message may be sent at all. The same message is queued, and a work that waited for
      the user's decision is open again. */
  lemma RetriesAreQueuedExactly(s: Inbox, id: WorkId, thread: ThreadId, event: EventId, gate: Gate)
    requires Fence(s) && forall e :: e in s.events ==> s.events[e].source != Retried(id, event)
    ensures
      var tx := RetryInput(s, id, thread, event, gate);
      && (tx.Commit? <==>
            && HasThread(s, id, thread) && id in s.managers && s.works[id].dispatch == Idle
            && event in s.events && s.events[event].work == id && s.events[event].kind == UserMessage
            && s.events[event].disposition == Some(UserDecision) && s.events[event].delivery.None?
            && !gate.editPending && !gate.badInput && !gate.paused
            && forall e :: e in s.events && s.events[e].kind == ThreadInUse && s.events[e].work == id ==>
                 s.events[e].disposition.Some?)
      && (tx.Commit? ==>
            var w := s.works[id];
            tx.state == s.(events := s.events[s.nextEvent :=
                             Event(Retried(id, event), id, UserMessage, s.events[event].payload, None, None)],
                           nextEvent := s.nextEvent + 1,
                           works := if w.status == UserDecision then s.works[id := w.(status := Open, nextCheck := None)]
                                    else s.works))
  {
    FindIs(s, Retried(id, event));
  }

  // -------------------------------------------------------------------- refusals

  /** A refusal is accepted exactly from the owner of a dispatching work that is on the thread and without the
      turn it was dispatched with, and only if everything it claimed can be handed back. The work then
      waits, idle, for the user's decision. */
  lemma RefusalsAreAcceptedExactly(s: Inbox, id: WorkId, previous: Work, gate: Gate)
    ensures
      var tx := RejectDispatch(s, id, previous, gate);
      && (tx.Commit? <==>
            && gate.owned && previous.dispatch == Idle && previous.thread.Some?
            && id in s.works && s.works[id].dispatch == Dispatching
            && s.works[id].thread == previous.thread && s.works[id].turn == previous.turn
            && forall e :: e in s.events && s.events[e].disposition.None? && s.events[e].delivery == Some(Delivery(id, FENCE)) ==>
                 s.events[e].kind == UserMessage || s.events[e].kind == AsyncAnswer || s.events[e].kind == WorkInstruction)
      && (tx.Commit? ==>
            && tx.state == s.(works := tx.state.works, events := tx.state.events)
            && tx.state.works == s.works[id := s.works[id].(dispatch := Idle, status := UserDecision, nextCheck := None)])
  {
  }

  predicate IsSteerInto(s: Inbox, id: WorkId, event: EventId)
    requires id in s.works && event in s.events
  {
    && s.events[event].kind == SteerPending && s.events[event].payload.asyncQuestion
    && s.works[id].dispatch == Running && s.works[id].turn.Some?
    && s.events[event].delivery == Some(Delivery(id, s.works[id].turn.value))
  }

  predicate IsOnlyClaim(s: Inbox, id: WorkId, event: EventId)
    requires id in s.works && event in s.events
  {
    && s.events[event].kind == AsyncAnswer && s.works[id].dispatch == Dispatching && s.works[id].turn.None?
    && s.events[event].delivery == Some(Delivery(id, FENCE))
    && forall e :: e in s.events && s.events[e].disposition.None? && s.events[e].delivery == Some(Delivery(id, FENCE)) ==> e == event
  }

  /** A rejected async input is retired exactly if it is undecided input of that work, and either a steer into its
      running turn, or the only thing its dispatch claimed; then the dispatch is released with the status
      and the next check it had before. No other row changes. */
  lemma RejectedAnswersAreRetiredExactly(s: Inbox, id: WorkId, event: EventId, previous: Option<Work>)
    ensures
      var tx := RejectAsync(s, id, event, previous);
      && (tx.Commit? <==>
            && id in s.works && event in s.events && s.events[event].work == id && s.events[event].disposition.None?
            && (if previous.None? then IsSteerInto(s, id, event)
                else IsOnlyClaim(s, id, event) && previous.value.dispatch == Idle))
      && (tx.Commit? ==>
            tx.state == s.(events := s.events[event := s.events[event].(disposition := Some(Settled))],
                           works := if previous.None? then s.works
                                    else s.works[id := s.works[id].(dispatch := Idle, status := previous.value.status,
                                                                    nextCheck := previous.value.nextCheck)]))
  {
  }

  /** When questions are gone, exactly their undecided answers that were never sent are retired. */
  lemma UnsentAnswersAreRetiredExactly(s: Inbox, id: WorkId, gone: set<EventId>)
    ensures
      var tx := RetireUnsent(s, id, gone);
      && tx.Commit? && tx.state == s.(events := tx.state.events) && tx.state.events.Keys == s.events.Keys
      && forall e :: e in s.events ==>
           tx.state.events[e] ==
             if && e in gone && s.events[e] == Event(s.events[e].source, id, AsyncAnswer, s.events[e].payload, None, None)
             then s.events[e].(disposition := Some(Settled)) else s.events[e]
  {
  }

  // -------------------------------------------------------------- observed turns

  predicate RunsTurn(s: Inbox, id: WorkId, turn: TurnId) {
    id in s.works && s.works[id].dispatch == Running && s.works[id].turn == Some(turn)
  }

  /** A running turn ends, and is steered, only under its own name; a steer travels in it from the start. */
  lemma RunningTurnsAnswerToTheirName(s: Inbox, id: WorkId, turn: TurnId, key: int, payload: Payload)
    requires Fence(s)
    ensures
      var done, steered := Complete(s, id, turn), BeginSteer(s, id, turn, key, payload);
      && (done.Commit? <==> RunsTurn(s, id, turn))
      && (done.Commit? ==> done.state == s.(works := s.works[id := s.works[id].(dispatch := Idle, turn := None)]))
      && (steered.Commit? <==>
            RunsTurn(s, id, turn) && forall e :: e in s.events ==> s.events[e].source != Steered(id, key))
      && (steered.Commit? ==>
            && steered.reply !in s.events
            && steered.state.works == s.works
            && steered.state.events == s.events[steered.reply :=
                 Event(Steered(id, key), id, SteerPending, payload, None, Some(Delivery(id, turn)))])
  {
    FindIs(s, Steered(id, key));
  }

  /** A terminal row of the turn: it ended, or it ran out of capacity and is retried. */
  predicate EndSeen(s: Inbox, id: WorkId, thread: ThreadId, turn: TurnId) {
    exists e :: e in s.events && s.events[e].work == id
      && (s.events[e].kind == AgentTurnCompleted || s.events[e].kind == WorkerTurnCompleted || s.events[e].kind == CapacityRetry)
      && s.events[e].payload.terminal.Some? && s.events[e].payload.terminal.value.thread == thread
      && s.events[e].payload.terminal.value.turn == turn
  }

  /** A native turn is recorded exactly when the owner of the work on its thread reports it, the work is idle or
      runs that very turn, and neither the turn nor its end was recorded. An idle work runs it from then
      on, and only this is reported as an adoption; everything else leaves the tables alone. */
  lemma NativeTurnsAreRecordedExactly(s: Inbox, id: WorkId, thread: ThreadId, turn: TurnId, account: Option<int>,
                                      payload: Payload, gate: Gate)
    requires Fence(s) && 0 < |turn| <= 512
    ensures
      var tx := ObserveNativeTurn(s, id, thread, turn, account, payload, gate);
      var unseen :=
        && gate.owned && HasThread(s, id, thread)
        && (s.works[id].dispatch == Idle || RunsTurn(s, id, turn))
        && (forall e :: e in s.events ==> s.events[e].source != NativeTurn(id, account, thread, turn))
        && !EndSeen(s, id, thread, turn);
      && tx.Commit? && (tx.reply <==> unseen && s.works[id].dispatch == Idle)
      && tx.state ==
           if !unseen then s
           else
             s.(events := s.events[s.nextEvent :=
                  Event(NativeTurn(id, account, thread, turn), id, NativeTurnStarted, payload, Some(Settled), None)],
                nextEvent := s.nextEvent + 1,
                works := if s.works[id].dispatch == Idle then
                           s.works[id := s.works[id].(dispatch := Running, turn := Some(turn))]
                         else s.works)
  {
    FindIs(s, NativeTurn(id, account, thread, turn));
    assert EndSeen(s, id, thread, turn) <==> TerminalSeen(s, id, thread, turn);
  }

  // ----------------------------------------------------------------- voice calls

  ghost predicate OneOpen(s: Inbox) {
    && (forall i, j :: 0 <= i < j < |s.calls| ==> !(s.calls[i].open && s.calls[j].open))
    && (forall i, j :: 0 <= i < j < |s.calls| ==> s.calls[i].session != s.calls[j].session)
  }

  /** A call begins exactly on the thread of an idle or running work that the caller's process hosts, while no
      prompt edit is under way, no call is open, and its session is new. Closing it closes it alone. */
  lemma CallsBeginExactly(s: Inbox, call: VoiceCall, gate: Gate, session: int)
    ensures
      var tx := BeginVoiceCall(s, call, gate);
      var closed := CloseVoiceCall(s, session).state;
      && (tx.Commit? <==>
            && (call.baseline.Some? ==> 0 < |call.baseline.value| <= 512)
            && HasThread(s, call.work, call.thread)
            && (s.works[call.work].dispatch == Idle || s.works[call.work].dispatch == Running)
            && gate.hosts && !gate.editPending
            && forall i :: 0 <= i < |s.calls| ==> !s.calls[i].open && s.calls[i].session != call.session)
      && (tx.Commit? ==> tx.state == s.(calls := s.calls + [call.(open := true)]))
      && closed == s.(calls := closed.calls) && |closed.calls| == |s.calls|
      && forall i :: 0 <= i < |s.calls| ==>
           closed.calls[i] == s.calls[i].(open := s.calls[i].open && s.calls[i].session != session)
  {
  }

  /** At every moment at most one call is open, and no session has two. */
  lemma {:induction false} OneOpenCall(commands: seq<Command>)
    ensures OneOpen(Run(Empty, commands))
  {
    if commands != [] {
      var before, c := commands[..|commands| - 1], commands[|commands| - 1];
      OneOpenCall(before);
      var s := Run(Empty, before);
      CallsKept(s, c);
      if c.DoBeginCall? { CallsBeginExactly(s, c.call, c.gate, 0); }
      if c.DoCloseCall? { CallsBeginExactly(s, VoiceCall(0, 0, 0, 0, None, false), AtEase, c.session); }
    }
  }

  predicate KeepsCalls(s: Inbox, u: Inbox) {
    u.calls == s.calls && s.heard <= u.heard
  }

  lemma CallsKept(s: Inbox, c: Command)
    ensures !c.DoBeginCall? && !c.DoCloseCall? ==> KeepsCalls(s, Step(s, c))
    ensures s.heard <= Step(s, c).heard
  {
    if c.DoBegin? { BeginKeepsCalls(s, c); }
    else if IsDispatchStep(c) || IsTurnStep(c) { TurnsKeepCalls(s, c); }
    else if IsEventStep(c) || IsRefusalStep(c) { DecisionsKeepCalls(s, c); }
  }

  lemma TurnsKeepCalls(s: Inbox, c: Command)
    requires (IsDispatchStep(c) || IsTurnStep(c)) && !c.DoBegin?
    ensures KeepsCalls(s, Step(s, c))
  {
  }

  lemma DecisionsKeepCalls(s: Inbox, c: Command)
    requires IsEventStep(c) || IsRefusalStep(c)
    ensures KeepsCalls(s, Step(s, c))
  {
  }

  lemma BeginKeepsCalls(s: Inbox, c: Command)
    requires c.DoBegin?
    ensures Step(s, c).calls == s.calls && Step(s, c).heard == s.heard
  {
    if c.id in s.works { ClaimingKeepsCalls(SetWork(s, c.id, s.works[c.id].(dispatch := Dispatching)), c.id, c.ids); }
  }

  lemma {:induction false} ClaimingKeepsCalls(s: Inbox, root: WorkId, ids: seq<EventId>)
    ensures ClaimAll(s, root, ids).Some? ==>
      ClaimAll(s, root, ids).value.calls == s.calls && ClaimAll(s, root, ids).value.heard == s.heard
  {
    if ids != [] { ClaimingKeepsCalls(s, root, ids[..|ids| - 1]); }
  }

  /** The newest call of a generation on a thread. */
  predicate IsLatest(s: Inbox, thread: ThreadId, generation: int, i: nat) {
    && i < |s.calls| && s.calls[i].thread == thread && s.calls[i].generation == generation
    && forall j :: i < j < |s.calls| ==> s.calls[j].thread != thread || s.calls[j].generation != generation
  }

  lemma {:induction false} LatestCallIs(s: Inbox, calls: seq<VoiceCall>, thread: ThreadId, generation: int)
    requires calls <= s.calls
    requires forall j :: |calls| <= j < |s.calls| ==> s.calls[j].thread != thread || s.calls[j].generation != generation
    ensures LatestCall(calls, thread, generation).None? ==>
      forall i :: 0 <= i < |s.calls| ==> s.calls[i].thread != thread || s.calls[i].generation != generation
    ensures LatestCall(calls, thread, generation).Some? ==>
      exists i: nat :: IsLatest(s, thread, generation, i) && LatestCall(calls, thread, generation) == Some(s.calls[i])
  {
    if calls != [] {
      var n := |calls| - 1;
      assert calls[n] == s.calls[n];
      if calls[n].thread == thread && calls[n].generation == generation {
        assert IsLatest(s, thread, generation, n);
      } else {
        LatestCallIs(s, calls[..n], thread, generation);
      }
    }
  }

  /** A voice turn is heard exactly when a call of the generation was on the thread, no such call began after the
      turn, and it was not heard before. The work of the newest such call then runs it: it did already, or it
      was idle and is open from now on; a work that is busy with anything else is a conflict. */
  lemma VoiceTurnsAreHeardExactly(s: Inbox, generation: int, thread: ThreadId, turn: TurnId, i: nat)
    requires 0 < |turn| <= 512 && IsLatest(s, thread, generation, i) && s.calls[i].work in s.works
    ensures
      var tx := ObserveVoiceTurn(s, generation, thread, turn);
      var id := s.calls[i].work;
      var w := s.works[id];
      var unheard :=
        && (generation, thread, turn) !in s.heard
        && forall j :: 0 <= j < |s.calls| && s.calls[j].generation == generation && s.calls[j].thread == thread ==>
             s.calls[j].baseline != Some(turn);
      && (!unheard ==> tx == Commit(s, false))
      && (unheard && w.dispatch != Idle && !RunsTurn(s, id, turn) ==> tx == Rollback(Conflict))
      && (unheard && (w.dispatch == Idle || RunsTurn(s, id, turn)) ==>
            && tx.Commit? && tx.reply && tx.state.events == s.events
            && tx.state.heard == s.heard + {(generation, thread, turn)}
            && tx.state.works ==
                 if w.dispatch == Idle then
                   s.works[id := w.(dispatch := Running, turn := Some(turn), status := Open, nextCheck := None)]
                 else s.works)
  {
    LatestCallIs(s, s.calls, thread, generation);
    assert forall k: nat :: IsLatest(s, thread, generation, k) ==> k == i;
  }

  /** A heard turn is not heard again, in any later state. */
  lemma VoiceTurnsAreHeardOnce(s: Inbox, generation: int, thread: ThreadId, turn: TurnId, later: seq<Command>)
    requires
      var tx := ObserveVoiceTurn(s, generation, thread, turn);
      tx.Commit? && tx.reply
    ensures
      var n := Run(ObserveVoiceTurn(s, generation, thread, turn).state, later);
      ObserveVoiceTurn(n, generation, thread, turn) == Commit(n, false)
  {
    HeardIsKept(ObserveVoiceTurn(s, generation, thread, turn).state, later);
  }

  lemma {:induction false} HeardIsKept(s: Inbox, later: seq<Command>)
    ensures s.heard <= Run(s, later).heard
  {
    if later != [] {
      HeardIsKept(s, later[..|later| - 1]);
      CallsKept(Run(s, later[..|later| - 1]), later[|later| - 1]);
    }
  }
}

/** Every inbox transaction keeps the fence and lets rows evolve only as they may. */
module InboxSteps {
  import opened Prelude
  import opened Reachability
  import opened InboxModel
  import opened InboxFence

  ghost predicate Good(s: Inbox, u: Inbox) {
    Fence(u) && Evolves(s, u)
  }

  // ---------------------------------------------------------- works and threads

  lemma CreateGood(s: Inbox, id: WorkId, parent: Option<WorkId>, kind: WorkKind, manager: bool, status: Status)
    requires Fence(s)
    ensures Good(s, After(s, CreateWork(s, id, parent, kind, manager, status)))
  {
    if CreateWork(s, id, parent, kind, manager, status).Commit? {
      NothingClaimed(s, id);
      WorkMoves(s, id, Work(parent, kind, None, Idle, None, status, None));
    }
  }

  /** A new status changes nothing about the dispatch. */
  lemma StatusMoves(s: Inbox, id: WorkId, status: Status, nextCheck: Option<int>)
    requires Fence(s) && id in s.works
    ensures Good(s, SetWork(s, id, s.works[id].(status := status, nextCheck := nextCheck)))
  {
    var w := s.works[id];
    if !(w.thread.Some? && (w.dispatch.Dispatching? || w.dispatch.Unknown?)) { NothingClaimed(s, id); }
    WorkMoves(s, id, w.(status := status, nextCheck := nextCheck));
  }

  lemma BindGood(s: Inbox, id: WorkId, thread: ThreadId)
    requires Fence(s)
    ensures Good(s, After(s, BindThread(s, id, thread)))
  {
    if id in s.works && s.works[id].thread.None? && !ThreadUsed(s, thread) {
      NothingClaimed(s, id);
      WorkMoves(s, id, s.works[id].(thread := Some(thread)));
    }
  }

  /** An idle work has nothing behind the fence, so its thread may change. */
  lemma ActivateGood(s: Inbox, id: WorkId, left: ThreadId, thread: ThreadId, receipt: bool, revised: bool)
    requires Fence(s)
    ensures
      var u := After(s, ActivateContext(s, id, left, thread, receipt, revised));
      Fence(u) && Follows(s, u, {id})
  {
    var tx := ActivateContext(s, id, left, thread, receipt, revised);
    if tx.Commit? {
      NothingClaimed(s, id);
      var moved := SetWork(s, id, s.works[id].(thread := Some(thread)));
      forall e | e in moved.events ensures ClaimOk(moved.works, moved.events[e]) {
        assert ClaimOk(s.works, s.events[e]);
        if BehindFence(s.events[e]) {
          var d := s.events[e].delivery.value;
          assert s.events[e].delivery == Some(Delivery(d.work, d.turn));
        }
      }
      assert Fence(moved);
      EnqueueGood(moved, RefreshDone(id, thread), true, AtEase);
      assert Follows(s, moved, {id});
      assert Follows(moved, tx.state, {});
      FollowsThrough(s, moved, tx.state, {id}, {});
      assert {id} + {} == {id};
    } else {
      assert Follows(s, s, {id});
    }
  }

  lemma CreationGood(s: Inbox, id: WorkId, thread: ThreadId)
    requires Fence(s)
    ensures Good(s, After(s, BeginThreadCreation(s, id)))
    ensures Good(s, After(s, AcknowledgeThreadCreation(s, id, thread)))
  {
    if id in s.works && s.works[id].thread.None? {
      NothingClaimed(s, id);
      if s.works[id].dispatch.Idle? { WorkMoves(s, id, s.works[id].(dispatch := Dispatching)); }
      if s.works[id].dispatch.Dispatching? && !ThreadUsed(s, thread) {
        WorkMoves(s, id, s.works[id].(thread := Some(thread), dispatch := Idle));
      }
    }
  }

  lemma ReserveForkGood(s: Inbox, source: WorkId, target: WorkId, attached: bool)
    requires Fence(s)
    ensures Good(s, After(s, ReserveFork(s, source, target, attached)))
  {
    var u := After(s, ReserveFork(s, source, target, attached));
    if u != s {
      NothingClaimed(s, target);
      WorkMoves(s, target, u.works[target]);
    }
  }

  lemma ForkGood(s: Inbox, target: WorkId, thread: ThreadId)
    requires Fence(s)
    ensures Good(s, After(s, AcknowledgeFork(s, target, thread)))
    ensures Good(s, After(s, RejectFork(s, target)))
  {
    if target in s.works && s.works[target].thread.None? && s.works[target].dispatch.Dispatching? {
      NothingClaimed(s, target);
      if !ThreadUsed(s, thread) { WorkMoves(s, target, s.works[target].(thread := Some(thread), dispatch := Idle)); }
      WorkMoves(s, target, s.works[target].(status := Settled, dispatch := Idle));
    }
  }

  lemma EnqueueGood(s: Inbox, input: Input, observation: bool, gate: Gate)
    requires Fence(s)
    ensures Good(s, After(s, Enqueue(s, input, observation, gate)))
  {
    if Find(s, input.source).None? {
      InsertKeeps(s, Event(input.source, input.work, input.kind, input.payload,
                           if observation then Some(Settled) else None, None));
    }
  }

  // ---------------------------------------------------------------- dispatching

  /** Claiming keeps everything about the works and moves only unclaimed rows behind the fence. */
  lemma {:induction false} ClaimAllGood(s: Inbox, root: WorkId, ids: seq<EventId>)
    requires Fence(s) && root in s.works && s.works[root].thread.Some? && s.works[root].dispatch.Dispatching?
    requires ClaimAll(s, root, ids).Some?
    ensures
      var u := ClaimAll(s, root, ids).value;
      && Good(s, u) && u.works == s.works && u.managers == s.managers && u.nextEvent == s.nextEvent
  {
    if ids != [] {
      var n := |ids| - 1;
      ClaimAllGood(s, root, ids[..n]);
      var t := ClaimAll(s, root, ids[..n]).value;
      FencedGood(t, root, ids[n]);
      EvolvesThrough(s, t, Fenced(t, root, ids[n]));
    }
  }

  lemma FencedGood(s: Inbox, root: WorkId, id: EventId)
    requires Fence(s) && root in s.works && s.works[root].thread.Some? && s.works[root].dispatch.Dispatching?
    requires id in s.events && ClaimableRow(s, root, s.events[id])
    ensures Good(s, Fenced(s, root, id))
  {
    var u := Fenced(s, root, id);
    forall e | e in u.events ensures ClaimOk(u.works, u.events[e]) { assert ClaimOk(s.works, s.events[e]); }
    forall d, e | d in u.events && e in u.events && u.events[d].source == u.events[e].source ensures d == e {
      assert s.events[d].source == s.events[e].source;
    }
  }

  lemma InstructGood(s: Inbox, id: WorkId, instruction: Option<Payload>)
    requires Fence(s) && id in s.works && s.works[id].thread.Some? && s.works[id].dispatch.Dispatching?
    requires Instruct(s, id, instruction).Commit?
    ensures Good(s, Instruct(s, id, instruction).state)
  {
    if instruction.Some? {
      var source := Instructed(id, NewestBelow(s, id, s.nextEvent));
      InsertKeeps(s, Event(source, id, WorkInstruction, instruction.value, None, Some(Delivery(id, FENCE))));
    }
  }

  lemma BeginGood(s: Inbox, id: WorkId, ids: seq<EventId>, instruction: Option<Payload>, stale: set<EventId>, gate: Gate)
    requires Fence(s)
    ensures Good(s, After(s, BeginDispatch(s, id, ids, instruction, stale, gate)))
  {
    var tx := BeginDispatch(s, id, ids, instruction, stale, gate);
    if tx.Commit? {
      var w := s.works[id].(dispatch := Dispatching);
      WorkMoves(s, id, w);
      var begun := SetWork(s, id, w);
      ClaimAllGood(begun, id, ids);
      var claimed := ClaimAll(begun, id, ids).value;
      StatusMoves(claimed, id, Open, None);
      InstructGood(Reopen(claimed, id), id, instruction);
      EvolvesThrough(s, begun, claimed);
      EvolvesThrough(s, claimed, Reopen(claimed, id));
      EvolvesThrough(s, Reopen(claimed, id), tx.state);
    }
  }

  /** Delivering a claim empties the fence of its work. */
  lemma DeliverGood(s: Inbox, id: WorkId, turn: TurnId)
    requires Fence(s) && turn != FENCE
    ensures Good(s, s.(events := Deliver(s.events, id, turn)))
    ensures forall e :: e in s.events ==> !Claimed(Deliver(s.events, id, turn)[e], id)
  {
    EventsMove(s, Deliver(s.events, id, turn));
  }

  lemma SettleGood(s: Inbox, selects: Event -> bool)
    requires Fence(s) && forall e :: e in s.events && selects(s.events[e]) ==> s.events[e].disposition.None?
    ensures Good(s, s.(events := Settle(s.events, selects)))
    ensures forall e, w :: e in s.events && !Claimed(s.events[e], w) ==> !Claimed(Settle(s.events, selects)[e], w)
  {
    EventsMove(s, Settle(s.events, selects));
  }

  lemma AckGood(s: Inbox, id: WorkId, turn: TurnId, withExecution: bool)
    requires Fence(s)
    ensures Good(s, After(s, Acknowledge(s, id, turn, withExecution)))
  {
    var tx := Acknowledge(s, id, turn, withExecution);
    if tx.Commit? {
      assert turn != FENCE;
      DeliverGood(s, id, turn);
      var delivered := s.(events := Deliver(s.events, id, turn));
      var selects := (e: Event) => Carries(e, id, turn) && (e.kind.WorkInstruction? || e.kind.AssistantInstruction?);
      SettleGood(delivered, selects);
      var settled := delivered.(events := Settle(delivered.events, selects));
      assert settled.events == Accepted(delivered.events, id, turn);
      WorkMoves(settled, id, s.works[id].(dispatch := Running, turn := Some(turn)));
      EvolvesThrough(s, delivered, settled);
      EvolvesThrough(s, settled, tx.state);
    }
  }

  lemma ReleasedGood(s: Inbox, id: WorkId, turn: TurnId)
    requires Fence(s) && Runs(s, id, turn)
    ensures Good(s, Released(s, id))
  {
    NothingClaimed(s, id);
    WorkMoves(s, id, s.works[id].(dispatch := Idle, turn := None));
  }

  lemma RecordedGood(s: Inbox, input: Input)
    requires Fence(s) && Recorded(s, input).Commit?
    ensures Good(s, Recorded(s, input).state)
  {
    if Find(s, input.source).None? {
      InsertKeeps(s, Event(input.source, input.work, input.kind, input.payload, None, None));
    }
  }

  lemma CompleteWithGood(s: Inbox, id: WorkId, turn: TurnId, input: Input, awaiting: bool)
    requires Fence(s)
    ensures Good(s, After(s, CompleteWithEvent(s, id, turn, input, awaiting)))
  {
    var tx := CompleteWithEvent(s, id, turn, input, awaiting);
    if tx.Commit? {
      var kind := if IsCompletion(input.kind) then (if awaiting then WorkerTurnCompleted else AgentTurnCompleted)
                  else input.kind;
      var handled := IsCompletion(input.kind) && input.payload.terminal.Some? && input.payload.terminal.value.completed;
      RecordedGood(s, input.(kind := kind));
      var recorded := Recorded(s, input.(kind := kind)).state;
      var receipted := recorded.(events := Receipted(recorded.events, tx.reply));
      EventsMove(recorded, receipted.events);
      var done := receipted.(events := Handled(receipted.events, id, turn, handled));
      if handled { SettleGood(receipted, (e: Event) => Carries(e, id, turn) && (e.kind.UserMessage? || e.kind.AsyncAnswer?)); }
      else { assert done == receipted; }
      ReleasedGood(done, id, turn);
      EvolvesThrough(s, recorded, receipted);
      assert Evolves(receipted, done);
      EvolvesThrough(s, receipted, done);
      EvolvesThrough(s, done, tx.state);
    }
  }

  lemma ReconcileGood(s: Inbox, id: WorkId, turn: TurnId)
    requires Fence(s)
    ensures Good(s, After(s, Reconcile(s, id, turn)))
  {
    var tx := Reconcile(s, id, turn);
    if tx.Commit? {
      assert turn != FENCE;
      DeliverGood(s, id, turn);
      var delivered := s.(events := Deliver(s.events, id, turn));
      WorkMoves(delivered, id, s.works[id].(dispatch := Running, turn := Some(turn)));
      EvolvesThrough(s, delivered, tx.state);
    }
  }

  lemma MarkUnknownGood(s: Inbox, id: WorkId)
    requires Fence(s)
    ensures Good(s, After(s, MarkUnknown(s, id)))
  {
    if MarkUnknown(s, id).Commit? {
      var w := s.works[id];
      if !(w.thread.Some? && w.dispatch.Dispatching?) { NothingClaimed(s, id); }
      WorkMoves(s, id, w.(dispatch := Unknown));
    }
  }

  // ------------------------------------------------------ decisions and refusals

  lemma DisposeGood(s: Inbox, event: EventId, disposition: Status, nextCheck: Option<int>, superseded: bool)
    requires Fence(s)
    ensures Good(s, After(s, Dispose(s, event, disposition, nextCheck, superseded)))
  {
    var tx := Dispose(s, event, disposition, nextCheck, superseded);
    if tx.Commit? {
      var e := s.events[event];
      var decided := s.(events := s.events[event := e.(disposition := Some(disposition))]);
      EventsMove(s, decided.events);
      if tx.state != decided {
        StatusMoves(decided, e.work, disposition, nextCheck);
        EvolvesThrough(s, decided, tx.state);
      }
    }
  }

  lemma RetryGood(s: Inbox, id: WorkId, thread: ThreadId, event: EventId, gate: Gate)
    requires Fence(s)
    ensures Good(s, After(s, RetryInput(s, id, thread, event, gate)))
  {
    var u := After(s, RetryInput(s, id, thread, event, gate));
    if u != s {
      var input := Input(Retried(id, event), id, UserMessage, s.events[event].payload);
      EnqueueGood(s, input, false, gate);
      var queued := After(s, Enqueue(s, input, false, gate));
      if u != queued {
        StatusMoves(queued, id, Open, None);
        EvolvesThrough(s, queued, u);
      }
    }
  }

  lemma RejectGood(s: Inbox, id: WorkId, previous: Work, gate: Gate)
    requires Fence(s)
    ensures Good(s, After(s, RejectDispatch(s, id, previous, gate)))
  {
    var tx := RejectDispatch(s, id, previous, gate);
    if tx.Commit? {
      var returned := s.(events := tx.state.events);
      EventsMove(s, returned.events);
      WorkMoves(returned, id, tx.state.works[id]);
      EvolvesThrough(s, returned, tx.state);
    }
  }

  lemma RejectAsyncGood(s: Inbox, id: WorkId, event: EventId, before: Option<Work>)
    requires Fence(s)
    ensures Good(s, After(s, RejectAsync(s, id, event, before)))
  {
    var tx := RejectAsync(s, id, event, before);
    if tx.Commit? {
      var retired := s.(events := s.events[event := s.events[event].(disposition := Some(Settled))]);
      EventsMove(s, retired.events);
      if before.Some? {
        assert forall e :: e in retired.events && e != event ==> retired.events[e] == s.events[e];
        WorkMoves(retired, id, tx.state.works[id]);
        EvolvesThrough(s, retired, tx.state);
      }
    }
  }

  // ------------------------------------------------------- observed native turns

  lemma SteerGood(s: Inbox, id: WorkId, turn: TurnId, key: int, payload: Payload)
    requires Fence(s)
    ensures Good(s, After(s, BeginSteer(s, id, turn, key, payload)))
  {
    if BeginSteer(s, id, turn, key, payload).Commit? {
      assert WorkOk(s.works[id]);
      InsertKeeps(s, Event(Steered(id, key), id, SteerPending, payload, None, Some(Delivery(id, turn))));
    }
  }

  lemma NativeTurnGood(s: Inbox, id: WorkId, thread: ThreadId, turn: TurnId, account: Option<int>, payload: Payload, gate: Gate)
    requires Fence(s)
    ensures Good(s, After(s, ObserveNativeTurn(s, id, thread, turn, account, payload, gate)))
  {
    var u := After(s, ObserveNativeTurn(s, id, thread, turn, account, payload, gate));
    if u != s {
      var row := Event(NativeTurn(id, account, thread, turn), id, NativeTurnStarted, payload, Some(Settled), None);
      InsertKeeps(s, row);
      var seen := Insert(s, row);
      if u != seen {
        NothingClaimed(seen, id);
        WorkMoves(seen, id, u.works[id]);
        EvolvesThrough(s, seen, u);
      }
    }
  }

  lemma VoiceTurnGood(s: Inbox, generation: int, thread: ThreadId, turn: TurnId)
    requires Fence(s)
    ensures Good(s, After(s, ObserveVoiceTurn(s, generation, thread, turn)))
  {
    var u := After(s, ObserveVoiceTurn(s, generation, thread, turn));
    if u.works != s.works {
      var id := LatestCall(s.calls, thread, generation).value.work;
      NothingClaimed(s, id);
      WorkMoves(s, id, u.works[id]);
    }
  }

  // ------------------------------------------------------------------ every step

  lemma ThreadStepGood(s: Inbox, c: Command)
    requires Fence(s)
    requires c.DoCreate? || c.DoSetStatus? || c.DoBind? || c.DoBeginCreation? || c.DoAckCreation?
      || c.DoReserveFork? || c.DoAckFork? || c.DoRejectFork? || c.DoBeginCall? || c.DoCloseCall?
    ensures Good(s, Step(s, c))
  {
    match c
    case DoCreate(id, parent, kind, manager, status) => CreateGood(s, id, parent, kind, manager, status);
    case DoSetStatus(id, status, nextCheck) => if SetStatus(s, id, status, nextCheck).Commit? { StatusMoves(s, id, status, nextCheck); }
    case DoBind(id, thread) => BindGood(s, id, thread);
    case DoBeginCreation(id) => CreationGood(s, id, 0);
    case DoAckCreation(id, thread) => CreationGood(s, id, thread);
    case DoReserveFork(id, target, attached) => ReserveForkGood(s, id, target, attached);
    case DoAckFork(target, thread) => ForkGood(s, target, thread);
    case DoRejectFork(target) => ForkGood(s, target, 0);
    case _ =>
  }

  predicate IsDispatchStep(c: Command) {
    c.DoBegin? || c.DoAck? || c.DoComplete? || c.DoCompleteWith?
  }

  predicate IsTurnStep(c: Command) {
    c.DoReconcile? || c.DoMarkUnknown? || c.DoSteer? || c.DoNativeTurn? || c.DoVoiceTurn?
  }

  predicate IsEventStep(c: Command) {
    c.DoEnqueue? || c.DoDispose? || c.DoRetry?
  }

  predicate IsRefusalStep(c: Command) {
    c.DoReject? || c.DoRejectAsync? || c.DoRetireUnsent?
  }

  lemma DispatchStepGood(s: Inbox, c: Command)
    requires Fence(s) && IsDispatchStep(c)
    ensures Good(s, Step(s, c))
  {
    match c
    case DoBegin(id, ids, instruction, stale, gate) => BeginGood(s, id, ids, instruction, stale, gate);
    case DoAck(id, turn, withExecution) => AckGood(s, id, turn, withExecution);
    case DoComplete(id, turn) => if Complete(s, id, turn).Commit? { ReleasedGood(s, id, turn); }
    case DoCompleteWith(id, turn, input, awaiting) => CompleteWithGood(s, id, turn, input, awaiting);
    case _ =>
  }

  lemma TurnStepGood(s: Inbox, c: Command)
    requires Fence(s) && IsTurnStep(c)
    ensures Good(s, Step(s, c))
  {
    match c
    case DoReconcile(id, turn) => ReconcileGood(s, id, turn);
    case DoMarkUnknown(id) => MarkUnknownGood(s, id);
    case DoSteer(id, turn, key, payload) => SteerGood(s, id, turn, key, payload);
    case DoNativeTurn(id, thread, turn, account, payload, gate) => NativeTurnGood(s, id, thread, turn, account, payload, gate);
    case DoVoiceTurn(generation, thread, turn) => VoiceTurnGood(s, generation, thread, turn);
    case _ =>
  }

  lemma EventStepGood(s: Inbox, c: Command)
    requires Fence(s) && IsEventStep(c)
    ensures Good(s, Step(s, c))
  {
    match c
    case DoEnqueue(input, observation, gate) => EnqueueGood(s, input, observation, gate);
    case DoDispose(event, disposition, nextCheck, superseded) => DisposeGood(s, event, disposition, nextCheck, superseded);
    case DoRetry(id, thread, event, gate) => RetryGood(s, id, thread, event, gate);
    case _ =>
  }

  lemma RefusalStepGood(s: Inbox, c: Command)
    requires Fence(s) && IsRefusalStep(c)
    ensures Good(s, Step(s, c))
  {
    match c
    case DoReject(id, previous, gate) => RejectGood(s, id, previous, gate);
    case DoRejectAsync(id, event, before) => RejectAsyncGood(s, id, event, before);
    case DoRetireUnsent(id, gone) => EventsMove(s, RetireUnsent(s, id, gone).state.events);
    case _ =>
  }

  lemma StepGood(s: Inbox, c: Command)
    requires Fence(s)
    ensures Fence(Step(s, c)) && Follows(s, Step(s, c), Rebound(c))
  {
    if c.DoActivate? { ActivateGood(s, c.id, c.left, c.thread, c.receipt, c.revised); }
    else if IsDispatchStep(c) { DispatchStepGood(s, c); }
    else if IsTurnStep(c) { TurnStepGood(s, c); }
    else if IsEventStep(c) { EventStepGood(s, c); }
    else if IsRefusalStep(c) { RefusalStepGood(s, c); }
    else { ThreadStepGood(s, c); }
  }

  lemma {:induction false} RunGood(s: Inbox, commands: seq<Command>)
    requires Fence(s)
    ensures Fence(Run(s, commands)) && Follows(s, Run(s, commands), ReboundBy(commands))
  {
    if commands != [] {
      var before, last := commands[..|commands| - 1], commands[|commands| - 1];
      RunGood(s, before);
      StepGood(Run(s, before), last);
      FollowsThrough(s, Run(s, before), Run(s, commands), ReboundBy(before), Rebound(last));
    }
  }
}

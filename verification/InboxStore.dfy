/** The inbox as the database holds it: each transaction updates the tables in place and is proved
    against the transaction of the same name in InboxModel. */
module InboxStore {
  import opened Prelude
  import opened Reachability
  import M = InboxModel
  import opened InboxModel
  import InboxFence

  class Store {
    var works: map<WorkId, Work>
    var managers: set<WorkId>
    var events: map<EventId, Event>
    var nextEvent: EventId
    var calls: seq<VoiceCall>
    var heard: set<(int, ThreadId, TurnId)>

    constructor ()
      ensures Snapshot() == InboxFence.Empty
    {
      works, managers, events, nextEvent := map[], {}, map[], 1;
      calls, heard := [], {};
    }

    function Snapshot(): Inbox
      reads this
    {
      Inbox(works, managers, events, nextEvent, calls, heard)
    }

    /** SELECT by the unique source. */
    method FindSource(source: Source) returns (row: Option<EventId>)
      ensures row == Find(Snapshot(), source)
    {
      var n := nextEvent;
      while n > 0
        invariant Find(Snapshot(), source) == FindBelow(Snapshot(), source, n)
      {
        n := n - 1;
        if n in events && events[n].source == source { return Some(n); }
      }
      return None;
    }

    method NewestEvent(work: WorkId) returns (newest: nat)
      ensures newest == NewestBelow(Snapshot(), work, nextEvent)
    {
      newest := nextEvent;
      while newest > 0
        invariant NewestBelow(Snapshot(), work, nextEvent) == NewestBelow(Snapshot(), work, newest)
      {
        newest := newest - 1;
        if newest in events && events[newest].work == work { return; }
      }
    }

    method Append(e: Event)
      modifies this`events, this`nextEvent
      ensures Snapshot() == Insert(old(Snapshot()), e)
    {
      events := events[nextEvent := e];
      nextEvent := nextEvent + 1;
    }

    method Enqueue(input: Input, observation: bool, gate: Gate) returns (answer: Result<EventId>)
      modifies this`events, this`nextEvent
      ensures Snapshot() == After(old(Snapshot()), M.Enqueue(old(Snapshot()), input, observation, gate))
      ensures answer == Answer(M.Enqueue(old(Snapshot()), input, observation, gate))
    {
      var previous := FindSource(input.source);
      if previous.Some? {
        var id := previous.value;
        if id in events && Matches(events[id], input) { return Ok(id); }
        return Err(IdempotencyConflict);
      }
      if input.work !in works { return Err(NotFound); }
      if input.kind.UserMessage? && ThreadBusyElsewhere(Snapshot(), input.work) { return Err(Conflict); }
      if (input.kind.UserMessage? || input.kind.AsyncAnswer? || input.kind.SteerPending?) && gate.editPending {
        return Err(Conflict);
      }
      if input.kind.UserMessage? && (gate.badInput || gate.paused) { return Err(InvalidInput); }
      var id := nextEvent;
      var disposition := if observation then Some(Settled) else None;
      Append(Event(input.source, input.work, input.kind, input.payload, disposition, None));
      return Ok(id);
    }

    // --------------------------------------------------------- works and threads

    method CreateWork(id: WorkId, parent: Option<WorkId>, kind: WorkKind, manager: bool, status: Status)
      returns (answer: Result<()>)
      modifies this`works, this`managers
      ensures Snapshot() == After(old(Snapshot()), M.CreateWork(old(Snapshot()), id, parent, kind, manager, status))
      ensures answer == Answer(M.CreateWork(old(Snapshot()), id, parent, kind, manager, status))
    {
      if !(status.Open? || (manager && status.Wait?)) { return Err(InvalidInput); }
      if parent.Some? {
        if parent.value !in works { return Err(NotFound); }
        if !works[parent.value].kind.Goal? { return Err(InvalidInput); }
      }
      if id in works { return Err(AlreadyExists); }
      if manager && !kind.Goal? { return Err(Constraint); }
      works := works[id := Work(parent, kind, None, Idle, None, status, None)];
      if manager { managers := managers + {id}; }
      return Ok(());
    }

    method BindThread(id: WorkId, thread: ThreadId) returns (answer: Result<()>)
      modifies this`works
      ensures Snapshot() == After(old(Snapshot()), M.BindThread(old(Snapshot()), id, thread))
      ensures answer == Answer(M.BindThread(old(Snapshot()), id, thread))
    {
      if id !in works { return Err(NotFound); }
      var w := works[id];
      if w.thread.Some? {
        if w.thread.value == thread { return Ok(()); }
        return Err(Conflict);
      }
      if ThreadUsed(Snapshot(), thread) { return Err(Conflict); }
      works := works[id := w.(thread := Some(thread))];
      return Ok(());
    }

    method ActivateContext(id: WorkId, previous: ThreadId, thread: ThreadId, receipt: bool, revised: bool)
      returns (answer: Result<()>)
      modifies this`works, this`events, this`nextEvent
      ensures Snapshot() == After(old(Snapshot()), M.ActivateContext(old(Snapshot()), id, previous, thread, receipt, revised))
      ensures answer == Answer(M.ActivateContext(old(Snapshot()), id, previous, thread, receipt, revised))
    {
      if !receipt { return Err(InvalidInput); }
      if id !in works { return Err(Conflict); }
      var w := works[id];
      if w.thread != Some(previous) || !w.dispatch.Idle? || w.turn.Some? { return Err(Conflict); }
      if ThreadUsedElsewhere(Snapshot(), id, thread) || revised { return Err(Constraint); }
      works := works[id := w.(thread := Some(thread))];
      var recorded := Enqueue(RefreshDone(id, thread), true, AtEase);
      if recorded.Err? {
        works := works[id := w];
        return Err(recorded.error);
      }
      return Ok(());
    }

    method BeginThreadCreation(id: WorkId) returns (answer: Result<()>)
      modifies this`works
      ensures Snapshot() == After(old(Snapshot()), M.BeginThreadCreation(old(Snapshot()), id))
      ensures answer == Answer(M.BeginThreadCreation(old(Snapshot()), id))
    {
      if id !in works { return Err(NotFound); }
      var w := works[id];
      if !w.dispatch.Idle? || w.thread.Some? { return Err(Conflict); }
      works := works[id := w.(dispatch := Dispatching)];
      return Ok(());
    }

    method AcknowledgeThreadCreation(id: WorkId, thread: ThreadId) returns (answer: Result<()>)
      modifies this`works
      ensures Snapshot() == After(old(Snapshot()), M.AcknowledgeThreadCreation(old(Snapshot()), id, thread))
      ensures answer == Answer(M.AcknowledgeThreadCreation(old(Snapshot()), id, thread))
    {
      if id !in works { return Err(NotFound); }
      var w := works[id];
      if !w.dispatch.Dispatching? || w.thread.Some? { return Err(Conflict); }
      if ThreadUsed(Snapshot(), thread) { return Err(Constraint); }
      works := works[id := w.(thread := Some(thread), dispatch := Idle)];
      return Ok(());
    }

    method SetStatus(id: WorkId, status: Status, nextCheck: Option<int>) returns (answer: Result<()>)
      modifies this`works
      ensures Snapshot() == After(old(Snapshot()), M.SetStatus(old(Snapshot()), id, status, nextCheck))
      ensures answer == Answer(M.SetStatus(old(Snapshot()), id, status, nextCheck))
    {
      if nextCheck.Some? && (nextCheck.value < 0 || status.Settled?) { return Err(InvalidInput); }
      if id !in works { return Err(NotFound); }
      works := works[id := works[id].(status := status, nextCheck := nextCheck)];
      return Ok(());
    }

    /** Insert the fork's work, already fenced for the creation of its thread. */
    method ReserveFork(source: WorkId, target: WorkId, attached: bool) returns (answer: Result<()>)
      modifies this`works, this`managers
      ensures Snapshot() == After(old(Snapshot()), M.ReserveFork(old(Snapshot()), source, target, attached))
      ensures answer == Answer(M.ReserveFork(old(Snapshot()), source, target, attached))
    {
      if source !in works { return Err(NotFound); }
      var w := works[source];
      if w.thread.None? || !w.dispatch.Idle? || w.turn.Some? || w.status.Settled? { return Ok(()); }
      var parent := source;
      if !attached && w.parent.Some? { parent := w.parent.value; }
      var manager := source in managers || w.parent.None?;
      if target in works || parent !in works || !works[parent].kind.Goal? { return Err(Constraint); }
      if manager && !w.kind.Goal? { return Err(Constraint); }
      works := works[target := Work(Some(parent), w.kind, None, Dispatching, None, Open, None)];
      if manager { managers := managers + {target}; }
      return Ok(());
    }

    method AcknowledgeFork(target: WorkId, thread: ThreadId) returns (answer: Result<()>)
      modifies this`works
      ensures Snapshot() == After(old(Snapshot()), M.AcknowledgeFork(old(Snapshot()), target, thread))
      ensures answer == Answer(M.AcknowledgeFork(old(Snapshot()), target, thread))
    {
      if target !in works { return Err(NotFound); }
      var w := works[target];
      if w.thread.Some? || !w.dispatch.Dispatching? { return Ok(()); }
      if ThreadUsed(Snapshot(), thread) { return Ok(()); }
      works := works[target := w.(thread := Some(thread), dispatch := Idle)];
      return Ok(());
    }

    method RejectFork(target: WorkId)
      modifies this`works
      ensures Snapshot() == After(old(Snapshot()), M.RejectFork(old(Snapshot()), target))
    {
      if target in works && works[target].thread.None? && works[target].dispatch.Dispatching? {
        works := works[target := works[target].(status := Settled, dispatch := Idle)];
      }
    }

    // ----------------------------------------------------------------- dispatching

    /** UPDATE one event row WHERE the work may carry it. */
    method ClaimEvent(root: WorkId, id: EventId) returns (changed: bool)
      modifies this`events
      ensures changed == (id in old(events) && Claimable(old(Snapshot()), root, old(events)[id]))
      ensures changed ==> Snapshot() == Fenced(old(Snapshot()), root, id)
      ensures !changed ==> Snapshot() == old(Snapshot())
    {
      if id !in events { return false; }
      var owned := Closure(Family(Snapshot(), root), root);
      if events[id].work !in owned || !ClaimableRow(Snapshot(), root, events[id]) { return false; }
      events := events[id := events[id].(delivery := Some(Delivery(root, FENCE)))];
      return true;
    }

    /** Claim before the external effect. */
    method BeginDispatch(id: WorkId, ids: seq<EventId>, instruction: Option<Payload>, stale: set<EventId>, gate: Gate)
      returns (answer: Result<()>)
      modifies this`works, this`events, this`nextEvent
      ensures Snapshot() ==
        After(old(Snapshot()), M.BeginDispatch(old(Snapshot()), id, ids, instruction, stale, gate))
      ensures answer == Answer(M.BeginDispatch(old(Snapshot()), id, ids, instruction, stale, gate))
    {
      if |ids| > 1000 { return Err(InvalidInput); }
      if id !in works { return Err(NotFound); }
      var w := works[id];
      if !w.dispatch.Idle? || w.thread.None? || gate.settingsPending { return Err(Conflict); }
      if exists e :: e in ids && e in stale { return Err(Conflict); }
      var savedWorks, savedEvents := works, events;
      works := works[id := w.(dispatch := Dispatching)];
      ghost var begun := Snapshot();
      for i := 0 to |ids|
        invariant ClaimAll(begun, id, ids[..i]) == Some(Snapshot())
        invariant works == begun.works && nextEvent == begun.nextEvent
      {
        assert ids[..i + 1][..i] == ids[..i];
        var changed := ClaimEvent(id, ids[i]);
        if !changed {
          ClaimAllFails(begun, id, ids, i + 1);
          works, events := savedWorks, savedEvents;
          return Err(Conflict);
        }
      }
      assert ids[..|ids|] == ids;
      if works[id].kind.Task? || id in managers {
        works := works[id := works[id].(status := Open, nextCheck := None)];
      }
      if instruction.Some? {
        var newest := NewestEvent(id);
        var previous := FindSource(Instructed(id, newest));
        if previous.Some? {
          works, events := savedWorks, savedEvents;
          return Err(Constraint);
        }
        Append(Event(Instructed(id, newest), id, WorkInstruction, instruction.value, None, Some(Delivery(id, FENCE))));
      }
      return Ok(());
    }

    method DeliverClaims(id: WorkId, turn: TurnId)
      modifies this`events
      ensures events == Deliver(old(events), id, turn)
    {
      events := map e | e in events ::
        if Claimed(events[e], id) then events[e].(delivery := Some(Delivery(id, turn))) else events[e];
    }

    method AcceptInstructions(id: WorkId, turn: TurnId)
      modifies this`events
      ensures events == Accepted(old(events), id, turn)
    {
      events := map e | e in events ::
        if Carries(events[e], id, turn) && (events[e].kind.WorkInstruction? || events[e].kind.AssistantInstruction?)
        then events[e].(disposition := Some(Settled)) else events[e];
    }

    method SettleInput(id: WorkId, turn: TurnId)
      modifies this`events
      ensures events == Handled(old(events), id, turn, true)
    {
      events := map e | e in events ::
        if Carries(events[e], id, turn) && (events[e].kind.UserMessage? || events[e].kind.AsyncAnswer?)
        then events[e].(disposition := Some(Settled)) else events[e];
    }

    method Acknowledge(id: WorkId, turn: TurnId, withExecution: bool) returns (answer: Result<()>)
      modifies this`works, this`events
      ensures Snapshot() == After(old(Snapshot()), M.Acknowledge(old(Snapshot()), id, turn, withExecution))
      ensures answer == Answer(M.Acknowledge(old(Snapshot()), id, turn, withExecution))
    {
      if !Bounded(turn, 512) { return Err(InvalidInput); }
      if id !in works { return Err(NotFound); }
      var w := works[id];
      if !w.dispatch.Dispatching? { return Err(Conflict); }
      if withExecution && w.thread.None? { return Err(Conflict); }
      works := works[id := w.(dispatch := Running, turn := Some(turn))];
      DeliverClaims(id, turn);
      AcceptInstructions(id, turn);
      return Ok(());
    }

    method Complete(id: WorkId, turn: TurnId) returns (answer: Result<()>)
      modifies this`works
      ensures Snapshot() == After(old(Snapshot()), M.Complete(old(Snapshot()), id, turn))
      ensures answer == Answer(M.Complete(old(Snapshot()), id, turn))
    {
      if id !in works { return Err(NotFound); }
      var w := works[id];
      if !w.dispatch.Running? || w.turn != Some(turn) { return Err(Conflict); }
      works := works[id := w.(dispatch := Idle, turn := None)];
      return Ok(());
    }

    /** The terminal event and the release of the dispatch are one transaction. */
    method CompleteWithEvent(id: WorkId, turn: TurnId, input: Input, awaiting: bool) returns (answer: Result<EventId>)
      modifies this`works, this`events, this`nextEvent
      ensures Snapshot() == After(old(Snapshot()), M.CompleteWithEvent(old(Snapshot()), id, turn, input, awaiting))
      ensures answer == Answer(M.CompleteWithEvent(old(Snapshot()), id, turn, input, awaiting))
    {
      if input.work != id { return Err(InvalidInput); }
      if id !in works { return Err(NotFound); }
      var w := works[id];
      if !w.dispatch.Running? || w.turn != Some(turn) { return Err(Conflict); }
      var kind := input.kind;
      var handled := false;
      if IsCompletion(input.kind) {
        kind := if awaiting then WorkerTurnCompleted else AgentTurnCompleted;
        handled := input.payload.terminal.Some? && input.payload.terminal.value.completed;
      }
      var recorded := RecordTerminal(input.(kind := kind));
      if recorded.Err? { return Err(recorded.error); }
      var event := recorded.value;
      works := works[id := w.(dispatch := Idle, turn := None)];
      if events[event].kind.AgentTurnCompleted? && events[event].disposition.None? {
        events := events[event := events[event].(disposition := Some(Settled))];
      }
      if handled { SettleInput(id, turn); }
      return Ok(event);
    }

    method RecordTerminal(input: Input) returns (answer: Result<EventId>)
      modifies this`events, this`nextEvent
      ensures Snapshot() == After(old(Snapshot()), Recorded(old(Snapshot()), input))
      ensures answer == Answer(Recorded(old(Snapshot()), input))
      ensures answer.Ok? ==> answer.value in events
    {
      var previous := FindSource(input.source);
      if previous.Some? {
        var event := previous.value;
        if event !in events || events[event].work != input.work || events[event].kind != input.kind
           || events[event].payload != input.payload { return Err(IdempotencyConflict); }
        return Ok(event);
      }
      var event := nextEvent;
      Append(Event(input.source, input.work, input.kind, input.payload, None, None));
      return Ok(event);
    }

    method Reconcile(id: WorkId, turn: TurnId) returns (answer: Result<()>)
      modifies this`works, this`events
      ensures Snapshot() == After(old(Snapshot()), M.Reconcile(old(Snapshot()), id, turn))
      ensures answer == Answer(M.Reconcile(old(Snapshot()), id, turn))
    {
      if !Bounded(turn, 512) { return Err(InvalidInput); }
      if id !in works { return Err(NotFound); }
      var w := works[id];
      if !w.dispatch.Dispatching? && !w.dispatch.Unknown? { return Err(Conflict); }
      if w.turn.Some? && w.turn.value != turn { return Err(Conflict); }
      works := works[id := w.(dispatch := Running, turn := Some(turn))];
      DeliverClaims(id, turn);
      return Ok(());
    }

    method MarkUnknown(id: WorkId) returns (answer: Result<()>)
      modifies this`works
      ensures Snapshot() == After(old(Snapshot()), M.MarkUnknown(old(Snapshot()), id))
      ensures answer == Answer(M.MarkUnknown(old(Snapshot()), id))
    {
      if id !in works { return Err(NotFound); }
      var w := works[id];
      if !w.dispatch.Dispatching? && !w.dispatch.Running? { return Err(Conflict); }
      works := works[id := w.(dispatch := Unknown)];
      return Ok(());
    }

    // ------------------------------------------------------ decisions and refusals

    method Dispose(id: EventId, disposition: Status, nextCheck: Option<int>, superseded: bool)
      returns (answer: Result<()>)
      modifies this`works, this`events
      ensures Snapshot() == After(old(Snapshot()), M.Dispose(old(Snapshot()), id, disposition, nextCheck, superseded))
      ensures answer == Answer(M.Dispose(old(Snapshot()), id, disposition, nextCheck, superseded))
    {
      if nextCheck.Some? && (nextCheck.value < 0 || disposition.Settled?) { return Err(InvalidInput); }
      if disposition.Open? { return Err(InvalidInput); }
      if id !in events { return Err(NotFound); }
      var e := events[id];
      if e.disposition.Some? { return Err(Conflict); }
      events := events[id := e.(disposition := Some(disposition))];
      if e.work in works && (!e.kind.WorkerTurnCompleted? || !superseded) {
        works := works[e.work := works[e.work].(status := disposition, nextCheck := nextCheck)];
      }
      return Ok(());
    }

    method RetryInput(id: WorkId, thread: ThreadId, event: EventId, gate: Gate) returns (answer: Result<()>)
      modifies this`works, this`events, this`nextEvent
      ensures Snapshot() == After(old(Snapshot()), M.RetryInput(old(Snapshot()), id, thread, event, gate))
      ensures answer == Answer(M.RetryInput(old(Snapshot()), id, thread, event, gate))
    {
      if id !in works || event !in events { return Err(NotFound); }
      var w, e := works[id], events[event];
      if || id !in managers || w.thread != Some(thread) || e.work != id || !e.kind.UserMessage?
         || e.disposition != Some(UserDecision) || e.delivery.Some? { return Err(Conflict); }
      var queued := FindSource(Retried(id, event));
      if queued.Some? { return Ok(()); }
      if !w.dispatch.Idle? { return Err(Conflict); }
      var enqueued := Enqueue(Input(Retried(id, event), id, UserMessage, e.payload), false, gate);
      if enqueued.Err? { return Err(enqueued.error); }
      if w.status.UserDecision? { works := works[id := w.(status := Open, nextCheck := None)]; }
      return Ok(());
    }

    method RejectDispatch(id: WorkId, previous: Work, gate: Gate) returns (answer: Result<()>)
      modifies this`works, this`events
      ensures Snapshot() == After(old(Snapshot()), M.RejectDispatch(old(Snapshot()), id, previous, gate))
      ensures answer == Answer(M.RejectDispatch(old(Snapshot()), id, previous, gate))
    {
      if !previous.dispatch.Idle? { return Err(InvalidInput); }
      if id !in works || previous.thread.None? { return Err(InvalidInput); }
      var w := works[id];
      if w.thread != previous.thread || !w.dispatch.Dispatching? || w.turn != previous.turn || !gate.owned {
        return Err(InvalidInput);
      }
      if exists e :: e in events && Claimed(events[e], id) && !Returnable(events[e].kind) {
        return Err(InvalidInput);
      }
      events := map e | e in events ::
        if Claimed(events[e], id) then events[e].(disposition := Some(UserDecision), delivery := None) else events[e];
      works := works[id := w.(dispatch := Idle, status := UserDecision, nextCheck := None)];
      return Ok(());
    }

    /** Retire one async input that was rejected before any write. */
    method RejectAsync(id: WorkId, event: EventId, previous: Option<Work>) returns (answer: Result<()>)
      modifies this`works, this`events
      ensures Snapshot() == After(old(Snapshot()), M.RejectAsync(old(Snapshot()), id, event, previous))
      ensures answer == Answer(M.RejectAsync(old(Snapshot()), id, event, previous))
    {
      if event !in events || id !in works || events[event].work != id || events[event].disposition.Some? {
        return Err(InvalidInput);
      }
      var w, e := works[id], events[event];
      if previous.None? {
        if !e.kind.SteerPending? || !e.payload.asyncQuestion || !w.dispatch.Running? || w.turn.None?
           || e.delivery != Some(Delivery(id, w.turn.value)) { return Err(InvalidInput); }
        events := events[event := e.(disposition := Some(Settled))];
        return Ok(());
      }
      if !e.kind.AsyncAnswer? || !Claimed(e, id) || !w.dispatch.Dispatching? || w.turn.Some? { return Err(InvalidInput); }
      if exists other :: other in events && Claimed(events[other], id) && other != event { return Err(InvalidInput); }
      if !previous.value.dispatch.Idle? { return Err(InvalidInput); }
      events := events[event := e.(disposition := Some(Settled))];
      works := works[id := w.(dispatch := Idle, status := previous.value.status, nextCheck := previous.value.nextCheck)];
      return Ok(());
    }

    /** Retire the named answers of a work that were never claimed. */
    method RetireUnsent(id: WorkId, gone: set<EventId>)
      modifies this`events
      ensures Snapshot() == After(old(Snapshot()), M.RetireUnsent(old(Snapshot()), id, gone))
    {
      events := map e | e in events ::
        if e in gone && events[e].work == id && events[e].kind.AsyncAnswer? && events[e].disposition.None?
           && events[e].delivery.None?
        then events[e].(disposition := Some(Settled)) else events[e];
    }

    // --------------------------------------------------------- observed native turns

    method ObserveNativeTurn(id: WorkId, thread: ThreadId, turn: TurnId, account: Option<int>, payload: Payload, gate: Gate)
      returns (answer: Result<bool>)
      modifies this`works, this`events, this`nextEvent
      ensures Snapshot() ==
        After(old(Snapshot()), M.ObserveNativeTurn(old(Snapshot()), id, thread, turn, account, payload, gate))
      ensures answer == Answer(M.ObserveNativeTurn(old(Snapshot()), id, thread, turn, account, payload, gate))
    {
      if turn == "" || |turn| > 512 { return Err(InvalidInput); }
      if id !in works || works[id].thread != Some(thread) { return Ok(false); }
      if !gate.owned { return Ok(false); }
      var w := works[id];
      if !w.dispatch.Idle? && !(w.dispatch.Running? && w.turn == Some(turn)) { return Ok(false); }
      var seen := FindSource(NativeTurn(id, account, thread, turn));
      if seen.Some? || TerminalSeen(Snapshot(), id, thread, turn) { return Ok(false); }
      Append(Event(NativeTurn(id, account, thread, turn), id, NativeTurnStarted, payload, Some(Settled), None));
      if w.dispatch.Idle? { works := works[id := w.(dispatch := Running, turn := Some(turn))]; }
      return Ok(w.dispatch.Idle?);
    }

    method ObserveVoiceTurn(generation: int, thread: ThreadId, turn: TurnId) returns (answer: Result<bool>)
      modifies this`works, this`heard
      ensures Snapshot() == After(old(Snapshot()), M.ObserveVoiceTurn(old(Snapshot()), generation, thread, turn))
      ensures answer == Answer(M.ObserveVoiceTurn(old(Snapshot()), generation, thread, turn))
    {
      if turn == "" || |turn| > 512 { return Err(InvalidInput); }
      var call := NewestCall(thread, generation);
      if call.None? { return Ok(false); }
      var id := call.value.work;
      if (generation, thread, turn) in heard { return Ok(false); }
      if exists i :: 0 <= i < |calls| && calls[i].generation == generation && calls[i].thread == thread
           && calls[i].baseline == Some(turn) { return Ok(false); }
      if id !in works { return Err(NotFound); }
      var w := works[id];
      if !(w.dispatch.Running? && w.turn == Some(turn)) && !w.dispatch.Idle? { return Err(Conflict); }
      heard := heard + {(generation, thread, turn)};
      if w.dispatch.Idle? {
        works := works[id := w.(dispatch := Running, turn := Some(turn), status := Open, nextCheck := None)];
      }
      return Ok(true);
    }

    /** Fence a steer into the running turn. */
    method BeginSteer(id: WorkId, turn: TurnId, key: int, payload: Payload) returns (answer: Result<EventId>)
      modifies this`events, this`nextEvent
      ensures Snapshot() == After(old(Snapshot()), M.BeginSteer(old(Snapshot()), id, turn, key, payload))
      ensures answer == Answer(M.BeginSteer(old(Snapshot()), id, turn, key, payload))
    {
      if id !in works { return Err(NotFound); }
      if !works[id].dispatch.Running? || works[id].turn != Some(turn) { return Err(Conflict); }
      var previous := FindSource(Steered(id, key));
      if previous.Some? { return Err(Constraint); }
      var event := nextEvent;
      Append(Event(Steered(id, key), id, SteerPending, payload, None, Some(Delivery(id, turn))));
      return Ok(event);
    }

    method BeginVoiceCall(call: VoiceCall, gate: Gate) returns (answer: Result<()>)
      modifies this`calls
      ensures Snapshot() == After(old(Snapshot()), M.BeginVoiceCall(old(Snapshot()), call, gate))
      ensures answer == Answer(M.BeginVoiceCall(old(Snapshot()), call, gate))
    {
      if call.baseline.Some? && (call.baseline.value == "" || |call.baseline.value| > 512) { return Err(InvalidInput); }
      if call.work !in works { return Err(Conflict); }
      var w := works[call.work];
      if w.thread != Some(call.thread) || !(w.dispatch.Idle? || w.dispatch.Running?) { return Err(Conflict); }
      if !gate.hosts || gate.editPending { return Err(Conflict); }
      if exists i :: 0 <= i < |calls| && (calls[i].session == call.session || calls[i].open) { return Err(Constraint); }
      calls := calls + [call.(open := true)];
      return Ok(());
    }

    method CloseVoiceCall(session: int)
      modifies this`calls
      ensures Snapshot() == After(old(Snapshot()), M.CloseVoiceCall(old(Snapshot()), session))
    {
      ghost var before := calls;
      for i := 0 to |calls|
        invariant |calls| == |before|
        invariant forall k :: 0 <= k < |calls| ==>
          calls[k] == if k < i && before[k].session == session then before[k].(open := false) else before[k]
      {
        if calls[i].session == session { calls := calls[i := calls[i].(open := false)]; }
      }
    }

    method NewestCall(thread: ThreadId, generation: int) returns (call: Option<VoiceCall>)
      ensures call == LatestCall(calls, thread, generation)
    {
      var n := |calls|;
      assert calls[..n] == calls;
      while n > 0
        invariant n <= |calls| && LatestCall(calls, thread, generation) == LatestCall(calls[..n], thread, generation)
      {
        n := n - 1;
        assert calls[..n + 1][..n] == calls[..n];
        if calls[n].thread == thread && calls[n].generation == generation { return Some(calls[n]); }
      }
      return None;
    }
  }

  lemma {:induction false} ClaimAllFails(s: Inbox, root: WorkId, ids: seq<EventId>, i: nat)
    requires i <= |ids| && ClaimAll(s, root, ids[..i]).None?
    ensures ClaimAll(s, root, ids).None?
    decreases |ids| - i
  {
    if i < |ids| {
      assert ids[..i + 1][..i] == ids[..i];
      ClaimAllFails(s, root, ids, i + 1);
    } else {
      assert ids[..i] == ids;
    }
  }
}

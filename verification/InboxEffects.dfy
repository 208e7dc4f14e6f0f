/** What a turn does to the input it carries: from the dispatch, through its acknowledgement or an unknown
    effect, to the terminal event. */
module InboxEffects {
  import opened Prelude
  import opened Reachability
  import opened InboxModel
  import opened InboxFence
  import opened InboxSteps
  import opened InboxTheorems

  /** The reported turn came to its end. */
  predicate TurnCompleted(input: Input) {
    && (input.kind.AgentTurnCompleted? || input.kind.WorkerTurnCompleted?)
    && input.payload.terminal.Some? && input.payload.terminal.value.completed
  }

  /** A turn's result goes to the waiting manager, else it is a receipt of the agent itself. */
  function FiledAs(kind: EventKind, awaiting: bool): EventKind {
    if kind.AgentTurnCompleted? || kind.WorkerTurnCompleted? then
      if awaiting then WorkerTurnCompleted else AgentTurnCompleted
    else kind
  }

  predicate CarriedBy(e: Event, id: WorkId, turn: TurnId) {
    e.disposition == None && e.delivery == Some(Delivery(id, turn))
  }

  /** What a completed turn has dealt with. */
  predicate Answered(e: Event, id: WorkId, turn: TurnId) {
    CarriedBy(e, id, turn) && (e.kind.UserMessage? || e.kind.AsyncAnswer?)
  }

  // --------------------------------------------------------------- completions

  /** A terminal event is taken exactly from the running turn of its own work, unless another input was
      recorded from its source before. */
  lemma CompletionsAreTakenExactly(s: Inbox, id: WorkId, turn: TurnId, input: Input, awaiting: bool)
    requires Fence(s)
    ensures
      CompleteWithEvent(s, id, turn, input, awaiting).Commit? <==>
        && input.work == id && id in s.works && s.works[id].dispatch.Running? && s.works[id].turn == Some(turn)
        && forall e :: e in s.events && s.events[e].source == input.source ==>
             && s.events[e].work == id && s.events[e].payload == input.payload
             && s.events[e].kind == FiledAs(input.kind, awaiting)
  {
    FindIs(s, input.source);
  }

  /** The terminal row of a committed completion. */
  ghost predicate IsTerminalRow(s: Inbox, u: Inbox, event: EventId, input: Input, awaiting: bool) {
    && event in u.events
    && var row := u.events[event];
       && row.source == input.source && row.work == input.work && row.payload == input.payload
       && row.kind == FiledAs(input.kind, awaiting)
       && row.delivery == (if event in s.events then s.events[event].delivery else None)
       && row.disposition ==
            var before := if event in s.events then s.events[event].disposition else None;
            if row.kind.AgentTurnCompleted? && before.None? then Some(Settled) else before
  }

  /** A committed completion frees the work and records the reported terminal event. If the turn came to its
      end, exactly the undecided user messages and answers that this turn carried are settled; if it did
      not, none is. Every other row is as it was. */
  lemma CompletionsSettleTheirInput(s: Inbox, id: WorkId, turn: TurnId, input: Input, awaiting: bool)
    requires Fence(s) && CompleteWithEvent(s, id, turn, input, awaiting).Commit?
    ensures
      var tx := CompleteWithEvent(s, id, turn, input, awaiting);
      var u, event := tx.state, tx.reply;
      && id in s.works && u.works == s.works[id := s.works[id].(dispatch := Idle, turn := None)]
      && u.events.Keys == s.events.Keys + {event}
      && IsTerminalRow(s, u, event, input, awaiting)
      && (forall e :: e in s.events && e != event ==>
            u.events[e] ==
              if TurnCompleted(input) && Answered(s.events[e], id, turn) then s.events[e].(disposition := Some(Settled))
              else s.events[e])
      && u.managers == s.managers && u.calls == s.calls && u.heard == s.heard
  {
    FindIs(s, input.source);
    RecordedIs(s, input.(kind := FiledAs(input.kind, awaiting)));
    var recorded := Recorded(s, input.(kind := FiledAs(input.kind, awaiting))).state;
    var event := CompleteWithEvent(s, id, turn, input, awaiting).reply;
    SettledBy(recorded.events, event, id, turn, TurnCompleted(input));
  }

  lemma RecordedIs(s: Inbox, input: Input)
    requires Fence(s) && Recorded(s, input).Commit?
    ensures
      var u, event := Recorded(s, input).state, Recorded(s, input).reply;
      && u == s.(events := u.events, nextEvent := u.nextEvent)
      && u.events.Keys == s.events.Keys + {event}
      && Matches(u.events[event], input) && u.events[event].source == input.source
      && (event in s.events ==> u.events[event] == s.events[event])
      && (event !in s.events ==> u.events[event].disposition.None? && u.events[event].delivery.None?)
      && (forall e :: e in s.events ==> u.events[e] == s.events[e])
  {
    FindIs(s, input.source);
  }

  lemma SettledBy(events: map<EventId, Event>, event: EventId, id: WorkId, turn: TurnId, completed: bool)
    requires event in events
    requires completed ==> !events[event].kind.UserMessage? && !events[event].kind.AsyncAnswer?
    ensures
      var after := Handled(Receipted(events, event), id, turn, completed);
      && after.Keys == events.Keys
      && (forall e :: e in events && e != event ==>
            after[e] ==
              if completed && Answered(events[e], id, turn) then events[e].(disposition := Some(Settled)) else events[e])
      && after[event] ==
           if events[event].kind.AgentTurnCompleted? && events[event].disposition.None? then
             events[event].(disposition := Some(Settled))
           else events[event]
  {
  }

  /** The input of a completed turn is never sent again: whatever happens later, no dispatch of any work
      carries a user message or an answer that the turn had carried. */
  lemma CompletedInputIsNeverSentAgain(s: Inbox, id: WorkId, turn: TurnId, input: Input, awaiting: bool, e: EventId,
                                       later: seq<Command>, to: WorkId, ids: seq<EventId>,
                                       instruction: Option<Payload>, stale: set<EventId>, gate: Gate)
    requires Fence(s) && CompleteWithEvent(s, id, turn, input, awaiting).Commit? && TurnCompleted(input)
    requires e in s.events && Answered(s.events[e], id, turn)
    ensures
      var n := Run(CompleteWithEvent(s, id, turn, input, awaiting).state, later);
      && e in n.events && n.events[e] == s.events[e].(disposition := Some(Settled))
      && (BeginDispatch(n, to, ids, instruction, stale, gate).Commit? ==> e !in ids)
  {
    var tx := CompleteWithEvent(s, id, turn, input, awaiting);
    CompletionsSettleTheirInput(s, id, turn, input, awaiting);
    StepGood(s, DoCompleteWith(id, turn, input, awaiting));
    assert Step(s, DoCompleteWith(id, turn, input, awaiting)) == tx.state;
    RunGood(tx.state, later);
    var n := Run(tx.state, later);
    assert e != tx.reply;
    assert EventEvolves(tx.state.events[e], n.events[e]);
    if BeginDispatch(n, to, ids, instruction, stale, gate).Commit? {
      DispatchCarriesExactly(n, to, ids, instruction, stale, gate);
    }
  }

  /** A message that a turn carried may go out again with the work's next turn exactly when the turn ended
      without coming to its end. */
  lemma OnlyUnfinishedInputIsOfferedAgain(s: Inbox, id: WorkId, turn: TurnId, input: Input, awaiting: bool, e: EventId)
    requires Fence(s) && CompleteWithEvent(s, id, turn, input, awaiting).Commit?
    requires e in s.events && s.events[e].kind.UserMessage? && CarriedBy(s.events[e], id, turn) && s.events[e].work == id
    ensures
      var tx := CompleteWithEvent(s, id, turn, input, awaiting);
      e != tx.reply ==>
        e in tx.state.events && (ClaimableRow(tx.state, id, tx.state.events[e]) <==> !TurnCompleted(input))
  {
    CompletionsSettleTheirInput(s, id, turn, input, awaiting);
    assert WorkOk(s.works[id]);
  }

  // ------------------------------------------------------- from dispatch to turn

  /** The rows of a dispatch in flight. */
  lemma DispatchedRows(s: Inbox, id: WorkId, ids: seq<EventId>, instruction: Option<Payload>, stale: set<EventId>, gate: Gate)
    requires Fence(s) && BeginDispatch(s, id, ids, instruction, stale, gate).Commit?
    ensures
      var u := BeginDispatch(s, id, ids, instruction, stale, gate).state;
      && Fence(u) && id in u.works && u.works[id].dispatch.Dispatching? && u.works[id].thread.Some?
      && (forall e :: e in ids ==> e in s.events)
      && u.events.Keys == s.events.Keys + (if instruction.Some? then {s.nextEvent} else {})
      && (forall e :: e in s.events ==>
            u.events[e] == if e in ids then s.events[e].(delivery := Some(Delivery(id, FENCE))) else s.events[e])
      && (instruction.Some? ==>
            && u.events[s.nextEvent].kind.WorkInstruction? && u.events[s.nextEvent].payload == instruction.value
            && u.events[s.nextEvent].work == id
            && CarriedBy(u.events[s.nextEvent], id, FENCE))
  {
    DispatchCarriesExactly(s, id, ids, instruction, stale, gate);
    BeginGood(s, id, ids, instruction, stale, gate);
    var begun := SetWork(s, id, s.works[id].(dispatch := Dispatching));
    ClaimAllRows(begun, id, ids);
    WorkMoves(s, id, s.works[id].(dispatch := Dispatching)) by { NothingClaimed(s, id); }
    ClaimAllGood(begun, id, ids);
  }

  lemma {:induction false} ClaimAllRows(s: Inbox, root: WorkId, ids: seq<EventId>)
    requires ClaimAll(s, root, ids).Some?
    ensures
      var u := ClaimAll(s, root, ids).value;
      && u.events.Keys == s.events.Keys && (forall e :: e in ids ==> e in s.events)
      && forall e :: e in s.events ==>
           u.events[e] == if e in ids then s.events[e].(delivery := Some(Delivery(root, FENCE))) else s.events[e]
  {
    if ids != [] {
      var n := |ids| - 1;
      ClaimAllRows(s, root, ids[..n]);
      assert ids == ids[..n] + [ids[n]];
    }
  }

  predicate IsInstruction(kind: EventKind) {
    kind.WorkInstruction? || kind.AssistantInstruction?
  }

  /** A turn's name is not blank, and not too long. */
  predicate Named(turn: TurnId) {
    |turn| <= 512 && exists i :: 0 <= i < |turn| && turn[i] !in {' ', '\t', '\n', '\r'}
  }

  /** The claim of a work in flight has become the input of its turn, each row once; the accepted instructions
      among it are settled if the provider acknowledged the turn itself. */
  ghost predicate TurnCarries(s: Inbox, u: Inbox, id: WorkId, turn: TurnId, acknowledged: bool) {
    && id in s.works && u.works == s.works[id := s.works[id].(dispatch := Running, turn := Some(turn))]
    && u.events.Keys == s.events.Keys
    && forall e :: e in s.events ==>
         u.events[e] ==
           if !CarriedBy(s.events[e], id, FENCE) then
             if acknowledged && CarriedBy(s.events[e], id, turn) && IsInstruction(s.events[e].kind) then
               s.events[e].(disposition := Some(Settled))
             else s.events[e]
           else
             s.events[e].(delivery := Some(Delivery(id, turn)),
                          disposition := if acknowledged && IsInstruction(s.events[e].kind) then Some(Settled) else None)
  }

  /** An acknowledgement is taken exactly from a dispatching work, and turns its whole claim into the input of
      the acknowledged turn. */
  lemma AcknowledgedTurnsCarryTheClaim(s: Inbox, id: WorkId, turn: TurnId, withExecution: bool)
    ensures
      var tx := Acknowledge(s, id, turn, withExecution);
      && (tx.Commit? <==>
            && Named(turn) && id in s.works && s.works[id].dispatch.Dispatching?
            && (withExecution ==> s.works[id].thread.Some?))
      && (tx.Commit? ==> TurnCarries(s, tx.state, id, turn, true))
  {
  }

  /** So does positive evidence, for a dispatch in flight or unknown, and only for the turn that the work had if it
      had one. */
  lemma ReconciledTurnsCarryTheClaim(s: Inbox, id: WorkId, turn: TurnId)
    ensures
      var tx := Reconcile(s, id, turn);
      && (tx.Commit? <==>
            && Named(turn) && id in s.works
            && (s.works[id].dispatch.Dispatching? || s.works[id].dispatch.Unknown?)
            && (s.works[id].turn == None || s.works[id].turn == Some(turn)))
      && (tx.Commit? ==> TurnCarries(s, tx.state, id, turn, false))
  {
  }

  /** An unknown effect keeps the claim and the turn of a dispatch in flight; only the work's state tells. */
  lemma UnknownEffectsKeepTheClaim(s: Inbox, id: WorkId)
    ensures
      var tx := MarkUnknown(s, id);
      && (tx.Commit? <==> id in s.works && (s.works[id].dispatch.Dispatching? || s.works[id].dispatch.Running?))
      && (tx.Commit? ==> tx.state == s.(works := s.works[id := s.works[id].(dispatch := Unknown)]))
  {
  }

  /** From a dispatch to its running turn: acknowledged by the provider, or found after its effect was unknown. */
  ghost function Sent(s: Inbox, id: WorkId, turn: TurnId, unknown: bool): Inbox {
    if unknown then
      var marked := After(s, MarkUnknown(s, id));
      After(marked, Reconcile(marked, id, turn))
    else After(s, Acknowledge(s, id, turn, true))
  }

  /** Whichever way the turn became known, it runs and carries every dispatched message. */
  lemma MessagesReachTheirTurn(s: Inbox, id: WorkId, ids: seq<EventId>, instruction: Option<Payload>,
                               stale: set<EventId>, gate: Gate, turn: TurnId, unknown: bool, e: EventId)
    requires Fence(s) && BeginDispatch(s, id, ids, instruction, stale, gate).Commit?
    requires Named(turn) && e in ids && e in s.events && s.events[e].kind.UserMessage?
    ensures
      var running := Sent(BeginDispatch(s, id, ids, instruction, stale, gate).state, id, turn, unknown);
      && Fence(running) && id in running.works && running.works[id].dispatch.Running? && running.works[id].turn == Some(turn)
      && e in running.events && running.events[e] == s.events[e].(delivery := Some(Delivery(id, turn)))
  {
    DispatchCarriesExactly(s, id, ids, instruction, stale, gate);
    DispatchedRows(s, id, ids, instruction, stale, gate);
    var sent := BeginDispatch(s, id, ids, instruction, stale, gate).state;
    assert WorkOk(sent.works[id]);
    if unknown {
      UnknownEffectsKeepTheClaim(sent, id);
      MarkUnknownGood(sent, id);
      ReconciledTurnsCarryTheClaim(MarkUnknown(sent, id).state, id, turn);
      ReconcileGood(MarkUnknown(sent, id).state, id, turn);
    } else {
      AcknowledgedTurnsCarryTheClaim(sent, id, turn, true);
      AckGood(sent, id, turn, true);
    }
  }

  /** The journey of a message: it is dispatched, its turn becomes known, the turn ends. The message is then
      settled exactly when the turn came to its end, and otherwise it waits for the next dispatch. */
  lemma MessagesAreSettledByTheirTurn(s: Inbox, id: WorkId, ids: seq<EventId>, instruction: Option<Payload>,
                                      stale: set<EventId>, gate: Gate, turn: TurnId, unknown: bool, input: Input,
                                      awaiting: bool, e: EventId)
    requires Fence(s) && BeginDispatch(s, id, ids, instruction, stale, gate).Commit?
    requires Named(turn) && e in ids && e in s.events && s.events[e].kind.UserMessage?
    requires
      var running := Sent(BeginDispatch(s, id, ids, instruction, stale, gate).state, id, turn, unknown);
      CompleteWithEvent(running, id, turn, input, awaiting).Commit?
    ensures
      var running := Sent(BeginDispatch(s, id, ids, instruction, stale, gate).state, id, turn, unknown);
      var u := CompleteWithEvent(running, id, turn, input, awaiting).state;
      && id in u.works && u.works[id].dispatch.Idle? && u.works[id].turn.None?
      && e in u.events
      && u.events[e] == s.events[e].(delivery := Some(Delivery(id, turn)),
                                     disposition := if TurnCompleted(input) then Some(Settled) else None)
  {
    MessagesReachTheirTurn(s, id, ids, instruction, stale, gate, turn, unknown, e);
    var running := Sent(BeginDispatch(s, id, ids, instruction, stale, gate).state, id, turn, unknown);
    CompletionsSettleTheirInput(running, id, turn, input, awaiting);
    DispatchCarriesExactly(s, id, ids, instruction, stale, gate);
  }
}

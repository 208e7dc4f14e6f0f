/** Agent works and their inbox: how an event is claimed for one external turn, and what may release
    the claim. Every transaction is a function of the tables. */
module InboxModel {
  import opened Prelude
  import opened Reachability

  type WorkId = int
  type ThreadId = int
  type TurnId = string
  type EventId = nat

  datatype WorkKind = Goal | Task

  datatype DispatchState = Idle | Dispatching | Running | Unknown

  datatype Status = Open | Settled | FollowUp | Wait | UserDecision

  datatype Work = Work(
    parent: Option<WorkId>,
    kind: WorkKind,
    thread: Option<ThreadId>,
    dispatch: DispatchState,
    turn: Option<TurnId>,
    status: Status,
    nextCheck: Option<int>)

  datatype EventKind =
    | UserMessage
    | AsyncAnswer
    | WorkInstruction
    | AssistantInstruction
    | WorkerTurnCompleted
    | AgentTurnCompleted
    | CapacityRetry
    | SteerPending
    | NativeTurnStarted
    | ThreadInUse
    | Wake(code: int)  // automation results, due follow-ups, collaboration and research events
    | Other(code: int)

  /** The unique source identity of an event; locally generated sources are structured. */
  datatype Source =
    | External(code: int)
    | Instructed(work: WorkId, previous: nat)
    | Steered(work: WorkId, key: int)
    | Retried(work: WorkId, event: EventId)
    | NativeTurn(work: WorkId, account: Option<int>, thread: ThreadId, turn: TurnId)
    | Refreshed(work: WorkId, thread: ThreadId)

  datatype Terminal = Terminal(thread: ThreadId, turn: TurnId, completed: bool)

  datatype Payload = Payload(code: int, terminal: Option<Terminal>, asyncQuestion: bool)

  /** Which work's turn carries the event. The empty turn is the fence: claimed, effect unknown. */
  datatype Delivery = Delivery(work: WorkId, turn: TurnId)

  datatype Event = Event(
    source: Source,
    work: WorkId,
    kind: EventKind,
    payload: Payload,
    disposition: Option<Status>,
    delivery: Option<Delivery>)

  datatype Input = Input(source: Source, work: WorkId, kind: EventKind, payload: Payload)

  datatype VoiceCall = VoiceCall(
    session: int, work: WorkId, thread: ThreadId, generation: int, baseline: Option<TurnId>, open: bool)

  datatype Inbox = Inbox(
    works: map<WorkId, Work>,
    managers: set<WorkId>,
    events: map<EventId, Event>,
    nextEvent: EventId,
    calls: seq<VoiceCall>,
    heard: set<(int, ThreadId, TurnId)>)

  /** What the neighbouring components answer when a transaction asks them. */
  datatype Gate = Gate(
    settingsPending: bool, // a model, permission or prompt edit is in flight
    editPending: bool,     // a prompt edit is in flight
    paused: bool,          // the provider paused the conversation
    badInput: bool,        // references or prompt inputs do not validate
    owned: bool,           // the caller's process generation owns the work
    hosts: bool)           // the caller's process generation hosts the thread

  const FENCE: TurnId := ""

  /** Text after trimming is not empty and not too long. */
  predicate Bounded(text: TurnId, max: nat) {
    |text| <= max && exists i :: 0 <= i < |text| && !Space(text[i])
  }

  predicate Space(c: char) {
    c == ' ' || c == '\t' || c == '\n' || c == '\r'
  }

  predicate Claimed(e: Event, w: WorkId) {
    e.disposition.None? && e.delivery == Some(Delivery(w, FENCE))
  }

  // ------------------------------------------------------------------- events

  /** The row of a source among those before `n`. */
  function FindBelow(s: Inbox, source: Source, n: nat): Option<EventId> {
    if n == 0 then None
    else if n - 1 in s.events && s.events[n - 1].source == source then Some(n - 1)
    else FindBelow(s, source, n - 1)
  }

  function Find(s: Inbox, source: Source): Option<EventId> {
    FindBelow(s, source, s.nextEvent)
  }

  function Insert(s: Inbox, e: Event): Inbox {
    s.(events := s.events[s.nextEvent := e], nextEvent := s.nextEvent + 1)
  }

  /** Rewrite every row that a condition selects. */
  function Rewrite(events: map<EventId, Event>, selects: Event -> bool, rewrite: Event -> Event)
    : (after: map<EventId, Event>)
    ensures after.Keys == events.Keys
    ensures forall id :: id in events ==>
      after[id] == if selects(events[id]) then rewrite(events[id]) else events[id]
  {
    map id | id in events :: if selects(events[id]) then rewrite(events[id]) else events[id]
  }

  function SetWork(s: Inbox, id: WorkId, w: Work): Inbox {
    s.(works := s.works[id := w])
  }

  function Matches(e: Event, input: Input): bool {
    e.work == input.work && e.kind == input.kind && e.payload == input.payload
  }

  /** Record an event once per source. A repeat must be identical. */
  function Enqueue(s: Inbox, input: Input, observation: bool, gate: Gate): Transaction<Inbox, EventId> {
    match Find(s, input.source)
    case Some(id) =>
      if id in s.events && Matches(s.events[id], input) then Commit(s, id) else Rollback(IdempotencyConflict)
    case None =>
      if input.work !in s.works then Rollback(NotFound)
      else if input.kind.UserMessage? && ThreadBusyElsewhere(s, input.work) then Rollback(Conflict)
      else if (input.kind.UserMessage? || input.kind.AsyncAnswer? || input.kind.SteerPending?) && gate.editPending then
        Rollback(Conflict)
      else if input.kind.UserMessage? && (gate.badInput || gate.paused) then Rollback(InvalidInput)
      else
        Commit(Insert(s, Event(input.source, input.work, input.kind, input.payload,
                               if observation then Some(Settled) else None, None)),
               s.nextEvent)
  }

  predicate ThreadBusyElsewhere(s: Inbox, work: WorkId) {
    exists id :: id in s.events && s.events[id].work == work && s.events[id].kind.ThreadInUse?
      && s.events[id].disposition.None?
  }

  // -------------------------------------------------------- works and threads

  function CreateWork(s: Inbox, id: WorkId, parent: Option<WorkId>, kind: WorkKind, manager: bool, status: Status)
    : Transaction<Inbox, ()>
  {
    if !(status.Open? || (manager && status.Wait?)) then Rollback(InvalidInput)
    else if parent.Some? && parent.value !in s.works then Rollback(NotFound)
    else if parent.Some? && !s.works[parent.value].kind.Goal? then Rollback(InvalidInput)
    else if id in s.works then Rollback(AlreadyExists)
    else if manager && !kind.Goal? then Rollback(Constraint)
    else
      Commit(SetWork(s, id, Work(parent, kind, None, Idle, None, status, None))
               .(managers := if manager then s.managers + {id} else s.managers), ())
  }

  function SetStatus(s: Inbox, id: WorkId, status: Status, nextCheck: Option<int>): Transaction<Inbox, ()> {
    if (nextCheck.Some? && nextCheck.value < 0) || (status.Settled? && nextCheck.Some?) then Rollback(InvalidInput)
    else if id !in s.works then Rollback(NotFound)
    else Commit(SetWork(s, id, s.works[id].(status := status, nextCheck := nextCheck)), ())
  }

  predicate ThreadUsed(s: Inbox, thread: ThreadId) {
    exists id :: id in s.works && s.works[id].thread == Some(thread)
  }

  function BindThread(s: Inbox, id: WorkId, thread: ThreadId): Transaction<Inbox, ()> {
    if id !in s.works then Rollback(NotFound)
    else
      var w := s.works[id];
      if w.thread.Some? then (if w.thread.value == thread then Commit(s, ()) else Rollback(Conflict))
      else if ThreadUsed(s, thread) then Rollback(Conflict)
      else Commit(SetWork(s, id, w.(thread := Some(thread))), ())
  }

  predicate ThreadUsedElsewhere(s: Inbox, id: WorkId, thread: ThreadId) {
    exists w :: w in s.works && w != id && s.works[w].thread == Some(thread)
  }

  /** What the neighbours answer when nothing stands in the way. */
  const AtEase: Gate := Gate(false, false, false, false, true, true)

  /** An assistant's idle work moves from its thread to the acknowledged one of a fresh context. `receipt`
      is that acknowledgement; `revised` says that the thread history already knows one of the two. */
  function ActivateContext(s: Inbox, id: WorkId, left: ThreadId, thread: ThreadId, receipt: bool, revised: bool)
    : Transaction<Inbox, ()>
  {
    if !receipt then Rollback(InvalidInput)
    else if id !in s.works || s.works[id].thread != Some(left) || !s.works[id].dispatch.Idle? || s.works[id].turn.Some? then
      Rollback(Conflict)
    else if ThreadUsedElsewhere(s, id, thread) || revised then Rollback(Constraint)
    else
      var moved := SetWork(s, id, s.works[id].(thread := Some(thread)));
      match Enqueue(moved, RefreshDone(id, thread), true, AtEase)
      case Rollback(error) => Rollback(error)
      case Commit(u, _) => Commit(u, ())
  }

  function RefreshDone(id: WorkId, thread: ThreadId): Input {
    Input(Refreshed(id, thread), id, Other(0), Payload(0, None, false))
  }

  function BeginThreadCreation(s: Inbox, id: WorkId): Transaction<Inbox, ()> {
    if id !in s.works then Rollback(NotFound)
    else
      var w := s.works[id];
      if !w.dispatch.Idle? || w.thread.Some? then Rollback(Conflict)
      else Commit(SetWork(s, id, w.(dispatch := Dispatching)), ())
  }

  function AcknowledgeThreadCreation(s: Inbox, id: WorkId, thread: ThreadId): Transaction<Inbox, ()> {
    if id !in s.works then Rollback(NotFound)
    else
      var w := s.works[id];
      if !w.dispatch.Dispatching? || w.thread.Some? then Rollback(Conflict)
      else if ThreadUsed(s, thread) then Rollback(Constraint)
      else Commit(SetWork(s, id, w.(thread := Some(thread), dispatch := Idle)), ())
  }

  /** A fork reserves its target work already fenced for the creation of its thread. */
  function ReserveFork(s: Inbox, source: WorkId, target: WorkId, attached: bool): Transaction<Inbox, ()> {
    if source !in s.works then Rollback(NotFound)
    else
      var w := s.works[source];
      var parent := if attached || w.parent.None? then source else w.parent.value;
      var manager := source in s.managers || w.parent.None?;
      if w.thread.None? || !w.dispatch.Idle? || w.turn.Some? || w.status.Settled? then Commit(s, ())
      else if target in s.works || parent !in s.works || !s.works[parent].kind.Goal? || (manager && !w.kind.Goal?) then
        Rollback(Constraint)
      else
        Commit(SetWork(s, target, Work(Some(parent), w.kind, None, Dispatching, None, Open, None))
                 .(managers := if manager then s.managers + {target} else s.managers), ())
  }

  function AcknowledgeFork(s: Inbox, target: WorkId, thread: ThreadId): Transaction<Inbox, ()> {
    if target !in s.works then Rollback(NotFound)
    else
      var w := s.works[target];
      if w.thread.Some? || !w.dispatch.Dispatching? || ThreadUsed(s, thread) then Commit(s, ())
      else Commit(SetWork(s, target, w.(thread := Some(thread), dispatch := Idle)), ())
  }

  function RejectFork(s: Inbox, target: WorkId): Transaction<Inbox, ()> {
    if target in s.works && s.works[target].thread.None? && s.works[target].dispatch.Dispatching? then
      Commit(SetWork(s, target, s.works[target].(status := Settled, dispatch := Idle)), ())
    else Commit(s, ())
  }

  // -------------------------------------------------------------- dispatching

  /** A work answers for itself and for its descendants, but not for those behind another manager. */
  function Family(s: Inbox, root: WorkId): Graph {
    set id | id in s.works && s.works[id].parent.Some?
      && (s.works[id].parent.value == root || s.works[id].parent.value !in s.managers)
      :: (s.works[id].parent.value, id)
  }

  predicate Wakes(kind: EventKind) {
    kind.UserMessage? || kind.AssistantInstruction? || kind.WorkerTurnCompleted? || kind.Wake?
  }

  /** The event may go out with the next turn of `root`. */
  ghost predicate Claimable(s: Inbox, root: WorkId, e: Event) {
    && Reaches(Family(s, root), root, e.work)
    && ClaimableRow(s, root, e)
  }

  predicate ClaimableRow(s: Inbox, root: WorkId, e: Event) {
    && e.disposition.None?
    && (Wakes(e.kind) || (e.kind.AsyncAnswer? && e.work == root && e.delivery.None?))
    && (e.work == root || e.kind.WorkerTurnCompleted? || e.work !in s.managers)
    && (e.work != root || !e.kind.WorkerTurnCompleted?)
    && (e.delivery.None? || (e.delivery.value.work == root && e.delivery.value.turn != FENCE))
  }

  function Fenced(s: Inbox, root: WorkId, id: EventId): Inbox
    requires id in s.events
  {
    s.(events := s.events[id := s.events[id].(delivery := Some(Delivery(root, FENCE)))])
  }

  /** Claim the events one after another; all or none. */
  ghost function ClaimAll(s: Inbox, root: WorkId, ids: seq<EventId>): Option<Inbox> {
    if ids == [] then Some(s)
    else
      var n := |ids| - 1;
      match ClaimAll(s, root, ids[..n])
      case None => None
      case Some(u) =>
        if ids[n] in u.events && Claimable(u, root, u.events[ids[n]]) then Some(Fenced(u, root, ids[n])) else None
  }

  /** The newest event of a work, or 0. */
  function NewestBelow(s: Inbox, work: WorkId, n: nat): nat {
    if n == 0 then 0
    else if n - 1 in s.events && s.events[n - 1].work == work then n - 1
    else NewestBelow(s, work, n - 1)
  }

  /** Fence one turn before the external effect, together with the events it carries. */
  ghost function BeginDispatch(s: Inbox, id: WorkId, ids: seq<EventId>, instruction: Option<Payload>,
                               stale: set<EventId>, gate: Gate)
    : Transaction<Inbox, ()>
  {
    if |ids| > 1000 then Rollback(InvalidInput)
    else if id !in s.works then Rollback(NotFound)
    else
      var w := s.works[id];
      if !w.dispatch.Idle? || w.thread.None? || gate.settingsPending then Rollback(Conflict)
      else if exists e :: e in ids && e in stale then Rollback(Conflict)
      else
        match ClaimAll(SetWork(s, id, w.(dispatch := Dispatching)), id, ids)
        case None => Rollback(Conflict)
        case Some(u) => Instruct(Reopen(u, id), id, instruction)
  }

  /** Dispatching a task or a manager makes it open again. */
  function Reopen(s: Inbox, id: WorkId): Inbox {
    if id in s.works && (s.works[id].kind.Task? || id in s.managers) then
      SetWork(s, id, s.works[id].(status := Open, nextCheck := None))
    else s
  }

  function Instruct(s: Inbox, id: WorkId, instruction: Option<Payload>): Transaction<Inbox, ()> {
    match instruction
    case None => Commit(s, ())
    case Some(payload) =>
      var source := Instructed(id, NewestBelow(s, id, s.nextEvent));
      if Find(s, source).Some? then Rollback(Constraint)
      else
        Commit(Insert(s, Event(source, id, WorkInstruction, payload, None, Some(Delivery(id, FENCE)))), ())
  }

  /** Every event claimed for `id` now travels in `turn`. */
  function Deliver(events: map<EventId, Event>, id: WorkId, turn: TurnId): map<EventId, Event> {
    Rewrite(events, (e: Event) => Claimed(e, id), (e: Event) => e.(delivery := Some(Delivery(id, turn))))
  }

  predicate Carries(e: Event, id: WorkId, turn: TurnId) {
    e.disposition.None? && e.delivery == Some(Delivery(id, turn))
  }

  function Settle(events: map<EventId, Event>, selects: Event -> bool): map<EventId, Event> {
    Rewrite(events, selects, (e: Event) => e.(disposition := Some(Settled)))
  }

  function Acknowledge(s: Inbox, id: WorkId, turn: TurnId, withExecution: bool): Transaction<Inbox, ()> {
    if !Bounded(turn, 512) then Rollback(InvalidInput)
    else if id !in s.works then Rollback(NotFound)
    else
      var w := s.works[id];
      if !w.dispatch.Dispatching? || (withExecution && w.thread.None?) then Rollback(Conflict)
      else
        Commit(SetWork(s, id, w.(dispatch := Running, turn := Some(turn)))
                 .(events := Accepted(Deliver(s.events, id, turn), id, turn)), ())
  }

  /** Instructions that the provider accepted need no further decision. */
  function Accepted(events: map<EventId, Event>, id: WorkId, turn: TurnId): map<EventId, Event> {
    Settle(events, (e: Event) => Carries(e, id, turn) && (e.kind.WorkInstruction? || e.kind.AssistantInstruction?))
  }

  predicate Runs(s: Inbox, id: WorkId, turn: TurnId) {
    id in s.works && s.works[id].dispatch.Running? && s.works[id].turn == Some(turn)
  }

  function Released(s: Inbox, id: WorkId): Inbox
    requires id in s.works
  {
    SetWork(s, id, s.works[id].(dispatch := Idle, turn := None))
  }

  function Complete(s: Inbox, id: WorkId, turn: TurnId): Transaction<Inbox, ()> {
    if id !in s.works then Rollback(NotFound)
    else if !Runs(s, id, turn) then Rollback(Conflict)
    else Commit(Released(s, id), ())
  }

  predicate IsCompletion(kind: EventKind) {
    kind.AgentTurnCompleted? || kind.WorkerTurnCompleted?
  }

  /** Record the terminal event of a running turn and release the dispatch with it. `awaiting` says
      that a manager waits for this work's result. */
  function CompleteWithEvent(s: Inbox, id: WorkId, turn: TurnId, input: Input, awaiting: bool)
    : Transaction<Inbox, EventId>
  {
    if input.work != id then Rollback(InvalidInput)
    else if id !in s.works then Rollback(NotFound)
    else if !Runs(s, id, turn) then Rollback(Conflict)
    else
      var kind := if IsCompletion(input.kind) then (if awaiting then WorkerTurnCompleted else AgentTurnCompleted)
                  else input.kind;
      var handled := IsCompletion(input.kind) && input.payload.terminal.Some? && input.payload.terminal.value.completed;
      match Recorded(s, input.(kind := kind))
      case Rollback(error) => Rollback(error)
      case Commit(u, event) =>
        Commit(Released(u.(events := Handled(Receipted(u.events, event), id, turn, handled)), id), event)
  }

  /** The terminal row, once per source. */
  function Recorded(s: Inbox, input: Input): (tx: Transaction<Inbox, EventId>)
    ensures tx.Commit? ==> tx.state.works == s.works
  {
    match Find(s, input.source)
    case Some(id) =>
      if id in s.events && Matches(s.events[id], input) then Commit(s, id) else Rollback(IdempotencyConflict)
    case None =>
      Commit(Insert(s, Event(input.source, input.work, input.kind, input.payload, None, None)), s.nextEvent)
  }

  /** A turn receipt needs no further decision. */
  function Receipted(events: map<EventId, Event>, id: EventId): map<EventId, Event> {
    if id in events && events[id].kind.AgentTurnCompleted? && events[id].disposition.None? then
      events[id := events[id].(disposition := Some(Settled))]
    else events
  }

  /** User input that a completed turn carried has been handled. */
  function Handled(events: map<EventId, Event>, id: WorkId, turn: TurnId, handled: bool): map<EventId, Event> {
    if handled then
      Settle(events, (e: Event) => Carries(e, id, turn) && (e.kind.UserMessage? || e.kind.AsyncAnswer?))
    else events
  }

  /** Positive evidence of the turn an unknown dispatch became. */
  function Reconcile(s: Inbox, id: WorkId, turn: TurnId): Transaction<Inbox, ()> {
    if !Bounded(turn, 512) then Rollback(InvalidInput)
    else if id !in s.works then Rollback(NotFound)
    else
      var w := s.works[id];
      if !(w.dispatch.Dispatching? || w.dispatch.Unknown?) then Rollback(Conflict)
      else if w.turn.Some? && w.turn.value != turn then Rollback(Conflict)
      else
        Commit(SetWork(s, id, w.(dispatch := Running, turn := Some(turn)))
                 .(events := Deliver(s.events, id, turn)), ())
  }

  function MarkUnknown(s: Inbox, id: WorkId): Transaction<Inbox, ()> {
    if id !in s.works then Rollback(NotFound)
    else
      var w := s.works[id];
      if !(w.dispatch.Dispatching? || w.dispatch.Running?) then Rollback(Conflict)
      else Commit(SetWork(s, id, w.(dispatch := Unknown)), ())
  }

  // --------------------------------------------------- decisions and refusals

  /** Commit one explicit decision and the work's next wake time. `superseded` says that a newer
      delegation replaced the one whose result this event is. */
  function Dispose(s: Inbox, id: EventId, disposition: Status, nextCheck: Option<int>, superseded: bool)
    : Transaction<Inbox, ()>
  {
    if (nextCheck.Some? && nextCheck.value < 0) || (disposition.Settled? && nextCheck.Some?) || disposition.Open? then
      Rollback(InvalidInput)
    else if id !in s.events then Rollback(NotFound)
    else
      var e := s.events[id];
      if e.disposition.Some? then Rollback(Conflict)
      else
        var u := s.(events := s.events[id := e.(disposition := Some(disposition))]);
        if e.work in s.works && !(e.kind.WorkerTurnCompleted? && superseded) then
          Commit(SetWork(u, e.work, s.works[e.work].(status := disposition, nextCheck := nextCheck)), ())
        else Commit(u, ())
  }

  /** Queue one stable retry of an input that was positively never sent. */
  function RetryInput(s: Inbox, id: WorkId, thread: ThreadId, event: EventId, gate: Gate): Transaction<Inbox, ()> {
    if id !in s.works || event !in s.events then Rollback(NotFound)
    else
      var w, e := s.works[id], s.events[event];
      if || id !in s.managers || w.thread != Some(thread) || e.work != id || !e.kind.UserMessage?
         || e.disposition != Some(UserDecision) || e.delivery.Some?
      then Rollback(Conflict)
      else if Find(s, Retried(id, event)).Some? then Commit(s, ())
      else if !w.dispatch.Idle? then Rollback(Conflict)
      else
        match Enqueue(s, Input(Retried(id, event), id, UserMessage, e.payload), false, gate)
        case Rollback(error) => Rollback(error)
        case Commit(u, _) =>
          if w.status.UserDecision? then Commit(SetWork(u, id, w.(status := Open, nextCheck := None)), ())
          else Commit(u, ())
  }

  /** A refusal proved to precede every external effect takes the whole claim back: its inputs wait
      for the user, undelivered. */
  function RejectDispatch(s: Inbox, id: WorkId, previous: Work, gate: Gate): Transaction<Inbox, ()> {
    if !previous.dispatch.Idle? then Rollback(InvalidInput)
    else if id !in s.works || previous.thread.None? then Rollback(InvalidInput)
    else
      var w := s.works[id];
      if w.thread != previous.thread || !w.dispatch.Dispatching? || w.turn != previous.turn || !gate.owned then
        Rollback(InvalidInput)
      else if exists e :: e in s.events && Claimed(s.events[e], id) && !Returnable(s.events[e].kind) then
        Rollback(InvalidInput)
      else
        Commit(SetWork(s, id, w.(dispatch := Idle, status := UserDecision, nextCheck := None))
                 .(events := Rewrite(s.events, (e: Event) => Claimed(e, id),
                     (e: Event) => e.(disposition := Some(UserDecision), delivery := None))), ())
  }

  predicate Returnable(kind: EventKind) {
    kind.UserMessage? || kind.AsyncAnswer? || kind.WorkInstruction?
  }

  /** Retire one async input that was proved rejected before any write: a steer into the running turn,
      or the only claim of a fenced dispatch, which it releases. */
  function RejectAsync(s: Inbox, id: WorkId, event: EventId, previous: Option<Work>): Transaction<Inbox, ()> {
    if event !in s.events || id !in s.works || s.events[event].work != id || s.events[event].disposition.Some? then
      Rollback(InvalidInput)
    else
      var w, e := s.works[id], s.events[event];
      var u := s.(events := s.events[event := e.(disposition := Some(Settled))]);
      match previous
      case None =>
        if && e.kind.SteerPending? && e.payload.asyncQuestion && w.dispatch.Running? && w.turn.Some?
           && e.delivery == Some(Delivery(id, w.turn.value))
        then Commit(u, ()) else Rollback(InvalidInput)
      case Some(was) =>
        if && e.kind.AsyncAnswer? && Claimed(e, id) && w.dispatch.Dispatching? && w.turn.None?
           && (forall other :: other in s.events && Claimed(s.events[other], id) ==> other == event)
           && was.dispatch.Idle?
        then
          Commit(SetWork(u, id, w.(dispatch := Idle, status := was.status, nextCheck := was.nextCheck)), ())
        else Rollback(InvalidInput)
  }

  /** Answers that were never claimed may be retired when their question is gone. */
  function RetireUnsent(s: Inbox, id: WorkId, gone: set<EventId>): Transaction<Inbox, ()> {
    Commit(s.(events := map e | e in s.events ::
      if && e in gone && s.events[e].work == id && s.events[e].kind.AsyncAnswer?
         && s.events[e].disposition.None? && s.events[e].delivery.None?
      then s.events[e].(disposition := Some(Settled)) else s.events[e]), ())
  }

  // ------------------------------------------------------ observed native turns

  /** Fence a steer into the running turn. */
  function BeginSteer(s: Inbox, id: WorkId, turn: TurnId, key: int, payload: Payload): Transaction<Inbox, EventId> {
    if id !in s.works then Rollback(NotFound)
    else if !Runs(s, id, turn) then Rollback(Conflict)
    else if Find(s, Steered(id, key)).Some? then Rollback(Constraint)
    else
      Commit(Insert(s, Event(Steered(id, key), id, SteerPending, payload, None, Some(Delivery(id, turn)))), s.nextEvent)
  }

  predicate TerminalSeen(s: Inbox, id: WorkId, thread: ThreadId, turn: TurnId) {
    exists e :: e in s.events && s.events[e].work == id
      && (IsCompletion(s.events[e].kind) || s.events[e].kind.CapacityRetry?)
      && s.events[e].payload.terminal.Some?
      && s.events[e].payload.terminal.value.thread == thread && s.events[e].payload.terminal.value.turn == turn
  }

  /** Adopt a native turn on the work bound to its thread, once. The reply says whether an idle work
      became running. */
  function ObserveNativeTurn(s: Inbox, id: WorkId, thread: ThreadId, turn: TurnId, account: Option<int>,
                             payload: Payload, gate: Gate): Transaction<Inbox, bool>
  {
    if turn == "" || |turn| > 512 then Rollback(InvalidInput)
    else if id !in s.works || s.works[id].thread != Some(thread) then Commit(s, false) // no work has the thread
    else
      var w := s.works[id];
      var source := NativeTurn(id, account, thread, turn);
      if !gate.owned then Commit(s, false)
      else if !w.dispatch.Idle? && !(w.dispatch.Running? && w.turn == Some(turn)) then Commit(s, false)
      else if Find(s, source).Some? || TerminalSeen(s, id, thread, turn) then Commit(s, false)
      else
        var u := Insert(s, Event(source, id, NativeTurnStarted, payload, Some(Settled), None));
        if w.dispatch.Idle? then Commit(SetWork(u, id, w.(dispatch := Running, turn := Some(turn))), true)
        else Commit(u, false)
  }

  function BeginVoiceCall(s: Inbox, call: VoiceCall, gate: Gate): Transaction<Inbox, ()> {
    if call.baseline.Some? && (call.baseline.value == "" || |call.baseline.value| > 512) then Rollback(InvalidInput)
    else if call.work !in s.works || s.works[call.work].thread != Some(call.thread) then Rollback(Conflict)
    else if !(s.works[call.work].dispatch.Idle? || s.works[call.work].dispatch.Running?) then Rollback(Conflict)
    else if !gate.hosts || gate.editPending then Rollback(Conflict)
    else if exists i :: 0 <= i < |s.calls| && (s.calls[i].session == call.session || s.calls[i].open) then
      Rollback(Constraint)
    else Commit(s.(calls := s.calls + [call.(open := true)]), ())
  }

  function CloseVoiceCall(s: Inbox, session: int): Transaction<Inbox, ()> {
    Commit(s.(calls := seq(|s.calls|, i requires 0 <= i < |s.calls| =>
      if s.calls[i].session == session then s.calls[i].(open := false) else s.calls[i])), ())
  }

  /** The newest call on a thread under a generation. */
  function LatestCall(calls: seq<VoiceCall>, thread: ThreadId, generation: int): Option<VoiceCall> {
    if calls == [] then None
    else
      var last := calls[|calls| - 1];
      if last.thread == thread && last.generation == generation then Some(last)
      else LatestCall(calls[..|calls| - 1], thread, generation)
  }

  function ObserveVoiceTurn(s: Inbox, generation: int, thread: ThreadId, turn: TurnId): Transaction<Inbox, bool> {
    if turn == "" || |turn| > 512 then Rollback(InvalidInput)
    else
      match LatestCall(s.calls, thread, generation)
      case None => Commit(s, false)
      case Some(call) =>
        if || (generation, thread, turn) in s.heard
           || exists i :: 0 <= i < |s.calls| && s.calls[i].generation == generation
                && s.calls[i].thread == thread && s.calls[i].baseline == Some(turn)
        then Commit(s, false)
        else if call.work !in s.works then Rollback(NotFound)
        else
          var w := s.works[call.work];
          var u := s.(heard := s.heard + {(generation, thread, turn)});
          if w.dispatch.Running? && w.turn == Some(turn) then Commit(u, true)
          else if !w.dispatch.Idle? then Rollback(Conflict)
          else
            Commit(SetWork(u, call.work,
                           w.(dispatch := Running, turn := Some(turn), status := Open, nextCheck := None)), true)
  }
}

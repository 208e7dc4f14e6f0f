/** The delivery fence over every run of inbox commands. */
module InboxFence {
  import opened Prelude
  import opened Reachability
  import opened InboxModel

  datatype Command =
    | DoCreate(id: WorkId, parent: Option<WorkId>, kind: WorkKind, manager: bool, status: Status)
    | DoSetStatus(id: WorkId, status: Status, nextCheck: Option<int>)
    | DoBind(id: WorkId, thread: ThreadId)
    | DoActivate(id: WorkId, left: ThreadId, thread: ThreadId, receipt: bool, revised: bool)
    | DoBeginCreation(id: WorkId)
    | DoAckCreation(id: WorkId, thread: ThreadId)
    | DoReserveFork(id: WorkId, target: WorkId, attached: bool)
    | DoAckFork(target: WorkId, thread: ThreadId)
    | DoRejectFork(target: WorkId)
    | DoEnqueue(input: Input, observation: bool, gate: Gate)
    | DoBegin(id: WorkId, ids: seq<EventId>, instruction: Option<Payload>, stale: set<EventId>, gate: Gate)
    | DoAck(id: WorkId, turn: TurnId, withExecution: bool)
    | DoComplete(id: WorkId, turn: TurnId)
    | DoCompleteWith(id: WorkId, turn: TurnId, input: Input, awaiting: bool)
    | DoReconcile(id: WorkId, turn: TurnId)
    | DoMarkUnknown(id: WorkId)
    | DoDispose(event: EventId, disposition: Status, nextCheck: Option<int>, superseded: bool)
    | DoRetry(id: WorkId, thread: ThreadId, event: EventId, gate: Gate)
    | DoReject(id: WorkId, previous: Work, gate: Gate)
    | DoRejectAsync(id: WorkId, event: EventId, before: Option<Work>)
    | DoRetireUnsent(id: WorkId, gone: set<EventId>)
    | DoSteer(id: WorkId, turn: TurnId, key: int, payload: Payload)
    | DoNativeTurn(id: WorkId, thread: ThreadId, turn: TurnId, account: Option<int>, payload: Payload, gate: Gate)
    | DoBeginCall(call: VoiceCall, gate: Gate)
    | DoCloseCall(session: int)
    | DoVoiceTurn(generation: int, thread: ThreadId, turn: TurnId)

  ghost function Step(s: Inbox, c: Command): Inbox {
    match c
    case DoCreate(id, parent, kind, manager, status) => After(s, CreateWork(s, id, parent, kind, manager, status))
    case DoSetStatus(id, status, nextCheck) => After(s, SetStatus(s, id, status, nextCheck))
    case DoBind(id, thread) => After(s, BindThread(s, id, thread))
    case DoActivate(id, left, thread, receipt, revised) => After(s, ActivateContext(s, id, left, thread, receipt, revised))
    case DoBeginCreation(id) => After(s, BeginThreadCreation(s, id))
    case DoAckCreation(id, thread) => After(s, AcknowledgeThreadCreation(s, id, thread))
    case DoReserveFork(id, target, attached) => After(s, ReserveFork(s, id, target, attached))
    case DoAckFork(target, thread) => After(s, AcknowledgeFork(s, target, thread))
    case DoRejectFork(target) => After(s, RejectFork(s, target))
    case DoEnqueue(input, observation, gate) => After(s, Enqueue(s, input, observation, gate))
    case DoBegin(id, ids, instruction, stale, gate) => After(s, BeginDispatch(s, id, ids, instruction, stale, gate))
    case DoAck(id, turn, withExecution) => After(s, Acknowledge(s, id, turn, withExecution))
    case DoComplete(id, turn) => After(s, Complete(s, id, turn))
    case DoCompleteWith(id, turn, input, awaiting) => After(s, CompleteWithEvent(s, id, turn, input, awaiting))
    case DoReconcile(id, turn) => After(s, Reconcile(s, id, turn))
    case DoMarkUnknown(id) => After(s, MarkUnknown(s, id))
    case DoDispose(event, disposition, nextCheck, superseded) =>
      After(s, Dispose(s, event, disposition, nextCheck, superseded))
    case DoRetry(id, thread, event, gate) => After(s, RetryInput(s, id, thread, event, gate))
    case DoReject(id, previous, gate) => After(s, RejectDispatch(s, id, previous, gate))
    case DoRejectAsync(id, event, before) => After(s, RejectAsync(s, id, event, before))
    case DoRetireUnsent(id, gone) => After(s, RetireUnsent(s, id, gone))
    case DoSteer(id, turn, key, payload) => After(s, BeginSteer(s, id, turn, key, payload))
    case DoNativeTurn(id, thread, turn, account, payload, gate) =>
      After(s, ObserveNativeTurn(s, id, thread, turn, account, payload, gate))
    case DoBeginCall(call, gate) => After(s, BeginVoiceCall(s, call, gate))
    case DoCloseCall(session) => After(s, CloseVoiceCall(s, session))
    case DoVoiceTurn(generation, thread, turn) => After(s, ObserveVoiceTurn(s, generation, thread, turn))
  }

  const Empty: Inbox := Inbox(map[], {}, map[], 1, [], {})

  ghost function Run(s: Inbox, commands: seq<Command>): Inbox {
    if commands == [] then s
    else Step(Run(s, commands[..|commands| - 1]), commands[|commands| - 1])
  }

  // ------------------------------------------------------------- the invariant

  /** Idle and dispatching works have no turn, running works have one, and no turn is the fence. */
  predicate WorkOk(w: Work) {
    && (w.dispatch.Idle? || w.dispatch.Dispatching? ==> w.turn.None?)
    && (w.dispatch.Running? ==> w.turn.Some?)
    && (w.turn.Some? ==> w.turn.value != FENCE)
  }

  predicate BehindFence(e: Event) {
    e.disposition.None? && e.delivery.Some? && e.delivery.value.turn == FENCE
  }

  /** An undisposed event behind the fence belongs to a bound work whose dispatch is in flight. */
  predicate ClaimOk(works: map<WorkId, Work>, e: Event) {
    BehindFence(e) ==>
      var w := e.delivery.value.work;
      w in works && works[w].thread.Some? && (works[w].dispatch.Dispatching? || works[w].dispatch.Unknown?)
  }

  ghost predicate WorksOk(works: map<WorkId, Work>) {
    forall w :: w in works ==> WorkOk(works[w])
  }

  ghost predicate ThreadsUnique(works: map<WorkId, Work>) {
    forall v, w :: v in works && w in works && v != w && works[v].thread.Some? ==> works[v].thread != works[w].thread
  }

  ghost predicate ClaimsOk(s: Inbox) {
    forall e :: e in s.events ==> ClaimOk(s.works, s.events[e])
  }

  ghost predicate RowsOk(s: Inbox) {
    && (forall e :: e in s.events ==> e < s.nextEvent)
    && (forall d, e :: d in s.events && e in s.events && s.events[d].source == s.events[e].source ==> d == e)
  }

  ghost predicate Fence(s: Inbox) {
    WorksOk(s.works) && ThreadsUnique(s.works) && ClaimsOk(s) && RowsOk(s)
  }

  // ------------------------------------------------------ how rows may evolve

  /** Identity never changes, a decision is final, and an undecided event stays with the work that
      once claimed it. */
  predicate EventEvolves(e: Event, n: Event) {
    && n.source == e.source && n.work == e.work && n.kind == e.kind && n.payload == e.payload
    && (e.disposition.Some? ==> n == e)
    && (n.disposition.None? && e.delivery.Some? ==> n.delivery.Some? && n.delivery.value.work == e.delivery.value.work)
  }

  predicate WorkEvolves(w: Work, n: Work) {
    && n.parent == w.parent && n.kind == w.kind
    && (w.thread.Some? ==> n.thread == w.thread)
  }

  ghost predicate Evolves(s: Inbox, u: Inbox) {
    && (forall e :: e in s.events ==> e in u.events && EventEvolves(s.events[e], u.events[e]))
    && (forall w :: w in s.works ==> w in u.works && WorkEvolves(s.works[w], u.works[w]))
    && s.managers <= u.managers
  }

  /** An activated context gives its work another thread. */
  function Rebound(c: Command): set<WorkId> {
    if c.DoActivate? then {c.id} else {}
  }

  function ReboundBy(commands: seq<Command>): set<WorkId> {
    if commands == [] then {} else ReboundBy(commands[..|commands| - 1]) + Rebound(commands[|commands| - 1])
  }

  /** Rows evolve as they may, except that some works may have moved to another thread. */
  ghost predicate Follows(s: Inbox, u: Inbox, rebound: set<WorkId>) {
    && (forall e :: e in s.events ==> e in u.events && EventEvolves(s.events[e], u.events[e]))
    && (forall w :: w in s.works ==>
          w in u.works && (WorkEvolves(s.works[w], u.works[w]) || (w in rebound && WorkMoved(s.works[w], u.works[w]))))
    && s.managers <= u.managers
  }

  predicate WorkMoved(w: Work, n: Work) {
    n.parent == w.parent && n.kind == w.kind && n.thread.Some?
  }

  // ------------------------------------------------------------- building blocks

  lemma {:induction false} FindBelowIs(s: Inbox, source: Source, n: nat)
    requires RowsOk(s)
    ensures FindBelow(s, source, n).Some? <==> exists e :: e in s.events && e < n && s.events[e].source == source
    ensures FindBelow(s, source, n).Some? ==>
      var e := FindBelow(s, source, n).value;
      e in s.events && e < n && s.events[e].source == source
  {
    if n > 0 { FindBelowIs(s, source, n - 1); }
  }

  lemma FindIs(s: Inbox, source: Source)
    requires RowsOk(s)
    ensures Find(s, source).None? <==> forall e :: e in s.events ==> s.events[e].source != source
    ensures Find(s, source).Some? ==> Find(s, source).value in s.events && s.events[Find(s, source).value].source == source
  {
    FindBelowIs(s, source, s.nextEvent);
  }

  /** One more row from a source not seen before. */
  lemma InsertKeeps(s: Inbox, e: Event)
    requires Fence(s) && Find(s, e.source).None? && ClaimOk(s.works, e)
    ensures Fence(Insert(s, e)) && Evolves(s, Insert(s, e))
  {
    FindIs(s, e.source);
  }

  /** One work row changes while no event stands behind its fence, or it stays in flight. */
  lemma WorkMoves(s: Inbox, id: WorkId, n: Work)
    requires Fence(s) && WorkOk(n)
    requires id in s.works ==> WorkEvolves(s.works[id], n)
    requires n.thread.Some? && (id in s.works ==> s.works[id].thread != n.thread) ==> !ThreadUsed(s, n.thread.value)
    requires (n.thread.Some? && (n.dispatch.Dispatching? || n.dispatch.Unknown?))
      || (forall e :: e in s.events ==> !Claimed(s.events[e], id))
    ensures Fence(SetWork(s, id, n)) && Evolves(s, SetWork(s, id, n))
  {
    var u := SetWork(s, id, n);
    forall e | e in u.events ensures ClaimOk(u.works, u.events[e]) {
      assert ClaimOk(s.works, s.events[e]);
      if s.events[e].delivery.Some? {
        var d := s.events[e].delivery.value;
        assert s.events[e].delivery == Some(Delivery(d.work, d.turn));
      }
    }
  }

  /** A work that is idle, running or unbound has nothing behind the fence. */
  lemma NothingClaimed(s: Inbox, id: WorkId)
    requires Fence(s)
    requires id !in s.works || s.works[id].thread.None? || s.works[id].dispatch.Idle? || s.works[id].dispatch.Running?
    ensures forall e :: e in s.events ==> !Claimed(s.events[e], id)
  {
    forall e | e in s.events ensures !Claimed(s.events[e], id) {
      assert ClaimOk(s.works, s.events[e]);
    }
  }

  /** Rows are rewritten in place and none of them joins the fence. */
  lemma EventsMove(s: Inbox, events: map<EventId, Event>)
    requires Fence(s) && events.Keys == s.events.Keys
    requires forall e :: e in events ==> EventEvolves(s.events[e], events[e])
    requires forall e :: e in events && BehindFence(events[e]) ==> events[e].delivery == s.events[e].delivery
    ensures Fence(s.(events := events)) && Evolves(s, s.(events := events))
  {
    forall e | e in events ensures ClaimOk(s.works, events[e]) {
      assert ClaimOk(s.works, s.events[e]) && EventEvolves(s.events[e], events[e]);
    }
  }

  lemma EvolvesThrough(s: Inbox, t: Inbox, u: Inbox)
    requires Evolves(s, t) && Evolves(t, u)
    ensures Evolves(s, u)
  {
    forall e | e in s.events ensures e in u.events && EventEvolves(s.events[e], u.events[e]) {
      assert EventEvolves(s.events[e], t.events[e]) && EventEvolves(t.events[e], u.events[e]);
    }
  }

  lemma FollowsThrough(s: Inbox, t: Inbox, u: Inbox, first: set<WorkId>, second: set<WorkId>)
    requires Follows(s, t, first) && Follows(t, u, second)
    ensures Follows(s, u, first + second)
  {
    forall e | e in s.events ensures e in u.events && EventEvolves(s.events[e], u.events[e]) {
      assert EventEvolves(s.events[e], t.events[e]) && EventEvolves(t.events[e], u.events[e]);
    }
  }
}

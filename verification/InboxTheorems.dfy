/** What the fence means for those who dispatch, observe and retry. */
module InboxTheorems {
  import opened Prelude
  import opened InboxModel
  import opened InboxFence
  import opened InboxSteps

  /** In every reachable state an undecided event behind the fence belongs to a thread-bound work that
      is dispatching or unknown; idle and dispatching works have no turn; running works have one; no
      two works share a thread. */
  lemma TheFenceHolds(commands: seq<Command>)
    ensures
      var s := Run(Empty, commands);
      && (forall e, w :: e in s.events && Claimed(s.events[e], w) ==>
            && w in s.works && s.works[w].thread.Some?
            && (s.works[w].dispatch.Dispatching? || s.works[w].dispatch.Unknown?))
      && (forall w :: w in s.works && (s.works[w].dispatch.Idle? || s.works[w].dispatch.Dispatching?) ==>
            s.works[w].turn.None?)
      && (forall w :: w in s.works && s.works[w].dispatch.Running? ==> s.works[w].turn.Some?)
      && ThreadsUnique(s.works)
  {
    RunGood(Empty, commands);
    var s := Run(Empty, commands);
    forall w | w in s.works ensures WorkOk(s.works[w]) {}
    forall e | e in s.events ensures ClaimOk(s.works, s.events[e]) {}
  }

  /** Over every later run a decision is final, identities never change, an undecided event stays with
      the work that once claimed it, and a bound work stays bound, to the same thread unless a context
      was activated for it. */
  lemma HistoryIsKept(commands: seq<Command>, later: seq<Command>)
    ensures Follows(Run(Empty, commands), Run(Run(Empty, commands), later), ReboundBy(later))
  {
    RunGood(Empty, commands);
    RunGood(Run(Empty, commands), later);
  }

  /** An activated context moves exactly an idle work, to a thread that no other work has. */
  lemma ContextsMoveIdleWorks(s: Inbox, id: WorkId, left: ThreadId, thread: ThreadId, receipt: bool, revised: bool)
    requires Fence(s) && ActivateContext(s, id, left, thread, receipt, revised).Commit?
    ensures
      var u := ActivateContext(s, id, left, thread, receipt, revised).state;
      && id in s.works && s.works[id].dispatch.Idle? && s.works[id].thread == Some(left)
      && u.works == s.works[id := s.works[id].(thread := Some(thread))] && ThreadsUnique(u.works)
      && (forall e :: e in s.events ==> e in u.events && u.events[e] == s.events[e] && !Claimed(s.events[e], id))
  {
    NothingClaimed(s, id);
    ActivateGood(s, id, left, thread, receipt, revised);
  }

  // -------------------------------------------------------- leaving the unknown

  /** A step that leaves a work as it is while its state is unknown. */
  ghost predicate LeavesUnknown(s: Inbox, c: Command, w: WorkId)
    requires w in s.works
  {
    w in Step(s, c).works
    && Step(s, c).works[w].dispatch == s.works[w].dispatch && Step(s, c).works[w].turn == s.works[w].turn
  }

  /** Only positive evidence of its own turn takes a work out of the unknown state. */
  lemma UnknownIsLeftByReconcileOnly(s: Inbox, c: Command, w: WorkId)
    requires Fence(s) && w in s.works && s.works[w].dispatch.Unknown?
    ensures w in Step(s, c).works
    ensures
      var n := Step(s, c).works[w];
      || (n.dispatch.Unknown? && n.turn == s.works[w].turn)
      || (c.DoReconcile? && c.id == w && n.dispatch.Running? && n.turn == Some(c.turn)
            && (s.works[w].turn.Some? ==> s.works[w].turn.value == c.turn))
  {
    if c.DoReconcile? {}
    else if c.DoBegin? { BeginTouches(s, c, w); }
    else if c.DoCompleteWith? || c.DoRetry? {}
    else if IsEventStep(c) || IsRefusalStep(c) { DecisionsTouch(s, c, w); }
    else if IsDispatchStep(c) || IsTurnStep(c) { TurnsTouch(s, c, w); }
    else { ThreadsTouch(s, c, w); }
  }

  lemma DecisionsTouch(s: Inbox, c: Command, w: WorkId)
    requires w in s.works && s.works[w].dispatch.Unknown? && (IsEventStep(c) || IsRefusalStep(c)) && !c.DoRetry?
    ensures LeavesUnknown(s, c, w)
  {
  }

  lemma TurnsTouch(s: Inbox, c: Command, w: WorkId)
    requires w in s.works && s.works[w].dispatch.Unknown?
    requires (IsDispatchStep(c) || IsTurnStep(c)) && !c.DoReconcile? && !c.DoBegin? && !c.DoCompleteWith?
    ensures LeavesUnknown(s, c, w)
  {
  }

  lemma ThreadsTouch(s: Inbox, c: Command, w: WorkId)
    requires w in s.works && s.works[w].dispatch.Unknown?
    requires !IsEventStep(c) && !IsRefusalStep(c) && !IsDispatchStep(c) && !IsTurnStep(c)
    ensures LeavesUnknown(s, c, w)
  {
  }

  lemma BeginTouches(s: Inbox, c: Command, w: WorkId)
    requires Fence(s) && w in s.works && c.DoBegin? && !s.works[w].dispatch.Idle?
    ensures w in Step(s, c).works && Step(s, c).works[w] == s.works[w]
  {
    if BeginDispatch(s, c.id, c.ids, c.instruction, c.stale, c.gate).Commit? {
      WorkMoves(s, c.id, s.works[c.id].(dispatch := Dispatching));
      ClaimAllGood(SetWork(s, c.id, s.works[c.id].(dispatch := Dispatching)), c.id, c.ids);
    }
  }

  // ------------------------------------------------------------- claims in flight

  /** What a committed dispatch carries: exactly the events asked for, each once, none of them behind
      any fence before, together with the saved instruction. */
  lemma DispatchCarriesExactly(s: Inbox, id: WorkId, ids: seq<EventId>, instruction: Option<Payload>,
                               stale: set<EventId>, gate: Gate)
    requires Fence(s) && BeginDispatch(s, id, ids, instruction, stale, gate).Commit?
    ensures
      var u := BeginDispatch(s, id, ids, instruction, stale, gate).state;
      && id in s.works && s.works[id].dispatch.Idle? && id in u.works && u.works[id].dispatch.Dispatching?
      && (forall i, j :: 0 <= i < j < |ids| ==> ids[i] != ids[j])
      && (forall e :: e in ids ==> e in s.events && !BehindFence(s.events[e]) && ClaimableRow(s, id, s.events[e]))
      && (forall e :: e in u.events && Claimed(u.events[e], id) <==>
            e in ids || (instruction.Some? && e == s.nextEvent))
  {
    var w := s.works[id].(dispatch := Dispatching);
    NothingClaimed(s, id);
    WorkMoves(s, id, w);
    var begun := SetWork(s, id, w);
    ClaimAllGood(begun, id, ids);
    ClaimAllExactly(begun, id, ids);
    var claimed := ClaimAll(begun, id, ids).value;
    var u := BeginDispatch(s, id, ids, instruction, stale, gate).state;
    assert forall e :: e in claimed.events ==> e < s.nextEvent;
    assert instruction.None? ==> u.events == claimed.events;
    forall e | e in ids ensures e in s.events && !BehindFence(s.events[e]) && ClaimableRow(s, id, s.events[e]) {
      assert ClaimableRow(begun, id, s.events[e]);
    }
  }

  lemma {:induction false} ClaimAllExactly(s: Inbox, root: WorkId, ids: seq<EventId>)
    requires ClaimAll(s, root, ids).Some?
    requires forall e :: e in s.events ==> !Claimed(s.events[e], root)
    ensures
      var u := ClaimAll(s, root, ids).value;
      && u.events.Keys == s.events.Keys && u.managers == s.managers
      && (forall i, j :: 0 <= i < j < |ids| ==> ids[i] != ids[j])
      && (forall e :: e in ids ==> e in s.events && ClaimableRow(s, root, s.events[e]))
      && (forall e :: e in s.events && e !in ids ==> u.events[e] == s.events[e])
      && (forall e :: e in ids ==> Claimed(u.events[e], root))
  {
    if ids != [] {
      var n := |ids| - 1;
      ClaimAllExactly(s, root, ids[..n]);
      var t := ClaimAll(s, root, ids[..n]).value;
      assert ids == ids[..n] + [ids[n]];
      assert ClaimableRow(t, root, t.events[ids[n]]);
      assert ids[n] !in ids[..n];
    }
  }

  /** A claim stays with its dispatch: in one step it is decided, or it stays behind the fence, or the
      work's own acknowledged or reconciled turn takes it. */
  lemma ClaimsAreNeverStolen(s: Inbox, c: Command, e: EventId, w: WorkId)
    requires Fence(s) && e in s.events && Claimed(s.events[e], w)
    ensures e in Step(s, c).events
    ensures
      var u := Step(s, c);
      var n := u.events[e];
      || n.disposition.Some?
      || (Claimed(n, w) && w in u.works && (u.works[w].dispatch.Dispatching? || u.works[w].dispatch.Unknown?))
      || ((c.DoAck? || c.DoReconcile?) && Runs(u, w, TurnOf(c)) && Carries(n, w, TurnOf(c)))
  {
    StepGood(s, c);
    var n := Step(s, c).events[e];
    assert EventEvolves(s.events[e], n);
    assert ClaimOk(s.works, s.events[e]);
    assert ClaimOk(Step(s, c).works, n);
    if n.disposition.None? {
      assert n.delivery.Some? && n.delivery.value.work == w;
      var d := n.delivery.value;
      assert n.delivery == Some(Delivery(d.work, d.turn));
      if n.delivery.value.turn != FENCE {
        if c.DoBegin? { BeginKeepsClaims(s, c, e); }
        else if c.DoCompleteWith? { CompletionKeepsClaims(s, c, e); }
        else if c.DoRetry? { RetryKeepsClaims(s, c, e); }
        else { OtherKeepClaims(s, c, e, w); }
      }
    }
  }

  function TurnOf(c: Command): TurnId {
    match c
    case DoAck(_, turn, _) => turn
    case DoReconcile(_, turn) => turn
    case _ => FENCE
  }

  lemma BeginKeepsClaims(s: Inbox, c: Command, e: EventId)
    requires Fence(s) && c.DoBegin? && e in s.events && BehindFence(s.events[e])
    ensures e in Step(s, c).events && Step(s, c).events[e].delivery == s.events[e].delivery
  {
    var tx := BeginDispatch(s, c.id, c.ids, c.instruction, c.stale, c.gate);
    if tx.Commit? {
      var begun := SetWork(s, c.id, s.works[c.id].(dispatch := Dispatching));
      NothingClaimed(s, c.id);
      ClaimAllExactly(begun, c.id, c.ids);
      assert e in c.ids ==> ClaimableRow(begun, c.id, begun.events[e]);
      WorkMoves(s, c.id, s.works[c.id].(dispatch := Dispatching));
      ClaimAllGood(begun, c.id, c.ids);
    }
  }

  lemma RecordingKeeps(s: Inbox, input: Input, e: EventId)
    requires Fence(s) && e in s.events && Recorded(s, input).Commit?
    ensures e in Recorded(s, input).state.events && Recorded(s, input).state.events[e] == s.events[e]
  {
  }

  lemma SettlingKeeps(events: map<EventId, Event>, event: EventId, id: WorkId, turn: TurnId, handled: bool, e: EventId)
    requires e in events
    ensures e in Handled(Receipted(events, event), id, turn, handled)
    ensures Handled(Receipted(events, event), id, turn, handled)[e].delivery == events[e].delivery
  {
  }

  lemma CompletionKeepsClaims(s: Inbox, c: Command, e: EventId)
    requires Fence(s) && c.DoCompleteWith? && e in s.events
    ensures e in Step(s, c).events && Step(s, c).events[e].delivery == s.events[e].delivery
  {
    var tx := CompleteWithEvent(s, c.id, c.turn, c.input, c.awaiting);
    if tx.Commit? {
      var kind := if IsCompletion(c.input.kind) then (if c.awaiting then WorkerTurnCompleted else AgentTurnCompleted)
                  else c.input.kind;
      var input := c.input.(kind := kind);
      RecordingKeeps(s, input, e);
      var handled := IsCompletion(c.input.kind) && c.input.payload.terminal.Some? && c.input.payload.terminal.value.completed;
      SettlingKeeps(Recorded(s, input).state.events, tx.reply, c.id, c.turn, handled, e);
      assert tx.state.events == Handled(Receipted(Recorded(s, input).state.events, tx.reply), c.id, c.turn, handled);
    }
  }

  lemma RetryKeepsClaims(s: Inbox, c: Command, e: EventId)
    requires Fence(s) && c.DoRetry? && e in s.events
    ensures e in Step(s, c).events && Step(s, c).events[e].delivery == s.events[e].delivery
  {
  }

  lemma OtherKeepClaims(s: Inbox, c: Command, e: EventId, w: WorkId)
    requires Fence(s) && !c.DoBegin? && !c.DoCompleteWith? && !c.DoRetry?
    requires e in s.events && Claimed(s.events[e], w)
    requires e in Step(s, c).events && Step(s, c).events[e].disposition.None?
    ensures
      var u := Step(s, c);
      || u.events[e].delivery == s.events[e].delivery
      || ((c.DoAck? || c.DoReconcile?) && Runs(u, w, TurnOf(c)) && Carries(u.events[e], w, TurnOf(c)))
  {
    if c.DoAck? || c.DoReconcile? { AnsweredTakesClaims(s, c, e, w); }
    else if IsRefusalStep(c) || IsEventStep(c) { DecisionsKeepClaims(s, c, e); }
    else { TurnsKeepClaims(s, c, e); }
  }

  lemma AnsweredTakesClaims(s: Inbox, c: Command, e: EventId, w: WorkId)
    requires c.DoAck? || c.DoReconcile?
    requires e in s.events && Claimed(s.events[e], w)
    requires e in Step(s, c).events && Step(s, c).events[e].disposition.None?
    ensures
      var u := Step(s, c);
      || u.events[e].delivery == s.events[e].delivery
      || (Runs(u, w, TurnOf(c)) && Carries(u.events[e], w, TurnOf(c)))
  {
  }

  lemma DecisionsKeepClaims(s: Inbox, c: Command, e: EventId)
    requires Fence(s) && (IsRefusalStep(c) || IsEventStep(c)) && !c.DoRetry?
    requires e in s.events && e in Step(s, c).events && Step(s, c).events[e].disposition.None?
    ensures Step(s, c).events[e].delivery == s.events[e].delivery
  {
  }

  lemma TurnsKeepClaims(s: Inbox, c: Command, e: EventId)
    requires Fence(s) && !IsRefusalStep(c) && !IsEventStep(c)
    requires !c.DoBegin? && !c.DoCompleteWith? && !c.DoAck? && !c.DoReconcile?
    requires e in s.events
    ensures e in Step(s, c).events && Step(s, c).events[e].delivery == s.events[e].delivery
  {
  }

  // ------------------------------------------------------------- once and for all

  /** A source, once recorded, is found in every later state. */
  lemma SourcesStay(s: Inbox, later: seq<Command>, source: Source)
    requires Fence(s) && Find(s, source).Some?
    ensures Fence(Run(s, later)) && Find(Run(s, later), source).Some?
  {
    FindIs(s, source);
    RunGood(s, later);
    var e := Find(s, source).value;
    assert EventEvolves(s.events[e], Run(s, later).events[e]);
    FindIs(Run(s, later), source);
  }

  /** A native turn that was adopted is not adopted again, whatever happens in between, as long as the
      same account observes it or its terminal event was recorded. */
  lemma NativeTurnsAreAdoptedOnce(s: Inbox, id: WorkId, thread: ThreadId, turn: TurnId, account: Option<int>,
                                  payload: Payload, gate: Gate, later: seq<Command>, again: Payload, asked: Gate,
                                  observer: Option<int>)
    requires Fence(s)
    requires
      var tx := ObserveNativeTurn(s, id, thread, turn, account, payload, gate);
      tx.Commit? && tx.state != s
    ensures
      var u := ObserveNativeTurn(s, id, thread, turn, account, payload, gate).state;
      var n := Run(u, later);
      observer == account || TerminalSeen(n, id, thread, turn) ==>
        ObserveNativeTurn(n, id, thread, turn, observer, again, asked) == Commit(n, false)
  {
    NativeTurnGood(s, id, thread, turn, account, payload, gate);
    var u := ObserveNativeTurn(s, id, thread, turn, account, payload, gate).state;
    var source := NativeTurn(id, account, thread, turn);
    assert u.events[s.nextEvent].source == source;
    FindIs(u, source);
    SourcesStay(u, later, source);
  }

  /** Once the work is idle again on its thread, another account that never observed the turn adopts it
      again exactly as long as no terminal event of it was recorded. */
  lemma AnotherAccountAdoptsAgain(s: Inbox, id: WorkId, thread: ThreadId, turn: TurnId, observer: Option<int>,
                                  payload: Payload, gate: Gate)
    requires Fence(s) && turn != "" && |turn| <= 512 && gate.owned
    requires id in s.works && s.works[id].thread == Some(thread) && s.works[id].dispatch.Idle?
    requires forall e :: e in s.events ==> s.events[e].source != NativeTurn(id, observer, thread, turn)
    ensures
      var tx := ObserveNativeTurn(s, id, thread, turn, observer, payload, gate);
      tx.Commit? && (tx.reply <==> !TerminalSeen(s, id, thread, turn))
  {
    FindIs(s, NativeTurn(id, observer, thread, turn));
  }

  /** A retry of an unsent input is queued once: asking again, at any later time, changes nothing. */
  lemma RetriesAreQueuedOnce(s: Inbox, id: WorkId, thread: ThreadId, event: EventId, gate: Gate,
                             later: seq<Command>, asked: Gate)
    requires Fence(s) && RetryInput(s, id, thread, event, gate).Commit?
    ensures
      var n := Run(RetryInput(s, id, thread, event, gate).state, later);
      After(n, RetryInput(n, id, thread, event, asked)) == n
  {
    RetryGood(s, id, thread, event, gate);
    var u := RetryInput(s, id, thread, event, gate).state;
    var source := Retried(id, event);
    FindIs(s, source);
    if Find(s, source).None? { assert u.events[s.nextEvent].source == source; }
    FindIs(u, source);
    SourcesStay(u, later, source);
  }

  /** A refusal before any effect returns exactly the claimed events to the user, undelivered, and each
      returned user message of a manager may then be retried. */
  lemma RefusalReturnsTheClaim(s: Inbox, id: WorkId, previous: Work, gate: Gate, e: EventId)
    requires Fence(s) && RejectDispatch(s, id, previous, gate).Commit? && e in s.events
    ensures
      var u := RejectDispatch(s, id, previous, gate).state;
      && id in u.works && u.works[id].dispatch.Idle? && u.works[id].thread == s.works[id].thread
      && e in u.events
      && (if Claimed(s.events[e], id) then
            u.events[e] == s.events[e].(disposition := Some(UserDecision), delivery := None)
          else u.events[e] == s.events[e])
      && (Claimed(s.events[e], id) && s.events[e].kind.UserMessage? && s.events[e].work == id && id in s.managers
            && !gate.editPending && !gate.badInput && !gate.paused
            && Find(u, Retried(id, e)).None? && !ThreadBusyElsewhere(u, id) ==>
          var retried := RetryInput(u, id, u.works[id].thread.value, e, gate);
          && retried.Commit? && u.nextEvent in retried.state.events
          && Matches(retried.state.events[u.nextEvent], Input(Retried(id, e), id, UserMessage, s.events[e].payload))
          && retried.state.events[u.nextEvent].disposition.None?
          && retried.state.events[u.nextEvent].delivery.None?)
  {
  }
}

/** What may enter the inbox, and what a dispatch may take out of it. */
module InboxAdmission {
  import opened Prelude
  import opened Reachability
  import opened InboxModel
  import opened InboxFence
  import opened InboxSteps
  import opened InboxTheorems
  import opened InboxEffects

  // -------------------------------------------------------- the reach of a work

  /** One step down, from the root or past a work that is no manager. */
  predicate StepDown(s: Inbox, root: WorkId, parent: WorkId, child: WorkId) {
    child in s.works && s.works[child].parent == Some(parent) && (parent == root || parent !in s.managers)
  }

  /** A chain of works from a root down to a descendant, each the parent of the next, that passes no manager
      but the root. */
  ghost predicate Lineage(s: Inbox, chain: seq<WorkId>, root: WorkId, work: WorkId) {
    && |chain| > 0 && chain[0] == root && chain[|chain| - 1] == work
    && forall i :: 0 <= i < |chain| - 1 ==> StepDown(s, root, chain[i], chain[i + 1])
  }

  /** A work answers for itself and for those that descend from it without another manager between. */
  ghost predicate AnswersFor(s: Inbox, root: WorkId, work: WorkId) {
    exists chain :: Lineage(s, chain, root, work)
  }

  lemma ReachIsLineage(s: Inbox, root: WorkId, work: WorkId)
    ensures Reaches(Family(s, root), root, work) <==> AnswersFor(s, root, work)
  {
    if Reaches(Family(s, root), root, work) {
      var p :| Along(Family(s, root), p, root, work);
      assert Lineage(s, p, root, work) by {
        forall i | 0 <= i < |p| - 1 ensures StepDown(s, root, p[i], p[i + 1]) {
          assert (p[i], p[i + 1]) in Family(s, root);
        }
      }
    }
    if AnswersFor(s, root, work) {
      var chain :| Lineage(s, chain, root, work);
      assert Along(Family(s, root), chain, root, work);
    }
  }

  /** An undecided input of a work that answers for it: what the user, a rule or a collaborator sent, the result
      of a descendant, or an answer to the work's own question that was never sent. It is not under way, and
      was never in a turn of another work; another manager's own input is not touched. */
  ghost predicate MayTravel(s: Inbox, root: WorkId, e: Event) {
    && AnswersFor(s, root, e.work)
    && e.disposition.None?
    && (match e.kind
        case UserMessage => e.work == root || e.work !in s.managers
        case AssistantInstruction => e.work == root || e.work !in s.managers
        case Wake(_) => e.work == root || e.work !in s.managers
        case WorkerTurnCompleted => e.work != root
        case AsyncAnswer => e.work == root && e.delivery.None?
        case _ => false)
    && (e.delivery.Some? ==> e.delivery.value.work == root && e.delivery.value.turn != "")
  }

  lemma ClaimableMayTravel(s: Inbox, root: WorkId, e: Event)
    ensures Claimable(s, root, e) <==> MayTravel(s, root, e)
  {
    ReachIsLineage(s, root, e.work);
  }

  // ---------------------------------------------------------------- dispatching

  ghost predicate AllMayTravel(s: Inbox, root: WorkId, ids: seq<EventId>) {
    && (forall i, j :: 0 <= i < j < |ids| ==> ids[i] != ids[j])
    && (forall i :: 0 <= i < |ids| ==> ids[i] in s.events && MayTravel(s, root, s.events[ids[i]]))
  }

  lemma AllButTheLast(s: Inbox, root: WorkId, ids: seq<EventId>)
    requires ids != []
    ensures
      var n := |ids| - 1;
      AllMayTravel(s, root, ids) <==>
        && AllMayTravel(s, root, ids[..n])
        && ids[n] in s.events && MayTravel(s, root, s.events[ids[n]])
        && forall i :: 0 <= i < n ==> ids[..n][i] != ids[n]
  {
    var n := |ids| - 1;
    assert forall i :: 0 <= i < n ==> ids[..n][i] == ids[i];
    if AllMayTravel(s, root, ids[..n]) {
      forall i | 0 <= i < n ensures ids[i] in s.events && MayTravel(s, root, s.events[ids[i]]) {
        assert MayTravel(s, root, s.events[ids[..n][i]]);
      }
    }
  }

  /** What a claim leaves. */
  lemma {:induction false} ClaimsAreFenced(s: Inbox, root: WorkId, ids: seq<EventId>)
    requires ClaimAll(s, root, ids).Some?
    ensures
      var u := ClaimAll(s, root, ids).value;
      && u.works == s.works && u.managers == s.managers && u.events.Keys == s.events.Keys && u.nextEvent == s.nextEvent
      && (forall e :: e in s.events && e !in ids ==> u.events[e] == s.events[e])
      && (forall i :: 0 <= i < |ids| ==> ids[i] in u.events && u.events[ids[i]].delivery == Some(Delivery(root, FENCE)))
  {
    if ids != [] {
      var n := |ids| - 1;
      ClaimsAreFenced(s, root, ids[..n]);
      assert forall i :: 0 <= i < n ==> ids[..n][i] == ids[i];
    }
  }

  /** The claims of a dispatch are taken exactly when each may travel and none is asked for twice. */
  lemma {:induction false} ClaimsAreTakenExactly(s: Inbox, root: WorkId, ids: seq<EventId>)
    ensures ClaimAll(s, root, ids).Some? <==> AllMayTravel(s, root, ids)
  {
    if ids != [] {
      var n := |ids| - 1;
      ClaimsAreTakenExactly(s, root, ids[..n]);
      AllButTheLast(s, root, ids);
      if ClaimAll(s, root, ids[..n]).Some? {
        ClaimsAreFenced(s, root, ids[..n]);
        OneMoreClaim(s, ClaimAll(s, root, ids[..n]).value, root, ids[..n], ids[n]);
      }
    }
  }

  lemma OneMoreClaim(s: Inbox, u: Inbox, root: WorkId, claimed: seq<EventId>, id: EventId)
    requires u.works == s.works && u.managers == s.managers && u.events.Keys == s.events.Keys
    requires forall e :: e in s.events && e !in claimed ==> u.events[e] == s.events[e]
    requires forall i :: 0 <= i < |claimed| ==> claimed[i] in u.events && u.events[claimed[i]].delivery == Some(Delivery(root, FENCE))
    ensures id in u.events && Claimable(u, root, u.events[id]) <==>
      id in s.events && MayTravel(s, root, s.events[id]) && forall i :: 0 <= i < |claimed| ==> claimed[i] != id
  {
    if id in s.events {
      ClaimableMayTravel(u, root, u.events[id]);
      SameReach(s, u, root, s.events[id].work);
    }
  }

  lemma SameReach(s: Inbox, u: Inbox, root: WorkId, work: WorkId)
    requires u.works == s.works && u.managers == s.managers
    ensures AnswersFor(u, root, work) <==> AnswersFor(s, root, work)
  {
    if AnswersFor(s, root, work) {
      var chain :| Lineage(s, chain, root, work);
      assert Lineage(u, chain, root, work);
    }
    if AnswersFor(u, root, work) {
      var chain :| Lineage(u, chain, root, work);
      assert Lineage(s, chain, root, work);
    }
  }

  lemma FencingKeepsReach(s: Inbox, id: WorkId, work: WorkId)
    requires id in s.works
    ensures AnswersFor(SetWork(s, id, s.works[id].(dispatch := Dispatching)), id, work) <==> AnswersFor(s, id, work)
  {
    var u := SetWork(s, id, s.works[id].(dispatch := Dispatching));
    if AnswersFor(s, id, work) {
      var chain :| Lineage(s, chain, id, work);
      assert Lineage(u, chain, id, work);
    }
    if AnswersFor(u, id, work) {
      var chain :| Lineage(u, chain, id, work);
      assert Lineage(s, chain, id, work);
    }
  }

  lemma FencingKeepsTravel(s: Inbox, id: WorkId, ids: seq<EventId>)
    requires id in s.works
    ensures AllMayTravel(SetWork(s, id, s.works[id].(dispatch := Dispatching)), id, ids) <==> AllMayTravel(s, id, ids)
  {
    forall e | e in s.events
      ensures MayTravel(SetWork(s, id, s.works[id].(dispatch := Dispatching)), id, s.events[e]) <==>
              MayTravel(s, id, s.events[e])
    {
      FencingKeepsReach(s, id, s.events[e].work);
    }
  }

  /** The source of the next instruction of a work. */
  predicate InstructedBefore(s: Inbox, id: WorkId) {
    exists e :: e in s.events && s.events[e].source == Instructed(id, NewestBelow(s, id, s.nextEvent))
  }

  /** A work that reopens when it is dispatched: tasks and managers do, other goals keep their status. */
  function Reopened(s: Inbox, id: WorkId, w: Work): Work {
    if w.kind.Task? || id in s.managers then w.(status := Open, nextCheck := None) else w
  }

  /** A dispatch begins exactly when its work is idle on a thread, no settings edit is under way, and each of at
      most a thousand inputs may travel with it, is asked for once and is not stale; its instruction must
      follow a newer event than the last one did. Then the work is dispatching, and tasks and managers
      are open again. */
  lemma DispatchesBeginExactly(s: Inbox, id: WorkId, ids: seq<EventId>, instruction: Option<Payload>,
                               stale: set<EventId>, gate: Gate)
    requires Fence(s)
    ensures
      var tx := BeginDispatch(s, id, ids, instruction, stale, gate);
      && (tx.Commit? <==>
            && id in s.works && s.works[id].dispatch.Idle? && s.works[id].thread.Some? && !gate.settingsPending
            && |ids| <= 1000 && (forall i :: 0 <= i < |ids| ==> ids[i] !in stale) && AllMayTravel(s, id, ids)
            && (instruction.Some? ==> !InstructedBefore(s, id)))
      && (tx.Commit? ==> tx.state.works == s.works[id := Reopened(s, id, s.works[id].(dispatch := Dispatching))])
  {
    if id in s.works {
      var begun := SetWork(s, id, s.works[id].(dispatch := Dispatching));
      ClaimsAreTakenExactly(begun, id, ids);
      FencingKeepsTravel(s, id, ids);
      if ClaimAll(begun, id, ids).Some? && s.works[id].dispatch.Idle? && s.works[id].thread.Some? {
        ClaimedRowsFollow(s, id, ids);
        InstructionIsNew(s, Reopen(ClaimAll(begun, id, ids).value, id), id, instruction);
      }
    }
  }

  lemma ClaimedRowsFollow(s: Inbox, id: WorkId, ids: seq<EventId>)
    requires Fence(s) && id in s.works && s.works[id].dispatch.Idle? && s.works[id].thread.Some?
    requires ClaimAll(SetWork(s, id, s.works[id].(dispatch := Dispatching)), id, ids).Some?
    ensures
      var u := Reopen(ClaimAll(SetWork(s, id, s.works[id].(dispatch := Dispatching)), id, ids).value, id);
      && RowsOk(u) && u.events.Keys == s.events.Keys && u.nextEvent == s.nextEvent
      && u.works == s.works[id := Reopened(s, id, s.works[id].(dispatch := Dispatching))]
      && forall e :: e in s.events ==> u.events[e].work == s.events[e].work && u.events[e].source == s.events[e].source
  {
    var begun := SetWork(s, id, s.works[id].(dispatch := Dispatching));
    NothingClaimed(s, id);
    WorkMoves(s, id, s.works[id].(dispatch := Dispatching));
    ClaimAllGood(begun, id, ids);
    var u := ClaimAll(begun, id, ids).value;
    forall e | e in s.events ensures u.events[e].work == s.events[e].work && u.events[e].source == s.events[e].source {
      assert EventEvolves(begun.events[e], u.events[e]);
    }
    ClaimsAreFenced(begun, id, ids);
  }

  lemma InstructionIsNew(s: Inbox, u: Inbox, id: WorkId, instruction: Option<Payload>)
    requires u.events.Keys == s.events.Keys && u.nextEvent == s.nextEvent && RowsOk(u)
    requires forall e :: e in s.events ==> u.events[e].work == s.events[e].work && u.events[e].source == s.events[e].source
    ensures Instruct(u, id, instruction).Commit? <==> (instruction.Some? ==> !InstructedBefore(s, id))
  {
    SameNewest(s, u, id, s.nextEvent);
    FindIs(u, Instructed(id, NewestBelow(u, id, u.nextEvent)));
  }

  lemma {:induction false} SameNewest(s: Inbox, u: Inbox, work: WorkId, n: nat)
    requires u.events.Keys == s.events.Keys && forall e :: e in s.events ==> u.events[e].work == s.events[e].work
    ensures NewestBelow(u, work, n) == NewestBelow(s, work, n)
  {
    if n > 0 { SameNewest(s, u, work, n - 1); }
  }

  // ------------------------------------------------------------------ recording

  /** A new input is recorded exactly when its work exists and nothing forbids it: a user message needs the
      thread free of another user, valid references and an unpaused conversation; messages, answers and
      steers wait for a prompt edit. It is recorded as it came, undecided unless it is only observed. */
  lemma NewInputIsRecordedExactly(s: Inbox, input: Input, observation: bool, gate: Gate)
    requires Fence(s) && forall e :: e in s.events ==> s.events[e].source != input.source
    ensures
      var tx := Enqueue(s, input, observation, gate);
      && (tx.Commit? <==>
            && input.work in s.works
            && (input.kind.UserMessage? ==>
                  && !gate.badInput && !gate.paused && !gate.editPending
                  && forall e :: e in s.events && s.events[e].kind.ThreadInUse? && s.events[e].work == input.work ==>
                       s.events[e].disposition.Some?)
            && (input.kind.AsyncAnswer? || input.kind.SteerPending? ==> !gate.editPending))
      && (tx.Commit? ==>
            && tx.reply !in s.events
            && tx.state == s.(events := tx.state.events, nextEvent := tx.state.nextEvent)
            && tx.state.events == s.events[tx.reply := tx.state.events[tx.reply]]
            && tx.state.events[tx.reply] == Event(input.source, input.work, input.kind, input.payload,
                                                  if observation then Some(Settled) else None, None))
  {
    FindIs(s, input.source);
  }

  /** An input is recorded once. Whatever happened since, the same input from the same source finds its row and
      changes nothing, and any other input from that source is a conflict. */
  lemma InputIsRecordedOnce(s: Inbox, input: Input, observation: bool, gate: Gate, later: seq<Command>,
                            again: Input, observed: bool, asked: Gate)
    requires Fence(s) && Enqueue(s, input, observation, gate).Commit? && again.source == input.source
    ensures
      var tx := Enqueue(s, input, observation, gate);
      var n := Run(tx.state, later);
      Enqueue(n, again, observed, asked) ==
        if again == input then Commit(n, tx.reply) else Rollback(IdempotencyConflict)
  {
    FindIs(s, input.source);
    EnqueueGood(s, input, observation, gate);
    var tx := Enqueue(s, input, observation, gate);
    assert tx.reply in tx.state.events && Matches(tx.state.events[tx.reply], input);
    assert tx.state.events[tx.reply].source == input.source;
    RunGood(tx.state, later);
    var n := Run(tx.state, later);
    assert EventEvolves(tx.state.events[tx.reply], n.events[tx.reply]);
    FindIs(n, input.source);
    assert Find(n, input.source) == Some(tx.reply);
  }
}

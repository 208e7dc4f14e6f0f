/** The conversation tables updated in place: each transaction is proved against the one of the same
    name in ConversationModel. */
module ConversationStore {
  import opened Prelude
  import M = ConversationModel
  import opened ConversationModel
  import ConversationAffinity

  class Store {
    var conversations: map<ConversationId, Conversation>
    var accounts: map<AccountId, Account>
    var role: RoleProfile
    var decisions: seq<Decision>
    var sessions: map<SessionId, Session>
    var turns: map<TurnId, Turn>
    var plans: seq<Plan>
    var nextSnapshot: SnapshotId

    constructor ()
      ensures Snapshot() == ConversationAffinity.Empty
    {
      conversations, accounts, role := map[], map[], RoleProfile(1, 0, 0, 0, 0);
      decisions, sessions, turns, plans, nextSnapshot := [], map[], map[], [], 0;
    }

    function Snapshot(): Desk
      reads this
    {
      Desk(conversations, accounts, role, decisions, sessions, turns, plans, nextSnapshot)
    }

    method FindDecision(key: int) returns (found: Option<nat>)
      ensures found == DecisionByKey(decisions, key)
    {
      var n := |decisions|;
      assert decisions[..n] == decisions;
      while n > 0
        invariant 0 <= n <= |decisions| && DecisionByKey(decisions, key) == DecisionByKey(decisions[..n], key)
      {
        n := n - 1;
        assert decisions[..n + 1][..n] == decisions[..n];
        if decisions[n].key == key { return Some(n); }
      }
      return None;
    }

    method FindPlan(key: int) returns (found: Option<nat>)
      ensures found == PlanByKey(plans, key)
    {
      var n := |plans|;
      assert plans[..n] == plans;
      while n > 0
        invariant 0 <= n <= |plans| && PlanByKey(plans, key) == PlanByKey(plans[..n], key)
      {
        n := n - 1;
        assert plans[..n + 1][..n] == plans[..n];
        if plans[n].key == key { return Some(n); }
      }
      return None;
    }

    method RouteInitial(key: int, request: int, c: ConversationId, revision: int, chosen: Option<AccountId>, turn: TurnId)
      returns (answer: Result<RouteReply>)
      modifies this`decisions, this`conversations
      ensures Snapshot() == After(old(Snapshot()), M.RouteInitial(old(Snapshot()), key, request, c, revision, chosen, turn))
      ensures answer == Answer(M.RouteInitial(old(Snapshot()), key, request, c, revision, chosen, turn))
    {
      var stored := FindDecision(key);
      if stored.Some? {
        if decisions[stored.value].request == request { return Ok(Replayed(stored.value)); }
        return Err(IdempotencyConflict);
      }
      if c !in conversations { return Ok(RouteRejected); }
      var conversation := conversations[c];
      if !conversation.quickTask || !conversation.active || conversation.revision != revision { return Ok(RouteRejected); }
      if HasInitial(Snapshot(), c) || conversation.reviewRequired || NoneLive(Snapshot()) { return Ok(RouteRejected); }
      if chosen.Some? && SourceChanged(Snapshot(), c, chosen.value) {
        conversations := conversations[c := conversation.(reviewRequired := true)];
        return Ok(RouteRejected);
      }
      if (chosen.Some? && !LiveAccount(Snapshot(), chosen.value)) || DecidedTurn(Snapshot(), c, turn) {
        return Err(Constraint);
      }
      var accountRevision := if chosen.Some? then accounts[chosen.value].revision else 0;
      var id := |decisions|;
      decisions := decisions + [Decision(key, request, c, turn, revision, Initial, chosen, accountRevision)];
      return Ok(Routed(id));
    }

    method BindContinuation(key: int, request: int, c: ConversationId, turn: TurnId, source: SessionId,
                            revision: int, sourceRevision: int) returns (answer: Result<RouteReply>)
      modifies this`decisions
      ensures Snapshot() ==
        After(old(Snapshot()), M.BindContinuation(old(Snapshot()), key, request, c, turn, source, revision, sourceRevision))
      ensures answer == Answer(M.BindContinuation(old(Snapshot()), key, request, c, turn, source, revision, sourceRevision))
    {
      var stored := FindDecision(key);
      if stored.Some? {
        if decisions[stored.value].request == request { return Ok(Replayed(stored.value)); }
        return Err(IdempotencyConflict);
      }
      if !ContinuationAuthority(Snapshot(), c, turn, source, revision, sourceRevision) { return Ok(RouteRejected); }
      if DecidedTurn(Snapshot(), c, turn) { return Err(Constraint); }
      var s := sessions[source];
      var id := |decisions|;
      decisions := decisions + [Decision(key, request, c, turn, revision,
        Continuation(source, sourceRevision, s.accountSnapshot, s.profileSnapshot),
        Some(s.account), s.profile.accountRevision)];
      return Ok(Routed(id));
    }

    method PlanInitial(key: int, request: int, decision: DecisionId, revision: int, session: SessionId)
      returns (answer: Result<PlanReply>)
      modifies this`sessions, this`plans, this`nextSnapshot
      ensures Snapshot() == After(old(Snapshot()), M.PlanInitial(old(Snapshot()), key, request, decision, revision, session))
      ensures answer == Answer(M.PlanInitial(old(Snapshot()), key, request, decision, revision, session))
    {
      var stored := FindPlan(key);
      if stored.Some? {
        if plans[stored.value].request == request { return Ok(Planned(stored.value)); }
        return Err(IdempotencyConflict);
      }
      if !InitialAuthority(Snapshot(), decision, revision) { return Ok(PlanRejected); }
      var d := decisions[decision];
      var a := accounts[d.account.value];
      if a.credential.None? || session in sessions { return Err(Constraint); }
      var savedSessions, savedSnapshot := sessions, nextSnapshot;
      var profile := Profile(d.accountRevision, a.alias, a.observedState, a.credential.value, role.revision, true,
                             role.model, role.effort, role.instructions, role.tier, role.instructions, None);
      sessions := sessions[session := Session(d.conversation, d.account.value, profile, nextSnapshot, nextSnapshot + 1,
                                              Starting, 1, None, false)];
      nextSnapshot := nextSnapshot + 2;
      if PlannedTurn(Snapshot(), d.conversation, d.turn) {
        sessions, nextSnapshot := savedSessions, savedSnapshot;
        return Err(Constraint);
      }
      var id := |plans|;
      plans := plans + [Plan(key, request, d.conversation, d.turn, decision, session, 1, d.account.value, Some(session), InitialThread)];
      return Ok(Planned(id));
    }

    /** End the source, start the successor, move the turn. */
    method ReplaceSession(decision: DecisionId, session: SessionId)
      requires decision < |decisions| && decisions[decision].shape.Continuation?
      requires decisions[decision].shape.source in sessions && decisions[decision].turn in turns
      modifies this`sessions, this`turns, this`nextSnapshot
      ensures Snapshot() == Replaced(old(Snapshot()), decision, session)
    {
      var d := decisions[decision];
      var s := sessions[d.shape.source];
      sessions := sessions[d.shape.source := s.(state := Ended, revision := s.revision + 1)];
      sessions := sessions[session := Session(d.conversation, s.account, s.profile, nextSnapshot, nextSnapshot + 1,
                                              Starting, 1, None, false)];
      nextSnapshot := nextSnapshot + 2;
      turns := turns[d.turn := turns[d.turn].(session := session)];
    }

    method PlanContinuation(key: int, request: int, decision: DecisionId, revision: int, accountSnapshot: SnapshotId,
                            session: SessionId, latest: Option<LatestAttempt>, pack: Pack)
      returns (answer: Result<PlanReply>)
      modifies this`sessions, this`plans, this`turns, this`nextSnapshot
      ensures Snapshot() == After(old(Snapshot()),
        M.PlanContinuation(old(Snapshot()), key, request, decision, revision, accountSnapshot, session, latest, pack))
      ensures answer == Answer(
        M.PlanContinuation(old(Snapshot()), key, request, decision, revision, accountSnapshot, session, latest, pack))
    {
      var stored := FindPlan(key);
      if stored.Some? {
        var plan := plans[stored.value];
        if plan.request != request || (plan.kind.Fallback? && plan.kind.pack != pack.id) { return Err(IdempotencyConflict); }
        return Ok(Planned(stored.value));
      }
      if !PlanAuthority(Snapshot(), decision, revision, accountSnapshot) { return Ok(PlanRejected); }
      var d := decisions[decision];
      var s := sessions[d.shape.source];
      var id := |plans|;
      if SameThreadEvidence(latest, s.thread.value) {
        if PlannedTurn(Snapshot(), d.conversation, d.turn) { return Err(Constraint); }
        plans := plans + [Plan(key, request, d.conversation, d.turn, decision, d.shape.source, s.revision, s.account, None,
                               SameThread(s.thread.value, latest.value.attempt, latest.value.evidence.value))];
        return Ok(Planned(id));
      }
      if !FallbackAllowed(s, d.conversation, latest, pack) { return Ok(PlanRejected); }
      if session in sessions || PlannedTurn(Snapshot(), d.conversation, d.turn) { return Err(Constraint); }
      ReplaceSession(decision, session);
      plans := plans + [Plan(key, request, d.conversation, d.turn, decision, d.shape.source, s.revision, s.account,
                             Some(session), Fallback(pack.id))];
      return Ok(Planned(id));
    }
  }
}

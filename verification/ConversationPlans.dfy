/** When a conversation is routed, bound, planned and continued: the conditions of every decision, told
    from the rows and from the evidence, and what the decision leaves. */
module ConversationPlans {
  import opened Prelude
  import opened ConversationModel
  import opened ConversationAffinity

  /** No plan was stored under this key. */
  predicate FreshPlan(k: Desk, key: int) {
    forall p :: 0 <= p < |k.plans| ==> k.plans[p].key != key
  }

  predicate FreshDecision(k: Desk, key: int) {
    forall i :: 0 <= i < |k.decisions| ==> k.decisions[i].key != key
  }

  // ---------------------------------------------------------------- continuing

  /** One more plan, and nothing else: the turn goes on in the session's own thread, on this evidence. */
  ghost predicate GoesOn(k: Desk, n: Desk, key: int, request: int, decision: DecisionId, latest: LatestAttempt)
    requires decision < |k.decisions| && k.decisions[decision].shape.Continuation?
    requires k.decisions[decision].shape.source in k.sessions
  {
    var d := k.decisions[decision];
    var s := k.sessions[d.shape.source];
    && n == k.(plans := n.plans) && |n.plans| == |k.plans| + 1 && k.plans <= n.plans
    && s.thread.Some? && latest.evidence.Some?
    && n.plans[|k.plans|] ==
         Plan(key, request, d.conversation, d.turn, decision, d.shape.source, s.revision, s.account, None,
              SameThread(s.thread.value, latest.attempt, latest.evidence.value))
  }

  /** One more plan, and the turn has moved from its ended session to a new one. */
  ghost predicate IsReplaced(k: Desk, n: Desk, key: int, request: int, decision: DecisionId, session: SessionId, pack: Pack)
    requires decision < |k.decisions| && k.decisions[decision].shape.Continuation?
    requires k.decisions[decision].shape.source in k.sessions
  {
    var d := k.decisions[decision];
    var s := k.sessions[d.shape.source];
    && |n.plans| == |k.plans| + 1 && k.plans <= n.plans
    && n.plans[|k.plans|] ==
         Plan(key, request, d.conversation, d.turn, decision, d.shape.source, s.revision, s.account, Some(session),
              Fallback(pack.id))
    && d.shape.source in n.sessions && n.sessions[d.shape.source].state.Ended?
    && session in n.sessions && n.sessions[session].state.Starting?
    && d.turn in n.turns && n.turns[d.turn].session == session
  }

  /** A fresh request under full authority goes on in the same thread exactly when the newest attempt
      succeeded or failed for good with evidence from that very thread. It replaces the session exactly when
      the session had acknowledged a turn and its newest attempt was not submitted, was canceled, or is
      unknown and recoverable, for a task whose own pack admits unknown effects. Anything else is
      rejected and changes nothing, as does a turn planned before or a session identity in use. */
  lemma ContinuationsNeedEvidence(k: Desk, key: int, request: int, decision: DecisionId, revision: int,
                                  snapshot: SnapshotId, session: SessionId, latest: Option<LatestAttempt>, pack: Pack)
    requires FreshPlan(k, key) && PlanAuthority(k, decision, revision, snapshot)
    ensures
      var d := k.decisions[decision];
      var s := k.sessions[d.shape.source];
      var tx := PlanContinuation(k, key, request, decision, revision, snapshot, session, latest, pack);
      var n := After(k, tx);
      var proved :=
        && latest.Some? && (latest.value.state.Succeeded? || latest.value.state.FailedDefinitive?)
        && latest.value.evidence.Some? && latest.value.evidenceThread == s.thread;
      var unsent :=
        && latest.Some?
        && (latest.value.state.NotSubmitted? || latest.value.state.Canceled?
            || (latest.value.state.NotKnown? && latest.value.recoverable));
      var movable :=
        && unsent && s.acknowledged && s.profile.taskRole
        && pack.conversation == d.conversation && pack.unknownEffects;
      var planned := exists p :: 0 <= p < |k.plans| && k.plans[p].conversation == d.conversation && k.plans[p].turn == d.turn;
      && (latest.Some? && GoesOn(k, n, key, request, decision, latest.value) <==> proved && !planned)
      && (IsReplaced(k, n, key, request, decision, session, pack) <==> movable && !planned && session !in k.sessions)
      && (n != k <==> (proved || (movable && session !in k.sessions)) && !planned)
      && (tx == Commit(k, PlanRejected) <==> !proved && !movable)
      && (tx.Commit? && tx.reply.Planned? ==> tx.reply.plan == |k.plans|)
  {
    assert PlanByKey(k.plans, key).None?;
  }

  /** After a turn was bound to its session, and however long it takes, the decision may be planned exactly as
      long as the session is active with a thread at the revision the caller saw, and the turn is still the
      untouched active turn of that session: nothing else can withdraw or forge its authority. */
  lemma BoundTurnsMayBePlanned(k: Desk, key: int, request: int, c: ConversationId, turn: TurnId, source: SessionId,
                               revision: int, sourceRevision: int, later: seq<Command>, asked: int, snapshot: SnapshotId)
    requires
      var tx := BindContinuation(k, key, request, c, turn, source, revision, sourceRevision);
      Inv(k) && tx.Commit? && tx.reply.Routed?
    ensures
      var n := Run(BindContinuation(k, key, request, c, turn, source, revision, sourceRevision).state, later);
      && source in k.sessions && source in n.sessions
      && (PlanAuthority(n, |k.decisions|, asked, snapshot) <==>
            && asked == revision && snapshot == k.sessions[source].accountSnapshot
            && n.sessions[source].state.Active? && n.sessions[source].revision == sourceRevision
            && n.sessions[source].thread.Some?
            && turn in n.turns && n.turns[turn] == Turn(c, source, true, 1))
  {
    BindKeepsInv(k, key, request, c, turn, source, revision, sourceRevision);
    var u := BindContinuation(k, key, request, c, turn, source, revision, sourceRevision).state;
    RunKeepsInv(u, later);
    assert Run(u, later).decisions[|k.decisions|] == u.decisions[|k.decisions|];
  }

  /** A later turn is bound exactly when it is an active turn of its conversation's active session, the caller
      saw the present revisions of both, and the conversation was routed once; the decision carries the
      session's account. */
  lemma TurnsAreBoundExactly(k: Desk, key: int, request: int, c: ConversationId, turn: TurnId, source: SessionId,
                             revision: int, sourceRevision: int)
    requires FreshDecision(k, key)
    ensures
      var tx := BindContinuation(k, key, request, c, turn, source, revision, sourceRevision);
      && (tx.Commit? && tx.reply.Routed? <==>
            && c in k.conversations && k.conversations[c].active && k.conversations[c].revision == revision
            && source in k.sessions && k.sessions[source].conversation == c && k.sessions[source].state.Active?
            && k.sessions[source].revision == sourceRevision
            && turn in k.turns && k.turns[turn] == Turn(c, source, true, k.turns[turn].revision)
            && (exists i :: 0 <= i < |k.decisions| && IsInitial(k.decisions[i], c))
            && !exists i :: 0 <= i < |k.decisions| && k.decisions[i].conversation == c && k.decisions[i].turn == turn)
      && (!(tx.Commit? && tx.reply.Routed?) ==> After(k, tx) == k)
      && (tx.Commit? && tx.reply.Routed? ==>
            && tx.state == k.(decisions := tx.state.decisions) && k.decisions <= tx.state.decisions
            && |tx.state.decisions| == |k.decisions| + 1
            && var d := tx.state.decisions[|k.decisions|];
               && d.key == key && d.request == request && d.conversation == c && d.turn == turn
               && d.account == Some(k.sessions[source].account)
               && d.accountRevision == k.sessions[source].profile.accountRevision)
  {
    assert DecisionByKey(k.decisions, key).None?;
  }

  // ------------------------------------------------------------------- routing

  /** A conversation is routed exactly when it is an active quick task at the revision the caller saw, was
      neither routed before nor put under review, some account is live, the chosen one among them, and the
      model source that the user reviewed, if any, is the chosen account at its present revision. If only
      the source differs, the conversation is put under review instead, and nothing else happens. */
  lemma ConversationsAreRoutedExactly(k: Desk, key: int, request: int, c: ConversationId, revision: int,
                                      chosen: Option<AccountId>, turn: TurnId)
    requires FreshDecision(k, key)
    ensures
      var tx := RouteInitial(k, key, request, c, revision, chosen, turn);
      var open :=
        && c in k.conversations && k.conversations[c].quickTask && k.conversations[c].active
        && k.conversations[c].revision == revision && !k.conversations[c].reviewRequired
        && (forall i :: 0 <= i < |k.decisions| && k.decisions[i].conversation == c ==> !k.decisions[i].shape.Initial?)
        && (exists a :: a in k.accounts && k.accounts[a].live);
      var live := chosen.Some? ==> chosen.value in k.accounts && k.accounts[chosen.value].live;
      var reviewed :=
        open && chosen.Some? && k.conversations[c].modelSource.Some? ==>
          live && k.conversations[c].modelSource.value == (chosen.value, k.accounts[chosen.value].revision);
      var decided := exists i :: 0 <= i < |k.decisions| && k.decisions[i].conversation == c && k.decisions[i].turn == turn;
      && (tx.Commit? && tx.reply.Routed? <==> open && live && reviewed && !decided)
      && (open && !reviewed ==>
            tx == Commit(k.(conversations := k.conversations[c := k.conversations[c].(reviewRequired := true)]), RouteRejected))
      && (!open ==> tx == Commit(k, RouteRejected))
      && (tx.Commit? && tx.reply.Routed? ==>
            && tx.state == k.(decisions := tx.state.decisions) && k.decisions <= tx.state.decisions
            && |tx.state.decisions| == |k.decisions| + 1
            && var d := tx.state.decisions[|k.decisions|];
               && d.key == key && d.request == request && d.conversation == c && d.turn == turn
               && d.shape.Initial? && d.account == chosen && d.conversationRevision == revision
               && (chosen.Some? ==> d.accountRevision == k.accounts[chosen.value].revision))
  {
    assert DecisionByKey(k.decisions, key).None?;
    assert HasInitial(k, c) <==> exists i :: 0 <= i < |k.decisions| && IsInitial(k.decisions[i], c);
  }

  // -------------------------------------------------------- planning the first turn

  /** A routed conversation gets its one first session exactly when the caller and the decision saw its
      present revision, it is still active, and the chosen account is at the revision it was chosen at and
      has a credential. The session copies the account and the present task role. */
  lemma FirstSessionsStartExactly(k: Desk, key: int, request: int, decision: DecisionId, revision: int, session: SessionId)
    requires FreshPlan(k, key) && decision < |k.decisions|
    ensures
      var d := k.decisions[decision];
      var tx := PlanInitial(k, key, request, decision, revision, session);
      var n := After(k, tx);
      var started := n != k;
      var spoken :=
        && d.shape.Initial? && d.conversation in k.conversations && k.conversations[d.conversation].active
        && k.conversations[d.conversation].revision == revision == d.conversationRevision
        && d.account.Some? && d.account.value in k.accounts && k.accounts[d.account.value].revision == d.accountRevision;
      var planned := exists p :: 0 <= p < |k.plans| && k.plans[p].conversation == d.conversation && k.plans[p].turn == d.turn;
      && (started <==> spoken && k.accounts[d.account.value].credential.Some? && session !in k.sessions && !planned)
      && (tx == Commit(k, PlanRejected) <==> !spoken)
      && (started ==>
            && n == k.(sessions := n.sessions, plans := n.plans, nextSnapshot := n.nextSnapshot)
            && n.sessions == k.sessions[session := n.sessions[session]]
            && k.plans <= n.plans && |n.plans| == |k.plans| + 1
            && n.plans[|k.plans|] == Plan(key, request, d.conversation, d.turn, decision, session, 1, d.account.value,
                                          Some(session), InitialThread)
            && var a, s := k.accounts[d.account.value], n.sessions[session];
               && s.conversation == d.conversation && s.account == d.account.value && s.state.Starting? && s.revision == 1
               && s.thread.None? && !s.acknowledged
               && s.profile.accountRevision == a.revision && s.profile.accountLabel == a.alias
               && s.profile.observedState == a.observedState && Some(s.profile.credential) == a.credential
               && s.profile.taskRole && s.profile.profileRevision == k.role.revision && s.profile.model == k.role.model
               && s.profile.effort == k.role.effort && s.profile.tier == k.role.tier
               && s.profile.instructions == k.role.instructions
               && s.accountSnapshot >= k.nextSnapshot && s.profileSnapshot >= k.nextSnapshot
               && s.accountSnapshot != s.profileSnapshot
               && s.accountSnapshot < n.nextSnapshot && s.profileSnapshot < n.nextSnapshot)
  {
    assert PlanByKey(k.plans, key).None?;
  }
}

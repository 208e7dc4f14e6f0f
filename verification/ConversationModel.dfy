/** Routing a conversation once and continuing it on the same account: decisions, runtime sessions,
    turns and continuation plans. */
module ConversationModel {
  import opened Prelude

  type ConversationId = int
  type SessionId = int
  type TurnId = int
  type AccountId = int
  type SnapshotId = nat
  type DecisionId = nat

  /** What a session copies of the account and of the role profile. */
  datatype Profile = Profile(
    accountRevision: int, accountLabel: int, observedState: int, credential: int, profileRevision: int,
    taskRole: bool, model: int, effort: int, instructions: int, tier: int, digest: int, provenance: Option<int>)

  datatype SessionState = Starting | Active | Ended | Diverged

  datatype Session = Session(
    conversation: ConversationId,
    account: AccountId,
    profile: Profile,
    accountSnapshot: SnapshotId,
    profileSnapshot: SnapshotId,
    state: SessionState,
    revision: int,
    thread: Option<int>,
    acknowledged: bool)

  datatype Shape =
    | Initial
    | Continuation(source: SessionId, sourceRevision: int, accountSnapshot: SnapshotId, profileSnapshot: SnapshotId)

  datatype Decision = Decision(
    key: int, request: int, conversation: ConversationId, turn: TurnId, conversationRevision: int,
    shape: Shape, account: Option<AccountId>, accountRevision: int)

  datatype PlanKind = InitialThread | SameThread(thread: int, attempt: int, evidence: int) | Fallback(pack: int)

  datatype Plan = Plan(
    key: int, request: int, conversation: ConversationId, turn: TurnId, decision: DecisionId,
    source: SessionId, sourceRevision: int, account: AccountId, session: Option<SessionId>, kind: PlanKind)

  datatype Conversation = Conversation(
    active: bool, revision: int, quickTask: bool, modelSource: Option<(AccountId, int)>, reviewRequired: bool)

  datatype Turn = Turn(conversation: ConversationId, session: SessionId, active: bool, revision: int)

  datatype Account = Account(live: bool, revision: int, alias: int, observedState: int, credential: Option<int>)

  datatype RoleProfile = RoleProfile(revision: int, model: int, effort: int, tier: int, instructions: int)

  datatype Desk = Desk(
    conversations: map<ConversationId, Conversation>,
    accounts: map<AccountId, Account>, // tombstones are not live
    role: RoleProfile,
    decisions: seq<Decision>, // a decision's identity is its place
    sessions: map<SessionId, Session>,
    turns: map<TurnId, Turn>,
    plans: seq<Plan>,
    nextSnapshot: SnapshotId)

  datatype RouteReply = Routed(decision: DecisionId) | Replayed(decision: DecisionId) | RouteRejected

  datatype PlanReply = Planned(plan: nat) | PlanRejected

  // ------------------------------------------------------------------ lookups

  predicate IsInitial(d: Decision, c: ConversationId) {
    d.conversation == c && d.shape.Initial?
  }

  predicate HasInitial(k: Desk, c: ConversationId) {
    exists i :: 0 <= i < |k.decisions| && IsInitial(k.decisions[i], c)
  }

  function DecisionByKey(decisions: seq<Decision>, key: int): (found: Option<nat>)
    ensures found.Some? ==> found.value < |decisions| && decisions[found.value].key == key
    ensures found.None? ==> forall i :: 0 <= i < |decisions| ==> decisions[i].key != key
  {
    if decisions == [] then None
    else
      var n := |decisions| - 1;
      if decisions[n].key == key then Some(n) else DecisionByKey(decisions[..n], key)
  }

  function PlanByKey(plans: seq<Plan>, key: int): (found: Option<nat>)
    ensures found.Some? ==> found.value < |plans| && plans[found.value].key == key
    ensures found.None? ==> forall i :: 0 <= i < |plans| ==> plans[i].key != key
  {
    if plans == [] then None
    else
      var n := |plans| - 1;
      if plans[n].key == key then Some(n) else PlanByKey(plans[..n], key)
  }

  /** Both tables are unique by conversation and turn. */
  predicate DecidedTurn(k: Desk, c: ConversationId, t: TurnId) {
    exists i :: 0 <= i < |k.decisions| && k.decisions[i].conversation == c && k.decisions[i].turn == t
  }

  predicate PlannedTurn(k: Desk, c: ConversationId, t: TurnId) {
    exists i :: 0 <= i < |k.plans| && k.plans[i].conversation == c && k.plans[i].turn == t
  }

  // ------------------------------------------------------------------ routing

  /** Route a conversation for the first time. `chosen` is the routing decision over the registry
      snapshot, None when it waits or finds no route; `turn` is the new turn's identity. */
  function RouteInitial(k: Desk, key: int, request: int, c: ConversationId, revision: int,
                        chosen: Option<AccountId>, turn: TurnId): Transaction<Desk, RouteReply>
  {
    if DecisionByKey(k.decisions, key).Some? then
      var i := DecisionByKey(k.decisions, key).value;
      if k.decisions[i].request == request then Commit(k, Replayed(i)) else Rollback(IdempotencyConflict)
    else if c !in k.conversations || !k.conversations[c].quickTask || !k.conversations[c].active
         || k.conversations[c].revision != revision then Commit(k, RouteRejected)
    else if HasInitial(k, c) || k.conversations[c].reviewRequired || NoneLive(k) then Commit(k, RouteRejected)
    else if chosen.Some? && SourceChanged(k, c, chosen.value) then
      Commit(k.(conversations := k.conversations[c := k.conversations[c].(reviewRequired := true)]), RouteRejected)
    else if (chosen.Some? && !LiveAccount(k, chosen.value)) || DecidedTurn(k, c, turn) then Rollback(Constraint)
    else
      Commit(k.(decisions := k.decisions + [Decision(key, request, c, turn, revision, Initial, chosen,
                  if chosen.Some? then k.accounts[chosen.value].revision else 0)]),
             Routed(|k.decisions|))
  }

  predicate LiveAccount(k: Desk, a: AccountId) {
    a in k.accounts && k.accounts[a].live
  }

  predicate NoneLive(k: Desk) {
    forall a :: a in k.accounts ==> !k.accounts[a].live
  }

  /** The reviewed model source names another account or another revision of it. */
  predicate SourceChanged(k: Desk, c: ConversationId, chosen: AccountId)
    requires c in k.conversations
  {
    var source := k.conversations[c].modelSource;
    source.Some? && !(source.value.0 == chosen && LiveAccount(k, chosen) && source.value.1 == k.accounts[chosen].revision)
  }

  /** Bind one later turn to the session's account without selecting again. */
  function BindContinuation(k: Desk, key: int, request: int, c: ConversationId, turn: TurnId, source: SessionId,
                            revision: int, sourceRevision: int): Transaction<Desk, RouteReply>
  {
    if DecisionByKey(k.decisions, key).Some? then
      var i := DecisionByKey(k.decisions, key).value;
      if k.decisions[i].request == request then Commit(k, Replayed(i)) else Rollback(IdempotencyConflict)
    else if !ContinuationAuthority(k, c, turn, source, revision, sourceRevision) then Commit(k, RouteRejected)
    else if DecidedTurn(k, c, turn) then Rollback(Constraint)
    else
      var s := k.sessions[source];
      Commit(k.(decisions := k.decisions + [Decision(key, request, c, turn, revision,
                  Continuation(source, sourceRevision, s.accountSnapshot, s.profileSnapshot),
                  Some(s.account), s.profile.accountRevision)]),
             Routed(|k.decisions|))
  }

  predicate ContinuationAuthority(k: Desk, c: ConversationId, turn: TurnId, source: SessionId,
                                  revision: int, sourceRevision: int)
  {
    && source in k.sessions && k.sessions[source].conversation == c
    && k.sessions[source].revision == sourceRevision && k.sessions[source].state.Active?
    && c in k.conversations && k.conversations[c].active && k.conversations[c].revision == revision
    && HasInitial(k, c)
    && turn in k.turns && k.turns[turn].conversation == c && k.turns[turn].session == source && k.turns[turn].active
  }

  // ----------------------------------------------------------------- planning

  /** Consume one selected initial decision and create one starting session. */
  function PlanInitial(k: Desk, key: int, request: int, decision: DecisionId, revision: int, session: SessionId)
    : Transaction<Desk, PlanReply>
  {
    if PlanByKey(k.plans, key).Some? then
      var i := PlanByKey(k.plans, key).value;
      if k.plans[i].request == request then Commit(k, Planned(i)) else Rollback(IdempotencyConflict)
    else if !InitialAuthority(k, decision, revision) then Commit(k, PlanRejected)
    else
      var d := k.decisions[decision];
      var a := k.accounts[d.account.value];
      if a.credential.None? || session in k.sessions || PlannedTurn(k, d.conversation, d.turn) then Rollback(Constraint)
      else
        var profile := Profile(d.accountRevision, a.alias, a.observedState, a.credential.value, k.role.revision, true,
                               k.role.model, k.role.effort, k.role.instructions, k.role.tier, k.role.instructions, None);
        var started := Session(d.conversation, d.account.value, profile, k.nextSnapshot, k.nextSnapshot + 1,
                               Starting, 1, None, false);
        Commit(k.(sessions := k.sessions[session := started],
                  nextSnapshot := k.nextSnapshot + 2,
                  plans := k.plans + [Plan(key, request, d.conversation, d.turn, decision, session, 1,
                                           d.account.value, Some(session), InitialThread)]),
               Planned(|k.plans|))
  }

  predicate InitialAuthority(k: Desk, decision: DecisionId, revision: int) {
    && decision < |k.decisions|
    && var d := k.decisions[decision];
       && d.shape.Initial? && d.account.Some? && d.conversation in k.conversations
       && k.conversations[d.conversation].active && k.conversations[d.conversation].revision == revision
       && d.conversationRevision == revision
       && d.account.value in k.accounts && k.accounts[d.account.value].revision == d.accountRevision
  }

  datatype AttemptState = Succeeded | FailedDefinitive | NotKnown | NotSubmitted | Canceled | Otherwise

  /** The newest provider attempt of the source session, with its positive evidence. */
  datatype LatestAttempt = LatestAttempt(
    attempt: int, state: AttemptState, evidence: Option<int>, evidenceThread: Option<int>, recoverable: bool)

  datatype Pack = Pack(id: int, conversation: ConversationId, unknownEffects: bool)

  /** The continuation decision still speaks for its source session. */
  predicate PlanAuthority(k: Desk, decision: DecisionId, revision: int, accountSnapshot: SnapshotId) {
    && decision < |k.decisions|
    && var d := k.decisions[decision];
       && d.shape.Continuation? && d.conversationRevision == revision && d.account.Some?
       && d.shape.source in k.sessions
       && var s := k.sessions[d.shape.source];
          && s.state.Active? && s.revision == d.shape.sourceRevision && s.thread.Some? && d.account.value == s.account
          && d.shape.accountSnapshot == accountSnapshot == s.accountSnapshot
          && d.shape.profileSnapshot == s.profileSnapshot
          && d.turn in k.turns && k.turns[d.turn] == Turn(d.conversation, d.shape.source, true, 1)
  }

  predicate SameThreadEvidence(latest: Option<LatestAttempt>, thread: int) {
    && latest.Some? && (latest.value.state.Succeeded? || latest.value.state.FailedDefinitive?)
    && latest.value.evidence.Some? && latest.value.evidenceThread == Some(thread)
  }

  predicate FallbackAllowed(s: Session, c: ConversationId, latest: Option<LatestAttempt>, pack: Pack) {
    && s.acknowledged && latest.Some?
    && (match latest.value.state
        case NotKnown => latest.value.recoverable
        case NotSubmitted => true
        case Canceled => true
        case _ => false)
    && pack.conversation == c && pack.unknownEffects && s.profile.taskRole
  }

  /** Continue on the same thread, or replace the session from a context pack on the same account. */
  function PlanContinuation(k: Desk, key: int, request: int, decision: DecisionId, revision: int,
                            accountSnapshot: SnapshotId, session: SessionId, latest: Option<LatestAttempt>, pack: Pack)
    : Transaction<Desk, PlanReply>
  {
    if PlanByKey(k.plans, key).Some? then
      var i := PlanByKey(k.plans, key).value;
      if k.plans[i].request != request then Rollback(IdempotencyConflict)
      else if k.plans[i].kind.Fallback? && k.plans[i].kind.pack != pack.id then Rollback(IdempotencyConflict)
      else Commit(k, Planned(i))
    else if !PlanAuthority(k, decision, revision, accountSnapshot) then Commit(k, PlanRejected)
    else
      var d := k.decisions[decision];
      var s := k.sessions[d.shape.source];
      if SameThreadEvidence(latest, s.thread.value) then
        if PlannedTurn(k, d.conversation, d.turn) then Rollback(Constraint)
        else
          Commit(k.(plans := k.plans + [Plan(key, request, d.conversation, d.turn, decision, d.shape.source, s.revision,
                      s.account, None, SameThread(s.thread.value, latest.value.attempt, latest.value.evidence.value))]),
                 Planned(|k.plans|))
      else if !FallbackAllowed(s, d.conversation, latest, pack) then Commit(k, PlanRejected)
      else if session in k.sessions || PlannedTurn(k, d.conversation, d.turn) then Rollback(Constraint)
      else
        Commit(Replaced(k, decision, session)
                 .(plans := k.plans + [Plan(key, request, d.conversation, d.turn, decision, d.shape.source, s.revision,
                              s.account, Some(session), Fallback(pack.id))]),
               Planned(|k.plans|))
  }

  /** The source session ends, its successor starts, and the turn moves over. */
  function Replaced(k: Desk, decision: DecisionId, session: SessionId): Desk
    requires decision < |k.decisions| && k.decisions[decision].shape.Continuation?
    requires k.decisions[decision].shape.source in k.sessions && k.decisions[decision].turn in k.turns
  {
    var d := k.decisions[decision];
    var s := k.sessions[d.shape.source];
    var started := Session(d.conversation, s.account, s.profile, k.nextSnapshot, k.nextSnapshot + 1,
                           Starting, 1, None, false);
    k.(sessions := k.sessions[d.shape.source := s.(state := Ended, revision := s.revision + 1)][session := started],
       turns := k.turns[d.turn := k.turns[d.turn].(session := session)],
       nextSnapshot := k.nextSnapshot + 2)
  }
}

/** A conversation keeps the account of its first route, through every later turn and every
    replacement of its session. */
module ConversationAffinity {
  import opened Prelude
  import opened Collections
  import opened ConversationModel

  datatype Command =
    | DoRoute(key: int, request: int, conversation: ConversationId, revision: int, chosen: Option<AccountId>, turn: TurnId)
    | DoBind(key: int, request: int, conversation: ConversationId, turn: TurnId, source: SessionId, revision: int, sourceRevision: int)
    | DoPlanInitial(key: int, request: int, decision: DecisionId, revision: int, session: SessionId)
    | DoPlan(key: int, request: int, decision: DecisionId, revision: int, snapshot: SnapshotId, session: SessionId,
        latest: Option<LatestAttempt>, pack: Pack)
    | ConversationMoves(conversation: ConversationId, to: Conversation)
    | TurnInserted(turn: TurnId, inserted: Turn)
    | TurnMoves(turn: TurnId, active: bool, turnRevision: int)
    | SessionMoves(session: SessionId, state: SessionState, sessionRevision: int, thread: Option<int>, acknowledged: bool)
    | AccountsMove(accounts: map<AccountId, Account>)
    | RoleMoves(role: RoleProfile)

  /** A session starts, may become active, and once ended or diverged is over. */
  predicate MayBecome(from: SessionState, to: SessionState) {
    match from
    case Starting => true
    case Active => !to.Starting?
    case _ => to == from
  }

  function Step(k: Desk, c: Command): Desk {
    match c
    case DoRoute(key, request, conversation, revision, chosen, turn) =>
      After(k, RouteInitial(k, key, request, conversation, revision, chosen, turn))
    case DoBind(key, request, conversation, turn, source, revision, sourceRevision) =>
      After(k, BindContinuation(k, key, request, conversation, turn, source, revision, sourceRevision))
    case DoPlanInitial(key, request, decision, revision, session) =>
      After(k, PlanInitial(k, key, request, decision, revision, session))
    case DoPlan(key, request, decision, revision, snapshot, session, latest, pack) =>
      After(k, PlanContinuation(k, key, request, decision, revision, snapshot, session, latest, pack))
    case ConversationMoves(conversation, to) => k.(conversations := k.conversations[conversation := to])
    case TurnInserted(turn, inserted) => if turn in k.turns then k else k.(turns := k.turns[turn := inserted])
    case TurnMoves(turn, active, revision) =>
      if turn !in k.turns then k else k.(turns := k.turns[turn := k.turns[turn].(active := active, revision := revision)])
    case SessionMoves(session, state, revision, thread, acknowledged) =>
      if session !in k.sessions || !MayBecome(k.sessions[session].state, state) then k
      else
        k.(sessions := k.sessions[session := k.sessions[session]
             .(state := state, revision := revision, thread := thread, acknowledged := acknowledged)])
    case AccountsMove(accounts) => k.(accounts := accounts)
    case RoleMoves(role) => k.(role := role)
  }

  const Empty: Desk := Desk(map[], map[], RoleProfile(1, 0, 0, 0, 0), [], map[], map[], [], 0)

  function Run(k: Desk, commands: seq<Command>): Desk {
    if commands == [] then k
    else Step(Run(k, commands[..|commands| - 1]), commands[|commands| - 1])
  }

  // ---------------------------------------------------------------- invariant

  /** The conversation's initial decision selected this account. */
  predicate Bound(k: Desk, c: ConversationId, a: AccountId) {
    exists i :: 0 <= i < |k.decisions| && IsInitial(k.decisions[i], c) && k.decisions[i].account == Some(a)
  }

  /** The initial decision of the conversation has been planned. */
  predicate Opened(k: Desk, c: ConversationId) {
    exists i :: 0 <= i < |k.decisions| && IsInitial(k.decisions[i], c) && PlannedTurn(k, c, k.decisions[i].turn)
  }

  predicate LiveSession(s: Session) {
    s.state.Starting? || s.state.Active?
  }

  ghost predicate OneInitial(k: Desk) {
    forall i, j :: 0 <= i < |k.decisions| && 0 <= j < |k.decisions| && SameInitial(k, i, j) ==> i == j
  }

  predicate SameInitial(k: Desk, i: nat, j: nat)
    requires i < |k.decisions| && j < |k.decisions|
  {
    k.decisions[i].shape.Initial? && IsInitial(k.decisions[j], k.decisions[i].conversation)
  }

  predicate DecisionOk(k: Desk, d: Decision) {
    d.shape.Continuation? ==>
      && d.account.Some? && Bound(k, d.conversation, d.account.value)
      && d.shape.source in k.sessions && k.sessions[d.shape.source].conversation == d.conversation
  }

  predicate SessionOk(k: Desk, s: Session) {
    Bound(k, s.conversation, s.account) && Opened(k, s.conversation)
  }

  ghost predicate OneLive(k: Desk) {
    forall s, t :: s in k.sessions && t in k.sessions && BothLive(k, s, t) ==> s == t
  }

  predicate BothLive(k: Desk, s: SessionId, t: SessionId)
    requires s in k.sessions && t in k.sessions
  {
    k.sessions[s].conversation == k.sessions[t].conversation && LiveSession(k.sessions[s]) && LiveSession(k.sessions[t])
  }

  ghost predicate Inv(k: Desk) {
    && OneInitial(k)
    && (forall i :: 0 <= i < |k.decisions| ==> DecisionOk(k, k.decisions[i]))
    && (forall s :: s in k.sessions ==> SessionOk(k, k.sessions[s]))
    && (forall p :: 0 <= p < |k.plans| ==> Bound(k, k.plans[p].conversation, k.plans[p].account))
    && OneLive(k)
  }

  /** Decisions and plans only accumulate; a session keeps its conversation, account and profile. */
  ghost predicate Extends(k: Desk, n: Desk) {
    && k.decisions <= n.decisions && k.plans <= n.plans
    && forall s :: s in k.sessions ==>
         && s in n.sessions && n.sessions[s].conversation == k.sessions[s].conversation
         && n.sessions[s].account == k.sessions[s].account && n.sessions[s].profile == k.sessions[s].profile
         && n.sessions[s].accountSnapshot == k.sessions[s].accountSnapshot
         && n.sessions[s].profileSnapshot == k.sessions[s].profileSnapshot
         && (!LiveSession(k.sessions[s]) ==> !LiveSession(n.sessions[s]))
  }

  lemma BoundKept(k: Desk, n: Desk, c: ConversationId, a: AccountId)
    requires k.decisions <= n.decisions && k.plans <= n.plans
    ensures Bound(k, c, a) ==> Bound(n, c, a)
    ensures Opened(k, c) ==> Opened(n, c)
  {
    if Bound(k, c, a) {
      var i :| 0 <= i < |k.decisions| && IsInitial(k.decisions[i], c) && k.decisions[i].account == Some(a);
      assert n.decisions[i] == k.decisions[i];
    }
    if Opened(k, c) {
      var i :| 0 <= i < |k.decisions| && IsInitial(k.decisions[i], c) && PlannedTurn(k, c, k.decisions[i].turn);
      assert n.decisions[i] == k.decisions[i];
      var p :| 0 <= p < |k.plans| && k.plans[p].conversation == c && k.plans[p].turn == k.decisions[i].turn;
      assert n.plans[p] == k.plans[p];
      assert PlannedTurn(n, c, n.decisions[i].turn);
    }
  }

  /** Old rows stay sound in an extended state whose sessions keep what matters. */
  lemma OldRowsOk(k: Desk, n: Desk)
    requires Inv(k) && Extends(k, n)
    ensures forall i :: 0 <= i < |k.decisions| ==> DecisionOk(n, k.decisions[i])
    ensures forall s :: s in k.sessions ==> SessionOk(n, n.sessions[s])
    ensures forall p :: 0 <= p < |k.plans| ==> Bound(n, k.plans[p].conversation, k.plans[p].account)
  {
    forall i | 0 <= i < |k.decisions| ensures DecisionOk(n, k.decisions[i]) {
      var d := k.decisions[i];
      assert DecisionOk(k, d);
      if d.shape.Continuation? { BoundKept(k, n, d.conversation, d.account.value); }
    }
    forall s | s in k.sessions ensures SessionOk(n, n.sessions[s]) {
      assert SessionOk(k, k.sessions[s]);
      BoundKept(k, n, k.sessions[s].conversation, k.sessions[s].account);
    }
    forall p | 0 <= p < |k.plans| ensures Bound(n, k.plans[p].conversation, k.plans[p].account) {
      BoundKept(k, n, k.plans[p].conversation, k.plans[p].account);
    }
  }

  // ------------------------------------------------------------------ the steps

  lemma RouteKeepsInv(k: Desk, key: int, request: int, c: ConversationId, revision: int, chosen: Option<AccountId>, turn: TurnId)
    requires Inv(k)
    ensures
      var n := After(k, RouteInitial(k, key, request, c, revision, chosen, turn));
      Inv(n) && Extends(k, n)
  {
    var n := After(k, RouteInitial(k, key, request, c, revision, chosen, turn));
    OldRowsOk(k, n);
    if |n.decisions| > |k.decisions| {
      forall i, j | 0 <= i < |n.decisions| && 0 <= j < |n.decisions| && SameInitial(n, i, j) ensures i == j {
        if i < |k.decisions| && j < |k.decisions| { assert SameInitial(k, i, j); }
      }
    } else {
      forall i, j | 0 <= i < |n.decisions| && 0 <= j < |n.decisions| && SameInitial(n, i, j) ensures i == j {
        assert SameInitial(k, i, j);
      }
    }
    forall s, t | s in n.sessions && t in n.sessions && BothLive(n, s, t) ensures s == t { assert BothLive(k, s, t); }
  }

  lemma BindKeepsInv(k: Desk, key: int, request: int, c: ConversationId, turn: TurnId, source: SessionId,
                     revision: int, sourceRevision: int)
    requires Inv(k)
    ensures
      var n := After(k, BindContinuation(k, key, request, c, turn, source, revision, sourceRevision));
      Inv(n) && Extends(k, n)
  {
    var n := After(k, BindContinuation(k, key, request, c, turn, source, revision, sourceRevision));
    OldRowsOk(k, n);
    forall i, j | 0 <= i < |n.decisions| && 0 <= j < |n.decisions| && SameInitial(n, i, j) ensures i == j {
      assert i < |k.decisions| && j < |k.decisions|;
      assert SameInitial(k, i, j);
    }
    if |n.decisions| > |k.decisions| {
      assert SessionOk(k, k.sessions[source]);
      BoundKept(k, n, c, k.sessions[source].account);
    }
    forall s, t | s in n.sessions && t in n.sessions && BothLive(n, s, t) ensures s == t { assert BothLive(k, s, t); }
  }

  lemma PlanInitialKeepsInv(k: Desk, key: int, request: int, decision: DecisionId, revision: int, session: SessionId)
    requires Inv(k)
    ensures
      var n := After(k, PlanInitial(k, key, request, decision, revision, session));
      Inv(n) && Extends(k, n)
  {
    var n := After(k, PlanInitial(k, key, request, decision, revision, session));
    if n != k {
      var d := k.decisions[decision];
      OldRowsOk(k, n);
      assert n.decisions[decision] == d && IsInitial(d, d.conversation);
      assert n.plans[|k.plans|].conversation == d.conversation && n.plans[|k.plans|].turn == d.turn;
      assert PlannedTurn(n, d.conversation, d.turn);
      assert Bound(n, d.conversation, d.account.value) && Opened(n, d.conversation);
      NoneOpenedYet(k, decision);
      forall s, t | s in n.sessions && t in n.sessions && BothLive(n, s, t) ensures s == t {
        if s != session && t != session { assert BothLive(k, s, t); }
      }
      forall i, j | 0 <= i < |n.decisions| && 0 <= j < |n.decisions| && SameInitial(n, i, j) ensures i == j {
        assert SameInitial(k, i, j);
      }
    }
  }

  /** Before its initial decision is planned a conversation has no session. */
  lemma NoneOpenedYet(k: Desk, decision: DecisionId)
    requires Inv(k) && decision < |k.decisions| && k.decisions[decision].shape.Initial?
    requires !PlannedTurn(k, k.decisions[decision].conversation, k.decisions[decision].turn)
    ensures forall s :: s in k.sessions ==> k.sessions[s].conversation != k.decisions[decision].conversation
  {
    var c := k.decisions[decision].conversation;
    forall s | s in k.sessions ensures k.sessions[s].conversation != c {
      if k.sessions[s].conversation == c {
        assert SessionOk(k, k.sessions[s]);
        var i :| 0 <= i < |k.decisions| && IsInitial(k.decisions[i], c) && PlannedTurn(k, c, k.decisions[i].turn);
        assert SameInitial(k, decision, i);
      }
    }
  }

  lemma ReplacedKeeps(k: Desk, decision: DecisionId, session: SessionId)
    requires Inv(k) && decision < |k.decisions| && k.decisions[decision].shape.Continuation?
    requires k.decisions[decision].shape.source in k.sessions && k.decisions[decision].turn in k.turns
    requires k.sessions[k.decisions[decision].shape.source].state.Active? && session !in k.sessions
    ensures Inv(Replaced(k, decision, session)) && Extends(k, Replaced(k, decision, session))
  {
    var n := Replaced(k, decision, session);
    var source := k.decisions[decision].shape.source;
    assert DecisionOk(k, k.decisions[decision]);
    OldRowsOk(k, n);
    assert SessionOk(n, n.sessions[source]);
    forall s, t | s in n.sessions && t in n.sessions && BothLive(n, s, t) ensures s == t {
      assert BothLive(k, if s == session then source else s, if t == session then source else t);
    }
    forall i, j | 0 <= i < |n.decisions| && 0 <= j < |n.decisions| && SameInitial(n, i, j) ensures i == j {
      assert SameInitial(k, i, j);
    }
  }

  /** Another plan of a bound conversation. */
  lemma PlanAdded(k: Desk, p: Plan)
    requires Inv(k) && Bound(k, p.conversation, p.account)
    ensures Inv(k.(plans := k.plans + [p])) && Extends(k, k.(plans := k.plans + [p]))
  {
    var n := k.(plans := k.plans + [p]);
    OldRowsOk(k, n);
    BoundKept(k, n, p.conversation, p.account);
    forall i, j | 0 <= i < |n.decisions| && 0 <= j < |n.decisions| && SameInitial(n, i, j) ensures i == j {
      assert SameInitial(k, i, j);
    }
    forall s, t | s in n.sessions && t in n.sessions && BothLive(n, s, t) ensures s == t { assert BothLive(k, s, t); }
  }

  lemma PlanKeepsInv(k: Desk, key: int, request: int, decision: DecisionId, revision: int, snapshot: SnapshotId,
                     session: SessionId, latest: Option<LatestAttempt>, pack: Pack)
    requires Inv(k)
    ensures
      var n := After(k, PlanContinuation(k, key, request, decision, revision, snapshot, session, latest, pack));
      Inv(n) && Extends(k, n)
  {
    var n := After(k, PlanContinuation(k, key, request, decision, revision, snapshot, session, latest, pack));
    if n != k {
      var d := k.decisions[decision];
      assert DecisionOk(k, d);
      var added := n.plans[|k.plans|];
      if added.kind.SameThread? {
        PlanAdded(k, added);
        assert n == k.(plans := k.plans + [added]);
      } else {
        var replaced := Replaced(k, decision, session);
        ReplacedKeeps(k, decision, session);
        BoundKept(k, replaced, d.conversation, d.account.value);
        PlanAdded(replaced, added);
        assert n == replaced.(plans := replaced.plans + [added]);
      }
    }
  }

  /** The same decisions and plans over sessions that only moved on. */
  lemma SameRows(k: Desk, n: Desk)
    requires Inv(k) && Extends(k, n)
    requires n.decisions == k.decisions && n.plans == k.plans && n.sessions.Keys == k.sessions.Keys
    ensures Inv(n)
  {
    OldRowsOk(k, n);
    forall i, j | 0 <= i < |n.decisions| && 0 <= j < |n.decisions| && SameInitial(n, i, j) ensures i == j {
      assert SameInitial(k, i, j);
    }
    forall s, t | s in n.sessions && t in n.sessions && BothLive(n, s, t) ensures s == t { assert BothLive(k, s, t); }
  }

  lemma MovesKeepInv(k: Desk, c: Command)
    requires Inv(k) && !c.DoRoute? && !c.DoBind? && !c.DoPlanInitial? && !c.DoPlan?
    ensures Inv(Step(k, c)) && Extends(k, Step(k, c))
  {
    MovesExtend(k, c);
    SameRows(k, Step(k, c));
  }

  lemma MovesExtend(k: Desk, c: Command)
    requires !c.DoRoute? && !c.DoBind? && !c.DoPlanInitial? && !c.DoPlan?
    ensures Extends(k, Step(k, c))
    ensures Step(k, c).decisions == k.decisions && Step(k, c).plans == k.plans && Step(k, c).sessions.Keys == k.sessions.Keys
  {
  }

  lemma StepKeepsInv(k: Desk, c: Command)
    requires Inv(k)
    ensures Inv(Step(k, c)) && Extends(k, Step(k, c))
  {
    match c
    case DoRoute(key, request, conversation, revision, chosen, turn) =>
      RouteKeepsInv(k, key, request, conversation, revision, chosen, turn);
    case DoBind(key, request, conversation, turn, source, revision, sourceRevision) =>
      BindKeepsInv(k, key, request, conversation, turn, source, revision, sourceRevision);
    case DoPlanInitial(key, request, decision, revision, session) =>
      PlanInitialKeepsInv(k, key, request, decision, revision, session);
    case DoPlan(key, request, decision, revision, snapshot, session, latest, pack) =>
      PlanKeepsInv(k, key, request, decision, revision, snapshot, session, latest, pack);
    case _ => MovesKeepInv(k, c);
  }

  lemma {:induction false} RunKeepsInv(k: Desk, commands: seq<Command>)
    requires Inv(k)
    ensures Inv(Run(k, commands)) && Extends(k, Run(k, commands))
  {
    if commands != [] {
      var before := commands[..|commands| - 1];
      RunKeepsInv(k, before);
      StepKeepsInv(Run(k, before), commands[|commands| - 1]);
    }
  }

  // ----------------------------------------------------------------- theorems

  /** Over every run, at any two moments: a conversation has one initial decision, and every session,
      every continuation decision and every plan of it carries that decision's account. */
  lemma AffinityHolds(commands: seq<Command>, later: seq<Command>, c: ConversationId, i: nat)
    requires i < |Run(Empty, commands).decisions| && IsInitial(Run(Empty, commands).decisions[i], c)
    ensures
      var n := Run(Run(Empty, commands), later);
      var d := Run(Empty, commands).decisions[i];
      && i < |n.decisions| && n.decisions[i] == d
      && (forall j :: 0 <= j < |n.decisions| && IsInitial(n.decisions[j], c) ==> j == i)
      && (forall s :: s in n.sessions && n.sessions[s].conversation == c ==> Some(n.sessions[s].account) == d.account)
      && (forall j :: 0 <= j < |n.decisions| && n.decisions[j].conversation == c ==> n.decisions[j].account == d.account)
      && (forall p :: 0 <= p < |n.plans| && n.plans[p].conversation == c ==> Some(n.plans[p].account) == d.account)
  {
    RunKeepsInv(Empty, commands);
    var k := Run(Empty, commands);
    RunKeepsInv(k, later);
    var n := Run(k, later);
    assert n.decisions[i] == k.decisions[i];
    forall j | 0 <= j < |n.decisions| && IsInitial(n.decisions[j], c) ensures j == i { assert SameInitial(n, i, j); }
    forall a | Bound(n, c, a) ensures Some(a) == n.decisions[i].account { BoundIs(n, c, a, i); }
    forall s | s in n.sessions && n.sessions[s].conversation == c
      ensures Some(n.sessions[s].account) == n.decisions[i].account
    {
      assert SessionOk(n, n.sessions[s]);
    }
    forall j | 0 <= j < |n.decisions| && n.decisions[j].conversation == c
      ensures n.decisions[j].account == n.decisions[i].account
    {
      assert DecisionOk(n, n.decisions[j]);
      if n.decisions[j].shape.Initial? { assert IsInitial(n.decisions[j], c); }
    }
  }

  lemma BoundIs(k: Desk, c: ConversationId, a: AccountId, i: nat)
    requires OneInitial(k) && Bound(k, c, a) && i < |k.decisions| && IsInitial(k.decisions[i], c)
    ensures k.decisions[i].account == Some(a)
  {
    var j :| 0 <= j < |k.decisions| && IsInitial(k.decisions[j], c) && k.decisions[j].account == Some(a);
    assert SameInitial(k, i, j);
  }

  /** At every moment a conversation has at most one session that is starting or active. */
  lemma OneLiveSession(commands: seq<Command>, s: SessionId, t: SessionId)
    requires
      var k := Run(Empty, commands);
      && s in k.sessions && t in k.sessions && k.sessions[s].conversation == k.sessions[t].conversation
      && LiveSession(k.sessions[s]) && LiveSession(k.sessions[t])
    ensures s == t
  {
    RunKeepsInv(Empty, commands);
    assert BothLive(Run(Empty, commands), s, t);
  }

  /** A successor of a session: same conversation, account and profile, fresh snapshots. */
  predicate Succeeds(k: Desk, ended: Session, started: Session) {
    && started.state.Starting? && started.conversation == ended.conversation && started.account == ended.account
    && started.profile == ended.profile
    && started.accountSnapshot >= k.nextSnapshot && started.profileSnapshot >= k.nextSnapshot
    && started.accountSnapshot != started.profileSnapshot
  }

  /** A fallback ends exactly one active session, starts exactly one on the same conversation and
      account with the same profile under fresh snapshots, moves exactly one turn to it, and touches
      nothing else. */
  lemma FallbackReplacesExactlyOne(commands: seq<Command>, key: int, request: int, decision: DecisionId, revision: int,
                                   snapshot: SnapshotId, session: SessionId, latest: Option<LatestAttempt>, pack: Pack)
    requires
      var k := Run(Empty, commands);
      var tx := PlanContinuation(k, key, request, decision, revision, snapshot, session, latest, pack);
      tx.Commit? && tx.reply.Planned? && |tx.state.plans| > |k.plans| && tx.state.plans[|k.plans|].kind.Fallback?
    ensures
      var k := Run(Empty, commands);
      var n := PlanContinuation(k, key, request, decision, revision, snapshot, session, latest, pack).state;
      && decision < |k.decisions| && k.decisions[decision].shape.Continuation?
      && var source, turn := k.decisions[decision].shape.source, k.decisions[decision].turn;
         && source in k.sessions && k.sessions[source].state.Active? && session !in k.sessions
         && n.sessions.Keys == k.sessions.Keys + {session}
         && n.sessions[source] == k.sessions[source].(state := Ended, revision := k.sessions[source].revision + 1)
         && (forall s :: s in k.sessions && s != source ==> n.sessions[s] == k.sessions[s])
         && Succeeds(k, k.sessions[source], n.sessions[session])
         && turn in k.turns && k.turns[turn].session == source
         && n.turns == k.turns[turn := k.turns[turn].(session := session)]
         && n.decisions == k.decisions && n.conversations == k.conversations && n.accounts == k.accounts
  {
    RunKeepsInv(Empty, commands);
    var k := Run(Empty, commands);
    assert DecisionOk(k, k.decisions[decision]);
  }

  predicate IsPlan(k: Desk, p: nat, key: int, request: int) {
    p < |k.plans| && k.plans[p].key == key && k.plans[p].request == request
  }

  /** A key that was planned is only ever replayed: the stored plan, and no other change. */
  lemma PlansReplay(k: Desk, later: seq<Command>, key: int, request: int, decision: DecisionId, revision: int,
                    snapshot: SnapshotId, session: SessionId, latest: Option<LatestAttempt>, pack: Pack, p: nat)
    requires Inv(k) && p < |k.plans| && k.plans[p].key == key
    ensures
      var n := Run(k, later);
      var tx := PlanContinuation(n, key, request, decision, revision, snapshot, session, latest, pack);
      && After(n, tx) == n
      && (tx.Commit? ==> tx.reply.Planned? && IsPlan(n, tx.reply.plan, key, request))
  {
    RunKeepsInv(k, later);
    var n := Run(k, later);
    assert n.plans[p] == k.plans[p];
  }
}

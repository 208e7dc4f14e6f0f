/** Which process generation owns which works: each root's newest binding decides, and ownership runs
    down the works from there. */
module ProcessOwnership {
  import opened Prelude
  import opened Reachability

  type WorkId = Node
  type ThreadId = int
  type GenerationId = int
  type AccountId = int

  /** `busy`: the dispatch is not idle or a prompt edit is pending. */
  datatype Work = Work(parent: Option<WorkId>, goal: bool, manager: bool, thread: Option<ThreadId>, busy: bool)

  datatype State = Starting | Ready | Dead

  datatype Generation = Generation(account: AccountId, state: State)

  /** Identities of admissions and of attachments never meet. */
  datatype Key = Operation(id: int) | Attachment(work: WorkId, thread: ThreadId, generation: GenerationId)

  datatype Binding = Binding(
    key: Key, root: WorkId, account: AccountId, generation: GenerationId, digest: int, createdAt: int)

  /** Bindings stand in the order of insertion; `forks` are the acknowledged ones with their threads. */
  datatype Registry = Registry(
    works: map<WorkId, Work>,
    forks: set<(WorkId, ThreadId)>,
    generations: map<GenerationId, Generation>,
    bindings: seq<Binding>)

  datatype Outcome = Fresh | Replayed | IdentityConflict | NotAdmitted

  /** The admission request: its digest covers everything but the clock. */
  datatype Intent = Intent(key: int, root: WorkId, account: AccountId, generation: GenerationId, digest: int)

  // ------------------------------------------------------------------ reading

  /** The root's newest binding by clock, then by insertion, among the first `n`. */
  function NewestAmong(bindings: seq<Binding>, root: WorkId, n: nat): (newest: Option<nat>)
    requires n <= |bindings|
    ensures newest.Some? ==> newest.value < n && bindings[newest.value].root == root
  {
    if n == 0 then None
    else
      var before := NewestAmong(bindings, root, n - 1);
      if bindings[n - 1].root == root
         && (before.None? || bindings[before.value].createdAt <= bindings[n - 1].createdAt)
      then Some(n - 1) else before
  }

  function Newest(s: Registry, root: WorkId): Option<nat> {
    NewestAmong(s.bindings, root, |s.bindings|)
  }

  /** The generation that decides for the root, if it is ready. */
  predicate Leads(s: Registry, root: WorkId, g: GenerationId) {
    && Newest(s, root).Some? && s.bindings[Newest(s, root).value].generation == g
    && g in s.generations && s.generations[g].state.Ready?
  }

  /** All children. */
  function Children(s: Registry): Graph {
    set id | id in s.works && s.works[id].parent.Some? :: (s.works[id].parent.value, id)
  }

  /** Children that are no managers of their own, or that an acknowledged fork placed there. */
  function Subordinates(s: Registry): Graph {
    set id | id in s.works && s.works[id].parent.Some? && Subordinate(s, id) :: (s.works[id].parent.value, id)
  }

  predicate Subordinate(s: Registry, id: WorkId)
    requires id in s.works
  {
    !s.works[id].manager || (s.works[id].thread.Some? && (id, s.works[id].thread.value) in s.forks)
  }

  ghost predicate Owns(s: Registry, w: WorkId, g: GenerationId) {
    exists root :: Leads(s, root, g) && Reaches(Subordinates(s), root, w)
  }

  /** A direct coordinator owns everything until any process was ever admitted. */
  ghost predicate OwnsWork(s: Registry, w: WorkId, g: Option<GenerationId>) {
    if g.Some? then Owns(s, w, g.value) else s.bindings == []
  }

  ghost predicate HostsThread(s: Registry, w: WorkId, thread: ThreadId, g: GenerationId) {
    && w in s.works && s.works[w].thread == Some(thread)
    && exists root :: Leads(s, root, g) && Reaches(Children(s), root, w)
  }

  // ---------------------------------------------------------------- admission

  predicate KeyUsed(s: Registry, key: Key) {
    exists i :: 0 <= i < |s.bindings| && s.bindings[i].key == key
  }

  predicate SameRequest(s: Registry, key: Key, digest: int) {
    exists i :: 0 <= i < |s.bindings| && s.bindings[i].key == key && s.bindings[i].digest == digest
  }

  /** A generation of the root that may still run belongs to another account. */
  predicate AffinityConflict(s: Registry, root: WorkId, account: AccountId) {
    exists i :: 0 <= i < |s.bindings| && s.bindings[i].root == root && s.bindings[i].account != account
      && s.bindings[i].generation in s.generations && !s.generations[s.bindings[i].generation].state.Dead?
  }

  predicate ChangesAccount(s: Registry, root: WorkId, account: AccountId) {
    Newest(s, root).Some? && s.bindings[Newest(s, root).value].account != account
  }

  ghost predicate FamilyBusy(s: Registry, root: WorkId) {
    exists w :: w in s.works && s.works[w].busy && Reaches(Children(s), root, w)
  }

  /** Bind a root to a new generation and prepare that generation, in one transaction. `admitted` is
      the answer of the generation table. */
  ghost function Prepare(s: Registry, intent: Intent, now: int, admitted: bool): Transaction<Registry, Outcome> {
    if intent.root !in s.works || !s.works[intent.root].goal || s.works[intent.root].parent.Some? then
      Rollback(InvalidInput)
    else if KeyUsed(s, Operation(intent.key)) then
      Commit(s, if SameRequest(s, Operation(intent.key), intent.digest) then Replayed else IdentityConflict)
    else if ChangesAccount(s, intent.root, intent.account) && FamilyBusy(s, intent.root) then
      Commit(s, IdentityConflict)
    else if AffinityConflict(s, intent.root, intent.account) || intent.generation in s.generations then
      Commit(s, IdentityConflict)
    else if !admitted then Commit(s, NotAdmitted)
    else
      Commit(s.(generations := s.generations[intent.generation := Generation(intent.account, Starting)],
                bindings := s.bindings + [Binding(Operation(intent.key), intent.root, intent.account, intent.generation,
                                                  intent.digest, now)]), Fresh)
  }

  /** Another generation bound to this root may still run. */
  predicate OthersRun(s: Registry, root: WorkId, g: GenerationId) {
    exists i :: 0 <= i < |s.bindings| && s.bindings[i].root == root && s.bindings[i].generation != g
      && s.bindings[i].generation in s.generations && !s.generations[s.bindings[i].generation].state.Dead?
  }

  ghost predicate LeadsSome(s: Registry, g: GenerationId) {
    exists root :: Leads(s, root, g)
  }

  /** Bind another root, whose thread a leading process runs, to that process and its account.
      `independent` says that the work is an agent of its own. */
  ghost function Attach(s: Registry, work: WorkId, thread: ThreadId, g: GenerationId, digest: int, now: int, independent: bool)
    : Transaction<Registry, bool>
  {
    if !independent || work !in s.works || s.works[work].thread != Some(thread) || s.works[work].parent.Some? then
      Commit(s, false)
    else if Owns(s, work, g) then Commit(s, true)
    else if !LeadsSome(s, g) || OthersRun(s, work, g) || g !in s.generations then Commit(s, false)
    else if KeyUsed(s, Attachment(work, thread, g)) then Rollback(Constraint)
    else
      Commit(s.(bindings := s.bindings + [Binding(Attachment(work, thread, g), work, s.generations[g].account, g, digest, now)]),
             true)
  }

  // --------------------------------------------------------------------- runs

  datatype Command =
    | DoCreate(id: WorkId, parent: Option<WorkId>, goal: bool, manager: bool)
    | DoBindThread(id: WorkId, thread: ThreadId)
    | DoRebindThread(id: WorkId, thread: ThreadId) // an activated context
    | DoSetBusy(id: WorkId, busy: bool)
    | DoAcknowledgeFork(id: WorkId, thread: ThreadId)
    | DoPrepare(intent: Intent, now: int, admitted: bool)
    | DoAttach(id: WorkId, thread: ThreadId, generation: GenerationId, digest: int, now: int, independent: bool)
    | GenerationMoves(generation: GenerationId, state: State) // a dead generation stays dead

  ghost function Step(s: Registry, c: Command): Registry {
    match c
    case DoCreate(id, parent, goal, manager) =>
      if id in s.works || (parent.Some? && (parent.value !in s.works || !s.works[parent.value].goal)) then s
      else s.(works := s.works[id := Work(parent, goal, manager, None, false)])
    case DoBindThread(id, thread) =>
      if id !in s.works || s.works[id].thread.Some? then s
      else s.(works := s.works[id := s.works[id].(thread := Some(thread))])
    case DoRebindThread(id, thread) =>
      if id !in s.works || s.works[id].thread.None? then s
      else s.(works := s.works[id := s.works[id].(thread := Some(thread))])
    case DoSetBusy(id, busy) =>
      if id !in s.works then s else s.(works := s.works[id := s.works[id].(busy := busy)])
    case DoAcknowledgeFork(id, thread) => s.(forks := s.forks + {(id, thread)})
    case DoPrepare(intent, now, admitted) => After(s, Prepare(s, intent, now, admitted))
    case DoAttach(id, thread, g, digest, now, independent) => After(s, Attach(s, id, thread, g, digest, now, independent))
    case GenerationMoves(g, state) =>
      if g !in s.generations || s.generations[g].state.Dead? then s
      else s.(generations := s.generations[g := s.generations[g].(state := state)])
  }

  const Empty: Registry := Registry(map[], {}, map[], [])

  ghost function Run(s: Registry, commands: seq<Command>): Registry {
    if commands == [] then s
    else Step(Run(s, commands[..|commands| - 1]), commands[|commands| - 1])
  }

  // ---------------------------------------------------------------- invariant

  predicate BindingOk(s: Registry, b: Binding) {
    && b.root in s.works && s.works[b.root].parent.None?
    && b.generation in s.generations && s.generations[b.generation].account == b.account
  }

  /** Generations of one root that may still run share their account. */
  predicate ShareAccount(s: Registry, b: Binding, c: Binding)
    requires b.generation in s.generations && c.generation in s.generations
  {
    b.root == c.root && !s.generations[b.generation].state.Dead? && !s.generations[c.generation].state.Dead? ==>
      b.account == c.account
  }

  ghost predicate Inv(s: Registry) {
    && (forall i :: 0 <= i < |s.bindings| ==> BindingOk(s, s.bindings[i]))
    && (forall i, k :: 0 <= i < |s.bindings| && 0 <= k < |s.bindings| ==> ShareAccount(s, s.bindings[i], s.bindings[k]))
    && (forall i, k :: 0 <= i < k < |s.bindings| ==>
          s.bindings[i].key != s.bindings[k].key)
  }

  lemma PrepareKeepsInv(s: Registry, intent: Intent, now: int, admitted: bool)
    requires Inv(s)
    ensures Inv(After(s, Prepare(s, intent, now, admitted)))
  {
    var u := After(s, Prepare(s, intent, now, admitted));
    if u != s {
      var n := |s.bindings|;
      forall i | 0 <= i < |u.bindings| ensures BindingOk(u, u.bindings[i]) {
        if i < n { assert BindingOk(s, s.bindings[i]); }
      }
      forall i, k | 0 <= i < |u.bindings| && 0 <= k < |u.bindings|
        ensures ShareAccount(u, u.bindings[i], u.bindings[k])
      {
        if i < n && k < n { assert ShareAccount(s, s.bindings[i], s.bindings[k]); }
      }
    }
  }

  lemma AttachKeepsInv(s: Registry, work: WorkId, thread: ThreadId, g: GenerationId, digest: int, now: int, independent: bool)
    requires Inv(s)
    ensures Inv(After(s, Attach(s, work, thread, g, digest, now, independent)))
  {
    var u := After(s, Attach(s, work, thread, g, digest, now, independent));
    if u != s {
      var n := |s.bindings|;
      forall i | 0 <= i < |u.bindings| ensures BindingOk(u, u.bindings[i]) {
        if i < n { assert BindingOk(s, s.bindings[i]); }
      }
      forall i, k | 0 <= i < |u.bindings| && 0 <= k < |u.bindings|
        ensures ShareAccount(u, u.bindings[i], u.bindings[k])
      {
        if i < n && k < n { assert ShareAccount(s, s.bindings[i], s.bindings[k]); }
        if i < n { assert BindingOk(s, s.bindings[i]); }
        if k < n { assert BindingOk(s, s.bindings[k]); }
      }
    }
  }

  /** An attachment takes over the account of the attached process, and finds every other process of the
      root proved dead. */
  lemma AttachmentsShareTheAccount(s: Registry, work: WorkId, thread: ThreadId, g: GenerationId, digest: int, now: int, i: nat)
    requires Inv(s) && Attach(s, work, thread, g, digest, now, true).Commit?
    requires Attach(s, work, thread, g, digest, now, true).state != s
    requires i < |s.bindings|
    ensures
      var u := Attach(s, work, thread, g, digest, now, true).state;
      && |u.bindings| == |s.bindings| + 1 && u.bindings[|s.bindings|].root == work
      && (s.bindings[i].generation == g ==> u.bindings[|s.bindings|].account == s.bindings[i].account)
      && (s.bindings[i].root == work && s.bindings[i].generation != g ==>
            s.bindings[i].generation in s.generations && s.generations[s.bindings[i].generation].state.Dead?)
  {
    assert BindingOk(s, s.bindings[i]);
  }

  lemma StepKeepsInv(s: Registry, c: Command)
    requires Inv(s)
    ensures Inv(Step(s, c)) && s.bindings <= Step(s, c).bindings
  {
    if c.DoPrepare? { PrepareKeepsInv(s, c.intent, c.now, c.admitted); }
    else if c.DoAttach? { AttachKeepsInv(s, c.id, c.thread, c.generation, c.digest, c.now, c.independent); }
    else {
      var u := Step(s, c);
      forall i | 0 <= i < |u.bindings| ensures BindingOk(u, u.bindings[i]) { assert BindingOk(s, s.bindings[i]); }
      forall i, k | 0 <= i < |u.bindings| && 0 <= k < |u.bindings|
        ensures ShareAccount(u, u.bindings[i], u.bindings[k])
      {
        assert ShareAccount(s, s.bindings[i], s.bindings[k]);
      }
    }
  }

  lemma {:induction false} RunKeepsInv(s: Registry, commands: seq<Command>)
    requires Inv(s)
    ensures Inv(Run(s, commands)) && s.bindings <= Run(s, commands).bindings
  {
    if commands != [] {
      var before := commands[..|commands| - 1];
      RunKeepsInv(s, before);
      StepKeepsInv(Run(s, before), commands[|commands| - 1]);
    }
  }

  // ----------------------------------------------------------------- theorems

  /** In a forest two parentless works that both reach a work are the same. */
  lemma {:induction false} OneRoot(s: Registry, g: Graph, h: Graph, p: seq<Node>, q: seq<Node>)
    requires g <= Children(s) && h <= Children(s) && Path(g, p) && Path(h, q)
    requires p[|p| - 1] == q[|q| - 1]
    requires p[0] in s.works && s.works[p[0]].parent.None? && q[0] in s.works && s.works[q[0]].parent.None?
    ensures p[0] == q[0]
  {
    if |p| > 1 || |q| > 1 {
      LastEdge(g, p);
      LastEdge(h, q);
      if |p| > 1 && |q| > 1 {
        OneRoot(s, g, h, p[..|p| - 1], q[..|q| - 1]);
      }
    }
  }

  lemma LastEdge(g: Graph, p: seq<Node>)
    requires Path(g, p)
    ensures |p| > 1 ==> Path(g, p[..|p| - 1]) && (p[|p| - 2], p[|p| - 1]) in g
  {
    if |p| > 1 { assert (p[|p| - 2], p[|p| - 2 + 1]) in g; }
  }

  lemma LeadersAreRoots(s: Registry, root: WorkId, g: GenerationId)
    requires Inv(s) && Leads(s, root, g)
    ensures root in s.works && s.works[root].parent.None?
  {
    assert BindingOk(s, s.bindings[Newest(s, root).value]);
  }

  /** Over every run no work is owned by two generations, and none is hosted by two either. */
  lemma OwnershipIsUnique(commands: seq<Command>, w: WorkId, g: GenerationId, h: GenerationId)
    requires
      var s := Run(Empty, commands);
      || (Owns(s, w, g) && Owns(s, w, h))
      || (exists t, u :: HostsThread(s, w, t, g) && HostsThread(s, w, u, h))
    ensures g == h
  {
    RunKeepsInv(Empty, commands);
    var s := Run(Empty, commands);
    if Owns(s, w, g) && Owns(s, w, h) {
      OwnedIsReached(s, w, g);
      OwnedIsReached(s, w, h);
    }
    var root :| Leads(s, root, g) && Reaches(Children(s), root, w);
    var other :| Leads(s, other, h) && Reaches(Children(s), other, w);
    LeadersAreRoots(s, root, g);
    LeadersAreRoots(s, other, h);
    var p :| Along(Children(s), p, root, w);
    var q :| Along(Children(s), q, other, w);
    OneRoot(s, Children(s), Children(s), p, q);
  }

  lemma OwnedIsReached(s: Registry, w: WorkId, g: GenerationId)
    requires Owns(s, w, g)
    ensures exists root :: Leads(s, root, g) && Reaches(Children(s), root, w)
  {
    var root :| Leads(s, root, g) && Reaches(Subordinates(s), root, w);
    MoreEdges(Subordinates(s), Children(s), root, w);
  }

  /** Everything owned is also hosted by the same generation, under the thread it is bound to. */
  lemma OwnedIsHosted(s: Registry, w: WorkId, g: GenerationId, thread: ThreadId)
    requires Owns(s, w, g) && w in s.works && s.works[w].thread == Some(thread)
    ensures HostsThread(s, w, thread, g)
  {
    OwnedIsReached(s, w, g);
  }

  /** All generations of a root that are not proved dead run under one account. */
  lemma LivingGenerationsShareTheAccount(commands: seq<Command>, i: nat, k: nat)
    requires
      var s := Run(Empty, commands);
      && i < |s.bindings| && k < |s.bindings| && s.bindings[i].root == s.bindings[k].root
      && s.bindings[i].generation in s.generations && s.bindings[k].generation in s.generations
      && !s.generations[s.bindings[i].generation].state.Dead? && !s.generations[s.bindings[k].generation].state.Dead?
    ensures Run(Empty, commands).bindings[i].account == Run(Empty, commands).bindings[k].account
  {
    RunKeepsInv(Empty, commands);
    var s := Run(Empty, commands);
    assert ShareAccount(s, s.bindings[i], s.bindings[k]);
  }

  /** A root changes its account only with its whole family idle and every process of the old account
      proved dead. */
  lemma AccountsRotateWhenQuiet(commands: seq<Command>, intent: Intent, now: int, w: WorkId, i: nat)
    requires
      var s := Run(Empty, commands);
      var tx := Prepare(s, intent, now, true);
      && tx.Commit? && tx.reply.Fresh? && ChangesAccount(s, intent.root, intent.account)
      && w in s.works && Reaches(Children(s), intent.root, w)
      && i < |s.bindings| && s.bindings[i].root == intent.root && s.bindings[i].account != intent.account
    ensures
      var s := Run(Empty, commands);
      && !s.works[w].busy
      && s.bindings[i].generation in s.generations && s.generations[s.bindings[i].generation].state.Dead?
  {
    RunKeepsInv(Empty, commands);
    var s := Run(Empty, commands);
    assert BindingOk(s, s.bindings[i]);
  }

  /** An operation key is admitted at most once: later requests with it replay or conflict, whatever
      happened in between, and change nothing. */
  lemma AdmissionsAreFreshOnce(s: Registry, intent: Intent, now: int, later: seq<Command>, again: Intent, askedAt: int, admitted: bool)
    requires Inv(s) && again.key == intent.key && again.root == intent.root
    requires Prepare(s, intent, now, true).Commit? && Prepare(s, intent, now, true).reply.Fresh?
    ensures
      var n := Run(Prepare(s, intent, now, true).state, later);
      var tx := Prepare(n, again, askedAt, admitted);
      After(n, tx) == n && (tx.Commit? ==> tx.reply == if again.digest == intent.digest then Replayed else IdentityConflict)
  {
    PrepareKeepsInv(s, intent, now, true);
    var u := Prepare(s, intent, now, true).state;
    RunKeepsInv(u, later);
    var n := Run(u, later);
    var i := |s.bindings|;
    assert u.bindings[i].key == Operation(intent.key) && u.bindings[i].digest == intent.digest;
    assert n.bindings[i] == u.bindings[i];
  }

  // ------------------------------------------------------------- the tables in place

  class BindingStore {
    var works: map<WorkId, Work>
    var forks: set<(WorkId, ThreadId)>
    var generations: map<GenerationId, Generation>
    var bindings: seq<Binding>

    constructor ()
      ensures Snapshot() == Empty
    {
      works, forks, generations, bindings := map[], {}, map[], [];
    }

    function Snapshot(): Registry
      reads this
    {
      Registry(works, forks, generations, bindings)
    }

    method NewestBinding(root: WorkId) returns (newest: Option<nat>)
      ensures newest == Newest(Snapshot(), root)
    {
      newest := None;
      for i := 0 to |bindings|
        invariant newest == NewestAmong(bindings, root, i)
      {
        if bindings[i].root == root && (newest.None? || bindings[newest.value].createdAt <= bindings[i].createdAt) {
          newest := Some(i);
        }
      }
    }

    /** The recursive query: the roots that the generation leads, and the works below them. */
    method Below(g: GenerationId, edges: Graph, w: WorkId) returns (found: bool)
      ensures found <==> exists root :: Leads(Snapshot(), root, g) && Reaches(edges, root, w)
    {
      if g !in generations || !generations[g].state.Ready? { return false; }
      for i := 0 to |bindings|
        invariant forall root :: Leads(Snapshot(), root, g) && Reaches(edges, root, w) ==>
          Newest(Snapshot(), root).value >= i
      {
        var newest := NewestBinding(bindings[i].root);
        if newest == Some(i) && bindings[i].generation == g {
          var reached := Closure(edges, bindings[i].root);
          if w in reached {
            assert Leads(Snapshot(), bindings[i].root, g);
            return true;
          }
        }
      }
      return false;
    }

    method OwnsWorkNow(w: WorkId, g: Option<GenerationId>) returns (owned: bool)
      ensures owned <==> OwnsWork(Snapshot(), w, g)
    {
      if g.None? { return bindings == []; }
      owned := Below(g.value, Subordinates(Snapshot()), w);
    }

    method HostsThreadNow(w: WorkId, thread: ThreadId, g: GenerationId) returns (hosted: bool)
      ensures hosted <==> HostsThread(Snapshot(), w, thread, g)
    {
      hosted := Below(g, Children(Snapshot()), w);
      hosted := hosted && w in works && works[w].thread == Some(thread);
    }

    method LeadsNow(g: GenerationId) returns (leads: bool)
      ensures leads <==> LeadsSome(Snapshot(), g)
    {
      if g !in generations || !generations[g].state.Ready? { return false; }
      for i := 0 to |bindings|
        invariant forall root :: Leads(Snapshot(), root, g) ==> Newest(Snapshot(), root).value >= i
      {
        var newest := NewestBinding(bindings[i].root);
        if newest == Some(i) && bindings[i].generation == g {
          assert Leads(Snapshot(), bindings[i].root, g);
          return true;
        }
      }
      return false;
    }

    method AttachProcess(work: WorkId, thread: ThreadId, g: GenerationId, digest: int, now: int, independent: bool)
      returns (answer: Result<bool>)
      modifies this`bindings
      ensures Snapshot() == After(old(Snapshot()), Attach(old(Snapshot()), work, thread, g, digest, now, independent))
      ensures answer == Answer(Attach(old(Snapshot()), work, thread, g, digest, now, independent))
    {
      if !independent || work !in works || works[work].thread != Some(thread) || works[work].parent.Some? { return Ok(false); }
      var owned := OwnsWorkNow(work, Some(g));
      if owned { return Ok(true); }
      var leads := LeadsNow(g);
      if !leads || OthersRun(Snapshot(), work, g) || g !in generations { return Ok(false); }
      var key := Attachment(work, thread, g);
      if KeyUsed(Snapshot(), key) { return Err(Constraint); }
      bindings := bindings + [Binding(key, work, generations[g].account, g, digest, now)];
      return Ok(true);
    }

    method Admit(intent: Intent, now: int, admitted: bool) returns (answer: Result<Outcome>)
      modifies this`generations, this`bindings
      ensures Snapshot() == After(old(Snapshot()), Prepare(old(Snapshot()), intent, now, admitted))
      ensures answer == Answer(Prepare(old(Snapshot()), intent, now, admitted))
    {
      var root := intent.root;
      if root !in works || !works[root].goal || works[root].parent.Some? { return Err(InvalidInput); }
      if KeyUsed(Snapshot(), Operation(intent.key)) {
        if SameRequest(Snapshot(), Operation(intent.key), intent.digest) { return Ok(Replayed); }
        return Ok(IdentityConflict);
      }
      var newest := NewestBinding(root);
      if newest.Some? && bindings[newest.value].account != intent.account {
        var family := Closure(Children(Snapshot()), root);
        if exists w :: w in works && w in family && works[w].busy { return Ok(IdentityConflict); }
      }
      if AffinityConflict(Snapshot(), root, intent.account) || intent.generation in generations {
        return Ok(IdentityConflict);
      }
      if !admitted { return Ok(NotAdmitted); }
      generations := generations[intent.generation := Generation(intent.account, Starting)];
      bindings := bindings + [Binding(Operation(intent.key), root, intent.account, intent.generation, intent.digest, now)];
      return Ok(Fresh);
    }
  }
}

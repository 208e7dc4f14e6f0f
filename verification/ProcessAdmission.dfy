/** Who speaks for a work, told from the bindings and the family tree; when a process is admitted or attached,
    and what it then leads. */
module ProcessAdmission {
  import opened Prelude
  import opened Reachability
  import opened ProcessOwnership

  // ------------------------------------------------------------------- leading

  /** The binding of the root with the latest clock reading; of several, the one that was inserted last. */
  predicate IsNewest(s: Registry, root: WorkId, i: nat) {
    && i < |s.bindings| && s.bindings[i].root == root
    && forall k :: 0 <= k < |s.bindings| && s.bindings[k].root == root ==>
         || s.bindings[k].createdAt < s.bindings[i].createdAt
         || (s.bindings[k].createdAt == s.bindings[i].createdAt && k <= i)
  }

  lemma {:induction false} NewestAmongIs(bindings: seq<Binding>, root: WorkId, n: nat)
    requires n <= |bindings|
    ensures
      match NewestAmong(bindings, root, n)
      case None => forall k :: 0 <= k < n ==> bindings[k].root != root
      case Some(i) =>
        forall k :: 0 <= k < n && bindings[k].root == root ==>
          || bindings[k].createdAt < bindings[i].createdAt
          || (bindings[k].createdAt == bindings[i].createdAt && k <= i)
  {
    if n > 0 { NewestAmongIs(bindings, root, n - 1); }
  }

  lemma NewestIs(s: Registry, root: WorkId, i: nat)
    ensures Newest(s, root) == Some(i) <==> IsNewest(s, root, i)
    ensures Newest(s, root) == None <==> forall k :: 0 <= k < |s.bindings| ==> s.bindings[k].root != root
  {
    NewestAmongIs(s.bindings, root, |s.bindings|);
    var found := Newest(s, root);
    if found.Some? { assert s.bindings[found.value].root == root; }
  }

  /** A generation decides for a root exactly when the root's newest binding names it and it is ready. */
  lemma LeadersAreNewest(s: Registry, root: WorkId, g: GenerationId)
    ensures Leads(s, root, g) <==>
      && g in s.generations && s.generations[g].state == Ready
      && exists i: nat :: IsNewest(s, root, i) && s.bindings[i].generation == g
  {
    var found := Newest(s, root);
    if found.Some? { NewestIs(s, root, found.value); }
    if i: nat :| IsNewest(s, root, i) && s.bindings[i].generation == g { NewestIs(s, root, i); }
  }

  // -------------------------------------------------------------------- owning

  /** One step down the tree, to any child or only to one that is no manager of its own or was forked there with the
      thread that it still has. */
  predicate StepDown(s: Registry, parent: WorkId, child: WorkId, owned: bool) {
    && child in s.works && s.works[child].parent == Some(parent)
    && (owned && s.works[child].manager ==>
          s.works[child].thread.Some? && (child, s.works[child].thread.value) in s.forks)
  }

  ghost predicate Lineage(s: Registry, chain: seq<WorkId>, root: WorkId, w: WorkId, owned: bool) {
    && |chain| > 0 && chain[0] == root && chain[|chain| - 1] == w
    && forall i :: 0 <= i < |chain| - 1 ==> StepDown(s, chain[i], chain[i + 1], owned)
  }

  lemma ReachIsLineage(s: Registry, root: WorkId, w: WorkId, owned: bool)
    ensures Reaches(if owned then Subordinates(s) else Children(s), root, w) <==> exists chain :: Lineage(s, chain, root, w, owned)
  {
    var g := if owned then Subordinates(s) else Children(s);
    if p :| Along(g, p, root, w) {
      forall i | 0 <= i < |p| - 1 ensures StepDown(s, p[i], p[i + 1], owned) { assert (p[i], p[i + 1]) in g; }
      assert Lineage(s, p, root, w, owned);
    }
    if chain :| Lineage(s, chain, root, w, owned) {
      forall i | 0 <= i < |chain| - 1 ensures (chain[i], chain[i + 1]) in g {
        assert StepDown(s, chain[i], chain[i + 1], owned);
      }
      assert Along(g, chain, root, w);
    }
  }

  /** A generation owns a work exactly when it decides for a root from which the work is reached past
      subordinates only, and hosts it on its thread when it is reached at all. Without a process everything is
      owned until the first process was ever admitted. */
  lemma OwnedByLineage(s: Registry, w: WorkId, g: GenerationId, thread: ThreadId)
    ensures OwnsWork(s, w, Some(g)) <==> exists root, chain :: Leads(s, root, g) && Lineage(s, chain, root, w, true)
    ensures HostsThread(s, w, thread, g) <==>
      && w in s.works && s.works[w].thread == Some(thread)
      && exists root, chain :: Leads(s, root, g) && Lineage(s, chain, root, w, false)
    ensures OwnsWork(s, w, None) <==> |s.bindings| == 0
  {
    forall root | Leads(s, root, g)
      ensures Reaches(Subordinates(s), root, w) <==> exists chain :: Lineage(s, chain, root, w, true)
      ensures Reaches(Children(s), root, w) <==> exists chain :: Lineage(s, chain, root, w, false)
    {
      ReachIsLineage(s, root, w, true);
      ReachIsLineage(s, root, w, false);
    }
  }

  // ------------------------------------------------------------------ admission

  /** Some work of the family is in the middle of something. */
  ghost predicate Unquiet(s: Registry, root: WorkId) {
    exists w, chain :: w in s.works && s.works[w].busy && Lineage(s, chain, root, w, false)
  }

  /** A process is admitted exactly for a parentless goal, under a new operation key and a new identity, when
      every generation that may still run for the root has its account, a change of the newest account finds
      the family quiet, and the generation table admits it. Then it starts, and its binding is the last. */
  lemma ProcessesAreAdmittedExactly(s: Registry, intent: Intent, now: int, admitted: bool)
    ensures
      var tx := Prepare(s, intent, now, admitted);
      var root := intent.root;
      var lone := root in s.works && s.works[root].goal && s.works[root].parent.None?;
      var unused := forall i :: 0 <= i < |s.bindings| ==> s.bindings[i].key != Operation(intent.key);
      && (tx.Rollback? <==> !lone)
      && (tx.Commit? && tx.reply.Fresh? <==>
            && lone && unused && admitted && intent.generation !in s.generations
            && (forall i :: 0 <= i < |s.bindings| && s.bindings[i].root == root && s.bindings[i].account != intent.account ==>
                  s.bindings[i].generation in s.generations ==> s.generations[s.bindings[i].generation].state == Dead)
            && (Unquiet(s, root) ==> forall i: nat :: IsNewest(s, root, i) ==> s.bindings[i].account == intent.account))
      && (tx.Commit? ==>
            tx.state ==
              if !tx.reply.Fresh? then s
              else
                s.(generations := s.generations[intent.generation := Generation(intent.account, Starting)],
                   bindings := s.bindings + [Binding(Operation(intent.key), root, intent.account, intent.generation,
                                                     intent.digest, now)]))
  {
    var root := intent.root;
    forall w | w in s.works && s.works[w].busy
      ensures Reaches(Children(s), root, w) <==> exists chain :: Lineage(s, chain, root, w, false)
    {
      ReachIsLineage(s, root, w, false);
    }
    assert Unquiet(s, root) <==> FamilyBusy(s, root);
    var found := Newest(s, root);
    if found.Some? { NewestIs(s, root, found.value); }
    assert forall i: nat :: IsNewest(s, root, i) ==> found == Some(i) by {
      forall i: nat | IsNewest(s, root, i) ensures found == Some(i) { NewestIs(s, root, i); }
    }
  }

  /** Once ready, an admitted process decides for its root exactly if no earlier binding of the root has a later
      clock reading; and then no other process does. */
  lemma AdmittedProcessesLead(s: Registry, intent: Intent, now: int, admitted: bool, other: GenerationId)
    requires Inv(s)
    requires
      var tx := Prepare(s, intent, now, admitted);
      tx.Commit? && tx.reply.Fresh?
    ensures
      var u := Step(Prepare(s, intent, now, admitted).state, GenerationMoves(intent.generation, Ready));
      var timely := forall i :: 0 <= i < |s.bindings| && s.bindings[i].root == intent.root ==> s.bindings[i].createdAt <= now;
      && (Leads(u, intent.root, intent.generation) <==> timely)
      && (timely && Leads(u, intent.root, other) ==> other == intent.generation)
  {
    var u := Step(Prepare(s, intent, now, admitted).state, GenerationMoves(intent.generation, Ready));
    var n := |s.bindings|;
    forall i | 0 <= i < n ensures u.bindings[i] == s.bindings[i] && s.bindings[i].generation != intent.generation {
      assert BindingOk(s, s.bindings[i]);
    }
    var found := Newest(u, intent.root);
    NewestIs(u, intent.root, n);
    if found.Some? { NewestIs(u, intent.root, found.value); }
  }

  /** A process that decides for some root is attached to another parentless work exactly when it is asked about the
      thread of an independent agent that it does not own yet, every other process of that work is proved
      dead, and this attachment was never made. Its binding is then the last, under the process's account. */
  lemma ProcessesAreAttachedExactly(s: Registry, work: WorkId, thread: ThreadId, g: GenerationId, digest: int, now: int,
                                    independent: bool)
    requires Inv(s)
    ensures
      var tx := Attach(s, work, thread, g, digest, now, independent);
      var asked := independent && work in s.works && s.works[work].thread == Some(thread) && s.works[work].parent.None?;
      var alone := forall i :: 0 <= i < |s.bindings| && s.bindings[i].root == work && s.bindings[i].generation != g ==>
                     s.bindings[i].generation in s.generations && s.generations[s.bindings[i].generation].state == Dead;
      var led := exists root :: Leads(s, root, g);
      var unused := forall i :: 0 <= i < |s.bindings| ==> s.bindings[i].key != Attachment(work, thread, g);
      && (tx.Commit? && tx.reply <==> asked && (Owns(s, work, g) || (led && alone && unused)))
      && (tx.Commit? && tx.state != s <==> asked && !Owns(s, work, g) && led && alone && unused)
      && (tx.Rollback? <==> asked && !Owns(s, work, g) && led && alone && !unused)
      && (tx.Commit? && tx.state != s ==>
            && g in s.generations
            && tx.state == s.(bindings := s.bindings + [Binding(Attachment(work, thread, g), work, s.generations[g].account,
                                                                g, digest, now)]))
  {
    forall i | 0 <= i < |s.bindings| ensures s.bindings[i].generation in s.generations { assert BindingOk(s, s.bindings[i]); }
    var tx := Attach(s, work, thread, g, digest, now, independent);
    if tx.Commit? && |tx.state.bindings| != |s.bindings| { assert tx.state != s; }
  }
}

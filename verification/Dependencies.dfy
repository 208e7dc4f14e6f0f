/** The dependency graph between agent works: an edge that would close a cycle is refused. */
module Dependencies {
  import opened Prelude
  import opened Reachability

  /** An edge leads from a work to one that it depends on. */
  datatype Network = Network(works: set<Node>, edges: Graph)

  ghost predicate Acyclic(g: Graph) {
    forall e :: e in g ==> !Reaches(g, e.1, e.0)
  }

  ghost function InsertDependency(n: Network, work: Node, on: Node): Transaction<Network, ()> {
    if work !in n.works || on !in n.works then Rollback(NotFound)
    else if Reaches(n.edges, on, work) then Rollback(InvalidInput)
    else Commit(n.(edges := n.edges + {(work, on)}), ())
  }

  /** Create one work with its dependencies, all or none. */
  ghost function CreateWork(n: Network, work: Node, on: seq<Node>): Transaction<Network, ()> {
    if work in n.works then Rollback(AlreadyExists)
    else InsertAll(n.(works := n.works + {work}), work, on)
  }

  ghost function InsertAll(n: Network, work: Node, on: seq<Node>): Transaction<Network, ()> {
    if on == [] then Commit(n, ())
    else
      match InsertAll(n, work, on[..|on| - 1])
      case Rollback(error) => Rollback(error)
      case Commit(m, _) => InsertDependency(m, work, on[|on| - 1])
  }

  // ------------------------------------------------------------------ one edge

  /** A path over one more edge either avoids it or reaches its tail and leaves from its head. */
  lemma {:induction false} PathOverNewEdge(g: Graph, a: Node, b: Node, p: seq<Node>)
    requires Path(g + {(a, b)}, p)
    ensures Reaches(g, p[0], p[|p| - 1]) || (Reaches(g, p[0], a) && Reaches(g, b, p[|p| - 1]))
  {
    if |p| == 1 {
      ReachesItself(g, p[0]);
    } else {
      var n := |p| - 1;
      assert Path(g + {(a, b)}, p[..n]);
      PathOverNewEdge(g, a, b, p[..n]);
      assert (p[n - 1], p[n]) in g + {(a, b)} by { assert p[n] == p[n - 1 + 1]; }
      if (p[n - 1], p[n]) in g {
        if Reaches(g, p[0], p[n - 1]) { ReachesStep(g, p[0], p[n - 1], p[n]); }
        else { ReachesStep(g, b, p[n - 1], p[n]); }
      } else {
        ReachesItself(g, b);
      }
    }
  }

  /** In an acyclic graph the check refuses exactly the edges that would close a cycle. */
  lemma RefusedExactlyWhenCyclic(g: Graph, work: Node, on: Node)
    requires Acyclic(g)
    ensures Reaches(g, on, work) <==> !Acyclic(g + {(work, on)})
  {
    var h := g + {(work, on)};
    if Reaches(g, on, work) {
      MoreEdges(g, h, on, work);
      assert (work, on) in h;
    } else {
      forall e | e in h ensures !Reaches(h, e.1, e.0) {
        if Reaches(h, e.1, e.0) {
          var p :| Along(h, p, e.1, e.0);
          PathOverNewEdge(g, work, on, p);
          if e in g {
            if Reaches(g, e.1, work) && Reaches(g, on, e.0) {
              ReachesStep(g, on, e.0, e.1);
              ReachesThrough(g, on, e.1, work);
            }
          } else if Reaches(g, on, work) {
          }
        }
      }
    }
  }

  // ------------------------------------------------------------------ all runs

  datatype Command = DoCreate(work: Node, needs: seq<Node>) | DoDepend(work: Node, on: Node)

  ghost function Step(n: Network, c: Command): Network {
    match c
    case DoCreate(work, on) => After(n, CreateWork(n, work, on))
    case DoDepend(work, on) => After(n, InsertDependency(n, work, on))
  }

  ghost function Run(n: Network, commands: seq<Command>): Network {
    if commands == [] then n
    else Step(Run(n, commands[..|commands| - 1]), commands[|commands| - 1])
  }

  ghost predicate Sound(n: Network) {
    Acyclic(n.edges) && forall e :: e in n.edges ==> e.0 in n.works && e.1 in n.works
  }

  lemma InsertKeepsSound(n: Network, work: Node, on: Node)
    requires Sound(n)
    ensures Sound(After(n, InsertDependency(n, work, on)))
  {
    RefusedExactlyWhenCyclic(n.edges, work, on);
  }

  lemma {:induction false} InsertAllKeepsSound(n: Network, work: Node, on: seq<Node>)
    requires Sound(n) && InsertAll(n, work, on).Commit?
    ensures Sound(InsertAll(n, work, on).state)
  {
    if on != [] {
      InsertAllKeepsSound(n, work, on[..|on| - 1]);
      InsertKeepsSound(InsertAll(n, work, on[..|on| - 1]).state, work, on[|on| - 1]);
    }
  }

  /** Over every sequence of creations and added edges no work ever depends on itself, directly or
      through others. */
  lemma {:induction false} DependenciesStayAcyclic(commands: seq<Command>)
    ensures Sound(Run(Network({}, {}), commands))
  {
    if commands != [] {
      var before := commands[..|commands| - 1];
      DependenciesStayAcyclic(before);
      var n := Run(Network({}, {}), before);
      match commands[|commands| - 1]
      case DoDepend(work, on) => InsertKeepsSound(n, work, on);
      case DoCreate(work, on) =>
        if CreateWork(n, work, on).Commit? { InsertAllKeepsSound(n.(works := n.works + {work}), work, on); }
    }
  }

  // ------------------------------------------------------- what stands in the end

  lemma EnteredByAnEdge(g: Graph, p: seq<Node>)
    requires Path(g, p)
    ensures |p| > 1 ==> (p[|p| - 2], p[|p| - 1]) in g
  {
    if |p| > 1 { assert (p[|p| - 2], p[|p| - 2 + 1]) in g; }
  }

  /** An edge is inserted exactly between two works that exist and where no way leads back; only it is added. */
  lemma EdgesAreAddedExactly(n: Network, work: Node, on: Node)
    requires Acyclic(n.edges)
    ensures
      var tx := InsertDependency(n, work, on);
      && (tx.Commit? <==> work in n.works && on in n.works && Acyclic(n.edges + {(work, on)}))
      && (tx.Commit? ==> tx.state.works == n.works && forall e :: e in tx.state.edges <==> e in n.edges || e == (work, on))
  {
    RefusedExactlyWhenCyclic(n.edges, work, on);
  }

  /** From a work that nothing depends on edges may lead to any other works. */
  lemma {:induction false} LeadingEdgesAreAdded(n: Network, work: Node, on: seq<Node>)
    requires Sound(n) && work in n.works && forall e :: e in n.edges ==> e.1 != work
    ensures InsertAll(n, work, on).Commit? <==> forall i :: 0 <= i < |on| ==> on[i] in n.works && on[i] != work
    ensures InsertAll(n, work, on).Commit? ==>
      && InsertAll(n, work, on).state.works == n.works
      && forall e :: e in InsertAll(n, work, on).state.edges <==> e in n.edges || (e.0 == work && e.1 in on)
  {
    if on != [] {
      var last := |on| - 1;
      LeadingEdgesAreAdded(n, work, on[..last]);
      assert on == on[..last] + [on[last]];
      assert forall i :: 0 <= i < last ==> on[..last][i] == on[i];
      if InsertAll(n, work, on[..last]).Commit? {
        var m := InsertAll(n, work, on[..last]).state;
        if Reaches(m.edges, on[last], work) {
          var p :| Along(m.edges, p, on[last], work);
          EnteredByAnEdge(m.edges, p);
        }
        ReachesItself(m.edges, work);
      }
    }
  }

  /** A work is created exactly if it is new and all that it needs exists; then it depends on exactly that. */
  lemma WorksAreCreatedExactly(n: Network, work: Node, needs: seq<Node>)
    requires Sound(n)
    ensures
      var tx := CreateWork(n, work, needs);
      && (tx.Commit? <==> work !in n.works && forall i :: 0 <= i < |needs| ==> needs[i] in n.works)
      && (tx.Commit? ==>
            && tx.state.works == n.works + {work}
            && forall e :: e in tx.state.edges <==> e in n.edges || (e.0 == work && e.1 in needs))
  {
    if work !in n.works { LeadingEdgesAreAdded(n.(works := n.works + {work}), work, needs); }
  }

  /** The command asks for this edge. */
  predicate Asks(c: Command, e: (Node, Node)) {
    match c
    case DoCreate(work, needs) => work == e.0 && e.1 in needs
    case DoDepend(work, on) => (work, on) == e
  }

  ghost predicate Taken(n: Network, c: Command) {
    match c
    case DoCreate(work, needs) => CreateWork(n, work, needs).Commit?
    case DoDepend(work, on) => InsertDependency(n, work, on).Commit?
  }

  /** The i-th command asked for the edge and was taken. */
  ghost predicate TakenAt(commands: seq<Command>, e: (Node, Node), i: nat) {
    i < |commands| && Asks(commands[i], e) && Taken(Run(Network({}, {}), commands[..i]), commands[i])
  }

  lemma StepTakes(n: Network, c: Command, e: (Node, Node))
    requires Sound(n)
    ensures e in Step(n, c).edges <==> e in n.edges || (Asks(c, e) && Taken(n, c))
  {
    match c
    case DoDepend(work, on) => EdgesAreAddedExactly(n, work, on);
    case DoCreate(work, needs) => WorksAreCreatedExactly(n, work, needs);
  }

  /** In the end a work depends on another exactly if some command that was taken said so. */
  lemma {:induction false} DependenciesStandAsTaken(commands: seq<Command>, e: (Node, Node))
    ensures e in Run(Network({}, {}), commands).edges <==> exists i: nat :: TakenAt(commands, e, i)
  {
    if commands != [] {
      var last := |commands| - 1;
      var before, c := commands[..last], commands[last];
      DependenciesStandAsTaken(before, e);
      DependenciesStayAcyclic(before);
      var n := Run(Network({}, {}), before);
      StepTakes(n, c, e);
      forall i: nat | i < last ensures TakenAt(before, e, i) <==> TakenAt(commands, e, i) {
        assert before[..i] == commands[..i];
      }
      if Asks(c, e) && Taken(n, c) { assert TakenAt(commands, e, last); }
      if exists i: nat :: TakenAt(commands, e, i) {
        var i: nat :| TakenAt(commands, e, i);
        assert i < last ==> TakenAt(before, e, i);
      }
      if exists i: nat :: TakenAt(before, e, i) {
        var i: nat :| TakenAt(before, e, i);
        assert TakenAt(commands, e, i);
      }
    }
  }

  // -------------------------------------------------------- the tables in place

  class DependencyStore {
    var works: set<Node>
    var edges: Graph

    constructor ()
      ensures Snapshot() == Network({}, {})
    {
      works, edges := {}, {};
    }

    function Snapshot(): Network
      reads this
    {
      Network(works, edges)
    }

    method Insert(work: Node, on: Node) returns (answer: Result<()>)
      modifies this`edges
      ensures Snapshot() == After(old(Snapshot()), InsertDependency(old(Snapshot()), work, on))
      ensures answer == Answer(InsertDependency(old(Snapshot()), work, on))
    {
      if work !in works || on !in works { return Err(NotFound); }
      var ancestors := Closure(edges, on);
      if work in ancestors { return Err(InvalidInput); }
      edges := edges + {(work, on)};
      return Ok(());
    }

    method Create(work: Node, on: seq<Node>) returns (answer: Result<()>)
      modifies this
      ensures Snapshot() == After(old(Snapshot()), CreateWork(old(Snapshot()), work, on))
      ensures answer == Answer(CreateWork(old(Snapshot()), work, on))
    {
      if work in works { return Err(AlreadyExists); }
      var saved := edges;
      works := works + {work};
      ghost var entered := Snapshot();
      for i := 0 to |on|
        invariant InsertAll(entered, work, on[..i]) == Commit(Snapshot(), ())
        invariant works == old(works) + {work}
      {
        assert on[..i + 1][..i] == on[..i];
        answer := Insert(work, on[i]);
        if answer.Err? {
          InsertAllFails(entered, work, on, i + 1);
          works, edges := works - {work}, saved;
          assert works == old(works);
          return;
        }
      }
      assert on[..|on|] == on;
      return Ok(());
    }
  }

  lemma {:induction false} InsertAllFails(n: Network, work: Node, on: seq<Node>, i: nat)
    requires i <= |on| && InsertAll(n, work, on[..i]).Rollback?
    ensures InsertAll(n, work, on) == InsertAll(n, work, on[..i])
    decreases |on| - i
  {
    if i < |on| {
      assert on[..i + 1][..i] == on[..i];
      InsertAllFails(n, work, on, i + 1);
    } else {
      assert on[..i] == on;
    }
  }
}

/** Recursive UNION queries: the nodes reachable from a start over a finite set of edges. */
module Reachability {
  import opened Collections

  type Node = int
  type Graph = set<(Node, Node)>

  ghost predicate Path(g: Graph, p: seq<Node>) {
    |p| > 0 && forall i :: 0 <= i < |p| - 1 ==> (p[i], p[i + 1]) in g
  }

  ghost predicate Along(g: Graph, p: seq<Node>, a: Node, b: Node) {
    Path(g, p) && p[0] == a && p[|p| - 1] == b
  }

  ghost predicate Reaches(g: Graph, a: Node, b: Node) {
    exists p :: Along(g, p, a, b)
  }

  lemma ReachesItself(g: Graph, a: Node)
    ensures Reaches(g, a, a)
  {
    assert Along(g, [a], a, a);
  }

  lemma ReachesStep(g: Graph, a: Node, b: Node, c: Node)
    requires Reaches(g, a, b) && (b, c) in g
    ensures Reaches(g, a, c)
  {
    var p :| Along(g, p, a, b);
    var q := p + [c];
    forall i | 0 <= i < |q| - 1 ensures (q[i], q[i + 1]) in g {
      if i < |p| - 1 { assert q[i] == p[i] && q[i + 1] == p[i + 1]; }
    }
    assert Along(g, q, a, c);
  }

  lemma ReachesThrough(g: Graph, a: Node, b: Node, c: Node)
    requires Reaches(g, a, b) && Reaches(g, b, c)
    ensures Reaches(g, a, c)
  {
    var p :| Along(g, p, b, c);
    ThroughPath(g, a, p);
  }

  lemma {:induction false} ThroughPath(g: Graph, a: Node, p: seq<Node>)
    requires Path(g, p) && Reaches(g, a, p[0])
    ensures Reaches(g, a, p[|p| - 1])
  {
    if |p| > 1 {
      var n := |p| - 1;
      assert Path(g, p[..n]);
      ThroughPath(g, a, p[..n]);
      assert (p[n - 1], p[n]) in g by { assert p[n] == p[n - 1 + 1]; }
      ReachesStep(g, a, p[n - 1], p[n]);
    }
  }

  /** A set that contains the start and is closed under the edges contains everything reachable. */
  lemma {:induction false} ClosedContains(g: Graph, closed: set<Node>, p: seq<Node>)
    requires Path(g, p) && p[0] in closed
    requires forall e :: e in g && e.0 in closed ==> e.1 in closed
    ensures p[|p| - 1] in closed
  {
    if |p| > 1 {
      var n := |p| - 1;
      assert Path(g, p[..n]);
      ClosedContains(g, closed, p[..n]);
      assert (p[n - 1], p[n]) in g by { assert p[n] == p[n - 1 + 1]; }
    }
  }

  lemma MoreEdges(g: Graph, h: Graph, a: Node, b: Node)
    requires g <= h && Reaches(g, a, b)
    ensures Reaches(h, a, b)
  {
    var p :| Along(g, p, a, b);
    assert Along(h, p, a, b);
  }

  /** The queue of a recursive UNION query: each row joins the result once and then contributes its
      successors. The rows not yet in the result bound the work. */
  method Closure(g: Graph, start: Node) returns (result: set<Node>)
    ensures forall b :: b in result <==> Reaches(g, start, b)
  {
    var queue := [start];
    result := {start};
    ghost var universe := {start} + set e | e in g :: e.1;
    ReachesItself(g, start);
    while queue != []
      invariant start in result && result <= universe
      invariant forall n :: n in queue ==> n in result
      invariant forall n :: n in result ==> Reaches(g, start, n)
      invariant forall e :: e in g && e.0 in result ==> e.0 in queue || e.1 in result
      decreases |universe - result|, |queue|
    {
      var row := queue[0];
      var rest := queue[1..];
      var joined := set e | e in g && e.0 == row && e.1 !in result :: e.1;
      forall n | n in joined ensures Reaches(g, start, n) && n in universe {
        ReachesStep(g, start, row, n);
      }
      var added := Listed(joined);
      if joined != {} {
        SmallerSet(universe - (result + joined), universe - result);
      } else {
        assert result + joined == result;
      }
      forall e | e in g && e.0 in result + joined ensures e.0 in rest + added || e.1 in result + joined {
        if e.0 in result && e.0 !in rest && e.0 != row { assert e.0 !in queue; }
      }
      result := result + joined;
      queue := rest + added;
    }
    forall b | Reaches(g, start, b) ensures b in result {
      var p :| Along(g, p, start, b);
      ClosedContains(g, result, p);
    }
  }

  method Listed(s: set<Node>) returns (list: seq<Node>)
    ensures |list| == |s| && forall n :: n in list <==> n in s
  {
    var rest := s;
    list := [];
    while rest != {}
      invariant rest <= s && |list| + |rest| == |s|
      invariant forall n :: n in list <==> n in s && n !in rest
      decreases rest
    {
      ghost var some := Pick(rest);
      var n :| n in rest;
      rest := rest - {n};
      list := list + [n];
    }
  }
}

/** Reachability in the witness graph. */
module Walks {
  import opened WitnessGraphs

  /** A walk along requirements leads from a to b. */
  ghost predicate Reaches(g: Nodes, a: NodeId, b: NodeId)
    requires Shaped(g)
  {
    exists c :: Walk(g, c) && c[0] == a && c[|c| - 1] == b
  }

  lemma {:induction false} ReachesSelf(g: Nodes, a: NodeId)
    requires Shaped(g) && g.Has(a)
    ensures Reaches(g, a, a)
  {
    assert Walk(g, [a]);
  }

  lemma {:induction false} ReachesVia(g: Nodes, a: NodeId, b: NodeId, c: NodeId)
    requires Shaped(g) && Edge(g, a, b) && Reaches(g, b, c)
    ensures Reaches(g, a, c)
  {
    var w :| Walk(g, w) && w[0] == b && w[|w| - 1] == c;
    var v := [a] + w;
    forall k | 0 <= k < |v| - 1
      ensures Edge(g, v[k], v[k + 1])
    {
      if k > 0 {
        assert Edge(g, w[k - 1], w[k]);
      }
    }
    assert Walk(g, v);
  }

  lemma {:induction false} ReachesThen(g: Nodes, a: NodeId, b: NodeId, c: NodeId)
    requires Shaped(g) && Reaches(g, a, b) && Edge(g, b, c) && g.Has(c)
    ensures Reaches(g, a, c)
  {
    var w :| Walk(g, w) && w[0] == a && w[|w| - 1] == b;
    var v := w + [c];
    forall k | 0 <= k < |v| - 1
      ensures Edge(g, v[k], v[k + 1])
    {
      if k < |w| - 1 {
        assert Edge(g, w[k], w[k + 1]);
      }
    }
    assert Walk(g, v);
  }

  /** All requirements of the nodes in res, except those still being visited, are in res. */
  ghost predicate Closed(g: Nodes, res: set<NodeId>, open: set<NodeId>)
    requires Shaped(g)
  {
    forall n :: n in res ==> g.Has(n) && (n !in open ==> forall r :: r in g.requirements[n] ==> r in res)
  }

  lemma {:induction false} ClosedContains(g: Nodes, res: set<NodeId>, c: seq<NodeId>)
    requires Shaped(g) && Closed(g, res, {}) && Walk(g, c) && c[0] in res
    ensures c[|c| - 1] in res
    decreases |c|
  {
    if |c| > 1 {
      var d := c[1..];
      assert Edge(g, c[0], c[1]);
      forall k | 0 <= k < |d| - 1
        ensures Edge(g, d[k], d[k + 1])
      {
        assert Edge(g, c[k + 1], c[k + 2]);
      }
      ClosedContains(g, res, d);
    }
  }

  function AllNodes(g: Nodes): set<NodeId> {
    set n | 0 <= n < |g.target| && g.Has(n)
  }
}

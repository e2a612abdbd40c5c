/** The optimistic analysis that finds superfluous phis: nodes all of whose requirement paths
    lead through one and the same other node. */
module PhiCollapse {
  import opened Options
  import opened Ssa
  import opened Targets
  import opened WitnessGraphs

  datatype Entry = Null | To(n: NodeId)

  type ReqMap = seq<Entry>

  datatype Verdict = Conflict | Agreed(e: Entry)

  // ---------------------------------------------------------------- the local equation

  /** What the entries of some nodes agree on, ignoring nodes without an entry so far. */
  function Merge(m: ReqMap, ids: seq<NodeId>): Verdict
    requires forall k :: 0 <= k < |ids| ==> ids[k] < |m|
  {
    if ids == [] then Agreed(Null)
    else
      var last := m[ids[|ids| - 1]];
      match Merge(m, ids[..|ids| - 1])
      case Conflict => Conflict
      case Agreed(Null) => Agreed(last)
      case Agreed(e) => if last.Null? || last == e then Agreed(e) else Conflict
  }

  lemma {:induction false} MergeAgreed(m: ReqMap, ids: seq<NodeId>)
    requires forall k :: 0 <= k < |ids| ==> ids[k] < |m|
    requires Merge(m, ids).Agreed?
    ensures forall k :: 0 <= k < |ids| ==> m[ids[k]] == Null || m[ids[k]] == Merge(m, ids).e
    ensures Merge(m, ids).e.To? ==> exists k :: 0 <= k < |ids| && m[ids[k]] == Merge(m, ids).e
  {
    if ids != [] {
      var front := ids[..|ids| - 1];
      MergeAgreed(m, front);
      forall k | 0 <= k < |ids|
        ensures m[ids[k]] == Null || m[ids[k]] == Merge(m, ids).e
      {
        if k < |front| {
          assert m[front[k]] == Null || m[front[k]] == Merge(m, front).e;
        }
      }
      if Merge(m, front).e.To? {
        var k :| 0 <= k < |front| && m[front[k]] == Merge(m, front).e;
        assert m[ids[k]] == Merge(m, ids).e;
      }
    }
  }

  lemma {:induction false} MergeConflict(m: ReqMap, ids: seq<NodeId>)
    requires forall k :: 0 <= k < |ids| ==> ids[k] < |m|
    requires Merge(m, ids).Conflict?
    ensures exists k, l :: 0 <= k < |ids| && 0 <= l < |ids| && m[ids[k]].To? && m[ids[l]].To? && m[ids[k]] != m[ids[l]]
  {
    var front := ids[..|ids| - 1];
    if Merge(m, front).Conflict? {
      MergeConflict(m, front);
      var k, l :| 0 <= k < |front| && 0 <= l < |front| && m[front[k]].To? && m[front[l]].To?
                  && m[front[k]] != m[front[l]];
      assert ids[k] == front[k] && ids[l] == front[l];
    } else {
      MergeAgreed(m, front);
      var k :| 0 <= k < |front| && m[front[k]] == Merge(m, front).e;
      assert ids[k] == front[k];
      assert m[ids[k]] != m[ids[|ids| - 1]];
    }
  }

  /** What n's entry has to be, given those of its requirements. A node to be
      kept is always its own entry. */
  function Evaluate(g: Nodes, m: ReqMap, keep: seq<bool>, n: NodeId): Entry
    requires Shaped(g) && |m| == |keep| == |g.target| && g.Has(n)
  {
    if g.requirements[n] == [] then To(n)
    else
      match Merge(m, g.requirements[n])
      case Conflict => To(n)
      case Agreed(e) => if keep[n] then To(n) else e
  }

  ghost predicate AllNull(g: Nodes, m: ReqMap, n: NodeId)
    requires Shaped(g) && |m| == |g.target| && g.Has(n)
  {
    forall k :: 0 <= k < |g.requirements[n]| ==> m[g.requirements[n][k]] == Null
  }

  /** n satisfies its equation, or nothing has reached it yet. */
  ghost predicate Consistent(g: Nodes, m: ReqMap, keep: seq<bool>, n: NodeId)
    requires Shaped(g) && |m| == |keep| == |g.target| && g.Has(n)
  {
    m[n] == Evaluate(g, m, keep, n) || (m[n] == Null && AllNull(g, m, n))
  }

  ghost predicate Root(g: Nodes, n: NodeId)
    requires Shaped(g)
  {
    g.Has(n) && g.requirements[n] == []
  }

  ghost predicate Solution(g: Nodes, m: ReqMap, keep: seq<bool>) {
    && Shaped(g) && |m| == |keep| == |g.target|
    && (forall n :: 0 <= n < |m| ==> Consistent(g, m, keep, n))
    && (forall n: NodeId :: Root(g, n) ==> m[n] == To(n))
  }

  // ---------------------------------------------------------------- what a solution means

  /** A walk along requirements that ends in a node without requirements. */
  ghost predicate WalkToRoot(g: Nodes, c: seq<NodeId>)
    requires Shaped(g)
  {
    Walk(g, c) && Root(g, c[|c| - 1])
  }

  lemma {:induction false} RequirementEntry(g: Nodes, m: ReqMap, keep: seq<bool>, n: NodeId, r: NodeId)
    requires Solution(g, m, keep) && Edge(g, n, r) && m[r].To?
    ensures m[n].To? && m[n] == Evaluate(g, m, keep, n)
    ensures m[n] == To(n) || (m[n] == m[r] && !keep[n])
  {
    var ids := g.requirements[n];
    assert Consistent(g, m, keep, n);
    var k :| 0 <= k < |ids| && ids[k] == r;
    if Merge(m, ids).Agreed? {
      MergeAgreed(m, ids);
    }
  }

  /** A node that can reach a root has an entry, every walk from it to a root passes through
      the entry, and the entry is its own entry. */
  lemma {:induction false} PassesThroughEntry(g: Nodes, m: ReqMap, keep: seq<bool>, c: seq<NodeId>)
    requires Solution(g, m, keep) && WalkToRoot(g, c)
    ensures m[c[0]].To? && m[c[0]].n in c
    ensures m[m[c[0]].n] == m[c[0]]
    decreases |c|
  {
    if |c| > 1 {
      var d := c[1..];
      assert Edge(g, c[0], c[1]);
      forall k | 0 <= k < |d| - 1
        ensures Edge(g, d[k], d[k + 1])
      {
        assert Edge(g, c[k + 1], c[k + 2]);
      }
      PassesThroughEntry(g, m, keep, d);
      RequirementEntry(g, m, keep, c[0], c[1]);
    }
  }

  /** Every root at the end of a walk from a node also ends a walk from the node's entry. */
  lemma {:induction false} EntryReachesSameRoots(g: Nodes, m: ReqMap, keep: seq<bool>, c: seq<NodeId>)
    requires Solution(g, m, keep) && WalkToRoot(g, c)
    ensures m[c[0]].To?
    ensures exists d :: WalkToRoot(g, d) && d[0] == m[c[0]].n && d[|d| - 1] == c[|c| - 1]
  {
    PassesThroughEntry(g, m, keep, c);
    var k :| 0 <= k < |c| && c[k] == m[c[0]].n;
    var d := c[k..];
    forall l | 0 <= l < |d| - 1
      ensures Edge(g, d[l], d[l + 1])
    {
      assert Edge(g, c[k + l], c[k + l + 1]);
    }
    assert WalkToRoot(g, d);
  }

  /** A node that is to be kept, or whose requirements have different entries, is its own entry; any other one shares
      the entry of all its requirements. */
  lemma {:induction false} CollapsedExactly(g: Nodes, m: ReqMap, keep: seq<bool>, n: NodeId)
    requires Solution(g, m, keep) && g.Has(n) && g.requirements[n] != []
    requires forall k :: 0 <= k < |g.requirements[n]| ==> m[g.requirements[n][k]].To?
    ensures
      var ids := g.requirements[n];
      if keep[n] || exists k, l :: 0 <= k < |ids| && 0 <= l < |ids| && m[ids[k]] != m[ids[l]]
      then m[n] == To(n)
      else forall k :: 0 <= k < |ids| ==> m[n] == m[ids[k]]
  {
    var ids := g.requirements[n];
    assert Consistent(g, m, keep, n) && m[ids[0]].To?;
    match Merge(m, ids)
    case Conflict => MergeConflict(m, ids);
    case Agreed(e) => MergeAgreed(m, ids);
  }

  // ---------------------------------------------------------------- the analysis

  /** The entries after recomputing that of n and, if it changed, those of the nodes that require
      n; there is no result if the recursion gets deeper than `fuel`. */
  function Update(g: Nodes, keep: seq<bool>, m: ReqMap, n: NodeId, fuel: nat): (r: Option<ReqMap>)
    requires Shaped(g) && |m| == |keep| == |g.target| && g.Has(n)
    ensures r.Some? ==> |r.value| == |m|
    decreases fuel, 0
  {
    var e := Evaluate(g, m, keep, n);
    if fuel == 0 then None
    else if e == m[n] then Some(m)
    else UpdateAll(g, keep, m[n := e], g.requiredBy[n], fuel - 1)
  }

  function UpdateAll(g: Nodes, keep: seq<bool>, m: ReqMap, ids: seq<NodeId>, fuel: nat): (r: Option<ReqMap>)
    requires Shaped(g) && |m| == |keep| == |g.target| && forall k :: 0 <= k < |ids| ==> g.Has(ids[k])
    ensures r.Some? ==> |r.value| == |m|
    decreases fuel, |ids| + 1
  {
    if ids == [] then Some(m)
    else
      match Update(g, keep, m, ids[0], fuel)
      case None => None
      case Some(now) => UpdateAll(g, keep, now, ids[1..], fuel)
  }

  /** All nodes but those in pending satisfy their equations. */
  ghost predicate Settled(g: Nodes, keep: seq<bool>, m: ReqMap, pending: set<NodeId>) {
    && TableOk(g) && |m| == |keep| == |g.target|
    && forall n :: 0 <= n < |m| && n !in pending ==> Consistent(g, m, keep, n)
  }

  /** The roots that are their own entries stay so. */
  ghost predicate RootsStay(g: Nodes, m: ReqMap, now: ReqMap)
    requires Shaped(g) && |m| == |now| == |g.target|
  {
    forall k: NodeId :: Root(g, k) && m[k] == To(k) ==> now[k] == To(k)
  }

  /** On any graph: with a result, n and all nodes it disturbs satisfy their equations again. */
  lemma {:induction false} UpdateSettles(g: Nodes, keep: seq<bool>, m: ReqMap, n: NodeId, fuel: nat,
                                         pending: set<NodeId>)
    requires g.Has(n) && Settled(g, keep, m, pending + {n})
    requires Update(g, keep, m, n, fuel).Some?
    ensures
      var now := Update(g, keep, m, n, fuel).value;
      && Settled(g, keep, now, pending) && RootsStay(g, m, now)
      && (Root(g, n) ==> now[n] == To(n))
    decreases fuel, 0
  {
    var e := Evaluate(g, m, keep, n);
    if e == m[n] {
      assert m[n := e] == m;
    } else {
      ChangeStaysLocal(g, m, m[n := e], keep, n, pending);
      UpdateAllSettles(g, keep, m[n := e], g.requiredBy[n], fuel - 1, pending);
    }
  }

  lemma {:induction false} UpdateAllSettles(g: Nodes, keep: seq<bool>, m: ReqMap, ids: seq<NodeId>, fuel: nat,
                                            pending: set<NodeId>)
    requires (forall k :: 0 <= k < |ids| ==> g.Has(ids[k])) && Settled(g, keep, m, pending + Ids(ids))
    requires UpdateAll(g, keep, m, ids, fuel).Some?
    ensures
      var now := UpdateAll(g, keep, m, ids, fuel).value;
      Settled(g, keep, now, pending) && RootsStay(g, m, now)
    decreases fuel, |ids| + 1
  {
    if ids == [] {
      assert pending + Ids(ids) == pending;
    } else {
      assert pending + Ids(ids) == pending + Ids(ids[1..]) + {ids[0]};
      UpdateSettles(g, keep, m, ids[0], fuel, pending + Ids(ids[1..]));
      UpdateAllSettles(g, keep, Update(g, keep, m, ids[0], fuel).value, ids[1..], fuel, pending);
    }
  }

  class Analysis {
    const g: Nodes
    /** Nodes for aggregate accesses: they always stay. */
    const keep: seq<bool>
    var reqMap: ReqMap

    constructor (g: Nodes, keep: seq<bool>)
      requires TableOk(g) && |keep| == |g.target|
      ensures this.g == g && this.keep == keep && Settled(g, keep, reqMap, {})
      ensures reqMap == seq(|g.target|, _ => Null)
    {
      this.g, this.keep := g, keep;
      reqMap := seq(|g.target|, _ => Null);
    }

    /** Recomputes the entry of n and, if it changed, those of the nodes that require n. Gives up
        (without a result) when the recursion gets deeper than `fuel`. */
    method UpdateWitnessNode(n: NodeId, fuel: nat) returns (done: bool)
      requires Shaped(g) && |reqMap| == |keep| == |g.target| && g.Has(n)
      modifies this
      ensures |reqMap| == |old(reqMap)|
      ensures Update(g, keep, old(reqMap), n, fuel) == if done then Some(reqMap) else None
      decreases fuel
    {
      if fuel == 0 {
        return false;
      }
      var valBefore := reqMap[n];
      var e := EvaluateNode(n);
      reqMap := reqMap[n := e];
      done := true;
      if reqMap[n] != valBefore {
        var others := g.requiredBy[n];
        var k := 0;
        while k < |others|
          invariant 0 <= k <= |others| && |reqMap| == |old(reqMap)|
          invariant Update(g, keep, old(reqMap), n, fuel) == UpdateAll(g, keep, reqMap, others[k..], fuel - 1)
        {
          assert others[k..][1..] == others[k + 1..];
          done := UpdateWitnessNode(others[k], fuel - 1);
          if !done {
            return;
          }
          k := k + 1;
        }
      } else {
        assert reqMap == old(reqMap);
      }
    }

    method EvaluateNode(n: NodeId) returns (e: Entry)
      requires Shaped(g) && |reqMap| == |keep| == |g.target| && g.Has(n)
      ensures e == Evaluate(g, reqMap, keep, n)
    {
      var ids := g.requirements[n];
      if |ids| == 0 {
        return To(n);
      }
      var reference, allSame, k := Null, true, 0;
      while k < |ids| && allSame
        invariant 0 <= k <= |ids|
        invariant if allSame then Merge(reqMap, ids[..k]) == Agreed(reference) else Merge(reqMap, ids[..k]).Conflict?
      {
        var req := reqMap[ids[k]];
        assert ids[..k + 1][..k] == ids[..k];
        if reference == Null {
          reference := req;
        } else if req != Null && reference != req {
          allSame := false;
        }
        k := k + 1;
      }
      assert Merge(reqMap, ids) == if allSame then Agreed(reference) else Conflict by {
        if !allSame {
          MergePrefix(reqMap, ids, k);
        } else {
          assert ids[..k] == ids;
        }
      }
      if keep[n] {
        reference := To(n);
      }
      e := if allSame then reference else To(n);
    }
  }

  function Ids(s: seq<NodeId>): (r: set<NodeId>)
    ensures forall o :: o in r <==> o in s
  {
    set o | o in s
  }

  lemma {:induction false} RequiringEdge(g: Nodes, n: NodeId, k: nat)
    requires TableOk(g) && g.Has(n) && k < |g.requiredBy[n]|
    ensures Edge(g, g.requiredBy[n][k], n)
  {
    var o := g.requiredBy[n][k];
    assert multiset(g.requirements[o])[n] == multiset(g.requiredBy[n])[o];
  }

  lemma {:induction false} MergeUnaffected(m: ReqMap, now: ReqMap, ids: seq<NodeId>)
    requires |m| == |now| && forall k :: 0 <= k < |ids| ==> ids[k] < |m| && now[ids[k]] == m[ids[k]]
    ensures Merge(m, ids) == Merge(now, ids)
  {
    if ids != [] {
      MergeUnaffected(m, now, ids[..|ids| - 1]);
    }
  }

  /** A changed entry can only disturb the equations of the nodes that require the changed node. */
  lemma {:induction false} ChangeStaysLocal(g: Nodes, m: ReqMap, now: ReqMap, keep: seq<bool>, n: NodeId,
                                            pending: set<NodeId>)
    requires TableOk(g) && |m| == |keep| == |g.target| && g.Has(n)
    requires forall k :: 0 <= k < |m| && k !in pending + {n} ==> Consistent(g, m, keep, k)
    requires now == m[n := Evaluate(g, m, keep, n)]
    ensures forall k :: 0 <= k < |m| && k !in pending + Ids(g.requiredBy[n]) ==> Consistent(g, now, keep, k)
  {
    forall k | 0 <= k < |m| && k !in pending + Ids(g.requiredBy[n])
      ensures Consistent(g, now, keep, k)
    {
      assert multiset(g.requirements[k])[n] == multiset(g.requiredBy[n])[k];
      assert n !in g.requirements[k];
      MergeUnaffected(m, now, g.requirements[k]);
      if k != n {
        assert k !in pending + {n};
      }
    }
  }

  lemma {:induction false} MergePrefix(m: ReqMap, ids: seq<NodeId>, k: nat)
    requires forall l :: 0 <= l < |ids| ==> ids[l] < |m|
    requires k <= |ids| && Merge(m, ids[..k]).Conflict?
    ensures Merge(m, ids).Conflict?
    decreases |ids|
  {
    if k < |ids| {
      var front := ids[..|ids| - 1];
      assert front[..k] == ids[..k];
      MergePrefix(m, front, k);
    } else {
      assert ids[..k] == ids;
    }
  }
}

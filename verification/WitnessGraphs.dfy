/** Construction of the witness graph: which targets need the witnesses of which others. */
module WitnessGraphs {
  import opened Ssa
  import opened Targets

  /** A node is identified by its running id, its index in the columns of the node table. */
  type NodeId = nat

  datatype Nodes = Nodes(target: seq<Target>,
                         requirements: seq<seq<NodeId>>,
                         requiredBy: seq<seq<NodeId>>,
                         hasAll: seq<bool>)
  {
    predicate Has(n: NodeId) {
      n < |target|
    }
  }

  // ---------------------------------------------------------------- graph invariants

  ghost predicate EdgesInRange(edges: seq<seq<NodeId>>) {
    forall n, k :: 0 <= n < |edges| && 0 <= k < |edges[n]| ==> edges[n][k] < |edges|
  }

  ghost predicate Shaped(g: Nodes) {
    && |g.target| == |g.requirements| == |g.requiredBy| == |g.hasAll|
    && EdgesInRange(g.requirements) && EdgesInRange(g.requiredBy)
  }

  /** At most one internal node per kind, instrumentee and location. */
  ghost predicate InternalUnique(target: seq<Target>) {
    forall m, n :: 0 <= m < n < |target| && target[m].SuppliesWitness() ==> target[m] != target[n]
  }

  /** The edge lists of both directions hold the same edges, with multiplicity. */
  ghost predicate Mirrored(requirements: seq<seq<NodeId>>, requiredBy: seq<seq<NodeId>>) {
    forall m, n :: 0 <= m < |requirements| && 0 <= n < |requiredBy| ==>
      multiset(requirements[m])[n] == multiset(requiredBy[n])[m]
  }

  ghost predicate TableOk(g: Nodes) {
    Shaped(g) && InternalUnique(g.target) && Mirrored(g.requirements, g.requiredBy)
  }

  /** The targets of a list of nodes. */
  ghost function TargetsOf(target: seq<Target>, ids: seq<NodeId>): (r: seq<Target>)
    requires forall k :: 0 <= k < |ids| ==> ids[k] < |target|
    ensures |r| == |ids| && forall k :: 0 <= k < |ids| ==> r[k] == target[ids[k]]
  {
    seq(|ids|, k requires 0 <= k < |ids| => target[ids[k]])
  }

  ghost function RequiredTargets(g: Nodes, n: NodeId): seq<Target>
    requires Shaped(g) && g.Has(n)
  {
    TargetsOf(g.target, g.requirements[n])
  }

  /** A node has no requirements at first, a prefix of the expected ones while it is being
      expanded (`active`), and exactly the expected ones afterwards. */
  ghost predicate NodeOk(f: Func, g: Nodes, n: NodeId, active: bool)
    requires Shaped(g) && g.Has(n)
  {
    && TargetOk(f, g.target[n])
    && var e, r := Expected(f, g.target[n]), RequiredTargets(g, n);
       if !g.hasAll[n] then !active && r == [] && !g.target[n].Source?
       else if active then r <= e
       else r == e
  }

  ghost predicate GraphOk(f: Func, g: Nodes, active: set<NodeId>) {
    && TableOk(g)
    && (forall n :: n in active ==> g.Has(n))
    && forall n :: 0 <= n < |g.target| ==> NodeOk(f, g, n, n in active)
  }

  /** All nodes but n have all requirements. */
  ghost predicate AllBut(g: Nodes, n: NodeId)
    requires Shaped(g)
  {
    forall m :: 0 <= m < |g.target| && m != n ==> g.hasAll[m]
  }

  /** A graph in which every node has exactly its expected requirements. */
  ghost predicate Complete(f: Func, g: Nodes) {
    TableOk(g) && AllHaveAll(g) && forall n :: 0 <= n < |g.target| ==> NodeOk(f, g, n, false)
  }

  ghost predicate AllHaveAll(g: Nodes) {
    forall n :: 0 <= n < |g.hasAll| ==> g.hasAll[n]
  }

  /** What any later state keeps: nodes, their targets, and finished requirement lists, apart
      from the lists of nodes in `open`. */
  ghost predicate Grown(old_: Nodes, now: Nodes, open: set<NodeId>)
    requires Shaped(old_) && Shaped(now)
  {
    && old_.target <= now.target
    && forall n :: 0 <= n < |old_.target| && old_.hasAll[n] ==>
         now.hasAll[n] && (n !in open ==> now.requirements[n] == old_.requirements[n])
  }

  // ---------------------------------------------------------------- edits on the node table

  function AddNode(g: Nodes, t: Target, done: bool): Nodes {
    Nodes(g.target + [t], g.requirements + [[]], g.requiredBy + [[]], g.hasAll + [done])
  }

  function AddEdge(g: Nodes, m: NodeId, n: NodeId): (r: Nodes)
    requires Shaped(g) && g.Has(m) && g.Has(n)
  {
    g.(requirements := g.requirements[m := g.requirements[m] + [n]],
       requiredBy := g.requiredBy[n := g.requiredBy[n] + [m]])
  }

  function Mark(g: Nodes, n: NodeId): Nodes
    requires Shaped(g) && g.Has(n)
  {
    g.(hasAll := g.hasAll[n := true])
  }

  /** The list without the entries equal to x. */
  function Without(s: seq<NodeId>, x: NodeId): (r: seq<NodeId>)
    ensures forall y :: y in r <==> y in s && y != x
  {
    if s == [] then []
    else Without(s[..|s| - 1], x) + if s[|s| - 1] == x then [] else [s[|s| - 1]]
  }

  lemma {:induction false} WithoutTwice(s: seq<NodeId>, x: NodeId)
    ensures Without(Without(s, x), x) == Without(s, x)
  {
    WithoutAbsent(Without(s, x), x);
  }

  lemma {:induction false} WithoutAbsent(s: seq<NodeId>, x: NodeId)
    requires x !in s
    ensures Without(s, x) == s
  {
    if s != [] {
      WithoutAbsent(s[..|s| - 1], x);
    }
  }

  function Cleared(g: Nodes, n: NodeId): Nodes
    requires Shaped(g) && g.Has(n)
  {
    g.(requirements := g.requirements[n := []],
       requiredBy := seq(|g.requiredBy|, b requires 0 <= b < |g.requiredBy| =>
                       if b in g.requirements[n] then Without(g.requiredBy[b], b) else g.requiredBy[b]))
  }

  lemma {:induction false} ClearedShaped(g: Nodes, n: NodeId)
    requires Shaped(g) && g.Has(n)
    ensures Shaped(Cleared(g, n))
  {
    var now := Cleared(g, n).requiredBy;
    forall b, k | 0 <= b < |now| && 0 <= k < |now[b]|
      ensures now[b][k] < |now|
    {
      assert now[b][k] in now[b] && now[b][k] in g.requiredBy[b];
    }
  }

  /** Clearing keeps the two edge directions in step only for a node that requires nothing but
      itself: any other requirement keeps naming the cleared node as a requiring one. */
  lemma {:induction false} ClearedMirroredIff(g: Nodes, n: NodeId)
    requires TableOk(g) && g.Has(n)
    ensures Mirrored(Cleared(g, n).requirements, Cleared(g, n).requiredBy) <==>
            forall r :: r in g.requirements[n] ==> r == n
  {
    var now := Cleared(g, n);
    if forall r :: r in g.requirements[n] ==> r == n {
      forall a, b | 0 <= a < |now.requirements| && 0 <= b < |now.requiredBy|
        ensures multiset(now.requirements[a])[b] == multiset(now.requiredBy[b])[a]
      {
        assert multiset(g.requirements[a])[b] == multiset(g.requiredBy[b])[a];
        if b in g.requirements[n] {
          WithoutCount(g.requiredBy[n], n, a);
        }
      }
    } else {
      var r :| r in g.requirements[n] && r != n;
      assert multiset(g.requirements[n])[r] == multiset(g.requiredBy[r])[n];
      assert n in g.requiredBy[r] && n in now.requiredBy[r];
      assert multiset(now.requirements[n])[r] == 0 && multiset(now.requiredBy[r])[n] > 0;
    }
  }

  lemma {:induction false} WithoutCount(s: seq<NodeId>, x: NodeId, y: NodeId)
    ensures multiset(Without(s, x))[y] == if y == x then 0 else multiset(s)[y]
  {
    if s != [] {
      var front := s[..|s| - 1];
      assert s == front + [s[|s| - 1]];
      WithoutCount(front, x, y);
    }
  }

  lemma {:induction false} NodeOkStable(f: Func, g: Nodes, now: Nodes, n: NodeId, active: bool)
    requires Shaped(g) && Shaped(now) && g.Has(n) && NodeOk(f, g, n, active)
    requires g.target <= now.target
    requires now.requirements[n] == g.requirements[n] && now.hasAll[n] == g.hasAll[n]
    ensures NodeOk(f, now, n, active)
  {
    assert RequiredTargets(now, n) == RequiredTargets(g, n);
  }

  lemma {:induction false} AddNodeOk(f: Func, g: Nodes, t: Target, done: bool, active: set<NodeId>)
    requires GraphOk(f, g, active) && TargetOk(f, t)
    requires t.SuppliesWitness() ==> t !in g.target
    requires t.Source? <==> done
    ensures GraphOk(f, AddNode(g, t, done), active)
  {
    var now := AddNode(g, t, done);
    AddNodeMirrored(g);
    assert Shaped(now);
    forall n | 0 <= n < |now.target|
      ensures NodeOk(f, now, n, n in active)
    {
      if n < |g.target| {
        NodeOkStable(f, g, now, n, n in active);
      }
    }
  }

  lemma {:induction false} AddNodeMirrored(g: Nodes)
    requires Shaped(g) && Mirrored(g.requirements, g.requiredBy)
    ensures Mirrored(g.requirements + [[]], g.requiredBy + [[]])
  {
    var r, b := g.requirements + [[]], g.requiredBy + [[]];
    forall m, n | 0 <= m < |r| && 0 <= n < |b|
      ensures multiset(r[m])[n] == multiset(b[n])[m]
    {
      if m < |g.requirements| && n < |g.requiredBy| {
        assert multiset(g.requirements[m])[n] == multiset(g.requiredBy[n])[m];
      } else if m < |g.requirements| {
        assert n !in g.requirements[m];
      } else if n < |g.requiredBy| {
        assert m !in g.requiredBy[n];
      }
    }
  }

  lemma {:induction false} AddEdgeOk(f: Func, g: Nodes, m: NodeId, n: NodeId, active: set<NodeId>)
    requires GraphOk(f, g, active) && g.Has(m) && g.Has(n) && m in active
    requires TargetOk(f, g.target[m])
    requires RequiredTargets(g, m) + [g.target[n]] <= Expected(f, g.target[m])
    ensures GraphOk(f, AddEdge(g, m, n), active)
    ensures RequiredTargets(AddEdge(g, m, n), m) == RequiredTargets(g, m) + [g.target[n]]
  {
    var now := AddEdge(g, m, n);
    AddEdgeMirrored(g.requirements, g.requiredBy, m, n);
    AddEdgeShaped(g, m, n);
    forall k | 0 <= k < |now.target|
      ensures NodeOk(f, now, k, k in active)
    {
      assert NodeOk(f, g, k, k in active);
      if k != m {
        NodeOkStable(f, g, now, k, k in active);
      }
    }
  }

  lemma {:induction false} AddEdgeShaped(g: Nodes, m: NodeId, n: NodeId)
    requires Shaped(g) && g.Has(m) && g.Has(n)
    ensures Shaped(AddEdge(g, m, n))
    ensures RequiredTargets(AddEdge(g, m, n), m) == RequiredTargets(g, m) + [g.target[n]]
  {
  }

  lemma {:induction false} AddEdgeMirrored(r: seq<seq<NodeId>>, b: seq<seq<NodeId>>, m: NodeId, n: NodeId)
    requires Mirrored(r, b) && m < |r| && n < |b|
    ensures Mirrored(r[m := r[m] + [n]], b[n := b[n] + [m]])
  {
    var r', b' := r[m := r[m] + [n]], b[n := b[n] + [m]];
    forall i, j | 0 <= i < |r'| && 0 <= j < |b'|
      ensures multiset(r'[i])[j] == multiset(b'[j])[i]
    {
      assert multiset(r[i])[j] == multiset(b[j])[i];
      assert multiset(r[m] + [n]) == multiset(r[m]) + multiset{n};
      assert multiset(b[n] + [m]) == multiset(b[n]) + multiset{m};
    }
  }

  lemma {:induction false} MarkOk(f: Func, g: Nodes, n: NodeId, active: set<NodeId>)
    requires GraphOk(f, g, active) && g.Has(n) && !g.hasAll[n]
    ensures GraphOk(f, Mark(g, n), active + {n})
    ensures RequiredTargets(Mark(g, n), n) == []
  {
    var now := Mark(g, n);
    forall k | 0 <= k < |now.target|
      ensures NodeOk(f, now, k, k in active + {n})
    {
      assert NodeOk(f, g, k, k in active);
      if k != n {
        NodeOkStable(f, g, now, k, k in active);
      }
    }
  }

  lemma {:induction false} FinishOk(f: Func, g: Nodes, n: NodeId, active: set<NodeId>)
    requires GraphOk(f, g, active + {n}) && g.Has(n) && n !in active
    requires TargetOk(f, g.target[n]) && RequiredTargets(g, n) == Expected(f, g.target[n])
    ensures GraphOk(f, g, active)
  {
    forall k | 0 <= k < |g.target|
      ensures NodeOk(f, g, k, k in active)
    {
      assert NodeOk(f, g, k, k in active + {n});
    }
  }

  lemma {:induction false} NothingActive(f: Func, g: Nodes, active: set<NodeId>)
    requires GraphOk(f, g, active) && active == {} && AllHaveAll(g)
    ensures Complete(f, g)
  {
    forall n | 0 <= n < |g.target|
      ensures NodeOk(f, g, n, false)
    {
      assert NodeOk(f, g, n, n in active);
    }
  }

  // ---------------------------------------------------------------- the construction

  /** Phis whose own node has not been expanded yet. */
  ghost function PhisTodo(f: Func, g: Nodes): set<nat>
    requires Shaped(g)
  {
    set i | 0 <= i < |f.insts| && f.insts[i].op.Phi? && !PhiDone(f, g, i)
  }

  ghost predicate PhiDone(f: Func, g: Nodes, i: nat)
    requires Shaped(g) && i < |f.insts|
  {
    exists n :: 0 <= n < |g.target| && g.target[n] == Intermediate(Instr(i), f.insts[i].at) && g.hasAll[n]
  }

  lemma {:induction false} PhisTodoShrink(f: Func, old_: Nodes, now: Nodes)
    requires Shaped(old_) && Shaped(now) && old_.target <= now.target
    requires forall n :: 0 <= n < |old_.target| && old_.hasAll[n] ==> now.hasAll[n]
    ensures PhisTodo(f, now) <= PhisTodo(f, old_)
  {
  }

  lemma {:induction false} SubsetSize<T>(a: set<T>, b: set<T>)
    requires a <= b
    ensures |a| <= |b| && (a != b ==> |a| < |b|)
  {
    if a != {} {
      var x :| x in a;
      SubsetSize(a - {x}, b - {x});
    }
  }

  // ---------------------------------------------------------------- shape of complete graphs

  ghost predicate MultiPhi(f: Func, t: Target) {
    IsPhiTarget(f, t) && |f.insts[t.v.i].op.incoming| > 1
  }

  ghost predicate Below(f: Func, s: Target, t: Target) {
    TargetDepth(f, s) < TargetDepth(f, t) || (TargetDepth(f, s) == TargetDepth(f, t) && Rank(f, s) < Rank(f, t))
  }

  ghost predicate Edge(g: Nodes, m: NodeId, n: NodeId)
    requires Shaped(g)
  {
    g.Has(m) && n in g.requirements[m]
  }

  /** Requirements lead to earlier definitions, except those of a phi with several operands. */
  lemma {:induction false} ExpectedBelow(f: Func, t: Target, k: nat)
    requires WellFormed(f) && TargetOk(f, t) && k < |Expected(f, t)| && !MultiPhi(f, t)
    ensures Below(f, Expected(f, t)[k], t)
  {
    var s := Expected(f, t)[k];
    if t.CallInvariant? {
      DepthBound(f, t.requiredArgs[k].1);
    } else if t.v.Instr? && s.Intermediate? {
      var i := t.v.i;
      if f.insts[i].op.Phi? {
        if IsPhiTarget(f, t) {
          SinglePhiSameOrigin(f, i, 0);
          assert InstOk(f, i);
          OperandDepth(f, s.v, f.insts[i].at);
        }
      } else {
        OperandOk(f, t, k);
        OperandDepth(f, s.v, f.insts[i].at);
      }
    }
  }

  lemma {:induction false} EdgeBelow(f: Func, g: Nodes, m: NodeId, n: NodeId)
    requires WellFormed(f) && Complete(f, g) && Edge(g, m, n) && !MultiPhi(f, g.target[m])
    ensures g.Has(n) && Below(f, g.target[n], g.target[m])
  {
    assert NodeOk(f, g, m, false);
    var k :| 0 <= k < |g.requirements[m]| && g.requirements[m][k] == n;
    assert g.target[n] == Expected(f, g.target[m])[k];
    ExpectedBelow(f, g.target[m], k);
  }

  ghost predicate Walk(g: Nodes, c: seq<NodeId>)
    requires Shaped(g)
  {
    && |c| > 0
    && (forall k :: 0 <= k < |c| ==> g.Has(c[k]))
    && forall k :: 0 <= k < |c| - 1 ==> Edge(g, c[k], c[k + 1])
  }

  lemma {:induction false} WalkDescends(f: Func, g: Nodes, c: seq<NodeId>)
    requires WellFormed(f) && Complete(f, g) && Walk(g, c) && |c| > 1
    requires forall k :: 0 <= k < |c| - 1 ==> !MultiPhi(f, g.target[c[k]])
    ensures Below(f, g.target[c[|c| - 1]], g.target[c[0]])
    decreases |c|
  {
    var d := c[..|c| - 1];
    if |d| > 1 {
      WalkDescends(f, g, d);
    }
    EdgeBelow(f, g, c[|c| - 2], c[|c| - 1]);
  }

  /** Every requirement cycle passes through the node of a phi with several operands. */
  lemma {:induction false} CycleThroughPhi(f: Func, g: Nodes, c: seq<NodeId>)
    requires WellFormed(f) && Complete(f, g) && Walk(g, c) && |c| > 1 && c[0] == c[|c| - 1]
    ensures exists k :: 0 <= k < |c| - 1 && MultiPhi(f, g.target[c[k]])
  {
    if forall k :: 0 <= k < |c| - 1 ==> !MultiPhi(f, g.target[c[k]]) {
      WalkDescends(f, g, c);
    }
  }

  // ---------------------------------------------------------------- the graph object

  class WitnessGraph {
    const f: Func
    var nodes: Nodes
    var internalNodes: seq<NodeId>
    var externalNodes: seq<NodeId>

    ghost predicate Listed()
      reads this
    {
      && (forall n :: n in internalNodes ==> nodes.Has(n) && nodes.target[n].SuppliesWitness())
      && (forall n :: n in externalNodes ==> nodes.Has(n) && !nodes.target[n].SuppliesWitness())
      && (forall n :: 0 <= n < |nodes.target| ==> n in internalNodes || n in externalNodes)
    }

    ghost predicate Valid(active: set<NodeId>)
      reads this
    {
      WellFormed(f) && GraphOk(f, nodes, active) && Listed()
    }

    constructor (f: Func)
      requires WellFormed(f)
      ensures this.f == f && Valid({}) && Complete(f, nodes)
      ensures nodes.target == [] && internalNodes == [] && externalNodes == []
    {
      this.f := f;
      nodes := Nodes([], [], [], []);
      internalNodes, externalNodes := [], [];
    }

    method GetInternalNodeOrNull(t: Target) returns (found: bool, n: NodeId)
      requires t.SuppliesWitness() && Listed()
      ensures found ==> nodes.Has(n) && nodes.target[n] == t
      ensures !found ==> t !in nodes.target
    {
      found, n := false, 0;
      var k := 0;
      while k < |internalNodes|
        invariant 0 <= k <= |internalNodes|
        invariant forall l :: 0 <= l < k ==> nodes.Has(internalNodes[l]) && nodes.target[internalNodes[l]] != t
      {
        assert internalNodes[k] in internalNodes;
        if nodes.target[internalNodes[k]] == t {
          return true, internalNodes[k];
        }
        k := k + 1;
      }
    }

    /** Looks up the node for t, creating it without requirements if there is none. Source
        nodes count as complete at once. */
    method GetInternalNode(t: Target, ghost active: set<NodeId>) returns (n: NodeId)
      requires t.SuppliesWitness() && Valid(active) && TargetOk(f, t) && AllHaveAll(nodes)
      modifies this`nodes, this`internalNodes
      ensures Valid(active) && nodes.Has(n) && nodes.target[n] == t
      ensures Grown(old(nodes), nodes, {}) && AllBut(nodes, n) && (t.Source? ==> nodes.hasAll[n])
      ensures PhisTodo(f, nodes) == old(PhisTodo(f, nodes))
    {
      var found;
      found, n := GetInternalNodeOrNull(t);
      if !found {
        AddNodeOk(f, nodes, t, t.Source?, active);
        n := |nodes.target|;
        nodes := AddNode(nodes, t, t.Source?);
        internalNodes := internalNodes + [n];
      }
    }

    method AddRequirement(m: NodeId, n: NodeId)
      requires Shaped(nodes) && nodes.Has(m) && nodes.Has(n)
      modifies this`nodes
      ensures nodes == AddEdge(old(nodes), m, n)
    {
      nodes := nodes.(requirements := nodes.requirements[m := nodes.requirements[m] + [n]],
                      requiredBy := nodes.requiredBy[n := nodes.requiredBy[n] + [m]]);
    }

    /** Adds the next expected requirement of a node that is being expanded. */
    method AddExpected(m: NodeId, n: NodeId, ghost active: set<NodeId>)
      requires Valid(active) && nodes.Has(m) && nodes.Has(n) && m in active
      requires TargetOk(f, nodes.target[m])
      requires RequiredTargets(nodes, m) + [nodes.target[n]] <= Expected(f, nodes.target[m])
      modifies this`nodes
      ensures Valid(active) && nodes == AddEdge(old(nodes), m, n)
      ensures RequiredTargets(nodes, m) == old(RequiredTargets(nodes, m)) + [nodes.target[n]]
    {
      AddEdgeOk(f, nodes, m, n, active);
      AddRequirement(m, n);
    }

    /** Unlinks n from its requirements. In the lists of requiring nodes, entries equal to the
        requirement itself are erased, rather than those equal to n. */
    method ClearRequirements(n: NodeId)
      requires Shaped(nodes) && nodes.Has(n)
      modifies this`nodes
      ensures nodes == Cleared(old(nodes), n) && Shaped(nodes)
    {
      var k, reqs := 0, nodes.requirements[n];
      var requiredBy := nodes.requiredBy;
      while k < |reqs|
        invariant 0 <= k <= |reqs| && nodes == old(nodes)
        invariant |requiredBy| == |nodes.requiredBy|
        invariant forall b :: 0 <= b < |requiredBy| ==>
                    requiredBy[b] == if b in reqs[..k] then Without(nodes.requiredBy[b], b) else nodes.requiredBy[b]
      {
        WithoutTwice(nodes.requiredBy[reqs[k]], reqs[k]);
        requiredBy := requiredBy[reqs[k] := Without(requiredBy[reqs[k]], reqs[k])];
        k := k + 1;
      }
      assert reqs[..k] == reqs;
      ClearedShaped(nodes, n);
      nodes := nodes.(requiredBy := requiredBy, requirements := nodes.requirements[n := []]);
    }

    method RequireSource(m: NodeId, v: Value, loc: Point, ghost active: set<NodeId>)
      requires Valid(active) && AllHaveAll(nodes) && m in active
      requires TargetOk(f, Source(v, loc)) && TargetOk(f, nodes.target[m])
      requires RequiredTargets(nodes, m) + [Source(v, loc)] <= Expected(f, nodes.target[m])
      modifies this`nodes, this`internalNodes
      ensures Valid(active) && AllHaveAll(nodes) && Grown(old(nodes), nodes, {m})
      ensures RequiredTargets(nodes, m) == old(RequiredTargets(nodes, m)) + [Source(v, loc)]
    {
      var n := GetInternalNode(Source(v, loc), active);
      assert RequiredTargets(nodes, m) == old(RequiredTargets(nodes, m));
      AddExpected(m, n, active);
    }

    method RequireRecursively(m: NodeId, v: Value, loc: Point, ghost active: set<NodeId>)
      requires Valid(active) && AllHaveAll(nodes) && m in active
      requires UseOk(f, v, loc) && Reachable(f, loc) && !PhiPoint(f, loc)
      requires TargetOk(f, nodes.target[m])
      requires RequiredTargets(nodes, m) + [Intermediate(v, loc)] <= Expected(f, nodes.target[m])
      modifies this`nodes, this`internalNodes
      ensures Valid(active) && AllHaveAll(nodes) && Grown(old(nodes), nodes, {m})
      ensures RequiredTargets(nodes, m) == old(RequiredTargets(nodes, m)) + [Intermediate(v, loc)]
      decreases PhisTodo(f, nodes), Depth(f, v), Rank(f, Intermediate(v, loc)), 3
    {
      UseTargetOk(f, v, loc);
      var n := GetInternalNode(Intermediate(v, loc), active);
      AddRequired(n, active);
      assert RequiredTargets(nodes, m) == old(RequiredTargets(nodes, m));
      AddExpected(m, n, active);
    }

    /** Gives n, and every node it turns out to need, exactly the expected requirements. */
    method AddRequired(n: NodeId, ghost active: set<NodeId>)
      requires Valid(active) && nodes.Has(n) && AllBut(nodes, n)
      requires !IsPhiTarget(f, nodes.target[n])
      modifies this`nodes, this`internalNodes
      ensures Valid(active) && AllHaveAll(nodes) && Grown(old(nodes), nodes, {})
      decreases PhisTodo(f, nodes), TargetDepth(f, nodes.target[n]), Rank(f, nodes.target[n]), 2
    {
      if nodes.hasAll[n] {
        return;
      }
      var t := nodes.target[n];
      ghost var now := active + {n};
      assert NodeOk(f, nodes, n, n in active);
      MarkOk(f, nodes, n, active);
      nodes := nodes.(hasAll := nodes.hasAll[n := true]);
      PhisTodoShrink(f, old(nodes), nodes);

      if t.CallInvariant? {
        RequireArguments(n, now);
      } else if t.v.Instr? {
        RequireOperands(n, t.v.i, now);
      } else {
        RequireLeaf(n, now);
      }
      FinishOk(f, nodes, n, active);
    }

    /** Arguments and constants get their witnesses at the beginning of the function, undefined
        and aggregate constants right where they are used. */
    method RequireLeaf(n: NodeId, ghost active: set<NodeId>)
      requires Valid(active) && AllHaveAll(nodes) && n in active
      requires TargetOk(f, nodes.target[n]) && RequiredTargets(nodes, n) == []
      requires !nodes.target[n].CallInvariant? && !nodes.target[n].Source? && !nodes.target[n].v.Instr?
      modifies this`nodes, this`internalNodes
      ensures Valid(active) && AllHaveAll(nodes) && Grown(old(nodes), nodes, {n})
      ensures RequiredTargets(nodes, n) == Expected(f, nodes.target[n])
    {
      var t := nodes.target[n];
      SourceTargetOk(f, t, Expected(f, t)[0]);
      match t.v
      case Arg(_) => RequireSource(n, t.v, f.entry, active);
      case Constant(c) =>
        if ConstShape(c).Aggregate? || c.Undef? {
          RequireSource(n, t.v, t.loc, active);
        } else {
          RequireSource(n, Constant(ConstBase(c)), f.entry, active);
        }
    }

    method RequireArguments(n: NodeId, ghost active: set<NodeId>)
      requires Valid(active) && AllHaveAll(nodes) && n in active
      requires nodes.target[n].CallInvariant? && TargetOk(f, nodes.target[n]) && RequiredTargets(nodes, n) == []
      modifies this`nodes, this`internalNodes
      ensures Valid(active) && AllHaveAll(nodes) && Grown(old(nodes), nodes, {n})
      ensures RequiredTargets(nodes, n) == Expected(f, nodes.target[n])
      decreases PhisTodo(f, nodes), TargetDepth(f, nodes.target[n]), Rank(f, nodes.target[n]), 1
    {
      var t := nodes.target[n];
      var k := 0;
      while k < |t.requiredArgs|
        invariant 0 <= k <= |t.requiredArgs|
        invariant Valid(active) && AllHaveAll(nodes) && Grown(old(nodes), nodes, {n})
        invariant RequiredTargets(nodes, n) == Expected(f, t)[..k]
      {
        var v := t.requiredArgs[k].1;
        PhisTodoShrink(f, old(nodes), nodes);
        DepthBound(f, v);
        assert Expected(f, t)[..k + 1] == Expected(f, t)[..k] + [Intermediate(v, t.loc)];
        RequireRecursively(n, v, t.loc, active);
        k := k + 1;
      }
    }

    method RequireOperands(n: NodeId, i: nat, ghost active: set<NodeId>)
      requires Valid(active) && AllHaveAll(nodes) && n in active
      requires TargetOk(f, nodes.target[n]) && RequiredTargets(nodes, n) == []
      requires !nodes.target[n].CallInvariant? && !nodes.target[n].Source? && nodes.target[n].v == Instr(i)
      requires !IsPhiTarget(f, nodes.target[n])
      modifies this`nodes, this`internalNodes
      ensures Valid(active) && AllHaveAll(nodes) && Grown(old(nodes), nodes, {n})
      ensures RequiredTargets(nodes, n) == Expected(f, nodes.target[n])
      decreases PhisTodo(f, nodes), TargetDepth(f, nodes.target[n]), Rank(f, nodes.target[n]), 1
    {
      var at := f.insts[i].at;
      match f.insts[i].op
      case Def(next) =>
        SourceTargetOk(f, nodes.target[n], Source(Instr(i), next));
        RequireSource(n, Instr(i), next, active);
      case Phi(_) => RequirePhi(n, i, active);
      case Select(a, b) =>
        RequireOperand(n, i, a, active);
        RequireOperand(n, i, b, active);
      case Gep(p, _) => RequireOperand(n, i, p, active);
      case BitCast(p) => RequireOperand(n, i, p, active);
      case ExtractValue(agg, _) => RequireOperand(n, i, agg, active);
      case InsertValue(agg, elem, _, pointer) =>
        RequireOperand(n, i, agg, active);
        if pointer {
          RequireOperand(n, i, elem, active);
        }
    }

    /** Requires the next operand v of instruction i, at the instruction. */
    method RequireOperand(n: NodeId, i: nat, v: Value, ghost active: set<NodeId>)
      requires Valid(active) && AllHaveAll(nodes) && n in active
      requires TargetOk(f, nodes.target[n]) && !nodes.target[n].CallInvariant? && nodes.target[n].v == Instr(i)
      requires i < |f.insts| && !f.insts[i].op.Phi? && !nodes.target[n].Source?
      requires RequiredTargets(nodes, n) + [Intermediate(v, f.insts[i].at)] <= Expected(f, nodes.target[n])
      modifies this`nodes, this`internalNodes
      ensures Valid(active) && AllHaveAll(nodes) && Grown(old(nodes), nodes, {n})
      ensures RequiredTargets(nodes, n) == old(RequiredTargets(nodes, n)) + [Intermediate(v, f.insts[i].at)]
      ensures PhisTodo(f, nodes) <= old(PhisTodo(f, nodes))
      decreases PhisTodo(f, nodes), TargetDepth(f, nodes.target[n]), Rank(f, nodes.target[n]), 0
    {
      var k := |RequiredTargets(nodes, n)|;
      assert Expected(f, nodes.target[n])[k] == Intermediate(v, f.insts[i].at);
      OperandOk(f, nodes.target[n], k);
      OperandDepth(f, v, f.insts[i].at);
      RequireRecursively(n, v, f.insts[i].at, active);
      PhisTodoShrink(f, old(nodes), nodes);
    }

    /** Requires the node of the phi itself, which is expanded only once: this breaks loops. */
    method RequirePhi(n: NodeId, i: nat, ghost active: set<NodeId>)
      requires Valid(active) && AllHaveAll(nodes) && n in active
      requires TargetOk(f, nodes.target[n]) && RequiredTargets(nodes, n) == []
      requires !nodes.target[n].CallInvariant? && !nodes.target[n].Source? && nodes.target[n].v == Instr(i)
      requires i < |f.insts| && f.insts[i].op.Phi? && !IsPhiTarget(f, nodes.target[n])
      modifies this`nodes, this`internalNodes
      ensures Valid(active) && AllHaveAll(nodes) && Grown(old(nodes), nodes, {n})
      ensures RequiredTargets(nodes, n) == Expected(f, nodes.target[n])
      decreases PhisTodo(f, nodes), TargetDepth(f, nodes.target[n]), Rank(f, nodes.target[n]), 0
    {
      var at, incoming := f.insts[i].at, f.insts[i].op.incoming;
      PhiTargetOk(f, Instr(i));
      var phi := GetInternalNode(Intermediate(Instr(i), at), active);
      assert RequiredTargets(nodes, n) == [];
      AddExpected(n, phi, active);
      if nodes.hasAll[phi] {
        return;
      }
      assert nodes.requirements[phi] == [] by {
        assert NodeOk(f, nodes, phi, phi in active);
      }
      assert i in PhisTodo(f, nodes);
      ExpandPhi(phi, i, active);
    }

    method ExpandPhi(phi: NodeId, i: nat, ghost active: set<NodeId>)
      requires Valid(active) && AllBut(nodes, phi) && nodes.Has(phi) && !nodes.hasAll[phi]
      requires i < |f.insts| && f.insts[i].op.Phi? && i in PhisTodo(f, nodes)
      requires nodes.target[phi] == Intermediate(Instr(i), f.insts[i].at) && TargetOk(f, nodes.target[phi])
      modifies this`nodes, this`internalNodes
      ensures Valid(active) && AllHaveAll(nodes) && Grown(old(nodes), nodes, {})
      decreases PhisTodo(f, nodes), Depth(f, Instr(i)), 0, 0
    {
      var incoming := f.insts[i].op.incoming;
      ghost var now := active + {phi};
      assert NodeOk(f, nodes, phi, phi in active);
      MarkOk(f, nodes, phi, active);
      nodes := nodes.(hasAll := nodes.hasAll[phi := true]);
      PhisTodoShrink(f, old(nodes), nodes);
      assert PhiDone(f, nodes, i);
      ghost var marked := nodes;
      var k := 0;
      while k < |incoming|
        invariant 0 <= k <= |incoming|
        invariant Valid(now) && AllHaveAll(nodes) && Grown(marked, nodes, {phi})
        invariant RequiredTargets(nodes, phi) == IncomingTargets(incoming)[..k]
      {
        PhisTodoShrink(f, marked, nodes);
        RequireIncoming(phi, i, k, now);
        k := k + 1;
      }
      FinishOk(f, nodes, phi, active);
    }

    /** Requires the k-th incoming value of phi i, at the end of its block. */
    method RequireIncoming(phi: NodeId, i: nat, k: nat, ghost active: set<NodeId>)
      requires Valid(active) && AllHaveAll(nodes) && phi in active
      requires i < |f.insts| && f.insts[i].op.Phi? && k < |f.insts[i].op.incoming|
      requires nodes.target[phi] == Intermediate(Instr(i), f.insts[i].at) && TargetOk(f, nodes.target[phi])
      requires RequiredTargets(nodes, phi) == IncomingTargets(f.insts[i].op.incoming)[..k]
      modifies this`nodes, this`internalNodes
      ensures Valid(active) && AllHaveAll(nodes) && Grown(old(nodes), nodes, {phi})
      ensures RequiredTargets(nodes, phi) == IncomingTargets(f.insts[i].op.incoming)[..k + 1]
      decreases PhisTodo(f, nodes), Depth(f, f.insts[i].op.incoming[k].value),
                Rank(f, Intermediate(f.insts[i].op.incoming[k].value, f.insts[i].op.incoming[k].from)), 4
    {
      var incoming := f.insts[i].op.incoming;
      IncomingOk(f, i, k);
      NextIncoming(incoming, k);
      RequireRecursively(phi, incoming[k].value, incoming[k].from, active);
    }

    /** Adds a target that needs witnesses, with everything these are derived from. */
    method InsertRequiredTarget(t: Target)
      requires Valid({}) && AllHaveAll(nodes) && TargetOk(f, t) && !t.SuppliesWitness()
      modifies this
      ensures Valid({}) && Complete(f, nodes) && Grown(old(nodes), nodes, {})
      ensures externalNodes == old(externalNodes) + [|old(nodes.target)|]
      ensures nodes.Has(|old(nodes.target)|) && nodes.target[|old(nodes.target)|] == t
    {
      var n := |nodes.target|;
      AddNodeOk(f, nodes, t, false, {});
      nodes := AddNode(nodes, t, false);
      externalNodes := externalNodes + [n];
      AddRequired(n, {});
      NothingActive(f, nodes, {});
    }
  }
}

/** Functions for which the phi analysis is known to end. */
module TameFunctions {
  import opened Ssa
  import opened Targets
  import opened WitnessGraphs
  import opened WitnessCreation
  import opened PhiTermination
  import opened Simplification

  // ---------------------------------------------------------------- no extraction

  ghost predicate ExtractsNothing(f: Func) {
    forall i :: 0 <= i < |f.insts| ==> !f.insts[i].op.ExtractValue?
  }

  lemma {:induction false} NothingKept(f: Func, g: Nodes, valid: set<NodeId>)
    requires ExtractsNothing(f)
    ensures NoneKept(Kept(f, g, valid))
  {
  }

  // ---------------------------------------------------------------- no loops

  /** A closed walk consists of nodes that supply witnesses. */
  lemma {:induction false} CycleSupplies(f: Func, g: Nodes, c: seq<NodeId>, k: nat)
    requires Complete(f, g) && Walk(g, c) && |c| > 1 && c[0] == c[|c| - 1] && k < |c| - 1
    ensures g.target[c[k]].SuppliesWitness()
  {
    var a := if k == 0 then |c| - 2 else k - 1;
    assert Edge(g, c[a], c[a + 1]) && NodeOk(f, g, c[a], false);
    var i :| 0 <= i < |g.requirements[c[a]]| && g.requirements[c[a]][i] == c[k];
    ExpectedInternal(f, g.target[c[a]], i);
    assert g.target[c[k]] == Expected(f, g.target[c[a]])[i];
  }

  /** Without phis of several operands among its targets, a graph has no cycle. */
  lemma {:induction false} NoPhiNoCycle(f: Func, g: Nodes)
    requires WellFormed(f) && Complete(f, g) && forall n :: 0 <= n < |g.target| ==> !MultiPhi(f, g.target[n])
    ensures Acyclic(g)
  {
    forall c | Walk(g, c) && |c| > 1
      ensures c[0] != c[|c| - 1]
    {
      if c[0] == c[|c| - 1] {
        CycleThroughPhi(f, g, c);
      }
    }
  }

  /** The points can be ordered along the control flow. */
  ghost predicate AlongFlow(f: Func, order: Point -> nat) {
    forall e :: e in f.edges ==> order(e.0) < order(e.1)
  }

  ghost predicate Loopless(f: Func) {
    exists order: Point -> nat :: AlongFlow(f, order)
  }

  lemma {:induction false} PathAscends(f: Func, order: Point -> nat, p: seq<Point>, k: nat, l: nat)
    requires AlongFlow(f, order) && Path(f, p) && k <= l < |p|
    ensures order(p[k]) <= order(p[l]) && (k < l ==> order(p[k]) < order(p[l]))
    decreases l
  {
    if k < l {
      PathAscends(f, order, p, k, l - 1);
      assert Hop(f, p, l - 1);
    }
  }

  lemma {:induction false} DomAscends(f: Func, order: Point -> nat, a: Point, b: Point)
    requires AlongFlow(f, order) && StrictDom(f, a, b) && Reachable(f, b)
    ensures order(a) < order(b)
  {
    var p :| PathTo(f, p, b);
    var k :| 0 <= k < |p| && p[k] == a;
    PathAscends(f, order, p, k, |p| - 1);
  }

  /** Where the instrumentee is defined; a use of a phi comes right behind the phi itself. */
  ghost function Height(f: Func, order: Point -> nat, t: Target): nat
    requires !t.CallInvariant?
  {
    if t.Source? then 0
    else if !t.v.Instr? || t.v.i >= |f.insts| then 1
    else 2 * order(f.insts[t.v.i].at) + if IsPhiTarget(f, t) then 2 else 3
  }

  lemma {:induction false} ExpectedLower(f: Func, order: Point -> nat, t: Target, k: nat)
    requires WellFormed(f) && AlongFlow(f, order) && TargetOk(f, t) && !t.CallInvariant? && k < |Expected(f, t)|
    ensures !Expected(f, t)[k].CallInvariant? && Height(f, order, Expected(f, t)[k]) < Height(f, order, t)
  {
    var s := Expected(f, t)[k];
    if t.v.Instr? && s.Intermediate? {
      var i := t.v.i;
      assert InstOk(f, i);
      if !f.insts[i].op.Phi? {
        OperandOk(f, t, k);
        if s.v.Instr? {
          DomAscends(f, order, f.insts[s.v.i].at, f.insts[i].at);
        }
      } else if IsPhiTarget(f, t) {
        IncomingOk(f, i, k);
        assert (s.loc, f.insts[i].at) in f.edges;
        if s.v.Instr? {
          DomAscends(f, order, f.insts[s.v.i].at, s.loc);
        }
      }
    }
  }

  lemma {:induction false} WalkLowers(f: Func, g: Nodes, order: Point -> nat, c: seq<NodeId>, k: nat)
    requires WellFormed(f) && AlongFlow(f, order) && Complete(f, g) && Walk(g, c) && k < |c|
    requires !g.target[c[0]].CallInvariant?
    ensures !g.target[c[k]].CallInvariant?
    ensures k > 0 ==> Height(f, order, g.target[c[k]]) < Height(f, order, g.target[c[0]])
  {
    if k > 0 {
      WalkLowers(f, g, order, c, k - 1);
      assert Edge(g, c[k - 1], c[k]) && NodeOk(f, g, c[k - 1], false);
      var i :| 0 <= i < |g.requirements[c[k - 1]]| && g.requirements[c[k - 1]][i] == c[k];
      assert g.target[c[k]] == Expected(f, g.target[c[k - 1]])[i];
      ExpectedLower(f, order, g.target[c[k - 1]], i);
    }
  }

  /** A function without loops has a graph without cycles. */
  lemma {:induction false} NoLoopNoCycle(f: Func, g: Nodes)
    requires WellFormed(f) && Complete(f, g) && Loopless(f)
    ensures Acyclic(g)
  {
    var order: Point -> nat :| AlongFlow(f, order);
    forall c | Walk(g, c) && |c| > 1
      ensures c[0] != c[|c| - 1]
    {
      if c[0] == c[|c| - 1] {
        CycleSupplies(f, g, c, 0);
        WalkLowers(f, g, order, c, |c| - 1);
      }
    }
  }

  /** So the analysis can fail to end only in a function with a loop and an extracted pointer. */
  lemma {:induction false} TameFunction(f: Func, g: Nodes, valid: set<NodeId>)
    requires WellFormed(f) && Complete(f, g) && (Loopless(f) || ExtractsNothing(f))
    ensures Tame(f, g, valid)
  {
    if Loopless(f) {
      NoLoopNoCycle(f, g);
    } else {
      NothingKept(f, g, valid);
    }
  }
}

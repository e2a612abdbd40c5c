/** Invariant checks that can be dropped because the pointer still equals its source. */
module Unchanged {
  import opened Ssa
  import opened Targets
  import opened WitnessGraphs
  import opened Walks
  import opened Displacement

  /** The node's location computes an address with a non-zero index. */
  predicate Moves(f: Func, t: Target) {
    !t.Source? && exists i :: 0 <= i < |f.insts| && MovingGep(f, i, t.loc)
  }

  predicate MovingGep(f: Func, i: nat, q: Point)
    requires i < |f.insts|
  {
    f.insts[i].at == q && f.insts[i].op.Gep? && !f.insts[i].op.allZero
  }

  ghost predicate Unmoved(f: Func, g: Nodes, n: NodeId)
    requires Shaped(g)
  {
    forall x: NodeId {:trigger Reaches(g, n, x)} :: Reaches(g, n, x) ==> g.Has(x) && !Moves(f, g.target[x])
  }

  ghost predicate NoneMoves(f: Func, g: Nodes, seen: set<NodeId>, open: set<NodeId>)
    requires Shaped(g)
  {
    forall x :: x in seen && x !in open ==> g.Has(x) && !Moves(f, g.target[x])
  }

  /** A search that gives up at the first node located at an address computation. */
  method DidNotChangeSinceWitness(f: Func, g: Nodes, seen: set<NodeId>, n: NodeId, ghost open: set<NodeId>)
    returns (res: bool, now: set<NodeId>)
    requires Shaped(g) && g.Has(n) && Closed(g, seen, open) && NoneMoves(f, g, seen, {})
    requires forall x :: 0 <= x < |g.target| && g.target[x].Source? ==> g.requirements[x] == []
    ensures res ==> seen <= now && n in now && Closed(g, now, open) && NoneMoves(f, g, now, {})
    ensures !res ==> exists x: NodeId :: Reaches(g, n, x) && g.Has(x) && Moves(f, g.target[x])
    decreases AllNodes(g) - seen
  {
    if n in seen {
      return true, seen;
    }
    now := seen + {n};
    ReachesSelf(g, n);
    if g.target[n].Source? {
      return true, now;
    }
    if Moves(f, g.target[n]) {
      return false, now;
    }
    res := true;
    var k := 0;
    while k < |g.requirements[n]|
      invariant 0 <= k <= |g.requirements[n]|
      invariant seen + {n} <= now && Closed(g, now, open + {n}) && NoneMoves(f, g, now, {})
      invariant forall l :: 0 <= l < k ==> g.requirements[n][l] in now
    {
      var o := g.requirements[n][k];
      assert Edge(g, n, o);
      res, now := DidNotChangeSinceWitness(f, g, now, o, open + {n});
      if !res {
        ghost var x: NodeId :| Reaches(g, o, x) && g.Has(x) && Moves(f, g.target[x]);
        ReachesVia(g, n, o, x);
        return;
      }
      k := k + 1;
    }
  }

  ghost predicate Droppable(f: Func, g: Nodes, n: NodeId)
    requires Shaped(g)
  {
    g.Has(n) && g.target[n].IsInvariant() && Unmoved(f, g, n)
  }

  method IsDroppable(f: Func, g: Nodes, n: NodeId) returns (b: bool)
    requires Complete(f, g) && g.Has(n)
    ensures b <==> Droppable(f, g, n)
  {
    b := false;
    if g.target[n].IsInvariant() {
      forall x | 0 <= x < |g.target| && g.target[x].Source?
        ensures g.requirements[x] == []
      {
        assert NodeOk(f, g, x, false);
      }
      var seen;
      b, seen := DidNotChangeSinceWitness(f, g, {}, n, {});
      if b {
        SearchedAll(f, g, seen, n);
      }
    }
  }

  /** The valid targets that remain when unmoved invariants are dropped. */
  method InvalidateUnchanged(f: Func, g: Nodes, external: seq<NodeId>, valid: set<NodeId>) returns (still: set<NodeId>)
    requires Complete(f, g) && forall n :: n in external ==> g.Has(n)
    ensures still <= valid
    ensures forall n :: n in valid - still ==> n in external && Droppable(f, g, n)
    ensures forall n :: n in external && Droppable(f, g, n) ==> n !in still
  {
    still := valid;
    var k := 0;
    while k < |external|
      invariant 0 <= k <= |external| && still <= valid
      invariant forall n :: n in valid - still ==> n in external && Droppable(f, g, n)
      invariant forall l :: 0 <= l < k && external[l] in still ==> !Droppable(f, g, external[l])
    {
      var n := external[k];
      assert n in external;
      if n in still {
        var drop := IsDroppable(f, g, n);
        if drop {
          still := still - {n};
        }
      }
      k := k + 1;
    }
  }

  lemma {:induction false} SearchedAll(f: Func, g: Nodes, seen: set<NodeId>, n: NodeId)
    requires Shaped(g) && n in seen && Closed(g, seen, {}) && NoneMoves(f, g, seen, {})
    ensures Unmoved(f, g, n)
  {
    forall x: NodeId | Reaches(g, n, x)
      ensures g.Has(x) && !Moves(f, g.target[x])
    {
      var c :| Walk(g, c) && c[0] == n && c[|c| - 1] == x;
      ClosedContains(g, seen, c);
    }
  }

  // ---------------------------------------------------------------- soundness

  /** A set of nodes, closed under requirements, that holds no address computation and no
      constant moved by its expression. */
  ghost predicate Still(f: Func, g: Nodes, s: set<NodeId>) {
    && WellFormed(f) && Complete(f, g) && Closed(g, s, {}) && NoneMoves(f, g, s, {})
    && forall n :: n in s ==> !g.target[n].CallInvariant? && PlainValue(g.target[n].v)
  }

  /** In every run, whenever the location of such a node executes, its pointers equal the
      pointers they were derived from. */
  lemma {:induction false} NoDisplacement(f: Func, g: Nodes, s: set<NodeId>, n: NodeId, r: Run, d: Displacements,
                                          t: nat, j: Component)
    requires Still(f, g, s) && n in s
    requires IsDispRun(f, r, d) && t < |r.path| && r.path[t] == g.target[n].loc
    requires j in Indices(ShapeOf(f, g.target[n].v))
    ensures d[t + 1](g.target[n].v, j) == 0
    decreases t, 1
  {
    var x := g.target[n];
    assert NodeOk(f, g, n, false);
    if !x.v.Instr? {
      LeafStays(f, r, d, t + 1, x.v, j);
    } else {
      var q := f.insts[x.v.i].at;
      if x.Source? {
        NextOk(f, x.v.i);
      }
      if x.loc == q {
        StillPhi(f, g, s, n, r, d, t, j);
      } else {
        forall k | 0 <= k <= t && r.path[k] == q
          ensures d[k + 1](x.v, j) == 0
        {
          StillAtDefinition(f, g, s, n, r, d, k, j);
        }
        DomRefl(f, q);
        ZeroPersists(f, q, x.v, j, r, d, t);
      }
    }
  }

  /** The k-th node that n requires, with what is known of it. */
  lemma {:induction false} StillRequired(f: Func, g: Nodes, s: set<NodeId>, n: NodeId, k: nat)
    requires Still(f, g, s) && n in s && k < |g.requirements[n]|
    ensures g.Has(n) && TargetOk(f, g.target[n]) && |Expected(f, g.target[n])| == |g.requirements[n]|
    ensures g.requirements[n][k] in s && g.target[g.requirements[n][k]] == Expected(f, g.target[n])[k]
  {
    assert NodeOk(f, g, n, false);
    assert g.requirements[n][k] in g.requirements[n];
  }

  /** Whenever the definition of such a node's instrumentee executes, it yields an unmoved pointer. */
  lemma {:induction false} StillAtDefinition(f: Func, g: Nodes, s: set<NodeId>, n: NodeId, r: Run, d: Displacements,
                                             t: nat, j: Component)
    requires Still(f, g, s) && n in s && g.target[n].v.Instr? && g.target[n].v.i < |f.insts|
    requires IsDispRun(f, r, d) && t < |r.path| && r.path[t] == f.insts[g.target[n].v.i].at
    requires j in Indices(ShapeOf(f, g.target[n].v))
    ensures d[t + 1](g.target[n].v, j) == 0
    decreases t, 3
  {
    var i := g.target[n].v.i;
    assert NodeOk(f, g, n, false) && InstOk(f, i);
    assert DispStep(f, r, d, t) && DispEffect(f, r, d, t, i, j);
    match f.insts[i].op
    case Def(_) =>
    case Phi(_) =>
      if IsPhiTarget(f, g.target[n]) {
        StillPhi(f, g, s, n, r, d, t, j);
      } else {
        StillRequired(f, g, s, n, 0);
        StillPhi(f, g, s, g.requirements[n][0], r, d, t, j);
      }
    case Select(a, b) =>
      StillOperand(f, g, s, n, 0, r, d, t, j);
      StillOperand(f, g, s, n, 1, r, d, t, j);
    case Gep(p, allZero) =>
      StillOperand(f, g, s, n, 0, r, d, t, j);
      StillRequired(f, g, s, n, 0);
      assert !Moves(f, g.target[g.requirements[n][0]]);
      assert !MovingGep(f, i, r.path[t]);
    case BitCast(p) => StillOperand(f, g, s, n, 0, r, d, t, j);
    case ExtractValue(agg, k) =>
      assert g.target[n].v == Instr(i);
      StillOperand(f, g, s, n, 0, r, d, t, k);
    case InsertValue(agg, elem, k, pointer) =>
      StillOperand(f, g, s, n, 0, r, d, t, j);
      if pointer {
        StillOperand(f, g, s, n, 1, r, d, t, 0);
      }
  }

  /** An operand is unmoved when its user executes. */
  lemma {:induction false} StillOperand(f: Func, g: Nodes, s: set<NodeId>, n: NodeId, k: nat, r: Run,
                                        d: Displacements, t: nat, j: Component)
    requires Still(f, g, s) && n in s && g.target[n].v.Instr? && g.target[n].v.i < |f.insts|
    requires TargetOk(f, g.target[n]) && k < |Expected(f, g.target[n])|
    requires !f.insts[g.target[n].v.i].op.Phi? && !f.insts[g.target[n].v.i].op.Def?
    requires IsDispRun(f, r, d) && t < |r.path| && r.path[t] == f.insts[g.target[n].v.i].at
    requires j in Indices(ShapeOf(f, Expected(f, g.target[n])[k].v))
    ensures d[t](Expected(f, g.target[n])[k].v, j) == 0
    decreases t, 2
  {
    var x := Expected(f, g.target[n])[k];
    assert NodeOk(f, g, n, false);
    StillRequired(f, g, s, n, k);
    OperandOk(f, g.target[n], k);
    NoDisplacement(f, g, s, g.requirements[n][k], r, d, t, j);
    assert DispStep(f, r, d, t) && !Executes(f, x.v, r.path[t]);
  }

  lemma {:induction false} StillPhi(f: Func, g: Nodes, s: set<NodeId>, n: NodeId, r: Run, d: Displacements, t: nat,
                                    j: Component)
    requires Still(f, g, s) && n in s && IsPhiTarget(f, g.target[n])
    requires IsDispRun(f, r, d) && t < |r.path| && r.path[t] == f.insts[g.target[n].v.i].at
    requires j in Indices(ShapeOf(f, g.target[n].v))
    ensures d[t + 1](g.target[n].v, j) == 0
    decreases t, 0
  {
    var i := g.target[n].v.i;
    assert NodeOk(f, g, n, false);
    assert DispStep(f, r, d, t) && DispEffect(f, r, d, t, i, j);
    var k := EnteredFrom(f, r, t, i);
    StillRequired(f, g, s, n, k);
    NoDisplacement(f, g, s, g.requirements[n][k], r, d, t - 1, j);
  }

  // ---------------------------------------------------------------- why dropping is justified

  /** No value that n's pointer may be derived from is a constant moved by its own expression. */
  ghost predicate PlainBelow(g: Nodes, n: NodeId)
    requires Shaped(g)
  {
    forall x: NodeId {:trigger Reaches(g, n, x)} :: Reaches(g, n, x) ==>
      g.Has(x) && (g.target[x].CallInvariant? || PlainValue(g.target[x].v))
  }

  ghost function ReachSet(g: Nodes, n: NodeId): set<NodeId>
    requires Shaped(g)
  {
    set x: NodeId | 0 <= x < |g.target| && Reaches(g, n, x)
  }

  /** The targets of an external node's requirements, and of theirs, have an instrumentee. */
  lemma {:induction false} ReachSetStill(f: Func, g: Nodes, n: NodeId)
    requires WellFormed(f) && Complete(f, g) && g.Has(n) && !g.target[n].CallInvariant?
    requires Unmoved(f, g, n) && PlainBelow(g, n)
    ensures Still(f, g, ReachSet(g, n)) && n in ReachSet(g, n)
  {
    var s := ReachSet(g, n);
    ReachesSelf(g, n);
    forall x | x in s
      ensures g.Has(x) && !g.target[x].CallInvariant? && forall y :: y in g.requirements[x] ==> y in s
    {
      ReachedHasInstrumentee(f, g, n, x);
      forall y | y in g.requirements[x]
        ensures y in s
      {
        assert Edge(g, x, y);
        ReachesThen(g, n, x, y);
      }
    }
  }

  lemma {:induction false} ReachedHasInstrumentee(f: Func, g: Nodes, n: NodeId, x: NodeId)
    requires Complete(f, g) && g.Has(n) && !g.target[n].CallInvariant? && Reaches(g, n, x)
    ensures g.Has(x) && !g.target[x].CallInvariant?
  {
    var c :| Walk(g, c) && c[0] == n && c[|c| - 1] == x;
    if |c| > 1 {
      var y := c[|c| - 2];
      assert Edge(g, y, x) && NodeOk(f, g, y, false);
      var k :| 0 <= k < |g.requirements[y]| && g.requirements[y][k] == x;
      assert g.target[x] == Expected(f, g.target[y])[k];
    }
  }

  /** An invariant that is dropped guards a pointer that equals the source pointer it was derived
      from, in every run. */
  lemma {:induction false} DroppedIsUnmoved(f: Func, g: Nodes, n: NodeId, r: Run, d: Displacements, t: nat,
                                            j: Component)
    requires WellFormed(f) && Complete(f, g) && Droppable(f, g, n) && !g.target[n].CallInvariant?
    requires PlainBelow(g, n)
    requires IsDispRun(f, r, d) && t < |r.path| && r.path[t] == g.target[n].loc
    requires j in Indices(ShapeOf(f, g.target[n].v))
    ensures d[t + 1](g.target[n].v, j) == 0
  {
    ReachSetStill(f, g, n);
    NoDisplacement(f, g, ReachSet(g, n), n, r, d, t, j);
  }

  /** Size checks, checks of called pointers, and plain requests for bounds are never dropped; what is
      dropped requires nothing located at an address computation with a non-zero index. */
  lemma {:induction false} DroppableIff(f: Func, g: Nodes, n: NodeId)
    requires Shaped(g) && g.Has(n)
    ensures
      Droppable(f, g, n) <==>
      && (match g.target[n]
          case ArgInvariant(_, _, _) => true
          case ValInvariant(_, _) => true
          case CallInvariant(_, _) => true
          case _ => false)
      && forall x: NodeId {:trigger Reaches(g, n, x)} :: Reaches(g, n, x) ==>
           g.Has(x) && (g.target[x].Source? || NothingMovesAt(f, g.target[x].loc))
  {
    forall x: NodeId | g.Has(x)
      ensures Moves(f, g.target[x]) <==> !(g.target[x].Source? || NothingMovesAt(f, g.target[x].loc))
    {
      if i :| 0 <= i < |f.insts| && !StaysAt(f, i, g.target[x].loc) {
        assert MovingGep(f, i, g.target[x].loc);
      }
      if i :| 0 <= i < |f.insts| && MovingGep(f, i, g.target[x].loc) {
        assert !StaysAt(f, i, g.target[x].loc);
      }
    }
  }

  ghost predicate NothingMovesAt(f: Func, q: Point) {
    forall i {:trigger StaysAt(f, i, q)} :: 0 <= i < |f.insts| ==> StaysAt(f, i, q)
  }

  ghost predicate StaysAt(f: Func, i: nat, q: Point)
    requires i < |f.insts|
  {
    f.insts[i].at != q || match f.insts[i].op case Gep(_, allZero) => allZero case _ => true
  }

  /** Where the address of a pointer is within bounds when it is created, the check of a dropped target
      would have passed: all the bytes it covers, at the address its pointer has, are within these bounds. */
  lemma {:induction false} DroppedPasses(f: Func, g: Nodes, n: NodeId, r: Run, start: Origin -> int, a: seq<State>,
                                         lower: Origin -> int, upper: Origin -> int, num: Value -> nat, t: nat,
                                         j: Component)
    requires WellFormed(f) && Complete(f, g) && Droppable(f, g, n) && !g.target[n].CallInvariant?
    requires PlainBelow(g, n) && j in Indices(ShapeOf(f, g.target[n].v))
    requires IsAddressRun(f, r, start, a) && t < |r.path| && r.path[t] == g.target[n].loc
    requires
      var o := r.ptr[t](g.target[n].v, j);
      lower(o) <= start(o) <= upper(o)
    ensures
      var o, p := r.ptr[t](g.target[n].v, j), a[t](g.target[n].v, j);
      lower(o) <= p && p + Width(g.target[n], num) <= upper(o)
  {
    var d, v := Distances(r, start, a), g.target[n].v;
    DistancesDisplace(f, r, start, a);
    DroppedIsUnmoved(f, g, n, r, d, t, j);
    assert NodeOk(f, g, n, false) && Step(f, r, t) && AddressStep(f, r, start, a, t);
    assert Available(f, v, r.path[t]) && !Executes(f, v, r.path[t]);
  }

  /** Without the condition on constants the claim fails: an address computation inside a constant
      is looked through when the graph is built, and no location shows it. */
  lemma {:induction false} MovedConstantIsDropped(g: Nodes, n: NodeId, offset: int)
    requires Complete(Func(0, {(0, 1)}, []), g) && g.Has(n)
    requires g.target[n] == ValInvariant(Constant(GepExpr(Global(0), offset)), 1) && offset != 0
    ensures Droppable(Func(0, {(0, 1)}, []), g, n) && !PlainBelow(g, n)
    ensures exists r: Run, d: Displacements :: IsDispRun(Func(0, {(0, 1)}, []), r, d)
                           && |r.path| == 2 && r.path[1] == g.target[n].loc
                           && d[2](g.target[n].v, 0) == offset
  {
    var f := Func(0, {(0, 1)}, []);
    forall x: NodeId | Reaches(g, n, x)
      ensures g.Has(x) && !Moves(f, g.target[x])
    {
      ReachedHasInstrumentee(f, g, n, x);
    }
    assert Offset(Global(0)) == 0 && !PlainValue(g.target[n].v);
    ReachesSelf(g, n);
    RunWithConstant(Constant(GepExpr(Global(0), offset)), offset);
  }

  lemma {:induction false} RunWithConstant(v: Value, offset: int)
    requires v == Constant(GepExpr(Global(0), offset))
    ensures exists r: Run, d: Displacements :: IsDispRun(Func(0, {(0, 1)}, []), r, d)
                           && |r.path| == 2 && r.path[1] == 1 && d[2](v, 0) == offset
  {
    var f := Func(0, {(0, 1)}, []);
    var still: (Value, Component) -> Origin := (_, _) => 0;
    var moved := Initially();
    var r := Run([0, 1], [still, still, still], [_ => true, _ => true]);
    var d := [moved, moved, moved];
    assert IsRun(f, r) && Offset(Global(0)) == 0;
    assert IsDispRun(f, r, d) && d[2](v, 0) == offset;
  }
}

/** Exactly when dropping an invariant is justified: unless its pointer may come from a constant
    that computes an address. */
module MovedConstants {
  import opened Ssa
  import opened Targets
  import opened WitnessGraphs
  import opened Walks
  import opened Displacement
  import opened Unchanged

  /** The run along p reaches q last, and v is displaced once q has executed. */
  ghost predicate DisplacedAt(f: Func, p: seq<Point>, c: seq<Choice>, q: Point, v: Value) {
    |c| == |p| && PathTo(f, p, q) && States(f, p, c)[|p|](v, 0) != 0
  }

  // ---------------------------------------------------------------- extending a path

  ghost function AnyChoices(n: nat): (c: seq<Choice>)
    ensures |c| == n
  {
    if n == 0 then [] else AnyChoices(n - 1) + [Choice(_ => true, 0)]
  }

  /** Points that do not define v leave it as it is. */
  lemma {:induction false} KeepsValue(f: Func, p: seq<Point>, c: seq<Choice>, n: nat, m: nat, v: Value)
    requires |c| == |p| && n <= m <= |p| && forall k :: n <= k < m ==> !Executes(f, v, p[k])
    ensures States(f, p, c)[m](v, 0) == States(f, p, c)[n](v, 0)
    decreases m
  {
    if n < m {
      KeepsValue(f, p, c, n, m - 1, v);
      StatesStep(f, p, c, m - 1);
    }
  }

  lemma {:induction false} AppendKeeps(f: Func, p: seq<Point>, c: seq<Choice>, u: seq<Point>,
                                       e: seq<Choice>, v: Value)
    requires |c| == |p| && |e| == |u| && forall k :: 0 <= k < |u| ==> !Executes(f, v, u[k])
    ensures States(f, p + u, c + e)[|p| + |u|](v, 0) == States(f, p, c)[|p|](v, 0)
  {
    assert (p + u)[..|p|] == p && (c + e)[..|p|] == c;
    StatesPrefix(f, p + u, c + e, |p|);
    assert States(f, p, c)[|p|] == States(f, p + u, c + e)[..|p| + 1][|p|];
    KeepsValue(f, p + u, c + e, |p|, |p| + |u|, v);
  }

  /** A displaced definition is still displaced at every reachable point it strictly dominates. */
  lemma {:induction false} DisplacedLater(f: Func, p: seq<Point>, c: seq<Choice>, q: Point, i: nat, l: Point)
    returns (p': seq<Point>, c': seq<Choice>)
    requires DisplacedAt(f, p, c, q, Instr(i)) && i < |f.insts| && f.insts[i].at == q
    requires StrictDom(f, q, l) && Reachable(f, l)
    ensures DisplacedAt(f, p', c', l, Instr(i))
  {
    var s :| PathTo(f, s, l);
    var k := |s| - 1;
    while s[k] != q
      invariant 0 <= k < |s| && forall m :: k < m < |s| ==> s[m] != q
      decreases k
    {
      assert q in s;
      k := k - 1;
    }
    var u := s[k + 1..];
    p', c' := p + u, c + AnyChoices(|u|);
    forall m {:trigger Hop(f, p', m)} | 0 <= m < |p'| - 1
      ensures Hop(f, p', m)
    {
      if m < |p| - 1 {
        assert Hop(f, p, m);
      } else {
        assert Hop(f, s, m - |p| + k + 1);
      }
    }
    AppendKeeps(f, p, c, u, AnyChoices(|u|), Instr(i));
  }

  lemma {:induction false} LeafKeeps(f: Func, p: seq<Point>, c: seq<Choice>, v: Value)
    requires |c| == |p| && !v.Instr?
    ensures States(f, p, c)[|p|](v, 0) == Initially()(v, 0)
  {
    AppendKeeps(f, [], [], p, c, v);
    assert [] + p == p && [] + c == c;
  }

  // ---------------------------------------------------------------- along a requirement

  /** Entering a phi with a displaced operand displaces it. */
  lemma {:induction false} DisplacedPhi(f: Func, p: seq<Point>, c: seq<Choice>, i: nat, k: nat)
    returns (p': seq<Point>, c': seq<Choice>)
    requires WellFormed(f) && i < |f.insts| && f.insts[i].op.Phi? && k < |f.insts[i].op.incoming|
    requires DisplacedAt(f, p, c, f.insts[i].op.incoming[k].from, f.insts[i].op.incoming[k].value)
    ensures DisplacedAt(f, p', c', f.insts[i].at, Instr(i))
  {
    var q := f.insts[i].at;
    assert InstOk(f, i);
    p', c' := p + [q], c + [Choice(_ => true, 0)];
    PathAppend(f, p, q);
    assert p'[..|p|] == p && c'[..|p|] == c;
    EnteredOperand(f, p', |p|, i);
    StatesPrefix(f, p', c', |p|);
    StatesStep(f, p', c', |p|);
    ExecutedOutcome(f, q, p[|p| - 1], c'[|p|], States(f, p', c')[|p|], i, 0);
  }

  /** An instruction with a displaced operand is displaced; a select, if it selects it. */
  lemma {:induction false} DisplacedUser(f: Func, p: seq<Point>, c: seq<Choice>, i: nat, v: Value)
    returns (c': seq<Choice>)
    requires i < |f.insts| && Available(f, v, f.insts[i].at) && DisplacedAt(f, p, c, f.insts[i].at, v)
    requires
      match f.insts[i].op
      case Select(a, b) => v == a || v == b
      case Gep(w, _) => v == w
      case BitCast(w) => v == w
      case _ => false
    ensures DisplacedAt(f, p, c', f.insts[i].at, Instr(i))
  {
    var n, q := |p| - 1, f.insts[i].at;
    var first := f.insts[i].op.Select? && v == f.insts[i].op.onTrue;
    c' := c[..n] + [Choice(_ => first, 0)];
    assert c'[..n] == c[..n];
    StatesPrefix(f, p, c, n);
    StatesPrefix(f, p, c', n);
    assert States(f, p, c)[n] == States(f, p, c)[..n + 1][n];
    assert States(f, p, c')[n] == States(f, p, c')[..n + 1][n];
    StatesStep(f, p, c, n);
    StatesStep(f, p, c', n);
    assert !Executes(f, v, q);
    ExecutedOutcome(f, q, Before(p, n), c'[n], States(f, p, c')[n], i, 0);
  }

  // ---------------------------------------------------------------- along a walk

  /** All values n's pointer may be derived from are pointers themselves. */
  ghost predicate ScalarsBelow(f: Func, g: Nodes, n: NodeId)
    requires Shaped(g)
  {
    forall x: NodeId {:trigger Reaches(g, n, x)} :: Reaches(g, n, x) ==> g.Has(x) && ScalarTarget(f, g.target[x])
  }

  ghost predicate ScalarTarget(f: Func, t: Target) {
    !t.CallInvariant? && ShapeOf(f, t.v).Pointer?
  }

  lemma {:induction false} BaseIsPlain(c: Const)
    requires ConstBase(c) == c
    ensures Offset(c) == 0
  {
    match c
    case GepExpr(base, _) => BaseSmaller(base, c);
    case BitCastExpr(base) => BaseSmaller(base, c);
    case _ =>
  }

  lemma {:induction false} BaseSmaller(base: Const, c: Const)
    requires base < c
    ensures ConstBase(base) != c
  {
    match base
    case GepExpr(b, _) => BaseSmaller(b, c);
    case BitCastExpr(b) => BaseSmaller(b, c);
    case _ =>
  }

  lemma {:induction false} SourceIsPlain(f: Func, g: Nodes, n: NodeId)
    requires Complete(f, g) && g.Has(n) && g.target[n].Source?
    ensures g.requirements[n] == [] && PlainValue(g.target[n].v)
  {
    assert NodeOk(f, g, n, false);
    if g.target[n].v.Constant? {
      BaseIsPlain(g.target[n].v.c);
    }
  }

  /** If a walk leads from n to a node that some run displaces, some run displaces n. */
  lemma {:induction false} DisplacedAlong(f: Func, g: Nodes, w: seq<NodeId>, p0: seq<Point>, c0: seq<Choice>)
    returns (p: seq<Point>, c: seq<Choice>)
    requires WellFormed(f) && Complete(f, g) && Walk(g, w)
    requires forall k :: 0 <= k < |w| ==> ScalarTarget(f, g.target[w[k]])
    requires ScalarTarget(f, g.target[w[0]])
    requires ScalarTarget(f, g.target[w[|w| - 1]]) && !g.target[w[|w| - 1]].Source?
    requires DisplacedAt(f, p0, c0, g.target[w[|w| - 1]].loc, g.target[w[|w| - 1]].v)
    ensures DisplacedAt(f, p, c, g.target[w[0]].loc, g.target[w[0]].v)
    decreases |w|
  {
    if |w| == 1 {
      p, c := p0, c0;
    } else {
      var n, m := w[0], w[1];
      assert Edge(g, n, m);
      forall k | 0 <= k < |w[1..]| - 1
        ensures Edge(g, w[1..][k], w[1..][k + 1])
      {
        assert Edge(g, w[k + 1], w[k + 2]);
      }
      assert |w| > 2 ==> Edge(g, w[1], w[2]);
      if g.target[m].Source? {
        SourceIsPlain(f, g, m);
      }
      p, c := DisplacedAlong(f, g, w[1..], p0, c0);
      p, c := DisplacedRequiring(f, g, n, m, p, c);
    }
  }

  /** Along any path, a constant that computes an address is displaced from the beginning. */
  lemma {:induction false} DisplacedConstant(f: Func, t: Target) returns (p: seq<Point>, c: seq<Choice>)
    requires TargetOk(f, t) && !t.CallInvariant? && !PlainValue(t.v)
    ensures DisplacedAt(f, p, c, t.loc, t.v)
  {
    p :| PathTo(f, p, t.loc);
    c := AnyChoices(|p|);
    LeafKeeps(f, p, c, t.v);
  }

  lemma {:induction false} DisplacedRequiring(f: Func, g: Nodes, n: NodeId, m: NodeId, p: seq<Point>,
                                              c: seq<Choice>)
    returns (p': seq<Point>, c': seq<Choice>)
    requires WellFormed(f) && Complete(f, g) && Edge(g, n, m) && g.Has(m)
    requires ScalarTarget(f, g.target[n]) && ScalarTarget(f, g.target[m]) && !g.target[m].Source?
    requires DisplacedAt(f, p, c, g.target[m].loc, g.target[m].v)
    ensures DisplacedAt(f, p', c', g.target[n].loc, g.target[n].v)
  {
    var t := g.target[n];
    assert NodeOk(f, g, n, false);
    var k :| 0 <= k < |g.requirements[n]| && g.requirements[n][k] == m;
    assert g.target[m] == Expected(f, t)[k];
    var i := t.v.i;
    assert InstOk(f, i);
    if IsPhiTarget(f, t) {
      p', c' := DisplacedPhi(f, p, c, i, k);
    } else {
      var mid := c;
      if !f.insts[i].op.Phi? {
        OperandOk(f, t, k);
        mid := DisplacedUser(f, p, c, i, g.target[m].v);
      }
      p', c' := DisplacedLater(f, p, mid, f.insts[i].at, i, t.loc);
    }
  }

  // ---------------------------------------------------------------- the exact condition

  /** In every run, whenever the target's location is reached, its pointer equals the source
      pointer it was derived from. */
  ghost predicate NeverMoved(f: Func, t: Target)
    requires !t.CallInvariant?
  {
    forall r: Run, d: Displacements, k: nat :: IsDispRun(f, r, d) && k < |r.path| && r.path[k] == t.loc ==>
      d[k + 1](t.v, 0) == 0
  }

  lemma {:induction false} DisplacedMoves(f: Func, t: Target, p: seq<Point>, c: seq<Choice>)
    requires WellFormed(f) && !t.CallInvariant? && DisplacedAt(f, p, c, t.loc, t.v)
    ensures !NeverMoved(f, t)
  {
    RunExists(f, p, c);
    assert RunOf(p, c).path[|p| - 1] == t.loc && States(f, p, c)[|p| - 1 + 1](t.v, 0) != 0;
  }

  /** Among scalar pointers, the invariants that are dropped may be dropped exactly if their
      pointers cannot come from a constant that computes an address. */
  lemma {:induction false} DropJustifiedIff(f: Func, g: Nodes, n: NodeId)
    requires WellFormed(f) && Complete(f, g) && Droppable(f, g, n) && !g.target[n].CallInvariant?
    requires ScalarsBelow(f, g, n)
    ensures NeverMoved(f, g.target[n]) <==> PlainBelow(g, n)
  {
    ReachesSelf(g, n);
    var t := g.target[n];
    if PlainBelow(g, n) {
      forall r: Run, d: Displacements, k: nat | IsDispRun(f, r, d) && 0 <= k < |r.path| && r.path[k] == t.loc
        ensures d[k + 1](t.v, 0) == 0
      {
        DroppedIsUnmoved(f, g, n, r, d, k, 0);
      }
    } else {
      var x: NodeId :| Reaches(g, n, x) && !(g.Has(x) && (g.target[x].CallInvariant? || PlainValue(g.target[x].v)));
      var w :| Walk(g, w) && w[0] == n && w[|w| - 1] == x;
      forall k | 0 <= k < |w|
        ensures ScalarTarget(f, g.target[w[k]])
      {
        WalkPrefixReaches(g, w, k);
      }
      assert NodeOk(f, g, x, false);
      if g.target[x].Source? {
        SourceIsPlain(f, g, x);
      }
      var p, c := DisplacedConstant(f, g.target[x]);
      p, c := DisplacedAlong(f, g, w, p, c);
      DisplacedMoves(f, t, p, c);
    }
  }

  lemma {:induction false} WalkPrefixReaches(g: Nodes, w: seq<NodeId>, k: nat)
    requires Shaped(g) && Walk(g, w) && k < |w|
    ensures Reaches(g, w[0], w[k])
  {
    var v := w[..k + 1];
    forall l | 0 <= l < |v| - 1
      ensures Edge(g, v[l], v[l + 1])
    {
      assert Edge(g, w[l], w[l + 1]);
    }
    assert Walk(g, v);
  }

  // ---------------------------------------------------------------- the search is exact

  /** As in any program: apart from the phis of a block, each instruction has a place of its own, and a block
      does not end in an address computation. */
  ghost predicate Separate(f: Func) {
    && (forall i, l {:trigger Apart(f, i, l)} :: 0 <= i < |f.insts| && 0 <= l < |f.insts| ==> Apart(f, i, l))
    && forall i, k, l {:trigger EndsApart(f, i, k, l)} ::
         0 <= i < |f.insts| && f.insts[i].op.Phi? && 0 <= k < |f.insts[i].op.incoming| && 0 <= l < |f.insts| ==>
         EndsApart(f, i, k, l)
  }

  ghost predicate Apart(f: Func, i: nat, l: nat)
    requires i < |f.insts| && l < |f.insts|
  {
    f.insts[i].at == f.insts[l].at ==> i == l || f.insts[i].op.Phi?
  }

  ghost predicate EndsApart(f: Func, i: nat, k: nat, l: nat)
    requires i < |f.insts| && f.insts[i].op.Phi? && k < |f.insts[i].op.incoming| && l < |f.insts|
  {
    f.insts[l].at == f.insts[i].op.incoming[k].from ==> !f.insts[l].op.Gep?
  }

  lemma {:induction false} NoGepAtEnd(f: Func, i: nat, k: nat, l: nat)
    requires Separate(f) && i < |f.insts| && f.insts[i].op.Phi? && k < |f.insts[i].op.incoming| && l < |f.insts|
    ensures !MovingGep(f, l, f.insts[i].op.incoming[k].from)
  {
    assert EndsApart(f, i, k, l);
  }

  /** A required node is located at an address computation only for the value of this computation. */
  lemma {:induction false} RequiresAtGep(f: Func, g: Nodes, y: NodeId, x: NodeId, i: nat)
    requires WellFormed(f) && Complete(f, g) && Separate(f) && Edge(g, y, x) && g.Has(x)
    requires ScalarTarget(f, g.target[y]) && !g.target[x].Source? && i < |f.insts|
    requires MovingGep(f, i, g.target[x].loc)
    ensures g.target[y].v == Instr(i) && !g.target[y].Source? && !IsPhiTarget(f, g.target[y])
  {
    var t := g.target[y];
    assert NodeOk(f, g, y, false);
    var k :| 0 <= k < |g.requirements[y]| && g.requirements[y][k] == x;
    assert g.target[x] == Expected(f, t)[k];
    var l := t.v.i;
    assert InstOk(f, l) && InstOk(f, i);
    if IsPhiTarget(f, t) {
      NoGepAtEnd(f, l, k, i);
    }
    assert f.insts[l].op.Phi? ==> PhiAt(f, f.insts[l].at, l);
    if !f.insts[l].op.Phi? {
      OperandOk(f, t, k);
      assert Apart(f, l, i);
    }
  }

  /** An address computation with a non-zero index can move its pointer. */
  lemma {:induction false} GepDisplaces(f: Func, i: nat) returns (p: seq<Point>, c: seq<Choice>)
    requires WellFormed(f) && i < |f.insts| && MovingGep(f, i, f.insts[i].at)
    ensures DisplacedAt(f, p, c, f.insts[i].at, Instr(i))
  {
    var q := f.insts[i].at;
    assert InstOk(f, i);
    p :| PathTo(f, p, q);
    var n := |p| - 1;
    var before := AnyChoices(n);
    var s := States(f, p[..n], before)[n];
    c := before + [Choice(_ => true, 1 - s(f.insts[i].op.ptr, 0))];
    assert c[..n] == before;
    StatesPrefix(f, p, c, n);
    assert States(f, p, c)[n] == States(f, p, c)[..n + 1][n];
    StatesStep(f, p, c, n);
    ExecutedOutcome(f, q, Before(p, n), c[n], States(f, p, c)[n], i, 0);
  }

  /** If a node below n is located at such an address computation, some run moves n's pointer. */
  lemma {:induction false} MovedAlong(f: Func, g: Nodes, n: NodeId, x: NodeId)
    requires WellFormed(f) && Complete(f, g) && Separate(f) && ScalarsBelow(f, g, n) && g.Has(n)
    requires !g.target[n].CallInvariant? && !Moves(f, g.target[n])
    requires Reaches(g, n, x) && g.Has(x) && Moves(f, g.target[x])
    ensures !NeverMoved(f, g.target[n])
  {
    var w :| Walk(g, w) && w[0] == n && w[|w| - 1] == x;
    var m := |w| - 2;
    var y := w[m];
    assert Edge(g, y, x);
    forall k | 0 <= k < |w|
      ensures ScalarTarget(f, g.target[w[k]])
    {
      WalkPrefixReaches(g, w, k);
    }
    var i :| 0 <= i < |f.insts| && MovingGep(f, i, g.target[x].loc);
    RequiresAtGep(f, g, y, x, i);
    var p, c := GepDisplaces(f, i);
    assert NodeOk(f, g, y, false);
    p, c := DisplacedLater(f, p, c, f.insts[i].at, i, g.target[y].loc);
    var u := w[..m + 1];
    forall k | 0 <= k < |u| - 1
      ensures Edge(g, u[k], u[k + 1])
    {
      assert Edge(g, w[k], w[k + 1]);
    }
    p, c := DisplacedAlong(f, g, u, p, c);
    DisplacedMoves(f, g.target[n], p, c);
  }

  /** Among scalar pointers, the search drops exactly the invariants whose pointers equal their source pointers in
      every run, and those of which only constants that compute an address could differ. */
  lemma {:induction false} DroppedIffNeverMoved(f: Func, g: Nodes, n: NodeId)
    requires WellFormed(f) && Complete(f, g) && Separate(f) && g.Has(n) && ScalarsBelow(f, g, n)
    requires g.target[n].ArgInvariant? || g.target[n].ValInvariant?
    requires !Moves(f, g.target[n])
    ensures NeverMoved(f, g.target[n]) <==> Droppable(f, g, n) && PlainBelow(g, n)
  {
    if Unmoved(f, g, n) {
      DropJustifiedIff(f, g, n);
    } else {
      var x: NodeId :| Reaches(g, n, x) && !(g.Has(x) && !Moves(f, g.target[x]));
      MovedAlong(f, g, n, x);
    }
  }
}

/** SSA functions, their runs, and equalities of pointer provenance at program points.

    A function is a control-flow graph over instruction positions ("points"); straight-line
    code is a chain of points, and all phis of a block share the point at its head. */
module Ssa {
  import opened AscendingLists

  type Point = nat

  /** Index of a pointer inside a value: 0 for a pointer, the element index for an aggregate. */
  type Component = nat

  /** What a run-time pointer was derived from: one execution of an allocation, call, load, ... */
  type Origin = nat

  datatype Shape = Pointer | Aggregate(pointers: seq<Component>)

  datatype Const =
    | Global(id: nat)
    | ConstData(id: nat)
    | IntToPtr(id: nat)
    | Undef(undefShape: Shape)
    | ConstAggregate(id: nat, aggShape: Shape)
    | GepExpr(base: Const, offset: int)
    | BitCastExpr(base: Const)

  datatype Value = Instr(i: nat) | Arg(a: nat) | Constant(c: Const)

  datatype Incoming = Incoming(value: Value, from: Point)

  datatype Op =
    | Def(next: Point)  // alloca, call, load, landingpad, inttoptr; `next` is the next instruction
    | Phi(incoming: seq<Incoming>)
    | Select(onTrue: Value, onFalse: Value)
    | Gep(ptr: Value, allZero: bool)
    | BitCast(ptr: Value)
    | ExtractValue(agg: Value, index: Component)
    | InsertValue(agg: Value, elem: Value, index: Component, pointer: bool)

  datatype Inst = Inst(op: Op, at: Point, shape: Shape)

  datatype Func = Func(entry: Point, edges: set<(Point, Point)>, insts: seq<Inst>)

  // ---------------------------------------------------------------- values

  /** The pointers of a value, in ascending order of their index. */
  function Indices(s: Shape): seq<Component> {
    if s.Pointer? then [0] else s.pointers
  }

  ghost predicate ShapeOk(s: Shape) {
    |Indices(s)| > 0 && Ascending(Indices(s))
  }

  function ConstShape(c: Const): Shape {
    match c
    case Undef(s) => s
    case ConstAggregate(_, s) => s
    case _ => Pointer
  }

  /** The pointer a constant expression is computed from. */
  function ConstBase(c: Const): Const {
    match c
    case GepExpr(base, _) => ConstBase(base)
    case BitCastExpr(base) => ConstBase(base)
    case _ => c
  }

  /** c computes its address from that of b. */
  ghost predicate ComputedFrom(c: Const, b: Const) {
    c == b || ((c.GepExpr? || c.BitCastExpr?) && ComputedFrom(c.base, b))
  }

  function ShapeOf(f: Func, v: Value): Shape {
    match v
    case Instr(i) => if i < |f.insts| then f.insts[i].shape else Pointer
    case Arg(_) => Pointer
    case Constant(c) => ConstShape(c)
  }

  ghost predicate ValueOk(f: Func, v: Value) {
    && (v.Instr? ==> v.i < |f.insts|)
    && (v.Constant? ==> ConstShape(ConstBase(v.c)) == ConstShape(v.c))
    && ShapeOk(ShapeOf(f, v))
  }

  // ---------------------------------------------------------------- paths and dominance

  ghost predicate Hop(f: Func, p: seq<Point>, k: nat)
    requires k + 1 < |p|
  {
    (p[k], p[k + 1]) in f.edges
  }

  ghost predicate Path(f: Func, p: seq<Point>) {
    && |p| > 0
    && p[0] == f.entry
    && forall k {:trigger Hop(f, p, k)} :: 0 <= k < |p| - 1 ==> Hop(f, p, k)
  }

  ghost predicate PathTo(f: Func, p: seq<Point>, q: Point) {
    Path(f, p) && p[|p| - 1] == q
  }

  ghost predicate Reachable(f: Func, q: Point) {
    exists p :: PathTo(f, p, q)
  }

  ghost predicate Dom(f: Func, a: Point, b: Point) {
    forall p {:trigger PathTo(f, p, b)} :: PathTo(f, p, b) ==> a in p
  }

  ghost predicate StrictDom(f: Func, a: Point, b: Point) {
    Dom(f, a, b) && a != b
  }

  /** The value is defined on every path to q, before q. */
  ghost predicate Available(f: Func, v: Value, q: Point) {
    v.Instr? ==> v.i < |f.insts| && StrictDom(f, f.insts[v.i].at, q)
  }

  /** As `Available`, but the definition may be q itself. */
  ghost predicate Defined(f: Func, v: Value, q: Point) {
    v.Instr? ==> v.i < |f.insts| && Dom(f, f.insts[v.i].at, q)
  }

  lemma {:induction false} PathPrefix(f: Func, p: seq<Point>, t: nat)
    requires Path(f, p) && t < |p|
    ensures PathTo(f, p[..t + 1], p[t])
  {
    forall k {:trigger Hop(f, p[..t + 1], k)} | 0 <= k < t
      ensures Hop(f, p[..t + 1], k)
    {
      assert Hop(f, p, k);
    }
  }

  lemma {:induction false} PathAppend(f: Func, p: seq<Point>, q: Point)
    requires Path(f, p) && (p[|p| - 1], q) in f.edges
    ensures PathTo(f, p + [q], q)
  {
    forall k {:trigger Hop(f, p + [q], k)} | 0 <= k < |p|
      ensures Hop(f, p + [q], k)
    {
      if k < |p| - 1 {
        assert Hop(f, p, k);
      }
    }
  }

  lemma {:induction false} DomRefl(f: Func, a: Point)
    ensures Dom(f, a, a)
  {
  }

  lemma {:induction false} DomEdge(f: Func, a: Point, p: Point, q: Point)
    requires Dom(f, a, q) && a != q && (p, q) in f.edges
    ensures Dom(f, a, p)
  {
    forall s | PathTo(f, s, p)
      ensures a in s
    {
      PathAppend(f, s, q);
    }
  }

  lemma {:induction false} DomTrans(f: Func, a: Point, b: Point, c: Point)
    requires Dom(f, a, b) && Dom(f, b, c)
    ensures Dom(f, a, c)
  {
    forall p | PathTo(f, p, c)
      ensures a in p
    {
      assert b in p;
      var k :| 0 <= k < |p| && p[k] == b;
      PathPrefix(f, p, k);
      assert a in p[..k + 1];
    }
  }

  lemma {:induction false} DomReachable(f: Func, a: Point, b: Point)
    requires Dom(f, a, b) && Reachable(f, b)
    ensures Reachable(f, a)
  {
    var p :| PathTo(f, p, b);
    var k :| 0 <= k < |p| && p[k] == a;
    PathPrefix(f, p, k);
  }

  /** Two distinct points cannot dominate each other: each path to one would contain a shorter
      path to the other. */
  lemma {:induction false} NoMutualDom(f: Func, a: Point, b: Point, p: seq<Point>)
    requires Dom(f, a, b) && Dom(f, b, a) && a != b
    requires PathTo(f, p, a)
    ensures false
    decreases |p|
  {
    var k :| 0 <= k < |p| && p[k] == b;
    PathPrefix(f, p, k);
    NoMutualDom(f, b, a, p[..k + 1]);
  }

  lemma {:induction false} DomAntisym(f: Func, a: Point, b: Point)
    requires Dom(f, a, b) && Dom(f, b, a) && Reachable(f, a)
    ensures a == b
  {
    if a != b {
      var p :| PathTo(f, p, a);
      NoMutualDom(f, a, b, p);
    }
  }

  lemma {:induction false} StrictDomTrans(f: Func, a: Point, b: Point, c: Point)
    requires Dom(f, a, b) && StrictDom(f, b, c) && Reachable(f, c)
    ensures StrictDom(f, a, c)
  {
    DomTrans(f, a, b, c);
    if a == c {
      DomAntisym(f, c, b);
    }
  }

  /** All points that can strictly dominate a definition; used only to order definitions. */
  ghost function DefPoints(f: Func): set<Point> {
    set i | 0 <= i < |f.insts| :: f.insts[i].at
  }

  ghost function StrictDominators(f: Func, q: Point): set<Point> {
    set a | a in DefPoints(f) && StrictDom(f, a, q)
  }

  lemma {:induction false} StrictDominatorsGrow(f: Func, a: Point, b: Point)
    requires StrictDom(f, a, b) && Reachable(f, b) && a in DefPoints(f)
    ensures StrictDominators(f, a) < StrictDominators(f, b)
  {
    DomReachable(f, a, b);
    forall d | d in StrictDominators(f, a)
      ensures d in StrictDominators(f, b)
    {
      StrictDomTrans(f, d, a, b);
    }
    assert a in StrictDominators(f, b) && a !in StrictDominators(f, a);
  }

  // ---------------------------------------------------------------- well-formed functions

  ghost predicate PhiAt(f: Func, q: Point, i: nat)
    requires i < |f.insts|
  {
    f.insts[i].at == q && f.insts[i].op.Phi?
  }

  ghost predicate PhiPoint(f: Func, q: Point) {
    exists i {:trigger PhiAt(f, q, i)} :: 0 <= i < |f.insts| && PhiAt(f, q, i)
  }

  /** A use of v at q: v is well-formed and defined strictly before q on every path. */
  ghost predicate UseOk(f: Func, v: Value, q: Point) {
    ValueOk(f, v) && Available(f, v, q)
  }

  ghost predicate PhiOk(f: Func, q: Point, shape: Shape, incoming: seq<Incoming>) {
    && |incoming| > 0
    && (forall k :: 0 <= k < |incoming| ==>
          && (incoming[k].from, q) in f.edges
          && Reachable(f, incoming[k].from)
          && !PhiPoint(f, incoming[k].from)
          && UseOk(f, incoming[k].value, incoming[k].from)
          && ShapeOf(f, incoming[k].value) == shape)
    && (forall p :: (p, q) in f.edges ==> exists k :: 0 <= k < |incoming| && incoming[k].from == p)
    && (forall k, l :: 0 <= k < l < |incoming| && incoming[k].from == incoming[l].from ==>
          incoming[k].value == incoming[l].value)
  }

  ghost predicate OpOk(f: Func, inst: Inst) {
    match inst.op
    case Def(next) =>
      && (inst.at, next) in f.edges
      && (forall p :: (p, next) in f.edges ==> p == inst.at)
      && (forall q :: (inst.at, q) in f.edges ==> q == next)
      && !PhiPoint(f, next)
    case Phi(incoming) => inst.at != f.entry && PhiOk(f, inst.at, inst.shape, incoming)
    case Select(a, b) =>
      && UseOk(f, a, inst.at) && ShapeOf(f, a) == inst.shape
      && UseOk(f, b, inst.at) && ShapeOf(f, b) == inst.shape
    case Gep(p, _) => UseOk(f, p, inst.at) && ShapeOf(f, p) == inst.shape == Pointer
    case BitCast(p) => UseOk(f, p, inst.at) && ShapeOf(f, p) == inst.shape == Pointer
    case ExtractValue(agg, k) =>
      && UseOk(f, agg, inst.at) && ShapeOf(f, agg).Aggregate?
      && k in Indices(ShapeOf(f, agg))
      && inst.shape == Pointer
    case InsertValue(agg, elem, k, pointer) =>
      && UseOk(f, agg, inst.at) && ShapeOf(f, agg) == inst.shape && inst.shape.Aggregate?
      && (k in Indices(inst.shape) <==> pointer)
      && (pointer ==> UseOk(f, elem, inst.at) && ShapeOf(f, elem) == Pointer)
  }

  ghost predicate InstOk(f: Func, i: nat)
    requires i < |f.insts|
  {
    && Reachable(f, f.insts[i].at)
    && ShapeOk(f.insts[i].shape)
    && (PhiPoint(f, f.insts[i].at) ==> f.insts[i].op.Phi?)
    && OpOk(f, f.insts[i])
  }

  /** Valid SSA without unreachable code, invoke, or nested aggregates. */
  ghost predicate WellFormed(f: Func) {
    && (forall p :: (p, f.entry) !in f.edges)
    && (forall i :: 0 <= i < |f.insts| ==> InstOk(f, i))
  }

  lemma {:induction false} HasPointers(f: Func, i: nat)
    requires WellFormed(f) && i < |f.insts|
    ensures ShapeOk(f.insts[i].shape)
  {
    assert InstOk(f, i);
  }

  // ---------------------------------------------------------------- runs

  /** ptr[t] gives, before point path[t] executes, the origin of every pointer in every value;
      cond[t] gives the conditions read by the selects that execute there. */
  datatype Run = Run(path: seq<Point>, ptr: seq<(Value, Component) -> Origin>, cond: seq<nat -> bool>)

  ghost predicate Effect(f: Func, r: Run, t: nat, i: nat, j: Component)
    requires t < |r.path| && |r.ptr| == |r.path| + 1 && |r.cond| == |r.path| && i < |f.insts|
  {
    var now, old_ := r.ptr[t + 1], r.ptr[t];
    match f.insts[i].op
    case Def(_) => true
    case Phi(incoming) =>
      t > 0 && forall k :: 0 <= k < |incoming| && incoming[k].from == r.path[t - 1] ==>
        now(Instr(i), j) == old_(incoming[k].value, j)
    case Select(a, b) => now(Instr(i), j) == old_(if r.cond[t](i) then a else b, j)
    case Gep(p, _) => now(Instr(i), j) == old_(p, j)
    case BitCast(p) => now(Instr(i), j) == old_(p, j)
    case ExtractValue(agg, k) => now(Instr(i), 0) == old_(agg, k)
    case InsertValue(agg, elem, k, pointer) =>
      now(Instr(i), j) == if pointer && j == k then old_(elem, 0) else old_(agg, j)
  }

  ghost predicate Executes(f: Func, v: Value, q: Point) {
    v.Instr? && v.i < |f.insts| && f.insts[v.i].at == q
  }

  ghost predicate Step(f: Func, r: Run, t: nat)
    requires t < |r.path| && |r.ptr| == |r.path| + 1 && |r.cond| == |r.path|
  {
    && (forall v, j :: !Executes(f, v, r.path[t]) ==> r.ptr[t + 1](v, j) == r.ptr[t](v, j))
    && (forall i, j :: 0 <= i < |f.insts| && f.insts[i].at == r.path[t] ==> Effect(f, r, t, i, j))
  }

  /** An address computed by a constant expression has the origin of the address it is computed from. */
  ghost predicate ConstantsOk(s: (Value, Component) -> Origin) {
    && (forall base, offset, j :: s(Constant(GepExpr(base, offset)), j) == s(Constant(base), j))
    && (forall base, j :: s(Constant(BitCastExpr(base)), j) == s(Constant(base), j))
  }

  ghost predicate IsRun(f: Func, r: Run) {
    && Path(f, r.path)
    && |r.ptr| == |r.path| + 1 && |r.cond| == |r.path|
    && ConstantsOk(r.ptr[0])
    && forall t :: 0 <= t < |r.path| ==> Step(f, r, t)
  }

  lemma {:induction false} DomOnRun(f: Func, r: Run, t: nat, q: Point)
    requires IsRun(f, r) && t < |r.path| && Dom(f, q, r.path[t])
    ensures q in r.path[..t + 1]
    ensures Reachable(f, r.path[t])
    ensures q != r.path[t] ==> t > 0 && Dom(f, q, r.path[t - 1])
  {
    PathPrefix(f, r.path, t);
    if q != r.path[t] {
      assert t > 0 by {
        assert q in r.path[..t + 1];
      }
      assert Hop(f, r.path, t - 1);
      DomEdge(f, q, r.path[t - 1], r.path[t]);
    }
  }

  /** A definition that lies before q on every path does not execute again between q and a
      point dominated by q. */
  lemma {:induction false} NotExecuted(f: Func, r: Run, t: nat, q: Point, v: Value)
    requires IsRun(f, r) && t < |r.path| && Dom(f, q, r.path[t])
    requires q != r.path[t]
    requires Defined(f, v, q)
    ensures !Executes(f, v, r.path[t])
  {
    if Executes(f, v, r.path[t]) {
      DomOnRun(f, r, t, q);
      DomAntisym(f, r.path[t], q);
    }
  }

  // ---------------------------------------------------------------- provenance equalities

  /** Right after q executes, pointer j of v has the same origin as pointer k of w, in every run. */
  ghost predicate SameOrigin(f: Func, q: Point, v: Value, j: Component, w: Value, k: Component) {
    forall r, t :: IsRun(f, r) && 0 <= t < |r.path| && r.path[t] == q ==>
      r.ptr[t + 1](v, j) == r.ptr[t + 1](w, k)
  }

  /** An equality that holds whenever q executes still holds at every later point q dominates. */
  lemma {:induction false} EqualityPersists(f: Func, q: Point, v: Value, j: Component, w: Value, k: Component, r: Run,
                                            t: nat)
    requires IsRun(f, r) && t < |r.path| && Dom(f, q, r.path[t])
    requires forall s :: 0 <= s <= t && r.path[s] == q ==> r.ptr[s + 1](v, j) == r.ptr[s + 1](w, k)
    requires Defined(f, v, q) && Defined(f, w, q)
    ensures r.ptr[t + 1](v, j) == r.ptr[t + 1](w, k)
    decreases t
  {
    if r.path[t] != q {
      DomOnRun(f, r, t, q);
      EqualityPersists(f, q, v, j, w, k, r, t - 1);
      NotExecuted(f, r, t, q, v);
      NotExecuted(f, r, t, q, w);
      assert Step(f, r, t);
    }
  }

  lemma {:induction false} SameOriginPersists(f: Func, q: Point, l: Point, v: Value, j: Component, w: Value,
                                              k: Component)
    requires SameOrigin(f, q, v, j, w, k)
    requires Defined(f, v, q) && Defined(f, w, q) && Dom(f, q, l)
    ensures SameOrigin(f, l, v, j, w, k)
  {
    forall r, t | IsRun(f, r) && 0 <= t < |r.path| && r.path[t] == l
      ensures r.ptr[t + 1](v, j) == r.ptr[t + 1](w, k)
    {
      EqualityPersists(f, q, v, j, w, k, r, t);
    }
  }

  lemma {:induction false} SameOriginTrans(f: Func, q: Point, a: Value, i: Component, b: Value, j: Component,
                                           c: Value, k: Component)
    requires SameOrigin(f, q, a, i, b, j) && SameOrigin(f, q, b, j, c, k)
    ensures SameOrigin(f, q, a, i, c, k)
  {
  }

  /** The pointer that pointer j of an instruction merely forwards, if it is a forwarding one. */
  function Forwards(f: Func, i: nat, j: Component): (Value, Component)
    requires i < |f.insts|
    requires f.insts[i].op.Gep? || f.insts[i].op.BitCast? || f.insts[i].op.ExtractValue? || f.insts[i].op.InsertValue?
             || (f.insts[i].op.Phi? && |f.insts[i].op.incoming| == 1)
  {
    match f.insts[i].op
    case Gep(p, _) => (p, j)
    case BitCast(p) => (p, j)
    case ExtractValue(agg, k) => (agg, k)
    case InsertValue(agg, elem, k, pointer) => if pointer && j == k then (elem, 0) else (agg, j)
    case Phi(incoming) => (incoming[0].value, j)
  }

  /** The operand that belongs to the block a run enters a phi from. */
  lemma {:induction false} EnteredFrom(f: Func, r: Run, t: nat, i: nat) returns (k: nat)
    requires WellFormed(f) && i < |f.insts| && f.insts[i].op.Phi?
    requires IsRun(f, r) && t < |r.path| && r.path[t] == f.insts[i].at
    ensures t > 0 && k < |f.insts[i].op.incoming| && f.insts[i].op.incoming[k].from == r.path[t - 1]
    ensures ShapeOf(f, f.insts[i].op.incoming[k].value) == f.insts[i].shape
  {
    assert InstOk(f, i);
    assert Hop(f, r.path, t - 1);
    k :| 0 <= k < |f.insts[i].op.incoming| && f.insts[i].op.incoming[k].from == r.path[t - 1];
  }

  /** In a run, a phi takes over the value of one of its incoming edges. */
  lemma {:induction false} PhiTakes(f: Func, i: nat, r: Run, t: nat, j: Component) returns (k: nat)
    requires WellFormed(f) && i < |f.insts| && f.insts[i].op.Phi?
    requires IsRun(f, r) && t < |r.path| && r.path[t] == f.insts[i].at
    ensures t > 0 && k < |f.insts[i].op.incoming| && f.insts[i].op.incoming[k].from == r.path[t - 1]
    ensures r.ptr[t + 1](Instr(i), j) == r.ptr[t](f.insts[i].op.incoming[k].value, j)
  {
    assert Step(f, r, t) && Effect(f, r, t, i, j);
    k := EnteredFrom(f, r, t, i);
  }

  /** Casts, address computations, and aggregate accesses forward an origin unchanged. */
  lemma {:induction false} ForwardSameOrigin(f: Func, i: nat, j: Component)
    requires WellFormed(f) && i < |f.insts|
    requires f.insts[i].op.Gep? || f.insts[i].op.BitCast? || f.insts[i].op.ExtractValue? || f.insts[i].op.InsertValue?
    requires f.insts[i].op.ExtractValue? ==> j == 0
    ensures SameOrigin(f, f.insts[i].at, Instr(i), j, Forwards(f, i, j).0, Forwards(f, i, j).1)
  {
    var q := f.insts[i].at;
    var (v, k) := Forwards(f, i, j);
    assert InstOk(f, i);
    forall r, t | IsRun(f, r) && 0 <= t < |r.path| && r.path[t] == q
      ensures r.ptr[t + 1](Instr(i), j) == r.ptr[t + 1](v, k)
    {
      assert Step(f, r, t) && Effect(f, r, t, i, j);
      assert Available(f, v, q) && !Executes(f, v, q);
    }
  }

  /** A phi with one incoming value forwards it. */
  lemma {:induction false} SinglePhiSameOrigin(f: Func, i: nat, j: Component)
    requires WellFormed(f) && i < |f.insts|
    requires f.insts[i].op.Phi? && |f.insts[i].op.incoming| == 1
    ensures SameOrigin(f, f.insts[i].at, Instr(i), j, f.insts[i].op.incoming[0].value, j)
    ensures StrictDom(f, f.insts[i].op.incoming[0].from, f.insts[i].at)
    ensures Available(f, f.insts[i].op.incoming[0].value, f.insts[i].at)
  {
    var q, inc := f.insts[i].at, f.insts[i].op.incoming[0];
    assert InstOk(f, i);
    assert PhiAt(f, q, i);
    assert PhiPoint(f, q) && inc.from != q;
    forall p | PathTo(f, p, q)
      ensures inc.from in p
    {
      assert |p| > 1 && Hop(f, p, |p| - 2);
    }
    if inc.value.Instr? {
      StrictDomTrans(f, f.insts[inc.value.i].at, inc.from, q);
    }
    forall r, t | IsRun(f, r) && 0 <= t < |r.path| && r.path[t] == q
      ensures r.ptr[t + 1](Instr(i), j) == r.ptr[t + 1](inc.value, j)
    {
      assert Step(f, r, t) && Effect(f, r, t, i, j);
      assert Hop(f, r.path, t - 1);
      assert !Executes(f, inc.value, q);
    }
  }

  /** A constant expression has the origin of the pointer it is computed from, everywhere. */
  lemma {:induction false} ConstSameOrigin(f: Func, c: Const, j: Component, r: Run, t: nat)
    requires IsRun(f, r) && t <= |r.path|
    ensures r.ptr[t](Constant(c), j) == r.ptr[t](Constant(ConstBase(c)), j)
    decreases t, c
  {
    if t > 0 {
      ConstSameOrigin(f, c, j, r, t - 1);
      assert Step(f, r, t - 1);
    } else if c.GepExpr? || c.BitCastExpr? {
      ConstSameOrigin(f, c.base, j, r, 0);
    }
  }
}

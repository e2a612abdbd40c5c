/** How far pointers move from the pointers they are derived from, in runs. */
module Displacement {
  import opened Ssa

  /** How far each pointer has moved from its source. */
  type Displacements = seq<State>

  type State = (Value, Component) -> int

  ghost predicate DispEffect(f: Func, r: Run, d: Displacements, t: nat, i: nat, j: Component)
    requires t < |r.path| && |d| == |r.path| + 1 && |r.cond| == |r.path| && i < |f.insts|
  {
    var now, old_ := d[t + 1], d[t];
    match f.insts[i].op
    case Def(_) => now(Instr(i), j) == 0
    case Phi(incoming) =>
      t > 0 && forall k :: 0 <= k < |incoming| && incoming[k].from == r.path[t - 1] ==>
        now(Instr(i), j) == old_(incoming[k].value, j)
    case Select(a, b) => now(Instr(i), j) == old_(if r.cond[t](i) then a else b, j)
    case Gep(p, allZero) => allZero ==> now(Instr(i), j) == old_(p, j)
    case BitCast(p) => now(Instr(i), j) == old_(p, j)
    case ExtractValue(agg, k) => now(Instr(i), 0) == old_(agg, k)
    case InsertValue(agg, elem, k, pointer) =>
      now(Instr(i), j) == if pointer && j == k then old_(elem, 0) else old_(agg, j)
  }

  ghost predicate DispStep(f: Func, r: Run, d: Displacements, t: nat)
    requires t < |r.path| && |d| == |r.path| + 1 && |r.cond| == |r.path|
  {
    && (forall v, j :: !Executes(f, v, r.path[t]) ==> d[t + 1](v, j) == d[t](v, j))
    && (forall i, j :: 0 <= i < |f.insts| && f.insts[i].at == r.path[t] ==> DispEffect(f, r, d, t, i, j))
  }

  /** How far a constant expression moves the pointer it is computed from. */
  function Offset(c: Const): int {
    match c
    case GepExpr(base, offset) => Offset(base) + offset
    case BitCastExpr(base) => Offset(base)
    case _ => 0
  }

  /** Nested constant offsets may cancel out. */
  predicate PlainValue(v: Value) {
    v.Constant? ==> Offset(v.c) == 0
  }

  /** Before the first step, constants have moved by the offsets in their own expressions. */
  ghost function Initially(): State {
    (v: Value, j: Component) => if v.Constant? then Offset(v.c) else 0
  }

  ghost predicate IsDispRun(f: Func, r: Run, d: Displacements) {
    && IsRun(f, r) && |d| == |r.path| + 1
    && (forall v: Value, j: Component :: !v.Instr? ==> d[0](v, j) == Initially()(v, j))
    && forall t :: 0 <= t < |r.path| ==> DispStep(f, r, d, t)
  }

  lemma {:induction false} LeafStays(f: Func, r: Run, d: Displacements, t: nat, v: Value, j: Component)
    requires IsDispRun(f, r, d) && t <= |r.path| && !v.Instr? && PlainValue(v)
    ensures d[t](v, j) == 0
    decreases t
  {
    if t > 0 {
      LeafStays(f, r, d, t - 1, v, j);
      assert DispStep(f, r, d, t - 1);
    }
  }

  lemma {:induction false} ZeroPersists(f: Func, q: Point, v: Value, j: Component, r: Run, d: Displacements, t: nat)
    requires IsDispRun(f, r, d) && t < |r.path| && Dom(f, q, r.path[t]) && Defined(f, v, q)
    requires forall s :: 0 <= s <= t && r.path[s] == q ==> d[s + 1](v, j) == 0
    ensures d[t + 1](v, j) == 0
    decreases t
  {
    if r.path[t] != q {
      DomOnRun(f, r, t, q);
      ZeroPersists(f, q, v, j, r, d, t - 1);
      NotExecuted(f, r, t, q, v);
      assert DispStep(f, r, d, t);
    }
  }

  // ---------------------------------------------------------------- addresses

  ghost predicate AddressEffect(f: Func, r: Run, start: Origin -> int, a: seq<State>, t: nat, i: nat, j: Component)
    requires t < |r.path| && |a| == |r.ptr| == |r.path| + 1 && |r.cond| == |r.path| && i < |f.insts|
  {
    var now, old_ := a[t + 1], a[t];
    match f.insts[i].op
    case Def(_) => now(Instr(i), j) == start(r.ptr[t + 1](Instr(i), j))
    case Phi(incoming) =>
      t > 0 && forall k :: 0 <= k < |incoming| && incoming[k].from == r.path[t - 1] ==>
        now(Instr(i), j) == old_(incoming[k].value, j)
    case Select(x, y) => now(Instr(i), j) == old_(if r.cond[t](i) then x else y, j)
    case Gep(p, allZero) => allZero ==> now(Instr(i), j) == old_(p, j)
    case BitCast(p) => now(Instr(i), j) == old_(p, j)
    case ExtractValue(agg, k) => now(Instr(i), 0) == old_(agg, k)
    case InsertValue(agg, elem, k, pointer) =>
      now(Instr(i), j) == if pointer && j == k then old_(elem, 0) else old_(agg, j)
  }

  ghost predicate AddressStep(f: Func, r: Run, start: Origin -> int, a: seq<State>, t: nat)
    requires t < |r.path| && |a| == |r.ptr| == |r.path| + 1 && |r.cond| == |r.path|
  {
    && (forall v, j :: !Executes(f, v, r.path[t]) ==> a[t + 1](v, j) == a[t](v, j))
    && (forall i, j :: 0 <= i < |f.insts| && f.insts[i].at == r.path[t] ==> AddressEffect(f, r, start, a, t, i, j))
  }

  /** The address of every pointer before each step: that of the source it was derived from, until
      address computations move it. */
  ghost predicate IsAddressRun(f: Func, r: Run, start: Origin -> int, a: seq<State>) {
    && IsRun(f, r) && |a| == |r.path| + 1
    && (forall x, j :: a[0](Arg(x), j) == start(r.ptr[0](Arg(x), j)))
    && (forall c: Const, j: Component :: !c.GepExpr? && !c.BitCastExpr? ==>
          a[0](Constant(c), j) == start(r.ptr[0](Constant(c), j)))
    && (forall b, offset, j :: a[0](Constant(GepExpr(b, offset)), j) == a[0](Constant(b), j) + offset)
    && (forall b, j :: a[0](Constant(BitCastExpr(b)), j) == a[0](Constant(b), j))
    && forall t :: 0 <= t < |r.path| ==> AddressStep(f, r, start, a, t)
  }

  /** How far the addresses are from where their sources start. */
  ghost function Distances(r: Run, start: Origin -> int, a: seq<State>): (d: Displacements)
    requires |r.ptr| == |a|
    ensures |d| == |a|
  {
    seq(|a|, t requires 0 <= t < |a| => (v: Value, j: Component) => a[t](v, j) - start(r.ptr[t](v, j)))
  }

  lemma {:induction false} ConstantDistance(f: Func, r: Run, start: Origin -> int, a: seq<State>, c: Const,
                                            j: Component)
    requires IsAddressRun(f, r, start, a)
    ensures a[0](Constant(c), j) - start(r.ptr[0](Constant(c), j)) == Offset(c)
  {
    if c.GepExpr? || c.BitCastExpr? {
      ConstantDistance(f, r, start, a, c.base, j);
    }
  }

  lemma {:induction false} StepDistance(f: Func, r: Run, start: Origin -> int, a: seq<State>, t: nat)
    requires IsAddressRun(f, r, start, a) && t < |r.path|
    ensures DispStep(f, r, Distances(r, start, a), t)
  {
    var d := Distances(r, start, a);
    assert Step(f, r, t) && AddressStep(f, r, start, a, t);
    forall i, j | 0 <= i < |f.insts| && f.insts[i].at == r.path[t]
      ensures DispEffect(f, r, d, t, i, j)
    {
      assert Effect(f, r, t, i, j) && AddressEffect(f, r, start, a, t, i, j);
    }
  }

  /** So displacements are what the name says. */
  lemma {:induction false} DistancesDisplace(f: Func, r: Run, start: Origin -> int, a: seq<State>)
    requires IsAddressRun(f, r, start, a)
    ensures IsDispRun(f, r, Distances(r, start, a))
  {
    var d := Distances(r, start, a);
    forall v: Value, j: Component | !v.Instr?
      ensures d[0](v, j) == Initially()(v, j)
    {
      if v.Constant? {
        ConstantDistance(f, r, start, a, v.c, j);
      }
    }
    forall t | 0 <= t < |r.path|
      ensures DispStep(f, r, d, t)
    {
      StepDistance(f, r, start, a, t);
    }
  }

  // ---------------------------------------------------------------- runs exist

  /** What a step leaves open: which operands selects choose, and how far address computations move. */
  datatype Choice = Choice(cond: nat -> bool, shift: int)

  /** What executing instruction i yields, given the state before it. */
  ghost function Outcome(f: Func, i: nat, prev: Point, x: Choice, s: State, j: Component): int
    requires i < |f.insts|
  {
    match f.insts[i].op
    case Def(_) => 0
    case Phi(incoming) => if incoming == [] then 0 else s(OperandFrom(incoming, prev), j)
    case Select(a, b) => s(if x.cond(i) then a else b, j)
    case Gep(p, allZero) => s(p, j) + if allZero then 0 else x.shift
    case BitCast(p) => s(p, j)
    case ExtractValue(agg, k) => s(agg, k)
    case InsertValue(agg, elem, k, pointer) => if pointer && j == k then s(elem, 0) else s(agg, j)
  }

  /** The operand that belongs to a block, if there is one. */
  ghost function OperandFrom(incoming: seq<Incoming>, prev: Point): (v: Value)
    requires incoming != []
    ensures (exists k :: 0 <= k < |incoming| && incoming[k].from == prev) ==>
              exists k :: 0 <= k < |incoming| && incoming[k].from == prev && incoming[k].value == v
  {
    var last := incoming[|incoming| - 1];
    if last.from == prev || |incoming| == 1 then last.value else OperandFrom(incoming[..|incoming| - 1], prev)
  }

  ghost function Execute(f: Func, q: Point, prev: Point, x: Choice, s: State): State {
    (v: Value, j: Component) => if Executes(f, v, q) then Outcome(f, v.i, prev, x, s, j) else s(v, j)
  }

  lemma {:induction false} ExecutedOutcome(f: Func, q: Point, prev: Point, x: Choice, s: State, i: nat,
                                           j: Component)
    requires i < |f.insts| && f.insts[i].at == q
    ensures Execute(f, q, prev, x, s)(Instr(i), j) == Outcome(f, i, prev, x, s, j)
  {
    assert Executes(f, Instr(i), q);
  }

  function Before(p: seq<Point>, t: nat): Point
    requires t < |p|
  {
    if t == 0 then p[0] else p[t - 1]
  }

  /** The states before, along and after a path, with the given choices. */
  ghost function States(f: Func, p: seq<Point>, c: seq<Choice>): (d: Displacements)
    requires |c| == |p|
    ensures |d| == |p| + 1 && d[0] == Initially()
    decreases |p|
  {
    if p == [] then [Initially()]
    else
      var n := |p| - 1;
      var d := States(f, p[..n], c[..n]);
      d + [Execute(f, p[n], Before(p, n), c[n], d[n])]
  }

  /** What is appended to a path does not change what happens on it. */
  lemma {:induction false} StatesPrefix(f: Func, p: seq<Point>, c: seq<Choice>, n: nat)
    requires |c| == |p| && n <= |p|
    ensures States(f, p[..n], c[..n]) == States(f, p, c)[..n + 1]
    decreases |p|
  {
    var m := |p| - 1;
    if n == |p| {
      assert p[..n] == p && c[..n] == c;
    } else {
      assert p[..m][..n] == p[..n] && c[..m][..n] == c[..n];
      StatesPrefix(f, p[..m], c[..m], n);
      assert States(f, p, c)[..m + 1] == States(f, p[..m], c[..m]);
    }
  }

  lemma {:induction false} StatesStep(f: Func, p: seq<Point>, c: seq<Choice>, t: nat)
    requires |c| == |p| && t < |p|
    ensures States(f, p, c)[t + 1] == Execute(f, p[t], Before(p, t), c[t], States(f, p, c)[t])
  {
    var q, e := p[..t + 1], c[..t + 1];
    StatesPrefix(f, p, c, t + 1);
    StatesPrefix(f, p, c, t);
    assert q[..t] == p[..t] && e[..t] == c[..t];
  }

  /** A run along a path; all pointers have one origin. */
  ghost function RunOf(p: seq<Point>, c: seq<Choice>): Run {
    Run(p, seq(|p| + 1, t => ((v: Value, j: Component) => 0)),
        seq(|c|, t requires 0 <= t < |c| => c[t].cond))
  }

  /** Every path of a function is the path of a run, with any choices, in which constants
      that compute an address do move. */
  lemma {:induction false} RunExists(f: Func, p: seq<Point>, c: seq<Choice>)
    requires WellFormed(f) && Path(f, p) && |c| == |p|
    ensures IsDispRun(f, RunOf(p, c), States(f, p, c))
  {
    var r, d := RunOf(p, c), States(f, p, c);
    forall t, i, j | 0 <= t < |p| && 0 <= i < |f.insts| && f.insts[i].at == p[t]
      ensures Effect(f, r, t, i, j) && DispEffect(f, r, d, t, i, j)
    {
      PathEffect(f, p, c, t, i, j);
    }
    forall t | 0 <= t < |p|
      ensures Step(f, r, t) && DispStep(f, r, d, t)
    {
      StatesStep(f, p, c, t);
    }
  }

  /** So it is the path of a run with addresses. */
  lemma {:induction false} AddressRunExists(f: Func, p: seq<Point>, c: seq<Choice>, start: Origin -> int)
    requires WellFormed(f) && Path(f, p) && |c| == |p| && forall o :: start(o) == 0
    ensures IsAddressRun(f, RunOf(p, c), start, States(f, p, c))
  {
    RunExists(f, p, c);
    var r, d := RunOf(p, c), States(f, p, c);
    forall t | 0 <= t < |p|
      ensures AddressStep(f, r, start, d, t)
    {
      assert DispStep(f, r, d, t);
      forall i, j | 0 <= i < |f.insts| && f.insts[i].at == p[t]
        ensures AddressEffect(f, r, start, d, t, i, j)
      {
        assert DispEffect(f, r, d, t, i, j);
      }
    }
  }

  lemma {:induction false} PathEffect(f: Func, p: seq<Point>, c: seq<Choice>, t: nat, i: nat, j: Component)
    requires WellFormed(f) && Path(f, p) && |c| == |p| && t < |p| && i < |f.insts| && f.insts[i].at == p[t]
    ensures Effect(f, RunOf(p, c), t, i, j) && DispEffect(f, RunOf(p, c), States(f, p, c), t, i, j)
  {
    StatesStep(f, p, c, t);
    ExecutedOutcome(f, p[t], Before(p, t), c[t], States(f, p, c)[t], i, j);
    ExecutedOutcome(f, p[t], Before(p, t), c[t], States(f, p, c)[t], i, 0);
    if f.insts[i].op.Phi? {
      EnteredOperand(f, p, t, i);
    }
  }

  lemma {:induction false} EnteredOperand(f: Func, p: seq<Point>, t: nat, i: nat)
    requires WellFormed(f) && Path(f, p) && t < |p| && i < |f.insts| && f.insts[i].at == p[t] && f.insts[i].op.Phi?
    ensures t > 0 && f.insts[i].op.incoming != []
    ensures forall k :: 0 <= k < |f.insts[i].op.incoming| && f.insts[i].op.incoming[k].from == p[t - 1] ==>
              f.insts[i].op.incoming[k].value == OperandFrom(f.insts[i].op.incoming, p[t - 1])
  {
    assert InstOk(f, i);
    assert Hop(f, p, t - 1);
  }
}

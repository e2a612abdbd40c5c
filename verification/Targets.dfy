/** Instrumentation targets: a value that needs some treatment at a point. */
module Targets {
  import opened Ssa

  datatype Target =
    | Bounds(v: Value, loc: Point)
    | Intermediate(v: Value, loc: Point)
    | Source(v: Value, loc: Point)
    | CallCheck(v: Value, loc: Point)
    | ConstSizeCheck(v: Value, loc: Point, size: nat)
    | VarSizeCheck(v: Value, loc: Point, sizeVal: Value)
    | ArgInvariant(v: Value, loc: Point, argNum: nat)
    | CallInvariant(loc: Point, requiredArgs: seq<(nat, Value)>)
    | ValInvariant(v: Value, loc: Point)
  {
    predicate HasInstrumentee() {
      !CallInvariant?
    }

    predicate IsInvariant() {
      ArgInvariant? || CallInvariant? || ValInvariant?
    }

    /** The targets that only exist to supply witnesses to others. */
    predicate SuppliesWitness() {
      Intermediate? || Source?
    }
  }

  /** The number of bytes a target's check covers; an invariant only asks for a pointer to, or
      right behind, the object. */
  ghost function Width(x: Target, num: Value -> nat): nat {
    match x
    case ConstSizeCheck(_, _, size) => size
    case VarSizeCheck(_, _, sizeVal) => num(sizeVal)
    case _ => 0
  }

  /** The node that stands for a phi itself, as opposed to one of its uses. */
  predicate IsPhiTarget(f: Func, t: Target) {
    && t.Intermediate? && t.v.Instr? && t.v.i < |f.insts|
    && f.insts[t.v.i].op.Phi? && t.loc == f.insts[t.v.i].at
  }

  predicate IsExtract(f: Func, t: Target) {
    t.HasInstrumentee() && t.v.Instr? && t.v.i < |f.insts| && f.insts[t.v.i].op.ExtractValue?
  }

  ghost predicate SourceOk(f: Func, v: Value, loc: Point) {
    match v
    case Instr(i) => i < |f.insts| && f.insts[i].op.Def? && f.insts[i].op.next == loc
    case Arg(_) => loc == f.entry
    case Constant(c) => ConstBase(c) == c && (ConstShape(c).Aggregate? || c.Undef? || loc == f.entry)
  }

  /** Location and instrumentee fit together: the instrumentee is available there. */
  ghost predicate TargetOk(f: Func, t: Target) {
    && Reachable(f, t.loc)
    && if t.CallInvariant? then
         && !PhiPoint(f, t.loc)
         && (forall k :: 0 <= k < |t.requiredArgs| ==>
               UseOk(f, t.requiredArgs[k].1, t.loc) && ShapeOf(f, t.requiredArgs[k].1).Pointer?)
         && (forall k, l :: 0 <= k < l < |t.requiredArgs| ==> t.requiredArgs[k].0 != t.requiredArgs[l].0)
       else
         && ValueOk(f, t.v)
         && (IsPhiTarget(f, t) || (Available(f, t.v, t.loc) && !PhiPoint(f, t.loc)))
         && (t.Source? ==> SourceOk(f, t.v, t.loc))
  }

  /** The targets of a function are proper, and not made up to supply witnesses. */
  ghost predicate TargetsOk(f: Func, targets: seq<Target>) {
    && (forall k {:trigger TargetOk(f, targets[k])} :: 0 <= k < |targets| ==> TargetOk(f, targets[k]))
    && forall k :: 0 <= k < |targets| ==> !targets[k].SuppliesWitness()
  }

  function ArgTargets(args: seq<(nat, Value)>, loc: Point): (r: seq<Target>)
    ensures |r| == |args| && forall k :: 0 <= k < |args| ==> r[k] == Intermediate(args[k].1, loc)
  {
    if args == [] then [] else ArgTargets(args[..|args| - 1], loc) + [Intermediate(args[|args| - 1].1, loc)]
  }

  function IncomingTargets(incoming: seq<Incoming>): (r: seq<Target>)
    ensures |r| == |incoming|
    ensures forall k :: 0 <= k < |incoming| ==> r[k] == Intermediate(incoming[k].value, incoming[k].from)
  {
    if incoming == [] then []
    else
      var last := incoming[|incoming| - 1];
      IncomingTargets(incoming[..|incoming| - 1]) + [Intermediate(last.value, last.from)]
  }

  lemma {:induction false} NextIncoming(incoming: seq<Incoming>, k: nat)
    requires k < |incoming|
    ensures IncomingTargets(incoming)[..k + 1] ==
            IncomingTargets(incoming)[..k] + [Intermediate(incoming[k].value, incoming[k].from)]
  {
  }

  /** The targets whose witnesses are combined into the witness of t. */
  ghost function Expected(f: Func, t: Target): seq<Target>
    requires TargetOk(f, t)
  {
    if t.CallInvariant? then ArgTargets(t.requiredArgs, t.loc)
    else if t.Source? then []
    else ExpectedFor(f, t.v, t.loc, IsPhiTarget(f, t))
  }

  function ExpectedFor(f: Func, v: Value, loc: Point, phi: bool): seq<Target>
    requires v.Instr? ==> v.i < |f.insts|
    requires phi ==> v.Instr? && f.insts[v.i].op.Phi?
  {
    match v
    case Arg(_) => [Source(v, f.entry)]
    case Constant(c) =>
      if ConstShape(c).Aggregate? || c.Undef? then [Source(v, loc)] else [Source(Constant(ConstBase(c)), f.entry)]
    case Instr(i) =>
      var at := f.insts[i].at;
      match f.insts[i].op
      case Def(next) => [Source(v, next)]
      case Phi(incoming) => if phi then IncomingTargets(incoming) else [Intermediate(v, at)]
      case Select(a, b) => [Intermediate(a, at), Intermediate(b, at)]
      case Gep(p, _) => [Intermediate(p, at)]
      case BitCast(p) => [Intermediate(p, at)]
      case ExtractValue(agg, _) => [Intermediate(agg, at)]
      case InsertValue(agg, elem, _, pointer) =>
        if pointer then [Intermediate(agg, at), Intermediate(elem, at)] else [Intermediate(agg, at)]
  }

  lemma {:induction false} EntryOk(f: Func)
    requires WellFormed(f)
    ensures Reachable(f, f.entry) && !PhiPoint(f, f.entry)
  {
    assert PathTo(f, [f.entry], f.entry);
    forall i | 0 <= i < |f.insts| && f.insts[i].at == f.entry
      ensures !f.insts[i].op.Phi?
    {
      assert InstOk(f, i);
    }
  }

  lemma {:induction false} NextOk(f: Func, i: nat)
    requires WellFormed(f) && i < |f.insts| && f.insts[i].op.Def?
    ensures StrictDom(f, f.insts[i].at, f.insts[i].op.next)
    ensures Reachable(f, f.insts[i].op.next) && !PhiPoint(f, f.insts[i].op.next)
  {
    var at, next := f.insts[i].at, f.insts[i].op.next;
    assert InstOk(f, i);
    var s :| PathTo(f, s, at);
    PathAppend(f, s, next);
    forall p | PathTo(f, p, next)
      ensures at in p
    {
      if |p| > 1 {
        assert Hop(f, p, |p| - 2);
      }
    }
    if at == next {
      NoSelfLoop(f, at, s);
    }
  }

  /** What lies after a source instruction lies after the point where its witness is placed. */
  lemma {:induction false} NextDominates(f: Func, i: nat, l: Point)
    requires WellFormed(f) && i < |f.insts| && f.insts[i].op.Def? && StrictDom(f, f.insts[i].at, l)
    ensures Dom(f, f.insts[i].op.next, l)
  {
    var at, next := f.insts[i].at, f.insts[i].op.next;
    assert InstOk(f, i);
    forall p | PathTo(f, p, l)
      ensures next in p
    {
      var k :| 0 <= k < |p| && p[k] == at;
      assert Hop(f, p, k);
      assert p[k + 1] == next;
    }
  }

  /** A reachable point cannot have itself as its only predecessor. */
  lemma {:induction false} NoSelfLoop(f: Func, q: Point, s: seq<Point>)
    requires WellFormed(f) && PathTo(f, s, q) && (q, q) in f.edges
    requires forall p :: (p, q) in f.edges ==> p == q
    ensures false
    decreases |s|
  {
    if |s| > 1 {
      assert Hop(f, s, |s| - 2);
      PathPrefix(f, s, |s| - 2);
      NoSelfLoop(f, q, s[..|s| - 1]);
    }
  }

  lemma {:induction false} ConstBaseIdempotent(c: Const)
    ensures ConstBase(ConstBase(c)) == ConstBase(c)
    ensures ConstBase(c) != c ==> ConstShape(c).Pointer? && !c.Undef?
  {
    match c
    case GepExpr(base, _) => ConstBaseIdempotent(base);
    case BitCastExpr(base) => ConstBaseIdempotent(base);
    case _ =>
  }

  lemma {:induction false} ConstBaseComputes(c: Const)
    ensures ComputedFrom(c, ConstBase(c)) && !ConstBase(c).GepExpr? && !ConstBase(c).BitCastExpr?
  {
    if c.GepExpr? || c.BitCastExpr? {
      ConstBaseComputes(c.base);
    }
  }

  /** The source of an argument or a constant. That of an address computation or a cast is what it
      is applied to, through any number of these. */
  lemma {:induction false} LeafSource(f: Func, t: Target) returns (s: Target)
    requires TargetOk(f, t) && !t.CallInvariant? && !t.Source? && !t.v.Instr?
    ensures Expected(f, t) == [s] && s.Source?
    ensures t.v.Arg? ==> s.v == t.v && s.loc == f.entry
    ensures t.v.Constant? ==>
              match t.v.c
              case Undef(_) => s.v == t.v && s.loc == t.loc
              case ConstAggregate(_, shape) => s.v == t.v && s.loc == if shape.Aggregate? then t.loc else f.entry
              case Global(_) => s.v == t.v && s.loc == f.entry
              case ConstData(_) => s.v == t.v && s.loc == f.entry
              case IntToPtr(_) => s.v == t.v && s.loc == f.entry
              case _ => s.v.Constant? && ComputedFrom(t.v.c, s.v.c) && !s.v.c.GepExpr? && !s.v.c.BitCastExpr?
                        && s.loc == f.entry
  {
    s := Expected(f, t)[0];
    if t.v.Constant? {
      ConstBaseComputes(t.v.c);
    }
  }

  /** A location that is not a phi cannot give the target of a phi itself. */
  lemma {:induction false} UseTargetOk(f: Func, v: Value, loc: Point)
    requires WellFormed(f) && UseOk(f, v, loc) && Reachable(f, loc) && !PhiPoint(f, loc)
    ensures TargetOk(f, Intermediate(v, loc)) && !IsPhiTarget(f, Intermediate(v, loc))
  {
  }

  lemma {:induction false} SourceTargetOk(f: Func, t: Target, s: Target)
    requires WellFormed(f) && TargetOk(f, t) && !t.CallInvariant? && !t.Source?
    requires Expected(f, t) == [s] && s.Source?
    ensures TargetOk(f, s)
    ensures ShapeOf(f, s.v) == ShapeOf(f, t.v)
  {
    EntryOk(f);
    match t.v
    case Arg(_) =>
    case Constant(c) => ConstBaseIdempotent(c);
    case Instr(i) => NextOk(f, i);
  }

  /** The operands of an instruction can be used where it stands. */
  lemma {:induction false} OperandOk(f: Func, t: Target, k: nat)
    requires WellFormed(f) && TargetOk(f, t) && !t.CallInvariant?
    requires k < |Expected(f, t)| && Expected(f, t)[k].Intermediate?
    requires t.v.Instr? && !f.insts[t.v.i].op.Phi?
    ensures UseOk(f, Expected(f, t)[k].v, f.insts[t.v.i].at) && Expected(f, t)[k].loc == f.insts[t.v.i].at
    ensures Reachable(f, f.insts[t.v.i].at) && !PhiPoint(f, f.insts[t.v.i].at)
  {
    assert InstOk(f, t.v.i);
  }

  lemma {:induction false} PhiTargetOk(f: Func, v: Value)
    requires WellFormed(f) && ValueOk(f, v) && v.Instr? && f.insts[v.i].op.Phi?
    ensures TargetOk(f, Intermediate(v, f.insts[v.i].at)) && IsPhiTarget(f, Intermediate(v, f.insts[v.i].at))
  {
    assert InstOk(f, v.i);
  }

  lemma {:induction false} IncomingOk(f: Func, i: nat, k: nat)
    requires WellFormed(f) && i < |f.insts| && f.insts[i].op.Phi? && k < |f.insts[i].op.incoming|
    ensures UseOk(f, f.insts[i].op.incoming[k].value, f.insts[i].op.incoming[k].from)
    ensures Reachable(f, f.insts[i].op.incoming[k].from) && !PhiPoint(f, f.insts[i].op.incoming[k].from)
    ensures ShapeOf(f, f.insts[i].op.incoming[k].value) == f.insts[i].shape
  {
    assert InstOk(f, i);
  }

  // ---------------------------------------------------------------- an order for recursion

  /** Decreases from an instruction to its operands: the definitions that strictly dominate it. */
  ghost function Depth(f: Func, v: Value): set<Point> {
    if v.Instr? && v.i < |f.insts| then StrictDominators(f, f.insts[v.i].at) else {}
  }

  ghost function TargetDepth(f: Func, t: Target): set<Point> {
    if t.CallInvariant? then DefPoints(f) else Depth(f, t.v)
  }

  /** Breaks ties of `TargetDepth`. */
  function Rank(f: Func, t: Target): nat {
    if t.CallInvariant? then 4
    else if t.Source? then 0
    else if !t.v.Instr? then 1
    else if IsPhiTarget(f, t) then 2
    else 3
  }

  lemma {:induction false} OperandDepth(f: Func, v: Value, q: Point)
    requires WellFormed(f) && UseOk(f, v, q) && q in DefPoints(f) && Reachable(f, q)
    ensures v.Instr? ==> Depth(f, v) < StrictDominators(f, q)
    ensures Depth(f, v) <= StrictDominators(f, q)
  {
    if v.Instr? {
      StrictDominatorsGrow(f, f.insts[v.i].at, q);
    }
  }

  lemma {:induction false} DepthBound(f: Func, v: Value)
    ensures Depth(f, v) <= DefPoints(f)
    ensures v.Instr? && v.i < |f.insts| ==> Depth(f, v) < DefPoints(f)
  {
    if v.Instr? && v.i < |f.insts| {
      assert f.insts[v.i].at in DefPoints(f) && f.insts[v.i].at !in Depth(f, v);
    }
  }
}

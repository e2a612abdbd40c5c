/** Removal of checks that are dominated by a check at least as strong. */
module DominanceRemoval {
  import opened Ssa
  import opened Targets

  /** A target as the passes see it: they only ever invalidate it. */
  class ITarget {
    const target: Target
    var valid: bool

    constructor (target: Target)
      ensures this.target == target && valid
    {
      this.target := target;
      valid := true;
    }

    method Invalidate()
      requires valid
      modifies this
      ensures !valid
    {
      valid := false;
    }
  }

  // ---------------------------------------------------------------- which check subsumes which

  predicate IsSizedCheck(t: Target) {
    t.ConstSizeCheck? || t.VarSizeCheck?
  }

  /** The targets that compare a pointer with its bounds when their location is reached. */
  predicate IsCheck(t: Target) {
    IsSizedCheck(t) || (t.IsInvariant() && t.HasInstrumentee())
  }

  predicate Subsumes(one: Target, other: Target, optimizeInvariants: bool) {
    if !one.HasInstrumentee() || !other.HasInstrumentee() then false
    else if one.v != other.v then false
    else if one.ConstSizeCheck? && other.ConstSizeCheck? then one.size >= other.size
    else if one.VarSizeCheck? && other.VarSizeCheck? then one.sizeVal == other.sizeVal
    else optimizeInvariants && other.IsInvariant() && (one.IsInvariant() || IsSizedCheck(one))
  }

  lemma {:induction false} SubsumesTransitive(a: Target, b: Target, c: Target, optimizeInvariants: bool)
    requires Subsumes(a, b, optimizeInvariants) && Subsumes(b, c, optimizeInvariants)
    ensures Subsumes(a, c, optimizeInvariants)
  {
  }

  /** a makes b superfluous. */
  ghost predicate Covers(f: Func, a: Target, b: Target, optimizeInvariants: bool) {
    Subsumes(a, b, optimizeInvariants) && StrictDom(f, a.loc, b.loc)
  }

  lemma {:induction false} CoversTransitive(f: Func, a: Target, b: Target, c: Target, optimizeInvariants: bool)
    requires Covers(f, a, b, optimizeInvariants) && Covers(f, b, c, optimizeInvariants)
    requires Reachable(f, c.loc)
    ensures Covers(f, a, c, optimizeInvariants)
  {
    SubsumesTransitive(a, b, c, optimizeInvariants);
    StrictDomTrans(f, a.loc, b.loc, c.loc);
  }

  // ---------------------------------------------------------------- what has to remain

  ghost predicate Located(f: Func, targets: seq<Target>) {
    forall k :: 0 <= k < |targets| ==> Reachable(f, targets[k].loc)
  }

  ghost predicate CoveredBy(f: Func, targets: seq<Target>, valid: seq<bool>, opt: bool, k: nat, l: nat) {
    k < |valid| == |targets| && l < |targets| && valid[k] && Covers(f, targets[k], targets[l], opt)
  }

  ghost predicate Superfluous(f: Func, targets: seq<Target>, valid: seq<bool>, opt: bool, l: nat) {
    exists k :: CoveredBy(f, targets, valid, opt, k, l)
  }

  ghost function Coverers(f: Func, targets: seq<Target>, valid: seq<bool>, opt: bool, l: nat): set<nat> {
    set k | 0 <= k < |targets| && CoveredBy(f, targets, valid, opt, k, l)
  }

  /** Whatever is superfluous is covered by a target that is not. */
  lemma {:induction false} HasLeastCoverer(f: Func, targets: seq<Target>, valid: seq<bool>, opt: bool, l: nat)
    returns (k: nat)
    requires Located(f, targets) && Superfluous(f, targets, valid, opt, l)
    ensures CoveredBy(f, targets, valid, opt, k, l) && !Superfluous(f, targets, valid, opt, k)
    decreases Coverers(f, targets, valid, opt, l)
  {
    k :| CoveredBy(f, targets, valid, opt, k, l);
    if Superfluous(f, targets, valid, opt, k) {
      forall i | i in Coverers(f, targets, valid, opt, k)
        ensures i in Coverers(f, targets, valid, opt, l)
      {
        CoversTransitive(f, targets[i], targets[k], targets[l], opt);
      }
      assert k in Coverers(f, targets, valid, opt, l) && k !in Coverers(f, targets, valid, opt, k);
      var i := HasLeastCoverer(f, targets, valid, opt, k);
      CoversTransitive(f, targets[i], targets[k], targets[l], opt);
      k := i;
    }
  }

  // ---------------------------------------------------------------- the elimination loop

  ghost function TargetsOf(its: seq<ITarget>): (r: seq<Target>)
    ensures |r| == |its| && forall k :: 0 <= k < |its| ==> r[k] == its[k].target
  {
    seq(|its|, k requires 0 <= k < |its| => its[k].target)
  }

  ghost function ValidOf(its: seq<ITarget>): (r: seq<bool>)
    reads its
    ensures |r| == |its| && forall k :: 0 <= k < |its| ==> r[k] == its[k].valid
  {
    seq(|its|, k requires 0 <= k < |its| reads its => its[k].valid)
  }

  /** The dominator tree answers queries about reachable locations. */
  ghost predicate TreeOk(f: Func, tree: set<(Point, Point)>) {
    forall a: Point, b: Point :: Reachable(f, b) ==> ((a, b) in tree <==> StrictDom(f, a, b))
  }

  /** Loses only superfluous targets. */
  ghost predicate Sound(f: Func, targets: seq<Target>, before: seq<bool>, now: seq<bool>, opt: bool) {
    && |now| == |before| == |targets|
    && forall l :: 0 <= l < |now| ==>
         if now[l] then before[l] else before[l] ==> Superfluous(f, targets, before, opt, l)
  }

  /** The targets that the k-th target makes superfluous are gone. */
  ghost predicate Handled(f: Func, targets: seq<Target>, now: seq<bool>, opt: bool, k: nat, upTo: nat)
    requires |now| == |targets| && k < |targets| && upTo <= |targets|
  {
    now[k] ==> forall l :: 0 <= l < upTo ==> Covers(f, targets[k], targets[l], opt) ==> !now[l]
  }

  /** The loops have dealt with the first k targets, and with the k-th one up to l. */
  ghost predicate Progress(f: Func, targets: seq<Target>, before: seq<bool>, now: seq<bool>, opt: bool, k: nat,
                           l: nat) {
    && Sound(f, targets, before, now, opt) && k <= |targets| && l <= |targets|
    && (forall i :: 0 <= i < k ==> Handled(f, targets, now, opt, i, |targets|))
    && (k < |targets| ==> Handled(f, targets, now, opt, k, l))
  }

  /** After the loops, exactly the valid targets that are not superfluous remain valid. */
  method UpdateITargetsForFunction(f: Func, its: seq<ITarget>, tree: set<(Point, Point)>, optimizeInvariants: bool,
                                   invariantsAreChecks: bool)
    returns (supported: bool)
    requires TreeOk(f, tree) && Located(f, TargetsOf(its))
    modifies its
    ensures supported <==> (optimizeInvariants ==> invariantsAreChecks)
    ensures !supported ==> ValidOf(its) == old(ValidOf(its))
    ensures supported ==> forall l :: 0 <= l < |its| ==>
              (its[l].valid <==>
               old(its[l].valid) && !Superfluous(f, TargetsOf(its), old(ValidOf(its)), optimizeInvariants, l))
  {
    if optimizeInvariants && !invariantsAreChecks {
      return false;
    }
    supported := true;
    ghost var targets, before := TargetsOf(its), ValidOf(its);
    var k := 0;
    Started(f, targets, before, optimizeInvariants);
    while k < |its|
      invariant 0 <= k <= |its|
      invariant Progress(f, targets, before, ValidOf(its), optimizeInvariants, k, 0)
    {
      var l := 0;
      while l < |its|
        invariant 0 <= l <= |its|
        invariant Progress(f, targets, before, ValidOf(its), optimizeInvariants, k, l)
      {
        EliminateIfCovered(f, its, tree, optimizeInvariants, k, l, targets, before);
        l := l + 1;
      }
      NextRow(f, targets, before, ValidOf(its), optimizeInvariants, k);
      k := k + 1;
    }
    Finished(f, targets, before, ValidOf(its), optimizeInvariants);
  }

  /** Invalidates the l-th target, and with it whatever else it is listed as, if it is valid and
      covered by the valid k-th one. */
  method EliminateIfCovered(f: Func, its: seq<ITarget>, tree: set<(Point, Point)>, opt: bool, k: nat, l: nat,
                            ghost targets: seq<Target>, ghost before: seq<bool>)
    requires TreeOk(f, tree) && targets == TargetsOf(its) && Located(f, targets) && k < |its| && l < |its|
    requires Progress(f, targets, before, ValidOf(its), opt, k, l)
    modifies its
    ensures Progress(f, targets, before, ValidOf(its), opt, k, l + 1)
  {
    ghost var was := ValidOf(its);
    Compare(f, its, tree, opt, k, l);
    ProgressAfter(f, targets, before, was, ValidOf(its), opt, k, l);
  }

  method Compare(f: Func, its: seq<ITarget>, tree: set<(Point, Point)>, opt: bool, k: nat, l: nat)
    requires TreeOk(f, tree) && Located(f, TargetsOf(its)) && k < |its| && l < |its|
    modifies its
    ensures
      var hit := old(its[k].valid && its[l].valid) && Covers(f, its[k].target, its[l].target, opt);
      forall i :: 0 <= i < |its| ==> its[i].valid == (old(its[i].valid) && !(hit && its[i] == its[l]))
  {
    if its[k] == its[l] {
      return;
    }
    if !its[k].valid || !its[l].valid {
      return;
    }
    assert Reachable(f, TargetsOf(its)[l].loc);
    if Subsumes(its[k].target, its[l].target, opt) && (its[k].target.loc, its[l].target.loc) in tree {
      its[l].Invalidate();
    }
  }

  lemma {:induction false} ProgressAfter(f: Func, targets: seq<Target>, before: seq<bool>, was: seq<bool>,
                                         now: seq<bool>, opt: bool, k: nat, l: nat)
    requires Progress(f, targets, before, was, opt, k, l) && |now| == |was| && k < |was| && l < |was|
    requires forall i :: 0 <= i < |now| ==>
               now[i] == was[i] ||
               (was[k] && Covers(f, targets[k], targets[l], opt) && !now[i] && targets[i] == targets[l])
    requires was[k] && was[l] && Covers(f, targets[k], targets[l], opt) ==> !now[l]
    ensures Progress(f, targets, before, now, opt, k, l + 1)
  {
    forall i | 0 <= i < |now|
      ensures if now[i] then before[i] else before[i] ==> Superfluous(f, targets, before, opt, i)
    {
      if now[i] != was[i] {
        assert CoveredBy(f, targets, before, opt, k, i);
      }
    }
    forall i | 0 <= i < k
      ensures Handled(f, targets, now, opt, i, |targets|)
    {
      assert Handled(f, targets, was, opt, i, |targets|);
    }
  }

  lemma {:induction false} Started(f: Func, targets: seq<Target>, before: seq<bool>, opt: bool)
    requires |before| == |targets|
    ensures Progress(f, targets, before, before, opt, 0, 0)
  {
  }

  lemma {:induction false} NextRow(f: Func, targets: seq<Target>, before: seq<bool>, now: seq<bool>, opt: bool, k: nat)
    requires k < |targets| && Progress(f, targets, before, now, opt, k, |targets|)
    ensures Progress(f, targets, before, now, opt, k + 1, 0)
  {
  }

  lemma {:induction false} Finished(f: Func, targets: seq<Target>, before: seq<bool>, now: seq<bool>, opt: bool)
    requires Located(f, targets) && Progress(f, targets, before, now, opt, |targets|, 0)
    ensures forall l :: 0 <= l < |now| ==> (now[l] <==> before[l] && !Superfluous(f, targets, before, opt, l))
  {
    forall l | 0 <= l < |now| && Superfluous(f, targets, before, opt, l)
      ensures !now[l]
    {
      var k := HasLeastCoverer(f, targets, before, opt, l);
      assert now[k] && Handled(f, targets, now, opt, k, |targets|);
    }
  }

  // ---------------------------------------------------------------- soundness in every run

  /** Addresses and sizes: num[t] gives the numeric value of every pointer and integer before
      path[t] executes; only executing an instruction changes its value. */
  ghost predicate IsNumRun(f: Func, r: Run, num: seq<Value -> nat>) {
    && IsRun(f, r) && |num| == |r.path| + 1
    && forall t :: 0 <= t < |r.path| ==> KeepsOthers(f, num[t], num[t + 1], r.path[t])
  }

  ghost predicate KeepsOthers(f: Func, before: Value -> nat, now: Value -> nat, q: Point) {
    forall v :: !Executes(f, v, q) ==> now(v) == before(v)
  }

  /** Between its last execution and a point it strictly dominates, q's uses keep their values. */
  lemma {:induction false} LastExecution(f: Func, r: Run, num: seq<Value -> nat>, t: nat, q: Point) returns (u: nat)
    requires IsNumRun(f, r, num) && t < |r.path| && StrictDom(f, q, r.path[t])
    ensures u < t && r.path[u] == q
    ensures forall v :: Available(f, v, q) ==> num[u](v) == num[t](v)
    ensures forall v, j :: Available(f, v, q) ==> r.ptr[u](v, j) == r.ptr[t](v, j)
    decreases t
  {
    DomOnRun(f, r, t, q);
    DomOnRun(f, r, t - 1, q);
    u := t - 1;
    assert Step(f, r, t - 1) && KeepsOthers(f, num[t - 1], num[t], r.path[t - 1]);
    if r.path[t - 1] != q {
      u := LastExecution(f, r, num, t - 1, q);
      forall v | Available(f, v, q)
        ensures !Executes(f, v, r.path[t - 1])
      {
        NotExecuted(f, r, t - 1, q, v);
      }
    }
  }

  // ---------------------------------------------------------------- everything in question is removed

  /** Two checks of constant, or of variable, size. */
  predicate SameKind(a: Target, b: Target) {
    (a.ConstSizeCheck? && b.ConstSizeCheck?) || (a.VarSizeCheck? && b.VarSizeCheck?)
  }

  /** Whatever values there are, a asks for as many bytes from the same pointer. */
  ghost predicate AsWide(a: Target, b: Target) {
    SameKind(a, b) && a.v == b.v && forall num: Value -> nat :: Width(a, num) >= Width(b, num)
  }

  /** An invariant asks for less than any check of the same pointer, and as much as another one. */
  predicate AnyCheckWillDo(a: Target, b: Target) {
    && (b.ArgInvariant? || b.ValInvariant?)
    && (a.ConstSizeCheck? || a.VarSizeCheck? || a.ArgInvariant? || a.ValInvariant?) && a.v == b.v
  }

  ghost predicate Outdoes(f: Func, a: Target, b: Target, opt: bool) {
    StrictDom(f, a.loc, b.loc) && (AsWide(a, b) || (opt && AnyCheckWillDo(a, b)))
  }

  ghost predicate OutdoneBy(f: Func, targets: seq<Target>, valid: seq<bool>, opt: bool, k: nat, l: nat) {
    k < |valid| == |targets| && l < |targets| && valid[k] && Outdoes(f, targets[k], targets[l], opt)
  }

  lemma {:induction false} AsWideIff(a: Target, b: Target)
    requires SameKind(a, b) && a.v == b.v
    ensures AsWide(a, b) <==> Subsumes(a, b, false)
  {
    if a.VarSizeCheck? && AsWide(a, b) {
      var one := (v: Value) => if v == b.sizeVal then 1 else 0;
      assert Width(a, one) >= Width(b, one);
    } else if a.ConstSizeCheck? && AsWide(a, b) {
      var any := (v: Value) => 0;
      assert Width(a, any) >= Width(b, any);
    }
  }

  lemma {:induction false} OutdoesIff(f: Func, a: Target, b: Target, opt: bool)
    ensures Outdoes(f, a, b, opt) <==> Covers(f, a, b, opt)
  {
    if SameKind(a, b) && a.v == b.v {
      AsWideIff(a, b);
    }
  }

  /** A target is removed exactly if some valid one that strictly dominates it asks for as much of
      the same pointer, in all circumstances. */
  lemma {:induction false} RemovedIffOutdone(f: Func, targets: seq<Target>, before: seq<bool>, now: seq<bool>,
                                             opt: bool, l: nat)
    requires |before| == |now| == |targets| && l < |targets| && before[l]
    requires forall i :: 0 <= i < |now| ==> (now[i] <==> before[i] && !Superfluous(f, targets, before, opt, i))
    ensures !now[l] <==> exists k: nat :: OutdoneBy(f, targets, before, opt, k, l)
  {
    if k: nat :| CoveredBy(f, targets, before, opt, k, l) {
      OutdoesIff(f, targets[k], targets[l], opt);
      assert OutdoneBy(f, targets, before, opt, k, l);
    }
    if k: nat :| OutdoneBy(f, targets, before, opt, k, l) {
      OutdoesIff(f, targets[k], targets[l], opt);
      assert CoveredBy(f, targets, before, opt, k, l);
    }
  }

  /** So a check is removed for any dominating one of its kind that is never narrower ... */
  lemma {:induction false} WiderRemoves(f: Func, targets: seq<Target>, before: seq<bool>, now: seq<bool>, opt: bool,
                                        a: nat, b: nat)
    requires |before| == |now| == |targets| && a < |targets| && b < |targets| && before[a] && before[b]
    requires forall i :: 0 <= i < |now| ==> (now[i] <==> before[i] && !Superfluous(f, targets, before, opt, i))
    requires (targets[a].ConstSizeCheck? && targets[b].ConstSizeCheck?)
             || (targets[a].VarSizeCheck? && targets[b].VarSizeCheck?)
    requires targets[a].v == targets[b].v && StrictDom(f, targets[a].loc, targets[b].loc)
    requires forall num: Value -> nat :: Width(targets[a], num) >= Width(targets[b], num)
    ensures !now[b]
  {
    assert OutdoneBy(f, targets, before, opt, a, b);
    RemovedIffOutdone(f, targets, before, now, opt, b);
  }

  /** ... and an invariant for any dominating check or invariant of its pointer, if asked to. */
  lemma {:induction false} CheckRemovesInvariant(f: Func, targets: seq<Target>, before: seq<bool>, now: seq<bool>,
                                                 a: nat, b: nat)
    requires |before| == |now| == |targets| && a < |targets| && b < |targets| && before[a] && before[b]
    requires forall i :: 0 <= i < |now| ==> (now[i] <==> before[i] && !Superfluous(f, targets, before, true, i))
    requires targets[b].ArgInvariant? || targets[b].ValInvariant?
    requires targets[a].ConstSizeCheck? || targets[a].VarSizeCheck? || targets[a].ArgInvariant?
             || targets[a].ValInvariant?
    requires targets[a].v == targets[b].v && StrictDom(f, targets[a].loc, targets[b].loc)
    ensures !now[b]
  {
    assert OutdoneBy(f, targets, before, true, a, b);
    RemovedIffOutdone(f, targets, before, now, true, b);
  }

  /** The bounds of what a pointer was derived from. */
  datatype Extent = Extent(lower: nat, upper: nat)

  /** What the check for x finds when x's location is reached at time t. */
  ghost predicate Passes(x: Target, r: Run, num: seq<Value -> nat>, bounds: Origin -> Extent, t: nat)
    requires IsCheck(x) && t < |r.ptr| && t < |num|
  {
    var b := bounds(r.ptr[t](x.v, 0));
    b.lower <= num[t](x.v) && num[t](x.v) + Width(x, num[t]) <= b.upper
  }

  ghost predicate PassesIfReached(x: Target, r: Run, num: seq<Value -> nat>, bounds: Origin -> Extent, t: nat)
    requires t < |r.path| < |r.ptr| && t < |num|
  {
    IsCheck(x) && r.path[t] == x.loc ==> Passes(x, r, num, bounds, t)
  }

  /** The checks of the active targets pass up to time t. */
  ghost predicate AllPass(targets: seq<Target>, active: seq<bool>, r: Run, num: seq<Value -> nat>,
                          bounds: Origin -> Extent, t: nat)
    requires |active| == |targets| && t < |r.path| < |r.ptr| && t < |num|
  {
    forall k, u :: 0 <= k < |targets| && 0 <= u <= t && active[k] ==> PassesIfReached(targets[k], r, num, bounds, u)
  }

  ghost predicate CheckOk(f: Func, x: Target) {
    && TargetOk(f, x) && !x.SuppliesWitness()
    && (x.VarSizeCheck? ==> Available(f, x.sizeVal, x.loc))
  }

  ghost predicate ChecksOk(f: Func, targets: seq<Target>) {
    forall k :: 0 <= k < |targets| ==> CheckOk(f, targets[k])
  }

  /** A covering check that executed earlier on the same pointer value and passed leaves nothing
      to check. */
  lemma {:induction false} CoveredPasses(f: Func, a: Target, b: Target, opt: bool, r: Run, num: seq<Value -> nat>,
                                         bounds: Origin -> Extent, t: nat)
    returns (u: nat)
    requires CheckOk(f, a) && CheckOk(f, b) && Covers(f, a, b, opt)
    requires IsNumRun(f, r, num) && t < |r.path| && r.path[t] == b.loc
    ensures u < t && r.path[u] == a.loc && IsCheck(a) && IsCheck(b)
    ensures num[u](a.v) == num[t](b.v) && r.ptr[u](a.v, 0) == r.ptr[t](b.v, 0)
    ensures Width(a, num[u]) >= Width(b, num[t])
    ensures Passes(a, r, num, bounds, u) ==> Passes(b, r, num, bounds, t)
  {
    u := LastExecution(f, r, num, t, a.loc);
    assert Available(f, a.v, a.loc);
  }

  /** Whenever a run reaches the location of a removed check, a remaining check has executed on
      the same value of the same pointer, at least as wide, and if it passed then so would the
      removed one. */
  lemma {:induction false} RemovedIsChecked(f: Func, targets: seq<Target>, before: seq<bool>, now: seq<bool>,
                                            opt: bool, l: nat, r: Run, num: seq<Value -> nat>,
                                            bounds: Origin -> Extent, t: nat)
    returns (k: nat, u: nat)
    requires ChecksOk(f, targets) && |before| == |now| == |targets|
    requires forall i :: 0 <= i < |now| ==> (now[i] <==> before[i] && !Superfluous(f, targets, before, opt, i))
    requires l < |targets| && before[l] && !now[l]
    requires IsNumRun(f, r, num) && t < |r.path| && r.path[t] == targets[l].loc
    ensures k < |targets| && now[k] && CoveredBy(f, targets, before, opt, k, l)
    ensures IsCheck(targets[k]) && IsCheck(targets[l])
    ensures u < t && r.path[u] == targets[k].loc && num[u](targets[k].v) == num[t](targets[l].v)
    ensures Width(targets[k], num[u]) >= Width(targets[l], num[t])
    ensures Passes(targets[k], r, num, bounds, u) ==> Passes(targets[l], r, num, bounds, t)
  {
    k := HasLeastCoverer(f, targets, before, opt, l);
    u := CoveredPasses(f, targets[k], targets[l], opt, r, num, bounds, t);
  }

  /** A run whose remaining checks all pass is one in which all original checks pass. */
  lemma {:induction false} RemovalKeepsSafety(f: Func, targets: seq<Target>, before: seq<bool>, now: seq<bool>,
                                              opt: bool, r: Run, num: seq<Value -> nat>, bounds: Origin -> Extent,
                                              t: nat)
    requires ChecksOk(f, targets) && |before| == |now| == |targets|
    requires forall i :: 0 <= i < |now| ==> (now[i] <==> before[i] && !Superfluous(f, targets, before, opt, i))
    requires IsNumRun(f, r, num) && t < |r.path|
    ensures AllPass(targets, now, r, num, bounds, t) <==> AllPass(targets, before, r, num, bounds, t)
  {
    if AllPass(targets, now, r, num, bounds, t) {
      forall l, s | 0 <= l < |targets| && 0 <= s <= t && before[l]
        ensures PassesIfReached(targets[l], r, num, bounds, s)
      {
        if now[l] {
          assert PassesIfReached(targets[l], r, num, bounds, s);
        } else if IsCheck(targets[l]) && r.path[s] == targets[l].loc {
          var k, u := RemovedIsChecked(f, targets, before, now, opt, l, r, num, bounds, s);
          assert PassesIfReached(targets[k], r, num, bounds, u);
        }
      }
    }
  }
}

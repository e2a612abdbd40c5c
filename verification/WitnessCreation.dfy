/** Creation of witnesses: the recursion over the witness graph that inserts the shadow data
    flow. It works on complete graphs and on graphs simplified by sound shortcuts. */
module WitnessCreation {
  import opened AscendingLists
  import opened Ssa
  import opened Targets
  import opened WitnessGraphs
  import opened WitnessCode
  import opened CreationOrder

  // ---------------------------------------------------------------- what a node may require

  /** n requires a single earlier node with the same pointers in every run. */
  ghost predicate Shortcut(f: Func, g: Nodes, n: NodeId)
    requires Shaped(g) && g.Has(n)
  {
    var t := g.target[n];
    && !t.CallInvariant? && !t.Source? && TargetOk(f, t) && |g.requirements[n]| == 1
    && !IsExtract(f, t)
    && var s := g.target[g.requirements[n][0]];
       && s.SuppliesWitness() && TargetOk(f, s) && ShapeOf(f, s.v) == ShapeOf(f, t.v)
       && Below(f, s, t) && Dom(f, s.loc, t.loc)
       && forall j :: j in Indices(ShapeOf(f, t.v)) ==> SameOrigin(f, t.loc, t.v, j, s.v, j)
  }

  ghost predicate Justified(f: Func, g: Nodes, n: NodeId)
    requires Shaped(g) && g.Has(n)
  {
    && TargetOk(f, g.target[n])
    && (RequiredTargets(g, n) == Expected(f, g.target[n]) || Shortcut(f, g, n))
  }

  ghost predicate LiveOk(f: Func, g: Nodes, live: set<NodeId>, n: NodeId)
    requires Shaped(g)
  {
    g.Has(n) && Justified(f, g, n) && forall k :: 0 <= k < |g.requirements[n]| ==> g.requirements[n][k] in live
  }

  /** The live nodes are closed under requirements, and each requires the right nodes. */
  ghost predicate Ready(f: Func, g: Nodes, live: set<NodeId>) {
    Shaped(g) && forall n {:trigger LiveOk(f, g, live, n)} :: n in live ==> LiveOk(f, g, live, n)
  }

  lemma {:induction false} CompleteIsReady(f: Func, g: Nodes, live: set<NodeId>)
    requires Complete(f, g) && forall n :: n in live <==> g.Has(n)
    ensures Ready(f, g, live)
  {
    forall n | n in live
      ensures LiveOk(f, g, live, n)
    {
      assert NodeOk(f, g, n, false);
    }
  }

  // ---------------------------------------------------------------- what a witness map means

  /** m holds a witness for every pointer of the instrumentee; for a call, for required arguments. */
  ghost predicate Witnessed(f: Func, code: seq<WitInstr>, t: Target, m: map<Component, WitVar>)
    requires TargetOk(f, t)
  {
    if t.CallInvariant? then
      forall a :: a in m ==>
        exists k :: 0 <= k < |t.requiredArgs| && t.requiredArgs[k].0 == a
          && Describes(f, code, m[a], t.loc, t.requiredArgs[k].1, 0)
    else
      && (forall j :: j in m <==> j in Indices(ShapeOf(f, t.v)))
      && (forall j :: j in m ==> Describes(f, code, m[j], t.loc, t.v, j))
  }

  ghost predicate DescribesAll(f: Func, code: seq<WitInstr>, m: map<Component, WitVar>, q: Point, v: Value, s: Shape) {
    && (forall j :: j in Indices(s) ==> j in m)
    && forall j {:trigger m[j]} :: j in Indices(s) ==> Describes(f, code, m[j], q, v, j)
  }

  lemma {:induction false} DescribesAllExtends(f: Func, code: seq<WitInstr>, now: seq<WitInstr>,
                                               m: map<Component, WitVar>, q: Point, v: Value, s: Shape)
    requires DescribesAll(f, code, m, q, v, s) && code <= now
    ensures DescribesAll(f, now, m, q, v, s)
  {
  }

  lemma {:induction false} WitnessedExtends(f: Func, code: seq<WitInstr>, now: seq<WitInstr>, t: Target,
                                            m: map<Component, WitVar>)
    requires TargetOk(f, t) && Witnessed(f, code, t, m) && SameHeads(f, code, now)
    ensures Witnessed(f, now, t, m)
  {
  }

  lemma {:induction false} DescribesSame(f: Func, code: seq<WitInstr>, w: WitVar, q: Point, v: Value, j: Component,
                                         x: Value, i: Component)
    requires Describes(f, code, w, q, v, j) && SameOrigin(f, q, x, i, v, j)
    ensures Describes(f, code, w, q, x, i)
  {
    SameOriginTrans(f, q, x, i, v, j, Subject(code[w]), code[w].j);
  }

  /** The pointer of the single expected requirement that pointer j of t's instrumentee is. */
  function Via(f: Func, t: Target, j: Component): Component {
    if IsExtract(f, t) then f.insts[t.v.i].op.index else j
  }

  /** The single requirement's witness serves for t as well. */
  lemma {:induction false} SingleDescribes(f: Func, code: seq<WitInstr>, w: WitVar, open: bool, t: Target, s: Target,
                                           j: Component)
    requires WellFormed(f) && TargetOk(f, t) && TargetOk(f, s) && !t.CallInvariant? && Expected(f, t) == [s]
    requires j in Indices(ShapeOf(f, t.v))
    requires Describes(f, code, w, s.loc, s.v, Via(f, t, j)) && InstrOk(f, code, w, open)
    ensures Describes(f, code, w, t.loc, t.v, j)
  {
    if t.v.Instr? && s.Intermediate? && !IsPhiUse(f, t) {
      ForwardDescribes(f, code, w, open, t, s, j);
    } else if t.v.Constant? {
      ConstantDescribes(f, code, w, open, t, s, j);
    } else {
      SameValueDescribes(f, code, w, open, t, s, j);
    }
  }

  lemma {:induction false} SameValueDescribes(f: Func, code: seq<WitInstr>, w: WitVar, open: bool, t: Target,
                                              s: Target, j: Component)
    requires WellFormed(f) && TargetOk(f, t) && TargetOk(f, s) && !t.CallInvariant? && Expected(f, t) == [s]
    requires s.v == t.v && !t.v.Constant? && (s.Source? || IsPhiTarget(f, s))
    requires Describes(f, code, w, s.loc, s.v, j) && InstrOk(f, code, w, open)
    ensures Describes(f, code, w, t.loc, t.v, j)
  {
    if s.Source? && t.v.Instr? {
      NextOk(f, t.v.i);
      NextDominates(f, t.v.i, t.loc);
    }
    DescribesLater(f, code, w, open, s.loc, t.loc, s.v, j);
  }

  lemma {:induction false} ConstantDescribes(f: Func, code: seq<WitInstr>, w: WitVar, open: bool, t: Target,
                                             s: Target, j: Component)
    requires WellFormed(f) && TargetOk(f, t) && TargetOk(f, s) && !t.CallInvariant? && Expected(f, t) == [s]
    requires t.v.Constant? && Describes(f, code, w, s.loc, s.v, j) && InstrOk(f, code, w, open)
    ensures Describes(f, code, w, t.loc, t.v, j)
  {
    DescribesLater(f, code, w, open, s.loc, t.loc, s.v, j);
    if s.v != t.v {
      forall r, k | IsRun(f, r) && 0 <= k < |r.path| && r.path[k] == t.loc
        ensures r.ptr[k + 1](t.v, j) == r.ptr[k + 1](s.v, j)
      {
        ConstSameOrigin(f, t.v.c, j, r, k + 1);
      }
      DescribesSame(f, code, w, t.loc, s.v, j, t.v, j);
    }
  }

  predicate IsPhiUse(f: Func, t: Target) {
    t.HasInstrumentee() && t.v.Instr? && t.v.i < |f.insts| && f.insts[t.v.i].op.Phi? && !IsPhiTarget(f, t)
  }

  lemma {:induction false} ForwardDescribes(f: Func, code: seq<WitInstr>, w: WitVar, open: bool, t: Target, s: Target,
                                            j: Component)
    requires WellFormed(f) && TargetOk(f, t) && TargetOk(f, s) && !t.CallInvariant? && Expected(f, t) == [s]
    requires j in Indices(ShapeOf(f, t.v))
    requires Describes(f, code, w, s.loc, s.v, Via(f, t, j)) && InstrOk(f, code, w, open)
    requires t.v.Instr? && s.Intermediate? && !IsPhiUse(f, t)
    ensures Describes(f, code, w, t.loc, t.v, j)
  {
    var i := t.v.i;
    var at, k := f.insts[i].at, Via(f, t, j);
    assert InstOk(f, i);
    if f.insts[i].op.Phi? {
      SinglePhiSameOrigin(f, i, j);
      DescribesLater(f, code, w, open, s.loc, at, s.v, k);
    } else {
      OperandOk(f, t, 0);
      ForwardSameOrigin(f, i, j);
    }
    DescribesSame(f, code, w, at, s.v, k, t.v, j);
    DomRefl(f, at);
    DescribesLater(f, code, w, open, at, t.loc, t.v, j);
  }

  lemma {:induction false} ShortcutDescribes(f: Func, g: Nodes, n: NodeId, code: seq<WitInstr>, w: WitVar, open: bool,
                                             j: Component)
    requires WellFormed(f) && Shaped(g) && g.Has(n) && Shortcut(f, g, n)
    requires j in Indices(ShapeOf(f, g.target[n].v))
    requires
      var s := g.target[g.requirements[n][0]];
      Describes(f, code, w, s.loc, s.v, j) && InstrOk(f, code, w, open)
    ensures Describes(f, code, w, g.target[n].loc, g.target[n].v, j)
  {
    var t, s := g.target[n], g.target[g.requirements[n][0]];
    DomRefl(f, s.loc);
    DescribesLater(f, code, w, open, s.loc, t.loc, s.v, j);
    DescribesSame(f, code, w, t.loc, s.v, j, t.v, j);
  }

  // ---------------------------------------------------------------- the recursion

  type WitnessMap = map<Component, WitVar>

  predicate NeedsNoWitness(t: Target) {
    t.CallInvariant? && t.requiredArgs == []
  }

  /** Phis that still need their witness phis; each cycle of the graph contains one. */
  ghost function Unwitnessed(f: Func, g: Nodes, wit: seq<WitnessMap>): set<NodeId> {
    set n | 0 <= n < |g.target| && n < |wit| && MultiPhi(f, g.target[n]) && wit[n] == map[]
  }

  /** Witnesses and code are only added. */
  ghost predicate Later(wit: seq<WitnessMap>, code: seq<WitInstr>, wit': seq<WitnessMap>, code': seq<WitInstr>) {
    && code <= code' && |wit| == |wit'|
    && forall n {:trigger wit'[n]} :: 0 <= n < |wit| && wit[n] != map[] ==> wit'[n] == wit[n]
  }

  ghost predicate NodeWitnessed(f: Func, g: Nodes, wit: seq<WitnessMap>, code: seq<WitInstr>, n: NodeId)
    requires n < |wit| && n < |g.target|
  {
    wit[n] != map[] ==> TargetOk(f, g.target[n]) && Witnessed(f, code, g.target[n], wit[n])
  }

  ghost predicate AllWitnessed(f: Func, g: Nodes, wit: seq<WitnessMap>, code: seq<WitInstr>) {
    && |wit| == |g.target|
    && forall n :: 0 <= n < |wit| ==> NodeWitnessed(f, g, wit, code, n)
  }

  lemma {:induction false} AllWitnessedExtends(f: Func, g: Nodes, wit: seq<WitnessMap>, code: seq<WitInstr>,
                                               now: seq<WitInstr>)
    requires AllWitnessed(f, g, wit, code) && SameHeads(f, code, now)
    ensures AllWitnessed(f, g, wit, now)
  {
    forall n | 0 <= n < |wit|
      ensures NodeWitnessed(f, g, wit, now, n)
    {
      assert NodeWitnessed(f, g, wit, code, n);
      if wit[n] != map[] {
        WitnessedExtends(f, code, now, g.target[n], wit[n]);
      }
    }
  }

  lemma {:induction false} AllWitnessedSet(f: Func, g: Nodes, wit: seq<WitnessMap>, code: seq<WitInstr>, n: NodeId,
                                           m: WitnessMap)
    requires AllWitnessed(f, g, wit, code) && g.Has(n) && TargetOk(f, g.target[n]) && Witnessed(f, code, g.target[n], m)
    ensures AllWitnessed(f, g, wit[n := m], code)
  {
    var now := wit[n := m];
    forall k | 0 <= k < |now|
      ensures NodeWitnessed(f, g, now, code, k)
    {
      assert NodeWitnessed(f, g, wit, code, k);
    }
  }

  /** The numbers of consecutively inserted instructions. */
  ghost function Range(lo: nat, hi: nat): (r: set<nat>)
    ensures forall w :: w in r <==> lo <= w < hi
  {
    if lo >= hi then {} else Range(lo, hi - 1) + {hi - 1}
  }

  // ---------------------------------------------------------------- the order of creation

  /** Every node has exactly its expected requirements, and there is one internal node per target. */
  ghost predicate Full(f: Func, g: Nodes) {
    && Shaped(g) && (forall n {:trigger FullAt(f, g, n)} :: 0 <= n < |g.target| ==> FullAt(f, g, n))
    && forall m, n {:trigger Twins(g, m, n)} :: !Twins(g, m, n)
  }

  /** Two internal nodes with one target. */
  ghost predicate Twins(g: Nodes, m: NodeId, n: NodeId) {
    m < n < |g.target| && g.target[m].SuppliesWitness() && g.target[m] == g.target[n]
  }

  ghost predicate FullAt(f: Func, g: Nodes, n: NodeId)
    requires Shaped(g) && g.Has(n)
  {
    TargetOk(f, g.target[n]) && RequiredTargets(g, n) == Expected(f, g.target[n])
  }

  lemma {:induction false} CompleteIsFull(f: Func, g: Nodes)
    requires Complete(f, g)
    ensures Full(f, g)
  {
    forall n | 0 <= n < |g.target|
      ensures FullAt(f, g, n)
    {
      assert NodeOk(f, g, n, false);
    }
    forall m: NodeId, n: NodeId
      ensures !Twins(g, m, n)
    {
    }
  }

  /** The code holds the instructions of the targets in `made`, in order; exactly the internal nodes
      of these have witnesses. */
  ghost predicate InOrder(f: Func, g: Nodes, wit: seq<WitnessMap>, code: seq<WitInstr>, made: seq<Target>) {
    && Full(f, g) && |wit| == |g.target| && Outlines(code, |code|) == OutlineAll(f, made)
    && forall n {:trigger MadeOk(g, wit, made, n)} :: 0 <= n < |wit| ==> MadeOk(g, wit, made, n)
  }

  ghost predicate MadeOk(g: Nodes, wit: seq<WitnessMap>, made: seq<Target>, n: NodeId)
    requires n < |wit| == |g.target|
  {
    g.target[n].SuppliesWitness() ==> (wit[n] != map[] <==> g.target[n] in made)
  }

  /** The instructions of a target have been added. */
  ghost predicate AddsOutline(f: Func, code: seq<WitInstr>, now: seq<WitInstr>, t: Target) {
    Outlines(now, |now|) == Outlines(code, |code|) + OutlineOf(f, t)
  }

  /** Pointer indices[a] has witness number first + a. */
  ghost predicate Numbers(m: WitnessMap, indices: seq<Component>, first: nat) {
    forall a :: 0 <= a < |indices| ==> indices[a] in m && m[indices[a]] == first + a
  }

  /** One instruction for each of the first a pointers of t has been appended, and m numbers them. */
  ghost predicate WroteUpTo(f: Func, t: Target, code: seq<WitInstr>, now: seq<WitInstr>, m: WitnessMap, a: nat) {
    && Inserts(f, t) && a <= |Indices(ShapeOf(f, t.v))| && code <= now && |now| == |code| + a
    && (forall w {:trigger Outline(now[w])} :: |code| <= w < |now| ==>
          Outline(now[w]) == InsertedFor(f, t, Indices(ShapeOf(f, t.v))[w - |code|]))
    && (forall b :: 0 <= b < a ==> Indices(ShapeOf(f, t.v))[b] in m && m[Indices(ShapeOf(f, t.v))[b]] == |code| + b)
    && forall j :: j in m ==> j in Indices(ShapeOf(f, t.v))
  }

  ghost predicate Wrote(f: Func, t: Target, code: seq<WitInstr>, now: seq<WitInstr>, m: WitnessMap) {
    Inserts(f, t) && WroteUpTo(f, t, code, now, m, |Indices(ShapeOf(f, t.v))|)
  }

  lemma {:induction false} WroteMore(f: Func, t: Target, code: seq<WitInstr>, now: seq<WitInstr>, m: WitnessMap,
                                     a: nat, x: WitInstr)
    requires WroteUpTo(f, t, code, now, m, a) && a < |Indices(ShapeOf(f, t.v))| && ShapeOk(ShapeOf(f, t.v))
    requires Outline(x) == InsertedFor(f, t, Indices(ShapeOf(f, t.v))[a])
    ensures WroteUpTo(f, t, code, now + [x], m[Indices(ShapeOf(f, t.v))[a] := |now|], a + 1)
  {
    forall b: nat | b < a
      ensures Indices(ShapeOf(f, t.v))[b] != Indices(ShapeOf(f, t.v))[a]
    {
      assert Ordered(Indices(ShapeOf(f, t.v)), b, a);
    }
    forall w {:trigger Outline((now + [x])[w])} | |code| <= w < |now + [x]|
      ensures Outline((now + [x])[w]) == InsertedFor(f, t, Indices(ShapeOf(f, t.v))[w - |code|])
    {
      if w < |now| {
        assert (now + [x])[w] == now[w];
        assert Outline(now[w]) == InsertedFor(f, t, Indices(ShapeOf(f, t.v))[w - |code|]);
      }
    }
  }

  lemma {:induction false} WroteOutline(f: Func, t: Target, code: seq<WitInstr>, now: seq<WitInstr>, m: WitnessMap,
                                        a: nat)
    requires Wrote(f, t, code, now, m) && a <= |Indices(ShapeOf(f, t.v))|
    ensures Outlines(now, |code| + a) == Outlines(code, |code|) + OutlineFor(f, t, Indices(ShapeOf(f, t.v)), a)
  {
    if a > 0 {
      WroteOutline(f, t, code, now, m, a - 1);
      assert Outline(now[|code| + a - 1]) == InsertedFor(f, t, Indices(ShapeOf(f, t.v))[a - 1]);
    } else {
      OutlinesSame(code, now, |code|);
    }
  }

  lemma {:induction false} WroteOne(f: Func, t: Target, code: seq<WitInstr>, now: seq<WitInstr>, m: WitnessMap, a: nat)
    requires WellFormed(f) && TargetOk(f, t) && Wrote(f, t, code, now, m) && a < |Indices(ShapeOf(f, t.v))|
    ensures Describes(f, now, |code| + a, t.loc, t.v, Indices(ShapeOf(f, t.v))[a])
  {
    DomRefl(f, t.loc);
    assert Outline(now[|code| + a]) == InsertedFor(f, t, Indices(ShapeOf(f, t.v))[a]);
  }

  /** These are witnesses for t. */
  lemma {:induction false} WroteWitnesses(f: Func, t: Target, code: seq<WitInstr>, now: seq<WitInstr>, m: WitnessMap)
    requires WellFormed(f) && TargetOk(f, t) && Wrote(f, t, code, now, m)
    ensures Witnessed(f, now, t, m) && m != map[]
  {
    var js := Indices(ShapeOf(f, t.v));
    forall j | j in m
      ensures Describes(f, now, m[j], t.loc, t.v, j)
    {
      var a :| 0 <= a < |js| && js[a] == j;
      assert js[a] in m && m[js[a]] == |code| + a;
      WroteOne(f, t, code, now, m, a);
    }
    assert js[0] in m;
  }

  lemma {:induction false} WroteAll(f: Func, t: Target, code: seq<WitInstr>, now: seq<WitInstr>, m: WitnessMap)
    requires Wrote(f, t, code, now, m)
    ensures AddsOutline(f, code, now, t)
  {
    WroteOutline(f, t, code, now, m, |Indices(ShapeOf(f, t.v))|);
  }

  lemma {:induction false} StaysInOrder(f: Func, g: Nodes, wit: seq<WitnessMap>, code: seq<WitInstr>, made: seq<Target>,
                                        n: NodeId, m: WitnessMap, now: seq<WitInstr>)
    requires InOrder(f, g, wit, code, made) && g.Has(n) && AddsOutline(f, code, now, g.target[n])
    requires m != map[] || !g.target[n].SuppliesWitness()
    ensures InOrder(f, g, wit[n := m], now, made + [g.target[n]])
  {
    OutlineMore(f, made, g.target[n]);
    forall k {:trigger MadeOk(g, wit[n := m], made + [g.target[n]], k)} | 0 <= k < |wit|
      ensures MadeOk(g, wit[n := m], made + [g.target[n]], k)
    {
      assert MadeOk(g, wit, made, k);
      assert !Twins(g, k, n) && !Twins(g, n, k);
    }
  }

  lemma {:induction false} ExternalInOrder(f: Func, g: Nodes, wit: seq<WitnessMap>, code: seq<WitInstr>,
                                           made: seq<Target>, n: NodeId, m: WitnessMap, full: bool)
    requires full ==> InOrder(f, g, wit, code, made) && g.Has(n) && !g.target[n].SuppliesWitness()
    ensures full ==> InOrder(f, g, wit[n := m], code, made)
  {
    if full {
      forall k {:trigger MadeOk(g, wit[n := m], made, k)} | 0 <= k < |wit|
        ensures MadeOk(g, wit[n := m], made, k)
      {
        assert MadeOk(g, wit, made, k);
      }
    }
  }

  class WitnessCreator {
    const f: Func
    const g: Nodes
    ghost const live: set<NodeId>
    /** Whether the graph is the original one, without shortcuts. */
    ghost const full: bool
    var wit: seq<WitnessMap>
    var code: seq<WitInstr>
    /** The targets handled so far, for the original graph. */
    ghost var made: seq<Target>

    ghost predicate Live(n: NodeId) {
      n in live && g.Has(n)
    }

    ghost predicate Valid(open: set<WitVar>)
      reads this
    {
      && WellFormed(f) && Ready(f, g, live)
      && CodeOk(f, code, open) && (forall w :: w in open ==> w < |code|)
      && AllWitnessed(f, g, wit, code)
    }

    ghost predicate Tracked()
      reads this
    {
      full ==> InOrder(f, g, wit, code, made)
    }

    /** Since `before`, t has been handled. */
    ghost predicate HandledSince(before: seq<Target>, t: Target)
      reads this
    {
      full ==> WellFormed(f) && TargetOk(f, t) && made == Handled(f, before, t)
    }

    /** Since `before`, what t requires has been handled, up to the k-th. */
    ghost predicate HandledUpTo(before: seq<Target>, t: Target, k: nat)
      reads this
    {
      full ==> WellFormed(f) && TargetOk(f, t) && k <= |Expected(f, t)|
               && HandledFrom(f, made, t, k) == HandledFrom(f, before, t, 0)
    }

    /** Since `before`, the k-th target that t requires has been handled. */
    ghost predicate HandledStep(before: seq<Target>, t: Target, k: nat)
      reads this
    {
      full ==> WellFormed(f) && TargetOk(f, t) && k < |Expected(f, t)|
               && HandledFrom(f, made, t, k + 1) == HandledFrom(f, before, t, k)
    }

    /** Since `before`, what t requires has been handled, and last t itself. */
    ghost predicate HandledLast(before: seq<Target>, t: Target)
      reads this
    {
      full ==> WellFormed(f) && TargetOk(f, t) && made == HandledFrom(f, before, t, 0) + [t]
    }

    /** The witnesses of external nodes stay as they are. */
    ghost predicate ExternalsKept(before: seq<WitnessMap>, now: seq<WitnessMap>) {
      && |before| == |now| == |g.target|
      && forall m {:trigger now[m]} :: 0 <= m < |now| && !g.target[m].SuppliesWitness() ==> now[m] == before[m]
    }

    constructor (f: Func, g: Nodes, ghost live: set<NodeId>, ghost full: bool)
      requires WellFormed(f) && Ready(f, g, live) && (full ==> Full(f, g))
      ensures this.f == f && this.g == g && this.live == live && this.full == full
      ensures Valid({}) && code == [] && made == [] && Tracked()
      ensures wit == seq(|g.target|, _ => map[])
    {
      this.f, this.g, this.live, this.full := f, g, live, full;
      wit := seq(|g.target|, _ => map[]);
      code, made := [], [];
    }

    /** Inserts one more instruction at its place. */
    method Emit(x: WitInstr, ghost open: set<WitVar>) returns (w: WitVar)
      requires Valid(open) && InstrOk(f, code + [x], |code|, false)
      modifies this`code
      ensures Valid(open) && w == |old(code)| && code == old(code) + [x]
    {
      w := |code|;
      assert InstrOk(f, code + [x], w, w in open);
      AppendOk(f, code, x, open);
      AllWitnessedExtends(f, g, wit, code, code + [x]);
      code := code + [x];
    }

    /** Records the witnesses of n, when the instructions since `before` are those for n. */
    method SetWitnesses(n: NodeId, m: WitnessMap, ghost open: set<WitVar>, ghost before: seq<WitInstr>)
      requires Valid(open) && Live(n) && TargetOk(f, g.target[n]) && Witnessed(f, code, g.target[n], m)
      requires m != map[] && (full ==> InOrder(f, g, wit, before, made) && AddsOutline(f, before, code, g.target[n]))
      modifies this`wit, this`made
      ensures Valid(open) && wit == old(wit)[n := m] && made == old(made) + [g.target[n]] && Tracked()
    {
      AllWitnessedSet(f, g, wit, code, n, m);
      if full {
        StaysInOrder(f, g, wit, before, made, n, m, code);
      }
      wit := wit[n := m];
      made := made + [g.target[n]];
    }

    /** New witnesses, one for each pointer of a source. */
    method InsertWitnesses(n: NodeId, ghost open: set<WitVar>)
      requires Valid(open) && Live(n) && g.target[n].Source? && wit[n] == map[] && Tracked()
      modifies this
      ensures Valid(open) && Later(old(wit), old(code), wit, code) && wit[n] != map[]
      ensures ExternalsKept(old(wit), wit)
      ensures Numbers(wit[n], Indices(ShapeOf(f, g.target[n].v)), |old(code)|)
      ensures |code| == |old(code)| + |Indices(ShapeOf(f, g.target[n].v))|
      ensures Tracked() && made == old(made) + [g.target[n]]
    {
      var t := g.target[n];
      assert LiveOk(f, g, live, n);
      var m := AppendSources(t, open);
      WroteWitnesses(f, t, old(code), code, m);
      WroteAll(f, t, old(code), code, m);
      SetWitnesses(n, m, open, old(code));
    }

    method AppendSources(t: Target, ghost open: set<WitVar>) returns (m: WitnessMap)
      requires Valid(open) && t.Source? && TargetOk(f, t)
      modifies this`code
      ensures Valid(open) && Wrote(f, t, old(code), code, m)
    {
      var indices, a := Indices(ShapeOf(f, t.v)), 0;
      m := map[];
      while a < |indices|
        invariant 0 <= a <= |indices|
        invariant Valid(open) && wit == old(wit) && WroteUpTo(f, t, old(code), code, m, a)
      {
        WroteMore(f, t, old(code), code, m, a, SourceWit(t.v, indices[a], t.loc));
        var w := Emit(SourceWit(t.v, indices[a], t.loc), open);
        m := m[indices[a] := w];
        a := a + 1;
      }
    }

    /** Gives n a witness for every pointer of its instrumentee, creating the witnesses of the
        nodes it requires first. Witness phis exist before their operands are visited. */
    method CreateWitness(n: NodeId, ghost open: set<WitVar>)
      requires Valid(open) && Live(n) && Tracked()
      requires full && wit[n] != map[] ==> g.target[n].SuppliesWitness()
      modifies this
      ensures Valid(open) && Later(old(wit), old(code), wit, code)
      ensures ExternalsKept(old(wit)[n := wit[n]], wit)
      ensures wit[n] != map[] || NeedsNoWitness(g.target[n])
      ensures old(wit[n]) == map[] && g.target[n].CallInvariant? ==>
                forall k :: 0 <= k < |g.target[n].requiredArgs| ==> g.target[n].requiredArgs[k].0 in wit[n]
      ensures Tracked() && HandledSince(old(made), g.target[n])
      decreases Unwitnessed(f, g, wit), TargetDepth(f, g.target[n]), Rank(f, g.target[n]), 4
    {
      var t := g.target[n];
      assert LiveOk(f, g, live, n);
      if wit[n] != map[] {
        assert full ==> MadeOk(g, wit, made, n);
        return;
      }
      assert full ==> FullAt(f, g, n) && MadeOk(g, wit, made, n);
      if NeedsNoWitness(t) {
        MarkMade(n);
      } else if |g.requirements[n]| == 0 {
        ExpectedNonEmpty(f, t);
        InsertWitnesses(n, open);
      } else if t.CallInvariant? {
        CombineArguments(n, open);
      } else if |g.requirements[n]| == 1 {
        ReuseSingle(n, open);
      } else {
        ExpectedSeveral(f, t);
        var i := t.v.i;
        match f.insts[i].op
        case InsertValue(_, _, _, _) => CombineInsert(n, i, open);
        case Phi(_) => CombinePhi(n, i, open);
        case Select(_, _) => CombineSelect(n, i, open);
      }
    }

    /** Visits the k-th requirement of n. */
    method Visit(n: NodeId, k: nat, ghost open: set<WitVar>) returns (r: NodeId)
      requires Valid(open) && Live(n) && k < |g.requirements[n]| && Tracked()
      requires !MultiPhi(f, g.target[n]) || |g.requirements[n]| == 1
      modifies this
      ensures Valid(open) && Later(old(wit), old(code), wit, code)
      ensures ExternalsKept(old(wit), wit)
      ensures r == g.requirements[n][k] && Live(r) && wit[r] != map[] && g.target[r].SuppliesWitness()
      ensures TargetOk(f, g.target[r]) && Witnessed(f, code, g.target[r], wit[r])
      ensures Tracked() && HandledStep(old(made), g.target[n], k)
      decreases Unwitnessed(f, g, wit), TargetDepth(f, g.target[n]), Rank(f, g.target[n]), 0
    {
      r := g.requirements[n][k];
      assert LiveOk(f, g, live, n);
      RequirementBelow(f, g, live, n, k);
      CreateWitness(r, open);
      assert NodeWitnessed(f, g, wit, code, r);
      StepTaken(old(made), n, k);
    }

    /** The k-th requirement of n is its k-th expected one. */
    lemma {:induction false} StepTaken(before: seq<Target>, n: NodeId, k: nat)
      requires WellFormed(f) && Shaped(g) && g.Has(n) && k < |g.requirements[n]| && (full ==> Full(f, g))
      requires HandledSince(before, g.target[g.requirements[n][k]])
      ensures HandledStep(before, g.target[n], k)
    {
      if full {
        assert FullAt(f, g, n);
        assert Expected(f, g.target[n])[k] == g.target[g.requirements[n][k]];
      }
    }

    /** The witness of a single requirement is shared; of an aggregate, the extracted one. */
    method ReuseSingle(n: NodeId, ghost open: set<WitVar>)
      requires Valid(open) && Live(n) && wit[n] == map[] && Tracked()
      requires |g.requirements[n]| == 1 && !g.target[n].CallInvariant?
      modifies this
      ensures Valid(open) && Later(old(wit), old(code), wit, code) && wit[n] != map[]
      ensures ExternalsKept(old(wit)[n := wit[n]], wit)
      ensures Tracked() && HandledLast(old(made), g.target[n])
      decreases Unwitnessed(f, g, wit), TargetDepth(f, g.target[n]), Rank(f, g.target[n]), 1
    {
      var r := Visit(n, 0, open);
      ghost var wit0, code0 := wit, code;
      var witnesses: WitnessMap := wit[r];
      assert LiveOk(f, g, live, n);
      if IsExtract(f, g.target[n]) {
        ExtractHasPointer(f, g, live, n, r);
        witnesses := map[0 := witnesses[f.insts[g.target[n].v.i].op.index]];
      }
      SharedWitnessed(f, g, live, code, open, n, r, wit[r], witnesses);
      SingleInsertsNothing(n);
      SetWitnesses(n, witnesses, open, code);
      LaterWith(old(wit), old(code), wit0, code0, code, n, witnesses);
    }

    lemma {:induction false} SingleInsertsNothing(n: NodeId)
      requires Shaped(g) && g.Has(n) && |g.requirements[n]| == 1 && (full ==> Full(f, g))
      ensures full ==> !Inserts(f, g.target[n]) && AddsOutline(f, code, code, g.target[n])
      ensures full ==> TargetOk(f, g.target[n]) && |Expected(f, g.target[n])| == 1
    {
      if full {
        assert FullAt(f, g, n);
      }
    }

    /** Visits both requirements of n. */
    method VisitBoth(n: NodeId, ghost open: set<WitVar>) returns (r0: NodeId, r1: NodeId)
      requires Valid(open) && Live(n) && TargetOk(f, g.target[n]) && !MultiPhi(f, g.target[n]) && Tracked()
      requires RequiredTargets(g, n) == Expected(f, g.target[n]) && |g.requirements[n]| == 2
      modifies this
      ensures Valid(open) && Later(old(wit), old(code), wit, code)
      ensures ExternalsKept(old(wit), wit)
      ensures Live(r0) && Live(r1) && Expected(f, g.target[n]) == [g.target[r0], g.target[r1]]
      ensures wit[r0] != map[] && wit[r1] != map[]
      ensures Tracked() && HandledUpTo(old(made), g.target[n], 2)
      decreases Unwitnessed(f, g, wit), TargetDepth(f, g.target[n]), Rank(f, g.target[n]), 1
    {
      r0 := Visit(n, 0, open);
      UnwitnessedShrink(f, g, old(wit), wit);
      r1 := Visit(n, 1, open);
      assert Expected(f, g.target[n]) == [g.target[r0], g.target[r1]] by {
        assert RequiredTargets(g, n) == [g.target[r0], g.target[r1]];
      }
    }

    lemma {:induction false} HasWitnesses(n: NodeId, open: set<WitVar>)
      requires Valid(open) && Live(n) && wit[n] != map[]
      ensures TargetOk(f, g.target[n]) && Witnessed(f, code, g.target[n], wit[n])
    {
      assert NodeWitnessed(f, g, wit, code, n);
    }

    /** The inserted pointer's witness joins those of the aggregate. */
    method CombineInsert(n: NodeId, i: nat, ghost open: set<WitVar>)
      requires Valid(open) && Live(n) && wit[n] == map[] && TargetOk(f, g.target[n]) && Tracked()
      requires RequiredTargets(g, n) == Expected(f, g.target[n])
      requires !g.target[n].CallInvariant? && !g.target[n].Source? && g.target[n].v == Instr(i)
      requires i < |f.insts| && f.insts[i].op.InsertValue? && f.insts[i].op.pointer
      modifies this
      ensures Valid(open) && Later(old(wit), old(code), wit, code) && wit[n] != map[]
      ensures ExternalsKept(old(wit)[n := wit[n]], wit)
      ensures Tracked() && HandledLast(old(made), g.target[n])
      decreases Unwitnessed(f, g, wit), TargetDepth(f, g.target[n]), Rank(f, g.target[n]), 2
    {
      var r0, r1 := VisitBoth(n, open);
      ghost var wit0, code0 := wit, code;
      FinishInsert(n, i, r0, r1, open);
      LaterWith(old(wit), old(code), wit0, code0, code, n, wit[n]);
    }

    method FinishInsert(n: NodeId, i: nat, r0: NodeId, r1: NodeId, ghost open: set<WitVar>)
      requires Valid(open) && Live(n) && Live(r0) && Live(r1) && TargetOk(f, g.target[n]) && Tracked()
      requires !g.target[n].CallInvariant? && !g.target[n].Source? && g.target[n].v == Instr(i)
      requires i < |f.insts| && f.insts[i].op.InsertValue? && f.insts[i].op.pointer
      requires Expected(f, g.target[n]) == [g.target[r0], g.target[r1]] && wit[r0] != map[] && wit[r1] != map[]
      modifies this`wit, this`made
      ensures Valid(open) && wit[n] != map[] && wit == old(wit)[n := wit[n]]
      ensures Tracked() && made == old(made) + [g.target[n]]
    {
      var op := f.insts[i].op;
      InsertOperands(f, g.target[n], i);
      HasWitnesses(r0, open);
      HasWitnesses(r1, open);
      var elem, agg := if g.target[r0].v == op.elem then r0 else r1,
                       if g.target[r0].v == op.elem then r1 else r0;
      InsertWitnessed(f, code, open, g.target[n], i, wit[agg], wit[elem]);
      SetWitnesses(n, wit[agg][op.index := wit[elem][0]], open, code);
    }

    /** One witness select for each pointer. */
    method CombineSelect(n: NodeId, i: nat, ghost open: set<WitVar>)
      requires Valid(open) && Live(n) && wit[n] == map[] && TargetOk(f, g.target[n]) && Tracked()
      requires RequiredTargets(g, n) == Expected(f, g.target[n])
      requires !g.target[n].CallInvariant? && !g.target[n].Source? && g.target[n].v == Instr(i)
      requires i < |f.insts| && f.insts[i].op.Select?
      modifies this
      ensures Valid(open) && Later(old(wit), old(code), wit, code) && wit[n] != map[]
      ensures ExternalsKept(old(wit)[n := wit[n]], wit)
      ensures Tracked() && HandledLast(old(made), g.target[n])
      decreases Unwitnessed(f, g, wit), TargetDepth(f, g.target[n]), Rank(f, g.target[n]), 2
    {
      var r0, r1 := VisitBoth(n, open);
      HasWitnesses(r0, open);
      HasWitnesses(r1, open);
      SelectOperands(f, code, g.target[n], i, wit[r0], wit[r1]);
      ghost var wit0, code0 := wit, code;
      FinishSelect(n, i, wit[r0], wit[r1], open);
      LaterWith(old(wit), old(code), wit0, code0, code, n, wit[n]);
    }

    method FinishSelect(n: NodeId, i: nat, m0: WitnessMap, m1: WitnessMap, ghost open: set<WitVar>)
      requires Valid(open) && Live(n) && TargetOk(f, g.target[n]) && Tracked()
      requires !g.target[n].CallInvariant? && !g.target[n].Source? && g.target[n].v == Instr(i)
      requires i < |f.insts| && f.insts[i].op.Select?
      requires DescribesAll(f, code, m0, f.insts[i].at, f.insts[i].op.onTrue, f.insts[i].shape)
      requires DescribesAll(f, code, m1, f.insts[i].at, f.insts[i].op.onFalse, f.insts[i].shape)
      modifies this
      ensures Valid(open) && wit[n] != map[] && old(code) <= code && wit == old(wit)[n := wit[n]]
      ensures Tracked() && made == old(made) + [g.target[n]]
    {
      var m := InsertSelects(i, g.target[n], m0, m1, open);
      WroteWitnesses(f, g.target[n], old(code), code, m);
      WroteAll(f, g.target[n], old(code), code, m);
      SetWitnesses(n, m, open, old(code));
    }

    method InsertSelects(i: nat, t: Target, m0: WitnessMap, m1: WitnessMap, ghost open: set<WitVar>)
      returns (m: WitnessMap)
      requires Valid(open) && i < |f.insts| && f.insts[i].op.Select?
      requires TargetOk(f, t) && !t.CallInvariant? && !t.Source? && t.v == Instr(i)
      requires DescribesAll(f, code, m0, f.insts[i].at, f.insts[i].op.onTrue, f.insts[i].shape)
      requires DescribesAll(f, code, m1, f.insts[i].at, f.insts[i].op.onFalse, f.insts[i].shape)
      modifies this`code
      ensures Valid(open) && Wrote(f, t, old(code), code, m)
    {
      HasPointers(f, i);
      var indices, a := Indices(f.insts[i].shape), 0;
      m := map[];
      while a < |indices|
        invariant 0 <= a <= |indices|
        invariant Valid(open) && wit == old(wit) && WroteUpTo(f, t, old(code), code, m, a)
        invariant DescribesAll(f, code, m0, f.insts[i].at, f.insts[i].op.onTrue, f.insts[i].shape)
        invariant DescribesAll(f, code, m1, f.insts[i].at, f.insts[i].op.onFalse, f.insts[i].shape)
      {
        m := InsertSelect(i, t, a, m0, m1, m, open, old(code));
        a := a + 1;
      }
    }

    /** One select between the witnesses of the two operands, for the pointer with the a-th index. */
    method InsertSelect(i: nat, t: Target, a: nat, m0: WitnessMap, m1: WitnessMap, before: WitnessMap,
                        ghost open: set<WitVar>, ghost code0: seq<WitInstr>)
      returns (m: WitnessMap)
      requires Valid(open) && i < |f.insts| && f.insts[i].op.Select? && a < |Indices(f.insts[i].shape)|
      requires TargetOk(f, t) && !t.CallInvariant? && !t.Source? && t.v == Instr(i)
      requires DescribesAll(f, code, m0, f.insts[i].at, f.insts[i].op.onTrue, f.insts[i].shape)
      requires DescribesAll(f, code, m1, f.insts[i].at, f.insts[i].op.onFalse, f.insts[i].shape)
      requires WroteUpTo(f, t, code0, code, before, a)
      modifies this`code
      ensures Valid(open) && WroteUpTo(f, t, code0, code, m, a + 1)
      ensures
        var j := Indices(f.insts[i].shape)[a];
        code == old(code) + [SelectWit(i, j, m0[j], m1[j])] && m == before[j := |old(code)|]
      ensures DescribesAll(f, code, m0, f.insts[i].at, f.insts[i].op.onTrue, f.insts[i].shape)
      ensures DescribesAll(f, code, m1, f.insts[i].at, f.insts[i].op.onFalse, f.insts[i].shape)
    {
      var j := Indices(f.insts[i].shape)[a];
      var x := SelectWit(i, j, m0[j], m1[j]);
      DescribesAllExtends(f, code, code + [x], m0, f.insts[i].at, f.insts[i].op.onTrue, f.insts[i].shape);
      DescribesAllExtends(f, code, code + [x], m1, f.insts[i].at, f.insts[i].op.onFalse, f.insts[i].shape);
      WroteMore(f, t, code0, code, before, a, x);
      var w := Emit(x, open);
      m := before[j := w];
    }

    /** A call invariant takes over the witness of each required argument, by argument number. */
    method CombineArguments(n: NodeId, ghost open: set<WitVar>)
      requires Valid(open) && Live(n) && wit[n] == map[] && TargetOk(f, g.target[n]) && Tracked()
      requires RequiredTargets(g, n) == Expected(f, g.target[n])
      requires g.target[n].CallInvariant? && !NeedsNoWitness(g.target[n])
      modifies this
      ensures Valid(open) && Later(old(wit), old(code), wit, code) && wit[n] != map[]
      ensures ExternalsKept(old(wit)[n := wit[n]], wit)
      ensures forall k :: 0 <= k < |g.target[n].requiredArgs| ==> g.target[n].requiredArgs[k].0 in wit[n]
      ensures Tracked() && HandledLast(old(made), g.target[n])
      decreases Unwitnessed(f, g, wit), TargetDepth(f, g.target[n]), Rank(f, g.target[n]), 3
    {
      ghost var t := g.target[n];
      var k := 0;
      while k < |g.requirements[n]|
        invariant 0 <= k <= |g.requirements[n]|
        invariant Valid(open) && Later(old(wit), old(code), wit, code)
        invariant ExternalsKept(old(wit)[n := wit[n]], wit)
        invariant forall l :: 0 <= l < k ==> t.requiredArgs[l].0 in wit[n]
        invariant Tracked() && HandledUpTo(old(made), t, k)
      {
        UnwitnessedShrink(f, g, old(wit), wit);
        ghost var wit0, code0 := wit, code;
        AddArgument(n, k, open);
        LaterVia(old(wit), old(code), wit0, code0, wit, code, n);
        k := k + 1;
      }
      assert t.requiredArgs[0].0 in wit[n];
      MarkMade(n);
    }

    /** A call invariant needs no instructions of its own. */
    ghost method MarkMade(n: NodeId)
      requires g.Has(n) && g.target[n].CallInvariant? && |wit| == |g.target| && Tracked()
      modifies this`made
      ensures Tracked() && made == old(made) + [g.target[n]]
    {
      if full {
        StaysInOrder(f, g, wit, code, made, n, wit[n], code);
        assert wit[n := wit[n]] == wit;
      }
      made := made + [g.target[n]];
    }

    /** Adds the witness of the k-th required argument. */
    method AddArgument(n: NodeId, k: nat, ghost open: set<WitVar>)
      requires Valid(open) && Live(n) && k < |g.requirements[n]| && TargetOk(f, g.target[n]) && Tracked()
      requires RequiredTargets(g, n) == Expected(f, g.target[n]) && g.target[n].CallInvariant?
      modifies this
      ensures Valid(open) && Later(old(wit)[n := map[]], old(code), wit, code)
      ensures ExternalsKept(old(wit)[n := wit[n]], wit)
      ensures forall a :: a in old(wit[n]) ==> a in wit[n]
      ensures g.target[n].requiredArgs[k].0 in wit[n]
      ensures Tracked() && HandledStep(old(made), g.target[n], k)
      decreases Unwitnessed(f, g, wit), TargetDepth(f, g.target[n]), Rank(f, g.target[n]), 2
    {
      var witnesses := TakeArgument(n, k, open);
      assert Later(old(wit)[n := map[]], old(code), wit[n := witnesses], code) by {
        LaterSet(old(wit), old(code), wit, code, n, witnesses);
      }
      assert AllWitnessed(f, g, wit[n := witnesses], code) by {
        AllWitnessedSet(f, g, wit, code, n, witnesses);
      }
      ExternalInOrder(f, g, wit, code, made, n, witnesses, full);
      wit := wit[n := witnesses];
    }

    method TakeArgument(n: NodeId, k: nat, ghost open: set<WitVar>) returns (witnesses: WitnessMap)
      requires Valid(open) && Live(n) && k < |g.requirements[n]| && TargetOk(f, g.target[n]) && Tracked()
      requires RequiredTargets(g, n) == Expected(f, g.target[n]) && g.target[n].CallInvariant?
      modifies this
      ensures Valid(open) && Later(old(wit), old(code), wit, code)
      ensures ExternalsKept(old(wit), wit)
      ensures Witnessed(f, code, g.target[n], witnesses)
      ensures forall a :: a in wit[n] ==> a in witnesses
      ensures g.target[n].requiredArgs[k].0 in witnesses
      ensures Tracked() && HandledStep(old(made), g.target[n], k)
      decreases Unwitnessed(f, g, wit), TargetDepth(f, g.target[n]), Rank(f, g.target[n]), 1
    {
      var t := g.target[n];
      var r := Visit(n, k, open);
      assert g.target[r] == Expected(f, t)[k];
      assert NodeWitnessed(f, g, wit, code, n);
      witnesses := ArgumentWitnesses(f, code, t, wit[n], g.target[r], wit[r][0]);
    }

    /** Witness phis without operands first, then the operands, each with its witnesses. */
    method CombinePhi(n: NodeId, i: nat, ghost open: set<WitVar>)
      requires Valid(open) && Live(n) && wit[n] == map[] && Tracked()
      requires |g.requirements[n]| > 1 && MultiPhi(f, g.target[n]) && g.target[n].v == Instr(i)
      modifies this
      ensures Valid(open) && Later(old(wit), old(code), wit, code) && wit[n] != map[]
      ensures ExternalsKept(old(wit)[n := wit[n]], wit)
      ensures Tracked() && HandledUpTo(old(made) + [g.target[n]], g.target[n], |g.requirements[n]|)
      decreases Unwitnessed(f, g, wit), TargetDepth(f, g.target[n]), Rank(f, g.target[n]), 1
    {
      assert LiveOk(f, g, live, n) && InstOk(f, i);
      var first := |code|;
      InsertPhis(n, i, open);
      ghost var now := open + Range(first, |code|);
      assert n in Unwitnessed(f, g, old(wit)) && n !in Unwitnessed(f, g, wit);
      UnwitnessedShrink(f, g, old(wit), wit);
      ghost var wit0, code0 := wit, code;
      AddOperands(n, i, first, now);
      ClosePhis(f, code, i, Indices(f.insts[i].shape), first, open, now);
      PhiLater(old(wit), old(code), wit0, code0, wit, code);
    }

    /** Adds all operands of the phis. */
    method AddOperands(n: NodeId, i: nat, first: WitVar, ghost open: set<WitVar>)
      requires Valid(open) && Live(n) && wit[n] != map[] && TargetOk(f, g.target[n]) && Tracked()
      requires |g.requirements[n]| > 1 && MultiPhi(f, g.target[n]) && g.target[n].v == Instr(i)
      requires |g.requirements[n]| == |f.insts[i].op.incoming|
      requires Numbers(wit[n], Indices(f.insts[i].shape), first)
      requires PhisHave(code, i, Indices(f.insts[i].shape), first, 0, 0)
      requires forall w :: first <= w < first + |Indices(f.insts[i].shape)| ==> w in open
      modifies this
      ensures Valid(open) && Later(old(wit), old(code)[..first], wit, code) && |code| >= |old(code)|
      ensures ExternalsKept(old(wit), wit)
      ensures PhisHave(code, i, Indices(f.insts[i].shape), first, |f.insts[i].op.incoming|, 0)
      ensures Tracked() && HandledUpTo(old(made), g.target[n], |g.requirements[n]|)
      decreases Unwitnessed(f, g, wit)
    {
      var k := 0;
      while k < |g.requirements[n]|
        invariant 0 <= k <= |g.requirements[n]|
        invariant Valid(open) && Later(old(wit), old(code)[..first], wit, code) && |code| >= |old(code)|
        invariant ExternalsKept(old(wit), wit)
        invariant PhisHave(code, i, Indices(f.insts[i].shape), first, k, 0)
        invariant Tracked() && HandledUpTo(old(made), g.target[n], k)
      {
        UnwitnessedShrink(f, g, old(wit), wit);
        AddOperand(n, i, k, first, open);
        k := k + 1;
      }
    }

    /** Visits the k-th operand of a phi and adds its witnesses to the witness phis. */
    method AddOperand(n: NodeId, i: nat, k: nat, first: WitVar, ghost open: set<WitVar>)
      requires Valid(open) && Live(n) && wit[n] != map[] && TargetOk(f, g.target[n]) && Tracked()
      requires |g.requirements[n]| > 1 && MultiPhi(f, g.target[n]) && g.target[n].v == Instr(i)
      requires k < |g.requirements[n]| && Numbers(wit[n], Indices(f.insts[i].shape), first)
      requires PhisHave(code, i, Indices(f.insts[i].shape), first, k, 0)
      requires forall w :: first <= w < first + |Indices(f.insts[i].shape)| ==> w in open
      modifies this
      ensures Valid(open) && Later(old(wit), old(code)[..first], wit, code) && |code| >= |old(code)|
      ensures ExternalsKept(old(wit), wit)
      ensures PhisHave(code, i, Indices(f.insts[i].shape), first, k + 1, 0)
      ensures Tracked() && HandledStep(old(made), g.target[n], k)
      decreases Unwitnessed(f, g, wit), DefPoints(f), 5
    {
      var r := g.requirements[n][k];
      assert LiveOk(f, g, live, n) && LiveOk(f, g, live, r) && InstOk(f, i);
      PhiOperand(f, g, live, n, k);
      CreateWitness(r, open);
      ghost var mid := code;
      PhisHaveKept(old(code), code, i, Indices(f.insts[i].shape), first, k);
      AddIncoming(n, i, k, r, first, open);
      OperandLater(old(wit), old(code), wit, mid, code, first);
      StepTaken(old(made), n, k);
    }

    method InsertPhis(n: NodeId, i: nat, ghost open: set<WitVar>)
      requires Valid(open) && Live(n) && wit[n] == map[] && TargetOk(f, g.target[n]) && Tracked()
      requires MultiPhi(f, g.target[n]) && g.target[n].v == Instr(i)
      modifies this
      ensures |code| == |old(code)| + |Indices(f.insts[i].shape)|
      ensures Valid(open + Range(|old(code)|, |code|))
      ensures Later(old(wit), old(code), wit, code) && wit == old(wit)[n := wit[n]]
      ensures PhisHave(code, i, Indices(f.insts[i].shape), |old(code)|, 0, 0)
      ensures Numbers(wit[n], Indices(f.insts[i].shape), |old(code)|) && wit[n] != map[]
      ensures Tracked() && made == old(made) + [g.target[n]]
    {
      var m := AppendPhis(i, g.target[n], open);
      WroteWitnesses(f, g.target[n], old(code), code, m);
      WroteAll(f, g.target[n], old(code), code, m);
      SetWitnesses(n, m, open + Range(|old(code)|, |code|), old(code));
      LaterWith(old(wit), old(code), old(wit), old(code), code, n, m);
    }

    method AppendPhis(i: nat, ghost t: Target, ghost open: set<WitVar>) returns (m: WitnessMap)
      requires Valid(open) && i < |f.insts| && MultiPhi(f, t) && t.v == Instr(i)
      modifies this`code
      ensures Valid(open + Range(|old(code)|, |code|)) && Wrote(f, t, old(code), code, m)
      ensures PhisHave(code, i, Indices(f.insts[i].shape), |old(code)|, 0, 0)
    {
      m := AppendEmptyPhis(i, t);
      NewPhisOk(f, g, wit, old(code), code, i, Indices(f.insts[i].shape), open, open + Range(|old(code)|, |code|));
    }

    method AppendEmptyPhis(i: nat, ghost t: Target) returns (m: WitnessMap)
      requires WellFormed(f) && i < |f.insts| && MultiPhi(f, t) && t.v == Instr(i)
      modifies this`code
      ensures PhisHave(code, i, Indices(f.insts[i].shape), |old(code)|, 0, 0)
      ensures Wrote(f, t, old(code), code, m)
    {
      HasPointers(f, i);
      var indices, a := Indices(f.insts[i].shape), 0;
      m := map[];
      while a < |indices|
        invariant 0 <= a <= |indices| && WroteUpTo(f, t, old(code), code, m, a)
        invariant forall w :: |old(code)| <= w < |code| ==> code[w] == PhiWit(i, indices[w - |old(code)|], [])
      {
        WroteMore(f, t, old(code), code, m, a, PhiWit(i, indices[a], []));
        m := m[indices[a] := |code|];
        code := code + [PhiWit(i, indices[a], [])];
        a := a + 1;
      }
    }

    /** Adds the witnesses of operand k to the phis. */
    method AddIncoming(n: NodeId, i: nat, k: nat, r: NodeId, first: WitVar, ghost open: set<WitVar>)
      requires Valid(open) && Live(n) && Live(r) && wit[n] != map[] && wit[r] != map[]
      requires i < |f.insts| && f.insts[i].op.Phi? && k < |f.insts[i].op.incoming|
      requires g.target[r] == Intermediate(f.insts[i].op.incoming[k].value, f.insts[i].op.incoming[k].from)
      requires PhisHave(code, i, Indices(f.insts[i].shape), first, k, 0)
      requires Numbers(wit[n], Indices(f.insts[i].shape), first)
      requires forall w :: first <= w < first + |Indices(f.insts[i].shape)| ==> w in open
      requires Tracked()
      modifies this`code
      ensures Valid(open) && |code| == |old(code)| && code[..first] == old(code)[..first] && Tracked()
      ensures PhisHave(code, i, Indices(f.insts[i].shape), first, k + 1, 0)
    {
      var indices, a := Indices(f.insts[i].shape), 0;
      assert InstOk(f, i) && LiveOk(f, g, live, r) && LiveOk(f, g, live, n);
      while a < |indices|
        invariant 0 <= a <= |indices|
        invariant Valid(open) && |code| == |old(code)| && code[..first] == old(code)[..first] && Tracked()
        invariant PhisHave(code, i, indices, first, k, a)
      {
        AddOneIncoming(n, i, k, r, first, a, open);
        a := a + 1;
      }
    }

    method AddOneIncoming(n: NodeId, i: nat, k: nat, r: NodeId, first: WitVar, a: nat, ghost open: set<WitVar>)
      requires Valid(open) && Live(n) && Live(r) && wit[r] != map[] && Tracked()
      requires i < |f.insts| && f.insts[i].op.Phi? && k < |f.insts[i].op.incoming|
      requires g.target[r] == Intermediate(f.insts[i].op.incoming[k].value, f.insts[i].op.incoming[k].from)
      requires ShapeOf(f, f.insts[i].op.incoming[k].value) == f.insts[i].shape
      requires PhisHave(code, i, Indices(f.insts[i].shape), first, k, a)
      requires Numbers(wit[n], Indices(f.insts[i].shape), first) && a < |Indices(f.insts[i].shape)|
      requires first + a in open
      modifies this`code
      ensures Valid(open) && |code| == |old(code)| && code[..first] == old(code)[..first] && Tracked()
      ensures PhisHave(code, i, Indices(f.insts[i].shape), first, k, a + 1)
    {
      var indices := Indices(f.insts[i].shape);
      var j, w := indices[a], wit[n][indices[a]];
      assert NodeWitnessed(f, g, wit, code, r);
      ghost var before := code;
      AppendIncoming(w, wit[r][j], f.insts[i].op.incoming[k].from, open);
      PhisHaveMore(before, code, i, indices, first, k, a);
    }

    method AppendIncoming(w: WitVar, x: WitVar, from: Point, ghost open: set<WitVar>)
      requires Valid(open) && w < |code| && code[w].PhiWit? && w in open
      requires code[w].i < |f.insts| && f.insts[code[w].i].op.Phi?
      requires |code[w].incoming| < |f.insts[code[w].i].op.incoming|
      requires from == f.insts[code[w].i].op.incoming[|code[w].incoming|].from
      requires Describes(f, code, x, from, f.insts[code[w].i].op.incoming[|code[w].incoming|].value, code[w].j)
      requires Tracked()
      modifies this`code
      ensures Valid(open) && Tracked()
      ensures code == old(code)[w := old(code[w]).(incoming := old(code[w]).incoming + [(x, from)])]
    {
      ghost var now := code[w := code[w].(incoming := code[w].incoming + [(x, from)])];
      forall u | 0 <= u < |now|
        ensures InstrOk(f, now, u, u in open)
      {
        assert InstrOk(f, code, u, u in open);
        if u != w {
          InstrOkExtends(f, code, now, u, u in open);
        } else {
          PhiOkAppends(f, code, now, w);
        }
      }
      OutlinesSame(code, now, |code|);
      AllWitnessedExtends(f, g, wit, code, now);
      code := code[w := code[w].(incoming := code[w].incoming + [(x, from)])];
    }
  }

  lemma {:induction false} PhiOperand(f: Func, g: Nodes, live: set<NodeId>, n: NodeId, k: nat)
    requires WellFormed(f) && Ready(f, g, live) && n in live && g.Has(n) && k < |g.requirements[n]|
    requires |g.requirements[n]| > 1 && MultiPhi(f, g.target[n])
    ensures g.Has(g.requirements[n][k]) && |g.requirements[n]| == |f.insts[g.target[n].v.i].op.incoming|
    ensures
      var (r, op) := (g.target[g.requirements[n][k]], f.insts[g.target[n].v.i].op.incoming[k]);
      r == Intermediate(op.value, op.from) && TargetDepth(f, r) <= DefPoints(f) && Rank(f, r) < 5
  {
    assert LiveOk(f, g, live, n);
    assert g.target[g.requirements[n][k]] == Expected(f, g.target[n])[k];
    DepthBound(f, Expected(f, g.target[n])[k].v);
  }

  lemma {:induction false} OperandLater(w0: seq<WitnessMap>, c0: seq<WitInstr>, w1: seq<WitnessMap>,
                                        c1: seq<WitInstr>, c2: seq<WitInstr>, first: nat)
    requires Later(w0, c0, w1, c1) && first <= |c0| && |c2| == |c1| && c2[..first] == c1[..first]
    ensures Later(w0, c0[..first], w1, c2)
  {
  }

  lemma {:induction false} PhisHaveKept(code: seq<WitInstr>, now: seq<WitInstr>, i: nat, indices: seq<Component>,
                                        first: nat, k: nat)
    requires PhisHave(code, i, indices, first, k, 0) && code <= now
    ensures PhisHave(now, i, indices, first, k, 0)
  {
  }

  lemma {:induction false} PhiLater(w0: seq<WitnessMap>, c0: seq<WitInstr>, w1: seq<WitnessMap>, c1: seq<WitInstr>,
                                    w2: seq<WitnessMap>, c2: seq<WitInstr>)
    requires Later(w0, c0, w1, c1) && Later(w1, c1[..|c0|], w2, c2)
    ensures Later(w0, c0, w2, c2)
  {
  }

  lemma {:induction false} ExpectedNonEmpty(f: Func, t: Target)
    requires WellFormed(f) && TargetOk(f, t) && Expected(f, t) == []
    ensures t.Source? || NeedsNoWitness(t)
  {
    if !t.CallInvariant? && t.v.Instr? {
      assert InstOk(f, t.v.i);
    }
  }

  /** In a finished graph the internal nodes without requirements are exactly the sources. */
  lemma {:induction false} RootsAreSources(f: Func, g: Nodes, n: NodeId)
    requires WellFormed(f) && Complete(f, g) && g.Has(n) && g.target[n].SuppliesWitness()
    ensures g.requirements[n] == [] <==> g.target[n].Source?
  {
    assert NodeOk(f, g, n, false);
    if g.requirements[n] == [] {
      ExpectedNonEmpty(f, g.target[n]);
    }
  }

  lemma {:induction false} ExpectedSeveral(f: Func, t: Target)
    requires WellFormed(f) && TargetOk(f, t) && !t.CallInvariant? && |Expected(f, t)| > 1
    ensures t.v.Instr? && !t.Source?
    ensures f.insts[t.v.i].op.Select? || MultiPhi(f, t) || (f.insts[t.v.i].op.InsertValue? && f.insts[t.v.i].op.pointer)
  {
  }

  lemma {:induction false} ExpectedInternal(f: Func, t: Target, k: nat)
    requires TargetOk(f, t) && k < |Expected(f, t)|
    ensures Expected(f, t)[k].SuppliesWitness()
  {
  }

  /** Outside phis with several operands, the recursion descends. */
  lemma {:induction false} RequirementBelow(f: Func, g: Nodes, live: set<NodeId>, n: NodeId, k: nat)
    requires WellFormed(f) && Ready(f, g, live) && n in live && g.Has(n) && k < |g.requirements[n]|
    requires !MultiPhi(f, g.target[n]) || |g.requirements[n]| == 1
    ensures
      var s := g.target[g.requirements[n][k]];
      s.SuppliesWitness() && Below(f, s, g.target[n])
  {
    assert LiveOk(f, g, live, n);
    if RequiredTargets(g, n) == Expected(f, g.target[n]) {
      ExpectedInternal(f, g.target[n], k);
      ExpectedBelow(f, g.target[n], k);
    }
  }

  // ---------------------------------------------------------------- steps of the recursion

  lemma {:induction false} UnwitnessedShrink(f: Func, g: Nodes, wit: seq<WitnessMap>, now: seq<WitnessMap>)
    requires |wit| == |now| && forall n :: 0 <= n < |wit| && wit[n] != map[] ==> now[n] == wit[n]
    ensures Unwitnessed(f, g, now) <= Unwitnessed(f, g, wit)
  {
  }

  lemma {:induction false} LaterSet(w0: seq<WitnessMap>, c0: seq<WitInstr>, w1: seq<WitnessMap>, c1: seq<WitInstr>,
                                    n: NodeId, m: WitnessMap)
    requires Later(w0, c0, w1, c1) && n < |w0|
    ensures Later(w0[n := map[]], c0, w1[n := m], c1)
  {
  }

  lemma {:induction false} LaterWith(w0: seq<WitnessMap>, c0: seq<WitInstr>, w1: seq<WitnessMap>, c1: seq<WitInstr>,
                                     c2: seq<WitInstr>, n: NodeId, m: WitnessMap)
    requires Later(w0, c0, w1, c1) && n < |w0| && w0[n] == map[] && c1 <= c2
    ensures Later(w0, c0, w1[n := m], c2)
  {
  }

  lemma {:induction false} LaterVia(w0: seq<WitnessMap>, c0: seq<WitInstr>, w1: seq<WitnessMap>, c1: seq<WitInstr>,
                                    w2: seq<WitnessMap>, c2: seq<WitInstr>, n: NodeId)
    requires Later(w0, c0, w1, c1) && n < |w0| && w0[n] == map[] && Later(w1[n := map[]], c1, w2, c2)
    ensures Later(w0, c0, w2, c2)
  {
  }

  /** The phis from `first` on are those for `indices`; the first `more` of them have k + 1
      incoming witnesses each, the others k. */
  ghost predicate PhisHave(code: seq<WitInstr>, i: nat, indices: seq<Component>, first: nat, k: nat, more: nat) {
    && first + |indices| <= |code|
    && forall w :: first <= w < first + |indices| ==>
         && code[w].PhiWit? && code[w].i == i && code[w].j == indices[w - first]
         && |code[w].incoming| == if w < first + more then k + 1 else k
  }

  lemma {:induction false} PhisHaveMore(code: seq<WitInstr>, now: seq<WitInstr>, i: nat, indices: seq<Component>,
                                        first: nat, k: nat, a: nat)
    requires PhisHave(code, i, indices, first, k, a) && a < |indices| && |now| == |code|
    requires forall w :: 0 <= w < |code| && w != first + a ==> now[w] == code[w]
    requires
      var x, y := code[first + a], now[first + a];
      y.PhiWit? && y.i == x.i && y.j == x.j && |y.incoming| == |x.incoming| + 1
    ensures PhisHave(now, i, indices, first, k, a + 1)
  {
  }

  lemma {:induction false} NewPhisOk(f: Func, g: Nodes, wit: seq<WitnessMap>, code: seq<WitInstr>, now: seq<WitInstr>,
                                     i: nat, indices: seq<Component>, open: set<WitVar>, still: set<WitVar>)
    requires CodeOk(f, code, open) && AllWitnessed(f, g, wit, code) && i < |f.insts| && f.insts[i].op.Phi?
    requires code <= now && |now| == |code| + |indices| && PhisHave(now, i, indices, |code|, 0, 0)
    requires still == open + Range(|code|, |now|)
    ensures CodeOk(f, now, still) && AllWitnessed(f, g, wit, now)
  {
    AllWitnessedExtends(f, g, wit, code, now);
    forall w | 0 <= w < |now|
      ensures InstrOk(f, now, w, w in still)
    {
      if w < |code| {
        InstrOkExtends(f, code, now, w, w in open);
      }
    }
  }

  lemma {:induction false} ClosePhis(f: Func, code: seq<WitInstr>, i: nat, indices: seq<Component>, first: nat,
                                     open: set<WitVar>, now: set<WitVar>)
    requires CodeOk(f, code, now) && i < |f.insts| && f.insts[i].op.Phi?
    requires PhisHave(code, i, indices, first, |f.insts[i].op.incoming|, 0)
    requires now == open + Range(first, first + |indices|)
    ensures CodeOk(f, code, open)
  {
    forall w | 0 <= w < |code|
      ensures InstrOk(f, code, w, w in open)
    {
      assert InstrOk(f, code, w, w in now);
    }
  }

  lemma {:induction false} PhiOkAppends(f: Func, code: seq<WitInstr>, now: seq<WitInstr>, w: WitVar)
    requires w < |code| && InstrOk(f, code, w, true) && code[w].PhiWit? && SameHeads(f, code, now)
    requires now[w].PhiWit? && |now[w].incoming| == |code[w].incoming| + 1 && code[w].incoming <= now[w].incoming
    requires code[w].i < |f.insts| && f.insts[code[w].i].op.Phi?
    requires |code[w].incoming| < |f.insts[code[w].i].op.incoming|
    requires
      var op, (x, from) := f.insts[code[w].i].op.incoming[|code[w].incoming|], now[w].incoming[|code[w].incoming|];
      from == op.from && Describes(f, code, x, from, op.value, code[w].j)
    ensures InstrOk(f, now, w, true)
  {
  }

  lemma {:induction false} ExtractHasPointer(f: Func, g: Nodes, live: set<NodeId>, n: NodeId, r: NodeId)
    requires WellFormed(f) && Ready(f, g, live) && n in live && g.Has(n) && g.Has(r) && g.requirements[n] == [r]
    requires IsExtract(f, g.target[n])
    ensures !g.target[r].CallInvariant? && f.insts[g.target[n].v.i].op.index in Indices(ShapeOf(f, g.target[r].v))
  {
    assert LiveOk(f, g, live, n) && InstOk(f, g.target[n].v.i);
    assert g.target[r] == Expected(f, g.target[n])[0];
  }

  lemma {:induction false} SharedWitnessed(f: Func, g: Nodes, live: set<NodeId>, code: seq<WitInstr>,
                                           open: set<WitVar>, n: NodeId, r: NodeId, theirs: WitnessMap,
                                           ours: WitnessMap)
    requires WellFormed(f) && Ready(f, g, live) && CodeOk(f, code, open)
    requires n in live && g.Has(n) && g.Has(r) && g.requirements[n] == [r] && !g.target[n].CallInvariant?
    requires TargetOk(f, g.target[r]) && g.target[r].SuppliesWitness() && Witnessed(f, code, g.target[r], theirs)
    requires
      if IsExtract(f, g.target[n]) then
        var k := f.insts[g.target[n].v.i].op.index;
        k in theirs && ours == map[0 := theirs[k]]
      else ours == theirs
    ensures TargetOk(f, g.target[n]) && Witnessed(f, code, g.target[n], ours) && ours != map[]
  {
    var t, s := g.target[n], g.target[r];
    assert LiveOk(f, g, live, n);
    SharedShape(f, g, live, n, r);
    forall j | j in Indices(ShapeOf(f, t.v))
      ensures j in ours && Describes(f, code, ours[j], t.loc, t.v, j)
    {
      var w := ours[j];
      assert Describes(f, code, w, s.loc, s.v, Via(f, t, j));
      assert InstrOk(f, code, w, w in open);
      if Shortcut(f, g, n) {
        ShortcutDescribes(f, g, n, code, w, w in open, j);
      } else {
        assert Expected(f, t) == [s];
        SingleDescribes(f, code, w, w in open, t, s, j);
      }
    }
    assert Indices(ShapeOf(f, t.v))[0] in ours;
  }

  lemma {:induction false} SharedShape(f: Func, g: Nodes, live: set<NodeId>, n: NodeId, r: NodeId)
    requires WellFormed(f) && Ready(f, g, live)
    requires n in live && g.Has(n) && g.Has(r) && g.requirements[n] == [r] && !g.target[n].CallInvariant?
    ensures !g.target[r].CallInvariant?
    ensures IsExtract(f, g.target[n]) ==> ShapeOf(f, g.target[n].v) == Pointer
    ensures !IsExtract(f, g.target[n]) ==> ShapeOf(f, g.target[n].v) == ShapeOf(f, g.target[r].v)
  {
    var t := g.target[n];
    assert LiveOk(f, g, live, n);
    if RequiredTargets(g, n) == Expected(f, t) {
      assert Expected(f, t)[0] == g.target[r];
      if t.v.Instr? {
        assert InstOk(f, t.v.i);
      }
    }
  }

  lemma {:induction false} SelectOperands(f: Func, code: seq<WitInstr>, t: Target, i: nat, m0: WitnessMap,
                                          m1: WitnessMap)
    requires WellFormed(f) && TargetOk(f, t) && !t.CallInvariant? && !t.Source? && t.v == Instr(i)
    requires i < |f.insts| && f.insts[i].op.Select?
    requires TargetOk(f, Expected(f, t)[0]) && Witnessed(f, code, Expected(f, t)[0], m0)
    requires TargetOk(f, Expected(f, t)[1]) && Witnessed(f, code, Expected(f, t)[1], m1)
    ensures DescribesAll(f, code, m0, f.insts[i].at, f.insts[i].op.onTrue, f.insts[i].shape)
    ensures DescribesAll(f, code, m1, f.insts[i].at, f.insts[i].op.onFalse, f.insts[i].shape)
  {
    assert InstOk(f, i);
  }

  lemma {:induction false} InsertOperands(f: Func, t: Target, i: nat)
    requires WellFormed(f) && TargetOk(f, t) && !t.CallInvariant? && !t.Source? && t.v == Instr(i)
    requires i < |f.insts| && f.insts[i].op.InsertValue? && f.insts[i].op.pointer
    ensures Expected(f, t) ==
            [Intermediate(f.insts[i].op.agg, f.insts[i].at), Intermediate(f.insts[i].op.elem, f.insts[i].at)]
    ensures f.insts[i].op.agg != f.insts[i].op.elem
  {
    assert InstOk(f, i);
  }

  lemma {:induction false} InsertWitnessed(f: Func, code: seq<WitInstr>, open: set<WitVar>, t: Target, i: nat,
                                           aggWit: WitnessMap, elemWit: WitnessMap)
    requires WellFormed(f) && CodeOk(f, code, open)
    requires i < |f.insts| && f.insts[i].op.InsertValue? && f.insts[i].op.pointer
    requires TargetOk(f, t) && !t.CallInvariant? && t.v == Instr(i)
    requires
      var agg := Intermediate(f.insts[i].op.agg, f.insts[i].at);
      TargetOk(f, agg) && Witnessed(f, code, agg, aggWit)
    requires
      var elem := Intermediate(f.insts[i].op.elem, f.insts[i].at);
      TargetOk(f, elem) && Witnessed(f, code, elem, elemWit)
    ensures 0 in elemWit && aggWit[f.insts[i].op.index := elemWit[0]] != map[]
    ensures Witnessed(f, code, t, aggWit[f.insts[i].op.index := elemWit[0]])
  {
    var op, at := f.insts[i].op, f.insts[i].at;
    assert InstOk(f, i);
    assert 0 in Indices(ShapeOf(f, op.elem));
    var m := aggWit[op.index := elemWit[0]];
    forall j | j in Indices(ShapeOf(f, t.v))
      ensures j in m && Describes(f, code, m[j], t.loc, t.v, j)
    {
      ForwardSameOrigin(f, i, j);
      var (v, k) := Forwards(f, i, j);
      assert Describes(f, code, m[j], at, v, k);
      assert InstrOk(f, code, m[j], m[j] in open);
      DescribesSame(f, code, m[j], at, v, k, t.v, j);
      DomRefl(f, at);
      DescribesLater(f, code, m[j], m[j] in open, at, t.loc, t.v, j);
    }
    assert op.index in m;
  }

  /** Records the witness for every argument position the value is passed at. */
  method ArgumentWitnesses(f: Func, ghost code: seq<WitInstr>, t: Target, old_: WitnessMap, s: Target, w: WitVar)
    returns (m: WitnessMap)
    requires t.CallInvariant? && TargetOk(f, t) && Witnessed(f, code, t, old_)
    requires s.Intermediate? && s.loc == t.loc && Describes(f, code, w, t.loc, s.v, 0)
    requires exists k :: 0 <= k < |t.requiredArgs| && t.requiredArgs[k].1 == s.v
    ensures Witnessed(f, code, t, m) && m != map[]
    ensures forall a :: a in old_ ==> a in m
    ensures forall k :: 0 <= k < |t.requiredArgs| && t.requiredArgs[k].1 == s.v ==> t.requiredArgs[k].0 in m
  {
    m := old_;
    var k := 0;
    while k < |t.requiredArgs|
      invariant 0 <= k <= |t.requiredArgs| && Witnessed(f, code, t, m)
      invariant forall a :: a in old_ ==> a in m
      invariant forall l :: 0 <= l < k && t.requiredArgs[l].1 == s.v ==> t.requiredArgs[l].0 in m
    {
      if t.requiredArgs[k].1 == s.v {
        m := m[t.requiredArgs[k].0 := w];
      }
      k := k + 1;
    }
    ghost var l :| 0 <= l < |t.requiredArgs| && t.requiredArgs[l].1 == s.v;
    assert t.requiredArgs[l].0 in m;
  }
}

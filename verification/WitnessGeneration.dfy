/** The phases of witness generation: build the graph, propagate flags, simplify, and create the
    witnesses of all remaining targets. */
module WitnessGeneration {
  import opened AscendingLists
  import opened Ssa
  import opened Targets
  import opened WitnessGraphs
  import opened WitnessCode
  import opened CreationOrder
  import opened WitnessCreation
  import opened Walks
  import opened FlagPropagation
  import opened Displacement
  import opened Unchanged
  import opened PhiTermination
  import opened Simplification
  import opened TameFunctions

  datatype Outcome = Generated | Unsupported | GaveUp

  /** A target with a witness for exactly the pointers, or required arguments, it needs. */
  ghost predicate FullyWitnessed(f: Func, code: seq<WitInstr>, t: Target, m: WitnessMap) {
    && TargetOk(f, t) && Witnessed(f, code, t, m)
    && (t.CallInvariant? ==> CoversArguments(t, m))
  }

  ghost predicate CoversArguments(t: Target, m: WitnessMap)
    requires t.CallInvariant?
  {
    forall k :: 0 <= k < |t.requiredArgs| ==> t.requiredArgs[k].0 in m
  }

  /** The call's required arguments, by number. */
  lemma {:induction false} ExactArguments(f: Func, code: seq<WitInstr>, t: Target, m: WitnessMap, k: nat)
    requires FullyWitnessed(f, code, t, m) && t.CallInvariant?
    ensures m.Keys == set l | 0 <= l < |t.requiredArgs| :: t.requiredArgs[l].0
    ensures k < |t.requiredArgs| ==>
              Describes(f, code, m[t.requiredArgs[k].0], t.loc, t.requiredArgs[k].1, 0)
  {
    if k < |t.requiredArgs| {
      var a := t.requiredArgs[k].0;
      var l :| 0 <= l < |t.requiredArgs| && t.requiredArgs[l].0 == a
               && Describes(f, code, m[a], t.loc, t.requiredArgs[l].1, 0);
      assert l == k;
    }
  }

  /** nodeOf[k] is the external node of the k-th target. */
  ghost predicate Inserted(targets: seq<Target>, g: Nodes, nodeOf: seq<NodeId>) {
    && |nodeOf| == |targets|
    && (forall k :: 0 <= k < |nodeOf| ==> g.Has(nodeOf[k]) && g.target[nodeOf[k]] == targets[k])
    && Ascending(nodeOf)
  }

  method BuildGraph(f: Func, targets: seq<Target>) returns (wg: WitnessGraph)
    requires WellFormed(f) && TargetsOk(f, targets)
    ensures fresh(wg) && wg.f == f && wg.Valid({}) && Complete(f, wg.nodes)
    ensures Inserted(targets, wg.nodes, wg.externalNodes)
    ensures (forall k :: 0 <= k < |targets| ==> !targets[k].CallInvariant?) ==> NoCalls(wg.nodes)
  {
    wg := new WitnessGraph(f);
    var k := 0;
    while k < |targets|
      invariant 0 <= k <= |targets|
      invariant fresh(wg) && wg.f == f && wg.Valid({}) && Complete(f, wg.nodes)
      invariant Inserted(targets[..k], wg.nodes, wg.externalNodes)
    {
      ghost var more := |wg.nodes.target|;
      AscendingMore(wg.externalNodes, more);
      wg.InsertRequiredTarget(targets[k]);
      k := k + 1;
    }
    assert targets[..k] == targets;
    CallsStem(targets, wg);
  }

  /** The nodes of call invariants are those of targets. */
  lemma {:induction false} CallsStem(targets: seq<Target>, wg: WitnessGraph)
    requires wg.Listed() && Inserted(targets, wg.nodes, wg.externalNodes)
    ensures (forall k :: 0 <= k < |targets| ==> !targets[k].CallInvariant?) ==> NoCalls(wg.nodes)
  {
    if forall k :: 0 <= k < |targets| ==> !targets[k].CallInvariant? {
      forall n | 0 <= n < |wg.nodes.target|
        ensures !wg.nodes.target[n].CallInvariant?
      {
        if n in wg.externalNodes {
          var k :| 0 <= k < |targets| && wg.externalNodes[k] == n;
        }
      }
    }
  }

  // ---------------------------------------------------------------- creating the witnesses

  /** A call invariant either has no witnesses yet or those of all its arguments. */
  ghost predicate CallsWhole(g: Nodes, wit: seq<WitnessMap>) {
    && |wit| == |g.target|
    && forall m :: 0 <= m < |wit| && g.target[m].CallInvariant? ==>
         wit[m] == map[] || CoversArguments(g.target[m], wit[m])
  }

  /** Creates the witnesses of all external nodes in order. For the original graph, `full`, the
      code holds the instructions of the targets in the order in which they are handled. */
  method CreateWitnesses(f: Func, g: Nodes, ghost live: set<NodeId>, external: seq<NodeId>, ghost full: bool,
                         ghost targets: seq<Target>)
    returns (code: seq<WitInstr>, wit: seq<WitnessMap>)
    requires WellFormed(f) && Ready(f, g, live)
    requires forall k :: 0 <= k < |external| ==> external[k] in live && g.Has(external[k])
    requires full ==> Full(f, g) && Inserted(targets, g, external) && TargetsOk(f, targets)
    ensures CodeDone(f, code) && |wit| == |g.target|
    ensures full ==> InOrderOf(f, targets, code)
    ensures forall k :: 0 <= k < |external| ==>
              g.Has(external[k]) && FullyWitnessed(f, code, g.target[external[k]], wit[external[k]])
  {
    var creator := new WitnessCreator(f, g, live, full);
    Started(creator, targets, external);
    CreateAll(creator, targets, external);
    Finished(creator, targets, external);
    code, wit := creator.code, creator.wit;
  }

  method CreateAll(creator: WitnessCreator, ghost targets: seq<Target>, external: seq<NodeId>)
    requires Underway(creator, targets, external, 0)
    modifies creator
    ensures Underway(creator, targets, external, |external|)
  {
    for k := 0 to |external|
      invariant Underway(creator, targets, external, k)
    {
      CreateNext(creator, targets, external, k);
    }
  }

  lemma {:induction false} Started(c: WitnessCreator, targets: seq<Target>, external: seq<NodeId>)
    requires c.Valid({}) && c.Tracked() && c.wit == seq(|c.g.target|, _ => map[]) && c.made == []
    requires Given(c.f, c.g, c.live, c.full, targets, external)
    ensures Underway(c, targets, external, 0)
  {
  }

  lemma {:induction false} Finished(c: WitnessCreator, targets: seq<Target>, external: seq<NodeId>)
    requires Underway(c, targets, external, |external|)
    ensures CodeDone(c.f, c.code) && |c.wit| == |c.g.target|
    ensures c.full ==> WellFormed(c.f) && TargetsOk(c.f, targets) && InOrderOf(c.f, targets, c.code)
    ensures forall k :: 0 <= k < |external| ==>
              c.g.Has(external[k]) && FullyWitnessed(c.f, c.code, c.g.target[external[k]], c.wit[external[k]])
  {
    NothingOpen(c.f, c.code, {});
    AllFullyWitnessed(c.f, c.g, c.live, c.wit, c.code, external);
  }

  lemma {:induction false} AllFullyWitnessed(f: Func, g: Nodes, live: set<NodeId>, wit: seq<WitnessMap>,
                                             code: seq<WitInstr>, external: seq<NodeId>)
    requires Ready(f, g, live) && AllWitnessed(f, g, wit, code) && CallsWhole(g, wit)
    requires forall k :: 0 <= k < |external| ==> external[k] in live && Supplied(g, wit, external[k])
    ensures forall k :: 0 <= k < |external| ==>
              g.Has(external[k]) && FullyWitnessed(f, code, g.target[external[k]], wit[external[k]])
  {
    forall l | 0 <= l < |external|
      ensures g.Has(external[l]) && FullyWitnessed(f, code, g.target[external[l]], wit[external[l]])
    {
      FullyWitnessedAt(f, g, live, wit, code, external[l]);
    }
  }

  lemma {:induction false} FullyWitnessedAt(f: Func, g: Nodes, live: set<NodeId>, wit: seq<WitnessMap>,
                                            code: seq<WitInstr>, n: NodeId)
    requires Ready(f, g, live) && n in live && AllWitnessed(f, g, wit, code) && CallsWhole(g, wit)
    requires Supplied(g, wit, n)
    ensures FullyWitnessed(f, code, g.target[n], wit[n])
  {
    assert LiveOk(f, g, live, n) && NodeWitnessed(f, g, wit, code, n);
  }

  ghost predicate Supplied(g: Nodes, wit: seq<WitnessMap>, n: NodeId) {
    g.Has(n) && n < |wit| && (wit[n] != map[] || NeedsNoWitness(g.target[n]))
  }

  /** What is to be done: the external nodes are live; of the original graph, they are those of the targets. */
  ghost predicate Given(f: Func, g: Nodes, live: set<NodeId>, full: bool, targets: seq<Target>, external: seq<NodeId>) {
    && (forall k :: 0 <= k < |external| ==> external[k] in live && g.Has(external[k]))
    && (full ==> WellFormed(f) && Inserted(targets, g, external) && TargetsOk(f, targets))
  }

  /** The first k external nodes have been handled. */
  ghost predicate Underway(c: WitnessCreator, targets: seq<Target>, external: seq<NodeId>, k: nat)
    reads c
  {
    && k <= |external| && Given(c.f, c.g, c.live, c.full, targets, external)
    && c.Valid({}) && c.Tracked() && CallsWhole(c.g, c.wit)
    && (forall l :: 0 <= l < k ==> Supplied(c.g, c.wit, external[l]))
    && (c.full ==> c.made == HandledAll(c.f, targets, k) && NotYet(c.g, c.wit, external, k))
  }

  method CreateNext(c: WitnessCreator, ghost targets: seq<Target>, external: seq<NodeId>, k: nat)
    requires k < |external| && Underway(c, targets, external, k)
    modifies c
    ensures Underway(c, targets, external, k + 1)
  {
    var e := external[k];
    assert LiveOk(c.f, c.g, c.live, e);
    ghost var before := c.wit;
    c.CreateWitness(e, {});
    CallsStayWhole(c.g, before, c.wit, e);
    if c.full {
      RestWaits(c.g, before, c.wit, targets, external, k);
    }
  }

  /** The external nodes from the k-th on have no witnesses yet. */
  ghost predicate NotYet(g: Nodes, wit: seq<WitnessMap>, external: seq<NodeId>, k: nat) {
    forall l :: k <= l < |external| ==> external[l] < |wit| && wit[external[l]] == map[]
  }

  lemma {:induction false} RestWaits(g: Nodes, before: seq<WitnessMap>, now: seq<WitnessMap>, targets: seq<Target>,
                                     external: seq<NodeId>, k: nat)
    requires Inserted(targets, g, external) && k < |external| && NotYet(g, before, external, k)
    requires |now| == |before| == |g.target| && forall l :: 0 <= l < |targets| ==> !targets[l].SuppliesWitness()
    requires forall m {:trigger now[m]} :: 0 <= m < |now| && !g.target[m].SuppliesWitness() ==>
               now[m] == before[external[k] := now[external[k]]][m]
    ensures NotYet(g, now, external, k + 1)
  {
    forall l: nat | k < l < |external|
      ensures external[l] != external[k]
    {
      assert Ordered(external, k, l);
    }
  }

  lemma {:induction false} CallsStayWhole(g: Nodes, before: seq<WitnessMap>, now: seq<WitnessMap>, e: NodeId)
    requires CallsWhole(g, before) && |now| == |before| && g.Has(e)
    requires forall m :: 0 <= m < |now| && m != e && g.target[m].CallInvariant? ==> now[m] == before[m]
    requires before[e] != map[] ==> now[e] == before[e]
    requires before[e] == map[] && g.target[e].CallInvariant? ==> CoversArguments(g.target[e], now[e])
    ensures CallsWhole(g, now)
  {
  }

  // ---------------------------------------------------------------- all phases

  /** A target with the flag leads to n. */
  ghost predicate NeededAt(g: Nodes, nodeOf: seq<NodeId>, flags: FlagTable, n: NodeId, x: Flag)
    requires Shaped(g) && |flags| == |nodeOf|
  {
    exists k :: 0 <= k < |nodeOf| && x in flags[k] && Reaches(g, nodeOf[k], n)
  }

  /** Starts with the flags of the external nodes; internal nodes have none. */
  method PropagateFlags(ghost f: Func, g: Nodes, external: seq<NodeId>, flags: FlagTable, ghost targets: seq<Target>)
    returns (now: FlagTable)
    requires Complete(f, g) && TargetsOk(f, targets) && Inserted(targets, g, external) && |flags| == |external|
    ensures |now| == |g.target|
    ensures forall n, x :: 0 <= n < |now| ==> (x in now[n] <==> NeededAt(g, external, flags, n, x))
    ensures forall k :: 0 <= k < |external| ==> now[external[k]] == flags[k]
  {
    var table: FlagTable, k := seq(|g.target|, _ => {}), 0;
    while k < |external|
      invariant 0 <= k <= |external| && |table| == |g.target|
      invariant forall l :: 0 <= l < k ==> table[external[l]] == flags[l]
      invariant forall n :: 0 <= n < |table| && n !in external[..k] ==> table[n] == {}
    {
      assert external[..k + 1] == external[..k] + [external[k]];
      forall l: nat | l < k
        ensures external[l] != external[k]
      {
        assert Ordered(external, l, k);
      }
      table := table[external[k] := flags[k]];
      k := k + 1;
    }
    assert external[..k] == external;
    var propagation := new Propagation(g, table);
    propagation.PropagateFlags(external);
    now := propagation.flags;
    forall n, x | 0 <= n < |now|
      ensures x in now[n] <==> NeededAt(g, external, flags, n, x)
    {
      assert x in now[n] <==> Demanded(g, external, table, n, x);
      if NeededAt(g, external, flags, n, x) {
        var l :| 0 <= l < |external| && x in flags[l] && Reaches(g, external[l], n);
        assert external[l] in external;
      }
    }
    forall l | 0 <= l < |external|
      ensures now[external[l]] == flags[l]
    {
      NothingRequires(f, g, external[l]);
      ExternalFlagsStay(g, external, table, now, external[l]);
    }
  }

  lemma {:induction false} NothingRequires(f: Func, g: Nodes, n: NodeId)
    requires Complete(f, g) && g.Has(n) && !g.target[n].SuppliesWitness()
    ensures forall m: NodeId :: g.Has(m) ==> n !in g.requirements[m]
  {
    forall m: NodeId | g.Has(m)
      ensures n !in g.requirements[m]
    {
      assert NodeOk(f, g, m, false);
      forall k | 0 <= k < |g.requirements[m]|
        ensures g.requirements[m][k] != n
      {
        assert g.target[g.requirements[m][k]] == Expected(f, g.target[m])[k];
        ExpectedInternal(f, g.target[m], k);
      }
    }
  }

  /** Drops needless invariants, then simplifies. There is no result if the phi analysis recurses
      deeper than the graph has nodes, by more than `extra`; it does not without loops in the
      function or cycles in the graph, nor if no pointer is extracted from an aggregate. */
  method Optimize(wg: WitnessGraph, extra: nat) returns (done: bool, live: set<NodeId>)
    requires wg.Valid({}) && Complete(wg.f, wg.nodes) && NoCalls(wg.nodes)
    modifies wg
    ensures done ==> Ready(wg.f, wg.nodes, live) && wg.nodes.target == old(wg.nodes.target)
    ensures done ==> forall e :: e in wg.externalNodes <==>
                       e in old(wg.externalNodes) && !Droppable(wg.f, old(wg.nodes), e)
    ensures done ==> forall e :: e in wg.externalNodes ==> e in live
    ensures !done ==> !Acyclic(old(wg.nodes)) && !Loopless(wg.f) && !ExtractsNothing(wg.f)
  {
    ghost var g := wg.nodes;
    var all := AllNodes(wg.nodes);
    var valid := InvalidateUnchanged(wg.f, wg.nodes, wg.externalNodes, all);
    ghost var m;
    if Loopless(wg.f) || ExtractsNothing(wg.f) {
      TameFunction(wg.f, g, valid);
    }
    done, live, m := SimplifyWitnessGraph(wg, valid, |wg.nodes.target| + 1 + extra);
    if done {
      forall e | e in wg.externalNodes
        ensures e in live
      {
        ReachesSelf(wg.nodes, e);
      }
    }
  }

  /** Only invariants can be dropped. */
  predicate NeverDropped(t: Target) {
    match t
    case Bounds(_, _) => true
    case CallCheck(_, _) => true
    case ConstSizeCheck(_, _, _) => true
    case VarSizeCheck(_, _, _) => true
    case _ => false
  }

  /** Generates the witnesses for the valid targets of a function, by target number. In the
      optimising configuration, targets without witnesses have been invalidated, and there are
      none at all if the phi analysis gives up. */
  method GenerateWitnesses(f: Func, targets: seq<Target>, flags: FlagTable, optimize: bool, invariantsAreChecks: bool,
                           extra: nat)
    returns (outcome: Outcome, code: seq<WitInstr>, witnesses: map<nat, WitnessMap>, finalFlags: FlagTable,
             ghost g: Nodes, ghost nodeOf: seq<NodeId>)
    requires WellFormed(f) && TargetsOk(f, targets) && |flags| == |targets|
    requires invariantsAreChecks ==> forall k :: 0 <= k < |targets| ==> !targets[k].CallInvariant?
    ensures outcome.Unsupported? <==> optimize && !invariantsAreChecks
    ensures outcome.GaveUp? ==> optimize && invariantsAreChecks
    ensures Complete(f, g) && Inserted(targets, g, nodeOf)
    ensures outcome.GaveUp? ==> !Acyclic(g) && !Loopless(f) && !ExtractsNothing(f)
    ensures outcome.Generated? ==> CodeDone(f, code) && (!optimize ==> InOrderOf(f, targets, code))
    ensures outcome.Generated? ==> forall k :: k in witnesses ==>
              k < |targets| && FullyWitnessed(f, code, targets[k], witnesses[k])
    ensures outcome.Generated? ==> forall k :: 0 <= k < |targets| ==>
              (k in witnesses <==> !(optimize && Droppable(f, g, nodeOf[k])))
    ensures outcome.Generated? ==> forall k :: 0 <= k < |targets| && NeverDropped(targets[k]) ==> k in witnesses
    ensures |finalFlags| == |g.target|
    ensures forall n, x :: 0 <= n < |finalFlags| ==> (x in finalFlags[n] <==> NeededAt(g, nodeOf, flags, n, x))
    ensures forall k :: 0 <= k < |targets| ==> finalFlags[nodeOf[k]] == flags[k]
  {
    var wg := BuildGraph(f, targets);
    g, nodeOf := wg.nodes, wg.externalNodes;
    code, witnesses := [], map[];
    finalFlags := PropagateFlags(f, wg.nodes, wg.externalNodes, flags, targets);
    if optimize && !invariantsAreChecks {
      return Unsupported, code, witnesses, finalFlags, g, nodeOf;
    }
    var node := wg.externalNodes;
    ghost var live := AllNodes(wg.nodes);
    if optimize {
      var done, reached := Optimize(wg, extra);
      if !done {
        return GaveUp, code, witnesses, finalFlags, g, nodeOf;
      }
      live := reached;
    } else {
      CompleteIsReady(f, wg.nodes, live);
      CompleteIsFull(f, wg.nodes);
    }
    outcome := Generated;
    ChecksStay(f, g, targets, nodeOf);
    code, witnesses := WitnessesByTarget(f, wg.nodes, live, wg.externalNodes, node, !optimize, targets);
  }

  lemma {:induction false} ChecksStay(f: Func, g: Nodes, targets: seq<Target>, nodeOf: seq<NodeId>)
    requires Shaped(g) && Inserted(targets, g, nodeOf)
    ensures forall k :: 0 <= k < |targets| && NeverDropped(targets[k]) ==> !Droppable(f, g, nodeOf[k])
  {
    forall k | 0 <= k < |targets| && NeverDropped(targets[k])
      ensures !Droppable(f, g, nodeOf[k])
    {
      DroppableIff(f, g, nodeOf[k]);
    }
  }

  method WitnessesByTarget(f: Func, g: Nodes, ghost live: set<NodeId>, external: seq<NodeId>, nodeOf: seq<NodeId>,
                           ghost full: bool, ghost targets: seq<Target>)
    returns (code: seq<WitInstr>, witnesses: map<nat, WitnessMap>)
    requires WellFormed(f) && Ready(f, g, live) && Inserted(targets, g, nodeOf)
    requires forall e :: e in external ==> e in live && g.Has(e)
    requires full ==> Full(f, g) && external == nodeOf && TargetsOk(f, targets)
    ensures CodeDone(f, code)
    ensures full ==> InOrderOf(f, targets, code)
    ensures forall k :: k in witnesses <==> 0 <= k < |targets| && nodeOf[k] in external
    ensures forall k :: k in witnesses ==> FullyWitnessed(f, code, targets[k], witnesses[k])
  {
    forall l | 0 <= l < |external|
      ensures external[l] in live && g.Has(external[l])
    {
      assert external[l] in external;
    }
    var wit;
    code, wit := CreateWitnesses(f, g, live, external, full, targets);
    witnesses := map k: nat | 0 <= k < |nodeOf| && nodeOf[k] in external :: wit[nodeOf[k]];
  }

  /** A target without witnesses needs none: in every run with addresses, if its pointer came from within
      the bounds of its source, the bytes its check covers are within them when it is reached. */
  lemma {:induction false} DroppedTargetPasses(f: Func, targets: seq<Target>, g: Nodes, nodeOf: seq<NodeId>,
                                               witnesses: map<nat, WitnessMap>, optimize: bool, k: nat, r: Run,
                                               start: Origin -> int, a: seq<State>, lower: Origin -> int,
                                               upper: Origin -> int, num: Value -> nat, t: nat, j: Component)
    requires WellFormed(f) && Complete(f, g) && Inserted(targets, g, nodeOf)
    requires forall l :: 0 <= l < |targets| ==> (l in witnesses <==> !(optimize && Droppable(f, g, nodeOf[l])))
    requires k < |targets| && k !in witnesses && !targets[k].CallInvariant?
    requires PlainBelow(g, nodeOf[k]) && j in Indices(ShapeOf(f, targets[k].v))
    requires IsAddressRun(f, r, start, a) && t < |r.path| && r.path[t] == targets[k].loc
    requires
      var o := r.ptr[t](targets[k].v, j);
      lower(o) <= start(o) <= upper(o)
    ensures
      var o, p := r.ptr[t](targets[k].v, j), a[t](targets[k].v, j);
      lower(o) <= p && p + Width(targets[k], num) <= upper(o)
  {
    DroppedPasses(f, g, nodeOf[k], r, start, a, lower, upper, num, t, j);
  }

  // ---------------------------------------------------------------- what the witnesses are for

  /** In every run of the instrumented function that reaches a target, the target's witness for a
      pointer holds that pointer's origin: it belongs to the source the pointer came from. */
  lemma {:induction false} WitnessOfTarget(f: Func, code: seq<WitInstr>, x: Target, m: WitnessMap, r: Run,
                                           wit: seq<WitVar -> Origin>, t: nat, j: Component)
    requires WellFormed(f) && CodeDone(f, code) && FullyWitnessed(f, code, x, m) && !x.CallInvariant?
    requires !x.SuppliesWitness() && IsWitRun(f, code, r, wit) && t < |r.path| && r.path[t] == x.loc
    requires j in Indices(ShapeOf(f, x.v))
    ensures j in m && wit[t + 1](m[j]) == r.ptr[t](x.v, j)
  {
    assert Describes(f, code, m[j], x.loc, x.v, j);
    DescribedInEveryRun(f, code, r, wit, t, m[j], x.v, j);
  }

  lemma {:induction false} WitnessOfArgument(f: Func, code: seq<WitInstr>, x: Target, m: WitnessMap, r: Run,
                                             wit: seq<WitVar -> Origin>, t: nat, k: nat)
    requires WellFormed(f) && CodeDone(f, code) && FullyWitnessed(f, code, x, m) && x.CallInvariant?
    requires IsWitRun(f, code, r, wit) && t < |r.path| && r.path[t] == x.loc && k < |x.requiredArgs|
    ensures x.requiredArgs[k].0 in m && wit[t + 1](m[x.requiredArgs[k].0]) == r.ptr[t](x.requiredArgs[k].1, 0)
  {
    ExactArguments(f, code, x, m, k);
    DescribedInEveryRun(f, code, r, wit, t, m[x.requiredArgs[k].0], x.requiredArgs[k].1, 0);
  }
}

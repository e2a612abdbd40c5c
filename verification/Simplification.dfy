/** Simplification of a witness graph: collapse superfluous phis, then drop what is dead. */
module Simplification {
  import opened AscendingLists
  import opened Ssa
  import opened Targets
  import opened WitnessGraphs
  import opened WitnessCreation
  import opened Options
  import opened PhiCollapse
  import opened PhiTermination
  import opened CollapseSoundness
  import opened Walks

  // ---------------------------------------------------------------- dead nodes

  method MarkAsReachable(g: Nodes, res: set<NodeId>, n: NodeId, ghost open: set<NodeId>) returns (now: set<NodeId>)
    requires Shaped(g) && g.Has(n) && Closed(g, res, open)
    ensures res <= now && n in now && Closed(g, now, open)
    ensures forall x :: x in now ==> x in res || Reaches(g, n, x)
    decreases AllNodes(g) - res
  {
    if n in res {
      return res;
    }
    now := res + {n};
    ReachesSelf(g, n);
    var k := 0;
    while k < |g.requirements[n]|
      invariant 0 <= k <= |g.requirements[n]|
      invariant res + {n} <= now && Closed(g, now, open + {n})
      invariant forall l :: 0 <= l < k ==> g.requirements[n][l] in now
      invariant forall x :: x in now ==> x in res || Reaches(g, n, x)
    {
      var o := g.requirements[n][k];
      assert Edge(g, n, o);
      ghost var before := now;
      now := MarkAsReachable(g, now, o, open + {n});
      forall x | x in now
        ensures x in res || Reaches(g, n, x)
      {
        if x !in before {
          ReachesVia(g, n, o, x);
        }
      }
      k := k + 1;
    }
  }

  /** The elements of s that are in keep. */
  function Only(s: seq<NodeId>, keep: set<NodeId>): (r: seq<NodeId>)
    ensures forall n :: n in r <==> n in s && n in keep
  {
    if s == [] then []
    else Only(s[..|s| - 1], keep) + if s[|s| - 1] in keep then [s[|s| - 1]] else []
  }

  /** The places hold exactly the elements of s that are in keep. */
  ghost predicate PlacesOf(s: seq<NodeId>, keep: set<NodeId>, places: seq<nat>) {
    && Ascending(places) && (forall k :: 0 <= k < |places| ==> places[k] < |s| && s[places[k]] in keep)
    && forall i: nat :: i < |s| && s[i] in keep ==> i in places
  }

  /** What remains does so in its order, and as often as before. */
  lemma {:induction false} OnlyInOrder(s: seq<NodeId>, keep: set<NodeId>) returns (places: seq<nat>)
    ensures PlacesOf(s, keep, places) && |places| == |Only(s, keep)|
    ensures forall k :: 0 <= k < |places| ==> Only(s, keep)[k] == s[places[k]]
  {
    if s == [] {
      places := [];
    } else {
      var n := |s| - 1;
      var before := OnlyInOrder(s[..n], keep);
      places := if s[n] in keep then before + [n] else before;
      PlacesMore(s, keep, before);
    }
  }

  lemma {:induction false} PlacesMore(s: seq<NodeId>, keep: set<NodeId>, before: seq<nat>)
    requires s != [] && PlacesOf(s[..|s| - 1], keep, before)
    ensures PlacesOf(s, keep, if s[|s| - 1] in keep then before + [|s| - 1] else before)
  {
    var n := |s| - 1;
    var places := if s[n] in keep then before + [n] else before;
    if s[n] in keep {
      AscendingMore(before, n);
    }
    forall i: nat | i < |s| && s[i] in keep
      ensures i in places
    {
      if i < n {
        assert s[..n][i] == s[i];
      }
    }
  }

  ghost predicate ReachedFrom(g: Nodes, roots: seq<NodeId>, n: NodeId)
    requires Shaped(g)
  {
    exists e :: e in roots && Reaches(g, e, n)
  }

  /** Keeps exactly the valid external nodes and the internal nodes they reach. */
  method RemoveDeadNodes(wg: WitnessGraph, valid: set<NodeId>) returns (live: set<NodeId>)
    requires Shaped(wg.nodes) && wg.Listed()
    modifies wg`internalNodes, wg`externalNodes
    ensures wg.externalNodes == Only(old(wg.externalNodes), valid)
    ensures wg.internalNodes == Only(old(wg.internalNodes), live)
    ensures Closed(wg.nodes, live, {})
    ensures forall n :: n in live <==> ReachedFrom(wg.nodes, wg.externalNodes, n)
  {
    wg.externalNodes := Only(wg.externalNodes, valid);
    live := MarkAll(wg.nodes, wg.externalNodes);
    wg.internalNodes := Only(wg.internalNodes, live);
  }

  method MarkAll(g: Nodes, roots: seq<NodeId>) returns (live: set<NodeId>)
    requires Shaped(g) && forall e :: e in roots ==> g.Has(e)
    ensures Closed(g, live, {})
    ensures forall n :: n in live <==> ReachedFrom(g, roots, n)
  {
    live := {};
    var k := 0;
    while k < |roots|
      invariant 0 <= k <= |roots|
      invariant Closed(g, live, {})
      invariant forall l :: 0 <= l < k ==> roots[l] in live
      invariant forall n :: n in live ==> ReachedFrom(g, roots, n)
    {
      assert roots[k] in roots;
      live := MarkAsReachable(g, live, roots[k], {});
      k := k + 1;
    }
    forall n | ReachedFrom(g, roots, n)
      ensures n in live
    {
      var e :| e in roots && Reaches(g, e, n);
      var c :| Walk(g, c) && c[0] == e && c[|c| - 1] == n;
      ClosedContains(g, live, c);
    }
  }

  // ---------------------------------------------------------------- collapsing phis

  /** The graph in which every node that is not its own entry requires its entry only. */
  ghost predicate Rewired(g: Nodes, m: ReqMap, now: Nodes) {
    && Shaped(g) && Shaped(now) && |m| == |g.target| && now.target == g.target
    && forall n :: 0 <= n < |m| ==> m[n].To? && now.requirements[n] == RewiredList(g, m, n)
  }

  function RewiredList(g: Nodes, m: ReqMap, n: NodeId): seq<NodeId>
    requires n < |m| && n < |g.requirements| && m[n].To?
  {
    if m[n] == To(n) then g.requirements[n] else [m[n].n]
  }

  /** After the rewiring, a node all of whose requirements have one and the same entry requires this entry alone,
      unless it is to be kept; a node that is kept, or whose requirements have different entries, requires what it
      did. */
  lemma {:induction false} CollapsedRequiresEntry(g: Nodes, m: ReqMap, keep: seq<bool>, now: Nodes, n: NodeId)
    requires Solution(g, m, keep) && Rewired(g, m, now) && g.Has(n) && g.requirements[n] != []
    ensures
      var ids := g.requirements[n];
      if keep[n] || exists k, l :: 0 <= k < |ids| && 0 <= l < |ids| && m[ids[k]] != m[ids[l]]
      then now.requirements[n] == ids
      else m[ids[0]].To? && (m[ids[0]].n != n ==> now.requirements[n] == [m[ids[0]].n])
  {
    assert forall k :: 0 <= k < |g.requirements[n]| ==> Edge(g, n, g.requirements[n][k]);
    CollapsedExactly(g, m, keep, n);
  }

  /** Aggregate accesses of valid targets. */
  function Kept(f: Func, g: Nodes, valid: set<NodeId>): (keep: seq<bool>)
    ensures |keep| == |g.target| && forall n :: 0 <= n < |keep| ==> keep[n] == (n in valid && IsExtract(f, g.target[n]))
  {
    seq(|g.target|, n requires 0 <= n < |g.target| => n in valid && IsExtract(f, g.target[n]))
  }

  ghost predicate NoCalls(g: Nodes) {
    forall n :: 0 <= n < |g.target| ==> !g.target[n].CallInvariant?
  }

  /** The internal nodes are valid. */
  ghost predicate ValidSet(g: Nodes, valid: set<NodeId>) {
    forall n :: 0 <= n < |g.target| && g.target[n].SuppliesWitness() ==> n in valid
  }

  lemma {:induction false} EntriesExist(f: Func, g: Nodes, m: ReqMap, valid: set<NodeId>, n: NodeId)
    requires Setting(f, g, m, Kept(f, g, valid)) && NoCalls(g) && ValidSet(g, valid) && g.Has(n)
    ensures m[n].To? && g.Has(m[n].n)
  {
    var keep := Kept(f, g, valid);
    assert NodeOk(f, g, n, false);
    if Honest(f, g, keep, n) {
      EntryDominates(f, g, m, keep, n);
    } else {
      var r := g.requirements[n][0];
      RequiredAt(f, g, n, 0);
      assert Expected(f, g.target[n])[0].SuppliesWitness();
      EntryDominates(f, g, m, keep, r);
      RequirementEntry(g, m, keep, n, r);
    }
  }

  lemma {:induction false} RewiredReady(f: Func, g: Nodes, m: ReqMap, valid: set<NodeId>, now: Nodes, live: set<NodeId>)
    requires Setting(f, g, m, Kept(f, g, valid)) && NoCalls(g) && ValidSet(g, valid) && Rewired(g, m, now)
    requires Closed(now, live, {}) && live <= valid
    ensures Ready(f, now, live)
  {
    forall n | n in live
      ensures LiveOk(f, now, live, n)
    {
      assert now.Has(n) && NodeOk(f, g, n, false);
      forall k | 0 <= k < |now.requirements[n]|
        ensures now.requirements[n][k] in live
      {
        assert now.requirements[n][k] in now.requirements[n];
      }
      if m[n] == To(n) {
        assert RequiredTargets(now, n) == RequiredTargets(g, n);
      } else {
        RewiredShortcut(f, g, m, valid, now, n);
      }
    }
  }

  lemma {:induction false} RewiredShortcut(f: Func, g: Nodes, m: ReqMap, valid: set<NodeId>, now: Nodes, n: NodeId)
    requires Setting(f, g, m, Kept(f, g, valid)) && NoCalls(g) && ValidSet(g, valid) && Rewired(g, m, now)
    requires now.Has(n) && n in valid && m[n] != To(n)
    ensures Shortcut(f, now, n)
  {
    var keep := Kept(f, g, valid);
    EntryDominates(f, g, m, keep, n);
    EntryBelow(f, g, m, keep, n);
    assert NodeOk(f, g, n, false) && NodeOk(f, g, m[n].n, false);
    var t, s := g.target[n], Rep(g, m, n);
    assert !t.Source? by {
      assert t.Source? ==> Root(g, n);
    }
    assert !keep[n] by {
      assert Consistent(g, m, keep, n);
    }
    forall j | j in Indices(ShapeOf(f, t.v))
      ensures SameOrigin(f, t.loc, t.v, j, s.v, j)
    {
      forall r, k | IsRun(f, r) && 0 <= k < |r.path| && r.path[k] == t.loc
        ensures r.ptr[k + 1](t.v, j) == r.ptr[k + 1](s.v, j)
      {
        SameOriginOnRun(f, g, m, keep, n, r, k, j);
      }
    }
  }

  /** No requirement cycle, or no valid aggregate access: then the analysis is known to end. */
  ghost predicate Tame(f: Func, g: Nodes, valid: set<NodeId>)
    requires Shaped(g)
  {
    Acyclic(g) || NoneKept(Kept(f, g, valid))
  }

  /** Between two roots. If the analysis is known to end, `ends` holds. */
  ghost predicate Solving(g: Nodes, keep: seq<bool>, m: ReqMap, age: seq<nat>, ends: bool) {
    Settled(g, keep, m, {}) && (ends ==> Acyclic(g) || (NoneKept(keep) && Born(g, m, age)))
  }

  lemma {:induction false} SolveStep(g: Nodes, keep: seq<bool>, m: ReqMap, n: NodeId, fuel: nat, age: seq<nat>,
                                     ends: bool)
    returns (later: seq<nat>)
    requires Solving(g, keep, m, age, ends) && Root(g, n) && (ends ==> |g.target| < fuel)
    ensures
      match Update(g, keep, m, n, fuel)
      case None => !ends
      case Some(now) => Solving(g, keep, now, later, ends) && RootsStay(g, m, now) && now[n] == To(n)
  {
    later := age;
    if ends {
      if Acyclic(g) {
        AcyclicUpdates(g, keep, m, n, fuel, [n]);
      } else {
        later := RootUpdates(g, keep, m, n, fuel, age);
      }
    }
    if Update(g, keep, m, n, fuel).Some? {
      assert {} + {n} == {n};
      UpdateSettles(g, keep, m, n, fuel, {});
    }
  }

  /** Solves the equations starting from the nodes without requirements. */
  method Solve(wg: WitnessGraph, valid: set<NodeId>, fuel: nat) returns (done: bool, m: ReqMap)
    requires TableOk(wg.nodes) && wg.Listed()
    ensures done ==> Solution(wg.nodes, m, Kept(wg.f, wg.nodes, valid))
    ensures Tame(wg.f, wg.nodes, valid) && |wg.nodes.target| < fuel ==> done
  {
    var g, keep := wg.nodes, Kept(wg.f, wg.nodes, valid);
    var analysis := new Analysis(g, keep);
    var all, k := wg.externalNodes + wg.internalNodes, 0;
    assert forall n :: n in all ==> g.Has(n);
    ghost var age := seq(|g.target|, _ => 0);
    ghost var ends := Tame(wg.f, g, valid) && |g.target| < fuel;
    while k < |all|
      invariant 0 <= k <= |all|
      invariant fresh(analysis) && analysis.g == g && analysis.keep == keep
      invariant Solving(g, keep, analysis.reqMap, age, ends) && RootsDone(g, analysis.reqMap, all, k)
    {
      assert all[k] in all;
      ghost var before := analysis.reqMap;
      if |g.requirements[all[k]]| == 0 {
        age := SolveStep(g, keep, before, all[k], fuel, age, ends);
        done := analysis.UpdateWitnessNode(all[k], fuel);
        if !done {
          return false, [];
        }
      }
      RootsDoneMore(g, before, analysis.reqMap, all, k);
      k := k + 1;
    }
    done, m := true, analysis.reqMap;
    assert forall n: NodeId :: g.Has(n) ==> n in all;
    AllRootsDone(g, keep, m, all);
  }

  /** The roots among the first k nodes are their own entries. */
  ghost predicate RootsDone(g: Nodes, m: ReqMap, all: seq<NodeId>, k: nat) {
    Shaped(g) && |m| == |g.target| && forall l :: 0 <= l < k <= |all| && Root(g, all[l]) ==> m[all[l]] == To(all[l])
  }

  lemma {:induction false} RootsDoneMore(g: Nodes, m: ReqMap, now: ReqMap, all: seq<NodeId>, k: nat)
    requires RootsDone(g, m, all, k) && k < |all| && |now| == |m|
    requires RootsStay(g, m, now) && (Root(g, all[k]) ==> now[all[k]] == To(all[k]))
    ensures RootsDone(g, now, all, k + 1)
  {
  }

  lemma {:induction false} AllRootsDone(g: Nodes, keep: seq<bool>, m: ReqMap, all: seq<NodeId>)
    requires Settled(g, keep, m, {}) && RootsDone(g, m, all, |all|) && forall n: NodeId :: g.Has(n) ==> n in all
    ensures Solution(g, m, keep)
  {
    forall n: NodeId | Root(g, n)
      ensures m[n] == To(n)
    {
      assert n in all;
    }
  }

  method RequireOnly(wg: WitnessGraph, n: NodeId, r: NodeId)
    requires Shaped(wg.nodes) && wg.nodes.Has(n) && wg.nodes.Has(r)
    modifies wg`nodes
    ensures Shaped(wg.nodes) && wg.nodes.target == old(wg.nodes.target)
    ensures wg.nodes.requirements == old(wg.nodes.requirements)[n := [r]]
  {
    wg.ClearRequirements(n);
    assert wg.nodes.requirements[n] + [r] == [r];
    wg.AddRequirement(n, r);
  }

  /** Collapses every node into its entry. */
  method Rewire(wg: WitnessGraph, m: ReqMap)
    requires Shaped(wg.nodes) && wg.Listed() && |m| == |wg.nodes.target|
    requires forall n :: 0 <= n < |m| ==> m[n].To? && wg.nodes.Has(m[n].n)
    modifies wg`nodes
    ensures Rewired(old(wg.nodes), m, wg.nodes) && wg.Listed()
  {
    ghost var g := wg.nodes;
    var all, k := wg.externalNodes + wg.internalNodes, 0;
    while k < |all|
      invariant 0 <= k <= |all|
      invariant Shaped(wg.nodes) && wg.nodes.target == g.target && wg.Listed()
      invariant forall n :: 0 <= n < |m| ==>
                  wg.nodes.requirements[n] == if n in all[..k] then RewiredList(g, m, n) else g.requirements[n]
    {
      var n := all[k];
      assert n in all;
      assert all[..k + 1] == all[..k] + [n];
      if m[n] != To(n) {
        RequireOnly(wg, n, m[n].n);
      }
      k := k + 1;
    }
    forall n | 0 <= n < |m|
      ensures wg.nodes.requirements[n] == RewiredList(g, m, n)
    {
      assert n in all && all[..k] == all;
    }
  }

  /** Collapses every node into its entry in a solution of the phi analysis, and drops dead nodes.
      The result still serves for creating witnesses, and keeps the valid external nodes in order.
      Without a result, the analysis recursed deeper than `fuel`. */
  method SimplifyWitnessGraph(wg: WitnessGraph, valid: set<NodeId>, fuel: nat)
    returns (done: bool, live: set<NodeId>, ghost m: ReqMap)
    requires wg.Valid({}) && Complete(wg.f, wg.nodes) && NoCalls(wg.nodes) && ValidSet(wg.nodes, valid)
    modifies wg
    ensures done ==> Solution(old(wg.nodes), m, Kept(wg.f, old(wg.nodes), valid)) && Rewired(old(wg.nodes), m, wg.nodes)
    ensures done ==> Ready(wg.f, wg.nodes, live)
    ensures done ==> wg.externalNodes == Only(old(wg.externalNodes), valid)
    ensures done ==> wg.internalNodes == Only(old(wg.internalNodes), live)
    ensures done ==> forall n :: n in live <==> ReachedFrom(wg.nodes, wg.externalNodes, n)
    ensures Tame(wg.f, old(wg.nodes), valid) && |old(wg.nodes.target)| < fuel ==> done
  {
    ghost var g, f := wg.nodes, wg.f;
    live := {};
    var entries;
    done, entries := Solve(wg, valid, fuel);
    m := entries;
    if !done {
      return;
    }
    assert Setting(f, g, m, Kept(f, g, valid));
    forall n | 0 <= n < |m|
      ensures m[n].To? && g.Has(m[n].n)
    {
      EntriesExist(f, g, m, valid, n);
    }
    Rewire(wg, entries);
    live := RemoveDeadNodes(wg, valid);
    forall n | n in live
      ensures n in valid
    {
      LiveIsValid(f, g, m, valid, wg.nodes, wg.externalNodes, n);
    }
    RewiredReady(f, g, m, valid, wg.nodes, live);
  }

  lemma {:induction false} LiveIsValid(f: Func, g: Nodes, m: ReqMap, valid: set<NodeId>, now: Nodes,
                                       roots: seq<NodeId>, n: NodeId)
    requires Setting(f, g, m, Kept(f, g, valid)) && NoCalls(g) && ValidSet(g, valid) && Rewired(g, m, now)
    requires forall e :: e in roots ==> e in valid
    requires ReachedFrom(now, roots, n)
    ensures n in valid
  {
    var e :| e in roots && Reaches(now, e, n);
    var c :| Walk(now, c) && c[0] == e && c[|c| - 1] == n;
    if |c| > 1 {
      var a := c[|c| - 2];
      assert Edge(now, a, n);
      assert NodeOk(f, g, a, false);
      if m[a] == To(a) {
        var k :| 0 <= k < |g.requirements[a]| && g.requirements[a][k] == n;
        RequiredAt(f, g, a, k);
        ExpectedInternal(f, g.target[a], k);
      } else {
        EntryInternal(f, g, m, valid, a);
      }
    }
  }

  lemma {:induction false} EntryInternal(f: Func, g: Nodes, m: ReqMap, valid: set<NodeId>, n: NodeId)
    requires Setting(f, g, m, Kept(f, g, valid)) && NoCalls(g) && ValidSet(g, valid) && g.Has(n) && m[n] != To(n)
    ensures m[n].To? && g.Has(m[n].n) && g.target[m[n].n].SuppliesWitness()
  {
    var keep := Kept(f, g, valid);
    assert NodeOk(f, g, n, false);
    if Honest(f, g, keep, n) {
      EntryDominates(f, g, m, keep, n);
    } else {
      var r := g.requirements[n][0];
      RequiredAt(f, g, n, 0);
      ExpectedInternal(f, g.target[n], 0);
      EntryDominates(f, g, m, keep, r);
      RequirementEntry(g, m, keep, n, r);
    }
  }
}

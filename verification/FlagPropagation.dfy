/** Propagation of the flags that say which bounds a target needs, along requirements. */
module FlagPropagation {
  import opened WitnessGraphs
  import opened Walks

  datatype Flag = UpperBound | LowerBound | Temporal | ExplicitBounds

  type FlagTable = seq<set<Flag>>

  // ---------------------------------------------------------------- what the flags should be

  /** An external node with the flag leads to n. */
  ghost predicate Demanded(g: Nodes, external: seq<NodeId>, before: FlagTable, n: NodeId, x: Flag)
    requires Shaped(g) && |before| == |g.target|
  {
    exists e :: e in external && g.Has(e) && x in before[e] && Reaches(g, e, n)
  }

  /** Flags only grow along the requirements of m. */
  ghost predicate Passes(g: Nodes, flags: FlagTable, m: NodeId)
    requires Shaped(g) && |flags| == |g.target| && g.Has(m)
  {
    forall n :: n in g.requirements[m] ==> flags[m] <= flags[n]
  }

  ghost predicate AllPass(g: Nodes, flags: FlagTable) {
    && Shaped(g) && |flags| == |g.target|
    && forall m :: 0 <= m < |flags| ==> Passes(g, flags, m)
  }

  /** Nothing is flagged without demand. */
  ghost predicate OnlyDemanded(g: Nodes, external: seq<NodeId>, before: FlagTable, flags: FlagTable) {
    && Shaped(g) && |before| == |flags| == |g.target|
    && forall n, x :: 0 <= n < |flags| && x in flags[n] ==> Demanded(g, external, before, n, x)
  }

  lemma {:induction false} FlagsAlongWalk(g: Nodes, flags: FlagTable, c: seq<NodeId>)
    requires AllPass(g, flags) && Walk(g, c)
    ensures flags[c[0]] <= flags[c[|c| - 1]]
    decreases |c|
  {
    if |c| > 1 {
      var d := c[..|c| - 1];
      forall k | 0 <= k < |d| - 1
        ensures Edge(g, d[k], d[k + 1])
      {
        assert Edge(g, c[k], c[k + 1]);
      }
      FlagsAlongWalk(g, flags, d);
      assert Edge(g, c[|c| - 2], c[|c| - 1]) && Passes(g, flags, c[|c| - 2]);
    }
  }

  /** Flags that are closed, at least those of the external nodes, and demanded, are exactly the
      demanded ones: the least closed assignment. */
  lemma {:induction false} DemandedExactly(g: Nodes, external: seq<NodeId>, before: FlagTable, flags: FlagTable,
                                           n: NodeId, x: Flag)
    requires AllPass(g, flags) && OnlyDemanded(g, external, before, flags) && g.Has(n)
    requires forall e :: e in external && g.Has(e) ==> before[e] <= flags[e]
    ensures x in flags[n] <==> Demanded(g, external, before, n, x)
  {
    if Demanded(g, external, before, n, x) {
      var e :| e in external && g.Has(e) && x in before[e] && Reaches(g, e, n);
      var c :| Walk(g, c) && c[0] == e && c[|c| - 1] == n;
      FlagsAlongWalk(g, flags, c);
    }
  }

  /** A node that nothing requires keeps its flags. */
  lemma {:induction false} ExternalFlagsStay(g: Nodes, external: seq<NodeId>, before: FlagTable, flags: FlagTable,
                                             n: NodeId)
    requires OnlyDemanded(g, external, before, flags) && g.Has(n)
    requires forall m: NodeId :: g.Has(m) ==> n !in g.requirements[m]
    ensures flags[n] <= before[n]
  {
    forall x | x in flags[n]
      ensures x in before[n]
    {
      assert Demanded(g, external, before, n, x);
      var e :| e in external && g.Has(e) && x in before[e] && Reaches(g, e, n);
      var c :| Walk(g, c) && c[0] == e && c[|c| - 1] == n;
      assert |c| > 1 ==> Edge(g, c[|c| - 2], n);
    }
  }

  lemma {:induction false} LeastClosed(g: Nodes, external: seq<NodeId>, before: FlagTable, flags: FlagTable,
                                       other: FlagTable)
    requires OnlyDemanded(g, external, before, flags)
    requires AllPass(g, other) && forall e :: e in external && g.Has(e) ==> before[e] <= other[e]
    ensures forall n :: 0 <= n < |flags| ==> flags[n] <= other[n]
  {
    forall n, x | 0 <= n < |flags| && x in flags[n]
      ensures x in other[n]
    {
      assert Demanded(g, external, before, n, x);
      var e :| e in external && g.Has(e) && x in before[e] && Reaches(g, e, n);
      var c :| Walk(g, c) && c[0] == e && c[|c| - 1] == n;
      FlagsAlongWalk(g, other, c);
    }
  }

  // ---------------------------------------------------------------- the worklist

  ghost function AllFlags(): set<Flag> {
    {UpperBound, LowerBound, Temporal, ExplicitBounds}
  }

  ghost function Unset(flags: FlagTable): set<(NodeId, Flag)> {
    set n: NodeId, x: Flag | 0 <= n < |flags| && x in AllFlags() && x !in flags[n] :: (n, x)
  }

  lemma {:induction false} EveryFlag(x: Flag)
    ensures x in AllFlags()
  {
    match x
    case UpperBound =>
    case LowerBound =>
    case Temporal =>
    case ExplicitBounds =>
  }

  lemma {:induction false} UnsetShrinks(flags: FlagTable, n: NodeId, more: set<Flag>)
    requires n < |flags| && !(more <= flags[n])
    ensures Unset(flags[n := flags[n] + more]) < Unset(flags)
  {
    var x :| x in more && x !in flags[n];
    EveryFlag(x);
    assert (n, x) in Unset(flags) && (n, x) !in Unset(flags[n := flags[n] + more]);
  }

  class Propagation {
    const g: Nodes
    var flags: FlagTable

    constructor (g: Nodes, flags: FlagTable)
      ensures this.g == g && this.flags == flags
    {
      this.g, this.flags := g, flags;
    }

    method JoinFlags(n: NodeId, other: NodeId) returns (changed: bool)
      requires n < |flags| && other < |flags|
      modifies this
      ensures flags == old(flags)[n := old(flags[n] + flags[other])]
      ensures changed <==> !(old(flags[other]) <= old(flags[n]))
    {
      var now := flags[n] + flags[other];
      changed := now != flags[n];
      flags := flags[n := now];
    }

    /** Nodes that are not waiting have passed their flags on. */
    ghost predicate Settled(waiting: seq<NodeId>, but: set<NodeId>)
      reads this
      requires Shaped(g) && |flags| == |g.target|
    {
      forall m :: 0 <= m < |flags| ==> m in waiting || m in but || Passes(g, flags, m)
    }

    method PropagateFlags(external: seq<NodeId>)
      requires Shaped(g) && |flags| == |g.target|
      requires forall e :: e in external ==> g.Has(e)
      requires forall n :: 0 <= n < |flags| && n !in external ==> flags[n] == {}
      modifies this
      ensures AllPass(g, flags) && OnlyDemanded(g, external, old(flags), flags)
      ensures forall n :: 0 <= n < |flags| ==> old(flags[n]) <= flags[n]
      ensures forall n, x :: 0 <= n < |flags| ==> (x in flags[n] <==> Demanded(g, external, old(flags), n, x))
    {
      var worklist := external;
      OwnFlagsDemanded(g, external, flags);
      while worklist != []
        invariant |flags| == |g.target| && forall w :: w in worklist ==> g.Has(w)
        invariant forall n :: 0 <= n < |flags| ==> old(flags[n]) <= flags[n]
        invariant OnlyDemanded(g, external, old(flags), flags)
        invariant Settled(worklist, {})
        decreases Unset(flags), |worklist|
      {
        FirstTaken(worklist);
        worklist := PassOn(worklist[0], worklist[1..], external, old(flags));
      }
      AllDemandedExactly(old(flags), external);
    }

    lemma {:induction false} FirstTaken(worklist: seq<NodeId>)
      requires Shaped(g) && |flags| == |g.target| && worklist != [] && Settled(worklist, {})
      requires forall w :: w in worklist ==> g.Has(w)
      ensures Settled(worklist[1..], {worklist[0]})
      ensures g.Has(worklist[0]) && forall w :: w in worklist[1..] ==> g.Has(w)
    {
      assert worklist == [worklist[0]] + worklist[1..];
    }

    lemma {:induction false} AllDemandedExactly(before: FlagTable, external: seq<NodeId>)
      requires Shaped(g) && |flags| == |g.target| && Settled([], {})
      requires OnlyDemanded(g, external, before, flags) && forall e :: e in external ==> g.Has(e)
      requires forall n :: 0 <= n < |flags| ==> before[n] <= flags[n]
      ensures AllPass(g, flags)
      ensures forall n, x :: 0 <= n < |flags| ==> (x in flags[n] <==> Demanded(g, external, before, n, x))
    {
      forall n, x | 0 <= n < |flags|
        ensures x in flags[n] <==> Demanded(g, external, before, n, x)
      {
        DemandedExactly(g, external, before, flags, n, x);
      }
    }

    /** Joins the flags of `node` into those of its requirements; the ones that changed wait. */
    method PassOn(node: NodeId, rest: seq<NodeId>, ghost external: seq<NodeId>, ghost before: FlagTable)
      returns (worklist: seq<NodeId>)
      requires Shaped(g) && |flags| == |g.target| && g.Has(node) && forall w :: w in rest ==> g.Has(w)
      requires OnlyDemanded(g, external, before, flags) && Settled(rest, {node})
      modifies this
      ensures |flags| == |g.target| && forall w :: w in worklist ==> g.Has(w)
      ensures OnlyDemanded(g, external, before, flags) && Settled(worklist, {})
      ensures forall n :: 0 <= n < |flags| ==> old(flags[n]) <= flags[n]
      ensures Unset(flags) < old(Unset(flags)) || (flags == old(flags) && worklist == rest)
    {
      worklist := rest;
      var k := 0;
      while k < |g.requirements[node]|
        invariant 0 <= k <= |g.requirements[node]|
        invariant |flags| == |g.target| && forall w :: w in worklist ==> g.Has(w)
        invariant OnlyDemanded(g, external, before, flags) && Settled(worklist, {node})
        invariant forall l :: 0 <= l < k ==> flags[node] <= flags[g.requirements[node][l]]
        invariant forall n :: 0 <= n < |flags| ==> old(flags[n]) <= flags[n]
        invariant Unset(flags) < old(Unset(flags)) || (flags == old(flags) && worklist == rest)
      {
        var succ := g.requirements[node][k];
        ghost var was := flags;
        var changed := JoinFlags(succ, node);
        assert Edge(g, node, succ);
        if changed {
          UnsetShrinks(was, succ, was[node]);
          DemandPasses(g, external, before, was, node, succ);
          worklist := worklist + [succ];
        } else {
          assert was[succ] + was[node] == was[succ] && flags == was;
        }
        k := k + 1;
      }
    }
  }

  lemma {:induction false} OwnFlagsDemanded(g: Nodes, external: seq<NodeId>, flags: FlagTable)
    requires Shaped(g) && |flags| == |g.target|
    requires forall n :: 0 <= n < |flags| && n !in external ==> flags[n] == {}
    ensures OnlyDemanded(g, external, flags, flags)
  {
    forall n, x | 0 <= n < |flags| && x in flags[n]
      ensures Demanded(g, external, flags, n, x)
    {
      ReachesSelf(g, n);
    }
  }

  lemma {:induction false} DemandPasses(g: Nodes, external: seq<NodeId>, before: FlagTable, flags: FlagTable,
                                        m: NodeId, n: NodeId)
    requires OnlyDemanded(g, external, before, flags) && g.Has(m) && g.Has(n) && Edge(g, m, n)
    ensures OnlyDemanded(g, external, before, flags[n := flags[n] + flags[m]])
  {
    var now := flags[n := flags[n] + flags[m]];
    forall k, x | 0 <= k < |now| && x in now[k]
      ensures Demanded(g, external, before, k, x)
    {
      if x in flags[k] {
        assert Demanded(g, external, before, k, x);
      } else {
        assert Demanded(g, external, before, m, x);
        var e :| e in external && g.Has(e) && x in before[e] && Reaches(g, e, m);
        ReachesThen(g, e, m, n);
      }
    }
  }
}

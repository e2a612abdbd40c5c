/** Replacing a node by its entry in the phi analysis preserves the origin of every pointer, in
    every run. */
module CollapseSoundness {
  import opened Ssa
  import opened Targets
  import opened WitnessGraphs
  import opened PhiCollapse

  /** Aggregate accesses, and only these, are kept. (The analysis skips this test for targets
      that are no longer valid; nothing is claimed about those.) */
  ghost predicate Honest(f: Func, g: Nodes, keep: seq<bool>, n: NodeId)
    requires |keep| == |g.target| && g.Has(n)
  {
    !g.target[n].CallInvariant? && (keep[n] <==> IsExtract(f, g.target[n]))
  }

  ghost predicate Setting(f: Func, g: Nodes, m: ReqMap, keep: seq<bool>) {
    && WellFormed(f) && Complete(f, g) && Solution(g, m, keep)
    && forall n :: 0 <= n < |g.target| && g.target[n].SuppliesWitness() ==> Honest(f, g, keep, n)
  }

  // ---------------------------------------------------------------- one step back on a path

  /** On a path that reaches t's location, one of the targets that t expects was passed before. */
  lemma {:induction false} StepBack(f: Func, t: Target, p: seq<Point>, i: nat) returns (k: nat, s: nat)
    requires WellFormed(f) && TargetOk(f, t) && !t.CallInvariant? && !t.Source?
    requires Path(f, p) && i < |p| && p[i] == t.loc
    ensures k < |Expected(f, t)| && s <= i && p[s] == Expected(f, t)[k].loc
    ensures Expected(f, t)[k].SuppliesWitness() && (Expected(f, t)[k].Source? || s < i)
    ensures !IsExtract(f, t) ==> ShapeOf(f, Expected(f, t)[k].v) == ShapeOf(f, t.v)
  {
    k, s := 0, 0;
    if t.v.Instr? {
      if IsPhiTarget(f, t) {
        assert InstOk(f, t.v.i);
        assert i > 0 && Hop(f, p, i - 1);
        var incoming := f.insts[t.v.i].op.incoming;
        k :| 0 <= k < |incoming| && incoming[k].from == p[i - 1];
        s := i - 1;
      } else {
        s := DefinitionPassed(f, t, p, i);
      }
    } else if t.v.Constant? && (ConstShape(t.v.c).Aggregate? || t.v.c.Undef?) {
      s := i;
    }
  }

  lemma {:induction false} DefinitionPassed(f: Func, t: Target, p: seq<Point>, i: nat) returns (s: nat)
    requires WellFormed(f) && TargetOk(f, t) && !t.CallInvariant? && !t.Source? && t.v.Instr? && !IsPhiTarget(f, t)
    requires Path(f, p) && i < |p| && p[i] == t.loc
    ensures |Expected(f, t)| > 0 && s <= i && p[s] == Expected(f, t)[0].loc
    ensures Expected(f, t)[0].Source? || s < i
    ensures !IsExtract(f, t) ==> ShapeOf(f, Expected(f, t)[0].v) == ShapeOf(f, t.v)
  {
    var d := t.v.i;
    assert InstOk(f, d);
    PathPrefix(f, p, i);
    assert f.insts[d].at in p[..i + 1];
    s :| 0 <= s < i && p[s] == f.insts[d].at;
    if f.insts[d].op.Def? {
      assert Hop(f, p, s);
      s := s + 1;
    }
  }

  // ---------------------------------------------------------------- entries lie on every path

  lemma {:induction false} RequiredAt(f: Func, g: Nodes, n: NodeId, k: nat)
    requires Complete(f, g) && g.Has(n) && k < |g.requirements[n]|
    ensures TargetOk(f, g.target[n]) && |Expected(f, g.target[n])| == |g.requirements[n]|
    ensures g.target[g.requirements[n][k]] == Expected(f, g.target[n])[k]
    ensures Edge(g, n, g.requirements[n][k])
  {
    assert NodeOk(f, g, n, false);
  }

  ghost predicate EntryFits(f: Func, g: Nodes, m: ReqMap, n: NodeId)
    requires Shaped(g) && |m| == |g.target| && g.Has(n)
  {
    && m[n].To? && g.Has(m[n].n)
    && (m[n].n != n ==> g.target[m[n].n].SuppliesWitness())
    && !g.target[m[n].n].CallInvariant? && !g.target[n].CallInvariant?
    && ShapeOf(f, g.target[m[n].n].v) == ShapeOf(f, g.target[n].v)
  }

  lemma {:induction false} EntryOnPath(f: Func, g: Nodes, m: ReqMap, keep: seq<bool>, n: NodeId, p: seq<Point>, i: nat)
    requires Setting(f, g, m, keep) && g.Has(n) && Honest(f, g, keep, n)
    requires Path(f, p) && i < |p| && p[i] == g.target[n].loc
    ensures EntryFits(f, g, m, n) && g.target[m[n].n].loc in p[..i + 1]
    decreases i, if g.target[n].Source? then 0 else 1
  {
    var t := g.target[n];
    assert NodeOk(f, g, n, false);
    if t.Source? {
      assert Root(g, n);
    } else {
      var k, s := StepBack(f, t, p, i);
      var r := g.requirements[n][k];
      RequiredAt(f, g, n, k);
      EntryOnPath(f, g, m, keep, r, p, s);
      RequirementEntry(g, m, keep, n, r);
    }
  }

  /** The analysis leaves no node without an entry, and the entry's location dominates the node's. */
  lemma {:induction false} EntryDominates(f: Func, g: Nodes, m: ReqMap, keep: seq<bool>, n: NodeId)
    requires Setting(f, g, m, keep) && g.Has(n) && Honest(f, g, keep, n)
    ensures EntryFits(f, g, m, n) && Dom(f, g.target[m[n].n].loc, g.target[n].loc)
  {
    assert NodeOk(f, g, n, false);
    var q :| PathTo(f, q, g.target[n].loc);
    EntryOnPath(f, g, m, keep, n, q, |q| - 1);
    forall p | PathTo(f, p, g.target[n].loc)
      ensures g.target[m[n].n].loc in p
    {
      EntryOnPath(f, g, m, keep, n, p, |p| - 1);
    }
  }

  /** If n is not its own entry, its requirements all have n's entry. */
  lemma {:induction false} RequirementsAgree(f: Func, g: Nodes, m: ReqMap, keep: seq<bool>, n: NodeId, k: nat)
    requires Setting(f, g, m, keep) && g.Has(n) && Honest(f, g, keep, n) && m[n] != To(n)
    requires k < |g.requirements[n]|
    ensures !keep[n] && m[g.requirements[n][k]] == m[n]
    ensures g.target[g.requirements[n][k]].SuppliesWitness() && Honest(f, g, keep, g.requirements[n][k])
    ensures EntryFits(f, g, m, n) && Dom(f, g.target[m[n].n].loc, g.target[g.requirements[n][k]].loc)
  {
    var r := g.requirements[n][k];
    RequiredAt(f, g, n, k);
    assert NodeOk(f, g, n, false);
    assert g.target[r].SuppliesWitness();
    EntryDominates(f, g, m, keep, r);
    EntryDominates(f, g, m, keep, n);
    RequirementEntry(g, m, keep, n, r);
  }

  lemma {:induction false} PointerInsertStays(f: Func, g: Nodes, m: ReqMap, keep: seq<bool>, n: NodeId)
    requires Setting(f, g, m, keep) && g.Has(n) && Honest(f, g, keep, n) && !g.target[n].Source?
    requires g.target[n].v.Instr? && g.target[n].v.i < |f.insts|
    requires f.insts[g.target[n].v.i].op.InsertValue? && f.insts[g.target[n].v.i].op.pointer
    ensures m[n] == To(n)
  {
    if m[n] != To(n) {
      var i := g.target[n].v.i;
      assert NodeOk(f, g, n, false) && InstOk(f, i);
      assert |g.requirements[n]| == 2;
      RequiredAt(f, g, n, 0);
      RequiredAt(f, g, n, 1);
      RequirementsAgree(f, g, m, keep, n, 0);
      RequirementsAgree(f, g, m, keep, n, 1);
      EntryDominates(f, g, m, keep, g.requirements[n][0]);
      EntryDominates(f, g, m, keep, g.requirements[n][1]);
    }
  }

  /** A phi point cannot dominate all its predecessors. */
  lemma {:induction false} PhiHasForeignPredecessor(f: Func, i: nat)
    requires WellFormed(f) && i < |f.insts| && f.insts[i].op.Phi?
    ensures exists k :: 0 <= k < |f.insts[i].op.incoming| && !Dom(f, f.insts[i].at, f.insts[i].op.incoming[k].from)
  {
    var q := f.insts[i].at;
    assert InstOk(f, i);
    var p :| PathTo(f, p, q);
    var k := 0;
    while p[k] != q
      invariant 0 <= k < |p| && q !in p[..k]
      decreases |p| - k
    {
      k := k + 1;
    }
    assert k > 0 && Hop(f, p, k - 1);
    PathPrefix(f, p, k - 1);
    assert p[..k - 1 + 1] == p[..k];
    assert !Dom(f, q, p[k - 1]);
  }

  /** A phi is never represented by another phi of the same block. */
  lemma {:induction false} NoSiblingEntry(f: Func, g: Nodes, m: ReqMap, keep: seq<bool>, n: NodeId)
    requires Setting(f, g, m, keep) && g.Has(n) && Honest(f, g, keep, n) && IsPhiTarget(f, g.target[n])
    requires m[n] != To(n)
    ensures EntryFits(f, g, m, n) && g.target[m[n].n].loc != g.target[n].loc
  {
    var i := g.target[n].v.i;
    EntryDominates(f, g, m, keep, n);
    assert NodeOk(f, g, n, false);
    if g.target[m[n].n].loc == g.target[n].loc {
      PhiHasForeignPredecessor(f, i);
      var k :| 0 <= k < |f.insts[i].op.incoming| && !Dom(f, f.insts[i].at, f.insts[i].op.incoming[k].from);
      RequiredAt(f, g, n, k);
      RequirementsAgree(f, g, m, keep, n, k);
    }
  }

  // ---------------------------------------------------------------- equal origins in every run

  /** n's entry. */
  ghost function Rep(g: Nodes, m: ReqMap, n: NodeId): Target
    requires Shaped(g) && |m| == |g.target| && g.Has(n) && m[n].To? && g.Has(m[n].n)
  {
    g.target[m[n].n]
  }

  lemma {:induction false} RepDefined(f: Func, g: Nodes, m: ReqMap, n: NodeId, q: Point)
    requires WellFormed(f) && Complete(f, g) && |m| == |g.target| && g.Has(n) && EntryFits(f, g, m, n)
    requires Dom(f, Rep(g, m, n).loc, q)
    ensures Defined(f, Rep(g, m, n).v, q)
  {
    assert NodeOk(f, g, m[n].n, false);
    var s := Rep(g, m, n);
    if s.v.Instr? {
      DomRefl(f, s.loc);
      DomTrans(f, f.insts[s.v.i].at, s.loc, q);
    }
  }

  /** In every run, whenever n's location executes, n's instrumentee and that of n's entry have
      the same origins. */
  lemma {:induction false} SameOriginOnRun(f: Func, g: Nodes, m: ReqMap, keep: seq<bool>, n: NodeId, r: Run, t: nat,
                                           j: Component)
    requires Setting(f, g, m, keep) && g.Has(n) && Honest(f, g, keep, n) && EntryFits(f, g, m, n)
    requires IsRun(f, r) && t < |r.path| && r.path[t] == g.target[n].loc
    ensures r.ptr[t + 1](g.target[n].v, j) == r.ptr[t + 1](Rep(g, m, n).v, j)
    decreases t, 1
  {
    var x := g.target[n];
    assert NodeOk(f, g, n, false);
    if m[n] == To(n) || x.Source? {
      assert x.Source? ==> Root(g, n);
    } else if x.v.Instr? && !f.insts[x.v.i].op.Def? {
      if IsPhiTarget(f, x) {
        SamePhi(f, g, m, keep, n, r, t, j);
      } else {
        var q := f.insts[x.v.i].at;
        RequirementsAgree(f, g, m, keep, n, 0);
        OperandLocation(f, g, n);
        RepDefined(f, g, m, n, q);
        forall s | 0 <= s <= t && r.path[s] == q
          ensures r.ptr[s + 1](x.v, j) == r.ptr[s + 1](Rep(g, m, n).v, j)
        {
          SameAtDefinition(f, g, m, keep, n, r, s, j);
        }
        EqualityPersists(f, q, x.v, j, Rep(g, m, n).v, j, r, t);
      }
    } else {
      RequirementsAgree(f, g, m, keep, n, 0);
      RequiredAt(f, g, n, 0);
      assert Root(g, g.requirements[n][0]) by {
        assert NodeOk(f, g, g.requirements[n][0], false);
      }
      if x.v.Constant? {
        ConstSameOrigin(f, x.v.c, j, r, t + 1);
      }
    }
  }

  lemma {:induction false} OperandLocation(f: Func, g: Nodes, n: NodeId)
    requires WellFormed(f) && Complete(f, g) && g.Has(n)
    requires !g.target[n].CallInvariant? && !g.target[n].Source?
    requires g.target[n].v.Instr? && g.target[n].v.i < |f.insts|
    requires !f.insts[g.target[n].v.i].op.Def? && !IsPhiTarget(f, g.target[n])
    ensures |g.requirements[n]| > 0
    ensures forall k :: 0 <= k < |g.requirements[n]| ==>
              g.target[g.requirements[n][k]].loc == f.insts[g.target[n].v.i].at
    ensures StrictDom(f, f.insts[g.target[n].v.i].at, g.target[n].loc)
  {
    assert NodeOk(f, g, n, false);
    forall k | 0 <= k < |g.requirements[n]|
      ensures g.target[g.requirements[n][k]].loc == f.insts[g.target[n].v.i].at
    {
      RequiredAt(f, g, n, k);
    }
  }

  /** Each time the instruction behind n executes, its operands already agree with the entry. */
  lemma {:induction false} SameAtDefinition(f: Func, g: Nodes, m: ReqMap, keep: seq<bool>, n: NodeId, r: Run, s: nat,
                                            j: Component)
    requires Setting(f, g, m, keep) && g.Has(n) && Honest(f, g, keep, n) && EntryFits(f, g, m, n) && m[n] != To(n)
    requires !g.target[n].Source? && g.target[n].v.Instr? && g.target[n].v.i < |f.insts|
    requires !f.insts[g.target[n].v.i].op.Def? && !IsPhiTarget(f, g.target[n])
    requires IsRun(f, r) && s < |r.path| && r.path[s] == f.insts[g.target[n].v.i].at
    ensures r.ptr[s + 1](g.target[n].v, j) == r.ptr[s + 1](Rep(g, m, n).v, j)
    decreases s, 2
  {
    var i := g.target[n].v.i;
    OperandLocation(f, g, n);
    RequirementsAgree(f, g, m, keep, n, 0);
    RequiredAt(f, g, n, 0);
    forall k | 0 <= k < |Expected(f, g.target[n])|
      ensures r.ptr[s + 1](Expected(f, g.target[n])[k].v, j) == r.ptr[s + 1](Rep(g, m, n).v, j)
    {
      RequiredAt(f, g, n, k);
      RequirementsAgree(f, g, m, keep, n, k);
      EntryDominates(f, g, m, keep, g.requirements[n][k]);
      SameOriginOnRun(f, g, m, keep, g.requirements[n][k], r, s, j);
    }
    assert NodeOk(f, g, n, false) && InstOk(f, i);
    match f.insts[i].op
    case Phi(_) =>
    case Select(a, b) =>
      assert Expected(f, g.target[n])[1].v == b;
      assert Step(f, r, s) && Effect(f, r, s, i, j);
      assert !Executes(f, a, r.path[s]) && !Executes(f, b, r.path[s]);
    case InsertValue(_, _, _, pointer) =>
      if pointer {
        PointerInsertStays(f, g, m, keep, n);
      } else {
        ForwardSameOrigin(f, i, j);
      }
    case ExtractValue(_, _) => assert false;
    case Gep(_, _) => ForwardSameOrigin(f, i, j);
    case BitCast(_) => ForwardSameOrigin(f, i, j);
  }

  lemma {:induction false} SamePhi(f: Func, g: Nodes, m: ReqMap, keep: seq<bool>, n: NodeId, r: Run, t: nat,
                                   j: Component)
    requires Setting(f, g, m, keep) && g.Has(n) && Honest(f, g, keep, n) && EntryFits(f, g, m, n) && m[n] != To(n)
    requires IsPhiTarget(f, g.target[n])
    requires IsRun(f, r) && t < |r.path| && r.path[t] == g.target[n].loc
    ensures r.ptr[t + 1](g.target[n].v, j) == r.ptr[t + 1](Rep(g, m, n).v, j)
    decreases t, 0
  {
    var i := g.target[n].v.i;
    assert NodeOk(f, g, n, false);
    var k := PhiTakes(f, i, r, t, j);
    RequiredAt(f, g, n, k);
    RequirementsAgree(f, g, m, keep, n, k);
    EntryDominates(f, g, m, keep, g.requirements[n][k]);
    SameOriginOnRun(f, g, m, keep, g.requirements[n][k], r, t - 1, j);
    EntryStays(f, g, m, keep, n, r, t, j);
  }

  /** The phi's location does not execute the value of its entry. */
  lemma {:induction false} EntryStays(f: Func, g: Nodes, m: ReqMap, keep: seq<bool>, n: NodeId, r: Run, t: nat,
                                      j: Component)
    requires Setting(f, g, m, keep) && g.Has(n) && Honest(f, g, keep, n) && EntryFits(f, g, m, n) && m[n] != To(n)
    requires IsPhiTarget(f, g.target[n])
    requires IsRun(f, r) && t < |r.path| && r.path[t] == g.target[n].loc
    ensures r.ptr[t + 1](Rep(g, m, n).v, j) == r.ptr[t](Rep(g, m, n).v, j)
  {
    assert Step(f, r, t);
    EntryDominates(f, g, m, keep, n);
    NoSiblingEntry(f, g, m, keep, n);
    var s := Rep(g, m, n);
    RepDefined(f, g, m, n, s.loc) by { DomRefl(f, s.loc); }
    DomOnRun(f, r, t, s.loc);
    NotExecuted(f, r, t, s.loc, s.v);
  }

  // ---------------------------------------------------------------- collapsing is a shortcut

  /** Entries lead to earlier definitions, so following them terminates. */
  lemma {:induction false} EntryBelow(f: Func, g: Nodes, m: ReqMap, keep: seq<bool>, n: NodeId)
    requires Setting(f, g, m, keep) && g.Has(n) && Honest(f, g, keep, n) && m[n] != To(n)
    ensures EntryFits(f, g, m, n) && Below(f, Rep(g, m, n), g.target[n])
  {
    var x := g.target[n];
    EntryDominates(f, g, m, keep, n);
    assert NodeOk(f, g, n, false) && NodeOk(f, g, m[n].n, false);
    var s := Rep(g, m, n);
    assert !x.Source? by {
      assert x.Source? ==> Root(g, n);
    }
    if !x.v.Instr? || f.insts[x.v.i].op.Def? {
      RequirementsAgree(f, g, m, keep, n, 0);
      RequiredAt(f, g, n, 0);
      assert Root(g, g.requirements[n][0]) by {
        assert NodeOk(f, g, g.requirements[n][0], false);
      }
    } else {
      EntryAtDefinition(f, g, m, keep, n);
      if s.v.Instr? {
        var d, e := f.insts[x.v.i].at, f.insts[s.v.i].at;
        assert InstOk(f, x.v.i);
        if e != d {
          DomRefl(f, e);
          DomTrans(f, e, s.loc, d);
          StrictDominatorsGrow(f, e, d);
        }
      }
    }
  }

  lemma {:induction false} EntryAtDefinition(f: Func, g: Nodes, m: ReqMap, keep: seq<bool>, n: NodeId)
    requires Setting(f, g, m, keep) && g.Has(n) && Honest(f, g, keep, n) && m[n] != To(n) && EntryFits(f, g, m, n)
    requires !g.target[n].Source? && g.target[n].v.Instr? && g.target[n].v.i < |f.insts|
    requires !f.insts[g.target[n].v.i].op.Def?
    ensures
      var s, at := Rep(g, m, n), f.insts[g.target[n].v.i].at;
      && Dom(f, s.loc, at)
      && (s.v.Instr? && s.v.i < |f.insts| && f.insts[s.v.i].at == at ==> Rank(f, s) < Rank(f, g.target[n]))
  {
    var x, s := g.target[n], Rep(g, m, n);
    var at := f.insts[x.v.i].at;
    assert NodeOk(f, g, n, false) && NodeOk(f, g, m[n].n, false) && InstOk(f, x.v.i);
    var q := n;
    if IsPhiTarget(f, x) {
      EntryDominates(f, g, m, keep, n);
    } else {
      OperandLocation(f, g, n);
      RequirementsAgree(f, g, m, keep, n, 0);
      q := g.requirements[n][0];
      RequiredAt(f, g, n, 0);
    }
    if s.v.Instr? && f.insts[s.v.i].at == at {
      DomRefl(f, at);
      if !IsPhiTarget(f, s) {
        DomAntisym(f, s.loc, at);
      } else {
        assert PhiAt(f, at, s.v.i);
        assert PhiPoint(f, at) && f.insts[x.v.i].op.Phi?;
        if m[q] != To(q) {
          NoSiblingEntry(f, g, m, keep, q);
        }
      }
    }
  }
}

/** The order in which the targets of a function get their witnesses, and the instructions that
    are inserted for them. It depends on the function and the list of its targets only. */
module CreationOrder {
  import opened Ssa
  import opened Targets
  import opened WitnessGraphs
  import opened WitnessCode

  // ---------------------------------------------------------------- the order

  /** What a proper target requires are proper targets. */
  lemma {:induction false} ExpectedOk(f: Func, t: Target, k: nat)
    requires WellFormed(f) && TargetOk(f, t) && k < |Expected(f, t)|
    ensures TargetOk(f, Expected(f, t)[k]) && Expected(f, t)[k].SuppliesWitness()
  {
    var s := Expected(f, t)[k];
    if t.CallInvariant? {
      UseTargetOk(f, s.v, s.loc);
    } else if s.Source? {
      SourceTargetOk(f, t, s);
    } else {
      var i := t.v.i;
      if !f.insts[i].op.Phi? {
        OperandOk(f, t, k);
        UseTargetOk(f, s.v, s.loc);
      } else if IsPhiTarget(f, t) {
        IncomingOk(f, i, k);
        UseTargetOk(f, s.v, s.loc);
      } else {
        PhiTargetOk(f, t.v);
      }
    }
  }

  /** How many phis there are whose own targets have not been handled. */
  ghost function PhisLeft(f: Func, made: seq<Target>): nat {
    PhisLeftUpTo(f, made, |f.insts|)
  }

  ghost function PhisLeftUpTo(f: Func, made: seq<Target>, n: nat): nat
    requires n <= |f.insts|
  {
    if n == 0 then 0 else PhisLeftUpTo(f, made, n - 1) + if OwnTarget(f, n - 1) in made then 0 else 1
  }

  function OwnTarget(f: Func, i: nat): Target
    requires i < |f.insts|
  {
    Intermediate(Instr(i), f.insts[i].at)
  }

  lemma {:induction false} PhisLeftMore(f: Func, made: seq<Target>, t: Target)
    ensures PhisLeft(f, made + [t]) <= PhisLeft(f, made)
    ensures MultiPhi(f, t) && t !in made ==> PhisLeft(f, made + [t]) < PhisLeft(f, made)
  {
    PhisLeftUpToMore(f, made, t, |f.insts|);
  }

  lemma {:induction false} PhisLeftUpToMore(f: Func, made: seq<Target>, t: Target, n: nat)
    requires n <= |f.insts|
    ensures PhisLeftUpTo(f, made + [t], n) <= PhisLeftUpTo(f, made, n)
    ensures MultiPhi(f, t) && t !in made && t.v.i < n ==> PhisLeftUpTo(f, made + [t], n) < PhisLeftUpTo(f, made, n)
  {
    if n > 0 {
      PhisLeftUpToMore(f, made, t, n - 1);
    }
  }

  /** How deep the recursion from t can get without a phi of several operands. */
  ghost function Extent(f: Func, t: Target): nat {
    5 * |TargetDepth(f, t)| + Rank(f, t)
  }

  ghost function Bound(f: Func): nat {
    5 * |DefPoints(f)| + 5
  }

  /** What t requires comes earlier in the recursion. */
  lemma {:induction false} HandledDown(f: Func, t: Target, k: nat)
    requires WellFormed(f) && TargetOk(f, t) && k < |Expected(f, t)|
    ensures
      var s := Expected(f, t)[k];
      TargetOk(f, s) && s.SuppliesWitness() && Extent(f, s) < if MultiPhi(f, t) then Bound(f) else Extent(f, t)
  {
    var s := Expected(f, t)[k];
    ExpectedOk(f, t, k);
    DepthBound(f, s.v);
    SubsetSize(TargetDepth(f, s), DefPoints(f));
    if !MultiPhi(f, t) {
      ExpectedBelow(f, t, k);
      SubsetSize(TargetDepth(f, s), TargetDepth(f, t));
    }
  }

  /** The targets handled after t has been, in order. What t requires comes first, except for a phi
      with several operands. Targets that supply witnesses are handled once. */
  ghost function Handled(f: Func, made: seq<Target>, t: Target): (now: seq<Target>)
    requires WellFormed(f) && TargetOk(f, t)
    ensures PhisLeft(f, now) <= PhisLeft(f, made)
    decreases PhisLeft(f, made), Extent(f, t), 1, 0
  {
    if t.SuppliesWitness() && t in made then made
    else if MultiPhi(f, t) then
      PhisLeftMore(f, made, t);
      HandledFrom(f, made + [t], t, 0)
    else
      var now := HandledFrom(f, made, t, 0);
      PhisLeftMore(f, now, t);
      now + [t]
  }

  /** The same for what t requires, from the k-th on. */
  ghost function HandledFrom(f: Func, made: seq<Target>, t: Target, k: nat): (now: seq<Target>)
    requires WellFormed(f) && TargetOk(f, t) && k <= |Expected(f, t)|
    ensures PhisLeft(f, now) <= PhisLeft(f, made)
    decreases PhisLeft(f, made), if MultiPhi(f, t) then Bound(f) else Extent(f, t), 0, |Expected(f, t)| - k
  {
    if k == |Expected(f, t)| then made
    else
      HandledDown(f, t, k);
      HandledFrom(f, Handled(f, made, Expected(f, t)[k]), t, k + 1)
  }

  /** The order in which the first k targets, and what they require, are handled. */
  ghost function HandledAll(f: Func, targets: seq<Target>, k: nat): seq<Target>
    requires WellFormed(f) && TargetsOk(f, targets) && k <= |targets|
  {
    if k == 0 then [] else Handled(f, HandledAll(f, targets, k - 1), targets[k - 1])
  }

  // ---------------------------------------------------------------- the instructions

  /** An instruction without its operands. */
  function Outline(x: WitInstr): WitInstr {
    match x
    case SourceWit(_, _, _) => x
    case PhiWit(i, j, _) => PhiWit(i, j, [])
    case SelectWit(i, j, _, _) => SelectWit(i, j, 0, 0)
  }

  ghost predicate Inserts(f: Func, t: Target) {
    t.HasInstrumentee() && (t.Source? || MultiPhi(f, t) || IsSelect(f, t))
  }

  predicate IsSelect(f: Func, t: Target) {
    t.HasInstrumentee() && !t.Source? && t.v.Instr? && t.v.i < |f.insts| && f.insts[t.v.i].op.Select?
  }

  /** What is inserted for pointer j of a target, without operands. */
  function InsertedFor(f: Func, t: Target, j: Component): WitInstr
    requires t.HasInstrumentee() && (t.Source? || t.v.Instr?)
  {
    if t.Source? then SourceWit(t.v, j, t.loc)
    else if IsSelect(f, t) then SelectWit(t.v.i, j, 0, 0)
    else PhiWit(t.v.i, j, [])
  }

  /** One instruction for each of the first k of the given pointers. */
  ghost function OutlineFor(f: Func, t: Target, js: seq<Component>, k: nat): (r: seq<WitInstr>)
    requires Inserts(f, t) && k <= |js|
    ensures |r| == k
  {
    if k == 0 then [] else OutlineFor(f, t, js, k - 1) + [InsertedFor(f, t, js[k - 1])]
  }

  ghost function OutlineOf(f: Func, t: Target): seq<WitInstr> {
    if Inserts(f, t) then OutlineFor(f, t, Indices(ShapeOf(f, t.v)), |Indices(ShapeOf(f, t.v))|) else []
  }

  /** The instructions that are inserted for the first k targets of a list, without operands. */
  ghost function OutlineUpTo(f: Func, made: seq<Target>, k: nat): seq<WitInstr>
    requires k <= |made|
  {
    if k == 0 then [] else OutlineUpTo(f, made, k - 1) + OutlineOf(f, made[k - 1])
  }

  ghost function OutlineAll(f: Func, made: seq<Target>): seq<WitInstr> {
    OutlineUpTo(f, made, |made|)
  }

  lemma {:induction false} OutlinePrefix(f: Func, made: seq<Target>, now: seq<Target>, k: nat)
    requires k <= |made| && k <= |now| && forall a :: 0 <= a < k ==> now[a] == made[a]
    ensures OutlineUpTo(f, now, k) == OutlineUpTo(f, made, k)
  {
    if k > 0 {
      OutlinePrefix(f, made, now, k - 1);
    }
  }

  lemma {:induction false} OutlineMore(f: Func, made: seq<Target>, t: Target)
    ensures OutlineAll(f, made + [t]) == OutlineAll(f, made) + OutlineOf(f, t)
  {
    OutlinePrefix(f, made, made + [t], |made|);
  }

  /** The first k instructions without their operands. */
  ghost function Outlines(code: seq<WitInstr>, k: nat): (r: seq<WitInstr>)
    requires k <= |code|
    ensures |r| == k
  {
    if k == 0 then [] else Outlines(code, k - 1) + [Outline(code[k - 1])]
  }

  lemma {:induction false} OutlinesAt(code: seq<WitInstr>, k: nat, w: nat)
    requires w < k <= |code|
    ensures Outlines(code, k)[w] == Outline(code[w])
  {
    if w < k - 1 {
      OutlinesAt(code, k - 1, w);
    }
  }

  lemma {:induction false} OutlinesSame(code: seq<WitInstr>, now: seq<WitInstr>, k: nat)
    requires k <= |code| && k <= |now| && forall w :: 0 <= w < k ==> Outline(now[w]) == Outline(code[w])
    ensures Outlines(now, k) == Outlines(code, k)
  {
    if k > 0 {
      OutlinesSame(code, now, k - 1);
    }
  }

  /** The code holds exactly the instructions of the targets, and of all they lead to, in the order in
      which these are handled. */
  ghost predicate InOrderOf(f: Func, targets: seq<Target>, code: seq<WitInstr>)
    requires WellFormed(f) && TargetsOk(f, targets)
  {
    Outlines(code, |code|) == OutlineAll(f, HandledAll(f, targets, |targets|))
  }

  lemma {:induction false} OutlineConcat(f: Func, a: seq<Target>, b: seq<Target>, k: nat)
    requires k <= |b|
    ensures OutlineUpTo(f, a + b, |a| + k) == OutlineAll(f, a) + OutlineUpTo(f, b, k)
  {
    if k == 0 {
      OutlinePrefix(f, a, a + b, |a|);
    } else {
      OutlineConcat(f, a, b, k - 1);
    }
  }

  // ---------------------------------------------------------------- what is handled

  ghost predicate Extends(made: seq<Target>, now: seq<Target>) {
    |made| <= |now| && now[..|made|] == made
  }

  lemma {:induction false} ExtendsTrans(a: seq<Target>, b: seq<Target>, c: seq<Target>)
    requires Extends(a, b) && Extends(b, c)
    ensures Extends(a, c)
  {
    assert c[..|a|] == c[..|b|][..|a|];
  }

  /** What has been handled stays. */
  lemma {:induction false} HandledExtends(f: Func, made: seq<Target>, t: Target)
    requires WellFormed(f) && TargetOk(f, t)
    ensures Extends(made, Handled(f, made, t))
    decreases PhisLeft(f, made), Extent(f, t), 1, 0
  {
    if t.SuppliesWitness() && t in made {
    } else if MultiPhi(f, t) {
      PhisLeftMore(f, made, t);
      HandledFromExtends(f, made + [t], t, 0);
      ExtendsTrans(made, made + [t], HandledFrom(f, made + [t], t, 0));
    } else {
      var now := HandledFrom(f, made, t, 0);
      HandledFromExtends(f, made, t, 0);
      ExtendsTrans(made, now, now + [t]);
    }
  }

  lemma {:induction false} HandledFromExtends(f: Func, made: seq<Target>, t: Target, k: nat)
    requires WellFormed(f) && TargetOk(f, t) && k <= |Expected(f, t)|
    ensures Extends(made, HandledFrom(f, made, t, k))
    decreases PhisLeft(f, made), if MultiPhi(f, t) then Bound(f) else Extent(f, t), 0, |Expected(f, t)| - k
  {
    if k < |Expected(f, t)| {
      HandledDown(f, t, k);
      var now := Handled(f, made, Expected(f, t)[k]);
      HandledExtends(f, made, Expected(f, t)[k]);
      HandledFromExtends(f, now, t, k + 1);
      ExtendsTrans(made, now, HandledFrom(f, now, t, k + 1));
    }
  }

  lemma {:induction false} AllHandledExtends(f: Func, targets: seq<Target>, k: nat, n: nat)
    requires WellFormed(f) && TargetsOk(f, targets) && k <= n <= |targets|
    ensures Extends(HandledAll(f, targets, k), HandledAll(f, targets, n))
    decreases n
  {
    if k < n {
      AllHandledExtends(f, targets, k, n - 1);
      HandledExtends(f, HandledAll(f, targets, n - 1), targets[n - 1]);
      ExtendsTrans(HandledAll(f, targets, k), HandledAll(f, targets, n - 1), HandledAll(f, targets, n));
    }
  }

  ghost predicate AllProper(f: Func, made: seq<Target>) {
    forall t {:trigger TargetOk(f, t)} :: t in made ==> TargetOk(f, t)
  }

  /** A source is handled at most once. */
  ghost predicate SourcesOnce(made: seq<Target>) {
    forall a, b :: 0 <= a < b < |made| && made[a].Source? ==> made[a] != made[b]
  }

  lemma {:induction false} HandledProper(f: Func, made: seq<Target>, t: Target)
    requires WellFormed(f) && TargetOk(f, t) && AllProper(f, made) && SourcesOnce(made)
    ensures AllProper(f, Handled(f, made, t)) && SourcesOnce(Handled(f, made, t))
    decreases PhisLeft(f, made), Extent(f, t), 1, 0
  {
    if t.SuppliesWitness() && t in made {
    } else if MultiPhi(f, t) {
      PhisLeftMore(f, made, t);
      HandledFromProper(f, made + [t], t, 0);
    } else {
      HandledFromProper(f, made, t, 0);
    }
  }

  lemma {:induction false} HandledFromProper(f: Func, made: seq<Target>, t: Target, k: nat)
    requires WellFormed(f) && TargetOk(f, t) && k <= |Expected(f, t)| && AllProper(f, made) && SourcesOnce(made)
    ensures AllProper(f, HandledFrom(f, made, t, k)) && SourcesOnce(HandledFrom(f, made, t, k))
    decreases PhisLeft(f, made), if MultiPhi(f, t) then Bound(f) else Extent(f, t), 0, |Expected(f, t)| - k
  {
    if k < |Expected(f, t)| {
      HandledDown(f, t, k);
      var now := Handled(f, made, Expected(f, t)[k]);
      HandledProper(f, made, Expected(f, t)[k]);
      HandledFromProper(f, now, t, k + 1);
    }
  }

  lemma {:induction false} AllHandledProper(f: Func, targets: seq<Target>, k: nat)
    requires WellFormed(f) && TargetsOk(f, targets) && k <= |targets|
    ensures AllProper(f, HandledAll(f, targets, k)) && SourcesOnce(HandledAll(f, targets, k))
  {
    if k > 0 {
      AllHandledProper(f, targets, k - 1);
      HandledProper(f, HandledAll(f, targets, k - 1), targets[k - 1]);
    }
  }

  // ---------------------------------------------------------------- all that targets lead to

  ghost predicate LeadsIn(f: Func, t: Target, s: Target, n: nat)
    requires TargetOk(f, t)
    decreases n, 1
  {
    || s == t
    || (n > 0 && exists k {:trigger StepLeads(f, t, k, s, n)} :: 0 <= k < |Expected(f, t)| && StepLeads(f, t, k, s, n))
  }

  ghost predicate StepLeads(f: Func, t: Target, k: nat, s: Target, n: nat)
    requires TargetOk(f, t) && k < |Expected(f, t)| && n > 0
    decreases n, 0
  {
    TargetOk(f, Expected(f, t)[k]) && LeadsIn(f, Expected(f, t)[k], s, n - 1)
  }

  /** Witnesses for t are made from one for s, directly or not. */
  ghost predicate Leads(f: Func, t: Target, s: Target) {
    TargetOk(f, t) && exists n: nat :: LeadsIn(f, t, s, n)
  }

  lemma {:induction false} LeadsVia(f: Func, t: Target, k: nat, s: Target)
    requires TargetOk(f, t) && k < |Expected(f, t)| && Leads(f, Expected(f, t)[k], s)
    ensures Leads(f, t, s)
  {
    var n: nat :| LeadsIn(f, Expected(f, t)[k], s, n);
    assert StepLeads(f, t, k, s, n + 1);
    assert LeadsIn(f, t, s, n + 1);
  }

  /** Only targets that t leads to are handled for t. */
  lemma {:induction false} HandledLeads(f: Func, made: seq<Target>, t: Target, s: Target)
    requires WellFormed(f) && TargetOk(f, t) && s in Handled(f, made, t)
    ensures s in made || Leads(f, t, s)
    decreases PhisLeft(f, made), Extent(f, t), 1, 0
  {
    assert LeadsIn(f, t, t, 0);
    if t.SuppliesWitness() && t in made {
    } else if MultiPhi(f, t) {
      PhisLeftMore(f, made, t);
      HandledFromLeads(f, made + [t], t, 0, s);
    } else if s != t {
      HandledFromLeads(f, made, t, 0, s);
    }
  }

  lemma {:induction false} HandledFromLeads(f: Func, made: seq<Target>, t: Target, k: nat, s: Target)
    requires WellFormed(f) && TargetOk(f, t) && k <= |Expected(f, t)| && s in HandledFrom(f, made, t, k)
    ensures s in made || Leads(f, t, s)
    decreases PhisLeft(f, made), if MultiPhi(f, t) then Bound(f) else Extent(f, t), 0, |Expected(f, t)| - k
  {
    if k < |Expected(f, t)| {
      HandledDown(f, t, k);
      var now := Handled(f, made, Expected(f, t)[k]);
      HandledFromLeads(f, now, t, k + 1, s);
      if s in now {
        HandledLeads(f, made, Expected(f, t)[k], s);
        if s !in made {
          LeadsVia(f, t, k, s);
        }
      }
    }
  }

  lemma {:induction false} StaysIn(made: seq<Target>, now: seq<Target>, t: Target)
    requires Extends(made, now) && t in made
    ensures t in now
  {
  }

  /** The first n targets that t requires are in the list. */
  ghost predicate RequiredUpTo(f: Func, t: Target, made: seq<Target>, n: nat) {
    && TargetOk(f, t) && n <= |Expected(f, t)|
    && (n > 0 ==> Expected(f, t)[n - 1] in made && RequiredUpTo(f, t, made, n - 1))
  }

  lemma {:induction false} RequiredAt(f: Func, t: Target, made: seq<Target>, n: nat, k: nat)
    requires RequiredUpTo(f, t, made, n) && k < n
    ensures Expected(f, t)[k] in made
  {
    if k < n - 1 {
      RequiredAt(f, t, made, n - 1, k);
    }
  }

  lemma {:induction false} RequiredStays(f: Func, t: Target, made: seq<Target>, now: seq<Target>, n: nat)
    requires RequiredUpTo(f, t, made, n) && Extends(made, now)
    ensures RequiredUpTo(f, t, now, n)
  {
    if n > 0 {
      StaysIn(made, now, Expected(f, t)[n - 1]);
      RequiredStays(f, t, made, now, n - 1);
    }
  }

  /** What t requires is in the list. */
  ghost predicate RequiredIn(f: Func, t: Target, made: seq<Target>) {
    TargetOk(f, t) && RequiredUpTo(f, t, made, |Expected(f, t)|)
  }

  ghost predicate ClosedBut(f: Func, made: seq<Target>, open: set<Target>) {
    forall t {:trigger RequiredIn(f, t, made)} :: t in made && t !in open ==> RequiredIn(f, t, made)
  }

  lemma {:induction false} ClosedMore(f: Func, made: seq<Target>, t: Target, open: set<Target>)
    requires ClosedBut(f, made, open) && (t in open || RequiredIn(f, t, made))
    ensures ClosedBut(f, made + [t], open)
  {
    forall x {:trigger RequiredIn(f, x, made + [t])} | x in made + [t] && x !in open
      ensures RequiredIn(f, x, made + [t])
    {
      assert RequiredIn(f, x, made);
      RequiredStays(f, x, made, made + [t], |Expected(f, x)|);
    }
  }

  lemma {:induction false} Closes(f: Func, made: seq<Target>, t: Target, open: set<Target>)
    requires ClosedBut(f, made, open + {t}) && RequiredIn(f, t, made)
    ensures ClosedBut(f, made, open)
  {
    forall x {:trigger RequiredIn(f, x, made)} | x in made && x !in open
      ensures RequiredIn(f, x, made)
    {
      assert x != t ==> x !in open + {t};
    }
  }

  /** Whatever t requires is handled as well. */
  lemma {:induction false} HandledCloses(f: Func, made: seq<Target>, t: Target, open: set<Target>)
    requires WellFormed(f) && TargetOk(f, t) && ClosedBut(f, made, open)
    ensures ClosedBut(f, Handled(f, made, t), open) && t in Handled(f, made, t)
    decreases PhisLeft(f, made), Extent(f, t), 1, 0
  {
    if t.SuppliesWitness() && t in made {
    } else if MultiPhi(f, t) {
      PhisLeftMore(f, made, t);
      HandledFromExtends(f, made + [t], t, 0);
      StaysIn(made + [t], HandledFrom(f, made + [t], t, 0), t);
      forall x {:trigger RequiredIn(f, x, made)} | x in made && x !in open + {t}
        ensures RequiredIn(f, x, made)
      {
      }
      ClosedMore(f, made, t, open + {t});
      HandledFromCloses(f, made + [t], t, 0, open + {t});
      Closes(f, HandledFrom(f, made + [t], t, 0), t, open);
    } else {
      HandledFromCloses(f, made, t, 0, open);
      ClosedMore(f, HandledFrom(f, made, t, 0), t, open);
    }
  }

  lemma {:induction false} HandledFromCloses(f: Func, made: seq<Target>, t: Target, k: nat, open: set<Target>)
    requires WellFormed(f) && TargetOk(f, t) && ClosedBut(f, made, open) && RequiredUpTo(f, t, made, k)
    ensures ClosedBut(f, HandledFrom(f, made, t, k), open) && RequiredIn(f, t, HandledFrom(f, made, t, k))
    decreases PhisLeft(f, made), if MultiPhi(f, t) then Bound(f) else Extent(f, t), 0, |Expected(f, t)| - k
  {
    var n := |Expected(f, t)|;
    if k < n {
      HandledDown(f, t, k);
      var s := Expected(f, t)[k];
      var now := Handled(f, made, s);
      HandledCloses(f, made, s, open);
      HandledExtends(f, made, s);
      RequiredStays(f, t, made, now, k);
      HandledFromCloses(f, now, t, k + 1, open);
    }
  }

  lemma {:induction false} AllHandledCloses(f: Func, targets: seq<Target>, k: nat)
    requires WellFormed(f) && TargetsOk(f, targets) && k <= |targets|
    ensures ClosedBut(f, HandledAll(f, targets, k), {}) && (k > 0 ==> targets[k - 1] in HandledAll(f, targets, k))
  {
    if k > 0 {
      AllHandledCloses(f, targets, k - 1);
      HandledCloses(f, HandledAll(f, targets, k - 1), targets[k - 1], {});
    }
  }

  lemma {:induction false} TargetHandled(f: Func, targets: seq<Target>, k: nat, l: nat)
    requires WellFormed(f) && TargetsOk(f, targets) && l < k <= |targets|
    ensures targets[l] in HandledAll(f, targets, k)
  {
    if l == k - 1 {
      AllHandledCloses(f, targets, k);
    } else {
      TargetHandled(f, targets, k - 1, l);
      AllHandledExtends(f, targets, k - 1, k);
      StaysIn(HandledAll(f, targets, k - 1), HandledAll(f, targets, k), targets[l]);
    }
  }

  lemma {:induction false} LedToIn(f: Func, made: seq<Target>, t: Target, s: Target, n: nat)
    requires ClosedBut(f, made, {}) && t in made && TargetOk(f, t) && LeadsIn(f, t, s, n)
    ensures s in made
    decreases n
  {
    if s != t {
      assert RequiredIn(f, t, made);
      var k :| 0 <= k < |Expected(f, t)| && StepLeads(f, t, k, s, n);
      RequiredAt(f, t, made, |Expected(f, t)|, k);
      LedToIn(f, made, Expected(f, t)[k], s, n - 1);
    }
  }

  /** For the first k targets, exactly what they lead to is handled. */
  lemma {:induction false} HandledIffLedTo(f: Func, targets: seq<Target>, k: nat, s: Target)
    requires WellFormed(f) && TargetsOk(f, targets) && k <= |targets|
    ensures s in HandledAll(f, targets, k) <==>
            exists l {:trigger Leads(f, targets[l], s)} :: 0 <= l < k && Leads(f, targets[l], s)
  {
    if l :| 0 <= l < k && Leads(f, targets[l], s) {
      LedToHandled(f, targets, k, l, s);
    } else {
      NotLedTo(f, targets, k, s);
    }
  }

  /** None of the first k targets leads to s. */
  ghost predicate NoneLeads(f: Func, targets: seq<Target>, s: Target, k: nat)
    requires k <= |targets|
  {
    forall l {:trigger Leads(f, targets[l], s)} :: 0 <= l < k ==> !Leads(f, targets[l], s)
  }

  lemma {:induction false} NotLedTo(f: Func, targets: seq<Target>, k: nat, s: Target)
    requires WellFormed(f) && TargetsOk(f, targets) && k <= |targets|
    requires NoneLeads(f, targets, s, k)
    ensures s !in HandledAll(f, targets, k)
  {
    if k > 0 {
      NotLedTo(f, targets, k - 1, s);
      if s in HandledAll(f, targets, k) {
        HandledLeads(f, HandledAll(f, targets, k - 1), targets[k - 1], s);
      }
    }
  }

  lemma {:induction false} LedToHandled(f: Func, targets: seq<Target>, k: nat, l: nat, s: Target)
    requires WellFormed(f) && TargetsOk(f, targets) && l < k <= |targets| && Leads(f, targets[l], s)
    ensures s in HandledAll(f, targets, k)
  {
    var n: nat :| LeadsIn(f, targets[l], s, n);
    AllHandledCloses(f, targets, k);
    TargetHandled(f, targets, k, l);
    LedToIn(f, HandledAll(f, targets, k), targets[l], s, n);
  }
  /** The first target that leads to t comes after one that leads to s. */
  lemma {:induction false} LedToEarlier(f: Func, targets: seq<Target>, x: nat, y: nat, s: Target, t: Target)
    requires WellFormed(f) && TargetsOk(f, targets) && x < y < |targets|
    requires Leads(f, targets[x], s) && NoneLeads(f, targets, t, x + 1) && Leads(f, targets[y], t)
    ensures s in HandledAll(f, targets, x + 1) && t !in HandledAll(f, targets, x + 1)
    ensures t in HandledAll(f, targets, |targets|)
  {
    assert s in HandledAll(f, targets, x + 1) by {
      LedToHandled(f, targets, x + 1, x, s);
    }
    assert t in HandledAll(f, targets, |targets|) by {
      LedToHandled(f, targets, |targets|, y, t);
    }
    NotLedTo(f, targets, x + 1, t);
  }
  /** So t is handled after s. */
  lemma {:induction false} LedToInOrder(f: Func, targets: seq<Target>, x: nat, y: nat, s: Target, t: Target)
    returns (a: nat, b: nat)
    requires WellFormed(f) && TargetsOk(f, targets) && x < y < |targets|
    requires Leads(f, targets[x], s) && NoneLeads(f, targets, t, x + 1) && Leads(f, targets[y], t)
    ensures
      var made := HandledAll(f, targets, |targets|);
      a < b < |made| && made[a] == s && made[b] == t
  {
    assert s in HandledAll(f, targets, x + 1) && t !in HandledAll(f, targets, x + 1)
           && t in HandledAll(f, targets, |targets|) by {
      LedToEarlier(f, targets, x, y, s, t);
    }
    a, b := HandledEarlier(f, targets, x + 1, s, t);
  }

  lemma {:induction false} HandledEarlier(f: Func, targets: seq<Target>, k: nat, s: Target, t: Target)
    returns (a: nat, b: nat)
    requires WellFormed(f) && TargetsOk(f, targets) && k <= |targets|
    requires s in HandledAll(f, targets, k) && t !in HandledAll(f, targets, k)
    requires t in HandledAll(f, targets, |targets|)
    ensures
      var made := HandledAll(f, targets, |targets|);
      a < b < |made| && made[a] == s && made[b] == t
  {
    AllHandledExtends(f, targets, k, |targets|);
    a, b := FirstPlaces(HandledAll(f, targets, k), HandledAll(f, targets, |targets|), s, t);
  }

  lemma {:induction false} FirstPlaces(early: seq<Target>, made: seq<Target>, s: Target, t: Target)
    returns (a: nat, b: nat)
    requires Extends(early, made) && s in early && t !in early && t in made
    ensures a < b < |made| && made[a] == s && made[b] == t
  {
    a :| 0 <= a < |early| && early[a] == s;
    b :| 0 <= b < |made| && made[b] == t;
    assert forall c :: 0 <= c < |early| ==> made[c] == early[c] && made[c] != t;
  }
  /** The target for which t is handled first. */
  lemma {:induction false} FirstFor(f: Func, targets: seq<Target>, t: Target, n: nat) returns (k: nat)
    requires WellFormed(f) && TargetsOk(f, targets) && n <= |targets| && t in HandledAll(f, targets, n)
    ensures k < n && t !in HandledAll(f, targets, k) && t in HandledAll(f, targets, k + 1)
  {
    if t in HandledAll(f, targets, n - 1) {
      k := FirstFor(f, targets, t, n - 1);
    } else {
      k := n - 1;
    }
  }

  /** If s is handled before the source t, a target leads to s before which none leads to t. */
  lemma {:induction false} EarlierLedTo(f: Func, targets: seq<Target>, a: nat, b: nat) returns (x: nat)
    requires WellFormed(f) && TargetsOk(f, targets)
    requires a < b < |HandledAll(f, targets, |targets|)| && HandledAll(f, targets, |targets|)[b].Source?
    ensures
      var made := HandledAll(f, targets, |targets|);
      x < |targets| && Leads(f, targets[x], made[a]) && NoneLeads(f, targets, made[b], x)
  {
    var made := HandledAll(f, targets, |targets|);
    var k := FirstFor(f, targets, made[b], |targets|);
    assert made[a] in HandledAll(f, targets, k + 1) by {
      AllHandledExtends(f, targets, k + 1, |targets|);
      AllHandledProper(f, targets, |targets|);
      PlacedBefore(HandledAll(f, targets, k + 1), made, a, b);
    }
    HandledIffLedTo(f, targets, k + 1, made[a]);
    x :| 0 <= x < k + 1 && Leads(f, targets[x], made[a]);
    forall l {:trigger Leads(f, targets[l], made[b])} | 0 <= l < x
      ensures !Leads(f, targets[l], made[b])
    {
      if Leads(f, targets[l], made[b]) {
        LedToHandled(f, targets, k, l, made[b]);
      }
    }
  }

  lemma {:induction false} PlacedBefore(early: seq<Target>, made: seq<Target>, a: nat, b: nat)
    requires Extends(early, made) && SourcesOnce(made) && a < b < |made| && made[b].Source? && made[b] in early
    ensures made[a] in early
  {
    var c :| 0 <= c < |early| && early[c] == made[b];
    assert made[c] == early[c];
    assert c == b;
    assert early[a] == made[a];
  }
}

/** What executing all the code of instrumented functions does to the shadow stack, along any path. */
module FunctionExecution {
  import opened Options
  import opened Ssa
  import opened Targets
  import opened WitnessGraphs
  import opened WitnessCode
  import opened CreationOrder
  import opened ShadowStackSlots
  import opened ShadowStackProtocol
  import opened CallLayout
  import opened CallResults
  import opened CallExecution

  // ---------------------------------------------------------------- what the lines do

  /** One execution of a block: the bounds that witnesses have, and for each call what it hands over and what
      the callee does. */
  datatype BlockRun = BlockRun(b: Block, val: WitVar -> Bounds, calls: map<Point, Activation>,
                               bodies: map<Point, seq<ShadowOp<Bounds>>>)

  /** An argument's bounds are loaded from its slot, as the function's signature has it. */
  function LineTrace(x: Line, ret: Type, params: seq<Type>, run: BlockRun): seq<ShadowOp<Bounds>> {
    match x
    case ShadowStack(op, _) => [ValueOf(op, run.val)]
    case ArgumentLoad(a, w) => if a < |params| then [Load(ArgumentSlot(ret, params, a), run.val(w))] else []
    case Original(q) => if q in run.bodies then run.bodies[q] else []
    case MetadataStore(_, _) => []
    case WitnessInst(_) => []
  }

  function Traced(lines: seq<Line>, ret: Type, params: seq<Type>, run: BlockRun): seq<ShadowOp<Bounds>> {
    if lines == [] then []
    else Traced(lines[..|lines| - 1], ret, params, run) + LineTrace(lines[|lines| - 1], ret, params, run)
  }

  lemma {:induction false} TracedConcat(a: seq<Line>, b: seq<Line>, ret: Type, params: seq<Type>, run: BlockRun)
    ensures Traced(a + b, ret, params, run) == Traced(a, ret, params, run) + Traced(b, ret, params, run)
  {
    if b == [] {
      assert a + b == a;
    } else {
      var n := |b| - 1;
      LastOfConcat(a, b);
      TracedConcat(a, b[..n], ret, params, run);
      Associative(Traced(a, ret, params, run), Traced(b[..n], ret, params, run), LineTrace(b[n], ret, params, run));
    }
  }

  lemma {:induction false} TracedOne(x: Line, ret: Type, params: seq<Type>, run: BlockRun)
    ensures Traced([x], ret, params, run) == LineTrace(x, ret, params, run)
  {
    assert [x][..0] == [];
  }

  lemma {:induction false} TracedAnnotated(ops: seq<ShadowOp<WitVar>>, q: Point, ret: Type, params: seq<Type>,
                                           run: BlockRun)
    ensures Traced(Annotated(ops, q), ret, params, run) == Valued(ops, run.val)
  {
    if ops != [] {
      var n := |ops| - 1;
      assert Annotated(ops, q)[..n] == Annotated(ops[..n], q) && ops == ops[..n] + [ops[n]];
      TracedAnnotated(ops[..n], q, ret, params, run);
    }
  }

  lemma {:induction false} TracedPlain(lines: seq<Line>, ret: Type, params: seq<Type>, run: BlockRun)
    requires forall x: Line :: x in lines ==> x.WitnessInst?
    ensures Traced(lines, ret, params, run) == []
  {
    if lines != [] {
      var n := |lines| - 1;
      assert lines[n] in lines && lines == lines[..n] + [lines[n]];
      TracedPlain(lines[..n], ret, params, run);
    }
  }

  // ---------------------------------------------------------------- executions of blocks

  /** The witnesses of call i's results get the bounds that the callee has stored for their pointers. */
  ghost predicate ResultsNamed(f: Func, code: seq<WitInstr>, i: nat, a: Activation, val: WitVar -> Bounds)
    requires i < |f.insts| && f.insts[i].op.Def?
  {
    forall n: nat :: WitnessesFrom(f, code, i, n) ==> Values(From(n, |a.results|), val) == a.results
  }

  /** At point k the call passes what it should; results are loaded in time, and as they were stored. */
  ghost predicate CallShaped(f: Func, targets: seq<Target>, code: seq<WitInstr>, run: BlockRun, k: nat)
    requires WellFormed(f) && TargetsOk(f, targets) && BlockOf(f, code, run.b) && k + 1 < |run.b.pts|
    requires run.b.pts[k] in run.b.sites && run.b.sites[run.b.pts[k]].Call?
  {
    var q := run.b.pts[k];
    && q in run.calls && q in run.bodies
    && ActivationOk(run.calls[q]) && Passes(run.b.sites[q].call, run.calls[q], run.val)
    && ((forall i :: 0 <= i < |f.insts| ==> f.insts[i].at != q)
        || exists i: nat :: ResultsServed(f, targets, code, run, k, i))
  }

  /** And the callee serves it. */
  ghost predicate CallServed(f: Func, targets: seq<Target>, code: seq<WitInstr>, run: BlockRun, k: nat)
    requires WellFormed(f) && TargetsOk(f, targets) && BlockOf(f, code, run.b) && k + 1 < |run.b.pts|
    requires run.b.pts[k] in run.b.sites && run.b.sites[run.b.pts[k]].Call?
  {
    CallShaped(f, targets, code, run, k) && Serves(run.bodies[run.b.pts[k]], run.calls[run.b.pts[k]])
  }

  ghost predicate ResultsServed(f: Func, targets: seq<Target>, code: seq<WitInstr>, run: BlockRun, k: nat, i: nat)
    requires WellFormed(f) && TargetsOk(f, targets) && k < |run.b.pts|
  {
    && CallOfBlock(f, code, run.b, k, i) && !SelectFirst(f, targets, i) && run.b.pts[k] in run.calls
    && run.calls[run.b.pts[k]].results != [] && ResultsNamed(f, code, i, run.calls[run.b.pts[k]], run.val)
  }

  ghost predicate IsCallAt(b: Block, k: nat)
    requires k < |b.pts|
  {
    b.pts[k] in b.sites && b.sites[b.pts[k]].Call?
  }

  /** One execution of a block of the function. Its points follow one another, its first point does not follow
      an instruction directly, and only its last one can return. */
  ghost predicate BlockShaped(f: Func, targets: seq<Target>, code: seq<WitInstr>, run: BlockRun)
    requires WellFormed(f) && TargetsOk(f, targets)
  {
    && BlockOf(f, code, run.b)
    && (forall k :: 0 <= k < |run.b.pts| - 1 ==> (run.b.pts[k], run.b.pts[k + 1]) in f.edges)
    && (forall i :: 0 <= i < |f.insts| && f.insts[i].op.Def? ==> f.insts[i].op.next != run.b.pts[0])
    && (forall k {:trigger IsCallAt(run.b, k)} :: 0 <= k < |run.b.pts| - 1 && IsCallAt(run.b, k) ==>
          CallShaped(f, targets, code, run, k))
    && (forall q :: q in run.bodies ==> q in run.b.sites && run.b.sites[q].Call?)
    && (forall k :: 0 <= k < |run.b.pts| - 1 && run.b.pts[k] in run.b.sites ==> !run.b.sites[run.b.pts[k]].Return?)
  }

  ghost predicate BlockRunOk(f: Func, targets: seq<Target>, code: seq<WitInstr>, run: BlockRun)
    requires WellFormed(f) && TargetsOk(f, targets)
  {
    && BlockShaped(f, targets, code, run)
    && (forall k {:trigger IsCallAt(run.b, k)} :: 0 <= k < |run.b.pts| - 1 && IsCallAt(run.b, k) ==>
          CallServed(f, targets, code, run, k))
  }

  /** The witnesses of the function's own arguments have the bounds it was passed. */
  ghost predicate ArgumentsNamed(code: seq<WitInstr>, own: Activation, val: WitVar -> Bounds) {
    forall w: nat :: w < |code| && code[w].SourceWit? && code[w].v.Arg? ==>
      code[w].v.a < own.params && (code[w].v.a, val(w)) in own.passed
  }

  // ---------------------------------------------------------------- the lines between the instructions

  /** What can stand before p: loads of a call right before it, and of arguments at the entry. */
  lemma {:induction false} KindsOfLines(f: Func, targets: seq<Target>, code: seq<WitInstr>, sites: map<Point, Site>,
                                        p: Point, k: nat, x: Line)
    requires WellFormed(f) && TargetsOk(f, targets) && InOrderOf(f, targets, code) && k <= |code|
    requires x in Lines(f, sites, code, p, 0, k)
    ensures IsForWitness(x)
    ensures x.ShadowStack? ==> exists i :: IsBehind(f, i, x.site, p) && x.site in sites && sites[x.site].Call?
    ensures x.ArgumentLoad? ==> p == f.entry && IsArgument(code, x)
  {
    if x in Lines(f, sites, code, p, 0, k - 1) {
      KindsOfLines(f, targets, code, sites, p, k - 1, x);
    } else {
      assert x in LineAt(f, sites, code, p, 0, k - 1);
      var y := code[k - 1];
      if y.SourceWit? {
        SourcePlaced(f, targets, code, k - 1);
        assert y.v.Instr? && x.ShadowStack? ==> IsBehind(f, y.v.i, x.site, p);
      }
    }
  }

  ghost predicate IsBehind(f: Func, i: nat, q: Point, p: Point) {
    i < |f.insts| && f.insts[i].op.Def? && f.insts[i].at == q && f.insts[i].op.next == p
  }

  ghost predicate IsArgument(code: seq<WitInstr>, x: Line)
    requires x.ArgumentLoad?
  {
    x.w < |code| && code[x.w].SourceWit? && code[x.w].v == Arg(x.arg)
  }

  /** Loads of arguments in the frame of the call find what was passed. */
  lemma {:induction false} ArgumentsFound(lines: seq<Line>, code: seq<WitInstr>, own: Activation, run: BlockRun,
                                          st: Stack)
    requires ActivationOk(own) && Holds(own, st, |own.passed|) && ArgumentsNamed(code, own, run.val)
    requires forall x: Line :: x in lines ==> x.WitnessInst? || (x.ArgumentLoad? && IsArgument(code, x))
    ensures Exec(Traced(lines, own.ret, own.args[..own.params], run), st) == Some(st)
  {
    if lines != [] {
      var n, ret, params := |lines| - 1, own.ret, own.args[..own.params];
      var x := lines[n];
      assert x in lines && lines == lines[..n] + [x];
      ArgumentsFound(lines[..n], code, own, run, st);
      assert Exec(LineTrace(x, ret, params, run), st) == Some(st) by {
        if x.ArgumentLoad? {
          LoadPassed(own, st, (x.arg, run.val(x.w)));
        }
      }
      ExecThen(Traced(lines[..n], ret, params, run), LineTrace(x, ret, params, run), st, st, st);
    }
  }

  lemma {:induction false} LoadPassed(a: Activation, st: Stack, x: (nat, Bounds))
    requires ActivationOk(a) && Holds(a, st, |a.passed|) && x in a.passed && x.0 < a.params
    ensures Exec([Load(ArgumentSlot(a.ret, a.args[..a.params], x.0), x.1)], st) == Some(st)
  {
    var k :| 0 <= k < |a.passed| && a.passed[k] == x;
    CallerMatchesCallee(a.ret, a.args[..a.params], a.args, x.0);
  }

  /** Without a call before it, nothing is loaded before a point, except for arguments at the entry. */
  lemma {:induction false} NoResultsBefore(f: Func, targets: seq<Target>, code: seq<WitInstr>, run: BlockRun, k: nat,
                                           x: Line)
    requires WellFormed(f) && TargetsOk(f, targets) && InOrderOf(f, targets, code)
    requires BlockRunOk(f, targets, code, run) && k < |run.b.pts| && (k > 0 ==> !IsCallAt(run.b, k - 1))
    requires x in run.b.inserted[k]
    ensures x.WitnessInst? || (x.ArgumentLoad? && IsArgument(code, x) && run.b.pts[k] == f.entry)
  {
    KindsOfLines(f, targets, code, run.b.sites, run.b.pts[k], |code|, x);
    assert forall i: nat, q: Point :: IsBehind(f, i, q, run.b.pts[k]) ==> InstOk(f, i);
  }

  // ---------------------------------------------------------------- from point to point

  /** Executing a block up to point k has led from st to mid: behind a call with a frame, this is on top and holds
      the results; otherwise nothing has changed. */
  ghost predicate Between(run: BlockRun, k: nat, st: Stack, mid: Stack)
    requires k <= |run.b.pts|
  {
    if k > 0 && IsCallAt(run.b, k - 1) && run.b.pts[k - 1] in run.calls && HasFrame(run.calls[run.b.pts[k - 1]])
    then
      var results := run.calls[run.b.pts[k - 1]].results;
      HoldsResults(results, mid, |results|) && mid[..|mid| - 1] == st
    else mid == st
  }

  predicate HasFrame(a: Activation) {
    Size(a.ret, a.args) > 0
  }

  /** What follows the previous point takes the stack back to where it was. */
  lemma {:induction false} HeadRuns(f: Func, targets: seq<Target>, code: seq<WitInstr>, own: Activation, run: BlockRun,
                                    done: set<Point>, k: nat, st: Stack, mid: Stack)
    requires WellFormed(f) && TargetsOk(f, targets) && InOrderOf(f, targets, code)
    requires BlockRunOk(f, targets, code, run) && k < |run.b.pts| && (forall q :: q in run.b.sites ==> q in done)
    requires ActivationOk(own) && ArgumentsNamed(code, own, run.val)
    requires run.b.pts[k] == f.entry && HasFrame(own) ==> Holds(own, st, |own.passed|)
    requires Between(run, k, st, mid)
    ensures Exec(Traced(Head(run.b, done, k), own.ret, own.args[..own.params], run), mid) == Some(st)
  {
    if k > 0 && IsCallAt(run.b, k - 1) {
      BehindCallRuns(f, targets, code, own, run, done, k, st, mid);
    } else {
      NoClosing(run.b, done, k);
      FreeHeadRuns(f, targets, code, own, run, k, st);
    }
  }

  lemma {:induction false} FreeHeadRuns(f: Func, targets: seq<Target>, code: seq<WitInstr>, own: Activation,
                                        run: BlockRun, k: nat, st: Stack)
    requires WellFormed(f) && TargetsOk(f, targets) && InOrderOf(f, targets, code)
    requires BlockRunOk(f, targets, code, run) && k < |run.b.pts| && (k > 0 ==> !IsCallAt(run.b, k - 1))
    requires ActivationOk(own) && ArgumentsNamed(code, own, run.val)
    requires run.b.pts[k] == f.entry && HasFrame(own) ==> Holds(own, st, |own.passed|)
    ensures Exec(Traced(run.b.inserted[k], own.ret, own.args[..own.params], run), st) == Some(st)
  {
    var t := run.b.inserted[k];
    forall x: Line | x in t
      ensures x.WitnessInst? || (x.ArgumentLoad? && IsArgument(code, x) && run.b.pts[k] == f.entry && HasFrame(own))
    {
      NoResultsBefore(f, targets, code, run, k, x);
      if !HasFrame(own) {
        NoArguments(code, own, run, x);
      }
    }
    if run.b.pts[k] == f.entry && HasFrame(own) {
      ArgumentsFound(t, code, own, run, st);
    } else {
      TracedPlain(t, own.ret, own.args[..own.params], run);
    }
  }

  lemma {:induction false} NoClosing(b: Block, done: set<Point>, k: nat)
    requires BlockOk(b) && k < |b.pts| && (k > 0 ==> !IsCallAt(b, k - 1))
    ensures Head(b, done, k) == b.inserted[k]
  {
  }

  /** Without a frame no argument is passed. */
  lemma {:induction false} NoArguments(code: seq<WitInstr>, own: Activation, run: BlockRun, x: Line)
    requires ActivationOk(own) && !HasFrame(own) && ArgumentsNamed(code, own, run.val)
    ensures !(x.ArgumentLoad? && IsArgument(code, x))
  {
    NothingHandedOver(own);
  }

  lemma {:induction false} BehindCallRuns(f: Func, targets: seq<Target>, code: seq<WitInstr>, own: Activation,
                                          run: BlockRun, done: set<Point>, k: nat, st: Stack, mid: Stack)
    requires WellFormed(f) && TargetsOk(f, targets) && InOrderOf(f, targets, code)
    requires BlockRunOk(f, targets, code, run) && 0 < k < |run.b.pts| && (forall q :: q in run.b.sites ==> q in done)
    requires ActivationOk(own) && IsCallAt(run.b, k - 1) && Between(run, k, st, mid)
    ensures Exec(Traced(Head(run.b, done, k), own.ret, own.args[..own.params], run), mid) == Some(st)
  {
    var q, t := run.b.pts[k - 1], run.b.inserted[k];
    var s, a := run.b.sites[q].call, run.calls[q];
    assert CallServed(f, targets, code, run, k - 1);
    var found, after := LoadsBehind(f, targets, code, run, k);
    HeadTrace(run, s, q, t, found, after, own);
    assert Head(run.b, done, k) == AfterLoads(t, ClosingLines(Call(s), q));
    if HasFrame(a) {
      LoadsThenClose(a, Values(found, run.val), mid, st);
    } else {
      NothingHandedOver(a);
      assert ResultLoads(Values(found, run.val)) + Closing(a.ret, a.args) == [];
    }
  }

  /** Directly behind a call stand the loads of all its results, as they were stored, or none. */
  lemma {:induction false} LoadsBehind(f: Func, targets: seq<Target>, code: seq<WitInstr>, run: BlockRun, k: nat)
    returns (found: seq<WitVar>, after: seq<Line>)
    requires WellFormed(f) && TargetsOk(f, targets) && InOrderOf(f, targets, code)
    requires BlockRunOk(f, targets, code, run) && 0 < k < |run.b.pts| && IsCallAt(run.b, k - 1)
    ensures CallServed(f, targets, code, run, k - 1)
    ensures
      var q, t := run.b.pts[k - 1], run.b.inserted[k];
      && t[..LoadRun(t)] == Annotated(ResultLoads(found), q) && t[LoadRun(t)..] == after
      && (forall x: Line :: x in after ==> x.WitnessInst?)
      && (found == [] || Values(found, run.val) == run.calls[q].results)
  {
    var q := run.b.pts[k - 1];
    assert CallServed(f, targets, code, run, k - 1);
    if forall i :: 0 <= i < |f.insts| ==> f.insts[i].at != q {
      found, after := [], run.b.inserted[k];
      QuietBehind(f, targets, code, run, k);
    } else {
      var i: nat :| ResultsServed(f, targets, code, run, k - 1, i);
      found, after := ServedBehind(f, targets, code, run, k, i);
    }
  }

  lemma {:induction false} QuietBehind(f: Func, targets: seq<Target>, code: seq<WitInstr>, run: BlockRun, k: nat)
    requires WellFormed(f) && TargetsOk(f, targets) && InOrderOf(f, targets, code)
    requires BlockRunOk(f, targets, code, run) && 0 < k < |run.b.pts|
    requires forall i :: 0 <= i < |f.insts| ==> f.insts[i].at != run.b.pts[k - 1]
    ensures
      var t := run.b.inserted[k];
      t[..LoadRun(t)] == [] && t[LoadRun(t)..] == t && forall x: Line :: x in t ==> x.WitnessInst?
  {
    var t := run.b.inserted[k];
    forall x: Line | x in t
      ensures x.WitnessInst?
    {
      NothingBehindQuiet(f, targets, code, run, k, x);
    }
    assert t != [] ==> t[0] in t;
  }

  lemma {:induction false} ServedBehind(f: Func, targets: seq<Target>, code: seq<WitInstr>, run: BlockRun, k: nat,
                                        i: nat)
    returns (found: seq<WitVar>, after: seq<Line>)
    requires WellFormed(f) && TargetsOk(f, targets) && InOrderOf(f, targets, code)
    requires 0 < k < |run.b.pts| && ResultsServed(f, targets, code, run, k - 1, i)
    requires IsCallAt(run.b, k - 1) && Passes(run.b.sites[run.b.pts[k - 1]].call, run.calls[run.b.pts[k - 1]], run.val)
    requires ActivationOk(run.calls[run.b.pts[k - 1]])
    ensures
      var q, t := run.b.pts[k - 1], run.b.inserted[k];
      && t[..LoadRun(t)] == Annotated(ResultLoads(found), q) && t[LoadRun(t)..] == after
      && (forall x: Line :: x in after ==> x.WitnessInst?)
      && (found == [] || Values(found, run.val) == run.calls[q].results)
  {
    var q, t := run.b.pts[k - 1], run.b.inserted[k];
    var first, before;
    first, before, after := LinesSplitAtLoadRun(f, targets, run.b.sites, code, i, t);
    found := if SourceOf(f, i) in HandledAll(f, targets, |targets|) then From(first, |run.calls[q].results|) else [];
    forall x: Line | x in after
      ensures x.WitnessInst?
    {
      var l :| 0 <= l < |after| && after[l] == x;
      assert WitnessLine(after, l);
    }
  }

  lemma {:induction false} NothingBehindQuiet(f: Func, targets: seq<Target>, code: seq<WitInstr>, run: BlockRun,
                                              k: nat, x: Line)
    requires WellFormed(f) && TargetsOk(f, targets) && InOrderOf(f, targets, code)
    requires BlockRunOk(f, targets, code, run) && 0 < k < |run.b.pts| && x in run.b.inserted[k]
    requires forall i :: 0 <= i < |f.insts| ==> f.insts[i].at != run.b.pts[k - 1]
    ensures x.WitnessInst?
  {
    KindsOfLines(f, targets, code, run.b.sites, run.b.pts[k], |code|, x);
    assert forall i: nat, q: Point :: IsBehind(f, i, q, run.b.pts[k]) ==> InstOk(f, i);
    assert (run.b.pts[k - 1], run.b.pts[k]) in f.edges;
  }

  lemma {:induction false} HeadTrace(run: BlockRun, s: CallSite, q: Point, t: seq<Line>, found: seq<WitVar>,
                                     after: seq<Line>, own: Activation)
    requires own.params <= |own.args|
    requires t[..LoadRun(t)] == Annotated(ResultLoads(found), q) && t[LoadRun(t)..] == after
    requires forall x: Line :: x in after ==> x.WitnessInst?
    ensures Traced(AfterLoads(t, ClosingLines(Call(s), q)), own.ret, own.args[..own.params], run) ==
            ResultLoads(Values(found, run.val)) + Closing(s.ret, s.args)
  {
    var ret, params, loads := own.ret, own.args[..own.params], Annotated(ResultLoads(found), q);
    var closing := ClosingLines(Call(s), q);
    TracedConcat(loads + closing, after, ret, params, run);
    TracedConcat(loads, closing, ret, params, run);
    TracedAnnotated(ResultLoads(found), q, ret, params, run);
    TracedAnnotated(Closing(s.ret, s.args), q, ret, params, run);
    TracedPlain(after, ret, params, run);
    ValuedParts(s, run.val, found);
  }

  /** An instruction with what stands right before and right behind it: a call opens its frame, in which the callee
      leaves the results; another instruction but a return changes nothing. */
  lemma {:induction false} RestRuns(f: Func, targets: seq<Target>, code: seq<WitInstr>, own: Activation, run: BlockRun,
                                    done: set<Point>, k: nat, st: Stack)
    returns (now: Stack)
    requires WellFormed(f) && TargetsOk(f, targets) && BlockRunOk(f, targets, code, run) && ActivationOk(own)
    requires k < |run.b.pts| && (forall q :: q in run.b.sites ==> q in done)
    requires run.b.pts[k] in run.b.sites ==> !run.b.sites[run.b.pts[k]].Return?
    ensures Exec(Traced(Rest(run.b, done, k), own.ret, own.args[..own.params], run), st) == Some(now)
    ensures Between(run, k + 1, st, now)
  {
    var q, ret, params := run.b.pts[k], own.ret, own.args[..own.params];
    if IsCallAt(run.b, k) {
      var s, a, body := run.b.sites[q].call, run.calls[q], run.bodies[q];
      assert CallServed(f, targets, code, run, k) && SiteOk(run.b.sites[q]);
      CallTrace(run, s, q, ret, params);
      ValuedOpening(s, a, run.val);
      if HasFrame(a) {
        now := AfterServing(body, a, st);
      } else {
        NothingHandedOver(a);
        now := st;
        assert Opening(a.ret, a.args, a.passed) + body == body;
      }
    } else {
      now := st;
      TracedQuiet(run, q, ret, params);
      assert [] + [Original(q)] == [Original(q)];
    }
  }

  lemma {:induction false} CallTrace(run: BlockRun, s: CallSite, q: Point, ret: Type, params: seq<Type>)
    requires q in run.bodies && CallOk(s)
    ensures Traced(OpeningLines(Call(s), q) + [Original(q)] + [], ret, params, run) ==
            Valued(Opening(s.ret, s.args, s.passed), run.val) + run.bodies[q]
  {
    var opening := OpeningLines(Call(s), q);
    assert opening + [Original(q)] + [] == opening + [Original(q)];
    TracedConcat(opening, [Original(q)], ret, params, run);
    TracedAnnotated(Opening(s.ret, s.args, s.passed), q, ret, params, run);
    TracedOne(Original(q), ret, params, run);
  }

  lemma {:induction false} TracedQuiet(run: BlockRun, q: Point, ret: Type, params: seq<Type>)
    requires q !in run.bodies
    ensures Traced([Original(q)], ret, params, run) == []
    ensures forall w :: Traced([Original(q)] + [MetadataStore(w, q)], ret, params, run) == []
  {
    TracedOne(Original(q), ret, params, run);
    forall w
      ensures Traced([Original(q)] + [MetadataStore(w, q)], ret, params, run) == []
    {
      TracedConcat([Original(q)], [MetadataStore(w, q)], ret, params, run);
      TracedOne(MetadataStore(w, q), ret, params, run);
    }
  }

  // ---------------------------------------------------------------- blocks

  /** The function has been called as `own` says, with its frame on top of the stack if there is one. */
  ghost predicate InFrame(f: Func, targets: seq<Target>, code: seq<WitInstr>, own: Activation, run: BlockRun,
                          done: set<Point>, st: Stack) {
    && WellFormed(f) && TargetsOk(f, targets) && InOrderOf(f, targets, code) && BlockRunOk(f, targets, code, run)
    && ActivationOk(own) && ArgumentsNamed(code, own, run.val) && (HasFrame(own) ==> Holds(own, st, |own.passed|))
    && forall q :: q in run.b.sites ==> q in done
  }

  /** The first n instructions of a block, none of them a return. */
  lemma {:induction false} PointsRun(f: Func, targets: seq<Target>, code: seq<WitInstr>, own: Activation, run: BlockRun,
                                     done: set<Point>, n: nat, st: Stack)
    returns (mid: Stack)
    requires InFrame(f, targets, code, own, run, done, st) && n <= |run.b.pts|
    requires n == |run.b.pts| ==> !Returns(run.b)
    ensures Exec(Traced(Concat(Segments(run.b, done), 0, n), own.ret, own.args[..own.params], run), st) == Some(mid)
    ensures Between(run, n, st, mid)
  {
    if n == 0 {
      mid := st;
    } else {
      var before := PointsRun(f, targets, code, own, run, done, n - 1, st);
      mid := SegmentRuns(f, targets, code, own, run, done, n - 1, st, before);
      var ret, params := own.ret, own.args[..own.params];
      TracedConcat(Concat(Segments(run.b, done), 0, n - 1), Segment(run.b, done, n - 1), ret, params, run);
      ExecThen(Traced(Concat(Segments(run.b, done), 0, n - 1), ret, params, run),
               Traced(Segment(run.b, done, n - 1), ret, params, run), st, before, mid);
    }
  }

  lemma {:induction false} SegmentRuns(f: Func, targets: seq<Target>, code: seq<WitInstr>, own: Activation,
                                       run: BlockRun, done: set<Point>, k: nat, st: Stack, mid: Stack)
    returns (now: Stack)
    requires InFrame(f, targets, code, own, run, done, st) && k < |run.b.pts|
    requires k == |run.b.pts| - 1 ==> !Returns(run.b)
    requires Between(run, k, st, mid)
    ensures Exec(Traced(Segment(run.b, done, k), own.ret, own.args[..own.params], run), mid) == Some(now)
    ensures Between(run, k + 1, st, now)
  {
    var ret, params := own.ret, own.args[..own.params];
    HeadRuns(f, targets, code, own, run, done, k, st, mid);
    now := RestRuns(f, targets, code, own, run, done, k, st);
    TracedConcat(Head(run.b, done, k), Rest(run.b, done, k), ret, params, run);
    ExecThen(Traced(Head(run.b, done, k), ret, params, run), Traced(Rest(run.b, done, k), ret, params, run), mid, st,
             now);
  }

  ghost predicate Returns(b: Block) {
    |b.pts| > 0 && b.pts[|b.pts| - 1] in b.sites
  }

  /** A block that does not return leaves the stack as it was, whatever it calls. */
  lemma {:induction false} BlockRuns(f: Func, targets: seq<Target>, code: seq<WitInstr>, own: Activation, run: BlockRun,
                                     done: set<Point>, st: Stack)
    requires InFrame(f, targets, code, own, run, done, st) && !Returns(run.b)
    ensures Exec(Traced(Layout(run.b, done), own.ret, own.args[..own.params], run), st) == Some(st)
  {
    var now := PointsRun(f, targets, code, own, run, done, |run.b.pts|, st);
    assert now == st;
  }

  /** A block that returns leaves the results in the frame of the function's own call. */
  lemma {:induction false} ReturningBlockRuns(f: Func, targets: seq<Target>, code: seq<WitInstr>, own: Activation,
                                              run: BlockRun, done: set<Point>, st: Stack, stores: seq<WitVar>)
    returns (now: Stack)
    requires InFrame(f, targets, code, own, run, done, st) && HasFrame(own)
    requires Returns(run.b) && run.b.sites[run.b.pts[|run.b.pts| - 1]] == Return(stores)
    requires Values(stores, run.val) == own.results
    ensures Exec(Traced(Layout(run.b, done), own.ret, own.args[..own.params], run), st) == Some(now)
    ensures HoldsResults(own.results, now, |own.results|) && now[..|now| - 1] == st[..|st| - 1]
  {
    var k := |run.b.pts| - 1;
    var first, head, rest := Concat(Segments(run.b, done), 0, k), Head(run.b, done, k), Rest(run.b, done, k);
    var before := PointsRun(f, targets, code, own, run, done, k, st);
    HeadRuns(f, targets, code, own, run, done, k, st, before);
    ReturnTrace(run, done, stores, own);
    now := StoreResults(own.results, st, |own.results|);
    assert ResultStores(own.results)[..|own.results|] == ResultStores(own.results);
    LayoutEnd(run.b, done);
    ThreeParts(first, head, rest, own, run, st, before, st, now);
  }

  lemma {:induction false} ThreeParts(x: seq<Line>, y: seq<Line>, z: seq<Line>, own: Activation, run: BlockRun,
                                      a: Stack, b: Stack, c: Stack, d: Stack)
    requires own.params <= |own.args|
    requires Exec(Traced(x, own.ret, own.args[..own.params], run), a) == Some(b)
    requires Exec(Traced(y, own.ret, own.args[..own.params], run), b) == Some(c)
    requires Exec(Traced(z, own.ret, own.args[..own.params], run), c) == Some(d)
    ensures Exec(Traced(x + y + z, own.ret, own.args[..own.params], run), a) == Some(d)
  {
    var ret, params := own.ret, own.args[..own.params];
    TracedConcat(x, y, ret, params, run);
    TracedConcat(x + y, z, ret, params, run);
    ExecThen(Traced(x, ret, params, run), Traced(y, ret, params, run), a, b, c);
    ExecThen(Traced(x + y, ret, params, run), Traced(z, ret, params, run), a, c, d);
  }

  lemma {:induction false} ReturnTrace(run: BlockRun, done: set<Point>, stores: seq<WitVar>, own: Activation)
    requires BlockOk(run.b) && Returns(run.b) && run.b.sites[run.b.pts[|run.b.pts| - 1]] == Return(stores)
    requires own.params <= |own.args| && run.b.pts[|run.b.pts| - 1] in done
    requires run.b.pts[|run.b.pts| - 1] !in run.bodies && Values(stores, run.val) == own.results
    ensures Traced(Rest(run.b, done, |run.b.pts| - 1), own.ret, own.args[..own.params], run) ==
            ResultStores(own.results)
  {
    var q, ret, params := run.b.pts[|run.b.pts| - 1], own.ret, own.args[..own.params];
    var lines := Annotated(ResultStores(stores), q);
    assert Rest(run.b, done, |run.b.pts| - 1) == lines + [Original(q)];
    TracedConcat(lines, [Original(q)], ret, params, run);
    TracedAnnotated(ResultStores(stores), q, ret, params, run);
    TracedOne(Original(q), ret, params, run);
    assert Valued(ResultStores(stores), run.val) == ResultStores(Values(stores, run.val));
  }

  // ---------------------------------------------------------------- whole call trees

  /** One execution of a function: what its call exchanges, and the blocks that are executed, in order. */
  datatype Execution = Execution(f: Func, targets: seq<Target>, code: seq<WitInstr>, own: Activation,
                                 blocks: seq<BlockExecution>)

  /** One execution of a block, with the executions of the functions it calls. */
  datatype BlockExecution = BlockExecution(b: Block, val: WitVar -> Bounds, inner: seq<(Point, Execution)>)

  ghost function CallsOf(inner: seq<(Point, Execution)>, n: nat): map<Point, Activation>
    requires n <= |inner|
  {
    if n == 0 then map[] else CallsOf(inner, n - 1)[inner[n - 1].0 := inner[n - 1].1.own]
  }

  ghost function BodiesOf(e: Execution, m: nat, n: nat): map<Point, seq<ShadowOp<Bounds>>>
    requires m < |e.blocks| && n <= |e.blocks[m].inner|
    decreases e, 0, n
  {
    if n == 0 then map[]
    else
      var x := e.blocks[m].inner[n - 1];
      BodiesOf(e, m, n - 1)[x.0 := TraceOf(x.1)]
  }

  ghost function AsRun(e: Execution, m: nat): BlockRun
    requires m < |e.blocks|
    decreases e, 1
  {
    var x := e.blocks[m];
    BlockRun(x.b, x.val, CallsOf(x.inner, |x.inner|), BodiesOf(e, m, |x.inner|))
  }

  /** All that the code of the first n blocks does to the shadow stack, with the calls it makes. */
  ghost function BlocksTrace(e: Execution, n: nat): seq<ShadowOp<Bounds>>
    requires n <= |e.blocks|
    decreases e, 3, n
  {
    if n == 0 then [] else BlocksTrace(e, n - 1) + BlockTrace(e, n - 1)
  }

  ghost function BlockTrace(e: Execution, m: nat): seq<ShadowOp<Bounds>>
    requires m < |e.blocks|
    decreases e, 2
  {
    var b := e.blocks[m].b;
    if BlockOk(b) && e.own.params <= |e.own.args|
    then Traced(Layout(b, b.sites.Keys), e.own.ret, e.own.args[..e.own.params], AsRun(e, m))
    else []
  }

  ghost function TraceOf(e: Execution): seq<ShadowOp<Bounds>>
    decreases e, 4
  {
    BlocksTrace(e, |e.blocks|)
  }

  /** Any sequence of blocks of instrumented functions: what is passed, loaded and returned is named right, no
      result is loaded too late, and only the last block can return. */
  ghost predicate ExecutionOk(e: Execution) {
    && WellFormed(e.f) && TargetsOk(e.f, e.targets) && InOrderOf(e.f, e.targets, e.code) && ActivationOk(e.own)
    && |e.blocks| > 0
    && forall m {:trigger AsRun(e, m)} :: 0 <= m < |e.blocks| ==>
         && BlockShaped(e.f, e.targets, e.code, AsRun(e, m)) && ArgumentsNamed(e.code, e.own, e.blocks[m].val)
         && (if m < |e.blocks| - 1 then !Returns(e.blocks[m].b) else ReturnsOwn(e))
         && forall n :: 0 <= n < |e.blocks[m].inner| ==> ExecutionOk(e.blocks[m].inner[n].1)
  }

  ghost predicate ReturnsOwn(e: Execution)
    requires |e.blocks| > 0
  {
    var x := e.blocks[|e.blocks| - 1];
    && |x.b.pts| > 0
    && if Returns(x.b)
       then
         var site := x.b.sites[x.b.pts[|x.b.pts| - 1]];
         site.Return? && Values(site.stores, x.val) == e.own.results != []
       else e.own.results == []
  }

  // ---------------------------------------------------------------- every call tree keeps to the protocol

  ghost predicate InnerServes(e: Execution, m: nat, l: nat)
    requires m < |e.blocks| && l < |e.blocks[m].inner|
  {
    var x := e.blocks[m].inner[l].1;
    ActivationOk(x.own) && Serves(TraceOf(x), x.own)
  }

  lemma {:induction false} BodyAt(e: Execution, m: nat, n: nat, q: Point)
    requires m < |e.blocks| && n <= |e.blocks[m].inner| && q in CallsOf(e.blocks[m].inner, n)
    requires forall l {:trigger InnerServes(e, m, l)} :: 0 <= l < n ==> InnerServes(e, m, l)
    ensures q in BodiesOf(e, m, n) && ActivationOk(CallsOf(e.blocks[m].inner, n)[q])
    ensures Serves(BodiesOf(e, m, n)[q], CallsOf(e.blocks[m].inner, n)[q])
  {
    if e.blocks[m].inner[n - 1].0 == q {
      assert InnerServes(e, m, n - 1);
    } else {
      BodyAt(e, m, n - 1, q);
    }
  }

  lemma {:induction false} BlockReady(e: Execution, m: nat)
    requires ExecutionOk(e) && m < |e.blocks|
    requires forall l {:trigger InnerServes(e, m, l)} :: 0 <= l < |e.blocks[m].inner| ==> InnerServes(e, m, l)
    ensures BlockRunOk(e.f, e.targets, e.code, AsRun(e, m))
  {
    var run := AsRun(e, m);
    forall k {:trigger IsCallAt(run.b, k)} | 0 <= k < |run.b.pts| - 1 && IsCallAt(run.b, k)
      ensures CallServed(e.f, e.targets, e.code, run, k)
    {
      assert CallShaped(e.f, e.targets, e.code, run, k);
      BodyAt(e, m, |e.blocks[m].inner|, run.b.pts[k]);
    }
  }

  ghost predicate BlocksReady(e: Execution) {
    ExecutionOk(e) && forall m {:trigger AsRun(e, m)} :: 0 <= m < |e.blocks| ==>
      BlockRunOk(e.f, e.targets, e.code, AsRun(e, m))
  }

  lemma {:induction false} BlockInFrame(e: Execution, m: nat, st: Stack)
    requires BlocksReady(e) && m < |e.blocks| && (HasFrame(e.own) ==> Holds(e.own, st, |e.own.passed|))
    ensures InFrame(e.f, e.targets, e.code, e.own, AsRun(e, m), e.blocks[m].b.sites.Keys, st)
  {
    assert AsRun(e, m).b == e.blocks[m].b && AsRun(e, m).val == e.blocks[m].val;
  }

  ghost predicate KeepsStack(e: Execution, m: nat, st: Stack)
    requires m < |e.blocks|
  {
    Exec(BlockTrace(e, m), st) == Some(st)
  }

  /** Blocks that leave the stack as it was do so together. */
  lemma {:induction false} BlocksKeep(e: Execution, n: nat, st: Stack)
    requires n <= |e.blocks| && forall m {:trigger KeepsStack(e, m, st)} :: 0 <= m < n ==> KeepsStack(e, m, st)
    ensures Exec(BlocksTrace(e, n), st) == Some(st)
  {
    if n > 0 {
      BlocksKeep(e, n - 1, st);
      assert KeepsStack(e, n - 1, st);
      ExecThen(BlocksTrace(e, n - 1), BlockTrace(e, n - 1), st, st, st);
    }
  }

  lemma {:induction false} BlocksRun(e: Execution, n: nat, st: Stack)
    requires BlocksReady(e) && n <= |e.blocks| && (HasFrame(e.own) ==> Holds(e.own, st, |e.own.passed|))
    requires forall m :: 0 <= m < n ==> !Returns(e.blocks[m].b)
    ensures Exec(BlocksTrace(e, n), st) == Some(st)
  {
    forall m {:trigger KeepsStack(e, m, st)} | 0 <= m < n
      ensures KeepsStack(e, m, st)
    {
      OneBlockRuns(e, m, st);
    }
    BlocksKeep(e, n, st);
  }

  lemma {:induction false} OneBlockRuns(e: Execution, m: nat, st: Stack)
    requires BlocksReady(e) && m < |e.blocks| && (HasFrame(e.own) ==> Holds(e.own, st, |e.own.passed|))
    requires !Returns(e.blocks[m].b)
    ensures Exec(BlockTrace(e, m), st) == Some(st)
  {
    BlockInFrame(e, m, st);
    BlockRuns(e.f, e.targets, e.code, e.own, AsRun(e, m), e.blocks[m].b.sites.Keys, st);
  }

  lemma {:induction false} LastBlockRuns(e: Execution, st: Stack) returns (now: Stack)
    requires BlocksReady(e) && Holds(e.own, st, |e.own.passed|) && HasFrame(e.own)
    requires Returns(e.blocks[|e.blocks| - 1].b)
    ensures Exec(TraceOf(e), st) == Some(now)
    ensures HoldsResults(e.own.results, now, |e.own.results|) && now[..|now| - 1] == st[..|st| - 1]
  {
    var n := |e.blocks| - 1;
    OnlyLastReturns(e);
    BlocksRun(e, n, st);
    now := LastReturns(e, st);
    ExecThen(BlocksTrace(e, n), BlockTrace(e, n), st, st, now);
  }

  lemma {:induction false} LastReturns(e: Execution, st: Stack) returns (now: Stack)
    requires BlocksReady(e) && Holds(e.own, st, |e.own.passed|) && HasFrame(e.own)
    requires Returns(e.blocks[|e.blocks| - 1].b)
    ensures Exec(BlockTrace(e, |e.blocks| - 1), st) == Some(now)
    ensures HoldsResults(e.own.results, now, |e.own.results|) && now[..|now| - 1] == st[..|st| - 1]
  {
    var n := |e.blocks| - 1;
    var b := e.blocks[n].b;
    OnlyLastReturns(e);
    BlockInFrame(e, n, st);
    now := ReturningBlockRuns(e.f, e.targets, e.code, e.own, AsRun(e, n), b.sites.Keys, st,
                              b.sites[b.pts[|b.pts| - 1]].stores);
  }

  lemma {:induction false} OnlyLastReturns(e: Execution)
    requires ExecutionOk(e)
    ensures forall m :: 0 <= m < |e.blocks| - 1 ==> !Returns(e.blocks[m].b)
    ensures ReturnsOwn(e)
  {
    forall m | 0 <= m < |e.blocks|
      ensures if m < |e.blocks| - 1 then !Returns(e.blocks[m].b) else ReturnsOwn(e)
    {
      assert AsRun(e, m).b == e.blocks[m].b;
    }
  }

  /** Called as the protocol asks, the code emitted for a function, and for all that it calls, finds every bound where
      the other side has stored it, leaves the results, and keeps all other frames; whatever blocks are executed. */
  lemma {:induction false} ExecutionServes(e: Execution)
    requires ExecutionOk(e)
    ensures Serves(TraceOf(e), e.own)
    decreases e
  {
    forall m | 0 <= m < |e.blocks|
      ensures BlockRunOk(e.f, e.targets, e.code, AsRun(e, m))
    {
      forall l {:trigger InnerServes(e, m, l)} | 0 <= l < |e.blocks[m].inner|
        ensures InnerServes(e, m, l)
      {
        InnerOk(e, m, l);
        ExecutionServes(e.blocks[m].inner[l].1);
      }
      BlockReady(e, m);
    }
    ReadyServes(e);
  }

  lemma {:induction false} InnerOk(e: Execution, m: nat, l: nat)
    requires ExecutionOk(e) && m < |e.blocks| && l < |e.blocks[m].inner|
    ensures ExecutionOk(e.blocks[m].inner[l].1)
  {
    assert AsRun(e, m).b == e.blocks[m].b;
  }

  lemma {:induction false} ReadyServes(e: Execution)
    requires BlocksReady(e)
    ensures Serves(TraceOf(e), e.own)
  {
    var n := |e.blocks| - 1;
    OnlyLastReturns(e);
    if HasFrame(e.own) {
      forall st | Holds(e.own, st, |e.own.passed|)
        ensures ServesOn(TraceOf(e), e.own, st)
      {
        if Returns(e.blocks[n].b) {
          var now := LastBlockRuns(e, st);
        } else {
          BlocksRun(e, n + 1, st);
        }
      }
    } else {
      NothingHandedOver(e.own);
      forall st
        ensures Exec(TraceOf(e), st) == Some(st)
      {
        BlocksRun(e, n + 1, st);
      }
    }
  }

  /** So a call of an instrumented function from anywhere restores the stack. */
  lemma {:induction false} EmittedCallTree(e: Execution, st: Stack)
    requires ExecutionOk(e)
    ensures Exec(Opening(e.own.ret, e.own.args, e.own.passed) + TraceOf(e) + Closing(e.own.ret, e.own.args), st)
            == Some(st)
  {
    ExecutionServes(e);
    CallThenLoads(TraceOf(e), e.own, [], st);
    assert ResultLoads<Bounds>([]) + Closing(e.own.ret, e.own.args) == Closing(e.own.ret, e.own.args);
  }

  // ---------------------------------------------------------------- an example

  /** A function that returns its argument. */
  function Identity(): Func {
    Func(0, {(0, 1)}, [])
  }

  function ReturnedArgument(): seq<Target> {
    [ValInvariant(Arg(0), 1)]
  }

  function IdentityCode(): seq<WitInstr> {
    [SourceWit(Arg(0), 0, 0)]
  }

  function IdentityBlock(): Block {
    Block([0, 1], [[ArgumentLoad(0, 0)], []], map[1 := Return([0])])
  }

  function IdentityCall(x: Bounds): Execution {
    Execution(Identity(), ReturnedArgument(), IdentityCode(),
              Activation(Type.Pointer, [Type.Pointer], 1, [(0, x)], [], [], [x], true),
              [BlockExecution(IdentityBlock(), _ => x, [])])
  }

  lemma {:induction false} IdentityHandled()
    ensures WellFormed(Identity()) && TargetsOk(Identity(), ReturnedArgument())
    ensures HandledAll(Identity(), ReturnedArgument(), 1) == [Source(Arg(0), 0), ValInvariant(Arg(0), 1)]
  {
    var f, t, s := Identity(), ReturnedArgument()[0], Source(Arg(0), 0);
    assert PathTo(f, [0], 0) && PathTo(f, [0, 1], 1);
    assert TargetOk(f, t) && TargetOk(f, s);
    assert Expected(f, t) == [s] && Expected(f, s) == [];
    assert Handled(f, [], s) == [s] by {
      assert HandledFrom(f, [], s, 0) == [];
    }
    assert HandledFrom(f, [s], t, 1) == [s];
    assert HandledFrom(f, [], t, 0) == [s];
    assert Handled(f, [], t) == [s] + [t];
    assert HandledAll(f, ReturnedArgument(), 0) == [];
  }

  lemma {:induction false} IdentityInOrder()
    ensures WellFormed(Identity()) && TargetsOk(Identity(), ReturnedArgument())
    ensures InOrderOf(Identity(), ReturnedArgument(), IdentityCode())
  {
    IdentityHandled();
    var f, t, s, code := Identity(), ReturnedArgument()[0], Source(Arg(0), 0), IdentityCode();
    assert OutlineOf(f, s) == [SourceWit(Arg(0), 0, 0)] by {
      assert OutlineFor(f, s, [0], 0) == [];
    }
    assert OutlineOf(f, t) == [];
    assert OutlineUpTo(f, [s, t], 0) == [] && OutlineUpTo(f, [s, t], 1) == OutlineOf(f, s);
    assert OutlineUpTo(f, [s, t], 2) == OutlineOf(f, s) + OutlineOf(f, t);
    assert Outlines(code, 0) == [] && Outlines(code, 1) == [Outline(code[0])];
  }

  lemma {:induction false} IdentityOk(x: Bounds)
    ensures ExecutionOk(IdentityCall(x))
  {
    IdentityInOrder();
    var e := IdentityCall(x);
    assert e.own.passed[0] == (0, x);
    IdentityShaped(e);
    assert ArgumentsNamed(IdentityCode(), e.own, e.blocks[0].val) && ReturnsOwn(e);
  }

  lemma {:induction false} IdentityBlockOk()
    ensures BlockOf(Identity(), IdentityCode(), IdentityBlock())
  {
    var f, code, b := Identity(), IdentityCode(), IdentityBlock();
    assert Lines(f, b.sites, code, 0, 0, 0) == [] && Lines(f, b.sites, code, 1, 0, 0) == [];
    assert InsertedBefore(f, b.sites, code, 0) == b.inserted[0];
    assert InsertedBefore(f, b.sites, code, 1) == b.inserted[1];
  }

  lemma {:induction false} IdentityShaped(e: Execution)
    requires WellFormed(Identity()) && TargetsOk(Identity(), ReturnedArgument())
    requires |e.blocks| == 1 && e.blocks[0].b == IdentityBlock() && e.blocks[0].inner == []
    ensures BlockShaped(Identity(), ReturnedArgument(), IdentityCode(), AsRun(e, 0))
  {
    IdentityBlockOk();
    assert BodiesOf(e, 0, 0) == map[] && AsRun(e, 0).b == IdentityBlock();
  }
}

/** What executing the code around calls does to the shadow stack. */
module CallExecution {
  import opened Options
  import opened Ssa
  import opened Targets
  import opened WitnessGraphs
  import opened WitnessCode
  import opened CreationOrder
  import opened ShadowStackSlots
  import opened ShadowStackProtocol
  import opened CallLayout
  import opened CallResults

  // ---------------------------------------------------------------- the operations among the lines

  /** The accesses to the shadow stack that are made for the call at q, in order. */
  function OpsOf(lines: seq<Line>, q: Point): seq<ShadowOp<WitVar>> {
    if lines == [] then [] else OpsOf(lines[..|lines| - 1], q) + OpOf(lines[|lines| - 1], q)
  }

  function OpOf(x: Line, q: Point): seq<ShadowOp<WitVar>> {
    if x.ShadowStack? && x.site == q then [x.op] else []
  }

  ghost predicate Foreign(lines: seq<Line>, q: Point) {
    forall x: Line :: x in lines ==> OpOf(x, q) == []
  }

  lemma {:induction false} OpsOfConcat(a: seq<Line>, b: seq<Line>, q: Point)
    ensures OpsOf(a + b, q) == OpsOf(a, q) + OpsOf(b, q)
  {
    if b == [] {
      assert a + b == a;
    } else {
      var n := |b| - 1;
      LastOfConcat(a, b);
      OpsOfConcat(a, b[..n], q);
      Associative(OpsOf(a, q), OpsOf(b[..n], q), OpOf(b[n], q));
    }
  }

  lemma {:induction false} LastOfConcat<T>(a: seq<T>, b: seq<T>)
    requires b != []
    ensures a + b != [] && (a + b)[|a + b| - 1] == b[|b| - 1] && (a + b)[..|a + b| - 1] == a + b[..|b| - 1]
  {
  }

  lemma {:induction false} OpsOfForeign(lines: seq<Line>, q: Point)
    requires Foreign(lines, q)
    ensures OpsOf(lines, q) == []
  {
    if lines != [] {
      var n := |lines| - 1;
      assert lines[n] in lines && lines == lines[..n] + [lines[n]];
      OpsOfForeign(lines[..n], q);
    }
  }

  lemma {:induction false} OpsOfAnnotated(ops: seq<ShadowOp<WitVar>>, q: Point)
    ensures OpsOf(Annotated(ops, q), q) == ops
  {
    if ops != [] {
      var n := |ops| - 1;
      assert Annotated(ops, q)[..n] == Annotated(ops[..n], q) && ops == ops[..n] + [ops[n]];
      OpsOfAnnotated(ops[..n], q);
    }
  }

  // ---------------------------------------------------------------- in the layout of a block

  /** Of what is inserted for witnesses, only what stands behind instruction k is made for the call there. */
  ghost predicate OwnBehind(b: Block, k: nat)
    requires BlockOk(b) && k < |b.pts|
  {
    forall i :: 0 <= i < |b.pts| && i != k + 1 ==> Foreign(b.inserted[i], b.pts[k])
  }

  lemma {:induction false} PartsForeign(b: Block, done: set<Point>, k: nat, i: nat, x: Line)
    requires BlockOk(b) && k < |b.pts| && OwnBehind(b, k) && i < |b.pts| && OpOf(x, b.pts[k]) != []
    ensures i != k + 1 ==> x !in Head(b, done, i)
    ensures i != k ==> x !in Rest(b, done, i)
  {
    assert i != k + 1 ==> x !in b.inserted[i] by {
      assert i != k + 1 ==> Foreign(b.inserted[i], b.pts[k]);
    }
  }

  lemma {:induction false} SidesForeign(b: Block, done: set<Point>, k: nat)
    requires BlockOk(b) && k + 1 < |b.pts| && OwnBehind(b, k)
    ensures Foreign(LinesBefore(b, done, k), b.pts[k]) && Foreign(LinesBehind(b, done, k), b.pts[k])
  {
    forall x: Line | OpOf(x, b.pts[k]) != []
      ensures x !in LinesBefore(b, done, k) && x !in LinesBehind(b, done, k)
    {
      forall i | 0 <= i < |b.pts|
        ensures i != k + 1 ==> x !in Head(b, done, i)
        ensures i != k ==> x !in Rest(b, done, i)
      {
        PartsForeign(b, done, k, i, x);
      }
      ConcatLacks(Segments(b, done), 0, k, x);
      ConcatLacks(Segments(b, done), k + 2, |b.pts|, x);
    }
  }

  lemma {:induction false} NotBehind(b: Block, done: set<Point>, k: nat)
    requires BlockOk(b) && k + 1 < |b.pts|
    ensures Original(b.pts[k]) !in Head(b, done, k + 1) + LinesBehind(b, done, k)
  {
    var x := Original(b.pts[k]);
    forall i | 0 <= i < |b.pts|
      ensures x !in Head(b, done, i) && (i != k ==> x !in Rest(b, done, i))
    {
      HeadHasNoOriginal(b, done, i, b.pts[k]);
    }
    ConcatLacks(Segments(b, done), k + 2, |b.pts|, x);
  }

  /** The lines of a block before and behind a handled call, with what is done for the call among them. */
  lemma {:induction false} AroundCall(b: Block, done: set<Point>, k: nat) returns (pre: seq<Line>, post: seq<Line>)
    requires BlockOk(b) && k + 1 < |b.pts| && OwnBehind(b, k)
    requires b.pts[k] in b.sites && b.sites[b.pts[k]].Call? && b.pts[k] in done
    ensures
      var q, s := b.pts[k], b.sites[b.pts[k]].call;
      var t, run := b.inserted[k + 1], LoadRun(b.inserted[k + 1]);
      && Layout(b, done) == pre + [Original(q)] + post && Original(q) !in pre && Original(q) !in post
      && OpsOf(pre, q) == Opening(s.ret, s.args, s.passed)
      && OpsOf(post, q) == OpsOf(t[..run], q) + Closing(s.ret, s.args) + OpsOf(t[run..], q)
  {
    var q, s := b.pts[k], b.sites[b.pts[k]];
    var before, opening := LinesBefore(b, done, k), OpeningLines(s, q);
    var head, behind := Head(b, done, k + 1), LinesBehind(b, done, k);
    pre, post := before + opening, head + behind;
    SidesForeign(b, done, k);
    assert OpsOf(pre, q) == Opening(s.call.ret, s.call.args, s.call.passed) by {
      OpsOfConcat(before, opening, q);
      OpsOfForeign(before, q);
      OpsOfAnnotated(Opening(s.call.ret, s.call.args, s.call.passed), q);
    }
    OpsOfConcat(head, behind, q);
    OpsOfForeign(behind, q);
    OpsOfHead(b.inserted[k + 1], s.call, q);
    OriginalOnce(b, done, k);
  }

  lemma {:induction false} OriginalOnce(b: Block, done: set<Point>, k: nat)
    requires BlockOk(b) && k + 1 < |b.pts|
    requires b.pts[k] in b.sites && b.sites[b.pts[k]].Call? && b.pts[k] in done
    ensures
      var q := b.pts[k];
      var pre := LinesBefore(b, done, k) + OpeningLines(b.sites[q], q);
      var post := Head(b, done, k + 1) + LinesBehind(b, done, k);
      Layout(b, done) == pre + [Original(q)] + post && Original(q) !in pre && Original(q) !in post
  {
    var q := b.pts[k];
    var opening := OpeningLines(b.sites[q], q);
    NotBehind(b, done, k);
    NotBefore(b, done, k);
    assert Original(q) !in opening;
    assert Layout(b, done) == LinesBefore(b, done, k) + (opening + [Original(q)]) + Head(b, done, k + 1)
                              + LinesBehind(b, done, k) by {
      LayoutAround(b, done, k);
      assert opening + [Original(q)] + [] == opening + [Original(q)];
    }
    RegroupAround(LinesBefore(b, done, k), opening, [Original(q)], Head(b, done, k + 1), LinesBehind(b, done, k));
  }

  lemma {:induction false} RegroupAround<T>(a: seq<T>, b: seq<T>, c: seq<T>, d: seq<T>, e: seq<T>)
    ensures a + (b + c) + d + e == a + b + c + (d + e)
  {
  }

  lemma {:induction false} OpsOfHead(t: seq<Line>, s: CallSite, q: Point)
    ensures
      var run := LoadRun(t);
      OpsOf(AfterLoads(t, ClosingLines(Call(s), q)), q) ==
      OpsOf(t[..run], q) + Closing(s.ret, s.args) + OpsOf(t[run..], q)
  {
    var run, closing := LoadRun(t), ClosingLines(Call(s), q);
    OpsOfConcat(t[..run] + closing, t[run..], q);
    OpsOfConcat(t[..run], closing, q);
    OpsOfAnnotated(Closing(s.ret, s.args), q);
  }

  /** Between the allocation and the call stands exactly one store for each passed argument, to its slot. */
  lemma {:induction false} ArgumentsStored(b: Block, done: set<Point>, k: nat, n: nat)
    returns (pre: seq<Line>, stores: seq<Line>, post: seq<Line>)
    requires BlockOk(b) && k + 1 < |b.pts| && b.pts[k] in b.sites && b.sites[b.pts[k]].Call? && b.pts[k] in done
    requires n < |b.sites[b.pts[k]].call.passed|
    ensures
      var q, s := b.pts[k], b.sites[b.pts[k]].call;
      var (arg, w) := s.passed[n];
      && Layout(b, done) == pre + [ShadowStack(Alloc(Size(s.ret, s.args)), q)] + stores + [Original(q)] + post
      && |stores| == |s.passed| && stores[n] == ShadowStack(Store(ArgumentSlot(s.ret, s.args, arg), w), q)
      && forall m :: 0 <= m < |stores| && m != n ==>
           stores[m].ShadowStack? && stores[m].site == q && stores[m].op.Store?
           && stores[m].op.slot != ArgumentSlot(s.ret, s.args, arg)
  {
    var q, s := b.pts[k], b.sites[b.pts[k]].call;
    assert SiteOk(b.sites[q]);
    stores := StoresOf(s, q, n);
    pre, post := LinesBefore(b, done, k), Head(b, done, k + 1) + LinesBehind(b, done, k);
    var alloc := [ShadowStack(Alloc(Size(s.ret, s.args)), q)];
    assert Layout(b, done) == pre + (alloc + stores + [Original(q)] + []) + Head(b, done, k + 1)
                              + LinesBehind(b, done, k) by {
      LayoutAround(b, done, k);
    }
    RegroupStores(pre, alloc, stores, [Original(q)], Head(b, done, k + 1), LinesBehind(b, done, k));
  }

  lemma {:induction false} StoresOf(s: CallSite, q: Point, n: nat) returns (stores: seq<Line>)
    requires CallOk(s) && n < |s.passed|
    ensures OpeningLines(Call(s), q) == [ShadowStack(Alloc(Size(s.ret, s.args)), q)] + stores
    ensures
      var (arg, w) := s.passed[n];
      && |stores| == |s.passed| && stores[n] == ShadowStack(Store(ArgumentSlot(s.ret, s.args, arg), w), q)
      && forall m :: 0 <= m < |stores| && m != n ==>
           stores[m].ShadowStack? && stores[m].site == q && stores[m].op.Store?
           && stores[m].op.slot != ArgumentSlot(s.ret, s.args, arg)
  {
    stores := Annotated(ArgStores(s.ret, s.args, s.passed), q);
    forall m | 0 <= m < |stores| && m != n
      ensures stores[m].op.slot != ArgumentSlot(s.ret, s.args, s.passed[n].0)
    {
      OtherSlot(s, n, m);
    }
    OpeningHasFrame(s, q, n);
  }

  lemma {:induction false} OtherSlot(s: CallSite, n: nat, m: nat)
    requires CallOk(s) && n < |s.passed| && m < |s.passed| && n != m
    ensures ArgumentSlot(s.ret, s.args, s.passed[m].0) != ArgumentSlot(s.ret, s.args, s.passed[n].0)
  {
    SlotsInjective(s.ret, s.args, s.passed[m].0, s.passed[n].0);
  }

  lemma {:induction false} OpeningHasFrame(s: CallSite, q: Point, n: nat)
    requires CallOk(s) && n < |s.passed|
    ensures OpeningLines(Call(s), q) ==
            [ShadowStack(Alloc(Size(s.ret, s.args)), q)] + Annotated(ArgStores(s.ret, s.args, s.passed), q)
  {
    SlotsInjective(s.ret, s.args, s.passed[n].0, s.passed[n].0);
  }

  lemma {:induction false} RegroupStores<T>(a: seq<T>, b: seq<T>, c: seq<T>, d: seq<T>, e: seq<T>, f: seq<T>)
    ensures a + (b + c + d + []) + e + f == a + b + c + d + (e + f)
  {
  }

  // ---------------------------------------------------------------- executing it

  function ValueOf(op: ShadowOp<WitVar>, val: WitVar -> Bounds): ShadowOp<Bounds> {
    match op
    case Alloc(size) => Alloc(size)
    case Store(slot, w) => Store(slot, val(w))
    case Load(slot, w) => Load(slot, val(w))
    case Dealloc => Dealloc
  }

  /** Operations on witnesses with the values the witnesses have. */
  function Valued(ops: seq<ShadowOp<WitVar>>, val: WitVar -> Bounds): (r: seq<ShadowOp<Bounds>>)
    ensures |r| == |ops| && forall k :: 0 <= k < |r| ==> r[k] == ValueOf(ops[k], val)
  {
    seq(|ops|, k requires 0 <= k < |ops| => ValueOf(ops[k], val))
  }

  function Values(ws: seq<WitVar>, val: WitVar -> Bounds): (r: seq<Bounds>)
    ensures |r| == |ws| && forall k :: 0 <= k < |r| ==> r[k] == val(ws[k])
  {
    seq(|ws|, k requires 0 <= k < |ws| => val(ws[k]))
  }

  /** The call passes the bounds that the witnesses of its arguments have. */
  ghost predicate Passes(s: CallSite, a: Activation, val: WitVar -> Bounds) {
    && a.ret == s.ret && a.args == s.args && |a.passed| == |s.passed|
    && forall k :: 0 <= k < |s.passed| ==> a.passed[k].0 == s.passed[k].0 && a.passed[k].1 == val(s.passed[k].1)
  }

  /** With the loads of its results, if there are any, before the deallocation, a call succeeds and restores the
      stack if and only if each witness gets the bounds that the callee has stored for its pointer. */
  lemma {:induction false} EarlyLoadsRun(s: CallSite, body: seq<ShadowOp<Bounds>>, a: Activation,
                                         val: WitVar -> Bounds, found: seq<WitVar>, st: Stack)
    requires CallOk(s) && ActivationOk(a) && Serves(body, a) && Passes(s, a, val)
    requires found == [] || |found| == |a.results|
    ensures
      var opening, after := Opening(s.ret, s.args, s.passed), ResultLoads(found) + Closing(s.ret, s.args);
      Exec(Valued(opening, val) + body + Valued(after, val), st) ==
      if found == [] || Values(found, val) == a.results then Some(st) else None
  {
    ValuedOpening(s, a, val);
    ValuedConcat(ResultLoads(found), Closing(s.ret, s.args), val);
    ValuedParts(s, val, found);
    CallThenLoads(body, a, Values(found, val), st);
  }

  /** With the loads behind the deallocation, it succeeds if and only if the frame below holds what the
      witnesses are to get, whatever the callee has stored. */
  lemma {:induction false} LateLoadsRun(s: CallSite, body: seq<ShadowOp<Bounds>>, a: Activation,
                                        val: WitVar -> Bounds, found: seq<WitVar>, st: Stack)
    requires CallOk(s) && ActivationOk(a) && Serves(body, a) && Passes(s, a, val)
    ensures
      var opening, after := Opening(s.ret, s.args, s.passed), Closing(s.ret, s.args) + ResultLoads(found);
      Exec(Valued(opening, val) + body + Valued(after, val), st) ==
      if found == [] || HoldsResults(Values(found, val), st, |found|) then Some(st) else None
  {
    ValuedOpening(s, a, val);
    ValuedConcat(Closing(s.ret, s.args), ResultLoads(found), val);
    ValuedParts(s, val, found);
    LateLoads(body, a, Values(found, val), st);
  }

  lemma {:induction false} ValuedParts(s: CallSite, val: WitVar -> Bounds, found: seq<WitVar>)
    ensures Valued(ResultLoads(found), val) == ResultLoads(Values(found, val))
    ensures Valued(Closing(s.ret, s.args), val) == Closing(s.ret, s.args)
  {
  }

  lemma {:induction false} ValuedOpening(s: CallSite, a: Activation, val: WitVar -> Bounds)
    requires CallOk(s) && ActivationOk(a) && Passes(s, a, val)
    ensures Valued(Opening(s.ret, s.args, s.passed), val) == Opening(a.ret, a.args, a.passed)
  {
    var stores, size := ArgStores(s.ret, s.args, s.passed), Size(s.ret, s.args);
    var alloc: seq<ShadowOp<WitVar>> := if size == 0 then [] else [Alloc(size)];
    ValuedConcat(alloc, stores, val);
    assert Valued(stores, val) == ArgStores(a.ret, a.args, a.passed);
    assert Valued(alloc, val) == if size == 0 then [] else [Alloc(size)];
  }

  lemma {:induction false} ValuedConcat(x: seq<ShadowOp<WitVar>>, y: seq<ShadowOp<WitVar>>, val: WitVar -> Bounds)
    ensures Valued(x + y, val) == Valued(x, val) + Valued(y, val)
  {
  }

  // ---------------------------------------------------------------- the code of a function

  /** What was inserted for witnesses into the block is the function's code. */
  ghost predicate BlockOf(f: Func, code: seq<WitInstr>, b: Block) {
    BlockOk(b) && forall k {:trigger b.inserted[k]} :: 0 <= k < |b.pts| ==>
      b.inserted[k] == InsertedBefore(f, b.sites, code, b.pts[k])
  }

  ghost predicate FromCallAt(f: Func, x: WitInstr, q: Point) {
    x.SourceWit? && x.v.Instr? && x.v.i < |f.insts| && f.insts[x.v.i].at == q
  }

  lemma {:induction false} LinesForeign(f: Func, sites: map<Point, Site>, code: seq<WitInstr>, p: Point, n: nat, k: nat,
                                        q: Point)
    requires k <= |code| && forall w :: 0 <= w < k && FromCallAt(f, code[w], q) ==> code[w].loc != p
    ensures Foreign(Lines(f, sites, code, p, n, k), q)
  {
    if k > 0 {
      LinesForeign(f, sites, code, p, n, k - 1, q);
      assert Foreign(LineAt(f, sites, code, p, n, k - 1), q);
    }
  }

  /** Each instruction is there for a handled target. */
  lemma {:induction false} ForTarget(f: Func, made: seq<Target>, k: nat, w: nat) returns (a: nat, j: Component)
    requires k <= |made| && w < |OutlineUpTo(f, made, k)|
    ensures a < k && Inserts(f, made[a]) && OutlineUpTo(f, made, k)[w] == InsertedFor(f, made[a], j)
  {
    var n := |OutlineUpTo(f, made, k - 1)|;
    if w < n {
      a, j := ForTarget(f, made, k - 1, w);
    } else {
      var t := made[k - 1];
      var js := Indices(ShapeOf(f, t.v));
      OutlineForAt(f, t, js, |js|, w - n);
      a, j := k - 1, js[w - n];
    }
  }

  lemma {:induction false} SourcePlaced(f: Func, targets: seq<Target>, code: seq<WitInstr>, w: nat)
    requires WellFormed(f) && TargetsOk(f, targets) && InOrderOf(f, targets, code)
    requires w < |code| && code[w].SourceWit?
    ensures TargetOk(f, Source(code[w].v, code[w].loc))
  {
    var made := HandledAll(f, targets, |targets|);
    OutlinesAt(code, |code|, w);
    AllHandledProper(f, targets, |targets|);
    var a, j := ForTarget(f, made, |made|, w);
    assert made[a] in made;
  }

  /** The results of call i are loaded right behind it only. */
  lemma {:induction false} CallOwnsBehind(f: Func, targets: seq<Target>, code: seq<WitInstr>, b: Block, k: nat, i: nat)
    requires WellFormed(f) && TargetsOk(f, targets) && InOrderOf(f, targets, code)
    requires BlockOf(f, code, b) && CallOfBlock(f, code, b, k, i)
    ensures OwnBehind(b, k)
  {
    forall l | 0 <= l < |b.pts| && l != k + 1
      ensures Foreign(b.inserted[l], b.pts[k])
    {
      forall w | 0 <= w < |code| && FromCallAt(f, code[w], b.pts[k])
        ensures code[w].loc != b.pts[l]
      {
        SourcePlaced(f, targets, code, w);
        assert code[w].v.i == i;
      }
      LinesForeign(f, b.sites, code, b.pts[l], 0, |code|, b.pts[k]);
    }
  }

  /** A call that returns no pointers has no value that could be derived from. */
  lemma {:induction false} NothingFromCall(f: Func, code: seq<WitInstr>, b: Block, k: nat)
    requires BlockOf(f, code, b) && k < |b.pts| && forall i :: 0 <= i < |f.insts| ==> f.insts[i].at != b.pts[k]
    ensures OwnBehind(b, k) && (k + 1 < |b.pts| ==> Foreign(b.inserted[k + 1], b.pts[k]))
  {
    forall l | 0 <= l < |b.pts|
      ensures Foreign(b.inserted[l], b.pts[k])
    {
      LinesForeign(f, b.sites, code, b.pts[l], 0, |code|, b.pts[k]);
    }
  }

  // ---------------------------------------------------------------- executing the lines

  /** Executing what the lines of a block do for the call at q, with the callee in between. */
  function ExecAround(pre: seq<Line>, body: seq<ShadowOp<Bounds>>, post: seq<Line>, q: Point, val: WitVar -> Bounds,
                      st: Stack): Option<Stack> {
    Exec(Valued(OpsOf(pre, q), val) + body + Valued(OpsOf(post, q), val), st)
  }

  ghost predicate CalledWith(s: CallSite, body: seq<ShadowOp<Bounds>>, a: Activation, val: WitVar -> Bounds) {
    ActivationOk(a) && Serves(body, a) && Passes(s, a, val)
  }

  /** Executing the lines of a call that returns no pointers: the callee finds the bounds of its arguments, and
      the stack is restored. */
  lemma {:induction false} QuietCallRuns(f: Func, code: seq<WitInstr>, b: Block, done: set<Point>, k: nat,
                                         body: seq<ShadowOp<Bounds>>, a: Activation, val: WitVar -> Bounds, st: Stack)
    returns (pre: seq<Line>, post: seq<Line>)
    requires BlockOf(f, code, b) && k + 1 < |b.pts| && b.pts[k] in done
    requires b.pts[k] in b.sites && b.sites[b.pts[k]].Call?
    requires forall i :: 0 <= i < |f.insts| ==> f.insts[i].at != b.pts[k]
    requires CalledWith(b.sites[b.pts[k]].call, body, a, val)
    ensures
      var q := b.pts[k];
      && Layout(b, done) == pre + [Original(q)] + post && Original(q) !in pre && Original(q) !in post
      && ExecAround(pre, body, post, q, val, st) == Some(st)
  {
    var q, s, t := b.pts[k], b.sites[b.pts[k]].call, b.inserted[k + 1];
    NothingFromCall(f, code, b, k);
    pre, post := AroundCall(b, done, k);
    var run := LoadRun(t);
    OpsOfForeign(t[..run], q);
    OpsOfForeign(t[run..], q);
    assert SiteOk(b.sites[q]);
    assert [] + Closing(s.ret, s.args) + [] == ResultLoads<WitVar>([]) + Closing<WitVar>(s.ret, s.args);
    EarlyAround(pre, body, post, q, s, a, val, [], st);
  }

  lemma {:induction false} EarlyAround(pre: seq<Line>, body: seq<ShadowOp<Bounds>>, post: seq<Line>, q: Point,
                                       s: CallSite, a: Activation, val: WitVar -> Bounds, found: seq<WitVar>,
                                       st: Stack)
    requires CallOk(s) && CalledWith(s, body, a, val) && (found == [] || |found| == |a.results|)
    requires OpsOf(pre, q) == Opening(s.ret, s.args, s.passed)
    requires OpsOf(post, q) == ResultLoads(found) + Closing(s.ret, s.args)
    ensures ExecAround(pre, body, post, q, val, st) ==
            if found == [] || Values(found, val) == a.results then Some(st) else None
  {
    EarlyLoadsRun(s, body, a, val, found, st);
  }

  /** Executing the lines of a call whose results are loaded in its frame, or not at all: it succeeds, and restores
      the stack, if and only if the witnesses get the bounds that the callee has stored for their pointers. */
  lemma {:induction false} CallRuns(f: Func, targets: seq<Target>, code: seq<WitInstr>, b: Block, done: set<Point>,
                                    k: nat, i: nat, body: seq<ShadowOp<Bounds>>, a: Activation,
                                    val: WitVar -> Bounds, st: Stack)
    returns (pre: seq<Line>, post: seq<Line>, first: nat)
    requires WellFormed(f) && TargetsOk(f, targets) && InOrderOf(f, targets, code) && BlockOf(f, code, b)
    requires CallOfBlock(f, code, b, k, i) && b.pts[k] in done && !SelectFirst(f, targets, i)
    requires CalledWith(b.sites[b.pts[k]].call, body, a, val) && a.results != []
    ensures
      var q := b.pts[k];
      && Layout(b, done) == pre + [Original(q)] + post && Original(q) !in pre && Original(q) !in post
      && if SourceOf(f, i) in HandledAll(f, targets, |targets|)
         then WitnessesFrom(f, code, i, first)
              && ExecAround(pre, body, post, q, val, st) ==
                 if Values(From(first, |a.results|), val) == a.results then Some(st) else None
         else ExecAround(pre, body, post, q, val, st) == Some(st)
  {
    var q, s, t := b.pts[k], b.sites[b.pts[k]].call, b.inserted[k + 1];
    CallOwnsBehind(f, targets, code, b, k, i);
    pre, post := AroundCall(b, done, k);
    var before, after;
    first, before, after := LinesSplitAtLoadRun(f, targets, b.sites, code, i, t);
    var found := if SourceOf(f, i) in HandledAll(f, targets, |targets|) then From(first, |a.results|) else [];
    OpsOfLoads(q, found);
    PlainForeign(after, q);
    assert OpsOf(post, q) == ResultLoads(found) + Closing(s.ret, s.args) + [];
    assert SiteOk(b.sites[q]);
    EarlyAround(pre, body, post, q, s, a, val, found, st);
  }

  /** Executing the lines of a call whose results are loaded behind its frame: it succeeds if and only if the frame
      below holds what the witnesses are to get, whatever the callee has stored. */
  lemma {:induction false} LateCallRuns(f: Func, targets: seq<Target>, code: seq<WitInstr>, b: Block,
                                        done: set<Point>, k: nat, i: nat, body: seq<ShadowOp<Bounds>>, a: Activation,
                                        val: WitVar -> Bounds, st: Stack)
    returns (pre: seq<Line>, post: seq<Line>, first: nat)
    requires WellFormed(f) && TargetsOk(f, targets) && InOrderOf(f, targets, code) && BlockOf(f, code, b)
    requires CallOfBlock(f, code, b, k, i) && b.pts[k] in done && SelectFirst(f, targets, i)
    requires CalledWith(b.sites[b.pts[k]].call, body, a, val) && a.results != []
    ensures
      var q, found := b.pts[k], From(first, |a.results|);
      && Layout(b, done) == pre + [Original(q)] + post && Original(q) !in pre && Original(q) !in post
      && WitnessesFrom(f, code, i, first)
      && ExecAround(pre, body, post, q, val, st) ==
         if HoldsResults(Values(found, val), st, |found|) then Some(st) else None
  {
    var s := b.sites[b.pts[k]].call;
    pre, post, first := AroundLateCall(f, targets, code, b, done, k, i);
    assert SiteOk(b.sites[b.pts[k]]) && |a.results| == |Indices(f.insts[i].shape)|;
    LateAround(pre, body, post, b.pts[k], s, a, val, From(first, |a.results|), st);
  }

  lemma {:induction false} AroundLateCall(f: Func, targets: seq<Target>, code: seq<WitInstr>, b: Block,
                                          done: set<Point>, k: nat, i: nat)
    returns (pre: seq<Line>, post: seq<Line>, first: nat)
    requires WellFormed(f) && TargetsOk(f, targets) && InOrderOf(f, targets, code) && BlockOf(f, code, b)
    requires CallOfBlock(f, code, b, k, i) && b.pts[k] in done && SelectFirst(f, targets, i)
    ensures
      var q, s, found := b.pts[k], b.sites[b.pts[k]].call, From(first, |Indices(f.insts[i].shape)|);
      && Layout(b, done) == pre + [Original(q)] + post && Original(q) !in pre && Original(q) !in post
      && WitnessesFrom(f, code, i, first)
      && OpsOf(pre, q) == Opening(s.ret, s.args, s.passed)
      && OpsOf(post, q) == Closing(s.ret, s.args) + ResultLoads(found)
  {
    var q, s, t := b.pts[k], b.sites[b.pts[k]].call, b.inserted[k + 1];
    CallOwnsBehind(f, targets, code, b, k, i);
    pre, post := AroundCall(b, done, k);
    first := LateBehind(f, targets, code, b, k, i);
    NothingFirst(OpsOf(t[..LoadRun(t)], q), Closing(s.ret, s.args), OpsOf(t[LoadRun(t)..], q));
  }

  lemma {:induction false} NothingFirst<T>(a: seq<T>, b: seq<T>, c: seq<T>)
    requires a == []
    ensures a + b + c == b + c
  {
  }

  /** Then no load directly follows the call, but all loads of its results come later. */
  lemma {:induction false} LateBehind(f: Func, targets: seq<Target>, code: seq<WitInstr>, b: Block, k: nat, i: nat)
    returns (first: nat)
    requires WellFormed(f) && TargetsOk(f, targets) && InOrderOf(f, targets, code)
    requires CallOfBlock(f, code, b, k, i) && SelectFirst(f, targets, i)
    ensures WitnessesFrom(f, code, i, first)
    ensures
      var q, t := b.pts[k], b.inserted[k + 1];
      && OpsOf(t[..LoadRun(t)], q) == []
      && OpsOf(t[LoadRun(t)..], q) == ResultLoads(From(first, |Indices(f.insts[i].shape)|))
  {
    var before, after;
    first, before, after := LinesSplitAtLoadRun(f, targets, b.sites, code, i, b.inserted[k + 1]);
    LateOps(before, SourceLoads(f, i, first), after, b.pts[k], From(first, |Indices(f.insts[i].shape)|));
  }

  lemma {:induction false} LateAround(pre: seq<Line>, body: seq<ShadowOp<Bounds>>, post: seq<Line>, q: Point,
                                      s: CallSite, a: Activation, val: WitVar -> Bounds, found: seq<WitVar>,
                                      st: Stack)
    requires CallOk(s) && CalledWith(s, body, a, val) && found != []
    requires OpsOf(pre, q) == Opening(s.ret, s.args, s.passed)
    requires OpsOf(post, q) == Closing(s.ret, s.args) + ResultLoads(found)
    ensures ExecAround(pre, body, post, q, val, st) ==
            if HoldsResults(Values(found, val), st, |found|) then Some(st) else None
  {
    LateLoadsRun(s, body, a, val, found, st);
  }

  lemma {:induction false} OpsOfLoads(q: Point, found: seq<WitVar>)
    ensures OpsOf(Annotated(ResultLoads(found), q), q) == ResultLoads(found)
  {
    OpsOfAnnotated(ResultLoads(found), q);
  }

  lemma {:induction false} PlainForeign(lines: seq<Line>, q: Point)
    requires Plain(lines)
    ensures OpsOf(lines, q) == []
  {
    forall x: Line | x in lines
      ensures OpOf(x, q) == []
    {
      var l :| 0 <= l < |lines| && lines[l] == x;
      assert WitnessLine(lines, l);
    }
    OpsOfForeign(lines, q);
  }

  lemma {:induction false} LateOps(before: seq<Line>, loads: seq<Line>, after: seq<Line>, q: Point, found: seq<WitVar>)
    requires Plain(before) && Plain(after) && loads == Annotated(ResultLoads(found), q)
    ensures OpsOf(before + loads + after, q) == ResultLoads(found)
  {
    OpsOfConcat(before + loads, after, q);
    OpsOfConcat(before, loads, q);
    OpsOfLoads(q, found);
    PlainForeign(before, q);
    PlainForeign(after, q);
  }
}

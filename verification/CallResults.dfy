/** The loads of a call's results: which are inserted behind the call, in which order, and whether
    they come before the call's frame is given up. */
module CallResults {
  import opened Options
  import opened AscendingLists
  import opened Ssa
  import opened Targets
  import opened WitnessGraphs
  import opened WitnessCode
  import opened CreationOrder
  import opened ShadowStackSlots
  import opened ShadowStackProtocol
  import opened CallLayout

  // ---------------------------------------------------------------- lines inserted for witnesses

  function SlotOf(indices: seq<Component>, j: Component): (s: nat)
    ensures s <= |indices| && (j in indices ==> s < |indices| && indices[s] == j)
  {
    if indices == [] || indices[0] == j then 0 else 1 + SlotOf(indices[1..], j)
  }

  /** The line of instruction number w. A call's result is loaded from its slot; constants need no
      instruction. */
  function LinesFor(f: Func, sites: map<Point, Site>, w: WitVar, x: WitInstr): (r: seq<Line>)
    ensures |r| <= 1
  {
    match x
    case SourceWit(Arg(a), _, _) => [ArgumentLoad(a, w)]
    case SourceWit(Constant(_), _, _) => []
    case SourceWit(Instr(i), j, _) =>
      if i < |f.insts| && f.insts[i].at in sites && sites[f.insts[i].at].Call?
      then [ShadowStack(Load(SlotOf(Indices(f.insts[i].shape), j), w), f.insts[i].at)]
      else [WitnessInst(w)]
    case PhiWit(_, _, _) => [WitnessInst(w)]
    case SelectWit(_, _, _, _) => [WitnessInst(w)]
  }

  /** The line of instruction k of the code, if it is inserted right before q. */
  function LineAt(f: Func, sites: map<Point, Site>, code: seq<WitInstr>, q: Point, n: nat, k: nat): seq<Line>
    requires k < |code|
  {
    if Place(f, code[k]) == q then LinesFor(f, sites, n + k, code[k]) else []
  }

  /** What stands right before q of the first k instructions, which are numbered from n on. */
  function Lines(f: Func, sites: map<Point, Site>, code: seq<WitInstr>, q: Point, n: nat, k: nat): seq<Line>
    requires k <= |code|
  {
    if k == 0 then [] else Lines(f, sites, code, q, n, k - 1) + LineAt(f, sites, code, q, n, k - 1)
  }

  /** What is inserted right before q, in order of insertion. */
  function InsertedBefore(f: Func, sites: map<Point, Site>, code: seq<WitInstr>, q: Point): seq<Line> {
    Lines(f, sites, code, q, 0, |code|)
  }

  lemma {:induction false} LinesOutline(f: Func, sites: map<Point, Site>, code: seq<WitInstr>, q: Point, n: nat, k: nat)
    requires k <= |code|
    ensures Lines(f, sites, Outlines(code, |code|), q, n, k) == Lines(f, sites, code, q, n, k)
  {
    if k > 0 {
      LinesOutline(f, sites, code, q, n, k - 1);
      OutlinesAt(code, |code|, k - 1);
    }
  }

  lemma {:induction false} LineInConcat(f: Func, sites: map<Point, Site>, a: seq<WitInstr>, b: seq<WitInstr>, q: Point,
                                        n: nat, k: nat)
    requires k < |b|
    ensures LineAt(f, sites, a + b, q, n, |a| + k) == LineAt(f, sites, b, q, n + |a|, k)
  {
    assert (a + b)[|a| + k] == b[k];
  }

  lemma {:induction false} Associative<T>(a: seq<T>, b: seq<T>, c: seq<T>)
    ensures a + b + c == a + (b + c)
  {
  }

  lemma {:induction false} LinesConcat(f: Func, sites: map<Point, Site>, a: seq<WitInstr>, b: seq<WitInstr>, q: Point,
                                       n: nat, k: nat)
    requires k <= |b|
    ensures Lines(f, sites, a + b, q, n, |a| + k) == Lines(f, sites, a, q, n, |a|) + Lines(f, sites, b, q, n + |a|, k)
  {
    if k == 0 {
      LinesPrefix(f, sites, a, b, q, n, |a|);
    } else {
      LinesConcat(f, sites, a, b, q, n, k - 1);
      LineInConcat(f, sites, a, b, q, n, k - 1);
      Associative(Lines(f, sites, a, q, n, |a|), Lines(f, sites, b, q, n + |a|, k - 1),
                  LineAt(f, sites, b, q, n + |a|, k - 1));
    }
  }

  lemma {:induction false} LinesPrefix(f: Func, sites: map<Point, Site>, a: seq<WitInstr>, b: seq<WitInstr>, q: Point,
                                       n: nat, k: nat)
    requires k <= |a|
    ensures Lines(f, sites, a + b, q, n, k) == Lines(f, sites, a, q, n, k)
  {
    if k > 0 {
      LinesPrefix(f, sites, a, b, q, n, k - 1);
    }
  }

  /** The line is there for witness w. */
  predicate Names(x: Line, w: WitVar) {
    match x
    case ArgumentLoad(_, v) => v == w
    case ShadowStack(op, _) => op.Load? && op.w == w
    case WitnessInst(v) => v == w
    case Original(_) => false
    case MetadataStore(_, _) => false
  }

  /** What is inserted for a witness: an argument and a call's result are loaded, the latter from the slot of its
      index, anything else is computed. */
  ghost predicate RightLine(f: Func, sites: map<Point, Site>, y: WitInstr, w: WitVar, x: Line) {
    match y
    case SourceWit(Arg(a), _, _) => x == ArgumentLoad(a, w)
    case SourceWit(Constant(_), _, _) => false
    case SourceWit(Instr(i), j, _) =>
      if i < |f.insts| && f.insts[i].at in sites && sites[f.insts[i].at].Call?
      then
        var js := Indices(f.insts[i].shape);
        x.ShadowStack? && x.site == f.insts[i].at && x.op.Load? && x.op.w == w
        && (j in js ==> x.op.slot < |js| && js[x.op.slot] == j)
      else x == WitnessInst(w)
    case PhiWit(_, _, _) => x == WitnessInst(w)
    case SelectWit(_, _, _, _) => x == WitnessInst(w)
  }

  ghost predicate NoneNames(lines: seq<Line>, w: WitVar) {
    forall x: Line :: x in lines ==> !Names(x, w)
  }

  lemma {:induction false} NotNamedYet(f: Func, sites: map<Point, Site>, code: seq<WitInstr>, q: Point, k: nat,
                                       w: WitVar)
    requires k <= |code| && (k <= w || Place(f, code[w]) != q)
    ensures NoneNames(Lines(f, sites, code, q, 0, k), w)
  {
    if k > 0 {
      NotNamedYet(f, sites, code, q, k - 1, w);
      assert NoneNames(LineAt(f, sites, code, q, 0, k - 1), w);
    }
  }

  /** Each witness but those of constants has exactly one line, at its place. */
  lemma {:induction false} LineForEach(f: Func, sites: map<Point, Site>, code: seq<WitInstr>, k: nat, w: WitVar)
    returns (l: nat)
    requires w < k <= |code| && !(code[w].SourceWit? && code[w].v.Constant?)
    ensures
      var lines := Lines(f, sites, code, Place(f, code[w]), 0, k);
      && l < |lines| && Names(lines[l], w) && RightLine(f, sites, code[w], w, lines[l])
      && forall m :: 0 <= m < |lines| && m != l ==> !Names(lines[m], w)
  {
    var q := Place(f, code[w]);
    var before, last := Lines(f, sites, code, q, 0, k - 1), LineAt(f, sites, code, q, 0, k - 1);
    if w == k - 1 {
      NotNamedYet(f, sites, code, q, k - 1, w);
      l := |before|;
      assert |last| == 1;
      forall m | 0 <= m < |before|
        ensures !Names((before + last)[m], w)
      {
        assert before[m] in before;
      }
    } else {
      l := LineForEach(f, sites, code, k - 1, w);
      assert NoneNames(last, w);
      forall m | |before| <= m < |before + last|
        ensures !Names((before + last)[m], w)
      {
        assert last[m - |before|] in last;
      }
    }
  }

  // ---------------------------------------------------------------- the call and its source

  /** Instruction i is a call, alone at its place, that returns pointers as its shape says. */
  ghost predicate IsCall(f: Func, sites: map<Point, Site>, i: nat) {
    && i < |f.insts| && f.insts[i].op.Def?
    && f.insts[i].at in sites && sites[f.insts[i].at].Call?
    && IsIndices(sites[f.insts[i].at].call.ret, Indices(f.insts[i].shape))
    && forall k :: 0 <= k < |f.insts| && f.insts[k].at == f.insts[i].at ==> k == i
  }

  /** The target whose witnesses are loaded behind the call. */
  function SourceOf(f: Func, i: nat): Target
    requires i < |f.insts| && f.insts[i].op.Def?
  {
    Source(Instr(i), f.insts[i].op.next)
  }

  /** The consecutive numbers from n on. */
  function From(n: nat, k: nat): (r: seq<WitVar>)
    ensures |r| == k && forall s :: 0 <= s < k ==> r[s] == n + s
  {
    if k == 0 then [] else From(n, k - 1) + [n + k - 1]
  }

  lemma {:induction false} SlotOfIndex(indices: seq<Component>, s: nat)
    requires s < |indices| && Ascending(indices)
    ensures SlotOf(indices, indices[s]) == s
  {
    var t := SlotOf(indices, indices[s]);
    assert indices[s] in indices;
    AscendingDistinct(indices, s, t);
  }

  /** The witnesses of the source are loaded from consecutive slots. */
  lemma {:induction false} SourceLines(f: Func, sites: map<Point, Site>, i: nat, n: nat, k: nat)
    requires WellFormed(f) && IsCall(f, sites, i) && k <= |Indices(f.insts[i].shape)|
    ensures
      var src, js := SourceOf(f, i), Indices(f.insts[i].shape);
      Lines(f, sites, OutlineFor(f, src, js, |js|), src.loc, n, k)
      == Annotated(ResultLoads(From(n, k)), f.insts[i].at)
  {
    var src, js := SourceOf(f, i), Indices(f.insts[i].shape);
    HasPointers(f, i);
    if k > 0 {
      SourceLines(f, sites, i, n, k - 1);
      OutlineForAt(f, src, js, |js|, k - 1);
      SlotOfIndex(js, k - 1);
      assert ResultLoads(From(n, k)) == ResultLoads(From(n, k - 1)) + [Load(k - 1, n + k - 1)];
    }
  }

  lemma {:induction false} OutlineForAt(f: Func, t: Target, js: seq<Component>, k: nat, a: nat)
    requires Inserts(f, t) && a < k <= |js|
    ensures OutlineFor(f, t, js, k)[a] == InsertedFor(f, t, js[a])
  {
    if a < k - 1 {
      OutlineForAt(f, t, js, k - 1, a);
    }
  }

  // ---------------------------------------------------------------- everything else behind the call

  /** A select at q, whose witnesses are inserted there. */
  ghost predicate SelectAt(f: Func, t: Target, q: Point) {
    IsSelect(f, t) && f.insts[t.v.i].at == q
  }

  /** Among the first k targets is a select at q. */
  ghost predicate SelectIn(f: Func, made: seq<Target>, q: Point, k: nat)
    requires k <= |made|
  {
    k > 0 && (SelectIn(f, made, q, k - 1) || SelectAt(f, made[k - 1], q))
  }

  lemma {:induction false} SelectInIff(f: Func, made: seq<Target>, q: Point, k: nat)
    requires k <= |made|
    ensures SelectIn(f, made, q, k) <==> exists a :: 0 <= a < k && SelectAt(f, made[a], q)
  {
    if k > 0 {
      SelectInIff(f, made, q, k - 1);
    }
  }

  ghost predicate WitnessLine(lines: seq<Line>, l: nat)
    requires l < |lines|
  {
    lines[l].WitnessInst?
  }

  ghost predicate Plain(lines: seq<Line>) {
    forall l: nat {:trigger WitnessLine(lines, l)} :: l < |lines| ==> WitnessLine(lines, l)
  }

  lemma {:induction false} PlainConcat(a: seq<Line>, b: seq<Line>)
    requires Plain(a) && Plain(b)
    ensures Plain(a + b)
  {
    forall l: nat {:trigger WitnessLine(a + b, l)} | l < |a + b|
      ensures WitnessLine(a + b, l)
    {
      assert if l < |a| then WitnessLine(a, l) else WitnessLine(b, l - |a|);
    }
  }

  lemma {:induction false} PlainMore(f: Func, sites: map<Point, Site>, code: seq<WitInstr>, q: Point, n: nat, k: nat)
    requires 0 < k <= |code| && Plain(Lines(f, sites, code, q, n, k - 1))
    requires Plain(LineAt(f, sites, code, q, n, k - 1))
    ensures Plain(Lines(f, sites, code, q, n, k))
    ensures
      |Lines(f, sites, code, q, n, k)|
      == |Lines(f, sites, code, q, n, k - 1)| + |LineAt(f, sites, code, q, n, k - 1)|
  {
    PlainConcat(Lines(f, sites, code, q, n, k - 1), LineAt(f, sites, code, q, n, k - 1));
  }

  lemma {:induction false} PlainBoth(f: Func, sites: map<Point, Site>, a: seq<WitInstr>, b: seq<WitInstr>, q: Point,
                                     n: nat)
    requires Plain(Lines(f, sites, a, q, n, |a|)) && Plain(Lines(f, sites, b, q, n + |a|, |b|))
    ensures Plain(Lines(f, sites, a + b, q, n, |a + b|))
    ensures
      |Lines(f, sites, a + b, q, n, |a + b|)|
      == |Lines(f, sites, a, q, n, |a|)| + |Lines(f, sites, b, q, n + |a|, |b|)|
  {
    LinesConcat(f, sites, a, b, q, n, |b|);
    PlainConcat(Lines(f, sites, a, q, n, |a|), Lines(f, sites, b, q, n + |a|, |b|));
  }

  lemma {:induction false} PlainHasNoLoad(lines: seq<Line>)
    requires Plain(lines)
    ensures forall l :: 0 <= l < |lines| ==> !IsLoad(lines[l])
  {
    assert forall l: nat :: l < |lines| ==> !IsLoad(lines[l]) || !WitnessLine(lines, l);
  }

  /** No other source is placed right behind the call. */
  lemma {:induction false} OnlySource(f: Func, sites: map<Point, Site>, i: nat, t: Target)
    requires WellFormed(f) && IsCall(f, sites, i) && TargetOk(f, t) && t.Source? && t.v.Instr?
    requires t.loc == f.insts[i].op.next
    ensures t == SourceOf(f, i)
  {
    assert InstOk(f, i) && InstOk(f, t.v.i);
    assert (f.insts[t.v.i].at, t.loc) in f.edges;
  }

  /** Of other targets, only selects have lines there. */
  lemma {:induction false} NotBehindCall(f: Func, sites: map<Point, Site>, i: nat, t: Target, j: Component, w: WitVar)
    requires WellFormed(f) && IsCall(f, sites, i) && TargetOk(f, t) && Inserts(f, t) && t != SourceOf(f, i)
    requires Place(f, InsertedFor(f, t, j)) == f.insts[i].op.next
    ensures
      LinesFor(f, sites, w, InsertedFor(f, t, j)) ==
      if SelectAt(f, t, f.insts[i].op.next) then [WitnessInst(w)] else []
  {
    assert MultiPhi(f, t) ==> PhiAt(f, f.insts[t.v.i].at, t.v.i);
    assert InstOk(f, i);
    if t.Source? && t.v.Instr? {
      OnlySource(f, sites, i, t);
    }
  }

  lemma {:induction false} OtherLine(f: Func, sites: map<Point, Site>, i: nat, t: Target, j: Component, w: WitVar)
    requires WellFormed(f) && IsCall(f, sites, i) && TargetOk(f, t) && Inserts(f, t) && t != SourceOf(f, i)
    ensures
      var q, x := f.insts[i].op.next, InsertedFor(f, t, j);
      var lines := if Place(f, x) == q then LinesFor(f, sites, w, x) else [];
      Plain(lines) && |lines| == if SelectAt(f, t, q) then 1 else 0
  {
    if Place(f, InsertedFor(f, t, j)) == f.insts[i].op.next {
      NotBehindCall(f, sites, i, t, j, w);
    }
  }

  lemma {:induction false} OtherLines(f: Func, sites: map<Point, Site>, i: nat, t: Target, n: nat, k: nat)
    requires WellFormed(f) && IsCall(f, sites, i) && TargetOk(f, t) && t != SourceOf(f, i) && k <= |OutlineOf(f, t)|
    ensures
      var q := f.insts[i].op.next;
      var lines := Lines(f, sites, OutlineOf(f, t), q, n, k);
      Plain(lines) && |lines| == if SelectAt(f, t, q) then k else 0
  {
    if k > 0 {
      OtherLines(f, sites, i, t, n, k - 1);
      OtherLineAt(f, sites, i, t, n, k - 1);
      PlainMore(f, sites, OutlineOf(f, t), f.insts[i].op.next, n, k);
    }
  }

  lemma {:induction false} OtherLineAt(f: Func, sites: map<Point, Site>, i: nat, t: Target, n: nat, k: nat)
    requires WellFormed(f) && IsCall(f, sites, i) && TargetOk(f, t) && t != SourceOf(f, i) && k < |OutlineOf(f, t)|
    ensures
      var q := f.insts[i].op.next;
      var lines := LineAt(f, sites, OutlineOf(f, t), q, n, k);
      Plain(lines) && |lines| == if SelectAt(f, t, q) then 1 else 0
  {
    var js := Indices(ShapeOf(f, t.v));
    OutlineForAt(f, t, js, |js|, k);
    OtherLine(f, sites, i, t, js[k], n + k);
  }

  lemma {:induction false} OtherTarget(f: Func, sites: map<Point, Site>, i: nat, t: Target, n: nat)
    requires WellFormed(f) && IsCall(f, sites, i) && TargetOk(f, t) && t != SourceOf(f, i)
    ensures
      var q, o := f.insts[i].op.next, OutlineOf(f, t);
      var lines := Lines(f, sites, o, q, n, |o|);
      Plain(lines) && (lines != [] <==> SelectAt(f, t, q))
  {
    OtherLines(f, sites, i, t, n, |OutlineOf(f, t)|);
    if SelectAt(f, t, f.insts[i].op.next) {
      assert |OutlineOf(f, t)| > 0;
    }
  }

  /** The first k targets are proper ones other than src. */
  ghost predicate Others(f: Func, made: seq<Target>, src: Target, k: nat)
    requires k <= |made|
  {
    k > 0 ==> Others(f, made, src, k - 1) && TargetOk(f, made[k - 1]) && made[k - 1] != src
  }

  lemma {:induction false} OthersOnly(f: Func, made: seq<Target>, src: Target, k: nat)
    requires AllProper(f, made) && src !in made && k <= |made|
    ensures Others(f, made, src, k)
  {
    if k > 0 {
      OthersOnly(f, made, src, k - 1);
      assert made[k - 1] in made && TargetOk(f, made[k - 1]);
    }
  }

  /** Among other targets, only the selects right behind the call have their witnesses there. */
  lemma {:induction false} OtherTargets(f: Func, sites: map<Point, Site>, i: nat, made: seq<Target>, n: nat, k: nat)
    requires WellFormed(f) && IsCall(f, sites, i) && k <= |made| && Others(f, made, SourceOf(f, i), k)
    ensures
      var q, o := f.insts[i].op.next, OutlineUpTo(f, made, k);
      var lines := Lines(f, sites, o, q, n, |o|);
      Plain(lines) && (lines != [] <==> SelectIn(f, made, q, k))
  {
    if k > 0 {
      var q, o, p := f.insts[i].op.next, OutlineUpTo(f, made, k - 1), OutlineOf(f, made[k - 1]);
      var x, y := Lines(f, sites, o, q, n, |o|), Lines(f, sites, p, q, n + |o|, |p|);
      assert Plain(x) && (x != [] <==> SelectIn(f, made, q, k - 1)) by {
        OtherTargets(f, sites, i, made, n, k - 1);
      }
      assert Plain(y) && (y != [] <==> SelectAt(f, made[k - 1], q)) by {
        OtherTarget(f, sites, i, made[k - 1], n + |o|);
      }
      PlainBoth(f, sites, o, p, q, n);
    }
  }


  // ---------------------------------------------------------------- all lines behind the call

  /** The lines right behind call i: all loads of its results, each from its slot, in the order of the
      slots, between the witness selects of selects that stand there. */
  ghost predicate LoadsBetween(f: Func, i: nat, lines: seq<Line>, before: seq<Line>, first: nat, after: seq<Line>)
    requires i < |f.insts|
  {
    Plain(before) && Plain(after) && lines == before + SourceLoads(f, i, first) + after
  }

  /** The loads of call i's results, for the witnesses from number n on. */
  function SourceLoads(f: Func, i: nat, n: nat): seq<Line>
    requires i < |f.insts|
  {
    Annotated(ResultLoads(From(n, |Indices(f.insts[i].shape)|)), f.insts[i].at)
  }

  lemma {:induction false} LinesSplit(f: Func, sites: map<Point, Site>, a: seq<WitInstr>, b: seq<WitInstr>,
                                      c: seq<WitInstr>, q: Point)
    ensures
      InsertedBefore(f, sites, a + b + c, q) ==
      Lines(f, sites, a, q, 0, |a|) + Lines(f, sites, b, q, |a|, |b|) + Lines(f, sites, c, q, |a| + |b|, |c|)
  {
    LinesJoin(f, sites, a + b, c, q);
    LinesJoin(f, sites, a, b, q);
  }

  lemma {:induction false} LinesJoin(f: Func, sites: map<Point, Site>, a: seq<WitInstr>, b: seq<WitInstr>, q: Point)
    ensures InsertedBefore(f, sites, a + b, q) == InsertedBefore(f, sites, a, q) + Lines(f, sites, b, q, |a|, |b|)
  {
    LinesConcat(f, sites, a, b, q, 0, |b|);
  }

  /** The call's source is handled between the two lists, and nowhere else. */
  ghost predicate HandledBetween(f: Func, made: seq<Target>, pre: seq<Target>, src: Target, post: seq<Target>) {
    made == pre + [src] + post && src !in pre && src !in post && AllProper(f, pre) && AllProper(f, post)
  }

  lemma {:induction false} OutlineSplit(f: Func, pre: seq<Target>, t: Target, post: seq<Target>)
    ensures OutlineAll(f, pre + [t] + post) == OutlineAll(f, pre) + OutlineOf(f, t) + OutlineAll(f, post)
  {
    OutlineConcat(f, pre + [t], post, |post|);
    OutlineMore(f, pre, t);
  }

  lemma {:induction false} LinesAround(f: Func, sites: map<Point, Site>, made: seq<Target>, i: nat,
                                       pre: seq<Target>, post: seq<Target>)
    returns (before: seq<Line>, after: seq<Line>)
    requires WellFormed(f) && IsCall(f, sites, i) && HandledBetween(f, made, pre, SourceOf(f, i), post)
    ensures
      var q := f.insts[i].op.next;
      && LoadsBetween(f, i, InsertedBefore(f, sites, OutlineAll(f, made), q), before, |OutlineAll(f, pre)|, after)
      && (before != [] <==> SelectIn(f, pre, q, |pre|))
  {
    var q, x, y, z := f.insts[i].op.next, OutlineAll(f, pre), OutlineOf(f, SourceOf(f, i)), OutlineAll(f, post);
    OutlineSplit(f, pre, SourceOf(f, i), post);
    LinesSplit(f, sites, x, y, z, q);
    LinesOfSource(f, sites, i, |x|);
    before, after := Lines(f, sites, x, q, 0, |x|), Lines(f, sites, z, q, |x| + |y|, |z|);
    OthersOnly(f, pre, SourceOf(f, i), |pre|);
    OthersOnly(f, post, SourceOf(f, i), |post|);
    OtherTargets(f, sites, i, pre, 0, |pre|);
    OtherTargets(f, sites, i, post, |x| + |y|, |post|);
  }

  lemma {:induction false} LinesOfSource(f: Func, sites: map<Point, Site>, i: nat, n: nat)
    requires WellFormed(f) && IsCall(f, sites, i)
    ensures |OutlineOf(f, SourceOf(f, i))| == |Indices(f.insts[i].shape)|
    ensures
      var y := OutlineOf(f, SourceOf(f, i));
      Lines(f, sites, y, f.insts[i].op.next, n, |y|) == SourceLoads(f, i, n)
  {
    SourceLines(f, sites, i, n, |Indices(f.insts[i].shape)|);
  }

  /** What stands behind a call depends on when its source is handled only: the loads of all its
      results, and before them the witnesses of selects right behind it that are handled earlier. */
  lemma {:induction false} LinesBehindCall(f: Func, targets: seq<Target>, sites: map<Point, Site>,
                                           code: seq<WitInstr>, i: nat, pre: seq<Target>, post: seq<Target>)
    returns (before: seq<Line>, after: seq<Line>)
    requires WellFormed(f) && TargetsOk(f, targets) && InOrderOf(f, targets, code) && IsCall(f, sites, i)
    requires HandledBetween(f, HandledAll(f, targets, |targets|), pre, SourceOf(f, i), post)
    ensures
      var q := f.insts[i].op.next;
      && LoadsBetween(f, i, InsertedBefore(f, sites, code, q), before, |OutlineAll(f, pre)|, after)
      && (before != [] <==> SelectIn(f, pre, q, |pre|))
  {
    LinesOutline(f, sites, code, f.insts[i].op.next, 0, |code|);
    before, after := LinesAround(f, sites, HandledAll(f, targets, |targets|), i, pre, post);
  }

  /** If the call's results are not asked for, nothing is loaded. */
  lemma {:induction false} NothingLoaded(f: Func, targets: seq<Target>, sites: map<Point, Site>, code: seq<WitInstr>,
                                         i: nat)
    requires WellFormed(f) && TargetsOk(f, targets) && InOrderOf(f, targets, code) && IsCall(f, sites, i)
    requires SourceOf(f, i) !in HandledAll(f, targets, |targets|)
    ensures Plain(InsertedBefore(f, sites, code, f.insts[i].op.next))
  {
    AllHandledProper(f, targets, |targets|);
    LinesOutline(f, sites, code, f.insts[i].op.next, 0, |code|);
    OthersOnly(f, HandledAll(f, targets, |targets|), SourceOf(f, i), |HandledAll(f, targets, |targets|)|);
    OtherTargets(f, sites, i, HandledAll(f, targets, |targets|), 0, |HandledAll(f, targets, |targets|)|);
  }

  /** A source that is handled is handled once. */
  lemma {:induction false} HandledOnce(f: Func, targets: seq<Target>, src: Target)
    returns (pre: seq<Target>, post: seq<Target>)
    requires WellFormed(f) && TargetsOk(f, targets) && src.Source? && src in HandledAll(f, targets, |targets|)
    ensures HandledBetween(f, HandledAll(f, targets, |targets|), pre, src, post)
  {
    var made := HandledAll(f, targets, |targets|);
    AllHandledProper(f, targets, |targets|);
    var a :| 0 <= a < |made| && made[a] == src;
    pre, post := made[..a], made[a + 1..];
    assert forall b :: 0 <= b < |pre| ==> pre[b] != src;
    assert forall b :: 0 <= b < |post| ==> post[b] == made[a + 1 + b] && post[b] != src;
  }

  // ---------------------------------------------------------------- is every load inside the frame

  /** In the order in which the targets are handled, a select right behind the call comes before the
      call's source. */
  ghost predicate SelectFirst(f: Func, targets: seq<Target>, i: nat)
    requires WellFormed(f) && TargetsOk(f, targets) && i < |f.insts| && f.insts[i].op.Def?
  {
    exists a: nat, b: nat :: Precedes(f, HandledAll(f, targets, |targets|), i, a, b)
  }

  ghost predicate Precedes(f: Func, made: seq<Target>, i: nat, a: nat, b: nat)
    requires i < |f.insts| && f.insts[i].op.Def?
  {
    a < b < |made| && SelectAt(f, made[a], f.insts[i].op.next) && made[b] == SourceOf(f, i)
  }

  lemma {:induction false} OnlyAt(pre: seq<Target>, x: Target, post: seq<Target>, b: nat)
    requires x !in pre && x !in post && b < |pre + [x] + post| && (pre + [x] + post)[b] == x
    ensures b == |pre|
  {
    var all := pre + [x] + post;
    assert forall c :: 0 <= c < |pre| ==> all[c] == pre[c] && all[c] != x;
    assert forall c :: |pre| < c < |all| ==> all[c] == post[c - |pre| - 1] && all[c] != x;
  }

  lemma {:induction false} SelectFirstIn(f: Func, targets: seq<Target>, i: nat, pre: seq<Target>, post: seq<Target>)
    requires WellFormed(f) && TargetsOk(f, targets) && i < |f.insts| && f.insts[i].op.Def?
    requires HandledBetween(f, HandledAll(f, targets, |targets|), pre, SourceOf(f, i), post)
    ensures SelectFirst(f, targets, i) <==> SelectIn(f, pre, f.insts[i].op.next, |pre|)
  {
    var made, q := HandledAll(f, targets, |targets|), f.insts[i].op.next;
    SelectInIff(f, pre, q, |pre|);
    if SelectIn(f, pre, q, |pre|) {
      var a :| 0 <= a < |pre| && SelectAt(f, pre[a], q);
      assert Precedes(f, made, i, a, |pre|);
    }
    if a: nat, b: nat :| Precedes(f, made, i, a, b) {
      OnlyAt(pre, SourceOf(f, i), post, b);
      assert pre[a] == made[a];
    }
  }

  lemma {:induction false} LoadRunOf(f: Func, i: nat, first: nat, lines: seq<Line>, before: seq<Line>, after: seq<Line>)
    requires i < |f.insts| && LoadsBetween(f, i, lines, before, first, after)
    ensures LoadRun(lines) == if before == [] then |Indices(f.insts[i].shape)| else 0
  {
    PlainHasNoLoad(before);
    PlainHasNoLoad(after);
    if before == [] {
      var loads := SourceLoads(f, i, first);
      assert lines == loads + after;
      LoadRunStops(loads, after);
      assert forall l :: 0 <= l < |loads| ==> IsLoad(loads[l]);
    } else {
      assert lines[0] == before[0] && !IsLoad(lines[0]);
    }
  }

  /** No result of the call is loaded after the deallocation, if and only if no select right behind the
      call is handled before the call's source. */
  lemma {:induction false} ResultsInFrameIff(f: Func, targets: seq<Target>, sites: map<Point, Site>,
                                             code: seq<WitInstr>, i: nat, t: seq<Line>)
    requires WellFormed(f) && TargetsOk(f, targets) && InOrderOf(f, targets, code) && IsCall(f, sites, i)
    requires t == InsertedBefore(f, sites, code, f.insts[i].op.next)
    ensures (forall l :: LoadRun(t) <= l < |t| ==> !IsLoad(t[l])) <==> !SelectFirst(f, targets, i)
  {
    var made, src := HandledAll(f, targets, |targets|), SourceOf(f, i);
    if src !in made {
      NothingLoaded(f, targets, sites, code, i);
      PlainHasNoLoad(t);
    } else {
      var pre, post := HandledOnce(f, targets, src);
      var before, after := LinesBehindCall(f, targets, sites, code, i, pre, post);
      var first := |OutlineAll(f, pre)|;
      SelectFirstIn(f, targets, i, pre, post);
      LoadRunOf(f, i, first, t, before, after);
      LateLoadIff(f, i, first, t, before, after);
    }
  }

  lemma {:induction false} LateLoadIff(f: Func, i: nat, first: nat, lines: seq<Line>, before: seq<Line>,
                                       after: seq<Line>)
    requires WellFormed(f) && i < |f.insts| && LoadsBetween(f, i, lines, before, first, after)
    ensures (forall l :: LoadRun(lines) <= l < |lines| ==> !IsLoad(lines[l])) <==> before == []
  {
    var loads := SourceLoads(f, i, first);
    HasPointers(f, i);
    LoadRunOf(f, i, first, lines, before, after);
    PlainHasNoLoad(after);
    if before == [] {
      assert forall l :: |loads| <= l < |lines| ==> lines[l] == after[l - |loads|];
    } else {
      assert lines[|before|] == loads[0] && IsLoad(loads[0]);
    }
  }

  // ---------------------------------------------------------------- the code around a call

  /** Point k of the block is call i of the function, and what stands behind it was inserted for the
      function's targets. */
  ghost predicate CallOfBlock(f: Func, code: seq<WitInstr>, b: Block, k: nat, i: nat) {
    && BlockOk(b) && k + 1 < |b.pts| && IsCall(f, b.sites, i)
    && b.pts[k] == f.insts[i].at && b.pts[k + 1] == f.insts[i].op.next
    && b.inserted[k + 1] == InsertedBefore(f, b.sites, code, b.pts[k + 1])
  }

  lemma {:induction false} SplitAtLoadRun(f: Func, i: nat, first: nat, lines: seq<Line>, before: seq<Line>,
                                          after: seq<Line>)
    requires WellFormed(f) && i < |f.insts| && LoadsBetween(f, i, lines, before, first, after)
    ensures SourceLoads(f, i, first) != []
    ensures lines[..LoadRun(lines)] == if before == [] then SourceLoads(f, i, first) else []
    ensures lines[LoadRun(lines)..] == if before == [] then after else before + SourceLoads(f, i, first) + after
  {
    HasPointers(f, i);
    LoadRunOf(f, i, first, lines, before, after);
  }

  /** The run of loads that starts right behind call i is either all loads of its results or empty. */
  lemma {:induction false} LinesSplitAtLoadRun(f: Func, targets: seq<Target>, sites: map<Point, Site>,
                                               code: seq<WitInstr>, i: nat, t: seq<Line>)
    returns (first: nat, before: seq<Line>, after: seq<Line>)
    requires WellFormed(f) && TargetsOk(f, targets) && InOrderOf(f, targets, code) && IsCall(f, sites, i)
    requires t == InsertedBefore(f, sites, code, f.insts[i].op.next)
    ensures Plain(before) && Plain(after)
    ensures
      var loads := if SourceOf(f, i) in HandledAll(f, targets, |targets|) then SourceLoads(f, i, first) else [];
      if SelectFirst(f, targets, i)
      then loads != [] && before != [] && t[..LoadRun(t)] == [] && t[LoadRun(t)..] == before + loads + after
      else t[..LoadRun(t)] == loads && t[LoadRun(t)..] == after
    ensures SourceOf(f, i) in HandledAll(f, targets, |targets|) ==> WitnessesFrom(f, code, i, first)
  {
    var made, src := HandledAll(f, targets, |targets|), SourceOf(f, i);
    if src !in made {
      NothingLoaded(f, targets, sites, code, i);
      PlainHasNoLoad(t);
      first, before, after := 0, [], t;
      assert t[..0] == [] && t[0..] == t;
      assert !SelectFirst(f, targets, i);
    } else {
      var pre, post := HandledOnce(f, targets, src);
      before, after := LinesBehindCall(f, targets, sites, code, i, pre, post);
      first := |OutlineAll(f, pre)|;
      SelectFirstIn(f, targets, i, pre, post);
      SplitAtLoadRun(f, i, first, t, before, after);
      NumberedFrom(f, targets, code, i, pre, post);
    }
  }

  /** The witnesses of call i's results, in the order of their indices, have the numbers from n on. */
  ghost predicate WitnessesFrom(f: Func, code: seq<WitInstr>, i: nat, n: nat)
    requires i < |f.insts| && f.insts[i].op.Def?
  {
    forall s :: 0 <= s < |Indices(f.insts[i].shape)| ==> IsResultWitness(f, code, i, n, s)
  }

  ghost predicate IsResultWitness(f: Func, code: seq<WitInstr>, i: nat, n: nat, s: nat)
    requires i < |f.insts| && f.insts[i].op.Def? && s < |Indices(f.insts[i].shape)|
  {
    n + s < |code| && code[n + s] == SourceWit(Instr(i), Indices(f.insts[i].shape)[s], f.insts[i].op.next)
  }

  lemma {:induction false} NumberedFrom(f: Func, targets: seq<Target>, code: seq<WitInstr>, i: nat, pre: seq<Target>,
                                        post: seq<Target>)
    requires WellFormed(f) && TargetsOk(f, targets) && InOrderOf(f, targets, code)
    requires i < |f.insts| && f.insts[i].op.Def?
    requires HandledBetween(f, HandledAll(f, targets, |targets|), pre, SourceOf(f, i), post)
    ensures WitnessesFrom(f, code, i, |OutlineAll(f, pre)|)
  {
    var src, n, js := SourceOf(f, i), |OutlineAll(f, pre)|, Indices(f.insts[i].shape);
    OutlineSplit(f, pre, src, post);
    forall s | 0 <= s < |js|
      ensures IsResultWitness(f, code, i, n, s)
    {
      OutlineForAt(f, src, js, |js|, s);
      assert Outlines(code, |code|)[n + s] == OutlineOf(f, src)[s];
      OutlinesAt(code, |code|, n + s);
    }
  }

  /** Once a call is handled, its code is complete: allocation, argument stores, the call, the loads of
      all its results in the order of their slots if they are asked for, and the deallocation; but
      the loads come last if a select right behind the call is handled before the call's source. */
  lemma {:induction false} CallCode(f: Func, targets: seq<Target>, code: seq<WitInstr>, b: Block, done: set<Point>,
                                    k: nat, i: nat)
    returns (first: nat, before: seq<Line>, after: seq<Line>)
    requires WellFormed(f) && TargetsOk(f, targets) && InOrderOf(f, targets, code)
    requires CallOfBlock(f, code, b, k, i) && b.pts[k] in done
    ensures Plain(before) && Plain(after)
    ensures SourceOf(f, i) in HandledAll(f, targets, |targets|) ==> WitnessesFrom(f, code, i, first)
    ensures
      var q, s := b.pts[k], b.sites[b.pts[k]];
      var loads := if SourceOf(f, i) in HandledAll(f, targets, |targets|) then SourceLoads(f, i, first) else [];
      if SelectFirst(f, targets, i)
      then loads != [] && before != [] &&
           Layout(b, done) == LinesBefore(b, done, k) + (OpeningLines(s, q) + [Original(q)] + ClosingLines(s, q))
                              + (before + loads + after + LinesBehind(b, done, k))
      else Layout(b, done) == LinesBefore(b, done, k)
                              + (OpeningLines(s, q) + [Original(q)] + loads + ClosingLines(s, q))
                              + (after + LinesBehind(b, done, k))
  {
    var q, s, t := b.pts[k], b.sites[b.pts[k]], b.inserted[k + 1];
    CallLaidOut(b, done, k);
    first, before, after := LinesSplitAtLoadRun(f, targets, b.sites, code, i, t);
    assert OpeningLines(s, q) + [Original(q)] + [] == OpeningLines(s, q) + [Original(q)];
  }

  lemma {:induction false} LateCallCode(f: Func, targets: seq<Target>, code: seq<WitInstr>, b: Block,
                                        done: set<Point>, k: nat, i: nat)
    returns (first: nat, before: seq<Line>, after: seq<Line>)
    requires WellFormed(f) && TargetsOk(f, targets) && InOrderOf(f, targets, code)
    requires CallOfBlock(f, code, b, k, i) && b.pts[k] in done && SelectFirst(f, targets, i)
    ensures Plain(before) && before != []
    ensures
      var q, s := b.pts[k], b.sites[b.pts[k]];
      Layout(b, done) == LinesBefore(b, done, k) + (OpeningLines(s, q) + [Original(q)] + ClosingLines(s, q))
                         + (before + SourceLoads(f, i, first) + after + LinesBehind(b, done, k))
  {
    first, before, after := CallCode(f, targets, code, b, done, k, i);
  }

  /** The witness map of a call's source is the one the mechanism computes: each pointer of the result has
      the witness that is loaded from its slot. */
  lemma {:induction false} SourceWitnesses(f: Func, sites: map<Point, Site>, i: nat, first: nat,
                                           m: map<Component, WitVar>, witnesses: map<nat, WitVar>, indices: seq<nat>)
    requires IsCall(f, sites, i)
    requires forall a :: 0 <= a < |Indices(f.insts[i].shape)| ==>
               Indices(f.insts[i].shape)[a] in m && m[Indices(f.insts[i].shape)[a]] == first + a
    requires forall j :: j in m ==> j in Indices(f.insts[i].shape)
    requires
      var ty, found := sites[f.insts[i].at].call.ret, From(first, |Indices(f.insts[i].shape)|);
      && IsIndices(ty, indices) && (forall j: nat :: j in witnesses <==> PointerAt(ty, j))
      && forall s :: 0 <= s < |found| ==> indices[s] in witnesses && witnesses[indices[s]] == found[s]
    ensures m == witnesses
  {
    var ty, js := sites[f.insts[i].at].call.ret, Indices(f.insts[i].shape);
    IndicesUnique(ty, js, indices, |js|);
    assert js[..|js|] == js && indices[..|indices|] == indices;
    forall j | j in m
      ensures j in witnesses && m[j] == witnesses[j]
    {
      var s :| 0 <= s < |js| && js[s] == j;
    }
    assert forall j :: j in witnesses ==> j in js && j in m;
  }

  // ---------------------------------------------------------------- the order of the targets

  /** If a target that leads to a select right behind a call comes before all targets that lead to the
      call's source, the results are loaded too late. */
  lemma {:induction false} LateByTargetOrder(f: Func, targets: seq<Target>, i: nat, x: nat, y: nat, s: Target)
    requires WellFormed(f) && TargetsOk(f, targets) && i < |f.insts| && f.insts[i].op.Def?
    requires x < y < |targets| && Leads(f, targets[x], s) && SelectAt(f, s, f.insts[i].op.next)
    requires NoneLeads(f, targets, SourceOf(f, i), x + 1)
    requires Leads(f, targets[y], SourceOf(f, i))
    ensures SelectFirst(f, targets, i)
  {
    var a, b := LedToInOrder(f, targets, x, y, s, SourceOf(f, i));
    assert Precedes(f, HandledAll(f, targets, |targets|), i, a, b);
  }

  /** And only if a target that leads to such a select comes no later than any that leads to the source. */
  lemma {:induction false} LateOnlyByTargetOrder(f: Func, targets: seq<Target>, i: nat) returns (x: nat, s: Target)
    requires WellFormed(f) && TargetsOk(f, targets) && i < |f.insts| && f.insts[i].op.Def?
    requires SelectFirst(f, targets, i)
    ensures x < |targets| && Leads(f, targets[x], s) && SelectAt(f, s, f.insts[i].op.next)
    ensures NoneLeads(f, targets, SourceOf(f, i), x)
  {
    var made := HandledAll(f, targets, |targets|);
    var a: nat, b: nat :| Precedes(f, made, i, a, b);
    x := EarlierLedTo(f, targets, a, b);
    s := made[a];
  }

  // ---------------------------------------------------------------- a misplaced deallocation

  /** p0 = call g(); p1 = select c, a, b, and behind these, p1 is checked before p0. */
  function CallThenSelect(): Func {
    Func(0, {(0, 1), (1, 2)}, [Inst(Def(1), 0, Shape.Pointer), Inst(Select(Arg(0), Arg(1)), 1, Shape.Pointer)])
  }

  function SelectAskedFirst(): seq<Target> {
    [ConstSizeCheck(Instr(1), 2, 1), ConstSizeCheck(Instr(0), 2, 1)]
  }

  lemma {:induction false} CallThenSelectOk()
    ensures WellFormed(CallThenSelect()) && TargetsOk(CallThenSelect(), SelectAskedFirst())
  {
    var f := CallThenSelect();
    assert PathTo(f, [0], 0) && PathTo(f, [0, 1], 1) && PathTo(f, [0, 1, 2], 2);
    assert InstOk(f, 0) && InstOk(f, 1);
    forall p | PathTo(f, p, 2)
      ensures 0 in p && 1 in p
    {
      assert p[0] == 0 && Hop(f, p, |p| - 2);
    }
  }

  /** The check of the select leads to the select's operands only. */
  lemma {:induction false} SelectLeadsElsewhere(t: Target, n: nat)
    requires t == SelectAskedFirst()[0] || (t.HasInstrumentee() && t.v.Arg? && TargetOk(CallThenSelect(), t))
    requires TargetOk(CallThenSelect(), t)
    ensures !LeadsIn(CallThenSelect(), t, SourceOf(CallThenSelect(), 0), n)
    decreases n
  {
    var f := CallThenSelect();
    if n > 0 {
      forall k | 0 <= k < |Expected(f, t)|
        ensures !StepLeads(f, t, k, SourceOf(f, 0), n)
      {
        if TargetOk(f, Expected(f, t)[k]) {
          SelectLeadsElsewhere(Expected(f, t)[k], n - 1);
        }
      }
    }
  }

  lemma {:induction false} SelectComesFirst()
    ensures WellFormed(CallThenSelect()) && TargetsOk(CallThenSelect(), SelectAskedFirst())
    ensures SelectFirst(CallThenSelect(), SelectAskedFirst(), 0)
  {
    var f, ts := CallThenSelect(), SelectAskedFirst();
    CallThenSelectOk();
    assert LeadsIn(f, ts[0], ts[0], 0);
    assert !Leads(f, ts[0], SourceOf(f, 0)) by {
      forall n: nat
        ensures !LeadsIn(f, ts[0], SourceOf(f, 0), n)
      {
        SelectLeadsElsewhere(ts[0], n);
      }
    }
    assert Leads(f, ts[1], SourceOf(f, 0)) by {
      ExpectedOk(f, ts[1], 0);
      assert LeadsIn(f, SourceOf(f, 0), SourceOf(f, 0), 0);
      LeadsVia(f, ts[1], 0, SourceOf(f, 0));
    }
    LateByTargetOrder(f, ts, 0, 0, 1, ts[0]);
  }

  /** In all code that is created for this function and these targets, the result is loaded when its frame
      is gone. */
  lemma {:induction false} ResultLoadedTooLate(code: seq<WitInstr>, b: Block, done: set<Point>)
    returns (first: nat, before: seq<Line>, after: seq<Line>)
    requires WellFormed(CallThenSelect()) && TargetsOk(CallThenSelect(), SelectAskedFirst())
    requires InOrderOf(CallThenSelect(), SelectAskedFirst(), code)
    requires CallOfBlock(CallThenSelect(), code, b, 0, 0) && 0 in done
    requires b.sites[0] == Call(CallSite(Type.Pointer, [], []))
    ensures Plain(before) && before != []
    ensures Layout(b, done) ==
            LinesBefore(b, done, 0)
            + [ShadowStack(Alloc(1), 0), Original(0), ShadowStack(Dealloc, 0)]
            + (before + [ShadowStack(Load(0, first), 0)] + after + LinesBehind(b, done, 0))
  {
    SelectComesFirst();
    first, before, after := LateCallCode(CallThenSelect(), SelectAskedFirst(), code, b, done, 0, 0);
    FrameLines(CallSite(Type.Pointer, [], []));
    OneLoad(CallThenSelect(), 0, first);
  }

  lemma {:induction false} FrameLines(s: CallSite)
    requires s == CallSite(Type.Pointer, [], [])
    ensures OpeningLines(Call(s), 0) + [Original(0)] + ClosingLines(Call(s), 0) ==
            [ShadowStack(Alloc(1), 0), Original(0), ShadowStack(Dealloc, 0)]
  {
    assert Size(Type.Pointer, []) == 1 && ResultSlots(Type.Pointer) == 1;
    assert Opening(s.ret, s.args, s.passed) == [Alloc(1)] && Closing<WitVar>(s.ret, s.args) == [Dealloc];
    assert OpeningLines(Call(s), 0) == [ShadowStack(Alloc(1), 0)];
    assert ClosingLines(Call(s), 0) == [ShadowStack(Dealloc, 0)];
  }

  lemma {:induction false} OneLoad(f: Func, i: nat, first: nat)
    requires i < |f.insts| && f.insts[i].shape == Shape.Pointer
    ensures SourceLoads(f, i, first) == [ShadowStack(Load(0, first), f.insts[i].at)]
  {
  }
}

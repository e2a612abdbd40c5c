/** The code SoftBound places around the calls, returns and pointer stores of a block. */
module CallLayout {
  import opened Options
  import opened Ssa
  import opened WitnessCode
  import opened ShadowStackSlots
  import opened ShadowStackProtocol

  /** A call's signature and operands, and the witnesses of the pointers it passes. */
  datatype CallSite = CallSite(ret: Type, args: seq<Type>, passed: seq<(nat, WitVar)>)

  /** What is done for an invariant: around a call; before a return the bounds of the returned
      pointers are stored, in the order of their slots; behind a store those of its pointer. */
  datatype Site = Call(call: CallSite) | Return(stores: seq<WitVar>) | PointerStore(w: WitVar)

  /** A line of a block: an original instruction, an annotated access to the shadow stack, a store of
      bounds to the metadata table, or another instruction inserted for a witness. */
  datatype Line =
    | Original(q: Point)
    | ShadowStack(op: ShadowOp<WitVar>, site: Point)
    | MetadataStore(w: WitVar, site: Point)
    | ArgumentLoad(arg: nat, w: WitVar)
    | WitnessInst(w: WitVar)

  predicate IsLoad(x: Line) {
    x.ArgumentLoad? || (x.ShadowStack? && x.op.Load?)
  }

  /** The lines that are inserted for witnesses. */
  predicate IsForWitness(x: Line) {
    IsLoad(x) || x.WitnessInst?
  }

  ghost predicate SiteOk(site: Site) {
    site.Call? ==> CallOk(site.call)
  }

  ghost predicate CallOk(s: CallSite) {
    && (forall k :: 0 <= k < |s.passed| ==> s.passed[k].0 < |s.args| && s.args[s.passed[k].0].Pointer?)
    && (forall k, l :: 0 <= k < l < |s.passed| ==> s.passed[k].0 != s.passed[l].0)
  }

  // ---------------------------------------------------------------- the intended layout

  function Annotated(ops: seq<ShadowOp<WitVar>>, site: Point): (r: seq<Line>)
    ensures |r| == |ops| && forall k :: 0 <= k < |r| ==> r[k] == ShadowStack(ops[k], site)
  {
    seq(|ops|, k requires 0 <= k < |ops| => ShadowStack(ops[k], site))
  }

  /** The length of the run of loads that starts a list of lines. */
  function LoadRun(lines: seq<Line>): (n: nat)
    ensures n <= |lines| && (forall k :: 0 <= k < n ==> IsLoad(lines[k]))
    ensures n < |lines| ==> !IsLoad(lines[n])
  {
    if lines == [] || !IsLoad(lines[0]) then 0 else 1 + LoadRun(lines[1..])
  }

  /** The instructions of a block, what was inserted before each for witnesses, and its invariants. */
  datatype Block = Block(pts: seq<Point>, inserted: seq<seq<Line>>, sites: map<Point, Site>)

  ghost predicate BlockOk(b: Block) {
    && |b.inserted| == |b.pts| > 0
    && (forall k, l :: 0 <= k < l < |b.pts| ==> b.pts[k] != b.pts[l])
    && (b.pts[|b.pts| - 1] in b.sites ==> b.sites[b.pts[|b.pts| - 1]].Return?)
    && (forall q :: q in b.sites ==> SiteOk(b.sites[q]))
    && forall k, l :: 0 <= k < |b.pts| && 0 <= l < |b.inserted[k]| ==> IsForWitness(b.inserted[k][l])
  }

  /** What is inserted right before the instruction. */
  function OpeningLines(site: Site, q: Point): seq<Line>
    requires SiteOk(site)
  {
    match site
    case Call(s) => Annotated(Opening(s.ret, s.args, s.passed), q)
    case Return(stores) => Annotated(ResultStores(stores), q)
    case PointerStore(_) => []
  }

  /** What is inserted right behind it. */
  function FollowingLines(site: Site, q: Point): seq<Line> {
    if site.PointerStore? then [MetadataStore(site.w, q)] else []
  }

  /** What is inserted behind it and the loads that follow it. */
  function ClosingLines(site: Site, q: Point): seq<Line> {
    if site.Call? then Annotated(Closing(site.call.ret, site.call.args), q) else []
  }

  /** Lines inserted for witnesses, with lines added behind the loads among them. */
  function AfterLoads(lines: seq<Line>, more: seq<Line>): seq<Line> {
    lines[..LoadRun(lines)] + more + lines[LoadRun(lines)..]
  }

  /** What was inserted before instruction k for witnesses, with the end of the previous call. */
  function Head(b: Block, done: set<Point>, k: nat): seq<Line>
    requires BlockOk(b) && k < |b.pts|
  {
    AfterLoads(b.inserted[k],
               if k > 0 && b.pts[k - 1] in done && b.pts[k - 1] in b.sites
               then ClosingLines(b.sites[b.pts[k - 1]], b.pts[k - 1]) else [])
  }

  /** Instruction k with what is inserted right before and right behind it. */
  function Rest(b: Block, done: set<Point>, k: nat): seq<Line>
    requires BlockOk(b) && k < |b.pts|
  {
    var q := b.pts[k];
    if q in done && q in b.sites
    then OpeningLines(b.sites[q], q) + [Original(q)] + FollowingLines(b.sites[q], q)
    else [Original(q)]
  }

  /** Instruction k with all that precedes it, back to the previous instruction, once the invariants in
      `done` have been handled. */
  function Segment(b: Block, done: set<Point>, k: nat): seq<Line>
    requires BlockOk(b) && k < |b.pts|
  {
    Head(b, done, k) + Rest(b, done, k)
  }

  function Segments(b: Block, done: set<Point>): (r: seq<seq<Line>>)
    requires BlockOk(b)
    ensures |r| == |b.pts| && forall k :: 0 <= k < |r| ==> r[k] == Segment(b, done, k)
  {
    seq(|b.pts|, k requires 0 <= k < |b.pts| => Segment(b, done, k))
  }

  function Layout(b: Block, done: set<Point>): seq<Line>
    requires BlockOk(b)
  {
    Concat(Segments(b, done), 0, |b.pts|)
  }

  function Concat<T>(parts: seq<seq<T>>, lo: nat, hi: nat): seq<T>
    requires lo <= hi <= |parts|
    decreases hi
  {
    if lo == hi then [] else Concat(parts, lo, hi - 1) + parts[hi - 1]
  }

  lemma {:induction false} ConcatSplit<T>(parts: seq<seq<T>>, lo: nat, mid: nat, hi: nat)
    requires lo <= mid <= hi <= |parts|
    ensures Concat(parts, lo, hi) == Concat(parts, lo, mid) + Concat(parts, mid, hi)
    decreases hi
  {
    if mid < hi {
      ConcatSplit(parts, lo, mid, hi - 1);
    }
  }

  lemma {:induction false} ConcatSame<T>(parts: seq<seq<T>>, others: seq<seq<T>>, lo: nat, hi: nat)
    requires lo <= hi <= |parts| && |others| == |parts|
    requires forall k :: lo <= k < hi ==> parts[k] == others[k]
    ensures Concat(parts, lo, hi) == Concat(others, lo, hi)
    decreases hi
  {
    if lo < hi {
      ConcatSame(parts, others, lo, hi - 1);
    }
  }

  lemma {:induction false} ConcatLacks<T>(parts: seq<seq<T>>, lo: nat, hi: nat, x: T)
    requires lo <= hi <= |parts| && forall k :: lo <= k < hi ==> x !in parts[k]
    ensures x !in Concat(parts, lo, hi)
    decreases hi
  {
    if lo < hi {
      ConcatLacks(parts, lo, hi - 1, x);
    }
  }

  /** A concatenation around two neighbouring parts. */
  lemma {:induction false} ConcatAround<T>(parts: seq<seq<T>>, k: nat)
    requires k + 1 < |parts|
    ensures Concat(parts, 0, |parts|) ==
            Concat(parts, 0, k) + parts[k] + parts[k + 1] + Concat(parts, k + 2, |parts|)
  {
    ConcatSplit(parts, 0, k + 2, |parts|);
    assert Concat(parts, 0, k + 2) == Concat(parts, 0, k + 1) + parts[k + 1];
    assert Concat(parts, 0, k + 1) == Concat(parts, 0, k) + parts[k];
  }

  // ---------------------------------------------------------------- emitting the code

  lemma {:induction false} LoadRunStops(lines: seq<Line>, rest: seq<Line>)
    requires rest == [] || !IsLoad(rest[0])
    ensures LoadRun(lines + rest) == LoadRun(lines)
    decreases |lines|
  {
    if lines == [] {
      assert lines + rest == rest;
    } else {
      assert (lines + rest)[1..] == lines[1..] + rest;
      LoadRunStops(lines[1..], rest);
    }
  }

  lemma {:induction false} AfterLoadsLocal(lines: seq<Line>, rest: seq<Line>, more: seq<Line>)
    requires rest == [] || !IsLoad(rest[0])
    ensures AfterLoads(lines + rest, more) == AfterLoads(lines, more) + rest
  {
    LoadRunStops(lines, rest);
  }

  class Emitter {
    var lines: seq<Line>

    constructor (lines: seq<Line>)
      ensures this.lines == lines
    {
      this.lines := lines;
    }

    method Find(x: Line, ghost pre: seq<Line>, ghost post: seq<Line>) returns (i: nat)
      requires lines == pre + [x] + post && x !in pre
      ensures i == |pre|
    {
      i := 0;
      assert lines[|pre|] == x;
      while lines[i] != x
        invariant 0 <= i <= |pre| && (i < |pre| ==> lines[i] == pre[i])
        decreases |pre| - i
      {
        i := i + 1;
      }
    }

    method InsertBefore(x: Line, more: Line, ghost pre: seq<Line>, ghost post: seq<Line>)
      requires lines == pre + [x] + post && x !in pre
      modifies this
      ensures lines == pre + [more] + [x] + post
    {
      var i := Find(x, pre, post);
      lines := lines[..i] + [more] + lines[i..];
    }

    method InsertBehind(x: Line, more: Line, ghost pre: seq<Line>, ghost post: seq<Line>)
      requires lines == pre + [x] + post && x !in pre
      modifies this
      ensures lines == pre + [x] + ([more] + post)
    {
      var i := Find(x, pre, post);
      lines := lines[..i + 1] + [more] + lines[i + 1..];
    }

    method InsertAfterLoads(x: Line, more: Line, ghost pre: seq<Line>, ghost post: seq<Line>)
      requires lines == pre + [x] + post && x !in pre
      modifies this
      ensures lines == pre + [x] + AfterLoads(post, [more])
    {
      var i := Find(x, pre, post);
      var loc := GetLastMDLocation(i);
      assert lines[i + 1..] == post;
      lines := lines[..loc + 1] + [more] + lines[loc + 1..];
    }

    /** The last of the loads that directly follow the line. */
    method GetLastMDLocation(start: nat) returns (loc: nat)
      requires start < |lines|
      ensures loc == start + LoadRun(lines[start + 1..])
    {
      loc := start;
      while loc + 1 < |lines| && IsLoad(lines[loc + 1])
        invariant start <= loc < |lines|
        invariant start + LoadRun(lines[start + 1..]) == loc + LoadRun(lines[loc + 1..])
      {
        assert lines[loc + 1..][1..] == lines[loc + 2..];
        loc := loc + 1;
      }
    }

    /** Makes a frame right before the call, and gives it up behind the loads that follow. */
    method HandleShadowStackAllocation(q: Point, s: CallSite, ghost pre: seq<Line>, ghost post: seq<Line>)
      requires lines == pre + [Original(q)] + post && Original(q) !in pre
      modifies this
      ensures lines == pre + Annotated(if Size(s.ret, s.args) == 0 then [] else [Alloc(Size(s.ret, s.args))], q)
                       + [Original(q)] + AfterLoads(post, ClosingLines(Call(s), q))
    {
      var size := ComputeSize(s.ret, s.args);
      if size == 0 {
        return;
      }
      InsertBefore(Original(q), ShadowStack(Alloc(size), q), pre, post);
      InsertAfterLoads(Original(q), ShadowStack(Dealloc, q), pre + [ShadowStack(Alloc(size), q)], post);
    }

    method HandleCallInvariant(q: Point, s: CallSite, ghost pre: seq<Line>, ghost post: seq<Line>)
      requires CallOk(s) && lines == pre + [Original(q)] + post && Original(q) !in pre
      modifies this
      ensures lines == pre + OpeningLines(Call(s), q) + [Original(q)] + AfterLoads(post, ClosingLines(Call(s), q))
    {
      HandleShadowStackAllocation(q, s, pre, post);
      ghost var alloc := if Size(s.ret, s.args) == 0 then [] else [Alloc(Size(s.ret, s.args))];
      ghost var tail := AfterLoads(post, ClosingLines(Call(s), q));
      var k := 0;
      while k < |s.passed|
        invariant 0 <= k <= |s.passed|
        invariant lines == pre + Annotated(alloc + ArgStores(s.ret, s.args, s.passed)[..k], q) + [Original(q)] + tail
      {
        StoreArgument(q, s, k, pre, alloc, tail);
        k := k + 1;
      }
      assert ArgStores(s.ret, s.args, s.passed)[..k] == ArgStores(s.ret, s.args, s.passed);
    }

    /** Stores the bounds of one argument right before the call. */
    method StoreArgument(q: Point, s: CallSite, k: nat, ghost pre: seq<Line>, ghost alloc: seq<ShadowOp<WitVar>>,
                         ghost tail: seq<Line>)
      requires CallOk(s) && k < |s.passed| && Original(q) !in pre
      requires lines == pre + Annotated(alloc + ArgStores(s.ret, s.args, s.passed)[..k], q) + [Original(q)] + tail
      modifies this
      ensures lines == pre + Annotated(alloc + ArgStores(s.ret, s.args, s.passed)[..k + 1], q) + [Original(q)] + tail
    {
      var slot := CallerSlot(s.ret, s.args, s.passed[k].0);
      ghost var stores := ArgStores(s.ret, s.args, s.passed);
      InsertBefore(Original(q), ShadowStack(Store(slot, s.passed[k].1), q), pre + Annotated(alloc + stores[..k], q),
                   tail);
      assert alloc + stores[..k + 1] == (alloc + stores[..k]) + [stores[k]];
      assert Annotated(alloc + stores[..k + 1], q) == Annotated(alloc + stores[..k], q) + [ShadowStack(stores[k], q)];
    }

    /** Stores the bounds of all returned pointers right before the return. */
    method HandleReturnInvariant(q: Point, ty: Type, witnesses: map<nat, WitVar>, ghost stores: seq<WitVar>,
                                 ghost pre: seq<Line>, ghost post: seq<Line>)
      requires InSlots(ty, witnesses, stores) && lines == pre + [Original(q)] + post && Original(q) !in pre
      modifies this
      ensures lines == pre + OpeningLines(Return(stores), q) + [Original(q)] + post
    {
      var ops, indices := ShadowStackProtocol.HandleReturn(ty, witnesses);
      InSlotsUnique(ty, witnesses, stores, indices);
      var k := 0;
      while k < |ops|
        invariant 0 <= k <= |ops| && lines == pre + Annotated(ops[..k], q) + [Original(q)] + post
      {
        InsertBefore(Original(q), ShadowStack(ops[k], q), pre + Annotated(ops[..k], q), post);
        assert ops[..k + 1] == ops[..k] + [ops[k]];
        assert Annotated(ops[..k + 1], q) == Annotated(ops[..k], q) + [ShadowStack(ops[k], q)];
        k := k + 1;
      }
      assert ops[..k] == ops && ops == ResultStores(stores);
    }
  }

  /** The witnesses of the pointers of a returned value, in the order of their slots. */
  ghost predicate InSlots(ty: Type, witnesses: map<nat, WitVar>, stores: seq<WitVar>) {
    && ReturnsPointers(ty) && (forall i: nat :: PointerAt(ty, i) ==> i in witnesses)
    && exists indices :: ListsWitnesses(ty, witnesses, stores, indices)
  }

  ghost predicate ListsWitnesses(ty: Type, witnesses: map<nat, WitVar>, stores: seq<WitVar>, indices: seq<nat>) {
    && IsIndices(ty, indices) && |stores| == |indices|
    && forall s :: 0 <= s < |stores| ==> indices[s] in witnesses && stores[s] == witnesses[indices[s]]
  }

  lemma {:induction false} InSlotsUnique(ty: Type, witnesses: map<nat, WitVar>, stores: seq<WitVar>,
                                         indices: seq<nat>)
    requires InSlots(ty, witnesses, stores) && IsIndices(ty, indices)
    ensures ListsWitnesses(ty, witnesses, stores, indices)
  {
    var others :| ListsWitnesses(ty, witnesses, stores, others);
    IndicesUnique(ty, indices, others, |indices|);
    assert indices[..|indices|] == indices && others[..|indices|] == others;
  }

  // ---------------------------------------------------------------- all invariants of a block

  lemma {:induction false} RestStartsWithoutLoad(b: Block, done: set<Point>, k: nat)
    requires BlockOk(b) && k < |b.pts|
    ensures |Rest(b, done, k)| > 0 && !IsLoad(Rest(b, done, k)[0])
  {
    if b.pts[k] in done && b.pts[k] in b.sites {
      var site := b.sites[b.pts[k]];
      if site.Call? {
        var ops := Opening(site.call.ret, site.call.args, site.call.passed);
        assert ops != [] ==> !ops[0].Load?;
      }
    }
  }

  lemma {:induction false} HeadHasNoOriginal(b: Block, done: set<Point>, k: nat, q: Point)
    requires BlockOk(b) && k < |b.pts|
    ensures Original(q) !in Head(b, done, k)
  {
  }

  /** The lines before instruction k and what is inserted right before it. */
  function LinesBefore(b: Block, done: set<Point>, k: nat): seq<Line>
    requires BlockOk(b) && k < |b.pts|
  {
    Concat(Segments(b, done), 0, k) + Head(b, done, k)
  }

  lemma {:induction false} NotBefore(b: Block, done: set<Point>, k: nat)
    requires BlockOk(b) && k < |b.pts|
    ensures Original(b.pts[k]) !in LinesBefore(b, done, k)
  {
    forall i | 0 <= i < k
      ensures Original(b.pts[k]) !in Segments(b, done)[i]
    {
      HeadHasNoOriginal(b, done, i, b.pts[k]);
    }
    ConcatLacks(Segments(b, done), 0, k, Original(b.pts[k]));
    HeadHasNoOriginal(b, done, k, b.pts[k]);
  }

  /** The lines from the instruction behind a call on, without what was inserted before it. */
  function LinesBehind(b: Block, done: set<Point>, k: nat): seq<Line>
    requires BlockOk(b) && k + 1 < |b.pts|
  {
    Rest(b, done, k + 1) + Concat(Segments(b, done), k + 2, |b.pts|)
  }

  lemma {:induction false} LayoutAround(b: Block, done: set<Point>, k: nat)
    requires BlockOk(b) && k + 1 < |b.pts|
    ensures Layout(b, done) ==
            LinesBefore(b, done, k) + Rest(b, done, k) + Head(b, done, k + 1) + LinesBehind(b, done, k)
  {
    var segs := Segments(b, done);
    ConcatAround(segs, k);
    Regroup(Concat(segs, 0, k), Head(b, done, k), Rest(b, done, k), Head(b, done, k + 1), Rest(b, done, k + 1),
            Concat(segs, k + 2, |segs|));
  }

  lemma {:induction false} Regroup<T>(a: seq<T>, b: seq<T>, c: seq<T>, d: seq<T>, e: seq<T>, f: seq<T>)
    ensures a + (b + c) + (d + e) + f == (a + b) + c + d + (e + f)
  {
  }

  lemma {:induction false} PartsElsewhere(b: Block, done: set<Point>, k: nat, i: nat)
    requires BlockOk(b) && k < |b.pts| && i < |b.pts|
    ensures i != k + 1 ==> Head(b, done + {b.pts[k]}, i) == Head(b, done, i)
    ensures i != k ==> Rest(b, done + {b.pts[k]}, i) == Rest(b, done, i)
  {
  }

  lemma {:induction false} SegmentsElsewhere(b: Block, done: set<Point>, k: nat, lo: nat, hi: nat)
    requires BlockOk(b) && k < |b.pts| && lo <= hi <= |b.pts| && (hi <= k || k + 1 < lo)
    ensures Concat(Segments(b, done + {b.pts[k]}), lo, hi) == Concat(Segments(b, done), lo, hi)
  {
    forall i | lo <= i < hi
      ensures Segments(b, done + {b.pts[k]})[i] == Segments(b, done)[i]
    {
      PartsElsewhere(b, done, k, i);
    }
    ConcatSame(Segments(b, done + {b.pts[k]}), Segments(b, done), lo, hi);
  }

  /** Handling a call leaves everything else in the block as it is. */
  lemma {:induction false} HandlingIsLocal(b: Block, done: set<Point>, k: nat)
    requires BlockOk(b) && k + 1 < |b.pts|
    ensures LinesBefore(b, done + {b.pts[k]}, k) == LinesBefore(b, done, k)
    ensures LinesBehind(b, done + {b.pts[k]}, k) == LinesBehind(b, done, k)
  {
    assert LinesBefore(b, done + {b.pts[k]}, k) == LinesBefore(b, done, k) by {
      SegmentsElsewhere(b, done, k, 0, k);
      PartsElsewhere(b, done, k, k);
    }
    assert LinesBehind(b, done + {b.pts[k]}, k) == LinesBehind(b, done, k) by {
      SegmentsElsewhere(b, done, k, k + 2, |b.pts|);
      PartsElsewhere(b, done, k, k + 1);
    }
  }

  lemma {:induction false} RegroupAfterLoads(a: seq<Line>, o: seq<Line>, x: Line, y: seq<Line>, t: seq<Line>,
                                             c: seq<Line>, z: seq<Line>)
    requires z == [] || !IsLoad(z[0])
    ensures a + [x] + t + z == a + [x] + (t + z)
    ensures a + (o + [x] + y) + AfterLoads(t, c) + z == a + o + [x] + (y + AfterLoads(t + z, c))
  {
    AfterLoadsLocal(t, z, c);
  }

  lemma {:induction false} HandledParts(b: Block, done: set<Point>, k: nat)
    requires BlockOk(b) && k < |b.pts| && b.pts[k] in b.sites && b.pts[k] !in done
    ensures Rest(b, done, k) == [Original(b.pts[k])]
    ensures k + 1 < |b.pts| ==> Head(b, done, k + 1) == b.inserted[k + 1]
    ensures
      var q, s := b.pts[k], b.sites[b.pts[k]];
      && Rest(b, done + {q}, k) == OpeningLines(s, q) + [Original(q)] + FollowingLines(s, q)
      && (k + 1 < |b.pts| ==> Head(b, done + {q}, k + 1) == AfterLoads(b.inserted[k + 1], ClosingLines(s, q)))
  {
  }

  /** What follows instruction k. */
  function Behind(b: Block, done: set<Point>, k: nat): seq<Line>
    requires BlockOk(b) && k < |b.pts|
  {
    if k + 1 < |b.pts| then b.inserted[k + 1] + LinesBehind(b, done, k) else []
  }

  /** Handling an invariant completes the layout for it. */
  lemma {:induction false} LayoutStep(b: Block, done: set<Point>, k: nat)
    requires BlockOk(b) && k < |b.pts| && b.pts[k] in b.sites && b.pts[k] !in done
    ensures
      var q, s, post := b.pts[k], b.sites[b.pts[k]], Behind(b, done, k);
      && Layout(b, done) == LinesBefore(b, done, k) + [Original(q)] + post
      && Layout(b, done + {q}) ==
         LinesBefore(b, done, k) + OpeningLines(s, q) + [Original(q)]
         + (FollowingLines(s, q) + AfterLoads(post, ClosingLines(s, q)))
  {
    if k + 1 < |b.pts| {
      InnerStep(b, done, k);
    } else {
      LastStep(b, done, k);
    }
  }

  lemma {:induction false} LastStep(b: Block, done: set<Point>, k: nat)
    requires BlockOk(b) && k == |b.pts| - 1 && b.pts[k] in b.sites && b.pts[k] !in done
    ensures
      var q, s := b.pts[k], b.sites[b.pts[k]];
      && Layout(b, done) == LinesBefore(b, done, k) + [Original(q)]
      && Layout(b, done + {q}) == LinesBefore(b, done, k) + OpeningLines(s, q) + [Original(q)]
      && FollowingLines(s, q) == [] && ClosingLines(s, q) == []
  {
    var q := b.pts[k];
    var before, opening := LinesBefore(b, done, k), OpeningLines(b.sites[q], q);
    assert Layout(b, done) == before + [Original(q)] by {
      HandledParts(b, done, k);
      LayoutEnd(b, done);
    }
    assert Layout(b, done + {q}) == before + (opening + [Original(q)] + []) by {
      assert LinesBefore(b, done + {q}, k) == before by {
        SegmentsElsewhere(b, done, k, 0, k);
        PartsElsewhere(b, done, k, k);
      }
      HandledParts(b, done, k);
      LayoutEnd(b, done + {q});
    }
    RegroupLast(before, opening, [Original(q)]);
  }

  lemma {:induction false} RegroupLast<T>(a: seq<T>, b: seq<T>, c: seq<T>)
    ensures a + (b + c + []) == a + b + c
  {
  }

  lemma {:induction false} LayoutEnd(b: Block, done: set<Point>)
    requires BlockOk(b)
    ensures Layout(b, done) == LinesBefore(b, done, |b.pts| - 1) + Rest(b, done, |b.pts| - 1)
  {
    var segs, k := Segments(b, done), |b.pts| - 1;
    assert Concat(segs, 0, k + 1) == Concat(segs, 0, k) + segs[k];
    RegroupEnd(Concat(segs, 0, k), Head(b, done, k), Rest(b, done, k));
  }

  lemma {:induction false} RegroupEnd<T>(a: seq<T>, b: seq<T>, c: seq<T>)
    ensures a + (b + c) == a + b + c
  {
  }

  lemma {:induction false} InnerStep(b: Block, done: set<Point>, k: nat)
    requires BlockOk(b) && k + 1 < |b.pts| && b.pts[k] in b.sites && b.pts[k] !in done
    ensures
      var q, s, post := b.pts[k], b.sites[b.pts[k]], b.inserted[k + 1] + LinesBehind(b, done, k);
      && Layout(b, done) == LinesBefore(b, done, k) + [Original(q)] + post
      && Layout(b, done + {q}) ==
         LinesBefore(b, done, k) + OpeningLines(s, q) + [Original(q)]
         + (FollowingLines(s, q) + AfterLoads(post, ClosingLines(s, q)))
  {
    var q, s := b.pts[k], b.sites[b.pts[k]];
    var before, behind := LinesBefore(b, done, k), LinesBehind(b, done, k);
    assert !IsLoad(behind[0]) by {
      RestStartsWithoutLoad(b, done, k + 1);
    }
    assert Layout(b, done) == before + [Original(q)] + b.inserted[k + 1] + behind by {
      LayoutAround(b, done, k);
      HandledParts(b, done, k);
    }
    assert Layout(b, done + {q}) == before + (OpeningLines(s, q) + [Original(q)] + FollowingLines(s, q))
                                    + AfterLoads(b.inserted[k + 1], ClosingLines(s, q)) + behind by {
      LayoutAround(b, done + {q}, k);
      HandledParts(b, done, k);
      HandlingIsLocal(b, done, k);
    }
    RegroupAfterLoads(before, OpeningLines(s, q), Original(q), FollowingLines(s, q), b.inserted[k + 1],
                      ClosingLines(s, q), behind);
  }

  /** An invariant as it is given to the mechanism. */
  datatype Invariant = OfCall(s: CallSite) | OfReturn(ty: Type, witnesses: map<nat, WitVar>) | OfStore(w: WitVar)

  ghost predicate Asks(inv: Invariant, site: Site) {
    match inv
    case OfCall(s) => site == Call(s)
    case OfReturn(ty, witnesses) => site.Return? && InSlots(ty, witnesses, site.stores)
    case OfStore(w) => site == PointerStore(w)
  }

  ghost predicate Asked(b: Block, invariants: seq<(Point, Invariant)>) {
    && (forall i :: 0 <= i < |invariants| ==>
          invariants[i].0 in b.pts && invariants[i].0 in b.sites && Asks(invariants[i].1, b.sites[invariants[i].0]))
    && forall i, j :: 0 <= i < j < |invariants| ==> invariants[i].0 != invariants[j].0
  }

  lemma {:induction false} NothingAdded(site: Site, q: Point, post: seq<Line>)
    ensures !site.Call? ==> AfterLoads(post, ClosingLines(site, q)) == post
    ensures
      var behind := AfterLoads(post, ClosingLines(site, q));
      !site.PointerStore? ==> FollowingLines(site, q) + behind == behind
  {
  }

  method HandleInvariant(emitter: Emitter, q: Point, inv: Invariant, ghost site: Site, ghost pre: seq<Line>,
                         ghost post: seq<Line>)
    requires SiteOk(site) && Asks(inv, site) && emitter.lines == pre + [Original(q)] + post && Original(q) !in pre
    modifies emitter
    ensures emitter.lines == pre + OpeningLines(site, q) + [Original(q)]
                             + (FollowingLines(site, q) + AfterLoads(post, ClosingLines(site, q)))
  {
    NothingAdded(site, q, post);
    match inv
    case OfCall(s) => emitter.HandleCallInvariant(q, s, pre, post);
    case OfReturn(ty, witnesses) => emitter.HandleReturnInvariant(q, ty, witnesses, site.stores, pre, post);
    case OfStore(w) => emitter.InsertBehind(Original(q), MetadataStore(w, q), pre, post);
  }

  /** The places of the first n invariants. */
  ghost function PlacesOf(invariants: seq<(Point, Invariant)>, n: nat): (done: set<Point>)
    requires n <= |invariants|
    ensures forall i :: 0 <= i < n ==> invariants[i].0 in done
    ensures forall q :: q in done ==> exists i :: 0 <= i < n && invariants[i].0 == q
  {
    if n == 0 then {} else PlacesOf(invariants, n - 1) + {invariants[n - 1].0}
  }

  lemma {:induction false} NextInvariant(b: Block, invariants: seq<(Point, Invariant)>, n: nat)
    returns (site: Site, pre: seq<Line>, post: seq<Line>)
    requires BlockOk(b) && Asked(b, invariants) && n < |invariants|
    ensures SiteOk(site) && Asks(invariants[n].1, site)
    ensures
      var q := invariants[n].0;
      && Layout(b, PlacesOf(invariants, n)) == pre + [Original(q)] + post && Original(q) !in pre
      && Layout(b, PlacesOf(invariants, n + 1)) ==
         pre + OpeningLines(site, q) + [Original(q)]
         + (FollowingLines(site, q) + AfterLoads(post, ClosingLines(site, q)))
  {
    var q, done := invariants[n].0, PlacesOf(invariants, n);
    var k :| 0 <= k < |b.pts| && b.pts[k] == q;
    LayoutStep(b, done, k);
    NotBefore(b, done, k);
    site, pre, post := b.sites[q], LinesBefore(b, done, k), Behind(b, done, k);
  }

  /** Handles invariants one by one, in any order. */
  method GenerateInvariants(emitter: Emitter, ghost b: Block, invariants: seq<(Point, Invariant)>)
    requires BlockOk(b) && emitter.lines == Layout(b, {}) && Asked(b, invariants)
    modifies emitter
    ensures emitter.lines == Layout(b, PlacesOf(invariants, |invariants|))
  {
    for n := 0 to |invariants|
      invariant emitter.lines == Layout(b, PlacesOf(invariants, n))
    {
      HandleNext(emitter, b, invariants, n);
    }
  }

  method HandleNext(emitter: Emitter, ghost b: Block, invariants: seq<(Point, Invariant)>, n: nat)
    requires BlockOk(b) && Asked(b, invariants) && n < |invariants|
    requires emitter.lines == Layout(b, PlacesOf(invariants, n))
    modifies emitter
    ensures emitter.lines == Layout(b, PlacesOf(invariants, n + 1))
  {
    ghost var site, pre, post := NextInvariant(b, invariants, n);
    HandleInvariant(emitter, invariants[n].0, invariants[n].1, site, pre, post);
  }

  // ---------------------------------------------------------------- what the layout means

  ghost predicate LoadsFirst(lines: seq<Line>) {
    forall i, j :: 0 <= i < j < |lines| && IsLoad(lines[j]) ==> IsLoad(lines[i])
  }

  lemma {:induction false} LoadRunTakesAll(lines: seq<Line>)
    ensures LoadsFirst(lines) <==> forall i :: LoadRun(lines) <= i < |lines| ==> !IsLoad(lines[i])
  {
    var n := LoadRun(lines);
    if n < |lines| && LoadsFirst(lines) {
      assert !IsLoad(lines[n]);
    }
  }

  /** A handled call stands between its frame's allocation with all argument stores and, right
      behind the loads that follow it, the deallocation. The loads all come before the
      deallocation if and only if no other inserted line precedes one of them. */
  lemma {:induction false} CallLaidOut(b: Block, done: set<Point>, k: nat)
    requires BlockOk(b) && k + 1 < |b.pts| && b.pts[k] in b.sites && b.sites[b.pts[k]].Call? && b.pts[k] in done
    ensures
      var q, s, t, run := b.pts[k], b.sites[b.pts[k]], b.inserted[k + 1], LoadRun(b.inserted[k + 1]);
      && Layout(b, done) == LinesBefore(b, done, k)
                            + (OpeningLines(s, q) + [Original(q)] + t[..run] + ClosingLines(s, q))
                            + (t[run..] + LinesBehind(b, done, k))
      && (LoadsFirst(t) <==> forall i :: run <= i < |t| ==> !IsLoad(t[i]))
  {
    var q, s, t, run := b.pts[k], b.sites[b.pts[k]], b.inserted[k + 1], LoadRun(b.inserted[k + 1]);
    LoadRunTakesAll(t);
    assert OpeningLines(s, q) + [Original(q)] + [] == OpeningLines(s, q) + [Original(q)];
    assert Layout(b, done) == LinesBefore(b, done, k) + (OpeningLines(s, q) + [Original(q)])
                              + (t[..run] + ClosingLines(s, q) + t[run..]) + LinesBehind(b, done, k) by {
      LayoutAround(b, done, k);
    }
    RegroupCall(LinesBefore(b, done, k), OpeningLines(s, q) + [Original(q)], t[..run], ClosingLines(s, q), t[run..],
                LinesBehind(b, done, k));
  }

  lemma {:induction false} RegroupCall<T>(a: seq<T>, b: seq<T>, c: seq<T>, d: seq<T>, e: seq<T>, f: seq<T>)
    ensures a + b + (c + d + e) + f == a + (b + c + d) + (e + f)
  {
  }

  /** A handled store of a pointer is followed directly by the one store of the pointer's bounds that is
      made for it. */
  lemma {:induction false} StoreLaidOut(b: Block, done: set<Point>, k: nat, w: WitVar) returns (rest: seq<Line>)
    requires BlockOk(b) && k < |b.pts| && b.pts[k] in b.sites && b.sites[b.pts[k]] == PointerStore(w)
    requires b.pts[k] in done
    ensures Layout(b, done) == LinesBefore(b, done, k) + [Original(b.pts[k]), MetadataStore(w, b.pts[k])] + rest
    ensures forall x: Line :: x in LinesBefore(b, done, k) + rest ==> !(x.MetadataStore? && x.site == b.pts[k])
  {
    var q := b.pts[k];
    rest := Head(b, done, k + 1) + LinesBehind(b, done, k);
    LayoutAround(b, done, k);
    assert Rest(b, done, k) == [Original(q), MetadataStore(w, q)];
    RegroupEnd(LinesBefore(b, done, k) + Rest(b, done, k), Head(b, done, k + 1), LinesBehind(b, done, k));
    forall x: Line | x.MetadataStore? && x.site == q
      ensures x !in LinesBefore(b, done, k) + rest
    {
      NoStoreElsewhere(b, done, k, x);
    }
  }

  lemma {:induction false} NoStoreElsewhere(b: Block, done: set<Point>, k: nat, x: Line)
    requires BlockOk(b) && k + 1 < |b.pts| && x.MetadataStore? && x.site == b.pts[k]
    ensures x !in LinesBefore(b, done, k) && x !in Head(b, done, k + 1) && x !in LinesBehind(b, done, k)
  {
    forall i | 0 <= i < |b.pts|
      ensures x !in Head(b, done, i) && (i != k ==> x !in Segments(b, done)[i] && x !in Rest(b, done, i))
    {
      StoreInRest(b, done, i, x);
    }
    ConcatLacks(Segments(b, done), 0, k, x);
    ConcatLacks(Segments(b, done), k + 2, |b.pts|, x);
  }

  lemma {:induction false} StoreInRest(b: Block, done: set<Point>, i: nat, x: Line)
    requires BlockOk(b) && i < |b.pts| && x.MetadataStore?
    ensures x !in Head(b, done, i) && (x in Rest(b, done, i) ==> x.site == b.pts[i])
  {
  }

  /** The stores of a handled return are the last lines before it: all that is done for the calls of
      the block, their deallocations included, comes before. */
  lemma {:induction false} ReturnLaidOut(b: Block, done: set<Point>, stores: seq<WitVar>)
    requires BlockOk(b) && b.pts[|b.pts| - 1] in done
    requires b.pts[|b.pts| - 1] in b.sites && b.sites[b.pts[|b.pts| - 1]] == Return(stores)
    ensures
      var k := |b.pts| - 1;
      Layout(b, done) == LinesBefore(b, done, k) + Annotated(ResultStores(stores), b.pts[k]) + [Original(b.pts[k])]
  {
    LayoutEnd(b, done);
  }
}

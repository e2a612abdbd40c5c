/** The witness instructions a mechanism inserts, and what they compute in every run. */
module WitnessCode {
  import opened Ssa
  import opened Targets

  type WitVar = nat

  /** In order of insertion. A source witness goes before `loc`, a witness phi to the phi it
      shadows, and a witness select before the select it shadows. */
  datatype WitInstr =
    | SourceWit(v: Value, j: Component, loc: Point)
    | PhiWit(i: nat, j: Component, incoming: seq<(WitVar, Point)>)
    | SelectWit(i: nat, j: Component, onTrue: WitVar, onFalse: WitVar)

  /** The value whose pointer j is meant to be described by the witness. */
  function Subject(w: WitInstr): Value {
    if w.SourceWit? then w.v else Instr(w.i)
  }

  function Place(f: Func, w: WitInstr): Point {
    if w.SourceWit? then w.loc else if w.i < |f.insts| then f.insts[w.i].at else f.entry
  }

  // ---------------------------------------------------------------- static correctness

  /** Witness w can be used at q (where q's own insertions come first), and its subject has
      the same origin as pointer j of v there. */
  ghost predicate Describes(f: Func, code: seq<WitInstr>, w: WitVar, q: Point, v: Value, j: Component) {
    && w < |code|
    && Dom(f, Place(f, code[w]), q)
    && SameOrigin(f, q, v, j, Subject(code[w]), code[w].j)
  }

  ghost predicate InstrOk(f: Func, code: seq<WitInstr>, w: WitVar, open: bool)
    requires w < |code|
  {
    match code[w]
    case SourceWit(v, j, loc) => SourceOk(f, v, loc)
    case SelectWit(i, j, a, b) =>
      && i < |f.insts| && f.insts[i].op.Select?
      && a < w && Describes(f, code, a, f.insts[i].at, f.insts[i].op.onTrue, j)
      && b < w && Describes(f, code, b, f.insts[i].at, f.insts[i].op.onFalse, j)
    case PhiWit(i, j, inc) =>
      && i < |f.insts| && f.insts[i].op.Phi?
      && var ops := f.insts[i].op.incoming;
         && |inc| <= |ops| && (!open ==> |inc| == |ops|)
         && forall k :: 0 <= k < |inc| ==>
              inc[k].1 == ops[k].from && Describes(f, code, inc[k].0, ops[k].from, ops[k].value, j)
  }

  ghost predicate CodeOk(f: Func, code: seq<WitInstr>, open: set<WitVar>) {
    forall w :: 0 <= w < |code| ==> InstrOk(f, code, w, w in open)
  }

  /** No witness phi lacks an incoming witness any more. */
  ghost predicate CodeDone(f: Func, code: seq<WitInstr>) {
    forall w :: 0 <= w < |code| ==> InstrOk(f, code, w, false)
  }

  lemma {:induction false} NothingOpen(f: Func, code: seq<WitInstr>, open: set<WitVar>)
    requires CodeOk(f, code, open) && open == {}
    ensures CodeDone(f, code)
  {
    forall w | 0 <= w < |code|
      ensures InstrOk(f, code, w, false)
    {
      assert InstrOk(f, code, w, w in open);
    }
  }

  /** Later code: instructions keep their subjects and places. */
  ghost predicate SameHeads(f: Func, code: seq<WitInstr>, now: seq<WitInstr>) {
    && |code| <= |now|
    && forall w :: 0 <= w < |code| ==>
         Subject(now[w]) == Subject(code[w]) && now[w].j == code[w].j && Place(f, now[w]) == Place(f, code[w])
  }

  lemma {:induction false} InstrOkExtends(f: Func, code: seq<WitInstr>, now: seq<WitInstr>, w: WitVar, open: bool)
    requires w < |code| && InstrOk(f, code, w, open) && SameHeads(f, code, now) && now[w] == code[w]
    ensures InstrOk(f, now, w, open)
  {
  }

  lemma {:induction false} AppendOk(f: Func, code: seq<WitInstr>, x: WitInstr, open: set<WitVar>)
    requires CodeOk(f, code, open)
    requires InstrOk(f, code + [x], |code|, |code| in open)
    ensures CodeOk(f, code + [x], open)
  {
    forall w | 0 <= w < |code + [x]|
      ensures InstrOk(f, code + [x], w, w in open)
    {
      if w < |code| {
        InstrOkExtends(f, code, code + [x], w, w in open);
      }
    }
  }

  lemma {:induction false} SubjectDefined(f: Func, code: seq<WitInstr>, w: WitVar, open: bool, q: Point)
    requires WellFormed(f) && w < |code| && InstrOk(f, code, w, open) && Dom(f, Place(f, code[w]), q)
    ensures Defined(f, Subject(code[w]), q)
  {
    if code[w].SourceWit? && code[w].v.Instr? {
      NextOk(f, code[w].v.i);
      DomTrans(f, f.insts[code[w].v.i].at, code[w].loc, q);
    }
  }

  /** A witness of v at q is one of v wherever q dominates. */
  lemma {:induction false} DescribesLater(f: Func, code: seq<WitInstr>, w: WitVar, open: bool, q: Point, l: Point,
                                          v: Value, j: Component)
    requires WellFormed(f) && Describes(f, code, w, q, v, j) && InstrOk(f, code, w, open)
    requires Defined(f, v, q) && Dom(f, q, l)
    ensures Describes(f, code, w, l, v, j)
  {
    SubjectDefined(f, code, w, open, q);
    SameOriginPersists(f, q, l, v, j, Subject(code[w]), code[w].j);
    DomTrans(f, Place(f, code[w]), q, l);
  }

  // ---------------------------------------------------------------- runs of instrumented code

  /** wit[t] gives the values of the witnesses before point path[t]. A witness inserted before a
      point executes right before it, in order of insertion; witness phis execute together with
      the phis they shadow. A mechanism makes a source witness describe the source's latest value. */
  ghost predicate WitStep(f: Func, code: seq<WitInstr>, r: Run, wit: seq<WitVar -> Origin>, t: nat, w: WitVar)
    requires IsRun(f, r) && |wit| == |r.path| + 1 && t < |r.path| && w < |code|
  {
    if Place(f, code[w]) != r.path[t] then wit[t + 1](w) == wit[t](w)
    else match code[w]
      case SourceWit(v, j, _) => wit[t + 1](w) == r.ptr[t](v, j)
      case SelectWit(i, _, a, b) =>
        var x := if r.cond[t](i) then a else b;
        wit[t + 1](w) == if x < w then wit[t + 1](x) else wit[t](x)
      case PhiWit(_, _, inc) =>
        t > 0 ==> forall k :: 0 <= k < |inc| && inc[k].1 == r.path[t - 1] ==> wit[t + 1](w) == wit[t](inc[k].0)
  }

  ghost predicate IsWitRun(f: Func, code: seq<WitInstr>, r: Run, wit: seq<WitVar -> Origin>) {
    && IsRun(f, r) && |wit| == |r.path| + 1
    && forall t, w :: 0 <= t < |r.path| && 0 <= w < |code| ==> WitStep(f, code, r, wit, t, w)
  }

  /** In every run, a witness that has executed holds the origin of its subject. */
  lemma {:induction false} WitnessInSync(f: Func, code: seq<WitInstr>, r: Run, wit: seq<WitVar -> Origin>, t: nat,
                                         w: WitVar)
    requires WellFormed(f) && CodeDone(f, code) && IsWitRun(f, code, r, wit)
    requires t < |r.path| && w < |code| && Dom(f, Place(f, code[w]), r.path[t])
    ensures wit[t + 1](w) == r.ptr[t + 1](Subject(code[w]), code[w].j)
    decreases t, w
  {
    var q := r.path[t];
    assert WitStep(f, code, r, wit, t, w) && Step(f, r, t);
    assert InstrOk(f, code, w, false);
    if Place(f, code[w]) != q {
      DomOnRun(f, r, t, Place(f, code[w]));
      WitnessInSync(f, code, r, wit, t - 1, w);
      SubjectDefined(f, code, w, false, Place(f, code[w]));
      NotExecuted(f, r, t, Place(f, code[w]), Subject(code[w]));
    } else {
      match code[w]
      case SourceWit(v, j, _) =>
        if v.Instr? {
          NextOk(f, v.i);
        }
      case SelectWit(i, j, a, b) => SelectInSync(f, code, r, wit, t, w);
      case PhiWit(i, j, inc) => PhiInSync(f, code, r, wit, t, w);
    }
  }

  lemma {:induction false} SelectInSync(f: Func, code: seq<WitInstr>, r: Run, wit: seq<WitVar -> Origin>, t: nat,
                                        w: WitVar)
    requires WellFormed(f) && CodeDone(f, code) && IsWitRun(f, code, r, wit)
    requires t < |r.path| && w < |code| && Place(f, code[w]) == r.path[t] && code[w].SelectWit?
    ensures wit[t + 1](w) == r.ptr[t + 1](Subject(code[w]), code[w].j)
    decreases t, w, 0
  {
    var i, j := code[w].i, code[w].j;
    assert WitStep(f, code, r, wit, t, w) && Step(f, r, t);
    assert InstrOk(f, code, w, false) && InstOk(f, i);
    assert Effect(f, r, t, i, j);
    var x, v := if r.cond[t](i) then code[w].onTrue else code[w].onFalse,
                if r.cond[t](i) then f.insts[i].op.onTrue else f.insts[i].op.onFalse;
    assert Describes(f, code, x, r.path[t], v, j);
    assert !Executes(f, v, r.path[t]);
    WitnessInSync(f, code, r, wit, t, x);
  }

  lemma {:induction false} PhiInSync(f: Func, code: seq<WitInstr>, r: Run, wit: seq<WitVar -> Origin>, t: nat,
                                     w: WitVar)
    requires WellFormed(f) && CodeDone(f, code) && IsWitRun(f, code, r, wit)
    requires t < |r.path| && w < |code| && Place(f, code[w]) == r.path[t] && code[w].PhiWit?
    ensures wit[t + 1](w) == r.ptr[t + 1](Subject(code[w]), code[w].j)
    decreases t, w, 0
  {
    var i, j, inc := code[w].i, code[w].j, code[w].incoming;
    assert WitStep(f, code, r, wit, t, w);
    assert InstrOk(f, code, w, false);
    var k := PhiTakes(f, i, r, t, j);
    assert Describes(f, code, inc[k].0, r.path[t - 1], f.insts[i].op.incoming[k].value, j);
    WitnessInSync(f, code, r, wit, t - 1, inc[k].0);
  }

  /** The main link: a witness that describes v at q evaluates, in every run that reaches q, to
      the origin of v there. */
  lemma {:induction false} DescribedInEveryRun(f: Func, code: seq<WitInstr>, r: Run, wit: seq<WitVar -> Origin>,
                                               t: nat, w: WitVar, v: Value, j: Component)
    requires WellFormed(f) && CodeDone(f, code) && IsWitRun(f, code, r, wit)
    requires t < |r.path| && Describes(f, code, w, r.path[t], v, j)
    ensures wit[t + 1](w) == r.ptr[t + 1](v, j)
    ensures Available(f, v, r.path[t]) ==> wit[t + 1](w) == r.ptr[t](v, j)
  {
    WitnessInSync(f, code, r, wit, t, w);
    assert Step(f, r, t);
    assert Available(f, v, r.path[t]) ==> !Executes(f, v, r.path[t]);
  }
}

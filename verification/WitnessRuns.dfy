/** Every run of a function is one of its instrumented code: witnesses always have values. */
module WitnessRuns {
  import opened Ssa
  import opened WitnessCode

  /** The operand of a witness phi that belongs to a block, if there is one. */
  ghost function IncomingFrom(inc: seq<(WitVar, Point)>, from: Point): (x: WitVar)
    ensures (exists k :: 0 <= k < |inc| && inc[k].1 == from) ==>
              exists k :: 0 <= k < |inc| && inc[k].1 == from && inc[k].0 == x
  {
    if inc == [] then 0
    else if inc[|inc| - 1].1 == from then inc[|inc| - 1].0
    else IncomingFrom(inc[..|inc| - 1], from)
  }

  /** The value of witness w after path[t], given the values before. */
  ghost function Next(f: Func, code: seq<WitInstr>, r: Run, t: nat, before: WitVar -> Origin, w: WitVar): Origin
    requires t < |r.path| && |r.ptr| == |r.path| + 1 && |r.cond| == |r.path|
  {
    if w >= |code| || Place(f, code[w]) != r.path[t] then before(w)
    else
      match code[w]
      case SourceWit(v, j, _) => r.ptr[t](v, j)
      case SelectWit(i, _, a, b) =>
        var x := if r.cond[t](i) then a else b;
        if x < w then Next(f, code, r, t, before, x) else before(x)
      case PhiWit(_, _, inc) => if t == 0 then before(w) else before(IncomingFrom(inc, r.path[t - 1]))
  }

  ghost predicate Prefix(r: Run, s: Run, n: nat) {
    && n <= |r.path| == |r.cond| && |r.ptr| == |r.path| + 1
    && s == Run(r.path[..n], r.ptr[..n + 1], r.cond[..n])
  }

  lemma {:induction false} PrefixIsRun(f: Func, r: Run, s: Run, n: nat)
    requires IsRun(f, r) && 0 < n && Prefix(r, s, n)
    ensures IsRun(f, s)
  {
    PathPrefix(f, r.path, n - 1);
    forall t | 0 <= t < |s.path|
      ensures Step(f, s, t)
    {
      assert Step(f, r, t);
      forall i, j | 0 <= i < |f.insts| && f.insts[i].at == s.path[t]
        ensures Effect(f, s, t, i, j)
      {
        assert Effect(f, r, t, i, j);
      }
    }
  }

  lemma {:induction false} WitStepOnPrefix(f: Func, code: seq<WitInstr>, r: Run, s: Run, n: nat,
                                           wit: seq<WitVar -> Origin>, now: seq<WitVar -> Origin>, t: nat, w: WitVar)
    requires IsRun(f, r) && IsRun(f, s) && Prefix(r, s, n) && |wit| == n + 1 && |now| == |r.path| + 1
    requires now[..n + 1] == wit && t < n && w < |code| && WitStep(f, code, s, wit, t, w)
    ensures WitStep(f, code, r, now, t, w)
  {
    assert now[t] == wit[t] && now[t + 1] == wit[t + 1];
    assert s.path[t] == r.path[t] && s.ptr[t] == r.ptr[t] && s.cond[t] == r.cond[t];
    if t > 0 {
      assert s.path[t - 1] == r.path[t - 1];
    }
  }

  /** Operands of a witness phi from one and the same block have one value. */
  lemma {:induction false} OperandsAgree(f: Func, code: seq<WitInstr>, s: Run, wit: seq<WitVar -> Origin>, w: WitVar,
                                         k: nat, l: nat)
    requires WellFormed(f) && CodeDone(f, code) && IsWitRun(f, code, s, wit)
    requires w < |code| && code[w].PhiWit? && k < |code[w].incoming| && l < |code[w].incoming|
    requires code[w].incoming[k].1 == code[w].incoming[l].1 == s.path[|s.path| - 1]
    ensures wit[|s.path|](code[w].incoming[k].0) == wit[|s.path|](code[w].incoming[l].0)
  {
    var n := |s.path| - 1;
    assert InstrOk(f, code, w, false);
    var i, j := code[w].i, code[w].j;
    var ops := f.insts[i].op.incoming;
    assert InstOk(f, i);
    assert ops[k].value == ops[l].value;
    DescribedInEveryRun(f, code, s, wit, n, code[w].incoming[k].0, ops[k].value, j);
    DescribedInEveryRun(f, code, s, wit, n, code[w].incoming[l].0, ops[l].value, j);
  }

  /** Whatever path a run takes, the inserted code can be executed along with it. */
  lemma {:induction false} WitRunExists(f: Func, code: seq<WitInstr>, r: Run) returns (wit: seq<WitVar -> Origin>)
    requires WellFormed(f) && CodeDone(f, code) && IsRun(f, r)
    ensures IsWitRun(f, code, r, wit)
    decreases |r.path|
  {
    var n := |r.path| - 1;
    var s := Run(r.path[..n], r.ptr[..n + 1], r.cond[..n]);
    var before: seq<WitVar -> Origin> := [_ => 0];
    if n > 0 {
      PrefixIsRun(f, r, s, n);
      before := WitRunExists(f, code, s);
    }
    wit := before + [w => Next(f, code, r, n, before[n], w)];
    forall t, w | 0 <= t < |r.path| && 0 <= w < |code|
      ensures WitStep(f, code, r, wit, t, w)
    {
      if t < n {
        assert wit[..n + 1] == before;
        WitStepOnPrefix(f, code, r, s, n, before, wit, t, w);
      } else {
        LastWitStep(f, code, r, s, before, wit, w);
      }
    }
  }

  lemma {:induction false} LastWitStep(f: Func, code: seq<WitInstr>, r: Run, s: Run, before: seq<WitVar -> Origin>,
                                       wit: seq<WitVar -> Origin>, w: WitVar)
    requires WellFormed(f) && CodeDone(f, code) && IsRun(f, r) && w < |code|
    requires Prefix(r, s, |r.path| - 1) && (|r.path| > 1 ==> IsWitRun(f, code, s, before))
    requires |before| == |r.path| && |wit| == |r.path| + 1 && wit[..|r.path|] == before
    requires forall x: WitVar :: wit[|r.path|](x) == Next(f, code, r, |r.path| - 1, before[|r.path| - 1], x)
    ensures WitStep(f, code, r, wit, |r.path| - 1, w)
  {
    var n := |r.path| - 1;
    assert wit[n] == before[n];
    if code[w].PhiWit? && Place(f, code[w]) == r.path[n] && n > 0 {
      var inc := code[w].incoming;
      assert s.path[n - 1] == r.path[n - 1];
      forall k | 0 <= k < |inc| && inc[k].1 == r.path[n - 1]
        ensures wit[n + 1](w) == wit[n](inc[k].0)
      {
        var l :| 0 <= l < |inc| && inc[l].1 == r.path[n - 1] && inc[l].0 == IncomingFrom(inc, r.path[n - 1]);
        OperandsAgree(f, code, s, before, w, k, l);
      }
    }
  }
}

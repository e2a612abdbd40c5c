/** The targets of a call: which arguments must bring their witnesses along. */
module PointerBoundsPolicy {
  import opened Ssa
  import opened Targets
  import opened ShadowStackSlots

  /** What is called. Of the intrinsics, only those that copy or set memory matter. */
  datatype Callee =
    | Unknown(operand: Value)
    | Function
    | DebugInfo
    | MemTransfer(dest: Value, source: Value, length: Value)
    | MemSet(dest: Value, length: Value)
    | OtherIntrinsic
  {
    predicate IsIntrinsic() {
      DebugInfo? || MemTransfer? || MemSet? || OtherIntrinsic?
    }
  }

  datatype Operand = Operand(ty: Type, value: Value)

  function OperandTypes(args: seq<Operand>): (r: seq<Type>)
    ensures |r| == |args| && forall k :: 0 <= k < |args| ==> r[k] == args[k].ty
  {
    seq(|args|, k requires 0 <= k < |args| => args[k].ty)
  }

  /** The pointers among the first n operands, by number. */
  ghost predicate IsRequiredUpTo(args: seq<Operand>, required: seq<(nat, Value)>, n: nat)
    requires n <= |args|
  {
    && (forall i, j :: 0 <= i < j < |required| ==> required[i].0 < required[j].0)
    && (forall i :: 0 <= i < |required| ==> required[i].0 < n && required[i].1 == args[required[i].0].value)
    && forall k :: 0 <= k < n ==> (args[k].ty.Pointer? <==> IsNumber(required, k))
  }

  ghost predicate IsNumber(required: seq<(nat, Value)>, k: nat) {
    exists i :: 0 <= i < |required| && required[i].0 == k
  }

  /** The pointer operands, by number. */
  ghost predicate IsRequired(args: seq<Operand>, required: seq<(nat, Value)>) {
    IsRequiredUpTo(args, required, |args|)
  }

  method RequiredArguments(args: seq<Operand>) returns (required: seq<(nat, Value)>)
    ensures IsRequired(args, required)
  {
    required := [];
    var k := 0;
    while k < |args|
      invariant 0 <= k <= |args| && IsRequiredUpTo(args, required, k)
    {
      if args[k].ty.Pointer? {
        RequiredNumbers(required, (k, args[k].value));
        required := required + [(k, args[k].value)];
      }
      k := k + 1;
    }
  }

  lemma {:induction false} RequiredNumbers(required: seq<(nat, Value)>, x: (nat, Value))
    ensures forall l: nat :: IsNumber(required + [x], l) <==> IsNumber(required, l) || l == x.0
  {
    forall l: nat
      ensures IsNumber(required + [x], l) <==> IsNumber(required, l) || l == x.0
    {
      assert (required + [x])[|required|] == x;
      if i :| 0 <= i < |required| && required[i].0 == l {
        assert (required + [x])[i].0 == l;
      }
    }
  }

  /** The checks of the memory that an intrinsic reads and writes. */
  function IntrinsicChecks(loc: Point, callee: Callee): seq<Target> {
    match callee
    case MemTransfer(dst, src, len) => [VarSizeCheck(src, loc, len), VarSizeCheck(dst, loc, len)]
    case MemSet(dst, len) => [VarSizeCheck(dst, loc, len)]
    case _ => []
  }

  /** A call through a pointer is checked, as is what an intrinsic copies or sets, and every call but
      those of irrelevant intrinsics gets an invariant; only that of a real function needs its
      arguments' witnesses. */
  method AddCallTargets(dest: seq<Target>, loc: Point, callee: Callee, args: seq<Operand>) returns (now: seq<Target>)
    ensures dest <= now
    ensures callee.Unknown? ==>
              |now| == |dest| + 2 && now[|dest|] == CallCheck(callee.operand, loc) && now[|dest| + 1].CallInvariant?
    ensures callee.Function? ==> |now| == |dest| + 1 && now[|dest|].CallInvariant?
    ensures callee.Unknown? || callee.Function? ==>
              now[|now| - 1].loc == loc && IsRequired(args, now[|now| - 1].requiredArgs)
    ensures callee.MemTransfer? ==>
              now == dest + [VarSizeCheck(callee.source, loc, callee.length),
                             VarSizeCheck(callee.dest, loc, callee.length), CallInvariant(loc, [])]
    ensures callee.MemSet? ==>
              now == dest + [VarSizeCheck(callee.dest, loc, callee.length), CallInvariant(loc, [])]
    ensures callee.DebugInfo? || callee.OtherIntrinsic? ==> now == dest
  {
    now := dest;
    if callee.IsIntrinsic() {
      now := now + IntrinsicChecks(loc, callee);
    }
    if callee.Unknown? {
      now := now + [CallCheck(callee.operand, loc)];
    }
    if callee.DebugInfo? {
      return;
    }
    if callee.IsIntrinsic() {
      if callee.MemTransfer? || callee.MemSet? {
        now := now + [CallInvariant(loc, [])];
      }
      return;
    }
    var required := RequiredArguments(args);
    now := now + [CallInvariant(loc, required)];
  }

  ghost predicate OperandsOk(f: Func, loc: Point, args: seq<Operand>) {
    && Reachable(f, loc) && !PhiPoint(f, loc)
    && forall k :: 0 <= k < |args| && args[k].ty.Pointer? ==>
         UseOk(f, args[k].value, loc) && ShapeOf(f, args[k].value) == Shape.Pointer
  }

  /** Such an invariant is a proper target, and its witnesses fill the argument slots of the
      call: one for each, none twice, none missing. */
  lemma {:induction false} RequiredFillsSlots(f: Func, loc: Point, ret: Type, args: seq<Operand>,
                                              required: seq<(nat, Value)>, s: nat)
    returns (i: nat)
    requires OperandsOk(f, loc, args) && IsRequired(args, required)
    ensures TargetOk(f, CallInvariant(loc, required))
    ensures forall k :: 0 <= k < |required| ==> required[k].0 < |args|
    ensures ResultSlots(ret) <= s < Size(ret, OperandTypes(args)) ==>
              i < |required| && ArgumentSlot(ret, OperandTypes(args), required[i].0) == s
    ensures forall k :: ResultSlots(ret) <= s < Size(ret, OperandTypes(args)) && 0 <= k < |required| && k != i ==>
              ArgumentSlot(ret, OperandTypes(args), required[k].0) != s
  {
    i := 0;
    var tys := OperandTypes(args);
    forall k | 0 <= k < |required|
      ensures required[k].0 < |args| && args[required[k].0].ty.Pointer?
    {
    }
    if ResultSlots(ret) <= s < Size(ret, tys) {
      var a := SlotsFill(ret, tys, s);
      i :| 0 <= i < |required| && required[i].0 == a;
      forall k | 0 <= k < |required| && k != i
        ensures ArgumentSlot(ret, tys, required[k].0) != s
      {
        SlotsInjective(ret, tys, required[k].0, required[i].0);
      }
    }
  }
}

/** Slots of the shadow stack: callers and callees compute them separately. */
module ShadowStackSlots {
  import opened AscendingLists

  datatype Type = Pointer | Scalar | Metadata | Struct(elems: seq<Type>) | Array(len: nat, elem: Type)

  // ---------------------------------------------------------------- the layout

  /** How many pointers a list of types holds at its top level. */
  function CountPointers(tys: seq<Type>): (n: nat)
    ensures n <= |tys|
  {
    if tys == [] then 0
    else CountPointers(tys[..|tys| - 1]) + if tys[|tys| - 1].Pointer? then 1 else 0
  }

  /** Slots set aside for a returned value: one per pointer, but one per element of an array,
      whatever its elements are. */
  function ResultSlots(ret: Type): nat {
    match ret
    case Pointer => 1
    case Struct(elems) => CountPointers(elems)
    case Array(len, _) => len
    case Scalar => 0
    case Metadata => 0
  }

  /** The slot of argument k: results come first, then the pointers among the arguments. */
  function ArgumentSlot(ret: Type, args: seq<Type>, k: nat): nat
    requires k <= |args|
  {
    ResultSlots(ret) + CountPointers(args[..k])
  }

  function Size(ret: Type, args: seq<Type>): nat {
    ResultSlots(ret) + CountPointers(args)
  }

  ghost predicate IsPointerArg(args: seq<Type>, k: nat) {
    k < |args| && args[k].Pointer?
  }

  // ---------------------------------------------------------------- properties of the layout

  lemma {:induction false} CountMonotone(tys: seq<Type>, k: nat, l: nat)
    requires k <= l <= |tys|
    ensures CountPointers(tys[..k]) <= CountPointers(tys[..l]) <= CountPointers(tys)
    ensures k < l && tys[k].Pointer? ==> CountPointers(tys[..k]) < CountPointers(tys[..l])
    decreases |tys| - k
  {
    assert tys[..|tys|] == tys;
    if k < |tys| {
      assert tys[..k + 1][..k] == tys[..k];
      CountMonotone(tys, k + 1, if k < l then l else k + 1);
      if k == l {
        CountMonotone(tys, k + 1, |tys|);
      }
    }
  }

  /** Callee and caller agree on the slot of a declared argument, variadic or not. */
  lemma {:induction false} CallerMatchesCallee(ret: Type, params: seq<Type>, args: seq<Type>, k: nat)
    requires params <= args && k <= |params|
    ensures ArgumentSlot(ret, params, k) == ArgumentSlot(ret, args, k)
  {
    assert params[..k] == args[..k];
  }

  /** Different pointer arguments have different slots, all behind the results' and in range. */
  lemma {:induction false} SlotsInjective(ret: Type, args: seq<Type>, k: nat, l: nat)
    requires IsPointerArg(args, k) && IsPointerArg(args, l)
    ensures ResultSlots(ret) <= ArgumentSlot(ret, args, k) < Size(ret, args)
    ensures ArgumentSlot(ret, args, k) == ArgumentSlot(ret, args, l) <==> k == l
  {
    CountMonotone(args, k, |args|);
    assert args[..|args|] == args;
    if k < l {
      CountMonotone(args, k, l);
    } else if l < k {
      CountMonotone(args, l, k);
    }
  }

  /** Every slot belongs to a result or to a pointer argument: nothing is left over. */
  lemma {:induction false} SlotsFill(ret: Type, args: seq<Type>, s: nat) returns (k: nat)
    requires ResultSlots(ret) <= s < Size(ret, args)
    ensures IsPointerArg(args, k) && ArgumentSlot(ret, args, k) == s
    decreases |args|
  {
    var n := |args| - 1;
    if args[n].Pointer? && s == Size(ret, args) - 1 {
      k := n;
    } else {
      k := SlotsFill(ret, args[..n], s);
      assert args[..n][..k] == args[..k];
    }
  }

  /** Operand k of a call is its first variadic pointer. */
  ghost predicate FirstVariadic(params: seq<Type>, args: seq<Type>, k: nat) {
    && params <= args && |params| <= k && IsPointerArg(args, k)
    && forall l :: |params| <= l < k ==> !args[l].Pointer?
  }

  lemma {:induction false} FirstVariadicSlot(ret: Type, params: seq<Type>, args: seq<Type>, k: nat)
    requires FirstVariadic(params, args, k)
    ensures ArgumentSlot(ret, args, k) == Size(ret, params)
  {
    NoPointersBetween(args, |params|, k);
    assert args[..|params|] == params;
  }

  lemma {:induction false} NoPointersBetween(args: seq<Type>, k: nat, l: nat)
    requires k <= l <= |args| && forall i :: k <= i < l ==> !args[i].Pointer?
    ensures CountPointers(args[..k]) == CountPointers(args[..l])
    decreases l
  {
    if k < l {
      NoPointersBetween(args, k, l - 1);
      assert args[..l][..l - 1] == args[..l - 1];
    }
  }

  // ---------------------------------------------------------------- which calls get a frame

  ghost predicate HasPointer(tys: seq<Type>) {
    exists k :: IsPointerArg(tys, k)
  }

  /** A value of the type holds a pointer. */
  ghost predicate HoldsPointer(ty: Type) {
    match ty
    case Pointer => true
    case Struct(elems) => HasPointer(elems)
    case Array(len, elem) => len > 0 && elem.Pointer?
    case Scalar => false
    case Metadata => false
  }

  lemma {:induction false} CountIsPositive(tys: seq<Type>)
    ensures CountPointers(tys) > 0 <==> HasPointer(tys)
  {
    if tys != [] {
      var front, last := tys[..|tys| - 1], |tys| - 1;
      CountIsPositive(front);
      if k :| IsPointerArg(front, k) {
        assert IsPointerArg(tys, k);
      }
      if k :| IsPointerArg(tys, k) && k != last {
        assert IsPointerArg(front, k);
      }
      assert IsPointerArg(tys, last) <==> tys[last].Pointer?;
    }
  }

  /** A call that hands over metadata gets a frame, and no other call does, unless it returns an
      array of something else than pointers. */
  lemma {:induction false} FrameIffPointers(ret: Type, args: seq<Type>)
    ensures (Size(ret, args) > 0 <==> HoldsPointer(ret) || HasPointer(args)) <==>
            !(ret.Array? && ret.len > 0 && !ret.elem.Pointer? && !HasPointer(args))
  {
    CountIsPositive(args);
    if ret.Struct? {
      CountIsPositive(ret.elems);
    }
  }

  /** A call that passes no pointer and returns an array of numbers gets a frame. */
  lemma {:induction false} FrameForNumbers(n: nat, args: seq<Type>)
    requires !HasPointer(args)
    ensures Size(Array(n, Scalar), args) == n
    ensures !HoldsPointer(Array(n, Scalar))
  {
    CountIsPositive(args);
  }

  // ---------------------------------------------------------------- the computations

  method DetermineNumberOfPointers(ty: Type) returns (n: nat)
    ensures n == ResultSlots(ty)
  {
    n := 0;
    if ty.Pointer? {
      return 1;
    }
    if ty.Struct? {
      var i := 0;
      while i < |ty.elems|
        invariant 0 <= i <= |ty.elems| && n == CountPointers(ty.elems[..i])
      {
        assert ty.elems[..i + 1][..i] == ty.elems[..i];
        if ty.elems[i].Pointer? {
          n := n + 1;
        }
        i := i + 1;
      }
      assert ty.elems[..i] == ty.elems;
    }
    if ty.Array? {
      n := n + ty.len;
    }
  }

  /** A formal argument; its number makes it different from the others. */
  datatype Argument = Argument(number: nat, ty: Type)

  function Types(params: seq<Argument>): (r: seq<Type>)
    ensures |r| == |params| && forall k :: 0 <= k < |params| ==> r[k] == params[k].ty
  {
    if params == [] then [] else Types(params[..|params| - 1]) + [params[|params| - 1].ty]
  }

  /** The callee's side: walks over the function's arguments until it meets the given one. */
  method CalleeSlot(ret: Type, params: seq<Argument>, arg: Argument) returns (slot: nat)
    requires arg in params && arg.ty.Pointer?
    requires forall k :: 0 <= k < |params| ==> params[k].number == k
    ensures slot == ArgumentSlot(ret, Types(params), arg.number)
  {
    slot := DetermineNumberOfPointers(ret);
    var i := 0;
    while true
      invariant 0 <= i <= arg.number < |params| && params[arg.number] == arg
      invariant slot == ArgumentSlot(ret, Types(params), i)
      decreases |params| - i
    {
      assert Types(params)[..i + 1][..i] == Types(params)[..i];
      if !params[i].ty.Pointer? {
        i := i + 1;
        continue;
      }
      if arg == params[i] {
        return;
      }
      slot, i := slot + 1, i + 1;
    }
  }

  /** The caller's side: walks over the operands of the call until it reaches number argNum. */
  method CallerSlot(ret: Type, args: seq<Type>, argNum: nat) returns (slot: nat)
    requires IsPointerArg(args, argNum)
    ensures slot == ArgumentSlot(ret, args, argNum)
  {
    slot := DetermineNumberOfPointers(ret);
    var i := 0;
    while true
      invariant 0 <= i <= argNum && slot == ArgumentSlot(ret, args, i)
      decreases |args| - i
    {
      assert args[..i + 1][..i] == args[..i];
      if !args[i].Pointer? {
        i := i + 1;
        continue;
      }
      if argNum == i {
        return;
      }
      slot, i := slot + 1, i + 1;
    }
  }

  /** Where the callee finds the variadic arguments. */
  method FirstVarArgSlot(ret: Type, params: seq<Type>) returns (slot: nat)
    ensures forall args, k :: FirstVariadic(params, args, k) ==> slot == ArgumentSlot(ret, args, k)
  {
    slot := ComputeSize(ret, params);
    forall args, k | FirstVariadic(params, args, k)
      ensures slot == ArgumentSlot(ret, args, k)
    {
      FirstVariadicSlot(ret, params, args, k);
    }
  }

  /** The number of slots a call needs. */
  method ComputeSize(ret: Type, args: seq<Type>) returns (size: nat)
    ensures size == Size(ret, args)
  {
    size := DetermineNumberOfPointers(ret);
    var i := 0;
    while i < |args|
      invariant 0 <= i <= |args| && size == ResultSlots(ret) + CountPointers(args[..i])
    {
      assert args[..i + 1][..i] == args[..i];
      if args[i].Pointer? {
        size := size + 1;
      }
      i := i + 1;
    }
    assert args[..i] == args;
  }

  /** The pointers of a call's or return's value, in the order of their result slots. */
  ghost predicate PointerAt(ty: Type, index: nat) {
    match ty
    case Pointer => index == 0
    case Struct(elems) => index < |elems| && elems[index].Pointer?
    case Array(len, elem) => index < len
    case Scalar => false
    case Metadata => false
  }

  method ComputeIndices(ty: Type) returns (indices: seq<nat>)
    requires ty.Pointer? || ty.Struct? || (ty.Array? && ty.elem.Pointer?)
    ensures |indices| == ResultSlots(ty)
    ensures Ascending(indices)
    ensures forall i: nat :: i in indices <==> PointerAt(ty, i)
  {
    indices := [];
    if !ty.Struct? && !ty.Array? {
      return [0];
    }
    if ty.Struct? {
      var index := 0;
      while index < |ty.elems|
        invariant 0 <= index <= |ty.elems| && |indices| == CountPointers(ty.elems[..index])
        invariant Ascending(indices)
        invariant forall a :: 0 <= a < |indices| ==> indices[a] < index
        invariant forall i: nat :: i in indices <==> i < index && ty.elems[i].Pointer?
      {
        assert ty.elems[..index + 1][..index] == ty.elems[..index];
        if ty.elems[index].Pointer? {
          AscendingMore(indices, index);
          indices := indices + [index];
        }
        index := index + 1;
      }
      assert ty.elems[..index] == ty.elems;
    }
    if ty.Array? {
      var i := 0;
      while i < ty.len
        invariant 0 <= i <= ty.len && |indices| == i
        invariant Ascending(indices) && forall a :: 0 <= a < i ==> indices[a] == a
      {
        AscendingMore(indices, i);
        indices := indices + [i];
        i := i + 1;
      }
      forall j: nat | PointerAt(ty, j)
        ensures j in indices
      {
        assert indices[j] == j;
      }
    }
  }
}

/** What instrumented functions do to the shadow stack, over whole trees of calls. */
module ShadowStackProtocol {
  import opened Options
  import opened AscendingLists
  import opened ShadowStackSlots

  /** Operations on the topmost frame; a load names what it has to find. */
  datatype ShadowOp<W> = Alloc(size: nat) | Store(slot: nat, w: W) | Load(slot: nat, w: W) | Dealloc

  datatype Bounds = Bounds(base: nat, bound: nat)

  // ---------------------------------------------------------------- the shadow stack

  datatype Frame = Frame(size: nat, slots: map<nat, Bounds>)

  type Stack = seq<Frame>

  function Top(st: Stack): Frame
    requires |st| > 0
  {
    st[|st| - 1]
  }

  /** One operation. It fails outside the topmost frame, and if a load finds anything but the
      bounds it has to find. */
  function Apply(op: ShadowOp<Bounds>, st: Stack): Option<Stack> {
    match op
    case Alloc(size) => Some(st + [Frame(size, map[])])
    case Store(slot, w) =>
      if |st| == 0 || slot >= Top(st).size then None
      else
        var top := Top(st);
        Some(st[..|st| - 1] + [Frame(top.size, top.slots[slot := w])])
    case Load(slot, w) =>
      if |st| == 0 || slot !in Top(st).slots || Top(st).slots[slot] != w then None else Some(st)
    case Dealloc => if |st| == 0 then None else Some(st[..|st| - 1])
  }

  function Exec(ops: seq<ShadowOp<Bounds>>, st: Stack): Option<Stack> {
    if ops == [] then Some(st)
    else
      match Apply(ops[0], st)
      case None => None
      case Some(now) => Exec(ops[1..], now)
  }

  lemma {:induction false} ExecConcat(a: seq<ShadowOp<Bounds>>, b: seq<ShadowOp<Bounds>>, st: Stack)
    ensures Exec(a + b, st) == match Exec(a, st) case None => None case Some(now) => Exec(b, now)
    decreases |a|
  {
    if a == [] {
      assert a + b == b;
    } else {
      assert (a + b)[1..] == a[1..] + b;
      match Apply(a[0], st)
      case None =>
      case Some(now) => ExecConcat(a[1..], b, now);
    }
  }

  /** Two pieces that succeed one after the other. */
  lemma {:induction false} ExecThen(a: seq<ShadowOp<Bounds>>, b: seq<ShadowOp<Bounds>>, st: Stack, mid: Stack,
                                    end: Stack)
    requires Exec(a, st) == Some(mid) && Exec(b, mid) == Some(end)
    ensures Exec(a + b, st) == Some(end)
  {
    ExecConcat(a, b, st);
  }

  // ---------------------------------------------------------------- code around a call

  function ArgStores<W>(ret: Type, args: seq<Type>, passed: seq<(nat, W)>): (r: seq<ShadowOp<W>>)
    requires forall k :: 0 <= k < |passed| ==> passed[k].0 < |args|
    ensures |r| == |passed|
    ensures forall k :: 0 <= k < |passed| ==> r[k] == Store(ArgumentSlot(ret, args, passed[k].0), passed[k].1)
  {
    seq(|passed|, k requires 0 <= k < |passed| => Store(ArgumentSlot(ret, args, passed[k].0), passed[k].1))
  }

  /** Right before a call; without pointers to hand over there is no frame. */
  function Opening<W>(ret: Type, args: seq<Type>, passed: seq<(nat, W)>): seq<ShadowOp<W>>
    requires forall k :: 0 <= k < |passed| ==> passed[k].0 < |args|
  {
    (if Size(ret, args) == 0 then [] else [Alloc(Size(ret, args))]) + ArgStores(ret, args, passed)
  }

  function Closing<W>(ret: Type, args: seq<Type>): seq<ShadowOp<W>> {
    if Size(ret, args) == 0 then [] else [Dealloc]
  }

  /** The bounds of the s-th returned pointer go to slot s, and come from there. */
  function ResultStores<W>(results: seq<W>): (r: seq<ShadowOp<W>>)
    ensures |r| == |results| && forall s :: 0 <= s < |r| ==> r[s] == Store(s, results[s])
  {
    seq(|results|, s requires 0 <= s < |results| => Store(s, results[s]))
  }

  function ResultLoads<W>(results: seq<W>): (r: seq<ShadowOp<W>>)
    ensures |r| == |results| && forall s :: 0 <= s < |r| ==> r[s] == Load(s, results[s])
  {
    seq(|results|, s requires 0 <= s < |results| => Load(s, results[s]))
  }

  // ---------------------------------------------------------------- code for results

  /** The pointers of a result, in the order of their slots. */
  ghost predicate IsIndices(ty: Type, indices: seq<nat>) {
    && |indices| == ResultSlots(ty)
    && Ascending(indices)
    && forall i: nat :: i in indices <==> PointerAt(ty, i)
  }

  predicate ReturnsPointers(ty: Type) {
    ty.Pointer? || (ty.Struct? && CountPointers(ty.elems) > 0) || (ty.Array? && ty.elem.Pointer?)
  }

  /** Before it returns, the callee stores the witness of each pointer of the result. */
  method HandleReturn<W>(ty: Type, witnesses: map<nat, W>) returns (ops: seq<ShadowOp<W>>, indices: seq<nat>)
    requires ReturnsPointers(ty) && forall i: nat :: PointerAt(ty, i) ==> i in witnesses
    ensures IsIndices(ty, indices) && |ops| == |indices|
    ensures forall s :: 0 <= s < |ops| ==> indices[s] in witnesses && ops[s] == Store(s, witnesses[indices[s]])
  {
    indices := ComputeIndices(ty);
    ops := [];
    var shadowStackIndex := 0;
    while shadowStackIndex < |indices|
      invariant 0 <= shadowStackIndex <= |indices| && |ops| == shadowStackIndex
      invariant forall s :: 0 <= s < |ops| ==> indices[s] in witnesses && ops[s] == Store(s, witnesses[indices[s]])
    {
      assert indices[shadowStackIndex] in indices;
      ops := ops + [Store(shadowStackIndex, witnesses[indices[shadowStackIndex]])];
      shadowStackIndex := shadowStackIndex + 1;
    }
  }

  /** After a call, the caller loads the bounds of each pointer of the result; the given witnesses
      are the values that are found. */
  method InsertCallWitnesses<W>(ty: Type, found: seq<W>)
    returns (ops: seq<ShadowOp<W>>, witnesses: map<nat, W>, indices: seq<nat>)
    requires ReturnsPointers(ty) && |found| == ResultSlots(ty)
    ensures IsIndices(ty, indices) && ops == ResultLoads(found)
    ensures forall i: nat :: i in witnesses <==> PointerAt(ty, i)
    ensures forall s :: 0 <= s < |found| ==> indices[s] in witnesses && witnesses[indices[s]] == found[s]
  {
    indices := ComputeIndices(ty);
    ops, witnesses := [], map[];
    var shadowStackIndex := 0;
    while shadowStackIndex < |indices|
      invariant 0 <= shadowStackIndex <= |indices| && |ops| == shadowStackIndex
      invariant forall s :: 0 <= s < |ops| ==> ops[s] == Load(s, found[s])
      invariant forall i: nat :: i in witnesses <==> i in indices[..shadowStackIndex]
      invariant forall s :: 0 <= s < shadowStackIndex ==> indices[s] in witnesses && witnesses[indices[s]] == found[s]
    {
      forall s: nat | s < shadowStackIndex
        ensures indices[s] != indices[shadowStackIndex]
      {
        assert Ordered(indices, s, shadowStackIndex);
      }
      ops := ops + [Load(shadowStackIndex, found[shadowStackIndex])];
      witnesses := witnesses[indices[shadowStackIndex] := found[shadowStackIndex]];
      shadowStackIndex := shadowStackIndex + 1;
    }
    assert indices[..shadowStackIndex] == indices;
  }

  /** Ascending lists of the same numbers are equal. */
  lemma {:induction false} IndicesUnique(ty: Type, a: seq<nat>, b: seq<nat>, n: nat)
    requires IsIndices(ty, a) && IsIndices(ty, b) && n <= |a|
    ensures a[..n] == b[..n]
  {
    if n > 0 {
      IndicesUnique(ty, a, b, n - 1);
      NextIndex(ty, a, b, n - 1);
      NextIndex(ty, b, a, n - 1);
    }
  }

  lemma {:induction false} NextIndex(ty: Type, a: seq<nat>, b: seq<nat>, n: nat)
    requires IsIndices(ty, a) && IsIndices(ty, b) && n < |a| && a[..n] == b[..n]
    ensures a[n] >= b[n]
  {
    assert a[n] in a;
    var k :| 0 <= k < |b| && b[k] == a[n];
    if k < n {
      assert a[k] == a[..n][k] == b[..n][k];
      AscendingDistinct(a, k, n);
    } else if n < k {
      assert Ordered(b, n, k);
    }
  }

  /** What the caller finds for a pointer of the result is what the callee stored for it, if every
      slot is found as it was stored. */
  lemma {:induction false} ResultsMatch<W>(ty: Type, stored: map<nat, W>, a: seq<nat>, witnesses: map<nat, W>,
                                           b: seq<nat>, found: seq<W>, i: nat)
    requires IsIndices(ty, a) && IsIndices(ty, b) && |found| == |a|
    requires forall s :: 0 <= s < |a| ==> a[s] in stored && found[s] == stored[a[s]]
    requires forall s :: 0 <= s < |b| ==> b[s] in witnesses && witnesses[b[s]] == found[s]
    requires PointerAt(ty, i)
    ensures i in stored && i in witnesses && witnesses[i] == stored[i]
  {
    IndicesUnique(ty, a, b, |a|);
    assert a[..|a|] == a && b[..|a|] == b;
    assert i in a;
  }

  // ---------------------------------------------------------------- call trees

  /** A call from instrumented code of an instrumented function with the declared parameters
      args[..params]. The caller hands over `passed`, by argument number. The callee reads
      `read`, makes `calls`, and returns pointers with the bounds `results`; the caller may
      have no use for these. */
  datatype Activation = Activation(ret: Type, args: seq<Type>, params: nat, passed: seq<(nat, Bounds)>,
                                   read: seq<(nat, Bounds)>, calls: seq<Activation>,
                                   results: seq<Bounds>, resultUsed: bool)

  ghost predicate ActivationOk(a: Activation) {
    && a.params <= |a.args|
    && (forall k :: 0 <= k < |a.passed| ==> IsPointerArg(a.args, a.passed[k].0))
    && (forall k, l :: 0 <= k < l < |a.passed| ==> a.passed[k].0 != a.passed[l].0)
    && (forall x :: x in a.read ==> x in a.passed && x.0 < a.params)
    && (|a.results| == 0 || |a.results| == ResultSlots(a.ret))
    && forall c :: c in a.calls ==> ActivationOk(c)
  }

  /** Each argument load is meant to find what the caller passed. */
  function ArgLoads(ret: Type, params: seq<Type>, read: seq<(nat, Bounds)>): (r: seq<ShadowOp<Bounds>>)
    requires forall k :: 0 <= k < |read| ==> read[k].0 < |params|
    ensures |r| == |read|
    ensures forall k :: 0 <= k < |read| ==> r[k] == Load(ArgumentSlot(ret, params, read[k].0), read[k].1)
  {
    seq(|read|, k requires 0 <= k < |read| => Load(ArgumentSlot(ret, params, read[k].0), read[k].1))
  }

  function Body(a: Activation): seq<ShadowOp<Bounds>>
    requires ActivationOk(a)
    decreases a, 0
  {
    ArgLoads(a.ret, a.args[..a.params], a.read) + Traces(a.calls) + ResultStores(a.results)
  }

  function Trace(a: Activation): seq<ShadowOp<Bounds>>
    requires ActivationOk(a)
    decreases a, 1
  {
    Opening(a.ret, a.args, a.passed) + Body(a) + After(a)
  }

  /** The caller fetches the results it uses, then gives up the frame. */
  function After(a: Activation): seq<ShadowOp<Bounds>> {
    (if a.resultUsed then ResultLoads(a.results) else []) + Closing(a.ret, a.args)
  }

  function Traces(calls: seq<Activation>): seq<ShadowOp<Bounds>>
    requires forall c :: c in calls ==> ActivationOk(c)
    decreases calls
  {
    if calls == [] then [] else Trace(calls[0]) + Traces(calls[1..])
  }

  // ---------------------------------------------------------------- every load finds its bounds

  /** The topmost frame has room for the call and holds the first n passed bounds. */
  ghost predicate Holds(a: Activation, st: Stack, n: nat)
    requires ActivationOk(a) && n <= |a.passed|
  {
    && |st| > 0 && Top(st).size == Size(a.ret, a.args)
    && forall k :: 0 <= k < n ==> SlotHolds(Top(st).slots, ArgumentSlot(a.ret, a.args, a.passed[k].0), a.passed[k].1)
  }

  ghost predicate SlotHolds(slots: map<nat, Bounds>, slot: nat, b: Bounds) {
    slot in slots && slots[slot] == b
  }

  lemma {:induction false} StoreArguments(a: Activation, st: Stack, n: nat) returns (now: Stack)
    requires ActivationOk(a) && n <= |a.passed| && |st| > 0 && Top(st) == Frame(Size(a.ret, a.args), map[])
    ensures Exec(ArgStores(a.ret, a.args, a.passed)[..n], st) == Some(now)
    ensures Holds(a, now, n) && now[..|now| - 1] == st[..|st| - 1]
    decreases n
  {
    if n == 0 {
      now := st;
    } else {
      var stores := ArgStores(a.ret, a.args, a.passed);
      var mid := StoreArguments(a, st, n - 1);
      var (k, b) := a.passed[n - 1];
      SlotsInjective(a.ret, a.args, k, k);
      forall l | 0 <= l < n - 1
        ensures ArgumentSlot(a.ret, a.args, a.passed[l].0) != ArgumentSlot(a.ret, a.args, k)
      {
        SlotsInjective(a.ret, a.args, a.passed[l].0, k);
      }
      now := Apply(stores[n - 1], mid).value;
      assert Exec([stores[n - 1]], mid) == Some(now);
      ExecThen(stores[..n - 1], [stores[n - 1]], st, mid, now);
      assert stores[..n] == stores[..n - 1] + [stores[n - 1]];
    }
  }

  lemma {:induction false} LoadArgument(a: Activation, st: Stack, x: (nat, Bounds))
    requires ActivationOk(a) && Holds(a, st, |a.passed|) && x in a.read
    ensures x.0 < a.params && Apply(Load(ArgumentSlot(a.ret, a.args[..a.params], x.0), x.1), st) == Some(st)
  {
    var k :| 0 <= k < |a.passed| && a.passed[k] == x;
    CallerMatchesCallee(a.ret, a.args[..a.params], a.args, x.0);
  }

  lemma {:induction false} LoadArguments(a: Activation, st: Stack, n: nat)
    requires ActivationOk(a) && Holds(a, st, |a.passed|) && n <= |a.read|
    ensures Exec(ArgLoads(a.ret, a.args[..a.params], a.read)[..n], st) == Some(st)
    decreases n
  {
    if n > 0 {
      var loads := ArgLoads(a.ret, a.args[..a.params], a.read);
      LoadArguments(a, st, n - 1);
      assert a.read[n - 1] in a.read;
      LoadArgument(a, st, a.read[n - 1]);
      assert Exec([loads[n - 1]], st) == Some(st);
      ExecThen(loads[..n - 1], [loads[n - 1]], st, st, st);
      assert loads[..n] == loads[..n - 1] + [loads[n - 1]];
    }
  }

  ghost predicate HoldsResults(results: seq<Bounds>, st: Stack, n: nat)
    requires n <= |results|
  {
    |st| > 0 && SlotsHold(results, Top(st).slots, n)
  }

  ghost predicate SlotsHold(results: seq<Bounds>, slots: map<nat, Bounds>, n: nat)
    requires n <= |results|
  {
    forall s :: 0 <= s < n ==> s in slots && slots[s] == results[s]
  }

  /** One more result stored. */
  lemma {:induction false} StoreResult(results: seq<Bounds>, mid: Stack, n: nat)
    requires 0 < n <= |results| && HoldsResults(results, mid, n - 1) && n <= Top(mid).size
    ensures Apply(Store(n - 1, results[n - 1]), mid).Some?
    ensures
      var now := Apply(Store(n - 1, results[n - 1]), mid).value;
      && HoldsResults(results, now, n) && now[..|now| - 1] == mid[..|mid| - 1]
      && Top(now).size == Top(mid).size
  {
    var top := Top(mid);
    var now := Apply(Store(n - 1, results[n - 1]), mid).value;
    assert Top(now) == Frame(top.size, top.slots[n - 1 := results[n - 1]]);
  }

  lemma {:induction false} StoreResults(results: seq<Bounds>, st: Stack, n: nat) returns (now: Stack)
    requires n <= |results| && |st| > 0 && |results| <= Top(st).size
    ensures Exec(ResultStores(results)[..n], st) == Some(now)
    ensures HoldsResults(results, now, n) && now[..|now| - 1] == st[..|st| - 1]
    ensures Top(now).size == Top(st).size
    decreases n
  {
    if n == 0 {
      now := st;
    } else {
      var stores := ResultStores(results);
      var mid := StoreResults(results, st, n - 1);
      StoreResult(results, mid, n);
      now := Apply(stores[n - 1], mid).value;
      assert Exec([stores[n - 1]], mid) == Some(now);
      ExecThen(stores[..n - 1], [stores[n - 1]], st, mid, now);
      assert stores[..n] == stores[..n - 1] + [stores[n - 1]];
    }
  }

  lemma {:induction false} LoadResults(results: seq<Bounds>, st: Stack, n: nat)
    requires n <= |results| && HoldsResults(results, st, |results|)
    ensures Exec(ResultLoads(results)[..n], st) == Some(st)
    decreases n
  {
    if n > 0 {
      var loads := ResultLoads(results);
      LoadResults(results, st, n - 1);
      assert Exec([loads[n - 1]], st) == Some(st);
      ExecThen(loads[..n - 1], [loads[n - 1]], st, st, st);
      assert loads[..n] == loads[..n - 1] + [loads[n - 1]];
    }
  }

  lemma {:induction false} OpenFrame(a: Activation, st: Stack) returns (ready: Stack)
    requires ActivationOk(a) && Size(a.ret, a.args) > 0
    ensures Exec(Opening(a.ret, a.args, a.passed), st) == Some(ready)
    ensures Holds(a, ready, |a.passed|) && ready[..|ready| - 1] == st
  {
    var frame := Frame(Size(a.ret, a.args), map[]);
    var stores := ArgStores(a.ret, a.args, a.passed);
    ready := StoreArguments(a, st + [frame], |a.passed|);
    assert stores[..|a.passed|] == stores;
    assert Exec([Alloc(frame.size)], st) == Some(st + [frame]);
    ExecThen([Alloc(frame.size)], stores, st, st + [frame], ready);
    assert (st + [frame])[..|st|] == st;
  }

  lemma {:induction false} CloseFrame(a: Activation, closed: Stack, st: Stack)
    requires Size(a.ret, a.args) > 0 && HoldsResults(a.results, closed, |a.results|) && closed[..|closed| - 1] == st
    ensures Exec(After(a), closed) == Some(st)
  {
    var loads := if a.resultUsed then ResultLoads(a.results) else [];
    LoadResults(a.results, closed, |a.results|);
    assert ResultLoads(a.results)[..|a.results|] == ResultLoads(a.results);
    assert Exec([Dealloc], closed) == Some(st);
    ExecThen(loads, [Dealloc], closed, closed, st);
  }

  /** In a tree of calls every load finds what the other side stored, and the stack ends up as
      it was. */
  lemma {:induction false} CallRestoresStack(a: Activation, st: Stack)
    requires ActivationOk(a)
    ensures Exec(Trace(a), st) == Some(st)
    decreases a, 1
  {
    if Size(a.ret, a.args) == 0 {
      NothingHandedOver(a);
      CallsRestoreStack(a.calls, st);
      assert Trace(a) == Traces(a.calls);
    } else {
      var closed := AfterBody(a, st);
      CloseFrame(a, closed, st);
      ExecThen(Opening(a.ret, a.args, a.passed) + Body(a), After(a), st, closed, st);
    }
  }

  /** When the callee returns, the call's frame is on top again and holds the results. */
  lemma {:induction false} AfterBody(a: Activation, st: Stack) returns (closed: Stack)
    requires ActivationOk(a) && Size(a.ret, a.args) > 0
    ensures Exec(Opening(a.ret, a.args, a.passed) + Body(a), st) == Some(closed)
    ensures HoldsResults(a.results, closed, |a.results|) && closed[..|closed| - 1] == st
    decreases a, 1, 0
  {
    var ready := OpenFrame(a, st);
    closed := BodyKeepsLowerFrames(a, ready);
    ExecThen(Opening(a.ret, a.args, a.passed), Body(a), st, ready, closed);
  }

  lemma {:induction false} BodyKeepsLowerFrames(a: Activation, st: Stack) returns (now: Stack)
    requires ActivationOk(a) && Holds(a, st, |a.passed|)
    ensures Exec(Body(a), st) == Some(now)
    ensures HoldsResults(a.results, now, |a.results|) && now[..|now| - 1] == st[..|st| - 1]
    decreases a, 0
  {
    var loads, stores := ArgLoads(a.ret, a.args[..a.params], a.read), ResultStores(a.results);
    LoadArguments(a, st, |a.read|);
    assert loads[..|a.read|] == loads;
    CallsRestoreStack(a.calls, st);
    ExecThen(loads, Traces(a.calls), st, st, st);
    now := StoreResults(a.results, st, |a.results|);
    assert stores[..|a.results|] == stores;
    ExecThen(loads + Traces(a.calls), stores, st, st, now);
  }

  lemma {:induction false} CallsRestoreStack(calls: seq<Activation>, st: Stack)
    requires forall c :: c in calls ==> ActivationOk(c)
    ensures Exec(Traces(calls), st) == Some(st)
    decreases calls
  {
    if calls != [] {
      CallRestoresStack(calls[0], st);
      CallsRestoreStack(calls[1..], st);
      ExecThen(Trace(calls[0]), Traces(calls[1..]), st, st, st);
    }
  }

  /** Without a frame there is nothing to store or load. */
  lemma {:induction false} NothingHandedOver(a: Activation)
    requires ActivationOk(a) && Size(a.ret, a.args) == 0
    ensures a.passed == [] && a.read == [] && a.results == []
  {
    assert a.read != [] ==> a.read[0] in a.passed;
    if a.passed != [] {
      SlotsInjective(a.ret, a.args, a.passed[0].0, a.passed[0].0);
    }
  }

  // ---------------------------------------------------------------- loads of results

  /** Loads succeed if and only if the frame on top holds what they have to find. */
  lemma {:induction false} LoadsFindIff(ws: seq<Bounds>, st: Stack, n: nat)
    requires n <= |ws|
    ensures Exec(ResultLoads(ws)[..n], st) == if n == 0 || HoldsResults(ws, st, n) then Some(st) else None
  {
    if n > 0 {
      var loads := ResultLoads(ws);
      LoadsFindIff(ws, st, n - 1);
      ExecConcat(loads[..n - 1], [loads[n - 1]], st);
      assert loads[..n] == loads[..n - 1] + [loads[n - 1]];
      assert Exec([loads[n - 1]], st) == Apply(loads[n - 1], st);
    }
  }

  // ---------------------------------------------------------------- any callee that keeps to the protocol

  /** Whatever the callee does: called with the passed bounds in its frame, it succeeds, leaves the results
      there, and keeps all other frames. Without a frame it changes nothing. */
  ghost predicate Serves(body: seq<ShadowOp<Bounds>>, a: Activation)
    requires ActivationOk(a)
  {
    if Size(a.ret, a.args) == 0 then forall st :: Exec(body, st) == Some(st)
    else forall st :: Holds(a, st, |a.passed|) ==> ServesOn(body, a, st)
  }

  ghost predicate ServesOn(body: seq<ShadowOp<Bounds>>, a: Activation, st: Stack) {
    && Exec(body, st).Some? && |st| > 0
    && var now := Exec(body, st).value;
       HoldsResults(a.results, now, |a.results|) && now[..|now| - 1] == st[..|st| - 1]
  }

  lemma {:induction false} BodyServes(a: Activation)
    requires ActivationOk(a)
    ensures Serves(Body(a), a)
  {
    if Size(a.ret, a.args) == 0 {
      NothingHandedOver(a);
      forall st
        ensures Exec(Body(a), st) == Some(st)
      {
        CallsRestoreStack(a.calls, st);
        assert Body(a) == Traces(a.calls);
      }
    } else {
      forall st | Holds(a, st, |a.passed|)
        ensures ServesOn(Body(a), a, st)
      {
        var now := BodyKeepsLowerFrames(a, st);
      }
    }
  }

  /** When such a callee returns, the call's frame is on top again and holds the results. */
  lemma {:induction false} AfterServing(body: seq<ShadowOp<Bounds>>, a: Activation, st: Stack) returns (closed: Stack)
    requires ActivationOk(a) && Serves(body, a) && Size(a.ret, a.args) > 0
    ensures Exec(Opening(a.ret, a.args, a.passed) + body, st) == Some(closed)
    ensures HoldsResults(a.results, closed, |a.results|) && closed[..|closed| - 1] == st
  {
    var ready := OpenFrame(a, st);
    assert ServesOn(body, a, ready);
    closed := Exec(body, ready).value;
    ExecThen(Opening(a.ret, a.args, a.passed), body, st, ready, closed);
  }

  /** With the loads before the deallocation, a call succeeds if and only if they look for exactly
      the bounds that the callee has stored. */
  lemma {:induction false} CallThenLoads(body: seq<ShadowOp<Bounds>>, a: Activation, ws: seq<Bounds>, st: Stack)
    requires ActivationOk(a) && Serves(body, a) && (ws == [] || |ws| == |a.results|)
    ensures Exec(Opening(a.ret, a.args, a.passed) + body + (ResultLoads(ws) + Closing(a.ret, a.args)), st) ==
            if ws == [] || ws == a.results then Some(st) else None
  {
    var before, after := Opening(a.ret, a.args, a.passed) + body, ResultLoads(ws) + Closing(a.ret, a.args);
    if Size(a.ret, a.args) == 0 {
      NothingHandedOver(a);
      QuietCall(body, a, ws, st);
    } else {
      var closed := AfterServing(body, a, st);
      ExecConcat(before, after, st);
      LoadsThenClose(a, ws, closed, st);
    }
  }

  lemma {:induction false} QuietCall(body: seq<ShadowOp<Bounds>>, a: Activation, ws: seq<Bounds>, st: Stack)
    requires ActivationOk(a) && Serves(body, a) && Size(a.ret, a.args) == 0 && (ws == [] || |ws| == |a.results|)
    ensures ws == [] && a.results == []
    ensures Exec(Opening(a.ret, a.args, a.passed) + body + (ResultLoads(ws) + Closing(a.ret, a.args)), st)
            == Some(st)
  {
    NothingHandedOver(a);
    var opening, loads := Opening(a.ret, a.args, a.passed), ResultLoads(ws);
    var closing: seq<ShadowOp<Bounds>> := Closing(a.ret, a.args);
    assert opening == [] && loads == [] && closing == [];
    assert [] + body + ([] + []) == body;
  }

  lemma {:induction false} LoadsThenClose(a: Activation, ws: seq<Bounds>, closed: Stack, st: Stack)
    requires ActivationOk(a) && Size(a.ret, a.args) > 0 && (ws == [] || |ws| == |a.results|)
    requires HoldsResults(a.results, closed, |a.results|) && closed[..|closed| - 1] == st
    ensures Exec(ResultLoads(ws) + Closing(a.ret, a.args), closed) ==
            if ws == [] || ws == a.results then Some(st) else None
  {
    ExecConcat(ResultLoads(ws), [Dealloc], closed);
    LoadsFindIff(ws, closed, |ws|);
    assert ResultLoads(ws)[..|ws|] == ResultLoads(ws);
    assert Exec([Dealloc], closed) == Some(st);
    assert ws != [] && HoldsResults(ws, closed, |ws|) ==> ws == a.results;
  }

  /** With the loads behind the deallocation, it succeeds if and only if the frame below, which
      is another call's, happens to hold what they look for. */
  lemma {:induction false} LateLoads(body: seq<ShadowOp<Bounds>>, a: Activation, ws: seq<Bounds>, st: Stack)
    requires ActivationOk(a) && Serves(body, a)
    ensures Exec(Opening(a.ret, a.args, a.passed) + body + (Closing(a.ret, a.args) + ResultLoads(ws)), st) ==
            if ws == [] || HoldsResults(ws, st, |ws|) then Some(st) else None
  {
    var before := Opening(a.ret, a.args, a.passed) + body;
    assert Exec(before + Closing(a.ret, a.args), st) == Some(st) by {
      CallThenLoads(body, a, [], st);
      assert ResultLoads<Bounds>([]) + Closing(a.ret, a.args) == Closing(a.ret, a.args);
    }
    assert before + (Closing(a.ret, a.args) + ResultLoads(ws)) == before + Closing(a.ret, a.args) + ResultLoads(ws);
    ExecConcat(before + Closing(a.ret, a.args), ResultLoads(ws), st);
    LoadsFindIff(ws, st, |ws|);
    assert ResultLoads(ws)[..|ws|] == ResultLoads(ws);
  }
}

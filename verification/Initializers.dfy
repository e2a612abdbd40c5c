/** Metadata stores for the pointers in the initialisers of global variables. */
module Initializers {
  import opened Options

  datatype Constant =
    | Null
    | Undef(pointer: bool)
    | Data                                    // numbers, and arrays of them
    | ZeroAggregate
    | BlockAddress(id: nat)
    | Indirect(id: nat)                       // an alias or ifunc
    | Variable(id: nat, zeroSized: bool)      // zero-sized where it is only declared
    | Function(id: nat)
    | IntToPtr
    | Gep(base: Constant)
    | BitCast(base: Constant)
    | OtherPointer                            // any other expression of pointer type
    | PointerVector
    | Aggregate(elems: seq<Constant>)         // a struct or an array

  datatype Handling = Disallow | NullBounds | WideBounds

  datatype Config = Config(intToPtr: Handling, zeroSized: Handling)

  datatype Extent =
    | Nothing              // null pointers for base and bound
    | Everything
    | Whole(of: Constant)  // of an object
    | Entry(fn: nat)
    | Empty(variable: nat)
    | From(variable: nat)  // no upper bound

  predicate IsPointer(c: Constant) {
    match c
    case Null => true
    case Undef(pointer) => pointer
    case BlockAddress(_) => true
    case Indirect(_) => true
    case Variable(_, _) => true
    case Function(_) => true
    case IntToPtr => true
    case Gep(_) => true
    case BitCast(_) => true
    case OtherPointer => true
    case Data => false
    case ZeroAggregate => false
    case PointerVector => false
    case Aggregate(_) => false
  }

  /** Address computations and casts apply to pointers. */
  predicate WellTyped(c: Constant) {
    match c
    case Gep(base) => IsPointer(base) && WellTyped(base)
    case BitCast(base) => IsPointer(base) && WellTyped(base)
    case Aggregate(elems) => forall e :: e in elems ==> WellTyped(e)
    case Null => true
    case Undef(_) => true
    case BlockAddress(_) => true
    case Indirect(_) => true
    case Variable(_, _) => true
    case Function(_) => true
    case IntToPtr => true
    case OtherPointer => true
    case Data => true
    case ZeroAggregate => true
    case PointerVector => true
  }

  // ---------------------------------------------------------------- what should be stored where

  /** The constant behind address computations and casts. */
  function Peel(c: Constant): Constant {
    match c
    case Gep(base) => Peel(base)
    case BitCast(base) => Peel(base)
    case _ => c
  }

  /** The bounds of a pointer that nothing has been computed on, if it can have any. */
  function SourceBounds(cfg: Config, c: Constant): Option<Extent> {
    match c
    case Null => Some(Nothing)
    case BlockAddress(_) => Some(Whole(c))
    case Variable(id, zeroSized) =>
      if !zeroSized then Some(Whole(c))
      else if cfg.zeroSized.Disallow? then None
      else Some(if cfg.zeroSized.NullBounds? then Empty(id) else From(id))
    case Function(id) => Some(Entry(id))
    case IntToPtr =>
      if cfg.intToPtr.Disallow? then None
      else Some(if cfg.intToPtr.NullBounds? then Nothing else Everything)
    case _ => None
  }

  function PointerBounds(cfg: Config, c: Constant): Option<Extent> {
    SourceBounds(cfg, Peel(c))
  }

  /** The constant at an index path; nothing is inside anything but a spelled-out aggregate. */
  function At(c: Constant, p: seq<nat>): Option<Constant>
    decreases |p|
  {
    if p == [] then Some(c)
    else if c.Aggregate? && p[0] < |c.elems| then At(c.elems[p[0]], p[1..])
    else None
  }

  ghost predicate PointerAt(c: Constant, p: seq<nat>) {
    At(c, p).Some? && IsPointer(At(c, p).value)
  }

  /** A pointer without bounds, or a vector of pointers. */
  predicate Broken(cfg: Config, c: Constant) {
    c.PointerVector? || (IsPointer(c) && PointerBounds(cfg, c).None?)
  }

  ghost predicate BrokenInside(cfg: Config, c: Constant) {
    exists p :: p != [] && BrokenAt(cfg, c, p)
  }

  ghost predicate BrokenAt(cfg: Config, c: Constant, p: seq<nat>) {
    At(c, p).Some? && Broken(cfg, At(c, p).value)
  }

  /** A store of metadata for the pointer at an index path within a global; the path of an element
      starts with 0, that of the global itself is empty. */
  datatype Store = Store(global: nat, indices: seq<nat>, extent: Extent)

  function StoreFor(cfg: Config, c: Constant, global: nat, indices: seq<nat>): seq<Store> {
    if IsPointer(c) && PointerBounds(cfg, c).Some? then [Store(global, indices, PointerBounds(cfg, c).value)] else []
  }

  /** The stores for all pointers inside c, in the order of a depth-first walk. */
  function Stores(cfg: Config, c: Constant, global: nat, indices: seq<nat>): seq<Store>
    decreases c
  {
    if c.Aggregate? then ElementStores(cfg, c, global, indices, |c.elems|) else []
  }

  function ElementStores(cfg: Config, c: Constant, global: nat, indices: seq<nat>, n: nat): seq<Store>
    requires c.Aggregate? && n <= |c.elems|
    decreases c, n
  {
    if n == 0 then []
    else
      var e, here := c.elems[n - 1], indices + [n - 1];
      ElementStores(cfg, c, global, indices, n - 1) + Stores(cfg, e, global, here) + StoreFor(cfg, e, global, here)
  }

  datatype GlobalVariable = GlobalVariable(id: nat, instrumented: bool, internal: bool, init: Option<Constant>)

  /** All-zero initialisers need no metadata. */
  predicate IsNullValue(c: Constant) {
    c.Null? || c.ZeroAggregate?
  }

  predicate Skipped(g: GlobalVariable) {
    !g.instrumented || g.init.None? || g.internal || IsNullValue(g.init.value)
  }

  ghost predicate GlobalOk(cfg: Config, g: GlobalVariable) {
    Skipped(g) || (!Broken(cfg, g.init.value) && !BrokenInside(cfg, g.init.value))
  }

  function GlobalStores(cfg: Config, g: GlobalVariable): seq<Store> {
    if Skipped(g) then []
    else Stores(cfg, g.init.value, g.id, [0]) + StoreFor(cfg, g.init.value, g.id, [])
  }

  /** The stores for the first n globals. */
  function StoresUpTo(cfg: Config, globals: seq<GlobalVariable>, n: nat): seq<Store>
    requires n <= |globals|
  {
    if n == 0 then [] else StoresUpTo(cfg, globals, n - 1) + GlobalStores(cfg, globals[n - 1])
  }

  function AllStores(cfg: Config, globals: seq<GlobalVariable>): seq<Store> {
    StoresUpTo(cfg, globals, |globals|)
  }

  // ---------------------------------------------------------------- emitting the stores

  datatype Outcome = Fatal | Handled(extent: Option<Extent>)

  class Setup {
    const cfg: Config
    var stores: seq<Store>

    constructor (cfg: Config)
      ensures this.cfg == cfg && stores == []
    {
      this.cfg, stores := cfg, [];
    }

    /** The bounds of a pointer; for an aggregate, stores those of its elements. */
    method HandleInitializer(c: Constant, global: nat, indices: seq<nat>) returns (r: Outcome)
      requires WellTyped(c)
      modifies this
      ensures r.Fatal? ==> Broken(cfg, c) || BrokenInside(cfg, c)
      ensures BrokenInside(cfg, c) || c.PointerVector? ==> r.Fatal?
      ensures r.Handled? ==> stores == old(stores) + Stores(cfg, c, global, indices)
      ensures r.Handled? ==> r.extent == if IsPointer(c) then PointerBounds(cfg, c) else None
      decreases c, 1
    {
      NothingInside(cfg, c);
      match c
      case BlockAddress(_) => r := Handled(Some(Whole(c)));
      case Indirect(_) => r := Fatal;
      case Null => r := Handled(Some(Nothing));
      case Undef(_) => r := Handled(None);
      case Data => r := Handled(None);
      case ZeroAggregate => r := Handled(None);
      case IntToPtr =>
        r := if cfg.intToPtr.Disallow? then Fatal
             else Handled(Some(if cfg.intToPtr.NullBounds? then Nothing else Everything));
      case Gep(base) => r := HandleInitializer(base, global, indices);
      case BitCast(base) => r := HandleInitializer(base, global, indices);
      case OtherPointer => r := Fatal;
      case Variable(id, zeroSized) => r := Handled(VariableBounds(c));
      case Function(id) => r := Handled(Some(Entry(id)));
      case PointerVector => r := Fatal;
      case Aggregate(elems) => r := HandleElements(c, global, indices);
    }

    function VariableBounds(c: Constant): (r: Option<Extent>)
      requires c.Variable?
      ensures r == SourceBounds(cfg, c)
    {
      if !c.zeroSized then Some(Whole(c))
      else
        match cfg.zeroSized
        case Disallow => None
        case NullBounds => Some(Empty(c.id))
        case WideBounds => Some(From(c.id))
    }

    /** Stores the bounds of the element after those of the pointers inside it. */
    method HandleElement(e: Constant, global: nat, here: seq<nat>) returns (ok: bool)
      requires WellTyped(e)
      modifies this
      ensures ok <==> !Broken(cfg, e) && !BrokenInside(cfg, e)
      ensures ok ==> stores == old(stores) + Stores(cfg, e, global, here) + StoreFor(cfg, e, global, here)
      decreases e, 2
    {
      var sub := HandleInitializer(e, global, here);
      if sub.Fatal? || (IsPointer(e) && sub.extent.None?) {
        return false;
      }
      if IsPointer(e) {
        stores := stores + [Store(global, here, sub.extent.value)];
      }
      ok := true;
    }

    method HandleElements(c: Constant, global: nat, indices: seq<nat>) returns (r: Outcome)
      requires WellTyped(c) && c.Aggregate?
      modifies this
      ensures r.Fatal? <==> BrokenInside(cfg, c)
      ensures r.Handled? ==> stores == old(stores) + Stores(cfg, c, global, indices) && r.extent == None
      decreases c, 0
    {
      r := Handled(None);
      var i := 0;
      while i < |c.elems|
        invariant 0 <= i <= |c.elems| && r == Handled(None)
        invariant stores == old(stores) + ElementStores(cfg, c, global, indices, i)
        invariant forall k :: 0 <= k < i ==> !Broken(cfg, c.elems[k]) && !BrokenInside(cfg, c.elems[k])
      {
        var e := c.elems[i];
        assert e in c.elems;
        var ok := HandleElement(e, global, indices + [i]);
        if !ok {
          BrokenElement(cfg, c, i);
          return Fatal;
        }
        assert stores == old(stores) + ElementStores(cfg, c, global, indices, i + 1);
        i := i + 1;
      }
      SoundElements(cfg, c);
    }

    method SetUpGlobal(g: GlobalVariable) returns (ok: bool)
      requires g.init.Some? ==> WellTyped(g.init.value)
      modifies this
      ensures ok <==> GlobalOk(cfg, g)
      ensures ok ==> stores == old(stores) + GlobalStores(cfg, g)
    {
      if g.instrumented && g.init.Some? && !g.internal && !IsNullValue(g.init.value) {
        var r := HandleInitializer(g.init.value, g.id, [0]);
        if r.Fatal? || (IsPointer(g.init.value) && r.extent.None?) {
          return false;
        }
        if IsPointer(g.init.value) {
          stores := stores + [Store(g.id, [], r.extent.value)];
        }
      }
      ok := true;
    }

    /** Handles all globals; gives up at the first one that cannot be. */
    method SetUpGlobals(globals: seq<GlobalVariable>) returns (ok: bool)
      requires forall k :: 0 <= k < |globals| && globals[k].init.Some? ==> WellTyped(globals[k].init.value)
      modifies this
      ensures ok <==> forall k :: 0 <= k < |globals| ==> GlobalOk(cfg, globals[k])
      ensures ok ==> stores == old(stores) + AllStores(cfg, globals)
    {
      var n := 0;
      while n < |globals|
        invariant 0 <= n <= |globals|
        invariant forall k :: 0 <= k < n ==> GlobalOk(cfg, globals[k])
        invariant stores == old(stores) + StoresUpTo(cfg, globals, n)
      {
        ok := SetUpGlobal(globals[n]);
        if !ok {
          return;
        }
        StoresMore(cfg, globals, n, old(stores));
        n := n + 1;
      }
      ok := true;
    }
  }

  lemma {:induction false} StoresMore(cfg: Config, globals: seq<GlobalVariable>, n: nat, before: seq<Store>)
    requires n < |globals|
    ensures before + StoresUpTo(cfg, globals, n) + GlobalStores(cfg, globals[n])
            == before + StoresUpTo(cfg, globals, n + 1)
  {
  }

  lemma {:induction false} NothingInside(cfg: Config, c: Constant)
    ensures !c.Aggregate? ==> !BrokenInside(cfg, c)
  {
  }

  lemma {:induction false} BrokenElement(cfg: Config, c: Constant, i: nat)
    requires c.Aggregate? && i < |c.elems| && (Broken(cfg, c.elems[i]) || BrokenInside(cfg, c.elems[i]))
    ensures BrokenInside(cfg, c)
  {
    var e, p := c.elems[i], [];
    if !Broken(cfg, e) {
      p :| p != [] && BrokenAt(cfg, e, p);
    }
    assert ([i] + p)[1..] == p;
    assert At(c, [i] + p) == At(e, p);
    assert BrokenAt(cfg, c, [i] + p);
  }

  lemma {:induction false} BrokenPath(cfg: Config, c: Constant, p: seq<nat>)
    requires p != [] && BrokenAt(cfg, c, p)
    ensures c.Aggregate? && p[0] < |c.elems|
    ensures Broken(cfg, c.elems[p[0]]) || BrokenInside(cfg, c.elems[p[0]])
  {
    var e := c.elems[p[0]];
    assert BrokenAt(cfg, e, p[1..]);
  }

  lemma {:induction false} SoundElements(cfg: Config, c: Constant)
    requires c.Aggregate?
    requires forall k :: 0 <= k < |c.elems| ==> !Broken(cfg, c.elems[k]) && !BrokenInside(cfg, c.elems[k])
    ensures !BrokenInside(cfg, c)
  {
    forall p | p != []
      ensures !BrokenAt(cfg, c, p)
    {
      if BrokenAt(cfg, c, p) {
        BrokenPath(cfg, c, p);
      }
    }
  }

  // ---------------------------------------------------------------- one store for each pointer

  lemma {:induction false} AtStep(c: Constant, i: nat, p: seq<nat>)
    requires c.Aggregate? && i < |c.elems|
    ensures At(c, [i] + p) == At(c.elems[i], p)
  {
    assert ([i] + p)[1..] == p;
  }

  /** The stores for c are exactly those for the pointers with bounds inside it, each at its
      path. */
  lemma {:induction false} StoresExact(cfg: Config, c: Constant, global: nat, indices: seq<nat>, x: Store)
    ensures x in Stores(cfg, c, global, indices) <==>
            x.global == global && IsStoreInside(cfg, c, indices, x)
    decreases c
  {
    if c.Aggregate? {
      ElementsExact(cfg, c, global, indices, |c.elems|, x);
    } else {
      NoPathInside(c);
    }
  }

  /** x stores the bounds of a pointer that is properly inside c. */
  ghost predicate IsStoreInside(cfg: Config, c: Constant, indices: seq<nat>, x: Store) {
    && indices < x.indices
    && var p := x.indices[|indices|..];
       PointerAt(c, p) && PointerBounds(cfg, At(c, p).value) == Some(x.extent)
  }

  lemma {:induction false} NoPathInside(c: Constant)
    requires !c.Aggregate?
    ensures forall p :: p != [] ==> !PointerAt(c, p)
  {
  }

  lemma {:induction false} ElementsExact(cfg: Config, c: Constant, global: nat, indices: seq<nat>, n: nat, x: Store)
    requires c.Aggregate? && n <= |c.elems|
    ensures x in ElementStores(cfg, c, global, indices, n) <==>
            x.global == global && IsStoreInside(cfg, c, indices, x) && x.indices[|indices|] < n
    decreases c, n
  {
    if n > 0 {
      var e, here := c.elems[n - 1], indices + [n - 1];
      ElementsExact(cfg, c, global, indices, n - 1, x);
      StoresExact(cfg, e, global, here, x);
      ElementStore(cfg, c, indices, n - 1, x);
    }
  }

  /** A store inside c that starts with element i is one inside the element or for the element. */
  lemma {:induction false} ElementStore(cfg: Config, c: Constant, indices: seq<nat>, i: nat, x: Store)
    requires c.Aggregate? && i < |c.elems|
    ensures
      IsStoreInside(cfg, c, indices, x) && x.indices[|indices|] == i <==>
      IsStoreInside(cfg, c.elems[i], indices + [i], x)
      || x in StoreFor(cfg, c.elems[i], x.global, indices + [i])
  {
    var e, here := c.elems[i], indices + [i];
    if indices < x.indices && x.indices[|indices|] == i {
      var p := x.indices[|indices|..];
      assert p == [i] + p[1..];
      AtStep(c, i, p[1..]);
      assert here <= x.indices && x.indices[|here|..] == p[1..];
      if p[1..] == [] {
        assert x.indices == here;
      }
    }
  }

  /** No two stores for the same pointer. */
  ghost predicate Distinct(s: seq<Store>) {
    forall a, b :: 0 <= a < b < |s| ==> s[a].indices != s[b].indices
  }

  lemma {:induction false} StoresDistinct(cfg: Config, c: Constant, global: nat, indices: seq<nat>)
    ensures Distinct(Stores(cfg, c, global, indices))
    decreases c
  {
    if c.Aggregate? {
      ElementsDistinct(cfg, c, global, indices, |c.elems|);
    }
  }

  lemma {:induction false} ElementsDistinct(cfg: Config, c: Constant, global: nat, indices: seq<nat>, n: nat)
    requires c.Aggregate? && n <= |c.elems|
    ensures Distinct(ElementStores(cfg, c, global, indices, n))
    decreases c, n
  {
    if n > 0 {
      var e, here := c.elems[n - 1], indices + [n - 1];
      var before, inside, own := ElementStores(cfg, c, global, indices, n - 1), Stores(cfg, e, global, here),
                                 StoreFor(cfg, e, global, here);
      ElementsDistinct(cfg, c, global, indices, n - 1);
      StoresDistinct(cfg, e, global, here);
      forall a | 0 <= a < |before|
        ensures |before[a].indices| > |indices| && before[a].indices[|indices|] < n - 1
      {
        ElementsExact(cfg, c, global, indices, n - 1, before[a]);
      }
      forall a | 0 <= a < |inside|
        ensures here < inside[a].indices
      {
        StoresExact(cfg, e, global, here, inside[a]);
      }
    }
  }

  // ---------------------------------------------------------------- all globals

  /** Where the metadata of the pointer at a path within a global is stored. */
  function PathIndices(p: seq<nat>): seq<nat> {
    if p == [] then [] else [0] + p
  }

  /** x is the store for the pointer at path p of g's initialiser. */
  ghost predicate StoresPointer(cfg: Config, g: GlobalVariable, p: seq<nat>, x: Store) {
    && !Skipped(g) && PointerAt(g.init.value, p)
    && x.global == g.id && x.indices == PathIndices(p)
    && PointerBounds(cfg, At(g.init.value, p).value) == Some(x.extent)
  }

  lemma {:induction false} GlobalStoresExact(cfg: Config, g: GlobalVariable, x: Store)
    ensures x in GlobalStores(cfg, g) <==> exists p :: StoresPointer(cfg, g, p, x)
    ensures Distinct(GlobalStores(cfg, g))
  {
    if !Skipped(g) {
      var c := g.init.value;
      StoresExact(cfg, c, g.id, [0], x);
      StoresDistinct(cfg, c, g.id, [0]);
      if x.global == g.id && IsStoreInside(cfg, c, [0], x) {
        assert x.indices == [0] + x.indices[1..];
        assert StoresPointer(cfg, g, x.indices[1..], x);
      }
      if x in StoreFor(cfg, c, g.id, []) {
        assert StoresPointer(cfg, g, [], x);
      }
      if p :| StoresPointer(cfg, g, p, x) {
        assert p != [] ==> x.indices[1..] == p && [0] < x.indices;
      }
    }
  }

  ghost predicate StoredAmong(cfg: Config, globals: seq<GlobalVariable>, n: nat, x: Store) {
    exists k, p :: 0 <= k < n <= |globals| && StoresPointer(cfg, globals[k], p, x)
  }

  lemma {:induction false} StoresUpToExact(cfg: Config, globals: seq<GlobalVariable>, n: nat, x: Store)
    requires n <= |globals|
    ensures x in StoresUpTo(cfg, globals, n) <==> StoredAmong(cfg, globals, n, x)
  {
    if n > 0 {
      StoresUpToExact(cfg, globals, n - 1, x);
      GlobalStoresExact(cfg, globals[n - 1], x);
      StoredAmongMore(cfg, globals, n, x);
    }
  }

  lemma {:induction false} StoredAmongMore(cfg: Config, globals: seq<GlobalVariable>, n: nat, x: Store)
    requires 0 < n <= |globals|
    ensures
      var g := globals[n - 1];
      StoredAmong(cfg, globals, n, x) <==>
      StoredAmong(cfg, globals, n - 1, x) || exists p :: StoresPointer(cfg, g, p, x)
  {
    if k, p :| 0 <= k < n && StoresPointer(cfg, globals[k], p, x) {
      assert k < n - 1 ==> StoredAmong(cfg, globals, n - 1, x);
    }
    if k, p :| 0 <= k < n - 1 && StoresPointer(cfg, globals[k], p, x) {
      assert StoredAmong(cfg, globals, n, x);
    }
  }

  ghost predicate DistinctIds(globals: seq<GlobalVariable>) {
    forall a, b :: 0 <= a < b < |globals| ==> globals[a].id != globals[b].id
  }

  /** No two stores for the same pointer of the same global. */
  ghost predicate NoTwins(s: seq<Store>) {
    forall a, b :: 0 <= a < b < |s| ==> s[a].global != s[b].global || s[a].indices != s[b].indices
  }

  lemma {:induction false} StoresUpToDistinct(cfg: Config, globals: seq<GlobalVariable>, n: nat)
    requires DistinctIds(globals) && n <= |globals|
    ensures NoTwins(StoresUpTo(cfg, globals, n))
  {
    if n > 0 {
      var before, own := StoresUpTo(cfg, globals, n - 1), GlobalStores(cfg, globals[n - 1]);
      StoresUpToDistinct(cfg, globals, n - 1);
      forall a | 0 <= a < |before|
        ensures before[a].global != globals[n - 1].id
      {
        StoresUpToExact(cfg, globals, n - 1, before[a]);
      }
      forall a | 0 <= a < |own|
        ensures own[a].global == globals[n - 1].id && Distinct(own)
      {
        GlobalStoresExact(cfg, globals[n - 1], own[a]);
      }
    }
  }

  /** Every pointer of every initialiser has exactly one store, with the bounds of the object it
      points into. */
  lemma {:induction false} OneStorePerPointer(cfg: Config, globals: seq<GlobalVariable>, g: GlobalVariable, p: seq<nat>)
    returns (a: nat)
    requires DistinctIds(globals) && g in globals && !Skipped(g) && GlobalOk(cfg, g)
    requires PointerAt(g.init.value, p)
    ensures
      var all := AllStores(cfg, globals);
      && a < |all| && StoresPointer(cfg, g, p, all[a])
      && forall b :: 0 <= b < |all| && all[b].global == g.id && all[b].indices == PathIndices(p) ==> b == a
  {
    var c, all := g.init.value, AllStores(cfg, globals);
    assert PointerBounds(cfg, At(c, p).value).Some? by {
      if p != [] {
        assert !BrokenAt(cfg, c, p);
      }
    }
    var x := Store(g.id, PathIndices(p), PointerBounds(cfg, At(c, p).value).value);
    assert StoresPointer(cfg, g, p, x);
    StoresUpToExact(cfg, globals, |globals|, x);
    a :| 0 <= a < |all| && all[a] == x;
    StoresUpToDistinct(cfg, globals, |globals|);
  }

  /** And every store is the one for such a pointer. */
  lemma {:induction false} StoreIsForPointer(cfg: Config, globals: seq<GlobalVariable>, a: nat)
    returns (g: GlobalVariable, p: seq<nat>)
    requires a < |AllStores(cfg, globals)|
    ensures g in globals && StoresPointer(cfg, g, p, AllStores(cfg, globals)[a])
  {
    var x := AllStores(cfg, globals)[a];
    StoresUpToExact(cfg, globals, |globals|, x);
    var k, q :| 0 <= k < |globals| && StoresPointer(cfg, globals[k], q, x);
    g, p := globals[k], q;
  }

  // ---------------------------------------------------------------- what the stored bounds admit

  /** Where things are in memory, and the highest address. */
  datatype Placement = Placement(variable: nat -> Region, block: nat -> Region, fn: nat -> nat, highest: nat)

  datatype Region = Region(start: nat, size: nat)

  function Lower(m: Placement, e: Extent): nat {
    match e
    case Nothing => 0
    case Everything => 0
    case Whole(of) => RegionOf(m, of).start
    case Entry(fn) => m.fn(fn)
    case Empty(variable) => m.variable(variable).start
    case From(variable) => m.variable(variable).start
  }

  function Upper(m: Placement, e: Extent): nat {
    match e
    case Nothing => 0
    case Everything => m.highest
    case Whole(of) => RegionOf(m, of).start + RegionOf(m, of).size
    case Entry(fn) => m.fn(fn)
    case Empty(variable) => m.variable(variable).start
    case From(_) => m.highest
  }

  function RegionOf(m: Placement, c: Constant): Region {
    if c.Variable? then m.variable(c.id) else if c.BlockAddress? then m.block(c.id) else Region(0, 0)
  }

  /** An access to n bytes from address p passes the check with these bounds. */
  predicate Admits(m: Placement, e: Extent, p: nat, n: nat) {
    Lower(m, e) <= p && p + n <= Upper(m, e)
  }

  /** The access stays within the region. */
  predicate Inside(r: Region, p: nat, n: nat) {
    r.start <= p && p + n <= r.start + r.size
  }

  /** c is b, or casts and address computations applied to b. */
  ghost predicate Wraps(c: Constant, b: Constant) {
    c == b || (c.Gep? && Wraps(c.base, b)) || (c.BitCast? && Wraps(c.base, b))
  }

  predicate IsObject(b: Constant) {
    match b
    case Null => true
    case BlockAddress(_) => true
    case Variable(_, _) => true
    case Function(_) => true
    case IntToPtr => true
    case _ => false
  }

  /** What may be accessed through a pointer to b: nothing through null, exactly the bytes of a variable or a block,
      nothing but the very entry of a function; unlimited access only where it is configured. */
  ghost predicate RightBounds(cfg: Config, m: Placement, b: Constant, e: Extent) {
    match b
    case Null => forall p: nat, n: nat :: n > 0 ==> !Admits(m, e, p, n)
    case BlockAddress(id) => forall p: nat, n: nat :: Admits(m, e, p, n) <==> Inside(m.block(id), p, n)
    case Function(id) => forall p: nat, n: nat :: Admits(m, e, p, n) <==> p == m.fn(id) && n == 0
    case Variable(id, zeroSized) =>
      if !zeroSized then forall p: nat, n: nat :: Admits(m, e, p, n) <==> Inside(m.variable(id), p, n)
      else
        (match cfg.zeroSized
         case Disallow => false
         case NullBounds => forall p: nat, n: nat :: Admits(m, e, p, n) <==> p == m.variable(id).start && n == 0
         case WideBounds =>
           forall p: nat, n: nat :: Admits(m, e, p, n) <==> m.variable(id).start <= p && p + n <= m.highest)
    case IntToPtr =>
      (match cfg.intToPtr
       case Disallow => false
       case NullBounds => forall p: nat, n: nat :: n > 0 ==> !Admits(m, e, p, n)
       case WideBounds => forall p: nat, n: nat :: Admits(m, e, p, n) <==> p + n <= m.highest)
    case _ => false
  }

  lemma {:induction false} PeelWraps(c: Constant)
    ensures Wraps(c, Peel(c)) && !Peel(c).Gep? && !Peel(c).BitCast?
  {
    if c.Gep? || c.BitCast? {
      PeelWraps(c.base);
    }
  }

  lemma {:induction false} WrapsOne(c: Constant, b: Constant)
    requires Wraps(c, b) && !b.Gep? && !b.BitCast?
    ensures Peel(c) == b
  {
    if c != b {
      WrapsOne(c.base, b);
    }
  }

  lemma {:induction false} SourceBoundsRight(cfg: Config, m: Placement, b: Constant)
    requires SourceBounds(cfg, b).Some?
    ensures RightBounds(cfg, m, b, SourceBounds(cfg, b).value)
  {
  }

  /** The initialiser of a global is looked into: it is instrumented, not internal, and not all zeros. */
  predicate HasMetadata(g: GlobalVariable) {
    g.instrumented && !g.internal && g.init.Some? && !g.init.value.Null? && !g.init.value.ZeroAggregate?
  }

  /** Once all globals are set up, there is exactly one store for a pointer anywhere in the initialiser of one of
      them, and its bounds are right for what lies behind casts and address computations. */
  lemma {:induction false} StoredBoundsRight(cfg: Config, globals: seq<GlobalVariable>, g: GlobalVariable,
                                             p: seq<nat>, c: Constant, b: Constant, m: Placement)
    returns (a: nat)
    requires DistinctIds(globals) && g in globals && HasMetadata(g)
    requires forall k :: 0 <= k < |globals| ==> GlobalOk(cfg, globals[k])
    requires At(g.init.value, p) == Some(c) && WellTyped(c) && Wraps(c, b) && IsObject(b)
    ensures
      var all, indices := AllStores(cfg, globals), if p == [] then [] else [0] + p;
      && a < |all| && all[a].global == g.id && all[a].indices == indices && RightBounds(cfg, m, b, all[a].extent)
      && forall k :: 0 <= k < |all| && all[k].global == g.id && all[k].indices == indices ==> k == a
  {
    WrapsOne(c, b);
    assert IsPointer(c);
    a := OneStorePerPointer(cfg, globals, g, p);
    SourceBoundsRight(cfg, m, b);
  }

  /** And every store is for such a pointer, with bounds that are right for what lies behind it. */
  lemma {:induction false} EveryStoreRight(cfg: Config, globals: seq<GlobalVariable>, a: nat, m: Placement)
    returns (g: GlobalVariable, p: seq<nat>, c: Constant, b: Constant)
    requires a < |AllStores(cfg, globals)|
    ensures
      var x := AllStores(cfg, globals)[a];
      && g in globals && HasMetadata(g) && x.global == g.id && x.indices == (if p == [] then [] else [0] + p)
      && At(g.init.value, p) == Some(c) && Wraps(c, b) && IsObject(b) && RightBounds(cfg, m, b, x.extent)
  {
    g, p := StoreIsForPointer(cfg, globals, a);
    c := At(g.init.value, p).value;
    b := Peel(c);
    PeelWraps(c);
    SourceBoundsRight(cfg, m, b);
  }

  /** Anything else in place of a pointer has no bounds. */
  predicate HasBounds(cfg: Config, b: Constant) {
    match b
    case Null => true
    case BlockAddress(_) => true
    case Function(_) => true
    case Variable(_, zeroSized) => !zeroSized || !cfg.zeroSized.Disallow?
    case IntToPtr => !cfg.intToPtr.Disallow?
    case _ => false
  }

  predicate IsPointerExpression(c: Constant) {
    match c
    case Data => false
    case ZeroAggregate => false
    case PointerVector => false
    case Aggregate(_) => false
    case Undef(pointer) => pointer
    case _ => true
  }

  /** At path p there is no vector of pointers, and no pointer without bounds. */
  ghost predicate SoundAt(cfg: Config, c: Constant, p: seq<nat>) {
    At(c, p).Some? ==>
      && !At(c, p).value.PointerVector?
      && forall b :: IsPointerExpression(At(c, p).value) && Wraps(At(c, p).value, b) && !b.Gep? && !b.BitCast? ==>
           HasBounds(cfg, b)
  }

  /** A global can be set up if and only if it is skipped, or its initialiser is sound at every path. */
  lemma {:induction false} GlobalOkIff(cfg: Config, g: GlobalVariable)
    ensures GlobalOk(cfg, g) <==> (HasMetadata(g) ==> forall p :: SoundAt(cfg, g.init.value, p))
  {
    if HasMetadata(g) {
      var c := g.init.value;
      forall p
        ensures BrokenAt(cfg, c, p) <==> !SoundAt(cfg, c, p)
      {
        if At(c, p).Some? {
          BrokenIff(cfg, At(c, p).value);
        }
      }
      assert BrokenAt(cfg, c, []) <==> Broken(cfg, c);
      if p :| !SoundAt(cfg, c, p) {
        assert BrokenAt(cfg, c, p);
      }
    }
  }

  lemma {:induction false} BrokenIff(cfg: Config, c: Constant)
    ensures Broken(cfg, c) <==>
            c.PointerVector? || exists b :: IsPointerExpression(c) && Wraps(c, b) && !b.Gep? && !b.BitCast?
                                            && !HasBounds(cfg, b)
  {
    PeelWraps(c);
    forall b | Wraps(c, b) && !b.Gep? && !b.BitCast?
      ensures Peel(c) == b
    {
      WrapsOne(c, b);
    }
  }
}

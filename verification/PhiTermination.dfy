/** Why the phi analysis ends: how deep its recursion gets. */
module PhiTermination {
  import opened Options
  import opened WitnessGraphs
  import opened PhiCollapse

  // ---------------------------------------------------------------- counting nodes

  ghost function NodesBelow(n: nat): (r: set<NodeId>)
    ensures |r| == n && forall k: NodeId :: k in r <==> k < n
  {
    if n == 0 then {} else NodesBelow(n - 1) + {n - 1}
  }

  /** A set of nodes is no larger than the graph. */
  lemma {:induction false} SetFits(g: Nodes, s: set<NodeId>)
    requires forall n :: n in s ==> g.Has(n)
    ensures |s| <= |g.target|
  {
    SubsetSize(s, NodesBelow(|g.target|));
  }

  ghost predicate Distinct(s: seq<NodeId>) {
    forall k, l :: 0 <= k < l < |s| ==> s[k] != s[l]
  }

  lemma {:induction false} DistinctSize(s: seq<NodeId>)
    requires Distinct(s)
    ensures |Ids(s)| == |s|
  {
    if s != [] {
      var front, last := s[..|s| - 1], s[|s| - 1];
      DistinctSize(front);
      assert last !in front && Ids(s) == Ids(front) + {last};
    }
  }

  // ---------------------------------------------------------------- graphs without cycles

  /** No requirement cycle. */
  ghost predicate Acyclic(g: Nodes)
    requires Shaped(g)
  {
    forall c :: Walk(g, c) && |c| > 1 ==> c[0] != c[|c| - 1]
  }

  lemma {:induction false} WalkFits(g: Nodes, c: seq<NodeId>)
    requires Shaped(g) && Acyclic(g) && Walk(g, c)
    ensures |c| <= |g.target|
  {
    forall k, l | 0 <= k < l < |c|
      ensures c[k] != c[l]
    {
      var d := c[k..l + 1];
      forall i | 0 <= i < |d| - 1
        ensures Edge(g, d[i], d[i + 1])
      {
        assert Edge(g, c[k + i], c[k + i + 1]);
      }
      assert Walk(g, d);
    }
    DistinctSize(c);
    SetFits(g, Ids(c));
  }

  lemma {:induction false} RequiringEdges(g: Nodes, n: NodeId)
    requires TableOk(g) && g.Has(n)
    ensures forall k :: 0 <= k < |g.requiredBy[n]| ==> g.Has(g.requiredBy[n][k]) && Edge(g, g.requiredBy[n][k], n)
  {
    forall k | 0 <= k < |g.requiredBy[n]|
      ensures Edge(g, g.requiredBy[n][k], n)
    {
      RequiringEdge(g, n, k);
    }
  }

  /** The recursion follows requirement edges backwards: c leads from n to where it began. */
  lemma {:induction false} AcyclicUpdates(g: Nodes, keep: seq<bool>, m: ReqMap, n: NodeId, fuel: nat, c: seq<NodeId>)
    requires TableOk(g) && Acyclic(g) && |m| == |keep| == |g.target|
    requires Walk(g, c) && c[0] == n && |g.target| < fuel + |c|
    ensures Update(g, keep, m, n, fuel).Some?
    decreases fuel, 0
  {
    WalkFits(g, c);
    var e := Evaluate(g, m, keep, n);
    if e != m[n] {
      RequiringEdges(g, n);
      AcyclicUpdatesAll(g, keep, m[n := e], g.requiredBy[n], fuel - 1, c);
    }
  }

  lemma {:induction false} AcyclicUpdatesAll(g: Nodes, keep: seq<bool>, m: ReqMap, ids: seq<NodeId>, fuel: nat,
                                             c: seq<NodeId>)
    requires TableOk(g) && Acyclic(g) && |m| == |keep| == |g.target|
    requires Walk(g, c) && |g.target| < fuel + 1 + |c|
    requires forall k :: 0 <= k < |ids| ==> g.Has(ids[k]) && Edge(g, ids[k], c[0])
    ensures UpdateAll(g, keep, m, ids, fuel).Some?
    decreases fuel, |ids| + 1
  {
    if ids != [] {
      var d := [ids[0]] + c;
      assert Edge(g, ids[0], c[0]);
      forall k | 0 <= k < |d| - 1
        ensures Edge(g, d[k], d[k + 1])
      {
        assert k > 0 ==> Edge(g, c[k - 1], c[k]);
      }
      AcyclicUpdates(g, keep, m, ids[0], fuel, d);
      AcyclicUpdatesAll(g, keep, Update(g, keep, m, ids[0], fuel).value, ids[1..], fuel, c);
    }
  }

  // ---------------------------------------------------------------- graphs with cycles

  /** The recursion stack while old nodes are visited: above the new node they are reached from,
      the old nodes that changed, with their entries before and the nodes they still have to visit. */
  datatype Stack = Caller(node: NodeId)
                 | Frame(below: Stack, node: NodeId, prior: Entry, waiting: seq<NodeId>)

  predicate OnStack(st: Stack, n: NodeId) {
    st.node == n || (st.Frame? && OnStack(st.below, n))
  }

  /** n is still to be visited because r changed from e. */
  predicate Waits(st: Stack, n: NodeId, r: NodeId, e: Entry) {
    st.Frame? && ((st.node == r && st.prior == e && n in st.waiting) || Waits(st.below, n, r, e))
  }

  /** What the lowest old node had before. */
  function FirstPrior(st: Stack): Entry
    requires st.Frame?
  {
    if st.below.Caller? then st.prior else FirstPrior(st.below)
  }

  /** h is on the stack, and its own entry. */
  predicate HeadOn(m: ReqMap, st: Stack, h: NodeId)
    requires h < |m|
  {
    st.Frame? && ((st.node == h && m[h] == To(h)) || HeadOn(m, st.below, h))
  }

  predicate PartOf(sub: Stack, st: Stack) {
    sub == st || (st.Frame? && PartOf(sub, st.below))
  }

  ghost predicate NoneKept(keep: seq<bool>) {
    forall n :: 0 <= n < |keep| ==> !keep[n]
  }

  /** What holds while the entry of the root b spreads. The old nodes had entries before. */
  datatype Phase = Phase(g: Nodes, keep: seq<bool>, old_: set<NodeId>, age: seq<nat>, b: NodeId) {

    ghost predicate Sized(m: ReqMap) {
      Shaped(g) && |m| == |keep| == |age| == |g.target|
    }

    ghost predicate Ok() {
      && TableOk(g) && |keep| == |age| == |g.target| && NoneKept(keep)
      && Root(g, b) && b !in old_
      && (forall n :: n in old_ ==> g.Has(n)) && (forall n {:trigger OldOk(n)} :: n in old_ ==> OldOk(n))
      && forall n: NodeId, r: NodeId :: Edge(g, n, r) && r in old_ ==> n in old_
    }

    ghost predicate OldOk(n: NodeId)
      requires Shaped(g) && |age| == |g.target|
    {
      g.Has(n) && (g.requirements[n] == [] || exists r: NodeId :: OldReq(n, r))
    }

    ghost predicate OldReq(n: NodeId, r: NodeId)
      requires Shaped(g) && |age| == |g.target| && g.Has(n)
    {
      r in g.requirements[n] && r in old_ && age[r] < age[n]
    }

    /** The entry of an old node is itself or an older one, that of a new node is b. */
    ghost predicate ValueOk(e: Entry, n: NodeId)
      requires Shaped(g) && |age| == |g.target| && g.Has(n)
    {
      if n in old_ then
        && e.To? && e.n in old_ && g.Has(e.n)
        && (e.n == n || (g.requirements[n] != [] && age[e.n] < age[n]))
      else e == Null || e == To(b)
    }

    /** Unless n is still to be visited because of r's change, they agree. */
    ghost predicate Told(m: ReqMap, st: Stack, n: NodeId, r: NodeId)
      requires n < |m| && r < |m|
    {
      m[n] == To(n) || m[r] == m[n] || Waits(st, n, r, m[n])
    }

    ghost predicate Calm(m: ReqMap, st: Stack) {
      && Ok() && Sized(m)
      && (forall n :: 0 <= n < |m| ==> ValueOk(m[n], n))
      && forall n: NodeId, r: NodeId :: n in old_ && r in old_ && Edge(g, n, r) ==> Told(m, st, n, r)
    }

    /** Whatever n requires has the given entry or none. */
    ghost predicate Agree(m: ReqMap, n: NodeId, e: Entry)
      requires Sized(m) && g.Has(n)
    {
      forall r :: r in g.requirements[n] ==> m[r] == Null || m[r] == e
    }

    /** The other nodes with entry h agree with what they require. */
    ghost predicate HoldersAgree(m: ReqMap, h: NodeId)
      requires Sized(m)
    {
      forall n :: n in old_ && n != h && g.Has(n) && m[n] == To(h) ==> Agree(m, n, To(h))
    }

    /** n requires a node with another entry than e. */
    ghost predicate Differs(m: ReqMap, n: NodeId, e: Entry)
      requires Sized(m) && g.Has(n)
    {
      exists q :: q in g.requirements[n] && m[q].To? && m[q] != e
    }

    /** Each old node on the stack has got the entry of the node below it, or has become its own
        entry because it requires different ones. */
    ghost predicate Chain(m: ReqMap, st: Stack)
      requires Sized(m)
    {
      if st.Caller? then g.Has(st.node) && st.node !in old_ && m[st.node] == To(b)
      else
        && Chain(m, st.below) && g.Has(st.node) && g.Has(st.below.node)
        && st.node in old_ && !OnStack(st.below, st.node) && Edge(g, st.node, st.below.node)
        && PriorOk(m, st) && EntryOk(m, st)
    }

    ghost predicate PriorOk(m: ReqMap, st: Stack)
      requires Sized(m) && st.Frame? && g.Has(st.node)
    {
      && m[st.node] != st.prior && (st.below.Caller? || st.prior == st.below.prior || st.prior == To(st.node))
      && FirstPrior(st).To? && g.Has(FirstPrior(st).n) && age[FirstPrior(st).n] < age[st.node]
    }

    ghost predicate EntryOk(m: ReqMap, st: Stack)
      requires Sized(m) && st.Frame? && g.Has(st.node) && g.Has(st.below.node)
    {
      if m[st.node] == To(st.node) then Differs(m, st.node, m[st.below.node]) && HoldersAgree(m, st.node)
      else st.below.Frame? && m[st.node] == m[st.below.node]
    }

    ghost predicate Wave(m: ReqMap, st: Stack) {
      Calm(m, st) && Chain(m, st)
    }
  }

  // ---------------------------------------------------------------- what is known of the stack

  lemma {:induction false} Evaluated(p: Phase, m: ReqMap, n: NodeId, s: NodeId)
    requires p.Sized(m) && NoneKept(p.keep) && Edge(p.g, n, s) && m[s].To?
    ensures
      var e := Evaluate(p.g, m, p.keep, n);
      if p.Agree(m, n, m[s]) then e == m[s] else e == To(n) && p.Differs(m, n, m[s])
  {
    var ids := p.g.requirements[n];
    var k :| 0 <= k < |ids| && ids[k] == s;
    if Merge(m, ids).Agreed? {
      MergeAgreed(m, ids);
      forall r | r in ids
        ensures m[r] == Null || m[r] == m[s]
      {
        var l :| 0 <= l < |ids| && ids[l] == r;
      }
    } else {
      MergeConflict(m, ids);
      var i, l :| 0 <= i < |ids| && 0 <= l < |ids| && m[ids[i]].To? && m[ids[l]].To? && m[ids[i]] != m[ids[l]];
      var q := if m[ids[i]] != m[s] then ids[i] else ids[l];
      assert q in ids && m[q].To? && m[q] != m[s];
    }
  }

  /** The entry of an old node on the stack is that of a head on the stack. */
  lemma {:induction false} HeadOf(p: Phase, m: ReqMap, st: Stack)
    requires p.Sized(m) && p.Chain(m, st) && st.Frame?
    ensures m[st.node].To? && m[st.node].n < |m| && HeadOn(m, st, m[st.node].n)
    decreases st
  {
    if m[st.node] != To(st.node) {
      HeadOf(p, m, st.below);
    }
  }

  lemma {:induction false} HeadIsOnStack(p: Phase, m: ReqMap, st: Stack, h: NodeId)
    requires p.Sized(m) && p.Chain(m, st) && h < |m| && HeadOn(m, st, h)
    ensures OnStack(st, h) && h in p.old_ && m[h] == To(h) && p.HoldersAgree(m, h)
    ensures FirstPrior(st).To? && p.g.Has(FirstPrior(st).n) && p.age[FirstPrior(st).n] < p.age[h]
    decreases st
  {
    if !(st.node == h && m[h] == To(h)) {
      HeadIsOnStack(p, m, st.below, h);
    }
  }

  /** What an old node on the stack had before was the lowest one's, or a node on the stack that
      was its own entry then. */
  lemma {:induction false} PriorOf(p: Phase, m: ReqMap, st: Stack)
    requires p.Sized(m) && p.Chain(m, st) && st.Frame?
    ensures st.prior == FirstPrior(st) || (st.prior.To? && OnStack(st, st.prior.n) && p.g.Has(st.prior.n)
                                      && st.prior.n in p.old_ && p.age[FirstPrior(st).n] < p.age[st.prior.n]
                                      && m[st.prior.n] != st.prior)
    decreases st
  {
    if st.prior != To(st.node) && st.below.Frame? {
      PriorOf(p, m, st.below);
    }
  }

  /** What a node on the stack had before is not the entry of a head on the stack. */
  lemma {:induction false} PriorNoHead(p: Phase, m: ReqMap, st: Stack, h: NodeId)
    requires p.Sized(m) && p.Chain(m, st) && st.Frame? && h < |m| && HeadOn(m, st, h)
    ensures st.prior != To(h)
  {
    PriorOf(p, m, st);
    HeadIsOnStack(p, m, st, h);
  }

  /** Visiting an old node on the stack again does not change it. */
  lemma {:induction false} StackStays(p: Phase, m: ReqMap, st: Stack, n: NodeId)
    requires p.Sized(m) && NoneKept(p.keep) && p.Chain(m, st) && OnStack(st, n) && n in p.old_
    ensures p.g.Has(n) && Evaluate(p.g, m, p.keep, n) == m[n]
    decreases st
  {
    if st.node != n {
      StackStays(p, m, st.below, n);
    } else {
      assert m[st.below.node].To? by {
        if st.below.Frame? {
          HeadOf(p, m, st.below);
        }
      }
      if m[n] != To(n) {
        HeadOf(p, m, st);
        HeadIsOnStack(p, m, st, m[n].n);
      }
      Evaluated(p, m, n, st.below.node);
    }
  }

  // ---------------------------------------------------------------- visiting an old node

  /** The topmost node is about to visit n, which will change. */
  ghost predicate Visits(p: Phase, m: ReqMap, st: Stack, n: NodeId) {
    && p.Wave(m, st) && n in p.old_ && p.g.Has(n) && p.g.Has(st.node) && Edge(p.g, n, st.node)
    && Evaluate(p.g, m, p.keep, n) != m[n]
  }

  lemma {:induction false} NotOnStack(p: Phase, m: ReqMap, st: Stack, n: NodeId)
    requires Visits(p, m, st, n)
    ensures !OnStack(st, n)
  {
    if OnStack(st, n) {
      StackStays(p, m, st, n);
    }
  }

  lemma {:induction false} TopValue(p: Phase, m: ReqMap, st: Stack)
    requires p.Wave(m, st)
    ensures p.g.Has(st.node) && m[st.node].To? && (st.Caller? ==> m[st.node] == To(p.b))
    ensures st.Frame? ==> m[st.node].n < |m| && HeadOn(m, st, m[st.node].n) && OnStack(st, m[st.node].n)
    ensures st.Frame? ==> m[st.node].n in p.old_ && p.HoldersAgree(m, m[st.node].n)
    ensures st.Frame? ==> p.age[FirstPrior(st).n] < p.age[m[st.node].n]
  {
    if st.Frame? {
      HeadOf(p, m, st);
      HeadIsOnStack(p, m, st, m[st.node].n);
    }
  }

  /** The new entry of n suits n: it is that of the topmost node, or n itself. */
  lemma {:induction false} NewEntry(p: Phase, m: ReqMap, st: Stack, n: NodeId)
    requires Visits(p, m, st, n)
    ensures
      var e := Evaluate(p.g, m, p.keep, n);
      && m[n].To? && m[st.node].To? && p.ValueOk(e, n) && e.To? && e.n in p.old_
      && if e == To(n) then p.Differs(m, n, m[st.node]) else st.Frame? && e == m[st.node] && p.Agree(m, n, e)
  {
    assert p.OldOk(n) && p.ValueOk(m[n], n);
    var r: NodeId :| p.OldReq(n, r);
    assert p.ValueOk(m[r], r);
    TopValue(p, m, st);
    NotOnStack(p, m, st, n);
    Evaluated(p, m, n, st.node);
    if p.Agree(m, n, m[st.node]) {
      assert m[r] == m[st.node];
    }
  }

  lemma {:induction false} WaitsOnStack(p: Phase, m: ReqMap, st: Stack, n: NodeId, r: NodeId, e: Entry)
    requires p.Sized(m) && p.Chain(m, st) && Waits(st, n, r, e)
    ensures OnStack(st, r) && (st.node == r ==> st.prior == e)
    ensures e == FirstPrior(st) || (e.To? && OnStack(st, e.n))
    decreases st
  {
    if st.node == r && st.prior == e && n in st.waiting {
      PriorOf(p, m, st);
    } else {
      WaitsOnStack(p, m, st.below, n, r, e);
    }
  }

  /** What n had before: the topmost node had the same before, unless n was its own entry. */
  lemma {:induction false} PriorStep(p: Phase, m: ReqMap, st: Stack, n: NodeId)
    requires Visits(p, m, st, n)
    ensures m[n] == To(n) ==> st.Frame?
    ensures st.Frame? && m[n] != To(n) ==> m[n] == st.prior
  {
    if st.Caller? {
      NewEntry(p, m, st, n);
    } else if m[n] != To(n) {
      assert p.Told(m, st, n, st.node);
      if m[st.node] == m[n] {
        TopValue(p, m, st);
        NotOnStack(p, m, st, n);
        NewEntry(p, m, st, n);
      } else {
        WaitsOnStack(p, m, st, n, st.node, m[n]);
      }
    }
  }

  /** n is younger than what the lowest old node had before. */
  lemma {:induction false} VisitedAge(p: Phase, m: ReqMap, st: Stack, n: NodeId)
    requires Visits(p, m, st, n)
    ensures
      var e := if st.Caller? then m[n] else FirstPrior(st);
      e.To? && p.g.Has(e.n) && p.age[e.n] < p.age[n]
  {
    assert p.ValueOk(m[n], n);
    PriorStep(p, m, st, n);
    if st.Frame? {
      if m[n] == To(n) {
        NewEntry(p, m, st, n);
        TopValue(p, m, st);
      } else {
        PriorOf(p, m, st);
      }
    }
  }

  /** When n becomes its own entry, no other node has the entry n. */
  lemma {:induction false} NoHolder(p: Phase, m: ReqMap, st: Stack, n: NodeId, x: NodeId)
    requires Visits(p, m, st, n) && m[n] != To(n) && x in p.old_ && x != n && p.g.Has(x)
    ensures m[x] != To(n)
    decreases p.age[x]
  {
    if m[x] == To(n) {
      assert p.ValueOk(m[x], x) && p.OldOk(x);
      var r: NodeId :| p.OldReq(x, r);
      assert p.OldOk(r) && p.Told(m, st, x, r);
      if m[r] == m[x] {
        NoHolder(p, m, st, n, r);
      } else {
        WaitsOnStack(p, m, st, x, r, m[x]);
        VisitedAge(p, m, st, n);
        NotOnStack(p, m, st, n);
      }
    }
  }

  // ---------------------------------------------------------------- changing it

  /** n is the next node the topmost one visits. */
  predicate Next(st: Stack, n: NodeId) {
    st.Frame? ==> st.waiting != [] && st.waiting[0] == n
  }

  function Popped(st: Stack): Stack
    requires st.Frame? ==> st.waiting != []
  {
    if st.Frame? then st.(waiting := st.waiting[1..]) else st
  }

  ghost function Pushed(p: Phase, m: ReqMap, st: Stack, n: NodeId): Stack
    requires Next(st, n) && p.Sized(m) && p.g.Has(n)
  {
    Frame(Popped(st), n, m[n], p.g.requiredBy[n])
  }

  lemma {:induction false} PartOnStack(sub: Stack, st: Stack, x: NodeId)
    requires PartOf(sub, st) && OnStack(sub, x)
    ensures OnStack(st, x)
    decreases st
  {
    if sub != st {
      PartOnStack(sub, st.below, x);
    }
  }

  lemma {:induction false} PartChain(p: Phase, m: ReqMap, sub: Stack, st: Stack)
    requires PartOf(sub, st) && p.Sized(m) && p.Chain(m, st)
    ensures p.Chain(m, sub)
    ensures sub.Frame? ==> PartOf(sub.below, st)
    ensures sub.Frame? && m[sub.node] == To(sub.node) ==> HeadOn(m, st, sub.node)
    decreases st
  {
    if sub != st {
      PartChain(p, m, sub, st.below);
    } else if st.Frame? {
      assert PartOf(st.below, st.below);
    }
  }

  /** The entry of the topmost node is that of no node below a head. */
  lemma {:induction false} TopNotBelow(p: Phase, m: ReqMap, st: Stack, sub: Stack)
    requires p.Sized(m) && p.Chain(m, st) && PartOf(sub, st) && sub.Frame? && p.g.Has(sub.node)
    requires m[sub.node] == To(sub.node)
    ensures m[st.node].To? && !OnStack(sub.below, m[st.node].n)
    decreases st
  {
    if m[st.node] != To(st.node) {
      TopNotBelow(p, m, st.below, sub);
    } else if sub != st && OnStack(sub.below, st.node) {
      PartChain(p, m, sub, st.below);
      PartOnStack(sub.below, st.below, st.node);
    }
  }

  /** The new entry of n is the one below no head. */
  lemma {:induction false} EntryFromAbove(p: Phase, m: ReqMap, st: Stack, n: NodeId, sub: Stack)
    requires Visits(p, m, st, n) && PartOf(sub, st) && sub.Frame? && p.g.Has(sub.node) && p.g.Has(sub.below.node)
    requires m[sub.node] == To(sub.node)
    ensures Evaluate(p.g, m, p.keep, n) != m[sub.below.node]
  {
    PartChain(p, m, sub, st);
    TopNotBelow(p, m, st, sub);
    if sub.below.Frame? {
      HeadOf(p, m, sub.below);
      HeadIsOnStack(p, m, sub.below, m[sub.below.node].n);
      PartOnStack(sub.below, st, m[sub.below.node].n);
      NotOnStack(p, m, st, n);
    }
    NewEntry(p, m, st, n);
  }

  lemma {:induction false} PriorIsNoHead(p: Phase, m: ReqMap, st: Stack, n: NodeId, h: NodeId)
    requires Visits(p, m, st, n) && h < |m| && HeadOn(m, st, h)
    ensures m[n] != To(h)
  {
    PriorStep(p, m, st, n);
    NotOnStack(p, m, st, n);
    HeadIsOnStack(p, m, st, h);
    PriorNoHead(p, m, st, h);
  }

  /** The holders of another head's entry still agree with what they require. */
  lemma {:induction false} HoldersStillAgree(p: Phase, m: ReqMap, n: NodeId, e: Entry, h: NodeId)
    requires p.Ok() && p.Sized(m) && p.g.Has(n) && p.HoldersAgree(m, h) && h != n
    requires m[n].To? && m[n] != To(h) && m[n] != e && (e == To(h) ==> p.Agree(m, n, e))
    ensures p.HoldersAgree(m[n := e], h)
  {
    var now := m[n := e];
    forall x | x in p.old_ && x != h && p.g.Has(x) && now[x] == To(h)
      ensures p.Agree(now, x, To(h))
    {
      assert p.Agree(m, x, To(h));
      assert n !in p.g.requirements[x];
    }
  }

  lemma {:induction false} StillDiffers(p: Phase, m: ReqMap, n: NodeId, e: Entry, x: NodeId, v: Entry)
    requires p.Sized(m) && p.g.Has(n) && p.g.Has(x) && p.Differs(m, x, v) && e.To? && e != v
    ensures p.Differs(m[n := e], x, v)
  {
    var q :| q in p.g.requirements[x] && m[q].To? && m[q] != v;
    assert m[n := e][q].To? && m[n := e][q] != v;
  }

  /** A node on the stack keeps its condition when another one changes. */
  lemma {:induction false} ChainStep(p: Phase, m: ReqMap, st: Stack, n: NodeId, e: Entry)
    requires p.Sized(m) && p.Chain(m, st) && !OnStack(st, n) && n < |m| && st.Frame?
    requires p.Chain(m[n := e], st.below)
    requires m[st.node] == To(st.node) ==>
               p.Differs(m[n := e], st.node, m[st.below.node]) && p.HoldersAgree(m[n := e], st.node)
    ensures p.Chain(m[n := e], st)
  {
  }

  /** The nodes on the stack keep their conditions when n changes. */
  lemma {:induction false} StillChain(p: Phase, m: ReqMap, st: Stack, n: NodeId, sub: Stack)
    requires Visits(p, m, st, n) && PartOf(sub, st)
    ensures p.Chain(m[n := Evaluate(p.g, m, p.keep, n)], sub)
    decreases sub
  {
    PartChain(p, m, sub, st);
    NotOnStack(p, m, st, n);
    if OnStack(sub, n) {
      PartOnStack(sub, st, n);
    } else if sub.Frame? {
      StillChain(p, m, st, n, sub.below);
      if m[sub.node] == To(sub.node) {
        StillHead(p, m, st, n, sub);
      }
      ChainStep(p, m, sub, n, Evaluate(p.g, m, p.keep, n));
    }
  }

  lemma {:induction false} StillHead(p: Phase, m: ReqMap, st: Stack, n: NodeId, sub: Stack)
    requires Visits(p, m, st, n) && PartOf(sub, st) && sub.Frame? && p.Chain(m, sub) && n != sub.node
    requires m[sub.node] == To(sub.node)
    ensures
      var now := m[n := Evaluate(p.g, m, p.keep, n)];
      p.Differs(now, sub.node, m[sub.below.node]) && p.HoldersAgree(now, sub.node)
  {
    var e := Evaluate(p.g, m, p.keep, n);
    PartChain(p, m, sub, st);
    PriorIsNoHead(p, m, st, n, sub.node);
    NewEntry(p, m, st, n);
    HoldersStillAgree(p, m, n, e, sub.node);
    EntryFromAbove(p, m, st, n, sub);
    StillDiffers(p, m, n, e, sub.node, m[sub.below.node]);
  }

  /** n itself joins the stack. */
  lemma {:induction false} NewChain(p: Phase, m: ReqMap, st: Stack, n: NodeId)
    requires Visits(p, m, st, n) && Next(st, n)
    ensures p.Chain(m[n := Evaluate(p.g, m, p.keep, n)], Pushed(p, m, st, n))
  {
    var e := Evaluate(p.g, m, p.keep, n);
    var now, s := m[n := e], st.node;
    StillChain(p, m, st, n, st);
    NewEntry(p, m, st, n);
    PriorStep(p, m, st, n);
    VisitedAge(p, m, st, n);
    NotOnStack(p, m, st, n);
    TopValue(p, m, st);
    if e == To(n) {
      forall x | x in p.old_ && x != n && p.g.Has(x)
        ensures now[x] != To(n)
      {
        NoHolder(p, m, st, n, x);
      }
      StillDiffers(p, m, n, e, n, m[s]);
    }
    assert p.Chain(now, Popped(st));
  }

  /** Whoever requires n is still to be visited; n agrees with all it requires. */
  lemma {:induction false} StillTold(p: Phase, m: ReqMap, st: Stack, n: NodeId, x: NodeId, r: NodeId)
    requires Visits(p, m, st, n) && Next(st, n) && x in p.old_ && r in p.old_ && Edge(p.g, x, r) && p.g.Has(r)
    ensures p.Told(m[n := Evaluate(p.g, m, p.keep, n)], Pushed(p, m, st, n), x, r)
  {
    var e := Evaluate(p.g, m, p.keep, n);
    assert p.Told(m, st, x, r) && p.ValueOk(m[r], r);
    if x == n {
      NewEntry(p, m, st, n);
    } else if m[x] != To(x) {
      NotOnStack(p, m, st, n);
      assert r == n ==> x in p.g.requiredBy[n] by {
        assert multiset(p.g.requirements[x])[r] == multiset(p.g.requiredBy[r])[x];
      }
      OtherTold(p, m, st, n, e, x, r);
    }
  }

  lemma {:induction false} OtherTold(p: Phase, m: ReqMap, st: Stack, n: NodeId, e: Entry, x: NodeId, r: NodeId)
    requires p.Sized(m) && p.Chain(m, st) && p.g.Has(n) && p.g.Has(x) && p.g.Has(r)
    requires p.Told(m, st, x, r) && !OnStack(st, n) && Next(st, n) && x != n && m[x] != To(x)
    requires r == n ==> x in p.g.requiredBy[n]
    ensures p.Told(m[n := e], Pushed(p, m, st, n), x, r)
  {
    if m[r] != m[x] {
      WaitsOnStack(p, m, st, x, r, m[x]);
    }
  }

  lemma {:induction false} Push(p: Phase, m: ReqMap, st: Stack, n: NodeId)
    requires Visits(p, m, st, n) && Next(st, n)
    ensures p.Wave(m[n := Evaluate(p.g, m, p.keep, n)], Pushed(p, m, st, n))
  {
    var now, top := m[n := Evaluate(p.g, m, p.keep, n)], Pushed(p, m, st, n);
    NewEntry(p, m, st, n);
    NewChain(p, m, st, n);
    forall x: NodeId, r: NodeId | x in p.old_ && r in p.old_ && Edge(p.g, x, r)
      ensures p.Told(now, top, x, r)
    {
      assert p.OldOk(r);
      StillTold(p, m, st, n, x, r);
    }
    forall x | 0 <= x < |m|
      ensures p.ValueOk(now[x], x)
    {
      assert p.ValueOk(m[x], x);
    }
  }

  /** A visit without a change. */
  lemma {:induction false} Unchanging(p: Phase, m: ReqMap, st: Stack, n: NodeId)
    requires p.Wave(m, st) && Next(st, n) && n in p.old_ && p.g.Has(n) && p.g.Has(st.node)
    requires Edge(p.g, n, st.node) && Evaluate(p.g, m, p.keep, n) == m[n]
    ensures p.Wave(m, Popped(st))
  {
    TopValue(p, m, st);
    Evaluated(p, m, n, st.node);
    assert p.Chain(m, Popped(st));
    forall x: NodeId, r: NodeId | x in p.old_ && r in p.old_ && Edge(p.g, x, r)
      ensures p.Told(m, Popped(st), x, r)
    {
      assert p.OldOk(r) && p.ValueOk(m[r], r);
      assert p.Told(m, st, x, r);
    }
  }

  /** When all nodes that require the topmost one have been visited, it leaves the stack. */
  lemma {:induction false} Leave(p: Phase, m: ReqMap, st: Stack)
    requires p.Wave(m, st) && st.Frame? && st.waiting == []
    ensures p.Wave(m, st.below)
  {
    forall x: NodeId, r: NodeId | x in p.old_ && r in p.old_ && Edge(p.g, x, r)
      ensures p.Told(m, st.below, x, r)
    {
      assert p.OldOk(r);
      assert p.Told(m, st, x, r);
    }
  }

  // ---------------------------------------------------------------- the depth of the recursion

  /** The old nodes on the stack. */
  function Visited(st: Stack): seq<NodeId> {
    if st.Caller? then [] else Visited(st.below) + [st.node]
  }

  lemma {:induction false} VisitedDistinct(p: Phase, m: ReqMap, st: Stack)
    requires p.Sized(m) && p.Chain(m, st)
    ensures Distinct(Visited(st)) && forall x :: x in Visited(st) ==> p.g.Has(x) && x in p.old_ && OnStack(st, x)
    decreases st
  {
    if st.Frame? {
      VisitedDistinct(p, m, st.below);
      assert st.node !in Visited(st.below);
    }
  }

  /** The stack holds each node at most once: the new ones in active, then the old ones. */
  lemma {:induction false} StackFits(p: Phase, m: ReqMap, st: Stack, active: set<NodeId>)
    requires p.Sized(m) && p.Chain(m, st) && forall x :: x in active ==> p.g.Has(x) && x !in p.old_
    ensures |active| + |Visited(st)| <= |p.g.target|
  {
    VisitedDistinct(p, m, st);
    DistinctSize(Visited(st));
    SetFits(p.g, active + Ids(Visited(st)));
    assert active !! Ids(Visited(st));
  }

  /** The new nodes keep their entries. */
  ghost predicate NewKept(p: Phase, m: ReqMap, now: ReqMap) {
    |now| == |m| && forall x :: 0 <= x < |m| && x !in p.old_ ==> now[x] == m[x]
  }

  /** Visiting an old node ends, and leaves only what still waits to be visited. */
  lemma {:induction false} WaveEnds(p: Phase, m: ReqMap, st: Stack, n: NodeId, fuel: nat, active: set<NodeId>)
    requires p.Wave(m, st) && Next(st, n) && n in p.old_ && p.g.Has(n) && p.g.Has(st.node) && Edge(p.g, n, st.node)
    requires forall x :: x in active ==> p.g.Has(x) && x !in p.old_
    requires |p.g.target| < fuel + |active| + |Visited(st)|
    ensures Update(p.g, p.keep, m, n, fuel).Some?
    ensures
      var now := Update(p.g, p.keep, m, n, fuel).value;
      p.Wave(now, Popped(st)) && NewKept(p, m, now)
    decreases fuel, 0
  {
    StackFits(p, m, st, active);
    if Evaluate(p.g, m, p.keep, n) == m[n] {
      Unchanging(p, m, st, n);
    } else {
      var now := ChangeEnds(p, m, st, n, fuel, active);
    }
  }

  lemma {:induction false} ChangeEnds(p: Phase, m: ReqMap, st: Stack, n: NodeId, fuel: nat, active: set<NodeId>)
    returns (now: ReqMap)
    requires Visits(p, m, st, n) && Next(st, n)
    requires forall x :: x in active ==> p.g.Has(x) && x !in p.old_
    requires fuel > 0 && |p.g.target| < fuel + |active| + |Visited(st)|
    ensures UpdateAll(p.g, p.keep, m[n := Evaluate(p.g, m, p.keep, n)], p.g.requiredBy[n], fuel - 1) == Some(now)
    ensures p.Wave(now, Popped(st)) && NewKept(p, m, now)
    decreases fuel - 1, |p.g.requiredBy[n]| + 2
  {
    var mid, top := m[n := Evaluate(p.g, m, p.keep, n)], Pushed(p, m, st, n);
    assert top.below == Popped(st) && top.waiting == p.g.requiredBy[n];
    PushedVisited(p, m, st, n);
    Push(p, m, st, n);
    RequiringEdges(p.g, n);
    WaveAllEnds(p, mid, top, fuel - 1, active);
    now := UpdateAll(p.g, p.keep, mid, top.waiting, fuel - 1).value;
  }

  lemma {:induction false} PushedVisited(p: Phase, m: ReqMap, st: Stack, n: NodeId)
    requires Next(st, n) && p.Sized(m) && p.g.Has(n)
    ensures |Visited(Pushed(p, m, st, n))| == |Visited(st)| + 1
  {
  }

  lemma {:induction false} WaveAllEnds(p: Phase, m: ReqMap, st: Stack, fuel: nat, active: set<NodeId>)
    requires p.Wave(m, st) && st.Frame? && p.g.Has(st.node)
    requires forall k :: 0 <= k < |st.waiting| ==> p.g.Has(st.waiting[k]) && Edge(p.g, st.waiting[k], st.node)
    requires forall x :: x in active ==> p.g.Has(x) && x !in p.old_
    requires |p.g.target| < fuel + |active| + |Visited(st)|
    ensures UpdateAll(p.g, p.keep, m, st.waiting, fuel).Some?
    ensures
      var now := UpdateAll(p.g, p.keep, m, st.waiting, fuel).value;
      p.Wave(now, st.below) && NewKept(p, m, now)
    decreases fuel, |st.waiting| + 1
  {
    if st.waiting == [] {
      Leave(p, m, st);
    } else {
      assert Edge(p.g, st.waiting[0], st.node);
      WaveEnds(p, m, st, st.waiting[0], fuel, active);
      WaveAllEnds(p, Update(p.g, p.keep, m, st.waiting[0], fuel).value, Popped(st), fuel, active);
    }
  }

  // ---------------------------------------------------------------- the new nodes

  /** Entries come along requirements: each node with an entry requires an older one with one. */
  ghost predicate Born(g: Nodes, m: ReqMap, age: seq<nat>) {
    && Shaped(g) && |m| == |age| == |g.target|
    && forall n {:trigger BornOk(g, m, age, n)} :: 0 <= n < |m| && m[n].To? ==> BornOk(g, m, age, n)
  }

  ghost predicate BornOk(g: Nodes, m: ReqMap, age: seq<nat>, n: NodeId)
    requires Shaped(g) && |m| == |age| == |g.target| && g.Has(n)
  {
    g.requirements[n] == [] || exists r: NodeId :: OlderReq(g, m, age, n, r)
  }

  ghost predicate OlderReq(g: Nodes, m: ReqMap, age: seq<nat>, n: NodeId, r: NodeId)
    requires Shaped(g) && |m| == |age| == |g.target| && g.Has(n)
  {
    r in g.requirements[n] && m[r].To? && age[r] < age[n]
  }

  lemma {:induction false} BornKept(g: Nodes, m: ReqMap, now: ReqMap, age: seq<nat>)
    requires Born(g, m, age) && |now| == |m|
    requires forall n :: 0 <= n < |m| ==> (now[n].To? <==> m[n].To?)
    ensures Born(g, now, age)
  {
    forall n | 0 <= n < |m| && now[n].To?
      ensures BornOk(g, now, age, n)
    {
      assert BornOk(g, m, age, n);
      if r: NodeId :| OlderReq(g, m, age, n, r) {
        assert OlderReq(g, now, age, n, r);
      }
    }
  }

  lemma {:induction false} BornNew(g: Nodes, m: ReqMap, n: NodeId, e: Entry, s: NodeId, age: seq<nat>)
    requires Born(g, m, age) && g.Has(n) && g.Has(s) && m[n] == Null && e.To?
    requires Root(g, n) || (Edge(g, n, s) && m[s].To?)
    ensures Born(g, m[n := e], age[n := age[s] + 1])
  {
    var now, later := m[n := e], age[n := age[s] + 1];
    forall x | 0 <= x < |m| && now[x].To?
      ensures BornOk(g, now, later, x)
    {
      if x != n {
        assert BornOk(g, m, age, x);
        if r: NodeId :| OlderReq(g, m, age, x, r) {
          assert OlderReq(g, now, later, x, r);
        }
      } else if !Root(g, n) {
        assert OlderReq(g, now, later, n, s);
      }
    }
  }

  /** The active nodes have got the entry b. */
  ghost predicate Active(p: Phase, m: ReqMap, active: set<NodeId>)
    requires p.Sized(m)
  {
    forall x :: x in active ==> p.g.Has(x) && x !in p.old_ && m[x] == To(p.b)
  }

  /** New nodes that have an entry keep it. */
  ghost predicate EntriesKept(p: Phase, m: ReqMap, now: ReqMap) {
    |now| == |m| && forall x :: 0 <= x < |m| && x !in p.old_ && m[x].To? ==> now[x] == m[x]
  }

  lemma {:induction false} NewNodeEntry(p: Phase, m: ReqMap, n: NodeId, s: NodeId)
    requires p.Calm(m, Caller(p.b)) && p.g.Has(n) && n !in p.old_
    requires n == p.b || (Edge(p.g, n, s) && m[s] == To(p.b))
    ensures Evaluate(p.g, m, p.keep, n) == To(p.b)
  {
    if n != p.b {
      Evaluated(p, m, n, s);
      forall r | r in p.g.requirements[n]
        ensures m[r] == Null || m[r] == m[s]
      {
        assert Edge(p.g, n, r) && p.ValueOk(m[r], r);
      }
    }
  }

  lemma {:induction false} SetNew(p: Phase, m: ReqMap, n: NodeId)
    requires p.Calm(m, Caller(p.b)) && p.g.Has(n) && n !in p.old_
    ensures p.Calm(m[n := To(p.b)], Caller(p.b))
  {
    var now := m[n := To(p.b)];
    forall x: NodeId, r: NodeId | x in p.old_ && r in p.old_ && Edge(p.g, x, r)
      ensures p.Told(now, Caller(p.b), x, r)
    {
      assert p.OldOk(r) && p.Told(m, Caller(p.b), x, r);
    }
    forall x | 0 <= x < |m|
      ensures p.ValueOk(now[x], x)
    {
      assert p.ValueOk(m[x], x);
    }
  }

  lemma {:induction false} Activate(p: Phase, m: ReqMap, n: NodeId, active: set<NodeId>)
    requires p.Sized(m) && Active(p, m, active) && p.g.Has(n) && n !in p.old_ && m[n] == Null
    ensures Active(p, m[n := To(p.b)], active + {n}) && |active + {n}| == |active| + 1
  {
    assert n !in active;
  }

  /** Visiting an old node from the new node s. */
  lemma {:induction false} OldEnds(p: Phase, m: ReqMap, n: NodeId, s: NodeId, fuel: nat, active: set<NodeId>,
                                   age: seq<nat>)
    requires p.Calm(m, Caller(p.b)) && Born(p.g, m, age) && Active(p, m, active)
    requires n in p.old_ && p.g.Has(n) && s in active && Edge(p.g, n, s) && |p.g.target| < fuel + |active|
    ensures Update(p.g, p.keep, m, n, fuel).Some?
    ensures
      var now := Update(p.g, p.keep, m, n, fuel).value;
      p.Calm(now, Caller(p.b)) && Born(p.g, now, age) && EntriesKept(p, m, now)
  {
    assert p.Wave(m, Caller(s)) by {
      CalmAnywhere(p, m, p.b, s);
    }
    WaveEnds(p, m, Caller(s), n, fuel, active);
    var now := Update(p.g, p.keep, m, n, fuel).value;
    CalmAnywhere(p, now, s, p.b);
    forall x | 0 <= x < |m|
      ensures now[x].To? <==> m[x].To?
    {
      assert p.ValueOk(now[x], x) && p.ValueOk(m[x], x);
    }
    BornKept(p.g, m, now, age);
  }

  lemma {:induction false} CalmAnywhere(p: Phase, m: ReqMap, s: NodeId, r: NodeId)
    requires p.Calm(m, Caller(s))
    ensures p.Calm(m, Caller(r))
  {
    forall x: NodeId, y: NodeId | x in p.old_ && y in p.old_ && Edge(p.g, x, y)
      ensures p.Told(m, Caller(r), x, y)
    {
      assert p.OldOk(y) && p.Told(m, Caller(s), x, y);
    }
  }

  /** Visiting n from the new node s, or b first of all. */
  lemma {:induction false} SpreadEnds(p: Phase, m: ReqMap, n: NodeId, s: NodeId, fuel: nat, active: set<NodeId>,
                                      age: seq<nat>)
    returns (later: seq<nat>)
    requires p.Calm(m, Caller(p.b)) && Born(p.g, m, age) && Active(p, m, active) && p.g.Has(n) && p.g.Has(s)
    requires n == p.b || (s in active && Edge(p.g, n, s))
    requires |p.g.target| < fuel + |active|
    ensures Update(p.g, p.keep, m, n, fuel).Some?
    ensures
      var now := Update(p.g, p.keep, m, n, fuel).value;
      p.Calm(now, Caller(p.b)) && Born(p.g, now, later) && EntriesKept(p, m, now)
    decreases fuel, 0
  {
    later := age;
    SetFits(p.g, active);
    if n in p.old_ {
      OldEnds(p, m, n, s, fuel, active, age);
    } else {
      NewNodeEntry(p, m, n, s);
      assert p.ValueOk(m[n], n);
      if m[n] == Null {
        later := NewEnds(p, m, n, s, fuel, active, age);
      }
    }
  }

  /** Visiting a new node for the first time. */
  lemma {:induction false} NewEnds(p: Phase, m: ReqMap, n: NodeId, s: NodeId, fuel: nat, active: set<NodeId>,
                                   age: seq<nat>)
    returns (later: seq<nat>)
    requires p.Calm(m, Caller(p.b)) && Born(p.g, m, age) && Active(p, m, active) && p.g.Has(n) && p.g.Has(s)
    requires n == p.b || (s in active && Edge(p.g, n, s))
    requires n !in p.old_ && m[n] == Null && fuel > 0 && |p.g.target| < fuel + |active|
    ensures UpdateAll(p.g, p.keep, m[n := To(p.b)], p.g.requiredBy[n], fuel - 1).Some?
    ensures
      var now := UpdateAll(p.g, p.keep, m[n := To(p.b)], p.g.requiredBy[n], fuel - 1).value;
      p.Calm(now, Caller(p.b)) && Born(p.g, now, later) && EntriesKept(p, m, now)
    decreases fuel - 1, |p.g.requiredBy[n]| + 2
  {
    SetNew(p, m, n);
    BornNew(p.g, m, n, To(p.b), s, age);
    RequiringEdges(p.g, n);
    Activate(p, m, n, active);
    later := SpreadAllEnds(p, m[n := To(p.b)], p.g.requiredBy[n], n, fuel - 1, active + {n}, age[n := age[s] + 1]);
  }

  lemma {:induction false} SpreadAllEnds(p: Phase, m: ReqMap, ids: seq<NodeId>, s: NodeId, fuel: nat,
                                         active: set<NodeId>, age: seq<nat>)
    returns (later: seq<nat>)
    requires p.Calm(m, Caller(p.b)) && Born(p.g, m, age) && Active(p, m, active) && s in active && p.g.Has(s)
    requires forall k :: 0 <= k < |ids| ==> p.g.Has(ids[k]) && Edge(p.g, ids[k], s)
    requires |p.g.target| < fuel + |active|
    ensures UpdateAll(p.g, p.keep, m, ids, fuel).Some?
    ensures
      var now := UpdateAll(p.g, p.keep, m, ids, fuel).value;
      p.Calm(now, Caller(p.b)) && Born(p.g, now, later) && EntriesKept(p, m, now)
    decreases fuel, |ids| + 1
  {
    later := age;
    if ids != [] {
      assert Edge(p.g, ids[0], s);
      later := SpreadEnds(p, m, ids[0], s, fuel, active, age);
      later := SpreadAllEnds(p, Update(p.g, p.keep, m, ids[0], fuel).value, ids[1..], s, fuel, active, later);
    }
  }

  // ---------------------------------------------------------------- a whole root

  /** Between roots: the entry of a node is itself or an older one. */
  lemma {:induction false} EntryIsOlder(g: Nodes, keep: seq<bool>, m: ReqMap, age: seq<nat>, n: NodeId)
    requires Settled(g, keep, m, {}) && NoneKept(keep) && Born(g, m, age) && g.Has(n) && m[n].To?
    ensures m[n] == To(n) || (g.requirements[n] != [] && g.Has(m[n].n) && m[m[n].n].To? && age[m[n].n] < age[n])
    decreases age[n]
  {
    assert Consistent(g, m, keep, n) && BornOk(g, m, age, n);
    if g.requirements[n] != [] {
      var r: NodeId :| OlderReq(g, m, age, n, r);
      Evaluated(Phase.Phase(g, keep, {}, age, 0), m, n, r);
      if m[n] != To(n) {
        EntryIsOlder(g, keep, m, age, r);
      }
    }
  }

  /** Between roots: a node agrees with what it requires, or is its own entry. */
  lemma {:induction false} SettledEdge(g: Nodes, keep: seq<bool>, m: ReqMap, age: seq<nat>, n: NodeId, r: NodeId)
    requires Settled(g, keep, m, {}) && NoneKept(keep) && |age| == |m| && Edge(g, n, r) && m[r].To?
    ensures m[n].To? && (m[n] == To(n) || m[n] == m[r])
  {
    assert Consistent(g, m, keep, n);
    Evaluated(Phase.Phase(g, keep, {}, age, 0), m, n, r);
    var k :| 0 <= k < |g.requirements[n]| && g.requirements[n][k] == r;
  }

  lemma {:induction false} PhaseBegins(g: Nodes, keep: seq<bool>, m: ReqMap, b: NodeId, age: seq<nat>)
    returns (p: Phase)
    requires Settled(g, keep, m, {}) && NoneKept(keep) && Born(g, m, age) && Root(g, b) && m[b] == Null
    ensures p.g == g && p.keep == keep && p.b == b && p.Calm(m, Caller(b))
  {
    var old_ := set n: NodeId | 0 <= n < |m| && m[n].To?;
    p := Phase.Phase(g, keep, old_, age, b);
    forall n | n in old_
      ensures p.OldOk(n)
    {
      assert BornOk(g, m, age, n);
      if r: NodeId :| OlderReq(g, m, age, n, r) {
        assert p.OldReq(n, r);
      }
    }
    forall n: NodeId, r: NodeId | Edge(g, n, r) && r in old_
      ensures n in old_ && p.Told(m, Caller(b), n, r)
    {
      SettledEdge(g, keep, m, age, n, r);
    }
    forall n | 0 <= n < |m|
      ensures p.ValueOk(m[n], n)
    {
      if m[n].To? {
        EntryIsOlder(g, keep, m, age, n);
      }
    }
  }

  /** On any graph without kept nodes, the recursion that starts at a root is no deeper than the
      graph has nodes. */
  lemma {:induction false} RootUpdates(g: Nodes, keep: seq<bool>, m: ReqMap, b: NodeId, fuel: nat, age: seq<nat>)
    returns (later: seq<nat>)
    requires Settled(g, keep, m, {}) && NoneKept(keep) && Born(g, m, age) && Root(g, b) && |g.target| < fuel
    ensures Update(g, keep, m, b, fuel).Some? && Born(g, Update(g, keep, m, b, fuel).value, later)
  {
    assert Consistent(g, m, keep, b);
    if m[b] == Null {
      var p := PhaseBegins(g, keep, m, b, age);
      later := SpreadEnds(p, m, b, b, fuel, {}, age);
    } else {
      later := age;
    }
  }
}

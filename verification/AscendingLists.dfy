/** Ascending lists of numbers, such as the indices of the pointers of a value. */
module AscendingLists {

  ghost predicate Ordered(js: seq<nat>, a: nat, b: nat)
    requires a < b < |js|
  {
    js[a] < js[b]
  }

  ghost predicate Ascending(js: seq<nat>) {
    forall a: nat, b: nat {:trigger Ordered(js, a, b)} :: a < b < |js| ==> Ordered(js, a, b)
  }

  lemma {:induction false} AscendingDistinct(js: seq<nat>, a: nat, b: nat)
    requires Ascending(js) && a < |js| && b < |js| && js[a] == js[b]
    ensures a == b
  {
    assert a < b ==> Ordered(js, a, b);
    assert b < a ==> Ordered(js, b, a);
  }

  lemma {:induction false} AscendingMore(js: seq<nat>, x: nat)
    requires Ascending(js) && (|js| > 0 ==> js[|js| - 1] < x)
    ensures Ascending(js + [x])
  {
    forall a: nat, b: nat {:trigger Ordered(js + [x], a, b)} | a < b < |js + [x]|
      ensures Ordered(js + [x], a, b)
    {
      if b < |js| {
        assert Ordered(js, a, b);
      } else if a < |js| - 1 {
        assert Ordered(js, a, |js| - 1);
      }
    }
  }
}

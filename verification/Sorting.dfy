/** Sorting by an order, as the library's sort does it: equal elements keep their order. */
module Sorting {

  /** Any two elements compare, and the comparison carries over. */
  ghost predicate TotalOrder<T(!new)>(atMost: (T, T) -> bool) {
    && (forall x, y :: atMost(x, y) || atMost(y, x))
    && forall x, y, z :: atMost(x, y) && atMost(y, z) ==> atMost(x, z)
  }

  ghost predicate Ordered<T>(atMost: (T, T) -> bool, s: seq<T>) {
    forall i, j | 0 <= i < j < |s| :: atMost(s[i], s[j])
  }

  function Insert<T>(atMost: (T, T) -> bool, s: seq<T>, x: T): seq<T> {
    if s == [] || atMost(s[|s| - 1], x) then s + [x] else Insert(atMost, s[..|s| - 1], x) + [s[|s| - 1]]
  }

  function Sort<T>(atMost: (T, T) -> bool, s: seq<T>): seq<T> {
    if s == [] then [] else Insert(atMost, Sort(atMost, s[..|s| - 1]), s[|s| - 1])
  }

  lemma {:induction false} InsertAdds<T>(atMost: (T, T) -> bool, s: seq<T>, x: T)
    ensures multiset(Insert(atMost, s, x)) == multiset(s) + multiset{x}
  {
    if s != [] {
      InsertAdds(atMost, s[..|s| - 1], x);
      assert s == s[..|s| - 1] + [s[|s| - 1]];
    }
  }

  lemma InsertedAreBelow<T(!new)>(atMost: (T, T) -> bool, s: seq<T>, x: T, high: T)
    requires atMost(x, high) && forall i | 0 <= i < |s| :: atMost(s[i], high)
    ensures forall i | 0 <= i < |Insert(atMost, s, x)| :: atMost(Insert(atMost, s, x)[i], high)
  {
    InsertAdds(atMost, s, x);
    var r := Insert(atMost, s, x);
    forall i | 0 <= i < |r| ensures atMost(r[i], high) {
      assert r[i] in multiset(r);
      assert r[i] in s || r[i] == x;
    }
  }

  lemma AppendHighest<T>(atMost: (T, T) -> bool, s: seq<T>, x: T)
    requires Ordered(atMost, s) && forall i | 0 <= i < |s| :: atMost(s[i], x)
    ensures Ordered(atMost, s + [x])
  {}

  lemma {:induction false} InsertKeepsOrder<T(!new)>(atMost: (T, T) -> bool, s: seq<T>, x: T)
    requires TotalOrder(atMost) && Ordered(atMost, s)
    ensures Ordered(atMost, Insert(atMost, s, x))
  {
    if s == [] {
      AppendHighest(atMost, s, x);
    } else if atMost(s[|s| - 1], x) {
      AppendHighest(atMost, s, x);
    } else {
      var before, last := s[..|s| - 1], s[|s| - 1];
      InsertKeepsOrder(atMost, before, x);
      InsertedAreBelow(atMost, before, x, last);
      AppendHighest(atMost, Insert(atMost, before, x), last);
    }
  }

  /** Sorting orders the elements and neither adds nor loses any. */
  lemma {:induction false} SortSorts<T(!new)>(atMost: (T, T) -> bool, s: seq<T>)
    requires TotalOrder(atMost)
    ensures multiset(Sort(atMost, s)) == multiset(s) && |Sort(atMost, s)| == |s|
    ensures Ordered(atMost, Sort(atMost, s))
  {
    hide TotalOrder;
    if s != [] {
      var before := Sort(atMost, s[..|s| - 1]);
      SortSorts(atMost, s[..|s| - 1]);
      InsertAdds(atMost, before, s[|s| - 1]);
      InsertKeepsOrder(atMost, before, s[|s| - 1]);
      assert s == s[..|s| - 1] + [s[|s| - 1]];
    }
    assert |multiset(Sort(atMost, s))| == |multiset(s)|;
  }

  /** The sorted list has the same elements. */
  lemma SortHas<T(!new)>(atMost: (T, T) -> bool, s: seq<T>, x: T)
    requires TotalOrder(atMost)
    ensures x in Sort(atMost, s) <==> x in s
  {
    SortSorts(atMost, s);
    assert x in Sort(atMost, s) <==> x in multiset(Sort(atMost, s));
    assert x in s <==> x in multiset(s);
  }
}

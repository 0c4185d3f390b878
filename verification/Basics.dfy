/** Sequence vocabulary shared by the other modules. */
module Basics {

  datatype Option<+T> = None | Some(value: T)

  datatype Result<+T, +E> = Ok(value: T) | Err(error: E)

  function Min(a: int, b: int): int {
    if a < b then a else b
  }

  function Max(a: int, b: int): int {
    if a > b then a else b
  }

  lemma MinAndMax(a: int, b: int)
    ensures Min(a, b) <= a <= Max(a, b) && Min(a, b) <= b <= Max(a, b)
    ensures Min(a, b) + Max(a, b) == a + b
  {
  }

  function Sum(s: seq<nat>): nat {
    if s == [] then 0 else s[0] + Sum(s[1..])
  }

  lemma {:induction false} SumAppend(a: seq<nat>, b: seq<nat>)
    ensures Sum(a + b) == Sum(a) + Sum(b)
    ensures |a| == 1 ==> Sum(a) == a[0]
  {
    if a == [] {
      assert a + b == b;
    } else {
      SumAppend(a[1..], b);
      assert (a + b)[1..] == a[1..] + b;
    }
  }

  function Concat<T>(ss: seq<seq<T>>): seq<T> {
    if ss == [] then [] else ss[0] + Concat(ss[1..])
  }

  lemma {:induction false} ConcatAppend<T>(a: seq<seq<T>>, b: seq<seq<T>>)
    ensures Concat(a + b) == Concat(a) + Concat(b)
  {
    if a == [] {
      assert a + b == b;
    } else {
      assert (a + b)[0] == a[0] && (a + b)[1..] == a[1..] + b;
      ConcatAppend(a[1..], b);
      assert a[0] + (Concat(a[1..]) + Concat(b)) == (a[0] + Concat(a[1..])) + Concat(b);
    }
  }

  lemma ConcatSnoc<T>(a: seq<seq<T>>, x: seq<T>)
    ensures Concat(a + [x]) == Concat(a) + x
  {
    ConcatAppend(a, [x]);
    assert Concat([x]) == x + Concat([x][1..]);
  }

  function Elements<T>(s: seq<T>): set<T> {
    if s == [] then {} else Elements(s[..|s| - 1]) + {s[|s| - 1]}
  }

  lemma {:induction false} ElementsHas<T>(s: seq<T>, x: T)
    ensures x in Elements(s) <==> x in s
  {
    if s != [] {
      ElementsHas(s[..|s| - 1], x);
      assert s == s[..|s| - 1] + [s[|s| - 1]];
    }
  }

  lemma Halves<T>(s: seq<T>, n: nat)
    requires n <= |s|
    ensures s == s[..n] + s[n..]
  {
  }

  /** s with the element at i taken out. */
  function Without<T>(s: seq<T>, i: nat): (r: seq<T>)
    requires i < |s|
    ensures |r| == |s| - 1
  {
    s[..i] + s[i + 1..]
  }

  lemma WithoutUpdate<T>(s: seq<T>, i: nat, x: T)
    requires i < |s|
    ensures Without(s[i := x], i) == Without(s, i)
  {
  }

  lemma WithoutInSecond<T>(a: seq<T>, b: seq<T>, i: nat)
    requires i < |b|
    ensures Without(a + b, |a| + i) == a + Without(b, i)
  {
  }

  lemma WithoutBefore<T>(s: seq<T>, i: nat, n: nat)
    requires i < |s| && n < |s| - 1
    ensures Without(s, i)[n] == s[if n < i then n else n + 1]
  {
  }

  lemma WithoutKeeps<T>(s: seq<T>, i: nat, x: T)
    requires i < |s| && x in s && x != s[i]
    ensures x in Without(s, i)
  {
    var n :| 0 <= n < |s| && s[n] == x;
    assert Without(s, i)[if n < i then n else n - 1] == x;
  }

  lemma InWithout<T>(s: seq<T>, i: nat, x: T)
    requires i < |s| && x in Without(s, i) && forall n | 0 <= n < |s| && n != i :: s[n] != s[i]
    ensures x in s && x != s[i]
  {
    var n :| 0 <= n < |s| - 1 && Without(s, i)[n] == x;
    WithoutBefore(s, i, n);
  }

  lemma WithoutHas<T>(s: seq<T>, i: nat, x: T)
    requires i < |s| && forall n | 0 <= n < |s| && n != i :: s[n] != s[i]
    ensures x in Without(s, i) <==> x in s && x != s[i]
  {
    hide Without;
    if x in Without(s, i) {
      InWithout(s, i, x);
    }
    if x in s && x != s[i] {
      WithoutKeeps(s, i, x);
    }
  }

  /** Of distinct elements, exactly the one taken out is missing. */
  lemma ElementsWithout<T(!new)>(s: seq<T>, i: nat)
    requires i < |s| && forall n | 0 <= n < |s| && n != i :: s[n] != s[i]
    ensures Elements(Without(s, i)) == Elements(s) - {s[i]}
  {
    hide Elements, Without;
    var left, right := Elements(Without(s, i)), Elements(s) - {s[i]};
    forall x ensures x in left <==> x in right {
      ElementsHas(s, x);
      ElementsHas(Without(s, i), x);
      WithoutHas(s, i, x);
    }
    assert left == right;
  }

  /** a is b with some elements left out, the others in the same order. */
  ghost predicate Subsequence<T>(a: seq<T>, b: seq<T>) {
    if a == [] then true
    else if b == [] then false
    else (a[0] == b[0] && Subsequence(a[1..], b[1..])) || Subsequence(a, b[1..])
  }

  lemma {:induction false} SubsequenceRefl<T>(a: seq<T>)
    ensures Subsequence(a, a)
  {
    if a != [] {
      SubsequenceRefl(a[1..]);
    }
  }

  lemma {:induction false} SubsequenceOfTail<T>(a: seq<T>, b: seq<T>, x: T)
    requires Subsequence(a, b)
    ensures Subsequence(a, [x] + b)
  {
    assert ([x] + b)[1..] == b;
  }

  lemma {:induction false} WithoutIsSubsequence<T>(s: seq<T>, i: nat)
    requires i < |s|
    ensures Subsequence(Without(s, i), s)
  {
    if i == 0 {
      SubsequenceRefl(s[1..]);
      SubsequenceOfTail(s[1..], s[1..], s[0]);
      assert Without(s, 0) == s[1..] && s == [s[0]] + s[1..];
    } else {
      WithoutIsSubsequence(s[1..], i - 1);
      assert Without(s, i)[1..] == Without(s[1..], i - 1);
    }
  }
}

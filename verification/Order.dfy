/**
 Sorting by a comparison that is a strict total order on the elements at hand:
 the sorted arrangement is unique, and its prefixes hold the least elements.
 */
module Order {
  /** `less` is a strict total order on the elements of `s`. */
  ghost predicate TotalOn<T(!new)>(less: (T, T) -> bool, s: set<T>) {
    && (forall x :: x in s ==> !less(x, x))
    && (forall x, y :: x in s && y in s && x != y ==> less(x, y) || less(y, x))
    && (forall x, y, z {:trigger less(x, y), less(y, z)} :: x in s && y in s && z in s && less(x, y) && less(y, z) ==> less(x, z))
  }

  ghost predicate Sorted<T>(less: (T, T) -> bool, xs: seq<T>) {
    forall i, j :: 0 <= i < j < |xs| ==> less(xs[i], xs[j])
  }

  ghost function Elems<T>(xs: seq<T>): set<T> {
    set x | x in xs
  }

  lemma TotalOnSubset<T(!new)>(less: (T, T) -> bool, s: set<T>, t: set<T>)
    requires TotalOn(less, s) && t <= s
    ensures TotalOn(less, t)
  {
  }

  lemma {:induction false} LeastExists<T(!new)>(less: (T, T) -> bool, s: set<T>) returns (m: T)
    requires TotalOn(less, s) && s != {}
    ensures m in s && forall y :: y in s && y != m ==> less(m, y)
  {
    m :| m in s;
    if s != {m} {
      var x := m;
      TotalOnSubset(less, s, s - {x});
      m := LeastExists(less, s - {x});
      if less(x, m) {
        forall y | y in s && y != x ensures less(x, y) {
          assert y != m ==> less(m, y);
        }
        m := x;
      } else {
        forall y | y in s && y != m ensures less(m, y) {
          assert y == x || y in s - {x};
        }
      }
    }
  }

  ghost function Least<T(!new)>(less: (T, T) -> bool, s: set<T>): (m: T)
    requires TotalOn(less, s) && s != {}
    ensures m in s && forall y :: y in s && y != m ==> less(m, y)
  {
    assert exists m :: m in s && forall y :: y in s && y != m ==> less(m, y) by {
      var m := LeastExists(less, s);
    }
    var m :| m in s && forall y :: y in s && y != m ==> less(m, y);
    m
  }

  /** The elements of `s` in order. */
  ghost function SortSet<T(!new)>(less: (T, T) -> bool, s: set<T>): (xs: seq<T>)
    requires TotalOn(less, s)
    ensures Elems(xs) == s && |xs| == |s|
    ensures Sorted(less, xs)
  {
    if s == {} then [] else
    var m := Least(less, s);
    var rest := SortSet(less, s - {m});
    ConsSorted(less, m, rest, s);
    [m] + rest
  }

  lemma ConsSorted<T(!new)>(less: (T, T) -> bool, m: T, rest: seq<T>, s: set<T>)
    requires m in s && (forall y :: y in s && y != m ==> less(m, y))
    requires Elems(rest) == s - {m} && Sorted(less, rest)
    ensures Elems([m] + rest) == s && Sorted(less, [m] + rest)
  {
    var xs := [m] + rest;
    assert forall x :: x in xs <==> x == m || x in rest;
    assert forall x :: x in rest <==> x in Elems(rest);
    forall i, j | 0 <= i < j < |xs| ensures less(xs[i], xs[j]) {
      assert xs[j] == rest[j - 1] && rest[j - 1] in Elems(rest);
      assert i > 0 ==> xs[i] == rest[i - 1];
    }
  }

  lemma ElemsAppend<T>(xs: seq<T>, x: T)
    ensures Elems(xs + [x]) == Elems(xs) + {x}
    ensures forall i :: 0 <= i < |xs| ==> xs[i] in Elems(xs)
  {
    assert forall y :: y in xs + [x] <==> y in xs || y == x;
  }

  /** A sorted sequence repeats nothing. */
  lemma SortedDistinct<T(!new)>(less: (T, T) -> bool, xs: seq<T>)
    requires TotalOn(less, Elems(xs)) && Sorted(less, xs)
    ensures forall i, j :: 0 <= i < j < |xs| ==> xs[i] != xs[j]
  {
    assert forall i :: 0 <= i < |xs| ==> xs[i] in Elems(xs);
  }

  lemma HeadIsLeast<T(!new)>(less: (T, T) -> bool, xs: seq<T>, x: T)
    requires Sorted(less, xs) && x in Elems(xs)
    ensures x == xs[0] || less(xs[0], x)
  {
    var i :| 0 <= i < |xs| && xs[i] == x;
  }

  lemma ElemsMember<T>(xs: seq<T>)
    ensures xs != [] ==> xs[0] in Elems(xs)
  {
  }

  lemma SameHead<T(!new)>(less: (T, T) -> bool, xs: seq<T>, ys: seq<T>)
    requires Elems(xs) == Elems(ys) && TotalOn(less, Elems(xs))
    requires Sorted(less, xs) && Sorted(less, ys)
    ensures (xs == []) == (ys == [])
    ensures xs != [] ==> xs[0] == ys[0]
  {
    ElemsMember(xs);
    ElemsMember(ys);
    if xs != [] && ys != [] {
      HeadIsLeast(less, xs, ys[0]);
      HeadIsLeast(less, ys, xs[0]);
    }
  }

  /** There is only one way to sort. */
  lemma {:induction false} SortedUnique<T(!new)>(less: (T, T) -> bool, xs: seq<T>, ys: seq<T>)
    requires Elems(xs) == Elems(ys) && TotalOn(less, Elems(xs))
    requires Sorted(less, xs) && Sorted(less, ys)
    ensures xs == ys
  {
    SameHead(less, xs, ys);
    if xs != [] {
      TailElems(less, xs);
      TailElems(less, ys);
      TotalOnSubset(less, Elems(xs), Elems(xs[1..]));
      SortedUnique(less, xs[1..], ys[1..]);
      assert xs == [xs[0]] + xs[1..] && ys == [ys[0]] + ys[1..];
    }
  }

  lemma TailElems<T(!new)>(less: (T, T) -> bool, xs: seq<T>)
    requires xs != [] && TotalOn(less, Elems(xs)) && Sorted(less, xs)
    ensures Elems(xs[1..]) == Elems(xs) - {xs[0]}
  {
    SortedDistinct(less, xs);
    forall x | x in Elems(xs) - {xs[0]} ensures x in Elems(xs[1..]) {
      var i :| 0 <= i < |xs| && xs[i] == x;
      assert x == xs[1..][i - 1];
    }
    forall x | x in Elems(xs[1..]) ensures x in Elems(xs) && x != xs[0] {
      var i :| 0 <= i < |xs| - 1 && xs[1..][i] == x;
      assert x == xs[i + 1];
    }
  }

  /** Sorting what is already sorted changes nothing. */
  lemma SortOfSorted<T(!new)>(less: (T, T) -> bool, xs: seq<T>)
    requires TotalOn(less, Elems(xs)) && Sorted(less, xs)
    ensures xs == SortSet(less, Elems(xs))
  {
    SortedUnique(less, xs, SortSet(less, Elems(xs)));
  }

  function Take<T>(xs: seq<T>, n: nat): seq<T> {
    if n < |xs| then xs[..n] else xs
  }

  /** The library's sort, for a comparison that is total on distinct elements. */
  method Sort<T(==, !new)>(less: (T, T) -> bool, xs: seq<T>) returns (ys: seq<T>)
    requires forall i, j :: 0 <= i < j < |xs| ==> xs[i] != xs[j]
    requires TotalOn(less, Elems(xs))
    ensures ys == SortSet(less, Elems(xs))
  {
    ys := [];
    assert Elems(xs[..0]) == {};
    for k := 0 to |xs|
      invariant Sorted(less, ys) && Elems(ys) == Elems(xs[..k])
    {
      assert Elems(xs[..k + 1]) == Elems(xs[..k]) + {xs[k]} by {
        assert xs[..k + 1] == xs[..k] + [xs[k]];
      }
      NotYet(xs, k);
      ys := Insert(less, ys, xs[k], Elems(xs));
    }
    assert xs[..|xs|] == xs;
    SortOfSorted(less, ys);
  }

  lemma NotYet<T>(xs: seq<T>, k: nat)
    requires k < |xs| && forall i, j :: 0 <= i < j < |xs| ==> xs[i] != xs[j]
    ensures xs[k] !in Elems(xs[..k]) && xs[k] in Elems(xs) && Elems(xs[..k]) <= Elems(xs)
  {
  }

  method Insert<T(==, !new)>(less: (T, T) -> bool, ys: seq<T>, x: T, ghost s: set<T>) returns (zs: seq<T>)
    requires TotalOn(less, s) && Elems(ys) <= s && x in s && x !in Elems(ys)
    requires Sorted(less, ys)
    ensures Sorted(less, zs) && Elems(zs) == Elems(ys) + {x}
  {
    var i := 0;
    assert forall k :: 0 <= k < |ys| ==> ys[k] in Elems(ys);
    while i < |ys| && less(ys[i], x)
      invariant 0 <= i <= |ys|
      invariant forall k :: 0 <= k < i ==> less(ys[k], x)
    {
      i := i + 1;
    }
    zs := ys[..i] + [x] + ys[i..];
    assert forall k :: i <= k < |ys| ==> less(x, ys[k]);
    InsertSorted(less, ys, x, i);
  }

  lemma InsertSorted<T(!new)>(less: (T, T) -> bool, ys: seq<T>, x: T, i: nat)
    requires Sorted(less, ys) && i <= |ys|
    requires forall k :: 0 <= k < i ==> less(ys[k], x)
    requires forall k :: i <= k < |ys| ==> less(x, ys[k])
    ensures Sorted(less, ys[..i] + [x] + ys[i..])
    ensures Elems(ys[..i] + [x] + ys[i..]) == Elems(ys) + {x}
  {
    var zs := ys[..i] + [x] + ys[i..];
    assert forall k :: 0 <= k < |zs| ==> zs[k] == if k < i then ys[k] else if k == i then x else ys[k - 1];
    forall y | y in Elems(ys) + {x} ensures y in zs {
      if y in ys {
        var k :| 0 <= k < |ys| && ys[k] == y;
        assert zs[if k < i then k else k + 1] == y;
      } else {
        assert zs[i] == y;
      }
    }
  }
}

/** Comparators in the manner of Ordering and then_with, and the stable sort by a comparator. */
module Sorting {
  import opened Wrappers

  /** Negative, zero and positive stand for less, equal and greater. */
  function Then(first: int, second: int): int {
    if first != 0 then first else second
  }

  function CompareText(a: string, b: string): int {
    if a == "" && b == "" then 0
    else if a == "" then -1
    else if b == "" then 1
    else if a[0] != b[0] then a[0] as int - b[0] as int
    else CompareText(a[1..], b[1..])
  }

  /** An absent text comes first. */
  function CompareOptional(a: Option<string>, b: Option<string>): int {
    match (a, b)
    case (None, None) => 0
    case (None, Some(_)) => -1
    case (Some(_), None) => 1
    case (Some(x), Some(y)) => CompareText(x, y)
  }

  lemma {:induction false} TextLaws(a: string, b: string, c: string)
    ensures CompareText(a, b) == 0 <==> a == b
    ensures CompareText(a, b) < 0 <==> CompareText(b, a) > 0
    ensures CompareText(a, b) <= 0 && CompareText(b, c) <= 0 ==> CompareText(a, c) <= 0
    decreases |a| + |b|
  {
    if a != "" && b != "" {
      TextLaws(a[1..], b[1..], if c != "" then c[1..] else "");
      assert a == [a[0]] + a[1..] && b == [b[0]] + b[1..];
    }
  }

  lemma OptionalLaws(a: Option<string>, b: Option<string>, c: Option<string>)
    ensures CompareOptional(a, b) == 0 <==> a == b
    ensures CompareOptional(a, b) < 0 <==> CompareOptional(b, a) > 0
    ensures CompareOptional(a, b) <= 0 && CompareOptional(b, c) <= 0 ==> CompareOptional(a, c) <= 0
  {
    hide CompareText;
    var x := if a.Some? then a.value else "";
    var y := if b.Some? then b.value else "";
    var z := if c.Some? then c.value else "";
    TextLaws(x, y, z);
  }

  /** An order in which different things may tie: comparing is antisymmetric and transitive. */
  ghost predicate Ordered<T(!new)>(cmp: (T, T) -> int) {
    && (forall a, b :: cmp(a, b) < 0 <==> cmp(b, a) > 0)
    && (forall a, b, c :: cmp(a, b) <= 0 && cmp(b, c) <= 0 ==> cmp(a, c) <= 0)
  }

  /** A linear order: only equal things tie. */
  ghost predicate Linear<T(!new)>(cmp: (T, T) -> int) {
    (forall a, b :: cmp(a, b) == 0 <==> a == b) && Ordered(cmp)
  }

  // ---- Stable sorting ------------------------------------------------------------------------------------------

  function Insert<T>(cmp: (T, T) -> int, x: T, xs: seq<T>): seq<T> {
    if xs == [] || cmp(x, xs[0]) <= 0 then [x] + xs else [xs[0]] + Insert(cmp, x, xs[1..])
  }

  /** The stable sort: elements that tie stay in their order. */
  function SortBy<T>(cmp: (T, T) -> int, xs: seq<T>): seq<T> {
    if xs == [] then [] else Insert(cmp, xs[0], SortBy(cmp, xs[1..]))
  }

  ghost predicate Sorted<T(!new)>(cmp: (T, T) -> int, xs: seq<T>) {
    forall i, j :: 0 <= i < j < |xs| ==> cmp(xs[i], xs[j]) <= 0
  }

  lemma {:induction false} InsertPermutes<T>(cmp: (T, T) -> int, x: T, xs: seq<T>)
    ensures multiset(Insert(cmp, x, xs)) == multiset(xs) + multiset{x}
  {
    if !(xs == [] || cmp(x, xs[0]) <= 0) {
      InsertPermutes(cmp, x, xs[1..]);
      assert xs == [xs[0]] + xs[1..];
    }
  }

  lemma {:induction false} SortPermutes<T>(cmp: (T, T) -> int, xs: seq<T>)
    ensures multiset(SortBy(cmp, xs)) == multiset(xs) && |SortBy(cmp, xs)| == |xs|
  {
    if xs != [] {
      SortPermutes(cmp, xs[1..]);
      InsertPermutes(cmp, xs[0], SortBy(cmp, xs[1..]));
      assert xs == [xs[0]] + xs[1..];
      assert |SortBy(cmp, xs)| == |multiset(SortBy(cmp, xs))| == |multiset(xs)| == |xs|;
    }
  }

  lemma PrependSorts<T(!new)>(cmp: (T, T) -> int, x: T, xs: seq<T>)
    requires Sorted(cmp, xs) && forall y :: y in xs ==> cmp(x, y) <= 0
    ensures Sorted(cmp, [x] + xs)
  {
    var r := [x] + xs;
    forall i, j | 0 <= i < j < |r| ensures cmp(r[i], r[j]) <= 0 {
      assert r[j] == xs[j - 1] && xs[j - 1] in xs;
    }
  }

  lemma {:induction false} InsertSorts<T(!new)>(cmp: (T, T) -> int, x: T, xs: seq<T>)
    requires Ordered(cmp) && Sorted(cmp, xs)
    ensures Sorted(cmp, Insert(cmp, x, xs))
  {
    if xs == [] {
    } else if cmp(x, xs[0]) <= 0 {
      forall y | y in xs ensures cmp(x, y) <= 0 {
        var j :| 0 <= j < |xs| && xs[j] == y;
        assert j > 0 ==> cmp(xs[0], xs[j]) <= 0;
      }
      PrependSorts(cmp, x, xs);
    } else {
      var t := Insert(cmp, x, xs[1..]);
      InsertSorts(cmp, x, xs[1..]);
      InsertPermutes(cmp, x, xs[1..]);
      forall y | y in t ensures cmp(xs[0], y) <= 0 {
        assert y in multiset(t);
        if y != x {
          assert y in xs[1..];
          var j :| 0 <= j < |xs[1..]| && xs[1..][j] == y;
          assert cmp(xs[0], xs[j + 1]) <= 0;
        }
      }
      PrependSorts(cmp, xs[0], t);
    }
  }

  lemma {:induction false} SortSorts<T(!new)>(cmp: (T, T) -> int, xs: seq<T>)
    requires Ordered(cmp)
    ensures Sorted(cmp, SortBy(cmp, xs))
  {
    if xs != [] {
      SortSorts(cmp, xs[1..]);
      InsertSorts(cmp, xs[0], SortBy(cmp, xs[1..]));
    }
  }

  /** A sorted sequence is left exactly as it is. */
  lemma {:induction false} SortedIsFixed<T(!new)>(cmp: (T, T) -> int, xs: seq<T>)
    requires Sorted(cmp, xs)
    ensures SortBy(cmp, xs) == xs
  {
    if xs != [] {
      SortedIsFixed(cmp, xs[1..]);
      assert xs == [xs[0]] + xs[1..];
    }
  }

  lemma WithoutOne<T>(xs: seq<T>, j: nat)
    requires j < |xs|
    ensures multiset(xs[..j] + xs[j + 1..]) == multiset(xs) - multiset{xs[j]}
  {
    assert xs == xs[..j] + ([xs[j]] + xs[j + 1..]);
  }

  lemma WithoutFirst<T>(xs: seq<T>)
    requires xs != []
    ensures multiset(xs[1..]) == multiset(xs) - multiset{xs[0]}
  {
    WithoutOne(xs, 0);
    assert xs[..0] + xs[1..] == xs[1..];
  }

  lemma TailsAgree<T>(xs: seq<T>, ys: seq<T>)
    requires xs != [] && ys != [] && xs[0] == ys[0] && multiset(xs) == multiset(ys)
    ensures multiset(xs[1..]) == multiset(ys[1..])
  {
    WithoutFirst(xs);
    WithoutFirst(ys);
  }

  lemma TailSorted<T(!new)>(cmp: (T, T) -> int, xs: seq<T>)
    requires xs != [] && Sorted(cmp, xs)
    ensures Sorted(cmp, xs[1..])
  {
  }

  lemma SameLeast<T(!new)>(cmp: (T, T) -> int, xs: seq<T>, ys: seq<T>)
    requires Linear(cmp) && Sorted(cmp, xs) && Sorted(cmp, ys) && multiset(xs) == multiset(ys) && xs != []
    ensures ys != [] && xs[0] == ys[0]
  {
    assert xs[0] in multiset(ys);
    assert ys[0] in multiset(xs);
    AtMost(cmp, ys, xs[0]);
    AtMost(cmp, xs, ys[0]);
  }

  lemma AtMost<T(!new)>(cmp: (T, T) -> int, xs: seq<T>, x: T)
    requires Linear(cmp) && Sorted(cmp, xs) && x in multiset(xs)
    ensures cmp(xs[0], x) <= 0
  {
    var i :| 0 <= i < |xs| && xs[i] == x;
  }

  lemma {:induction false} SortedIsDetermined<T(!new)>(cmp: (T, T) -> int, xs: seq<T>, ys: seq<T>)
    requires Linear(cmp) && Sorted(cmp, xs) && Sorted(cmp, ys) && multiset(xs) == multiset(ys)
    ensures xs == ys
  {
    hide Linear, Sorted;
    if xs == [] {
      assert |ys| == |multiset(ys)| == 0;
    } else {
      SameLeast(cmp, xs, ys);
      TailsAgree(xs, ys);
      TailSorted(cmp, xs);
      TailSorted(cmp, ys);
      SortedIsDetermined(cmp, xs[1..], ys[1..]);
      assert xs == [xs[0]] + xs[1..] && ys == [ys[0]] + ys[1..];
    }
  }

  /** Under a linear order, sorting picks one representative for every multiset. */
  lemma SortIsCanonical<T(!new)>(cmp: (T, T) -> int, xs: seq<T>, ys: seq<T>)
    requires Linear(cmp)
    ensures SortBy(cmp, xs) == SortBy(cmp, ys) <==> multiset(xs) == multiset(ys)
  {
    SortPermutes(cmp, xs);
    SortPermutes(cmp, ys);
    SortSorts(cmp, xs);
    SortSorts(cmp, ys);
    if multiset(xs) == multiset(ys) {
      SortedIsDetermined(cmp, SortBy(cmp, xs), SortBy(cmp, ys));
    }
  }

  // ---- Sorting by what a function makes of the elements -------------------------------------------------------

  function Map<S, T>(f: S -> T, xs: seq<S>): (r: seq<T>)
    ensures |r| == |xs| && forall i :: 0 <= i < |r| ==> r[i] == f(xs[i])
  {
    if xs == [] then [] else [f(xs[0])] + Map(f, xs[1..])
  }

  function Through<S, T>(f: S -> T, cmp: (T, T) -> int): (S, S) -> int {
    (a, b) => cmp(f(a), f(b))
  }

  lemma {:induction false} MapOfInsert<S, T>(f: S -> T, cmp: (T, T) -> int, x: S, xs: seq<S>)
    ensures Map(f, Insert(Through(f, cmp), x, xs)) == Insert(cmp, f(x), Map(f, xs))
  {
    if xs == [] || cmp(f(x), f(xs[0])) <= 0 {
      assert ([x] + xs)[1..] == xs;
    } else {
      MapOfInsert(f, cmp, x, xs[1..]);
      var r := Insert(Through(f, cmp), x, xs);
      assert r[1..] == Insert(Through(f, cmp), x, xs[1..]);
      assert Map(f, xs)[1..] == Map(f, xs[1..]);
    }
  }

  lemma {:induction false} MapOfSort<S, T>(f: S -> T, cmp: (T, T) -> int, xs: seq<S>)
    ensures Map(f, SortBy(Through(f, cmp), xs)) == SortBy(cmp, Map(f, xs))
  {
    if xs != [] {
      MapOfSort(f, cmp, xs[1..]);
      MapOfInsert(f, cmp, xs[0], SortBy(Through(f, cmp), xs[1..]));
      assert Map(f, xs)[1..] == Map(f, xs[1..]);
    }
  }

  /** Sequences of f-images are the same multiset only if those of g-images are, when f tells
      apart whatever g does. */
  lemma {:induction false} SameBags<S, T(!new), U(!new)>(f: S -> T, g: S -> U, xs: seq<S>, ys: seq<S>)
    requires forall a, b :: a in xs && b in ys && f(a) == f(b) ==> g(a) == g(b)
    requires multiset(Map(f, xs)) == multiset(Map(f, ys))
    ensures multiset(Map(g, xs)) == multiset(Map(g, ys))
    decreases |xs|
  {
    hide Map;
    assert |xs| == |multiset(Map(f, xs))| == |multiset(Map(f, ys))| == |ys|;
    if xs == [] {
      assert Map(g, xs) == Map(g, ys);
    } else {
      var j := Partner(f, xs, ys);
      var rest := ys[..j] + ys[j + 1..];
      RemovedFirst(f, xs);
      RemovedFirst(g, xs);
      Removed(f, ys, j);
      Removed(g, ys, j);
      assert xs[0] in xs && ys[j] in ys;
      assert forall b :: b in rest ==> b in ys;
      SameBags(f, g, xs[1..], rest);
      OneMore(g, xs, ys, j);
    }
  }

  lemma Partner<S, T(!new)>(f: S -> T, xs: seq<S>, ys: seq<S>) returns (j: nat)
    requires xs != [] && multiset(Map(f, xs)) == multiset(Map(f, ys))
    ensures j < |ys| && f(ys[j]) == f(xs[0])
  {
    hide Map;
    assert Map(f, xs)[0] in multiset(Map(f, ys));
    j :| 0 <= j < |Map(f, ys)| && Map(f, ys)[j] == Map(f, xs)[0];
  }

  lemma OneMore<S, U(!new)>(g: S -> U, xs: seq<S>, ys: seq<S>, j: nat)
    requires xs != [] && j < |ys| && g(xs[0]) == g(ys[j])
    requires multiset(Map(g, xs)) - multiset{g(xs[0])} == multiset(Map(g, ys)) - multiset{g(ys[j])}
    ensures multiset(Map(g, xs)) == multiset(Map(g, ys))
  {
    hide Map;
    assert Map(g, xs)[0] in multiset(Map(g, xs)) && Map(g, ys)[j] in multiset(Map(g, ys));
    var u := multiset{g(xs[0])};
    assert multiset(Map(g, xs)) == multiset(Map(g, xs)) - u + u;
    assert multiset(Map(g, ys)) == multiset(Map(g, ys)) - u + u;
  }

  lemma RemovedFirst<S, T>(f: S -> T, xs: seq<S>)
    requires xs != []
    ensures multiset(Map(f, xs[1..])) == multiset(Map(f, xs)) - multiset{f(xs[0])}
  {
    hide Map;
    assert Map(f, xs[1..]) == Map(f, xs)[1..];
    WithoutFirst(Map(f, xs));
  }

  lemma Removed<S, T>(f: S -> T, ys: seq<S>, j: nat)
    requires j < |ys|
    ensures multiset(Map(f, ys[..j] + ys[j + 1..])) == multiset(Map(f, ys)) - multiset{f(ys[j])}
  {
    hide Map;
    var m := Map(f, ys);
    assert Map(f, ys[..j] + ys[j + 1..]) == m[..j] + m[j + 1..];
    WithoutOne(m, j);
  }
}

/**
  Stable sorting, as `std::stable_sort`, Python's `sorted` and `list.sort` define it.
  The function below is one way to compute it; `StableSortIsUnique` shows that any other
  sorted rearrangement that keeps tied elements in input order is the same sequence, so
  nothing in the model depends on how a library sorts.
*/
module Sorting {
  import opened Common

  /** `less` orders elements up to ties. */
  ghost predicate StrictWeakOrder<T(!new)>(less: (T, T) -> bool) {
    && (forall x :: !less(x, x))
    && (forall x, y, z :: less(x, y) && less(y, z) ==> less(x, z))
    && (forall x, y, z :: less(x, z) ==> less(x, y) || less(y, z))
  }

  predicate Tied<T>(less: (T, T) -> bool, x: T, y: T) {
    !less(x, y) && !less(y, x)
  }

  /** No later element precedes an earlier one. */
  ghost predicate SortedBy<T>(less: (T, T) -> bool, s: seq<T>) {
    forall i, j :: 0 <= i < j < |s| ==> !less(s[j], s[i])
  }

  /** Places `x` behind every element it does not precede, from the back. */
  function Insert<T>(less: (T, T) -> bool, s: seq<T>, x: T): (r: seq<T>)
    ensures |r| == |s| + 1
  {
    if s == [] || !less(x, s[|s| - 1]) then s + [x]
    else Insert(less, s[..|s| - 1], x) + [s[|s| - 1]]
  }

  function StableSort<T>(less: (T, T) -> bool, s: seq<T>): (r: seq<T>)
    ensures |r| == |s|
  {
    if s == [] then [] else Insert(less, StableSort(less, s[..|s| - 1]), s[|s| - 1])
  }

  lemma {:induction false} InsertContents<T>(less: (T, T) -> bool, s: seq<T>, x: T)
    ensures multiset(Insert(less, s, x)) == multiset(s) + multiset{x}
  {
    if !(s == [] || !less(x, s[|s| - 1])) {
      assert s == s[..|s| - 1] + [s[|s| - 1]];
      InsertContents(less, s[..|s| - 1], x);
    }
  }

  lemma {:induction false} InsertSorted<T(!new)>(less: (T, T) -> bool, s: seq<T>, x: T)
    requires StrictWeakOrder(less) && SortedBy(less, s)
    ensures SortedBy(less, Insert(less, s, x))
  {
    if s == [] {
    } else if !less(x, s[|s| - 1]) {
      forall i | 0 <= i < |s| ensures !less(x, s[i]) {
        if i < |s| - 1 { assert !less(s[|s| - 1], s[i]); }
      }
    } else {
      var init, last := s[..|s| - 1], s[|s| - 1];
      InsertSorted(less, init, x);
      InsertContents(less, init, x);
      var r := Insert(less, init, x);
      forall i | 0 <= i < |r| ensures !less(last, r[i]) {
        assert r[i] in multiset(r);
        assert r[i] == x || r[i] in init;
      }
    }
  }

  /** The result is sorted and holds the same elements with the same multiplicity. */
  lemma {:induction false} StableSortSorts<T(!new)>(less: (T, T) -> bool, s: seq<T>)
    requires StrictWeakOrder(less)
    ensures SortedBy(less, StableSort(less, s))
    ensures multiset(StableSort(less, s)) == multiset(s)
  {
    if s == [] {
    } else {
      var init, last := s[..|s| - 1], s[|s| - 1];
      assert s == init + [last];
      StableSortSorts(less, init);
      InsertSorted(less, StableSort(less, init), last);
      InsertContents(less, StableSort(less, init), last);
    }
  }

  /** The elements of `s` tied with `y`, in order. */
  function TiedWith<T>(less: (T, T) -> bool, y: T, s: seq<T>): seq<T> {
    if s == [] then []
    else TiedWith(less, y, s[..|s| - 1]) + if Tied(less, y, s[|s| - 1]) then [s[|s| - 1]] else []
  }

  lemma TiedWithAppend<T>(less: (T, T) -> bool, y: T, s: seq<T>, x: T)
    ensures TiedWith(less, y, s + [x]) == TiedWith(less, y, s) + if Tied(less, y, x) then [x] else []
  {
    assert (s + [x])[..|s|] == s;
  }

  lemma {:induction false} InsertStable<T(!new)>(less: (T, T) -> bool, s: seq<T>, x: T, y: T)
    requires StrictWeakOrder(less)
    ensures TiedWith(less, y, Insert(less, s, x)) == TiedWith(less, y, s + [x])
  {
    if !(s == [] || !less(x, s[|s| - 1])) {
      var init, last := s[..|s| - 1], s[|s| - 1];
      InsertStable(less, init, x, y);
      TiedWithAppend(less, y, Insert(less, init, x), last);
      TiedWithAppend(less, y, init, x);
      TiedWithAppend(less, y, s, x);
      assert !(Tied(less, y, x) && Tied(less, y, last));
    }
  }

  /** Elements tied with `y` come out in the order they went in. */
  lemma {:induction false} StableSortStable<T(!new)>(less: (T, T) -> bool, s: seq<T>, y: T)
    requires StrictWeakOrder(less)
    ensures TiedWith(less, y, StableSort(less, s)) == TiedWith(less, y, s)
  {
    if s == [] {
    } else {
      var init, last := s[..|s| - 1], s[|s| - 1];
      StableSortStable(less, init, y);
      InsertStable(less, StableSort(less, init), last, y);
      TiedWithAppend(less, y, StableSort(less, init), last);
    }
  }

  /** A sequence that is already sorted is returned unchanged. */
  lemma {:induction false} StableSortIdempotent<T(!new)>(less: (T, T) -> bool, s: seq<T>)
    requires SortedBy(less, s)
    ensures StableSort(less, s) == s
  {
    if s == [] {
    } else {
      var init := s[..|s| - 1];
      assert s == init + [s[|s| - 1]];
      StableSortIdempotent(less, init);
    }
  }

  lemma LastOfSortedIsMaximal<T>(less: (T, T) -> bool, s: seq<T>, x: T)
    requires SortedBy(less, s) && x in s
    ensures !less(s[|s| - 1], x) || x == s[|s| - 1]
  {
    var i :| 0 <= i < |s| && s[i] == x;
    assert i < |s| - 1 || i == |s| - 1;
  }

  lemma {:induction false} TiedWithLast<T>(less: (T, T) -> bool, s: seq<T>, w: T)
    requires s != []
    ensures TiedWith(less, w, s)
            == TiedWith(less, w, s[..|s| - 1]) + if Tied(less, w, s[|s| - 1]) then [s[|s| - 1]] else []
  {
  }

  lemma DropLast<T>(less: (T, T) -> bool, a: seq<T>, b: seq<T>, w: T)
    requires a != [] && b != [] && a[|a| - 1] == b[|b| - 1]
    requires TiedWith(less, w, a) == TiedWith(less, w, b)
    ensures TiedWith(less, w, a[..|a| - 1]) == TiedWith(less, w, b[..|b| - 1])
  {
    var x, a', b' := a[|a| - 1], TiedWith(less, w, a[..|a| - 1]), TiedWith(less, w, b[..|b| - 1]);
    TiedWithLast(less, a, w);
    TiedWithLast(less, b, w);
    if Tied(less, w, x) {
      assert a' + [x] == b' + [x];
      assert a' == (a' + [x])[..|a'|] && b' == (b' + [x])[..|b'|];
    } else {
      assert a' + [] == a' && b' + [] == b';
    }
  }

  lemma {:induction false} SameLast<T(!new)>(less: (T, T) -> bool, a: seq<T>, b: seq<T>)
    requires StrictWeakOrder(less) && a != [] && |a| == |b|
    requires SortedBy(less, a) && SortedBy(less, b) && multiset(a) == multiset(b)
    requires TiedWith(less, a[|a| - 1], a) == TiedWith(less, a[|a| - 1], b)
    ensures a[|a| - 1] == b[|b| - 1]
  {
    var x, y := a[|a| - 1], b[|b| - 1];
    assert x in multiset(a) && y in multiset(b);
    LastOfSortedIsMaximal(less, a, y);
    LastOfSortedIsMaximal(less, b, x);
    assert Tied(less, x, y) && Tied(less, x, x);
    var ta, tb := TiedWith(less, x, a), TiedWith(less, x, b);
    assert ta[|ta| - 1] == x && tb[|tb| - 1] == y;
  }

  lemma InitContents<T>(s: seq<T>)
    requires s != []
    ensures multiset(s[..|s| - 1]) == multiset(s) - multiset{s[|s| - 1]}
    ensures s == s[..|s| - 1] + [s[|s| - 1]]
  {
    assert s == s[..|s| - 1] + [s[|s| - 1]];
  }

  /** Both sequences list every group of tied elements in the same order. */
  ghost predicate SameTies<T(!new)>(less: (T, T) -> bool, a: seq<T>, b: seq<T>) {
    forall y :: TiedWith(less, y, a) == TiedWith(less, y, b)
  }

  lemma {:induction false} SameTiesInit<T(!new)>(less: (T, T) -> bool, a: seq<T>, b: seq<T>)
    requires a != [] && b != [] && a[|a| - 1] == b[|b| - 1]
    requires SameTies(less, a, b)
    ensures SameTies(less, a[..|a| - 1], b[..|b| - 1])
  {
    var a', b' := a[..|a| - 1], b[..|b| - 1];
    forall w ensures TiedWith(less, w, a') == TiedWith(less, w, b') {
      DropLast(less, a, b, w);
    }
  }

  /** Sortedness and stability leave exactly one arrangement. */
  lemma {:induction false} StableSortIsUnique<T(!new)>(less: (T, T) -> bool, a: seq<T>, b: seq<T>)
    requires StrictWeakOrder(less)
    requires SortedBy(less, a) && SortedBy(less, b)
    requires multiset(a) == multiset(b) && SameTies(less, a, b)
    ensures a == b
  {
    assert |a| == |multiset(a)| == |multiset(b)| == |b|;
    if a != [] {
      SameLast(less, a, b);
      SameTiesInit(less, a, b);
      InitContents(a);
      InitContents(b);
      var a', b' := a[..|a| - 1], b[..|b| - 1];
      assert SortedBy(less, a') && SortedBy(less, b');
      StableSortIsUnique(less, a', b');
    }
  }

  /** Elements that tie are equal. */
  ghost predicate NoTies<T>(less: (T, T) -> bool, s: seq<T>) {
    forall x, y :: x in s && y in s && Tied(less, x, y) ==> x == y
  }

  lemma {:induction false} SameLastWithoutTies<T(!new)>(less: (T, T) -> bool, a: seq<T>, b: seq<T>)
    requires a != [] && b != [] && SortedBy(less, a) && SortedBy(less, b)
    requires multiset(a) == multiset(b) && NoTies(less, a)
    ensures a[|a| - 1] == b[|b| - 1]
  {
    var x, y := a[|a| - 1], b[|b| - 1];
    assert x in multiset(a) && y in multiset(b);
    LastOfSortedIsMaximal(less, a, y);
    LastOfSortedIsMaximal(less, b, x);
    assert x != y ==> Tied(less, x, y);
  }

  lemma {:induction false} SortedPermutationsEqual<T(!new)>(less: (T, T) -> bool, a: seq<T>, b: seq<T>)
    requires SortedBy(less, a) && SortedBy(less, b)
    requires multiset(a) == multiset(b) && NoTies(less, a)
    ensures a == b
  {
    assert |a| == |multiset(a)| == |multiset(b)| == |b|;
    if a != [] {
      SameLastWithoutTies(less, a, b);
      InitContents(a);
      InitContents(b);
      var a', b' := a[..|a| - 1], b[..|b| - 1];
      assert SortedBy(less, a') && SortedBy(less, b');
      assert NoTies(less, a') by { assert forall x :: x in a' ==> x in a; }
      SortedPermutationsEqual(less, a', b');
    }
  }

  /** Without ties the sorted sequence depends on the contents only, not on their order. */
  lemma SortIgnoresInputOrder<T(!new)>(less: (T, T) -> bool, a: seq<T>, b: seq<T>)
    requires StrictWeakOrder(less) && multiset(a) == multiset(b) && NoTies(less, a)
    ensures StableSort(less, a) == StableSort(less, b)
  {
    StableSortSorts(less, a);
    StableSortSorts(less, b);
    var s := StableSort(less, a);
    forall x, y | x in s && y in s && Tied(less, x, y) ensures x == y {
      assert x in multiset(s) && y in multiset(s);
      assert x in a && y in a;
    }
    SortedPermutationsEqual(less, s, StableSort(less, b));
  }

  lemma {:induction false} InsertBehindAll<T>(less: (T, T) -> bool, s: seq<T>, x: T)
    requires forall y :: y in s ==> !less(x, y)
    ensures Insert(less, s, x) == s + [x]
  {
  }

  /** Inserting and keeping the first `n` needs only the first `n`. */
  lemma {:induction false} InsertFirstN<T(!new)>(less: (T, T) -> bool, s: seq<T>, x: T, n: nat)
    requires StrictWeakOrder(less) && SortedBy(less, s)
    ensures FirstN(Insert(less, FirstN(s, n), x), n) == FirstN(Insert(less, s, x), n)
    decreases |s|
  {
    if |s| > n {
      var init, last := s[..|s| - 1], s[|s| - 1];
      assert FirstN(init, n) == FirstN(s, n);
      if less(x, last) {
        assert SortedBy(less, init);
        InsertFirstN(less, init, x, n);
      } else {
        forall y | y in FirstN(s, n) ensures !less(x, y) {
          LastOfSortedIsMaximal(less, s, y);
        }
        InsertBehindAll(less, FirstN(s, n), x);
      }
    }
  }

  /** Truncating after every insertion gives the first `n` of one sort of everything. */
  lemma SortThenTruncate<T(!new)>(less: (T, T) -> bool, all: seq<T>, x: T, n: nat)
    requires StrictWeakOrder(less)
    ensures FirstN(StableSort(less, FirstN(StableSort(less, all), n) + [x]), n)
            == FirstN(StableSort(less, all + [x]), n)
  {
    var s := StableSort(less, all);
    StableSortSorts(less, all);
    var kept := FirstN(s, n);
    assert SortedBy(less, kept);
    StableSortIdempotent(less, kept);
    assert (kept + [x])[..|kept|] == kept && (all + [x])[..|all|] == all;
    InsertFirstN(less, s, x, n);
  }
}

// Sequence facts shared by the whole project: filtering, and the stable sort
// the service gets from its standard library (sort.SliceStable).
module Seqs {

  /** The elements satisfying p, in order. */
  function Filter<T(!new)>(p: T -> bool, xs: seq<T>): (ys: seq<T>)
    ensures |ys| <= |xs|
  {
    if xs == [] then []
    else if p(xs[0]) then [xs[0]] + Filter(p, xs[1..])
    else Filter(p, xs[1..])
  }

  lemma {:induction false} FilterMembers<T(!new)>(p: T -> bool, xs: seq<T>)
    ensures forall y :: y in Filter(p, xs) <==> y in xs && p(y)
  {
    if xs == [] {
    } else {
      FilterMembers(p, xs[1..]);
      assert xs == [xs[0]] + xs[1..];
    }
  }

  lemma {:induction false} FilterConcat<T(!new)>(p: T -> bool, xs: seq<T>, ys: seq<T>)
    ensures Filter(p, xs + ys) == Filter(p, xs) + Filter(p, ys)
  {
    if xs == [] {
      assert xs + ys == ys;
    } else {
      var both := xs + ys;
      assert both[0] == xs[0] && both[1..] == xs[1..] + ys;
      FilterConcat(p, xs[1..], ys);
      var tail := Filter(p, xs[1..]);
      if p(xs[0]) {
        assert ([xs[0]] + tail) + Filter(p, ys) == [xs[0]] + (tail + Filter(p, ys));
      }
    }
  }

  lemma FilterSnoc<T(!new)>(p: T -> bool, xs: seq<T>, x: T)
    ensures Filter(p, xs + [x]) == if p(x) then Filter(p, xs) + [x] else Filter(p, xs)
  {
    FilterConcat(p, xs, [x]);
    assert Filter(p, [x][1..]) == [];
  }

  lemma FilterSplit<T(!new)>(p: T -> bool, xs: seq<T>, i: nat)
    requires i <= |xs|
    ensures Filter(p, xs) == Filter(p, xs[..i]) + Filter(p, xs[i..])
  {
    FilterConcat(p, xs[..i], xs[i..]);
    assert xs == xs[..i] + xs[i..];
  }

  lemma {:induction false} FilterNone<T(!new)>(p: T -> bool, xs: seq<T>)
    ensures Filter(p, xs) == [] <==> forall x :: x in xs ==> !p(x)
  {
    if xs == [] {
    } else {
      FilterNone(p, xs[1..]);
      assert xs == [xs[0]] + xs[1..];
      assert p(xs[0]) ==> Filter(p, xs)[0] == xs[0];
    }
  }

  lemma {:induction false} FilterAll<T(!new)>(p: T -> bool, xs: seq<T>)
    requires forall x :: x in xs ==> p(x)
    ensures Filter(p, xs) == xs
  {
    if xs == [] {
    } else {
      FilterAll(p, xs[1..]);
      assert xs == [xs[0]] + xs[1..];
    }
  }

  /** Two predicates that agree on the elements select the same ones. */
  lemma {:induction false} FilterCongruence<T(!new)>(p: T -> bool, q: T -> bool, xs: seq<T>)
    requires forall x :: x in xs ==> p(x) == q(x)
    ensures Filter(p, xs) == Filter(q, xs)
  {
    if xs == [] {
    } else {
      FilterCongruence(p, q, xs[1..]);
    }
  }

  function Both<T(!new)>(p: T -> bool, q: T -> bool): T -> bool
  {
    x => p(x) && q(x)
  }

  lemma {:induction false} FilterFilter<T(!new)>(p: T -> bool, q: T -> bool, xs: seq<T>)
    ensures Filter(p, Filter(q, xs)) == Filter(Both(p, q), xs)
  {
    if xs == [] {
    } else {
      FilterFilter(p, q, xs[1..]);
      if q(xs[0]) {
        assert Filter(q, xs) == [xs[0]] + Filter(q, xs[1..]);
        assert Filter(q, xs)[1..] == Filter(q, xs[1..]);
      }
    }
  }

  /** xs can be obtained from ys by leaving elements out. */
  ghost predicate Subsequence<T(!new)>(xs: seq<T>, ys: seq<T>)
    decreases |ys|
  {
    if ys == [] then xs == []
    else
      var init, last := ys[..|ys| - 1], ys[|ys| - 1];
      Subsequence(xs, init) || (xs != [] && xs[|xs| - 1] == last && Subsequence(xs[..|xs| - 1], init))
  }

  lemma SubsequenceSnoc<T(!new)>(xs: seq<T>, ys: seq<T>, e: T)
    requires Subsequence(xs, ys)
    ensures Subsequence(xs, ys + [e]) && Subsequence(xs + [e], ys + [e])
  {
    assert (ys + [e])[..|ys|] == ys && (xs + [e])[..|xs|] == xs;
  }

  lemma {:induction false} SubsequenceOf<T(!new)>(xs: seq<T>, ys: seq<T>)
    requires Subsequence(xs, ys)
    ensures |xs| <= |ys| && forall x :: x in xs ==> x in ys
    decreases |ys|
  {
    if ys != [] {
      var init, last := ys[..|ys| - 1], ys[|ys| - 1];
      assert ys == init + [last];
      if Subsequence(xs, init) {
        SubsequenceOf(xs, init);
      } else {
        SubsequenceOf(xs[..|xs| - 1], init);
        assert xs == xs[..|xs| - 1] + [last];
      }
    }
  }

  lemma Assoc<T>(xs: seq<T>, ys: seq<T>, zs: seq<T>)
    ensures xs + (ys + zs) == (xs + ys) + zs
  {
  }

  // ---- distinct elements ---------------------------------------------------

  predicate Distinct<T(==)>(xs: seq<T>)
  {
    forall i, j :: 0 <= i < j < |xs| ==> xs[i] != xs[j]
  }

  lemma {:induction false} CountDistinct<T>(xs: seq<T>, x: T)
    requires Distinct(xs)
    ensures multiset(xs)[x] == if x in xs then 1 else 0
  {
    if xs != [] {
      assert xs == xs[..|xs| - 1] + [xs[|xs| - 1]];
      CountDistinct(xs[..|xs| - 1], x);
    }
  }

  lemma {:induction false} SameMembers<T(!new)>(xs: seq<T>, ys: seq<T>)
    requires Distinct(xs) && Distinct(ys) && forall x :: x in xs <==> x in ys
    ensures multiset(xs) == multiset(ys)
  {
    forall x ensures multiset(xs)[x] == multiset(ys)[x] {
      CountDistinct(xs, x);
      CountDistinct(ys, x);
    }
  }

  /** The elements of a set, in some order. */
  lemma Enumerate<T>(s: set<T>) returns (xs: seq<T>)
    ensures Distinct(xs) && forall x :: x in xs <==> x in s
  {
    xs := [];
    if x :| x in s {
      var rest := Enumerate(s - {x});
      xs := [x] + rest;
      assert forall i :: 0 < i < |xs| ==> xs[i] == rest[i - 1];
    }
  }

  lemma CountTwice<T>(xs: seq<T>, i: nat, j: nat)
    requires i < j < |xs| && xs[i] == xs[j]
    ensures multiset(xs)[xs[i]] >= 2
  {
    assert xs == xs[..j] + xs[j..];
    assert xs[..j][i] == xs[i] && xs[j..][0] == xs[i];
    assert multiset(xs[..j])[xs[i]] >= 1 && multiset(xs[j..])[xs[i]] >= 1;
  }

  /** A permutation of distinct elements has the same members, and they are distinct. */
  lemma DistinctPermutation<T(!new)>(xs: seq<T>, ys: seq<T>)
    requires Distinct(xs) && multiset(xs) == multiset(ys)
    ensures Distinct(ys) && forall x :: x in xs <==> x in ys
  {
    forall i, j | 0 <= i < j < |ys| ensures ys[i] != ys[j] {
      if ys[i] == ys[j] {
        CountTwice(ys, i, j);
        CountDistinct(xs, ys[i]);
      }
    }
    forall x ensures x in xs <==> x in ys {
      assert x in xs <==> x in multiset(xs);
      assert x in ys <==> x in multiset(ys);
    }
  }

  // ---- removing one element ------------------------------------------------

  function RemoveAt<T>(xs: seq<T>, i: nat): seq<T>
    requires i < |xs|
  {
    xs[..i] + xs[i + 1..]
  }

  lemma RemoveAtMultiset<T>(xs: seq<T>, i: nat)
    requires i < |xs|
    ensures multiset(xs) == multiset(RemoveAt(xs, i)) + multiset{xs[i]}
  {
    assert xs == xs[..i] + [xs[i]] + xs[i + 1..];
  }

  lemma RemoveSame<T>(xs: seq<T>, i: nat, ys: seq<T>, j: nat)
    requires i < |xs| && j < |ys| && xs[i] == ys[j] && multiset(xs) == multiset(ys)
    ensures multiset(RemoveAt(xs, i)) == multiset(RemoveAt(ys, j))
  {
    RemoveAtMultiset(xs, i);
    RemoveAtMultiset(ys, j);
    hide RemoveAt;
    assert multiset(RemoveAt(xs, i)) == multiset(xs) - multiset{xs[i]};
    assert multiset(RemoveAt(ys, j)) == multiset(ys) - multiset{ys[j]};
  }

  /** A permutation without one occurrence of the last element. */
  lemma PermutationWithout<T>(xs: seq<T>, ys: seq<T>) returns (i: nat)
    requires xs != [] && multiset(xs) == multiset(ys)
    ensures i < |ys| && ys[i] == xs[|xs| - 1] && multiset(xs[..|xs| - 1]) == multiset(RemoveAt(ys, i))
  {
    var init, x := xs[..|xs| - 1], xs[|xs| - 1];
    assert xs == init + [x];
    assert x in multiset(ys);
    i :| 0 <= i < |ys| && ys[i] == x;
    assert RemoveAt(xs, |init|) == init;
    RemoveSame(xs, |init|, ys, i);
  }

  // ---- stable sorting -----------------------------------------------------

  /** less is a strict weak order: irreflexive, transitive, and "neither is less" is transitive. */
  ghost predicate StrictWeakOrder<T(!new)>(less: (T, T) -> bool)
  {
    && (forall x :: !less(x, x))
    && (forall x, y, z :: less(x, y) && less(y, z) ==> less(x, z))
    && (forall x, y, z :: less(x, z) ==> less(x, y) || less(y, z))
  }

  ghost predicate Sorted<T(!new)>(less: (T, T) -> bool, xs: seq<T>)
  {
    forall i, j :: 0 <= i < j < |xs| ==> !less(xs[j], xs[i])
  }

  /** Puts x before the first element that is not less than it. */
  function Insert<T>(less: (T, T) -> bool, x: T, xs: seq<T>): (ys: seq<T>)
    ensures multiset(ys) == multiset(xs) + multiset{x}
  {
    if xs == [] || !less(xs[0], x) then [x] + xs
    else
      assert xs == [xs[0]] + xs[1..];
      [xs[0]] + Insert(less, x, xs[1..])
  }

  /** The stable sort: equal elements keep their order. */
  function StableSort<T>(less: (T, T) -> bool, xs: seq<T>): (ys: seq<T>)
    ensures multiset(ys) == multiset(xs)
    ensures |ys| == |xs|
  {
    if xs == [] then []
    else
      assert xs == [xs[0]] + xs[1..];
      var ys := Insert(less, xs[0], StableSort(less, xs[1..]));
      assert |multiset(ys)| == |multiset(xs)|;
      ys
  }

  lemma InsertMembers<T(!new)>(less: (T, T) -> bool, x: T, xs: seq<T>)
    ensures forall y :: y in Insert(less, x, xs) <==> y == x || y in xs
  {
    forall y ensures y in Insert(less, x, xs) <==> y == x || y in xs {
      assert y in Insert(less, x, xs) <==> y in multiset(Insert(less, x, xs));
      assert y in multiset(xs) + multiset{x} <==> y == x || y in multiset(xs);
    }
  }

  lemma {:induction false} InsertSorted<T(!new)>(less: (T, T) -> bool, x: T, xs: seq<T>)
    requires StrictWeakOrder(less) && Sorted(less, xs)
    ensures Sorted(less, Insert(less, x, xs))
  {
    var ys := Insert(less, x, xs);
    if xs == [] {
    } else if !less(xs[0], x) {
      forall j | 0 < j < |ys| ensures !less(ys[j], ys[0]) {
        assert ys[j] == xs[j-1];
        assert j > 1 ==> !less(xs[j-1], xs[0]);
      }
    } else {
      InsertSorted(less, x, xs[1..]);
      InsertMembers(less, x, xs[1..]);
      var tail := Insert(less, x, xs[1..]);
      forall j | 0 < j < |ys| ensures !less(ys[j], ys[0]) {
        assert ys[j] == tail[j-1] && tail[j-1] in tail;
        if ys[j] != x {
          var k :| 0 <= k < |xs[1..]| && xs[1..][k] == ys[j];
          assert xs[k+1] == ys[j];
        }
      }
    }
  }

  lemma {:induction false} StableSortSorted<T(!new)>(less: (T, T) -> bool, xs: seq<T>)
    requires StrictWeakOrder(less)
    ensures Sorted(less, StableSort(less, xs))
  {
    if xs == [] {
    } else {
      StableSortSorted(less, xs[1..]);
      InsertSorted(less, xs[0], StableSort(less, xs[1..]));
    }
  }

  lemma {:induction false} FilterInsert<T(!new)>(p: T -> bool, less: (T, T) -> bool, x: T, xs: seq<T>)
    requires StrictWeakOrder(less) && Sorted(less, xs)
    ensures Filter(p, Insert(less, x, xs))
         == if p(x) then Insert(less, x, Filter(p, xs)) else Filter(p, xs)
  {
    if xs == [] {
      assert Insert(less, x, xs) == [x] && [x][1..] == [];
    } else if !less(xs[0], x) {
      var fs := Filter(p, xs);
      assert ([x] + xs)[1..] == xs;
      if p(x) && fs != [] {
        FilterMembers(p, xs);
        assert fs[0] in xs;
        var i :| 0 <= i < |xs| && xs[i] == fs[0];
        assert i > 0 ==> !less(xs[i], xs[0]);
      }
    } else {
      FilterInsert(p, less, x, xs[1..]);
      var ys := Insert(less, x, xs);
      assert ys[1..] == Insert(less, x, xs[1..]);
      if p(xs[0]) {
        assert Filter(p, xs)[1..] == Filter(p, xs[1..]);
      } else if p(x) {
        assert Filter(p, ys) == Insert(less, x, Filter(p, xs[1..]));
      }
    }
  }

  /** Sorting stably and selecting commute: selection never changes the order of what is kept. */
  lemma {:induction false} FilterStableSort<T(!new)>(p: T -> bool, less: (T, T) -> bool, xs: seq<T>)
    requires StrictWeakOrder(less)
    ensures Filter(p, StableSort(less, xs)) == StableSort(less, Filter(p, xs))
  {
    if xs == [] {
    } else {
      FilterStableSort(p, less, xs[1..]);
      StableSortSorted(less, xs[1..]);
      FilterInsert(p, less, xs[0], StableSort(less, xs[1..]));
      if p(xs[0]) {
        assert Filter(p, xs)[0] == xs[0] && Filter(p, xs)[1..] == Filter(p, xs[1..]);
      }
    }
  }

  /** A list that is already in order is left as it is. */
  lemma {:induction false} StableSortFixpoint<T(!new)>(less: (T, T) -> bool, xs: seq<T>)
    requires Sorted(less, xs)
    ensures StableSort(less, xs) == xs
  {
    if xs == [] {
    } else {
      assert Sorted(less, xs[1..]);
      StableSortFixpoint(less, xs[1..]);
      assert xs == [xs[0]] + xs[1..];
      if |xs| > 1 {
        assert !less(xs[1], xs[0]);
      }
    }
  }

  /** The elements the order cannot tell from a. */
  function Alike<T(!new)>(less: (T, T) -> bool, a: T): T -> bool
  {
    x => !less(x, a) && !less(a, x)
  }

  /** Elements the order cannot tell apart keep the order they came in. */
  lemma StableSortStable<T(!new)>(less: (T, T) -> bool, xs: seq<T>, a: T)
    requires StrictWeakOrder(less)
    ensures Filter(Alike(less, a), StableSort(less, xs)) == Filter(Alike(less, a), xs)
  {
    var eq := Alike(less, a);
    var fs := Filter(eq, xs);
    FilterStableSort(eq, less, xs);
    FilterMembers(eq, xs);
    forall i, j | 0 <= i < j < |fs| ensures !less(fs[j], fs[i]) {
      assert eq(fs[i]) && eq(fs[j]);
    }
    StableSortFixpoint(less, fs);
  }

  // ---- two elements of a sorted list ---------------------------------------

  lemma {:induction false} FilterOne<T(!new)>(p: T -> bool, xs: seq<T>, i: nat)
    requires i < |xs| && forall k :: 0 <= k < |xs| ==> (p(xs[k]) <==> k == i)
    ensures Filter(p, xs) == [xs[i]]
  {
    if i == 0 {
      FilterNone(p, xs[1..]);
    } else {
      FilterOne(p, xs[1..], i - 1);
    }
  }

  lemma {:induction false} FilterPair<T(!new)>(p: T -> bool, xs: seq<T>, i: nat, j: nat)
    requires i < j < |xs| && forall k :: 0 <= k < |xs| ==> (p(xs[k]) <==> k == i || k == j)
    ensures Filter(p, xs) == [xs[i], xs[j]]
    decreases i
  {
    if i == 0 {
      FilterOne(p, xs[1..], j - 1);
    } else {
      FilterPair(p, xs[1..], i - 1, j - 1);
    }
  }

  /** What a selection puts first comes first. */
  lemma PairOrder<T(!new)>(p: T -> bool, ys: seq<T>, a: T, b: T, n: nat)
    requires Filter(p, ys) == [a, b] && a != b && n < |ys| && ys[n] == b
    ensures exists m :: 0 <= m < n && ys[m] == a
  {
    FilterMembers(p, ys);
    assert [a, b][1] == b && [a, b][0] == a;
    assert p(b);
    FilterSplit(p, ys, n);
    FilterMembers(p, ys[..n]);
    var front, back := Filter(p, ys[..n]), Filter(p, ys[n..]);
    assert back[0] == b;
    hide Filter;
    assert front + back == [a, b];
    assert front == [] ==> back == front + back;
    assert front[0] == (front + back)[0] == a;
    assert a in ys[..n];
  }

  /** Stable sorting puts a before b when a is less, or is not greater and came first. */
  lemma StablePrecedes<T(!new)>(less: (T, T) -> bool, xs: seq<T>, i: nat, j: nat, n: nat)
    requires StrictWeakOrder(less) && Distinct(xs) && i < |xs| && j < |xs| && i != j
    requires less(xs[i], xs[j]) || (i < j && !less(xs[j], xs[i]))
    requires n < |StableSort(less, xs)| && StableSort(less, xs)[n] == xs[j]
    ensures exists m :: 0 <= m < n && StableSort(less, xs)[m] == xs[i]
  {
    var a, b := xs[i], xs[j];
    StablePair(less, xs, i, j);
    hide *;
    PairOrder(Either(a, b), StableSort(less, xs), a, b, n);
  }

  function Either<T(!new, ==)>(a: T, b: T): T -> bool
  {
    x => x == a || x == b
  }

  lemma StablePair<T(!new)>(less: (T, T) -> bool, xs: seq<T>, i: nat, j: nat)
    requires StrictWeakOrder(less) && Distinct(xs) && i < |xs| && j < |xs| && i != j
    requires less(xs[i], xs[j]) || (i < j && !less(xs[j], xs[i]))
    ensures Filter(Either(xs[i], xs[j]), StableSort(less, xs)) == [xs[i], xs[j]]
  {
    hide *;
    var a, b := xs[i], xs[j];
    FilterStableSort(Either(a, b), less, xs);
    if i < j {
      EitherOf(xs, i, j, a, b);
    } else {
      EitherOf(xs, j, i, a, b);
    }
    if !less(b, a) {
      SortedAlready(less, a, b);
    }
    if less(a, b) {
      SortedPair(less, a, b);
    }
    StrictOrder(less, a, b);
  }

  lemma StrictOrder<T(!new)>(less: (T, T) -> bool, a: T, b: T)
    requires StrictWeakOrder(less)
    ensures less(a, b) ==> !less(b, a)
  {
    assert less(a, b) && less(b, a) ==> less(a, a);
  }

  lemma SortedAlready<T(!new)>(less: (T, T) -> bool, a: T, b: T)
    requires !less(b, a)
    ensures StableSort(less, [a, b]) == [a, b]
  {
    StableSortFixpoint(less, [a, b]);
  }

  lemma EitherOf<T(!new)>(xs: seq<T>, i: nat, j: nat, a: T, b: T)
    requires Distinct(xs) && i < j < |xs| && ((a == xs[i] && b == xs[j]) || (a == xs[j] && b == xs[i]))
    ensures Filter(Either(a, b), xs) == [xs[i], xs[j]]
  {
    FilterPair(Either(a, b), xs, i, j);
  }

  lemma SortedPair<T(!new)>(less: (T, T) -> bool, a: T, b: T)
    requires less(a, b)
    ensures StableSort(less, [b, a]) == [a, b]
  {
    assert [b, a][1..] == [a] && [a][1..] == [];
    assert StableSort(less, [a]) == [a];
  }
}

/** Ascending order on hex ids. The backend sorts with SQL `ORDER BY hex_id ASC`
    and the frontend with `localeCompare`; hex ids are lower-case hexadecimal,
    on which both agree with code-point lexicographic order, which is what this
    module defines, together with the insertion sort and the facts the label
    maps need: sorting is a permutation, its result is sorted, and two sorted
    permutations of the same values are equal. */
module StringOrder {

  /** `a` comes before `b` or equals it. */
  predicate Le(a: string, b: string)
    decreases |a|
  {
    |a| == 0 || (|b| > 0 && (a[0] < b[0] || (a[0] == b[0] && Le(a[1..], b[1..]))))
  }

  /** `a` comes strictly before `b`. */
  predicate Lt(a: string, b: string)
  {
    Le(a, b) && a != b
  }

  lemma {:induction false} LeReflexive(a: string)
    ensures Le(a, a)
    decreases |a|
  {
    if |a| > 0 {
      LeReflexive(a[1..]);
    }
  }

  lemma {:induction false} LeTotal(a: string, b: string)
    ensures Le(a, b) || Le(b, a)
    decreases |a|
  {
    if |a| > 0 && |b| > 0 && a[0] == b[0] {
      LeTotal(a[1..], b[1..]);
    }
  }

  lemma {:induction false} LeAntisymmetric(a: string, b: string)
    requires Le(a, b) && Le(b, a)
    ensures a == b
    decreases |a|
  {
    if |a| > 0 && |b| > 0 {
      LeAntisymmetric(a[1..], b[1..]);
      assert a == [a[0]] + a[1..] && b == [b[0]] + b[1..];
    }
  }

  lemma {:induction false} LeTransitive(a: string, b: string, c: string)
    requires Le(a, b) && Le(b, c)
    ensures Le(a, c)
    decreases |a|
  {
    if |a| > 0 && |b| > 0 && |c| > 0 && a[0] == b[0] && b[0] == c[0] {
      LeTransitive(a[1..], b[1..], c[1..]);
    }
  }

  predicate Sorted(xs: seq<string>)
  {
    forall i, j :: 0 <= i < j < |xs| ==> Le(xs[i], xs[j])
  }

  predicate Distinct<T(==)>(xs: seq<T>)
  {
    forall i, j :: 0 <= i < j < |xs| ==> xs[i] != xs[j]
  }

  function Insert(x: string, xs: seq<string>): (r: seq<string>)
    ensures multiset(r) == multiset(xs) + multiset{x}
    ensures |r| == |xs| + 1
  {
    if xs == [] then [x]
    else if Le(x, xs[0]) then [x] + xs
    else
      assert xs == [xs[0]] + xs[1..];
      [xs[0]] + Insert(x, xs[1..])
  }

  lemma {:induction false} InsertSorted(x: string, xs: seq<string>)
    requires Sorted(xs)
    ensures Sorted(Insert(x, xs))
    decreases |xs|
  {
    if xs != [] {
      if Le(x, xs[0]) {
        forall j | 0 < j < |xs| + 1 ensures Le(x, ([x] + xs)[j]) {
          if j > 1 {
            LeTransitive(x, xs[0], xs[j - 1]);
          }
        }
      } else {
        LeTotal(x, xs[0]);
        InsertSorted(x, xs[1..]);
        var r := Insert(x, xs);
        var t := Insert(x, xs[1..]);
        assert r == [xs[0]] + t;
        forall j | 0 <= j < |t| ensures Le(xs[0], t[j]) {
          assert t[j] in multiset(t);
          assert t[j] == x || t[j] in multiset(xs[1..]);
          if t[j] != x {
            var k :| 0 <= k < |xs[1..]| && xs[1..][k] == t[j];
            assert xs[k + 1] == t[j];
          }
        }
      }
    }
  }

  /** Insertion sort: the model of `[...xs].sort(...)` and of `ORDER BY hex_id ASC`. */
  function Sort(xs: seq<string>): (r: seq<string>)
    ensures multiset(r) == multiset(xs)
    ensures |r| == |xs|
  {
    if xs == [] then []
    else
      assert xs == [xs[0]] + xs[1..];
      Insert(xs[0], Sort(xs[1..]))
  }

  lemma {:induction false} SortSorted(xs: seq<string>)
    ensures Sorted(Sort(xs))
    decreases |xs|
  {
    if xs != [] {
      SortSorted(xs[1..]);
      InsertSorted(xs[0], Sort(xs[1..]));
    }
  }

  /** Two sorted arrangements of the same values are the same sequence. */
  lemma {:induction false} SortedUnique(a: seq<string>, b: seq<string>)
    requires Sorted(a) && Sorted(b)
    requires multiset(a) == multiset(b)
    ensures a == b
    decreases |a|
  {
    assert |a| == |multiset(a)| == |multiset(b)| == |b|;
    if a != [] {
      SortedHeadFirst(a, b[0]);
      SortedHeadFirst(b, a[0]);
      LeAntisymmetric(a[0], b[0]);
      TailMultiset(a, b);
      SortedTail(a);
      SortedTail(b);
      SortedUnique(a[1..], b[1..]);
      assert a == [a[0]] + a[1..] && b == [b[0]] + b[1..];
    }
  }

  /** The head of a sorted sequence comes before every value it holds. */
  lemma SortedHeadFirst(a: seq<string>, x: string)
    requires Sorted(a) && x in multiset(a)
    ensures Le(a[0], x)
  {
    var i :| 0 <= i < |a| && a[i] == x;
    if i == 0 {
      LeReflexive(x);
    }
  }

  lemma SortedTail(a: seq<string>)
    requires Sorted(a) && a != []
    ensures Sorted(a[1..])
  {
    forall i, j | 0 <= i < j < |a| - 1 ensures Le(a[1..][i], a[1..][j]) {
      assert a[1..][i] == a[i + 1] && a[1..][j] == a[j + 1];
    }
  }

  lemma TailMultiset(a: seq<string>, b: seq<string>)
    requires a != [] && b != [] && a[0] == b[0]
    requires multiset(a) == multiset(b)
    ensures multiset(a[1..]) == multiset(b[1..])
  {
    assert a == [a[0]] + a[1..];
    assert b == [b[0]] + b[1..];
    assert multiset(a) == multiset{a[0]} + multiset(a[1..]);
    assert multiset(b) == multiset{b[0]} + multiset(b[1..]);
    forall x ensures multiset(a[1..])[x] == multiset(b[1..])[x] {
      assert multiset(a)[x] == multiset{a[0]}[x] + multiset(a[1..])[x];
      assert multiset(b)[x] == multiset{b[0]}[x] + multiset(b[1..])[x];
    }
  }

  /** The sort's result depends only on which values are sorted, not on their input order. */
  lemma SortIgnoresInputOrder(a: seq<string>, b: seq<string>)
    requires multiset(a) == multiset(b)
    ensures Sort(a) == Sort(b)
  {
    SortSorted(a);
    SortSorted(b);
    SortedUnique(Sort(a), Sort(b));
  }

  /** A duplicate-free input gives a duplicate-free, strictly ascending result. */
  lemma SortDistinct(xs: seq<string>)
    requires Distinct(xs)
    ensures Distinct(Sort(xs))
    ensures forall i, j :: 0 <= i < j < |Sort(xs)| ==> Lt(Sort(xs)[i], Sort(xs)[j])
  {
    var r := Sort(xs);
    SortSorted(xs);
    forall i, j | 0 <= i < j < |r| ensures r[i] != r[j] {
      if r[i] == r[j] {
        RepeatCount(r, i, j);
        DistinctCount(xs, r[i]);
        assert false;
      }
    }
  }

  lemma RepeatCount(r: seq<string>, i: nat, j: nat)
    requires i < j < |r| && r[i] == r[j]
    ensures multiset(r)[r[i]] >= 2
  {
    assert r == r[..j] + r[j..];
    assert r[..j][i] == r[i];
    assert r[j..][0] == r[i];
    assert multiset(r) == multiset(r[..j]) + multiset(r[j..]);
  }

  lemma {:induction false} DistinctCount(xs: seq<string>, x: string)
    requires Distinct(xs)
    ensures multiset(xs)[x] <= 1
    decreases |xs|
  {
    if xs != [] {
      assert xs == [xs[0]] + xs[1..];
      DistinctCount(xs[1..], x);
      if xs[0] == x {
        assert x !in xs[1..];
      }
    }
  }

  /** Number of values in `s` that come strictly before `h`: the position `h`
      takes once `s` is listed in ascending order. */
  function Rank(h: string, s: set<string>): nat
  {
    |set x | x in s && Lt(x, h)|
  }

  lemma {:induction false} DistinctCard<T>(xs: seq<T>)
    requires Distinct(xs)
    ensures |set x | x in xs| == |xs|
    decreases |xs|
  {
    if xs != [] {
      var t := xs[..|xs| - 1];
      DistinctCard(t);
      assert (set x | x in xs) == (set x | x in t) + {xs[|xs| - 1]};
      assert xs[|xs| - 1] !in t;
    }
  }

  /** In a strictly ascending list, each element's index is its rank among the list's values. */
  lemma IndexIsRank(xs: seq<string>, i: nat)
    requires forall p, q :: 0 <= p < q < |xs| ==> Lt(xs[p], xs[q])
    requires i < |xs|
    ensures Rank(xs[i], set x | x in xs) == i
  {
    var s := set x | x in xs;
    var below := set x | x in s && Lt(x, xs[i]);
    assert below == set x | x in xs[..i] by {
      forall x | x in below ensures x in xs[..i] {
        var k :| 0 <= k < |xs| && xs[k] == x;
        if k >= i {
          if k > i {
            LeAntisymmetric(xs[i], xs[k]);
          }
          assert false;
        }
        assert xs[..i][k] == x;
      }
    }
    assert Distinct(xs[..i]) by {
      forall p, q | 0 <= p < q < i ensures xs[..i][p] != xs[..i][q] {
        assert Lt(xs[p], xs[q]);
      }
    }
    DistinctCard(xs[..i]);
  }
}

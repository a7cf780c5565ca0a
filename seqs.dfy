/** Order-preserving filters, counts and sums over sequences, the model of
    JavaScript's `Array.prototype.filter`, `filter(...).length` and `reduce((a, b) => a + b, 0)`. */
module Seqs {

  /** The elements of `s` that satisfy `p`, in their original order. */
  function Filter<T>(s: seq<T>, p: T -> bool): (r: seq<T>)
    ensures |r| <= |s|
    ensures forall x :: x in r ==> x in s && p(x)
    ensures forall i :: 0 <= i < |s| && p(s[i]) ==> s[i] in r
  {
    if s == [] then []
    else if p(s[0]) then [s[0]] + Filter(s[1..], p)
    else Filter(s[1..], p)
  }

  /** `r` is `s` with some elements left out and the rest kept in order. */
  ghost predicate Subsequence<T>(r: seq<T>, s: seq<T>)
    decreases |s|
  {
    if r == [] then true
    else if s == [] then false
    else (r[0] == s[0] && Subsequence(r[1..], s[1..])) || Subsequence(r, s[1..])
  }

  lemma {:induction false} FilterIsSubsequence<T>(s: seq<T>, p: T -> bool)
    ensures Subsequence(Filter(s, p), s)
  {
    if s != [] {
      FilterIsSubsequence(s[1..], p);
      if p(s[0]) {
        assert Filter(s, p)[1..] == Filter(s[1..], p);
      }
    }
  }

  lemma {:induction false} FilterConcat<T>(a: seq<T>, b: seq<T>, p: T -> bool)
    ensures Filter(a + b, p) == Filter(a, p) + Filter(b, p)
  {
    if a == [] {
      assert a + b == b;
    } else {
      assert (a + b)[1..] == a[1..] + b;
      FilterConcat(a[1..], b, p);
    }
  }

  /** Filtering by `p` and then by `q` keeps what filtering once by `p && q` keeps. */
  lemma {:induction false} FilterFusion<T>(s: seq<T>, p: T -> bool, q: T -> bool, pq: T -> bool)
    requires forall x :: pq(x) == (p(x) && q(x))
    ensures Filter(Filter(s, p), q) == Filter(s, pq)
  {
    if s != [] {
      FilterFusion(s[1..], p, q, pq);
    }
  }

  /** Two predicates that agree on the elements of `s` filter it alike. */
  lemma {:induction false} FilterCongruent<T>(s: seq<T>, p: T -> bool, q: T -> bool)
    requires forall x :: x in s ==> p(x) == q(x)
    ensures Filter(s, p) == Filter(s, q)
  {
    if s != [] {
      FilterCongruent(s[1..], p, q);
    }
  }

  /** A predicate true of every element keeps the whole sequence. */
  lemma {:induction false} FilterAll<T>(s: seq<T>, p: T -> bool)
    requires forall x :: x in s ==> p(x)
    ensures Filter(s, p) == s
  {
    if s != [] {
      FilterAll(s[1..], p);
    }
  }

  /** A predicate false of every element keeps nothing. */
  lemma {:induction false} FilterNone<T>(s: seq<T>, p: T -> bool)
    requires forall x :: x in s ==> !p(x)
    ensures Filter(s, p) == []
  {
    if s != [] {
      FilterNone(s[1..], p);
    }
  }

  /** Filtering by a predicate and by its negation splits the sequence: the counts add up. */
  lemma {:induction false} FilterComplementCount<T>(s: seq<T>, p: T -> bool, q: T -> bool)
    requires forall x :: q(x) == !p(x)
    ensures |Filter(s, p)| + |Filter(s, q)| == |s|
  {
    if s != [] {
      FilterComplementCount(s[1..], p, q);
    }
  }

  /** The sum of a sequence of reals, `reduce((a, b) => a + b, 0)`. */
  function Sum(s: seq<real>): real
  {
    if s == [] then 0.0 else Sum(s[..|s| - 1]) + s[|s| - 1]
  }

  lemma {:induction false} SumConcat(a: seq<real>, b: seq<real>)
    ensures Sum(a + b) == Sum(a) + Sum(b)
    decreases |b|
  {
    if b == [] {
      assert a + b == a;
    } else {
      assert (a + b)[..|a + b| - 1] == a + b[..|b| - 1];
      SumConcat(a, b[..|b| - 1]);
    }
  }

  lemma SumSnoc(s: seq<real>, x: real)
    ensures Sum(s + [x]) == Sum(s) + x
  {
    assert (s + [x])[..|s|] == s;
  }

  /** A sum of values each at most `hi` is at most `|s| * hi`. */
  lemma {:induction false} SumAtMost(s: seq<real>, hi: real)
    requires forall i :: 0 <= i < |s| ==> s[i] <= hi
    ensures Sum(s) <= |s| as real * hi
  {
    if s != [] {
      SumAtMost(s[..|s| - 1], hi);
    }
  }

  /** A sum of values each at least `lo` is at least `|s| * lo`. */
  lemma {:induction false} SumAtLeast(s: seq<real>, lo: real)
    requires forall i :: 0 <= i < |s| ==> s[i] >= lo
    ensures Sum(s) >= |s| as real * lo
  {
    if s != [] {
      SumAtLeast(s[..|s| - 1], lo);
    }
  }

  /** The number of elements equal to `x`. */
  function Occurrences<T(==)>(s: seq<T>, x: T): nat
  {
    if s == [] then 0 else (if s[0] == x then 1 else 0) + Occurrences(s[1..], x)
  }

  /** No element occurs twice. */
  ghost predicate Distinct<T>(s: seq<T>)
  {
    forall i, j :: 0 <= i < j < |s| ==> s[i] != s[j]
  }

  lemma {:induction false} OccurrencesSnoc<T>(s: seq<T>, y: T, x: T)
    ensures Occurrences(s + [y], x) == Occurrences(s, x) + (if y == x then 1 else 0)
  {
    if s == [] {
      assert [y][1..] == [];
    } else {
      assert (s + [y])[1..] == s[1..] + [y];
      OccurrencesSnoc(s[1..], y, x);
    }
  }

  /** In a list without repeats a value occurs once if it is there and not at all otherwise. */
  lemma {:induction false} OccurrencesOfDistinct<T>(s: seq<T>, x: T)
    requires Distinct(s)
    ensures Occurrences(s, x) == if x in s then 1 else 0
  {
    if s != [] {
      assert Distinct(s[1..]) by {
        forall i, j | 0 <= i < j < |s[1..]|
          ensures s[1..][i] != s[1..][j]
        {
          assert s[1..][i] == s[i + 1] && s[1..][j] == s[j + 1];
        }
      }
      OccurrencesOfDistinct(s[1..], x);
      if s[0] == x {
        forall i | 0 <= i < |s[1..]|
          ensures s[1..][i] != x
        {
          assert s[1..][i] == s[i + 1];
        }
      }
      assert x in s <==> x == s[0] || x in s[1..] by {
        assert s == [s[0]] + s[1..];
      }
    }
  }

  // ---------------------------------------------------------------- flatMap

  /** `s.flatMap(f)`: the pieces `f(x)` one after another, in the order of `s`. */
  function FlatMap<T, U>(s: seq<T>, f: T -> seq<U>): seq<U>
  {
    if s == [] then [] else FlatMap(s[..|s| - 1], f) + f(s[|s| - 1])
  }

  lemma FlatMapSnoc<T, U>(s: seq<T>, x: T, f: T -> seq<U>)
    ensures FlatMap(s + [x], f) == FlatMap(s, f) + f(x)
  {
    assert (s + [x])[..|s|] == s;
  }

  lemma {:induction false} FlatMapConcat<T, U>(a: seq<T>, b: seq<T>, f: T -> seq<U>)
    ensures FlatMap(a + b, f) == FlatMap(a, f) + FlatMap(b, f)
    decreases |b|
  {
    if b == [] {
      assert a + b == a;
    } else {
      assert (a + b)[..|a + b| - 1] == a + b[..|b| - 1];
      FlatMapConcat(a, b[..|b| - 1], f);
    }
  }

  /** Every piece of a flatMap comes from some element, and every element's piece is in. */
  lemma {:induction false} FlatMapMembers<T, U>(s: seq<T>, f: T -> seq<U>, y: U)
    ensures y in FlatMap(s, f) <==> exists i :: 0 <= i < |s| && y in f(s[i])
  {
    if s != [] {
      var init := s[..|s| - 1];
      FlatMapMembers(init, f, y);
      if y in f(s[|s| - 1]) {
      } else if y in FlatMap(init, f) {
        var i :| 0 <= i < |init| && y in f(init[i]);
        assert s[i] == init[i];
      } else {
        forall i | 0 <= i < |s|
          ensures y !in f(s[i])
        {
          if i < |s| - 1 {
            assert s[i] == init[i];
          }
        }
      }
    }
  }

  // ---------------------------------------------------------------- counting by key

  /** The test `key(x) == v`, as one predicate value. */
  function Is<T, K(==)>(key: T -> K, v: K): T -> bool
  {
    (x: T) => key(x) == v
  }

  /** The test `key(x)` is none of `vs`. */
  function Outside<T, K(==)>(key: T -> K, vs: seq<K>): T -> bool
  {
    (x: T) => key(x) !in vs
  }

  /** How many elements of `s` have key `v` (`s.filter(x => key(x) === v).length`). */
  function CountOf<T, K(==)>(s: seq<T>, key: T -> K, v: K): nat
  {
    |Filter(s, Is(key, v))|
  }

  /** The counts of the values `vs`, added up. */
  function SumCounts<T, K(==)>(s: seq<T>, key: T -> K, vs: seq<K>): nat
  {
    if vs == [] then 0 else CountOf(s, key, vs[0]) + SumCounts(s, key, vs[1..])
  }

  lemma {:induction false} SumCountsCons<T, K>(x: T, s: seq<T>, key: T -> K, vs: seq<K>)
    ensures SumCounts([x] + s, key, vs) == SumCounts(s, key, vs) + Occurrences(vs, key(x))
  {
    if vs != [] {
      SumCountsCons(x, s, key, vs[1..]);
      assert ([x] + s)[1..] == s;
    }
  }

  /** Counting each of several distinct values and the elements whose key is none of them
      accounts for every element exactly once. */
  lemma {:induction false} CountsPartition<T, K>(s: seq<T>, key: T -> K, vs: seq<K>)
    requires Distinct(vs)
    ensures SumCounts(s, key, vs) + |Filter(s, Outside(key, vs))| == |s|
  {
    if s == [] {
      SumCountsOfEmpty(key, vs);
    } else {
      CountsPartition(s[1..], key, vs);
      assert s == [s[0]] + s[1..];
      SumCountsCons(s[0], s[1..], key, vs);
      OccurrencesOfDistinct(vs, key(s[0]));
    }
  }

  lemma {:induction false} SumCountsOfEmpty<T, K>(key: T -> K, vs: seq<K>)
    ensures SumCounts([], key, vs) == 0
  {
    if vs != [] {
      SumCountsOfEmpty(key, vs[1..]);
    }
  }

  /** When every key is among the distinct values `vs`, their counts add up to `|s|`. */
  lemma CountsSumToTotal<T, K>(s: seq<T>, key: T -> K, vs: seq<K>)
    requires Distinct(vs)
    requires forall i :: 0 <= i < |s| ==> key(s[i]) in vs
    ensures SumCounts(s, key, vs) == |s|
  {
    CountsPartition(s, key, vs);
    FilterNone(s, Outside(key, vs));
  }

  lemma FilterSingleton<T>(x: T, p: T -> bool)
    ensures Filter([x], p) == if p(x) then [x] else []
  {
    assert [x][1..] == [];
  }

  /** Filtering by two predicates that never both hold gives, together, the elements of the
      filter by their disjunction. */
  lemma {:induction false} FilterDisjointUnion<T>(s: seq<T>, p: T -> bool, q: T -> bool, pq: T -> bool)
    requires forall x :: pq(x) == (p(x) || q(x))
    requires forall x :: !(p(x) && q(x))
    ensures multiset(Filter(s, p)) + multiset(Filter(s, q)) == multiset(Filter(s, pq))
  {
    if s != [] {
      FilterDisjointUnion(s[1..], p, q, pq);
    }
  }

  /** The counts of five values, spelled out. */
  lemma SumCountsOfFive<T, K>(s: seq<T>, key: T -> K, a: K, b: K, c: K, d: K, e: K)
    ensures SumCounts(s, key, [a, b, c, d, e])
      == CountOf(s, key, a) + CountOf(s, key, b) + CountOf(s, key, c) + CountOf(s, key, d) + CountOf(s, key, e)
  {
    assert [a, b, c, d, e][1..] == [b, c, d, e];
    assert [b, c, d, e][1..] == [c, d, e];
    assert [c, d, e][1..] == [d, e];
    assert [d, e][1..] == [e];
    assert [e][1..] == [];
    assert SumCounts(s, key, [e]) == CountOf(s, key, e) + SumCounts(s, key, []);
    assert SumCounts(s, key, [d, e]) == CountOf(s, key, d) + SumCounts(s, key, [e]);
    assert SumCounts(s, key, [c, d, e]) == CountOf(s, key, c) + SumCounts(s, key, [d, e]);
    assert SumCounts(s, key, [b, c, d, e]) == CountOf(s, key, b) + SumCounts(s, key, [c, d, e]);
  }

  /** No element's key is outside `vs` exactly when the elements outside number zero. */
  lemma NoneOutside<T, K>(s: seq<T>, key: T -> K, vs: seq<K>)
    ensures |Filter(s, Outside(key, vs))| == 0 <==> forall i :: 0 <= i < |s| ==> key(s[i]) in vs
  {
    if forall i :: 0 <= i < |s| ==> key(s[i]) in vs {
      FilterNone(s, Outside(key, vs));
    } else {
      var i :| 0 <= i < |s| && key(s[i]) !in vs;
      assert Outside(key, vs)(s[i]);
      assert s[i] in Filter(s, Outside(key, vs));
    }
  }

  lemma CountOfSnoc<T, K>(s: seq<T>, x: T, key: T -> K, v: K)
    ensures CountOf(s + [x], key, v) == CountOf(s, key, v) + (if key(x) == v then 1 else 0)
  {
    FilterConcat(s, [x], Is(key, v));
  }

  lemma {:induction false} OccurrencesConcat<T>(a: seq<T>, b: seq<T>, x: T)
    ensures Occurrences(a + b, x) == Occurrences(a, x) + Occurrences(b, x)
  {
    if a == [] {
      assert a + b == b;
    } else {
      assert (a + b)[1..] == a[1..] + b;
      OccurrencesConcat(a[1..], b, x);
    }
  }

  lemma {:induction false} OccurrencesPositive<T>(s: seq<T>, x: T)
    ensures Occurrences(s, x) > 0 <==> x in s
  {
    if s != [] {
      OccurrencesPositive(s[1..], x);
      assert s == [s[0]] + s[1..];
    }
  }
}

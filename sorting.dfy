/** The stable `Array.prototype.sort` with a comparator on one key, and `[...new Set(xs)].sort()`.
    Stability follows ECMAScript 2019, which requires `sort` to keep equal elements in order. */
module Sorting {
  import opened Seqs
  import opened Text

  /** A sort key: numbers compare by value, strings in code-point order. */
  datatype SortKey = Number(n: int) | Words(s: string)

  /** `a` may come before `b` in ascending order. A column holds keys of one kind; a number is
      placed before a string only to make the order total. */
  predicate KeyLe(a: SortKey, b: SortKey)
  {
    match (a, b)
    case (Number(x), Number(y)) => x <= y
    case (Words(x), Words(y)) => Below(x, y)
    case (Number(_), Words(_)) => true
    case (Words(_), Number(_)) => false
  }

  lemma KeyLeReflexive(a: SortKey)
    ensures KeyLe(a, a)
  {
    if a.Words? {
      BelowReflexive(a.s);
    }
  }

  lemma KeyLeTotal(a: SortKey, b: SortKey)
    ensures KeyLe(a, b) || KeyLe(b, a)
  {
    if a.Words? && b.Words? {
      BelowTotal(a.s, b.s);
    }
  }

  lemma KeyLeAntisymmetric(a: SortKey, b: SortKey)
    requires KeyLe(a, b) && KeyLe(b, a)
    ensures a == b
  {
    if a.Words? && b.Words? {
      BelowAntisymmetric(a.s, b.s);
    }
  }

  lemma KeyLeTransitive(a: SortKey, b: SortKey, c: SortKey)
    requires KeyLe(a, b) && KeyLe(b, c)
    ensures KeyLe(a, c)
  {
    if a.Words? && b.Words? && c.Words? {
      BelowTransitive(a.s, b.s, c.s);
    }
  }

  /** With the comparator `(x, y) => key(x) - key(y)` (or its reverse when `desc`), `x` may
      precede `y`: the comparator does not put `y` strictly first. */
  predicate Precedes<T>(key: T -> SortKey, desc: bool, x: T, y: T)
  {
    if desc then KeyLe(key(y), key(x)) else KeyLe(key(x), key(y))
  }

  lemma PrecedesTotal<T>(key: T -> SortKey, desc: bool, x: T, y: T)
    ensures Precedes(key, desc, x, y) || Precedes(key, desc, y, x)
  {
    KeyLeTotal(key(x), key(y));
  }

  lemma PrecedesTransitive<T>(key: T -> SortKey, desc: bool, x: T, y: T, z: T)
    requires Precedes(key, desc, x, y) && Precedes(key, desc, y, z)
    ensures Precedes(key, desc, x, z)
  {
    if desc {
      KeyLeTransitive(key(z), key(y), key(x));
    } else {
      KeyLeTransitive(key(x), key(y), key(z));
    }
  }

  /** Both orders between `x` and `y` hold only for equal keys: the comparator returns 0. */
  lemma PrecedesBothWays<T>(key: T -> SortKey, desc: bool, x: T, y: T)
    requires Precedes(key, desc, x, y) && Precedes(key, desc, y, x)
    ensures key(x) == key(y)
  {
    KeyLeAntisymmetric(key(x), key(y));
  }

  predicate SortedBy<T>(s: seq<T>, key: T -> SortKey, desc: bool)
  {
    forall i, j :: 0 <= i < j < |s| ==> Precedes(key, desc, s[i], s[j])
  }

  /** Places `x` before the first element it may precede. */
  function Insert<T>(x: T, s: seq<T>, key: T -> SortKey, desc: bool): (r: seq<T>)
    ensures multiset(r) == multiset(s) + multiset{x}
    ensures |r| == |s| + 1
  {
    if s == [] || Precedes(key, desc, x, s[0]) then [x] + s
    else
      assert s == [s[0]] + s[1..];
      [s[0]] + Insert(x, s[1..], key, desc)
  }

  /** `[...s].sort(comparator)` for a comparator that compares one key. */
  function SortBy<T>(s: seq<T>, key: T -> SortKey, desc: bool): (r: seq<T>)
    ensures multiset(r) == multiset(s)
    ensures |r| == |s|
  {
    if s == [] then []
    else
      assert s == [s[0]] + s[1..];
      Insert(s[0], SortBy(s[1..], key, desc), key, desc)
  }

  /** Three elements where only the middle one must move ahead of the first. */
  lemma SortThree<T>(a: T, b: T, c: T, key: T -> SortKey, desc: bool)
    requires Precedes(key, desc, b, c) && !Precedes(key, desc, a, b) && Precedes(key, desc, a, c)
    ensures SortBy([a, b, c], key, desc) == [b, a, c]
  {
    SortTwo(b, c, key, desc);
    InsertSecond(a, b, c, key, desc);
    assert [a, b, c][1..] == [b, c];
  }

  lemma SortTwo<T>(b: T, c: T, key: T -> SortKey, desc: bool)
    requires Precedes(key, desc, b, c)
    ensures SortBy([b, c], key, desc) == [b, c]
  {
    assert [b, c][1..] == [c];
    assert [c][1..] == [];
    assert SortBy([c], key, desc) == [c];
  }

  lemma InsertSecond<T>(a: T, b: T, c: T, key: T -> SortKey, desc: bool)
    requires !Precedes(key, desc, a, b) && Precedes(key, desc, a, c)
    ensures Insert(a, [b, c], key, desc) == [b, a, c]
  {
    assert [b, c][1..] == [c];
    assert Insert(a, [c], key, desc) == [a, c];
    assert [b] + [a, c] == [b, a, c];
  }

  lemma {:induction false} InsertSorted<T>(x: T, s: seq<T>, key: T -> SortKey, desc: bool)
    requires SortedBy(s, key, desc)
    ensures SortedBy(Insert(x, s, key, desc), key, desc)
  {
    if s == [] {
    } else if Precedes(key, desc, x, s[0]) {
      forall j | 1 <= j < |s| + 1
        ensures Precedes(key, desc, x, ([x] + s)[j])
      {
        if j > 1 {
          PrecedesTransitive(key, desc, x, s[0], s[j - 1]);
        }
      }
    } else {
      PrecedesTotal(key, desc, x, s[0]);
      var tail := s[1..];
      assert SortedBy(tail, key, desc);
      InsertSorted(x, tail, key, desc);
      var ins := Insert(x, tail, key, desc);
      forall j | 0 <= j < |tail|
        ensures Precedes(key, desc, s[0], tail[j])
      {
        assert tail[j] == s[j + 1];
      }
      HeadPrecedesInsert(s[0], x, tail, key, desc);
      SortedCons(s[0], ins, key, desc);
    }
  }

  /** An element that may precede `x` and all of `s` may precede all of `x` inserted in `s`. */
  lemma HeadPrecedesInsert<T>(h: T, x: T, s: seq<T>, key: T -> SortKey, desc: bool)
    requires Precedes(key, desc, h, x)
    requires forall j :: 0 <= j < |s| ==> Precedes(key, desc, h, s[j])
    ensures forall j :: 0 <= j < |Insert(x, s, key, desc)| ==> Precedes(key, desc, h, Insert(x, s, key, desc)[j])
  {
    var ins := Insert(x, s, key, desc);
    forall j | 0 <= j < |ins|
      ensures Precedes(key, desc, h, ins[j])
    {
      assert ins[j] in multiset(s) + multiset{x};
      if ins[j] != x {
        assert ins[j] in s;
      }
    }
  }

  /** A sorted list stays sorted behind an element that may precede all of it. */
  lemma SortedCons<T>(h: T, s: seq<T>, key: T -> SortKey, desc: bool)
    requires SortedBy(s, key, desc)
    requires forall j :: 0 <= j < |s| ==> Precedes(key, desc, h, s[j])
    ensures SortedBy([h] + s, key, desc)
  {
    var r := [h] + s;
    forall i, j | 0 <= i < j < |r|
      ensures Precedes(key, desc, r[i], r[j])
    {
      assert r[j] == s[j - 1];
      if i > 0 {
        assert r[i] == s[i - 1];
      }
    }
  }

  /** The result is in comparator order. */
  lemma {:induction false} SortBySorted<T>(s: seq<T>, key: T -> SortKey, desc: bool)
    ensures SortedBy(SortBy(s, key, desc), key, desc)
  {
    if s != [] {
      SortBySorted(s[1..], key, desc);
      InsertSorted(s[0], SortBy(s[1..], key, desc), key, desc);
    }
  }

  /** Inserting `x` in front of the elements it may precede keeps `x` ahead of every element
      with the same key. */
  lemma {:induction false} InsertStable<T>(x: T, s: seq<T>, key: T -> SortKey, desc: bool, k: SortKey)
    ensures Filter(Insert(x, s, key, desc), Is(key, k)) == Filter([x] + s, Is(key, k))
  {
    if s != [] && !Precedes(key, desc, x, s[0]) {
      var p, t := Is(key, k), s[1..];
      InsertStable(x, t, key, desc, k);
      KeyLeReflexive(key(x));
      assert key(s[0]) != key(x);
      assert p(x) == (key(x) == k) && p(s[0]) == (key(s[0]) == k);
      var ins := Insert(x, t, key, desc);
      FilterConcat([s[0]], ins, p);
      FilterConcat([x], t, p);
      assert s == [s[0]] + t;
      FilterConcat([s[0]], t, p);
      FilterConcat([x], s, p);
      FilterSingleton(x, p);
      FilterSingleton(s[0], p);
    }
  }

  /** Stability: the elements sharing any one key keep their input order. */
  lemma {:induction false} SortByStable<T>(s: seq<T>, key: T -> SortKey, desc: bool, k: SortKey)
    ensures Filter(SortBy(s, key, desc), Is(key, k)) == Filter(s, Is(key, k))
  {
    if s != [] {
      SortByStable(s[1..], key, desc, k);
      var sorted := SortBy(s[1..], key, desc);
      InsertStable(s[0], sorted, key, desc, k);
      FilterConcat([s[0]], sorted, Is(key, k));
      FilterConcat([s[0]], s[1..], Is(key, k));
      assert [s[0]] + s[1..] == s;
    }
  }

  lemma {:induction false} DistinctMultiplicity<T>(a: seq<T>, x: T)
    requires Distinct(a)
    ensures multiset(a)[x] <= 1
  {
    if a != [] {
      var rest := a[1..];
      assert a == [a[0]] + rest;
      assert Distinct(rest) by {
        forall i, j | 0 <= i < j < |rest|
          ensures rest[i] != rest[j]
        {
          assert rest[i] == a[i + 1] && rest[j] == a[j + 1];
        }
      }
      DistinctMultiplicity(rest, x);
      if x == a[0] {
        assert x !in rest by {
          forall j | 0 <= j < |rest|
            ensures rest[j] != x
          {
            assert rest[j] == a[j + 1];
          }
        }
      }
    }
  }

  lemma RepeatedMultiplicity<T>(b: seq<T>, i: int, j: int)
    requires 0 <= i < j < |b| && b[i] == b[j]
    ensures multiset(b)[b[i]] >= 2
  {
    assert b == b[..i] + [b[i]] + (b[i + 1..j] + [b[j]] + b[j + 1..]);
  }

  /** The sorted sequence has the same elements, so distinct input stays distinct. */
  lemma DistinctOfPermutation<T>(a: seq<T>, b: seq<T>)
    requires multiset(a) == multiset(b) && Distinct(a)
    ensures Distinct(b)
  {
    forall i, j | 0 <= i < j < |b|
      ensures b[i] != b[j]
    {
      if b[i] == b[j] {
        RepeatedMultiplicity(b, i, j);
        DistinctMultiplicity(a, b[i]);
      }
    }
  }

  function AsWords(s: string): SortKey { Words(s) }

  /** `Array.from(new Set(xs)).sort()`: the distinct values in code-point order. */
  function SortedUnique(xs: seq<string>): (r: seq<string>)
    ensures forall x :: x in r <==> x in xs
    ensures Distinct(r)
    ensures forall i, j :: 0 <= i < j < |r| ==> Below(r[i], r[j]) && r[i] != r[j]
  {
    var d := Dedup(xs);
    DedupMembers(xs);
    var r := SortBy(d, AsWords, false);
    SortBySorted(d, AsWords, false);
    DistinctOfPermutation(d, r);
    assert forall x :: x in r <==> x in multiset(d);
    assert forall i, j :: 0 <= i < j < |r| ==> KeyLe(AsWords(r[i]), AsWords(r[j]));
    r
  }
}

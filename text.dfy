/** Strings as JavaScript uses them in the views: `toLowerCase`, `includes`, the order of the
    default `Array.prototype.sort` (taken as code-point order), `new Set(...)` in insertion order.
    A Dafny string is a sequence of Unicode scalar values, so lengths and positions count code
    points, not UTF-16 code units. */
module Text {
  import opened Seqs

  /** `toLowerCase` on one character; only the ASCII letters are folded. */
  function LowerChar(c: char): (r: char)
    ensures 'A' <= c <= 'Z' ==> r as int == c as int + 32
    ensures !('A' <= c <= 'Z') ==> r == c
    ensures !('A' <= r <= 'Z')
  {
    if 'A' <= c <= 'Z' then (c as int + 32) as char else c
  }

  function Lower(s: string): (r: string)
    ensures |r| == |s| && forall i :: 0 <= i < |s| ==> r[i] == LowerChar(s[i])
  {
    seq(|s|, i requires 0 <= i < |s| => LowerChar(s[i]))
  }

  /** Lower-casing twice is lower-casing once. */
  lemma LowerIdempotent(s: string)
    ensures Lower(Lower(s)) == Lower(s)
  {
  }

  predicate StartsWith(s: string, prefix: string)
  {
    |prefix| <= |s| && s[..|prefix|] == prefix
  }

  /** `s.includes(sub)`. */
  function Contains(s: string, sub: string): bool
    decreases |s|
  {
    if StartsWith(s, sub) then true
    else if s == [] then false
    else Contains(s[1..], sub)
  }

  /** `sub` occurs in `s` starting at position `i`. */
  predicate OccursAt(s: string, sub: string, i: int)
  {
    0 <= i <= |s| - |sub| && s[i..i + |sub|] == sub
  }

  /** `Contains` finds `sub` exactly when it occurs at some position of `s`. */
  lemma {:induction false} ContainsMeaning(s: string, sub: string)
    ensures Contains(s, sub) <==> exists i :: OccursAt(s, sub, i)
    decreases |s|
  {
    if StartsWith(s, sub) {
      assert OccursAt(s, sub, 0);
    } else if s != [] {
      ContainsMeaning(s[1..], sub);
      if Contains(s[1..], sub) {
        var i :| OccursAt(s[1..], sub, i);
        SliceOfTail(s, i, i + |sub|);
        assert OccursAt(s, sub, i + 1);
      } else {
        assert forall j :: !OccursAt(s[1..], sub, j);
        forall i
          ensures !OccursAt(s, sub, i)
        {
          if i == 0 && |sub| <= |s| {
            assert s[0..|sub|] == s[..|sub|];
          } else if 0 < i <= |s| - |sub| {
            SliceOfTail(s, i - 1, i - 1 + |sub|);
            assert !OccursAt(s[1..], sub, i - 1);
          }
        }
      }
    } else {
      forall i
        ensures !OccursAt(s, sub, i)
      {
      }
    }
  }

  lemma SliceOfTail(s: string, a: int, b: int)
    requires s != [] && 0 <= a <= b <= |s| - 1
    ensures s[1..][a..b] == s[a + 1..b + 1]
  {
    assert forall k :: 0 <= k < b - a ==> s[1..][a..b][k] == s[a + 1 + k];
  }

  lemma ContainsEmpty(s: string)
    ensures Contains(s, "")
  {
    assert s[..0] == "";
  }

  // ---------------------------------------------------------------- order

  /** `a` sorts no later than `b` in code-point order: the order of Python's `sorted`, and of
      the default `sort()` (which compares UTF-16 code units) on strings without characters
      above U+FFFF. */
  predicate Below(a: string, b: string)
    decreases |a|
  {
    if a == [] then true
    else if b == [] then false
    else if a[0] != b[0] then a[0] < b[0]
    else Below(a[1..], b[1..])
  }

  lemma {:induction false} BelowReflexive(a: string)
    ensures Below(a, a)
  {
    if a != [] {
      BelowReflexive(a[1..]);
    }
  }

  lemma {:induction false} BelowTotal(a: string, b: string)
    ensures Below(a, b) || Below(b, a)
    decreases |a|
  {
    if a != [] && b != [] && a[0] == b[0] {
      BelowTotal(a[1..], b[1..]);
    }
  }

  lemma {:induction false} BelowAntisymmetric(a: string, b: string)
    requires Below(a, b) && Below(b, a)
    ensures a == b
    decreases |a|
  {
    if a != [] && b != [] {
      BelowAntisymmetric(a[1..], b[1..]);
      assert a == [a[0]] + a[1..] && b == [b[0]] + b[1..];
    }
  }

  lemma {:induction false} BelowTransitive(a: string, b: string, c: string)
    requires Below(a, b) && Below(b, c)
    ensures Below(a, c)
    decreases |a|
  {
    if a != [] && b != [] && c != [] && a[0] == b[0] && b[0] == c[0] {
      BelowTransitive(a[1..], b[1..], c[1..]);
    }
  }

  lemma BelowExamples()
    ensures Below("Financial", "Operational") && !Below("Operational", "Financial")
    ensures Below("Zeta", "alpha")
    ensures Below("Risk", "Risks") && !Below("Risks", "Risk")
  {
    assert "Zeta"[0] == 'Z' && "alpha"[0] == 'a';
    assert "Risk"[1..] == "isk" && "Risks"[1..] == "isks";
    assert "isk"[1..] == "sk" && "isks"[1..] == "sks";
    assert "sk"[1..] == "k" && "sks"[1..] == "ks";
    assert "k"[1..] == "" && "ks"[1..] == "s";
  }

  // ---------------------------------------------------------------- sets in insertion order

  /** The distinct elements of `s` in order of first appearance, the iteration order of a
      JavaScript `Set` filled from `s`. */
  function Dedup<T(==)>(s: seq<T>): (r: seq<T>)
    ensures |r| <= |s|
  {
    if s == [] then []
    else
      var r := Dedup(s[..|s| - 1]);
      if s[|s| - 1] in r then r else r + [s[|s| - 1]]
  }

  /** The distinct elements are exactly the elements, each once. */
  lemma {:induction false} DedupMembers<T>(s: seq<T>)
    ensures forall x :: x in Dedup(s) <==> x in s
    ensures Distinct(Dedup(s))
    decreases |s|
  {
    if s != [] {
      var init, last := s[..|s| - 1], s[|s| - 1];
      DedupMembers(init);
      assert s == init + [last];
      assert forall x :: x in s <==> x in init || x == last;
      var r := Dedup(init);
      if last !in r {
        assert Distinct(r + [last]) by {
          forall i, j | 0 <= i < j < |r + [last]|
            ensures (r + [last])[i] != (r + [last])[j]
          {
            if j == |r| {
              assert (r + [last])[i] == r[i];
            } else {
              assert (r + [last])[i] == r[i] && (r + [last])[j] == r[j];
            }
          }
        }
      }
    }
  }

  /** An element's first occurrence decides its place: a prefix of the input yields a prefix
      of the output. */
  lemma {:induction false} DedupOfPrefix<T>(s: seq<T>, x: T)
    ensures Dedup(s + [x]) == if x in Dedup(s) then Dedup(s) else Dedup(s) + [x]
  {
    assert (s + [x])[..|s + [x]| - 1] == s;
  }

  lemma {:induction false} DedupOfDistinct<T>(s: seq<T>)
    requires Distinct(s)
    ensures Dedup(s) == s
    decreases |s|
  {
    if s != [] {
      var init, last := s[..|s| - 1], s[|s| - 1];
      assert Distinct(init) by {
        forall i, j | 0 <= i < j < |init|
          ensures init[i] != init[j]
        {
          assert init[i] == s[i] && init[j] == s[j];
        }
      }
      DedupOfDistinct(init);
      assert last !in init by {
        forall j | 0 <= j < |init|
          ensures init[j] != last
        {
          assert init[j] == s[j];
        }
      }
    }
  }
}

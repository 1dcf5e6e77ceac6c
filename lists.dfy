// Facts about lists that the reports rely on: sums of a field, as Python's
// `sum(f(x) for x in xs)`, do not depend on the order of the list, and
// neither does a list's having distinct keys.

module Lists {

  /** Python's `min` on two integers. */
  function Min(a: int, b: int): int { if a <= b then a else b }

  /** `sum(f(x) for x in s)`. */
  function SumOf<T>(s: seq<T>, f: T -> int): int {
    if s == [] then 0 else SumOf(s[..|s| - 1], f) + f(s[|s| - 1])
  }

  lemma SumOfSnoc<T>(s: seq<T>, x: T, f: T -> int)
    ensures SumOf(s + [x], f) == SumOf(s, f) + f(x)
  {
    assert (s + [x])[..|s|] == s;
  }

  lemma {:induction false} SumOfAppend<T>(a: seq<T>, b: seq<T>, f: T -> int)
    ensures SumOf(a + b, f) == SumOf(a, f) + SumOf(b, f)
  {
    if b != [] {
      assert (a + b)[..|a + b| - 1] == a + b[..|b| - 1];
      SumOfAppend(a, b[..|b| - 1], f);
    } else {
      assert a + b == a;
    }
  }

  /** In two lists holding the same elements, the last element of the first
      sits at some index `k` of the second, and the rest of the two lists
      again hold the same elements. */
  lemma PickLast<T>(a: seq<T>, b: seq<T>) returns (k: int)
    requires multiset(a) == multiset(b) && a != []
    ensures 0 <= k < |b| && b[k] == a[|a| - 1]
    ensures multiset(a[..|a| - 1]) == multiset(b[..k] + b[k + 1..])
  {
    var x := a[|a| - 1];
    assert x in multiset(b);
    k :| 0 <= k < |b| && b[k] == x;
    var a' := a[..|a| - 1];
    assert a == a' + [x];
    assert multiset(a) == multiset(a') + multiset{x};
    assert multiset(b) == multiset(b[..k]) + multiset{x} + multiset(b[k + 1..]) by {
      assert b == b[..k] + [x] + b[k + 1..];
    }
    assert multiset(a') == multiset(a) - multiset{x};
  }

  /** A sum does not depend on the order of the list. */
  lemma {:induction false} SumOfPermutation<T>(a: seq<T>, b: seq<T>, f: T -> int)
    requires multiset(a) == multiset(b)
    ensures SumOf(a, f) == SumOf(b, f)
    decreases |a|
  {
    if a != [] {
      var k := PickLast(a, b);
      var x := a[|a| - 1];
      var a' := a[..|a| - 1];
      SumOfPermutation(a', b[..k] + b[k + 1..], f);
      assert b == b[..k] + [x] + b[k + 1..];
      SumOfAppend(b[..k] + [x], b[k + 1..], f);
      SumOfAppend(b[..k], [x], f);
      SumOfAppend(b[..k], b[k + 1..], f);
    } else {
      assert |b| == |multiset(b)| == 0;
    }
  }

  /** Two lists whose elements contribute the same amounts index by index
      have the same sum. */
  lemma {:induction false} SumOfPointwise<T, U>(a: seq<T>, f: T -> int, b: seq<U>, g: U -> int)
    requires |a| == |b| && forall i :: 0 <= i < |a| ==> f(a[i]) == g(b[i])
    ensures SumOf(a, f) == SumOf(b, g)
  {
    if a != [] {
      SumOfPointwise(a[..|a| - 1], f, b[..|b| - 1], g);
    }
  }

  /** Reordering a list whose elements have distinct keys keeps them
      distinct. */
  lemma {:induction false} DistinctPermutation<T>(a: seq<T>, b: seq<T>, key: T -> string)
    requires multiset(a) == multiset(b)
    requires forall i, j :: 0 <= i < j < |a| ==> key(a[i]) != key(a[j])
    ensures forall i, j :: 0 <= i < j < |b| ==> key(b[i]) != key(b[j])
    decreases |a|
  {
    if a != [] {
      var k := PickLast(a, b);
      var x := a[|a| - 1];
      var a' := a[..|a| - 1];
      var b' := b[..k] + b[k + 1..];
      DistinctPermutation(a', b', key);
      forall m | 0 <= m < |b'| ensures key(b'[m]) != key(x) {
        assert b'[m] in multiset(a');
        var n :| 0 <= n < |a'| && a'[n] == b'[m];
        assert a[n] == b'[m];
      }
      forall i, j | 0 <= i < j < |b| ensures key(b[i]) != key(b[j]) {
        if j < k {
          assert b[i] == b'[i] && b[j] == b'[j];
        } else if j == k {
          assert b[i] == b'[i];
        } else if i < k {
          assert b[i] == b'[i] && b[j] == b'[j - 1];
        } else if i == k {
          assert b[j] == b'[j - 1];
        } else {
          assert b[i] == b'[i - 1] && b[j] == b'[j - 1];
        }
      }
    }
  }
}

/**
 * Small, application-independent vocabulary shared by the other modules:
 * an optional value, and the facts about sequences that the store and the
 * checkout rely on (subsequences, duplicate-freedom, removal of a value).
 */
module Common {

  /** A value that may be absent; JavaScript's `null`/`undefined` map to `None`. */
  datatype Option<+T> = None | Some(value: T)

  /**
   * `a` can be obtained from `b` by deleting elements without reordering:
   * each element of `b` is either kept (and then it is the next one of `a`)
   * or dropped.
   */
  predicate IsSubsequence<T(==)>(a: seq<T>, b: seq<T>)
    decreases |b|
  {
    if |b| == 0 then |a| == 0
    else (|a| > 0 && a[0] == b[0] && IsSubsequence(a[1..], b[1..])) || IsSubsequence(a, b[1..])
  }

  /** No value occurs twice. */
  predicate NoDuplicates<T(==)>(s: seq<T>) {
    forall i, j :: 0 <= i < j < |s| ==> s[i] != s[j]
  }

  /** The elements of a subsequence all come from the sequence it was taken from. */
  lemma {:induction false} SubsequenceElements<T>(a: seq<T>, b: seq<T>)
    requires IsSubsequence(a, b)
    ensures forall x :: x in a ==> x in b
    decreases |b|
  {
    if |b| > 0 {
      if |a| > 0 && a[0] == b[0] && IsSubsequence(a[1..], b[1..]) {
        SubsequenceElements(a[1..], b[1..]);
        assert forall x :: x in a ==> x == a[0] || x in a[1..];
      } else {
        SubsequenceElements(a, b[1..]);
      }
    }
  }

  /** A sequence with a value prepended is duplicate-free iff the tail is and lacks that value. */
  lemma ConsNoDuplicates<T>(x: T, s: seq<T>)
    ensures NoDuplicates([x] + s) <==> (x !in s && NoDuplicates(s))
  {
    var t := [x] + s;
    if NoDuplicates(t) {
      forall i, j | 0 <= i < j < |s| ensures s[i] != s[j] {
        assert t[i + 1] == s[i] && t[j + 1] == s[j];
      }
      forall k | 0 <= k < |s| ensures s[k] != x {
        assert t[0] == x && t[k + 1] == s[k] && 0 < k + 1;
      }
    }
    if x !in s && NoDuplicates(s) {
      forall i, j | 0 <= i < j < |t| ensures t[i] != t[j] {
        if i == 0 {
          assert t[j] == s[j - 1];
        } else {
          assert t[i] == s[i - 1] && t[j] == s[j - 1];
        }
      }
    }
  }

  /**
   * The elements satisfying `p`, in their original order (JavaScript's
   * `list.filter(p)`).
   */
  function Filter<T(==)>(s: seq<T>, p: T -> bool): (r: seq<T>)
    ensures forall i :: 0 <= i < |r| ==> p(r[i])
    ensures forall i :: 0 <= i < |s| && p(s[i]) ==> s[i] in r
    ensures forall i :: 0 <= i < |r| ==> r[i] in s
    ensures IsSubsequence(r, s)
    ensures |r| <= |s|
    decreases |s|
  {
    if |s| == 0 then []
    else if p(s[0]) then [s[0]] + Filter(s[1..], p)
    else Filter(s[1..], p)
  }

  /**
   * Filtering keeps every passing value as many times as it occurs, and no
   * other value: together with the subsequence property this pins the
   * result down completely.
   */
  lemma {:induction false} FilterCounts<T>(s: seq<T>, p: T -> bool)
    ensures forall x :: multiset(Filter(s, p))[x] == if p(x) then multiset(s)[x] else 0
    decreases |s|
  {
    if |s| > 0 {
      FilterCounts(s[1..], p);
      assert s == [s[0]] + s[1..];
      assert multiset(s) == multiset{s[0]} + multiset(s[1..]);
    }
  }

  /** Filtering a sequence whose elements all pass changes nothing. */
  lemma {:induction false} FilterAllPass<T>(s: seq<T>, p: T -> bool)
    requires forall i :: 0 <= i < |s| ==> p(s[i])
    ensures Filter(s, p) == s
    decreases |s|
  {
    if |s| > 0 {
      FilterAllPass(s[1..], p);
      assert s == [s[0]] + s[1..];
    }
  }

  /** Two tests that agree on every element of a sequence filter it alike. */
  lemma {:induction false} FilterAgrees<T>(s: seq<T>, p: T -> bool, q: T -> bool)
    requires forall i :: 0 <= i < |s| ==> p(s[i]) == q(s[i])
    ensures Filter(s, p) == Filter(s, q)
    decreases |s|
  {
    if |s| > 0 {
      assert forall i :: 1 <= i < |s| ==> s[i] == s[1..][i - 1];
      FilterAgrees(s[1..], p, q);
    }
  }

  /** Filtering twice is filtering once. */
  lemma FilterIdempotent<T>(s: seq<T>, p: T -> bool)
    ensures Filter(Filter(s, p), p) == Filter(s, p)
  {
    FilterAllPass(Filter(s, p), p);
  }

  /** Filtering distributes over concatenation. */
  lemma {:induction false} FilterConcat<T>(a: seq<T>, b: seq<T>, p: T -> bool)
    ensures Filter(a + b, p) == Filter(a, p) + Filter(b, p)
    decreases |a|
  {
    if |a| > 0 {
      assert (a + b)[1..] == a[1..] + b;
      FilterConcat(a[1..], b, p);
    } else {
      assert a + b == b;
    }
  }

  /** Filtering keeps a duplicate-free sequence duplicate-free. */
  lemma {:induction false} FilterNoDuplicates<T>(s: seq<T>, p: T -> bool)
    requires NoDuplicates(s)
    ensures NoDuplicates(Filter(s, p))
    decreases |s|
  {
    if |s| > 0 {
      assert s == [s[0]] + s[1..];
      ConsNoDuplicates(s[0], s[1..]);
      FilterNoDuplicates(s[1..], p);
      if p(s[0]) {
        ConsNoDuplicates(s[0], Filter(s[1..], p));
      }
    }
  }

  /** Every occurrence of `x` removed, the rest kept in order (`list.filter(o => o !== x)`). */
  function Without<T(==)>(s: seq<T>, x: T): (r: seq<T>)
    ensures x !in r
    ensures forall i :: 0 <= i < |s| && s[i] != x ==> s[i] in r
    ensures forall i :: 0 <= i < |r| ==> r[i] in s
  {
    Filter(s, Differs(x))
  }

  /** The test `o => o !== x`. */
  function Differs<T(==)>(x: T): T -> bool {
    y => y != x
  }

  /**
   * In a duplicate-free sequence that contains `x`, removing `x` takes away
   * exactly one occurrence and nothing else.
   */
  lemma {:induction false} WithoutOnce<T>(s: seq<T>, x: T)
    requires NoDuplicates(s) && x in s
    ensures multiset(Without(s, x)) + multiset{x} == multiset(s)
    decreases |s|
  {
    assert s == [s[0]] + s[1..];
    ConsNoDuplicates(s[0], s[1..]);
    if s[0] == x {
      FilterAllPass(s[1..], Differs(x));
    } else {
      WithoutOnce(s[1..], x);
    }
  }
}

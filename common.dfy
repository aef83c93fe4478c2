/** Small value types and the Python list operations the game relies on. */
module Common {

  datatype Option<T> = None | Some(value: T)

  /** Index of the first occurrence of `x` (Python `list.index`, which raises when `x` is absent). */
  function IndexOf<T(==)>(s: seq<T>, x: T): (i: nat)
    requires x in s
    ensures i < |s| && s[i] == x && x !in s[..i]
  {
    if s[0] == x then 0 else 1 + IndexOf(s[1..], x)
  }

  /**
   * Python `list.remove`: drop the first occurrence of `x` (the source
   * raises when `x` is absent); every other element keeps its order.
   */
  function RemoveFirst<T(==)>(s: seq<T>, x: T): (r: seq<T>)
    requires x in s
    ensures |r| == |s| - 1
    ensures multiset(r) == multiset(s) - multiset{x}
    ensures forall y :: y in r ==> y in s
    ensures forall y :: y in s && y != x ==> y in r
  {
    var i := IndexOf(s, x);
    assert s == s[..i] + [x] + s[i + 1..];
    assert multiset(s) == multiset(s[..i]) + multiset{x} + multiset(s[i + 1..]);
    s[..i] + s[i + 1..]
  }

  /** `a` is `b` with some elements left out and the rest kept in their order. */
  predicate Subsequence<T(==)>(a: seq<T>, b: seq<T>)
    decreases |b|
  {
    if |b| == 0 then |a| == 0
    else (|a| > 0 && a[0] == b[0] && Subsequence(a[1..], b[1..])) || Subsequence(a, b[1..])
  }

  /** Every list is a subsequence of itself. */
  lemma {:induction false} SubsequenceRefl<T>(s: seq<T>)
    ensures Subsequence(s, s)
    decreases |s|
  {
    if |s| > 0 {
      SubsequenceRefl(s[1..]);
    }
  }

  /** Leaving out more elements of a subsequence gives a subsequence. */
  lemma {:induction false} SubsequenceTrans<T>(a: seq<T>, b: seq<T>, c: seq<T>)
    requires Subsequence(a, b) && Subsequence(b, c)
    ensures Subsequence(a, c)
    decreases |c|
  {
    if |c| > 0 {
      if Subsequence(b, c[1..]) {
        SubsequenceTrans(a, b, c[1..]);
      } else if |a| > 0 && a[0] == b[0] && Subsequence(a[1..], b[1..]) {
        SubsequenceTrans(a[1..], b[1..], c[1..]);
      } else {
        SubsequenceTrans(a, b[1..], c[1..]);
      }
    }
  }

  /** Leaving out the element at `i` keeps the others in their order. */
  lemma {:induction false} SkipOneSubsequence<T>(s: seq<T>, i: nat)
    requires i < |s|
    ensures Subsequence(s[..i] + s[i + 1..], s)
    decreases i
  {
    var r := s[..i] + s[i + 1..];
    if i == 0 {
      assert r == s[1..];
      SubsequenceRefl(s[1..]);
    } else {
      assert r[1..] == s[1..][..i - 1] + s[1..][i..];
      SkipOneSubsequence(s[1..], i - 1);
    }
  }

  /** Python `list.remove` keeps the order of the elements it leaves. */
  lemma RemoveFirstSubsequence<T>(s: seq<T>, x: T)
    requires x in s
    ensures Subsequence(RemoveFirst(s, x), s)
  {
    SkipOneSubsequence(s, IndexOf(s, x));
  }

  /** No element occurs twice. */
  predicate Distinct<T(==)>(s: seq<T>)
  {
    forall i, j :: 0 <= i < j < |s| ==> s[i] != s[j]
  }

  /** In a list without repeats, list.index finds each position's own element there. */
  lemma IndexOfDistinct<T>(s: seq<T>, k: nat)
    requires Distinct(s) && k < |s|
    ensures IndexOf(s, s[k]) == k
  {
    var i := IndexOf(s, s[k]);
    assert s[k] !in s[..i];
  }

  /** Removing an element from a list without repeats leaves no copy of it and no repeats. */
  lemma RemoveFirstDistinct<T>(s: seq<T>, x: T)
    requires x in s && Distinct(s)
    ensures Distinct(RemoveFirst(s, x)) && x !in RemoveFirst(s, x)
  {
    var i := IndexOf(s, x);
    var r := RemoveFirst(s, x);
    assert r == s[..i] + s[i + 1..];
    forall a, b | 0 <= a < b < |r|
      ensures r[a] != r[b]
    {
      var a' := if a < i then a else a + 1;
      var b' := if b < i then b else b + 1;
      assert r[a] == s[a'] && r[b] == s[b'];
    }
  }

  /** Python `min` of two integers. */
  function Min(a: int, b: int): (m: int)
    ensures m <= a && m <= b && (m == a || m == b)
  {
    if a <= b then a else b
  }

  /** A part of either side is a part of a union, whichever order it is written in. */
  lemma SubsetOfUnion<T>(x: set<T>, a: set<T>, b: set<T>)
    requires x <= a
    ensures x <= a + b && x <= b + a
  {
  }

  /** Regrouping unions of sets. */
  lemma UnionAssoc<T>(x: set<T>, y: set<T>, z: set<T>)
    ensures x + (y + z) == x + y + z
  {
  }

  lemma UnionEmpty<T>(x: set<T>)
    ensures x + {} == x
  {
  }

  lemma UnionRegroup<T>(x: set<T>, a: set<T>, b: set<T>, c: set<T>, d: set<T>)
    ensures x + (a + b + c + d) == x + a + b + c + d
  {
  }
}

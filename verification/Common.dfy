/** Options, and what is needed of sequences without duplicates. */
module Common {

  datatype Option<+T> = None | Some(value: T)

  function RemoveAt<T>(s: seq<T>, i: nat): seq<T>
    requires i < |s|
  {
    s[..i] + s[i + 1..]
  }

  lemma Assoc<T>(a: seq<T>, b: seq<T>, c: seq<T>)
    ensures a + (b + c) == (a + b) + c
  {
  }

  predicate Distinct<T(==)>(s: seq<T>) {
    forall i, j :: 0 <= i < j < |s| ==> s[i] != s[j]
  }

  lemma {:induction false} DistinctCard<T>(s: seq<T>)
    requires Distinct(s)
    ensures |set e | e in s| == |s|
  {
    if s != [] {
      var t := s[1..];
      DistinctCard(t);
      assert (set e | e in s) == (set e | e in t) + {s[0]};
    }
  }

  lemma {:induction false} DistinctCount<T>(s: seq<T>, n: T)
    requires Distinct(s)
    ensures multiset(s)[n] <= 1
  {
    if s != [] {
      DistinctCount(s[1..], n);
      assert s == [s[0]] + s[1..];
      assert n == s[0] ==> n !in s[1..];
    }
  }

  lemma {:induction false} SubsetCard<T>(x: set<T>, y: set<T>)
    requires x <= y
    ensures |x| <= |y|
  {
    assert y == x + (y - x);
  }
}

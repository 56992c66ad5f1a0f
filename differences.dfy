/** retrieve_differences: the two one-sided set differences of two lists,
    each turned back into a list. Python lists a set in an order it does
    not specify; this model lists each difference in order of first
    occurrence in its input. */
module Differences {

  /** set(s) */
  ghost function Elements<T>(s: seq<T>): set<T>
  {
    set x | x in s
  }

  /** No value occurs twice in `s`. */
  predicate Distinct<T(==)>(s: seq<T>)
  {
    forall i, j | 0 <= i < j < |s| :: s[i] != s[j]
  }

  lemma ElementsAppend<T>(a: seq<T>, b: seq<T>)
    ensures Elements(a + b) == Elements(a) + Elements(b)
  {
    assert forall x | x in a + b :: x in a || x in b;
  }

  lemma ElementsEmpty<T>(s: seq<T>)
    ensures Elements(s) == {} <==> s == []
  {
    if s != [] {
      assert s[0] in Elements(s);
    }
  }

  /** The elements of `a` that are not in `b`, in order, repeats kept. */
  function Without<T(==)>(a: seq<T>, b: seq<T>): (r: seq<T>)
    ensures Elements(r) == Elements(a) - Elements(b)
  {
    if a == [] then []
    else
      assert Elements(a) == {a[0]} + Elements(a[1..]) by {
        assert forall x | x in a :: x == a[0] || x in a[1..];
      }
      var head := if a[0] in b then [] else [a[0]];
      ElementsAppend(head, Without(a[1..], b));
      head + Without(a[1..], b)
  }

  /** The first occurrence of every value of `s`, in order. */
  function Dedup<T(==)>(s: seq<T>): (r: seq<T>)
    ensures Elements(r) == Elements(s)
    ensures Distinct(r)
  {
    if s == [] then []
    else
      var n := |s| - 1;
      assert s == s[..n] + [s[n]];
      var d := Dedup(s[..n]);
      ElementsAppend(s[..n], [s[n]]);
      ElementsAppend(d, [s[n]]);
      if s[n] in d then d else d + [s[n]]
  }

  /** The position of the first occurrence of `x` in `s`. */
  function FirstIndex<T(==)>(s: seq<T>, x: T): (i: nat)
    requires x in s
    ensures i < |s| && s[i] == x && x !in s[..i]
  {
    if s[0] == x then 0
    else
      var i := FirstIndex(s[1..], x);
      assert s[..i + 1] == [s[0]] + s[1..][..i];
      i + 1
  }

  lemma FirstIndexPrefix<T>(s: seq<T>, n: nat, x: T)
    requires n <= |s| && x in s[..n]
    ensures FirstIndex(s, x) == FirstIndex(s[..n], x)
  {
    var j := FirstIndex(s[..n], x);
    assert s[..n][..j] == s[..j];
  }

  /** Dedup keeps the order of first occurrence: of two kept values, the
      one whose first occurrence in `s` comes earlier is listed first. */
  lemma {:induction false} DedupOrder<T>(s: seq<T>)
    ensures forall i, j | 0 <= i < j < |Dedup(s)| ::
      Dedup(s)[i] in s && Dedup(s)[j] in s && FirstIndex(s, Dedup(s)[i]) < FirstIndex(s, Dedup(s)[j])
  {
    if s != [] {
      var n := |s| - 1;
      var d := Dedup(s[..n]);
      DedupOrder(s[..n]);
      forall x | x in d ensures x in s[..n] && FirstIndex(s, x) == FirstIndex(s[..n], x) < n {
        assert x in Elements(d);
        FirstIndexPrefix(s, n, x);
      }
      if s[n] !in d {
        assert s[n] !in s[..n] by {
          assert s[n] !in Elements(s[..n]);
        }
        assert FirstIndex(s, s[n]) == n;
      }
    }
  }

  /** retrieve_differences(list_prod, list_test): the values only in the
      first list and the values only in the second, each listed once. */
  function RetrieveDifferences<T(==)>(listProd: seq<T>, listTest: seq<T>): (r: seq<seq<T>>)
    ensures |r| == 2
    ensures Elements(r[0]) == Elements(listProd) - Elements(listTest)
    ensures Elements(r[1]) == Elements(listTest) - Elements(listProd)
    ensures Distinct(r[0]) && Distinct(r[1])
    ensures Elements(r[0]) !! Elements(r[1])
    ensures Elements(listProd) == Elements(r[0]) + (Elements(listProd) * Elements(listTest))
  {
    [Dedup(Without(listProd, listTest)), Dedup(Without(listTest, listProd))]
  }

  /** Swapping the two lists swaps the two differences. */
  lemma DifferencesSwap<T>(a: seq<T>, b: seq<T>)
    ensures RetrieveDifferences(b, a) == [RetrieveDifferences(a, b)[1], RetrieveDifferences(a, b)[0]]
  {
  }

  /** A list has no differences with itself. */
  lemma DifferencesOfSelf<T>(a: seq<T>)
    ensures RetrieveDifferences(a, a) == [[], []]
  {
    var r := RetrieveDifferences(a, a);
    ElementsEmpty(r[0]);
    ElementsEmpty(r[1]);
  }

  /** Only the sets of values matter: lists with the same values, however
      often and in whatever order they repeat, have the same differences
      as sets. */
  lemma DifferencesDependOnSets<T>(a: seq<T>, a': seq<T>, b: seq<T>, b': seq<T>)
    requires Elements(a) == Elements(a') && Elements(b) == Elements(b')
    ensures Elements(RetrieveDifferences(a, b)[0]) == Elements(RetrieveDifferences(a', b')[0])
    ensures Elements(RetrieveDifferences(a, b)[1]) == Elements(RetrieveDifferences(a', b')[1])
  {
  }
}

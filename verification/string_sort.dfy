/** `Array.prototype.sort()` on string arrays, as an insertion sort under the code-unit
    order `Text.Le`. Since `Le` is a total order whose only ties are equal strings, the sorted
    permutation is unique, so the algorithm chosen does not matter. */
module StringSort {
  import opened Text
  import opened Seqs

  /** Every element is `Le` every later one. */
  predicate Sorted(s: seq<string>) {
    forall i, j :: 0 <= i < j < |s| ==> Le(s[i], s[j])
  }

  /** `x` placed into sorted `s` before the first element it is `Le` to. */
  function Insert(x: string, s: seq<string>): (r: seq<string>)
    requires Sorted(s)
    ensures Sorted(r)
    ensures multiset(r) == multiset(s) + multiset{x}
    ensures |r| == |s| + 1
    ensures r[0] == x || (|s| > 0 && r[0] == s[0])
  {
    if |s| == 0 then [x]
    else if Le(x, s[0]) then
      InsertFrontSorted(x, s);
      [x] + s
    else
      var tail := Insert(x, s[1..]);
      assert s == [s[0]] + s[1..];
      InsertBehindSorted(x, s, tail);
      [s[0]] + tail
  }

  lemma InsertFrontSorted(x: string, s: seq<string>)
    requires Sorted(s) && |s| > 0 && Le(x, s[0])
    ensures Sorted([x] + s)
  {
    forall j | 0 < j < |s| ensures Le(x, s[j]) {
      LeTransitive(x, s[0], s[j]);
    }
  }

  lemma InsertBehindSorted(x: string, s: seq<string>, tail: seq<string>)
    requires Sorted(s) && |s| > 0 && !Le(x, s[0])
    requires Sorted(tail) && multiset(tail) == multiset(s[1..]) + multiset{x}
    ensures Sorted([s[0]] + tail)
  {
    LeTotal(x, s[0]);
    forall j | 0 <= j < |tail| ensures Le(s[0], tail[j]) {
      assert tail[j] in multiset(tail);
      if tail[j] != x {
        assert tail[j] in multiset(s[1..]);
        var k :| 0 <= k < |s[1..]| && s[1..][k] == tail[j];
        assert s[k + 1] == tail[j];
      }
    }
  }

  /** `s.sort()`: a sorted permutation of `s`. */
  function Sort(s: seq<string>): (r: seq<string>)
    ensures Sorted(r)
    ensures multiset(r) == multiset(s)
    ensures |r| == |s|
  {
    if |s| == 0 then []
    else
      assert s == s[..|s| - 1] + [s[|s| - 1]];
      Insert(s[|s| - 1], Sort(s[..|s| - 1]))
  }

  /** A permutation of a sequence has the same elements. */
  lemma SameMultisetSameMembers(a: seq<string>, b: seq<string>)
    requires multiset(a) == multiset(b)
    ensures forall x :: x in a <==> x in b
  {
    forall x ensures x in a <==> x in b {
      assert x in a <==> x in multiset(a);
      assert x in b <==> x in multiset(b);
    }
  }

  /** Sorting keeps a distinct sequence distinct. */
  lemma {:induction false} SortDistinct(s: seq<string>)
    requires Distinct(s)
    ensures Distinct(Sort(s))
  {
    var r := Sort(s);
    if !Distinct(r) {
      var i, j :| 0 <= i < j < |r| && r[i] == r[j];
      RepeatCountsTwo(r, i, j);
      DistinctCountsOne(s, r[i]);
      assert false;
    }
  }

  /** An element found at two positions occurs at least twice. */
  lemma RepeatCountsTwo(r: seq<string>, i: nat, j: nat)
    requires i < j < |r| && r[i] == r[j]
    ensures multiset(r)[r[i]] >= 2
  {
    assert r == r[..j] + [r[j]] + r[j + 1..];
    assert r[i] in r[..j];
    assert multiset(r) == multiset(r[..j]) + multiset{r[j]} + multiset(r[j + 1..]);
  }

  /** In a distinct sequence every element occurs at most once. */
  lemma {:induction false} DistinctCountsOne(s: seq<string>, x: string)
    requires Distinct(s)
    ensures multiset(s)[x] <= 1
  {
    if |s| > 0 {
      assert s == [s[0]] + s[1..];
      assert Distinct(s[1..]);
      DistinctCountsOne(s[1..], x);
      if x == s[0] {
        assert x !in s[1..];
      }
    }
  }

  /** Two sorted, distinct sequences with the same elements are equal: the registry's
      contents determine its order. */
  lemma {:induction false} SortedDistinctUnique(a: seq<string>, b: seq<string>)
    requires Sorted(a) && Distinct(a) && Sorted(b) && Distinct(b)
    requires forall x :: x in a <==> x in b
    ensures a == b
  {
    assert |a| > 0 ==> a[0] in b;
    assert |b| > 0 ==> b[0] in a;
    if |a| == 0 || |b| == 0 {
    } else {
      assert a[0] in b;
      assert b[0] in a;
      var i :| 0 <= i < |a| && a[i] == b[0];
      var j :| 0 <= j < |b| && b[j] == a[0];
      if i > 0 {
        assert Le(a[0], a[i]);
      } else {
        LeReflexive(a[0]);
      }
      if j > 0 {
        assert Le(b[0], b[j]);
      } else {
        LeReflexive(b[0]);
      }
      LeAntisymmetric(a[0], b[0]);
      forall x ensures x in a[1..] <==> x in b[1..] {
        if x in a[1..] {
          var k :| 0 <= k < |a[1..]| && a[1..][k] == x;
          assert x == a[k + 1] && x != a[0];
          assert x in b;
          var m :| 0 <= m < |b| && b[m] == x;
          assert m > 0;
          assert x == b[1..][m - 1];
        }
        if x in b[1..] {
          var k :| 0 <= k < |b[1..]| && b[1..][k] == x;
          assert x == b[k + 1] && x != b[0];
          assert x in a;
          var m :| 0 <= m < |a| && a[m] == x;
          assert m > 0;
          assert x == a[1..][m - 1];
        }
      }
      assert Distinct(a[1..]) && Distinct(b[1..]);
      SortedDistinctUnique(a[1..], b[1..]);
      assert a == [a[0]] + a[1..] && b == [b[0]] + b[1..];
    }
  }

  /** Sorting an already sorted sequence changes nothing. */
  lemma SortSorted(s: seq<string>)
    requires Sorted(s) && Distinct(s)
    ensures Sort(s) == s
  {
    SortDistinct(s);
    SameMultisetSameMembers(Sort(s), s);
    SortedDistinctUnique(Sort(s), s);
  }
}

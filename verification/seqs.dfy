/** Sequence helpers shared by the stores and components: the `Array.prototype.filter`,
    `flatMap` and `new Set(...)` idioms of the source, each with its own contract. */
module Seqs {

  /** No element occurs twice. */
  predicate Distinct<T(==,!new)>(s: seq<T>) {
    forall i, j :: 0 <= i < j < |s| ==> s[i] != s[j]
  }

  /** `s.filter(keep)`: the elements of `s` that satisfy `keep`, in their original order. */
  function Filter<T(==,!new)>(s: seq<T>, keep: T -> bool): (r: seq<T>)
    ensures |r| <= |s|
    ensures forall x :: x in r <==> x in s && keep(x)
    ensures forall i :: 0 <= i < |r| ==> keep(r[i])
  {
    if |s| == 0 then []
    else (if keep(s[0]) then [s[0]] else []) + Filter(s[1..], keep)
  }

  /** Filtering distributes over concatenation, so it keeps the relative order of the survivors. */
  lemma {:induction false} FilterConcat<T(!new)>(a: seq<T>, b: seq<T>, keep: T -> bool)
    ensures Filter(a + b, keep) == Filter(a, keep) + Filter(b, keep)
  {
    if |a| == 0 {
      assert a + b == b;
    } else {
      assert (a + b)[1..] == a[1..] + b;
      FilterConcat(a[1..], b, keep);
    }
  }

  /** A filter that every element passes is the identity. */
  lemma {:induction false} FilterKeepsAll<T(!new)>(s: seq<T>, keep: T -> bool)
    requires forall i :: 0 <= i < |s| ==> keep(s[i])
    ensures Filter(s, keep) == s
  {
    if |s| > 0 {
      FilterKeepsAll(s[1..], keep);
    }
  }

  /** A filter that no element passes yields the empty sequence. */
  lemma {:induction false} FilterKeepsNone<T(!new)>(s: seq<T>, keep: T -> bool)
    requires forall i :: 0 <= i < |s| ==> !keep(s[i])
    ensures Filter(s, keep) == []
  {
    if |s| > 0 {
      FilterKeepsNone(s[1..], keep);
    }
  }

  /** A filter that drops some element strictly shortens the sequence. */
  lemma {:induction false} FilterDropsOne<T(!new)>(s: seq<T>, keep: T -> bool, i: nat)
    requires i < |s| && !keep(s[i])
    ensures |Filter(s, keep)| < |s|
  {
    if i > 0 {
      FilterDropsOne(s[1..], keep, i - 1);
    }
  }

  /** A filter is the identity exactly when it drops nothing. */
  lemma FilterIdentity<T(!new)>(s: seq<T>, keep: T -> bool)
    ensures (forall i :: 0 <= i < |s| ==> keep(s[i])) ==> Filter(s, keep) == s
    ensures (exists i :: 0 <= i < |s| && !keep(s[i])) ==> |Filter(s, keep)| < |s|
  {
    if forall i :: 0 <= i < |s| ==> keep(s[i]) {
      FilterKeepsAll(s, keep);
    } else {
      var i :| 0 <= i < |s| && !keep(s[i]);
      FilterDropsOne(s, keep, i);
    }
  }

  /** Filtering keeps distinct sequences distinct. */
  lemma {:induction false} FilterDistinct<T(!new)>(s: seq<T>, keep: T -> bool)
    requires Distinct(s)
    ensures Distinct(Filter(s, keep))
  {
    if |s| > 0 {
      assert Distinct(s[1..]);
      FilterDistinct(s[1..], keep);
    }
  }

  /** `s.map(f)`: `f` applied to every element, in order. */
  function Map<T, U>(s: seq<T>, f: T -> U): (r: seq<U>)
    ensures |r| == |s|
    ensures forall i :: 0 <= i < |s| ==> r[i] == f(s[i])
  {
    if |s| == 0 then [] else [f(s[0])] + Map(s[1..], f)
  }

  /** Mapping distributes over concatenation. */
  lemma {:induction false} MapConcat<T, U>(a: seq<T>, b: seq<T>, f: T -> U)
    ensures Map(a + b, f) == Map(a, f) + Map(b, f)
  {
    var l, ma, mb := Map(a + b, f), Map(a, f), Map(b, f);
    var r := ma + mb;
    assert |l| == |r|;
    forall i | 0 <= i < |l| ensures l[i] == r[i] {
      if i < |a| {
        assert l[i] == f(a[i]) == ma[i] == r[i];
      } else {
        assert l[i] == f(b[i - |a|]) == mb[i - |a|] == r[i];
      }
    }
  }

  /** `links.flatMap(f)`: the concatenation of `f(x)` over the elements, in order. */
  function FlatMap<T, U>(s: seq<T>, f: T -> seq<U>): (r: seq<U>)
    ensures forall x :: x in s ==> |f(x)| <= |r|
  {
    if |s| == 0 then [] else f(s[0]) + FlatMap(s[1..], f)
  }

  /** An element is in a flat-map exactly when it comes from one of the inner sequences. */
  lemma {:induction false} FlatMapMember<T, U>(s: seq<T>, f: T -> seq<U>, y: U)
    ensures y in FlatMap(s, f) <==> exists i :: 0 <= i < |s| && y in f(s[i])
  {
    if |s| > 0 {
      FlatMapMember(s[1..], f, y);
      if y in FlatMap(s[1..], f) {
        var i :| 0 <= i < |s[1..]| && y in f(s[1..][i]);
        assert y in f(s[i + 1]);
      }
      if exists i :: 0 <= i < |s| && y in f(s[i]) {
        var i :| 0 <= i < |s| && y in f(s[i]);
        if i > 0 {
          assert y in f(s[1..][i - 1]);
        }
      }
    }
  }

  /** `[...new Set(s)]`: the first occurrence of every element, in order of first occurrence. */
  function Dedup<T(==,!new)>(s: seq<T>): (r: seq<T>)
    ensures Distinct(r)
    ensures forall x :: x in r <==> x in s
    ensures |r| <= |s|
  {
    if |s| == 0 then []
    else
      var d := Dedup(s[..|s| - 1]);
      if s[|s| - 1] in d then d else d + [s[|s| - 1]]
  }

  /** A sequence with no repetition passes through the set unchanged. */
  lemma {:induction false} DedupDistinct<T(!new)>(s: seq<T>)
    requires Distinct(s)
    ensures Dedup(s) == s
  {
    if |s| > 0 {
      assert Distinct(s[..|s| - 1]);
      DedupDistinct(s[..|s| - 1]);
      assert s[..|s| - 1] + [s[|s| - 1]] == s;
    }
  }

  /** Taking one more element of a prefix appends that element. */
  lemma PrefixStep<T>(s: seq<T>, n: nat)
    requires n < |s|
    ensures s[..n + 1] == s[..n] + [s[n]] && s[..n + 1][..n] == s[..n]
  {
  }

  /** A slice of a suffix is a slice of the whole. */
  /** A prefix of a suffix is a middle slice, and what follows it is the rest of the suffix. */
  lemma SliceOfSuffix<T>(s: seq<T>, t: seq<T>, r: seq<T>, i: nat)
    requires i <= |s| && t == s[i..] && |r| <= |t| && r == t[..|r|]
    ensures i + |r| <= |s| && r == s[i..i + |r|] && t[|r|..] == s[i + |r|..]
  {
    SuffixSlices(s, i, |r|);
  }

  lemma SuffixSlices<T>(s: seq<T>, i: nat, j: nat)
    requires i + j <= |s|
    ensures s[i..][..j] == s[i..i + j] && s[i..][j..] == s[i + j..]
  {
  }

  /** A non-empty sequence is its front followed by its last element. */
  lemma LastSplit<T>(s: seq<T>)
    requires |s| > 0
    ensures s[..|s| - 1] + [s[|s| - 1]] == s
  {
  }

  lemma MapSingle<T, U>(x: T, f: T -> U)
    ensures Map([x], f) == [f(x)]
  {
    assert [x][1..] == [];
  }
}

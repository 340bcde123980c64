/**
 fistival.py:114: the list of summary lines is sorted in place by average score,
 highest first, with a stable sort. `SortDesc` is the specification: insertion
 sort, each new line going after every line whose average is at least its own.
 Since all stable sorts give one and the same result (`StableSortIsUnique`),
 it fixes what Python's sort returns.
 */
module Ranking {
  import opened Records

  /** Averages never increase from left to right. */
  predicate DescSorted(s: seq<Ranked>)
  {
    forall i, j :: 0 <= i < j < |s| ==> s[i].avgScore >= s[j].avgScore
  }

  /**
   The lines of `s` whose average is `v`, in their order in `s`. A sort is
   stable exactly when it leaves every such subsequence as it was.
   */
  function WithAverage(s: seq<Ranked>, v: real): seq<Ranked>
  {
    if s == [] then []
    else WithAverage(s[..|s| - 1], v) + (if s[|s| - 1].avgScore == v then [s[|s| - 1]] else [])
  }

  /** Puts `x` into `t` after every line whose average is at least `x`'s. */
  function Insert(t: seq<Ranked>, x: Ranked): seq<Ranked>
  {
    if t == [] || t[|t| - 1].avgScore >= x.avgScore then t + [x]
    else Insert(t[..|t| - 1], x) + [t[|t| - 1]]
  }

  /** Stable sort by descending average. */
  function SortDesc(s: seq<Ranked>): seq<Ranked>
  {
    if s == [] then [] else Insert(SortDesc(s[..|s| - 1]), s[|s| - 1])
  }

  // ---- WithAverage ----

  lemma {:induction false} WithAverageAppend(a: seq<Ranked>, b: seq<Ranked>, v: real)
    ensures WithAverage(a + b, v) == WithAverage(a, v) + WithAverage(b, v)
  {
    if b == [] {
      assert a + b == a;
    } else {
      assert (a + b)[..|a + b| - 1] == a + b[..|b| - 1];
      WithAverageAppend(a, b[..|b| - 1], v);
    }
  }

  /** Every line picked out by `WithAverage(s, v)` is a line of `s` with average `v`. */
  lemma {:induction false} WithAverageMembers(s: seq<Ranked>, v: real)
    ensures forall x :: x in WithAverage(s, v) ==> x in s && x.avgScore == v
  {
    if s != [] {
      WithAverageMembers(s[..|s| - 1], v);
    }
  }

  /** A line of `s` shows up in the subsequence of its own average. */
  lemma {:induction false} WithAverageContains(s: seq<Ranked>, i: int)
    requires 0 <= i < |s|
    ensures s[i] in WithAverage(s, s[i].avgScore)
  {
    if i < |s| - 1 {
      WithAverageContains(s[..|s| - 1], i);
    }
  }

  /** The subsequence of a prefix is a prefix of the subsequence. */
  lemma {:induction false} WithAveragePrefix(s: seq<Ranked>, k: int, v: real)
    requires 0 <= k <= |s|
    ensures WithAverage(s[..k], v) <= WithAverage(s, v)
  {
    if k < |s| {
      assert s[..|s| - 1][..k] == s[..k];
      WithAveragePrefix(s[..|s| - 1], k, v);
    } else {
      assert s[..k] == s;
    }
  }

  // ---- Insert ----

  lemma {:induction false} InsertSorted(t: seq<Ranked>, x: Ranked)
    requires DescSorted(t)
    ensures DescSorted(Insert(t, x))
    ensures |Insert(t, x)| == |t| + 1
    ensures forall y :: y in Insert(t, x) ==> y == x || y in t
  {
    if t == [] || t[|t| - 1].avgScore >= x.avgScore {
    } else {
      var init, last := t[..|t| - 1], t[|t| - 1];
      InsertSorted(init, x);
      var r := Insert(init, x);
      forall y | y in r ensures y.avgScore >= last.avgScore {
        if y != x {
          var k :| 0 <= k < |init| && init[k] == y;
        }
      }
    }
  }

  lemma {:induction false} InsertPermutes(t: seq<Ranked>, x: Ranked)
    ensures multiset(Insert(t, x)) == multiset(t) + multiset{x}
  {
    if t == [] || t[|t| - 1].avgScore >= x.avgScore {
    } else {
      var init, last := t[..|t| - 1], t[|t| - 1];
      InsertPermutes(init, x);
      assert t == init + [last];
    }
  }

  lemma WithAverageSingle(y: Ranked, v: real)
    ensures WithAverage([y], v) == if y.avgScore == v then [y] else []
  {
    assert [y][..0] == [];
  }

  lemma {:induction false} InsertKeepsTies(t: seq<Ranked>, x: Ranked, v: real)
    ensures WithAverage(Insert(t, x), v) == WithAverage(t, v) + (if x.avgScore == v then [x] else [])
  {
    if t == [] || t[|t| - 1].avgScore >= x.avgScore {
      assert Insert(t, x) == t + [x];
      WithAverageAppend(t, [x], v);
      WithAverageSingle(x, v);
    } else {
      var init, last := t[..|t| - 1], t[|t| - 1];
      assert Insert(t, x) == Insert(init, x) + [last];
      InsertKeepsTies(init, x, v);
      WithAverageAppend(Insert(init, x), [last], v);
      WithAverageSingle(last, v);
      if x.avgScore == v {
        assert WithAverage(t, v) == WithAverage(init, v);
        assert WithAverage(Insert(t, x), v) == WithAverage(init, v) + [x];
      } else if last.avgScore == v {
        assert WithAverage(t, v) == WithAverage(init, v) + [last];
        assert WithAverage(Insert(t, x), v) == WithAverage(init, v) + [last];
      } else {
        assert WithAverage(t, v) == WithAverage(init, v);
        assert WithAverage(Insert(t, x), v) == WithAverage(init, v);
      }
    }
  }

  /**
   Where `Insert` puts `x`: after the first `j` lines, when every line from
   `j` on has a smaller average and line `j - 1` (if any) has not.
   */
  lemma {:induction false} InsertAt(t: seq<Ranked>, x: Ranked, j: int)
    requires 0 <= j <= |t|
    requires forall k :: j <= k < |t| ==> t[k].avgScore < x.avgScore
    requires 0 < j ==> t[j - 1].avgScore >= x.avgScore
    ensures Insert(t, x) == t[..j] + [x] + t[j..]
  {
    if j == |t| {
      assert t[..j] == t;
    } else {
      var init, last := t[..|t| - 1], t[|t| - 1];
      InsertAt(init, x, j);
      assert init[..j] == t[..j];
      assert init[j..] + [last] == t[j..];
    }
  }

  // ---- SortDesc ----

  /** The sort's result is ordered by descending average. */
  lemma {:induction false} SortDescSorted(s: seq<Ranked>)
    ensures DescSorted(SortDesc(s))
  {
    if s != [] {
      SortDescSorted(s[..|s| - 1]);
      InsertSorted(SortDesc(s[..|s| - 1]), s[|s| - 1]);
    }
  }

  /** The sort's result is a permutation of its input. */
  lemma {:induction false} SortDescPermutes(s: seq<Ranked>)
    ensures multiset(SortDesc(s)) == multiset(s)
    ensures |SortDesc(s)| == |s|
  {
    if s != [] {
      SortDescPermutes(s[..|s| - 1]);
      InsertPermutes(SortDesc(s[..|s| - 1]), s[|s| - 1]);
      assert s == s[..|s| - 1] + [s[|s| - 1]];
    }
    assert |multiset(SortDesc(s))| == |SortDesc(s)|;
  }

  /** The sort is stable: lines with equal averages keep their relative order. */
  lemma {:induction false} SortDescStable(s: seq<Ranked>, v: real)
    ensures WithAverage(SortDesc(s), v) == WithAverage(s, v)
  {
    if s != [] {
      SortDescStable(s[..|s| - 1], v);
      InsertKeepsTies(SortDesc(s[..|s| - 1]), s[|s| - 1], v);
    }
  }

  /** The last line of a sorted list has an average no larger than any line's. */
  lemma LastIsLowest(r: seq<Ranked>, v: real)
    requires DescSorted(r) && r != []
    requires WithAverage(r, v) != []
    ensures r[|r| - 1].avgScore <= v
  {
    WithAverageMembers(r, v);
    var x := WithAverage(r, v)[0];
    assert x in WithAverage(r, v);
    var k :| 0 <= k < |r| && r[k] == x;
  }

  /** Equal lists that end in one line each are equal before it and in it. */
  lemma AppendCancel(xs: seq<Ranked>, ys: seq<Ranked>, x: Ranked, y: Ranked)
    requires xs + [x] == ys + [y]
    ensures xs == ys && x == y
  {
    assert |xs| == |ys|;
    assert (xs + [x])[|xs|] == x && (ys + [y])[|ys|] == y;
    assert (xs + [x])[..|xs|] == xs && (ys + [y])[..|ys|] == ys;
  }

  /** Two sorted lists that agree on the lines of their last lines' averages end alike. */
  lemma SameLast(r: seq<Ranked>, q: seq<Ranked>)
    requires DescSorted(r) && DescSorted(q) && r != [] && q != []
    requires WithAverage(r, r[|r| - 1].avgScore) == WithAverage(q, r[|r| - 1].avgScore)
    requires WithAverage(r, q[|q| - 1].avgScore) == WithAverage(q, q[|q| - 1].avgScore)
    ensures r[|r| - 1] == q[|q| - 1]
  {
    var a, b := r[|r| - 1], q[|q| - 1];
    WithAverageContains(q, |q| - 1);
    LastIsLowest(r, b.avgScore);
    WithAverageContains(r, |r| - 1);
    LastIsLowest(q, a.avgScore);
    var v := a.avgScore;
    assert b.avgScore == v;
    assert WithAverage(r, v) == WithAverage(r[..|r| - 1], v) + [a];
    assert WithAverage(q, v) == WithAverage(q[..|q| - 1], v) + [b];
    AppendCancel(WithAverage(r[..|r| - 1], v), WithAverage(q[..|q| - 1], v), a, b);
  }

  /** Removing the same last line from two lists keeps their agreement on an average. */
  lemma SameTiesWithoutLast(r: seq<Ranked>, q: seq<Ranked>, u: real)
    requires r != [] && q != [] && r[|r| - 1] == q[|q| - 1]
    requires WithAverage(r, u) == WithAverage(q, u)
    ensures WithAverage(r[..|r| - 1], u) == WithAverage(q[..|q| - 1], u)
  {
    var x := r[|r| - 1];
    if x.avgScore == u {
      assert WithAverage(r, u) == WithAverage(r[..|r| - 1], u) + [x];
      assert WithAverage(q, u) == WithAverage(q[..|q| - 1], u) + [x];
      AppendCancel(WithAverage(r[..|r| - 1], u), WithAverage(q[..|q| - 1], u), x, x);
    } else {
      assert WithAverage(r, u) == WithAverage(r[..|r| - 1], u);
      assert WithAverage(q, u) == WithAverage(q[..|q| - 1], u);
    }
  }

  /**
   Two sorted lists with the same lines of every average are equal: a stable
   sort by descending average has exactly one possible result.
   */
  lemma {:induction false} SameTiesSameList(r: seq<Ranked>, q: seq<Ranked>)
    requires DescSorted(r) && DescSorted(q)
    requires forall v :: WithAverage(r, v) == WithAverage(q, v)
    ensures r == q
    decreases |r| + |q|
  {
    if r == [] {
      if q != [] {
        WithAverageContains(q, 0);
      }
    } else if q == [] {
      WithAverageContains(r, 0);
    } else {
      var ri, qi := r[..|r| - 1], q[..|q| - 1];
      SameLast(r, q);
      forall u ensures WithAverage(ri, u) == WithAverage(qi, u) {
        SameTiesWithoutLast(r, q, u);
      }
      assert DescSorted(ri) && DescSorted(qi);
      SameTiesSameList(ri, qi);
      assert r == ri + [r[|r| - 1]] && q == qi + [q[|q| - 1]];
    }
  }

  /** Any stable sort of `s` by descending average returns `SortDesc(s)`. */
  lemma StableSortIsUnique(s: seq<Ranked>, r: seq<Ranked>)
    requires DescSorted(r)
    requires forall v :: WithAverage(r, v) == WithAverage(s, v)
    ensures r == SortDesc(s)
  {
    SortDescSorted(s);
    forall v ensures WithAverage(r, v) == WithAverage(SortDesc(s), v) {
      SortDescStable(s, v);
    }
    SameTiesSameList(r, SortDesc(s));
  }

  /**
   One step of the insertion sort: moves `a[i]` left past the lines of the
   sorted prefix `a[..i]` whose average is strictly smaller.
   */
  method InsertInPlace(a: array<Ranked>, i: int)
    requires 0 <= i < a.Length
    modifies a
    ensures a[..i + 1] == Insert(old(a[..i]), old(a[i]))
    ensures a[i + 1..] == old(a[i + 1..])
  {
    ghost var sorted := a[..i];
    var x := a[i];
    var j := i;
    while j > 0 && a[j - 1].avgScore < x.avgScore
      invariant 0 <= j <= i
      invariant forall k :: 0 <= k < j ==> a[k] == sorted[k]
      invariant forall k :: j < k <= i ==> a[k] == sorted[k - 1]
      invariant forall k :: j <= k < i ==> sorted[k].avgScore < x.avgScore
      invariant forall k :: i < k < a.Length ==> a[k] == old(a[k])
    {
      a[j] := a[j - 1];
      j := j - 1;
    }
    a[j] := x;
    InsertedAt(a[..i + 1], sorted, x, j);
    assert a[i + 1..] == old(a[i + 1..]);
  }

  /** The array contents the insertion step leaves behind are `Insert(sorted, x)`. */
  lemma InsertedAt(b: seq<Ranked>, sorted: seq<Ranked>, x: Ranked, j: int)
    requires 0 <= j <= |sorted| && |b| == |sorted| + 1
    requires forall k :: 0 <= k < j ==> b[k] == sorted[k]
    requires b[j] == x
    requires forall k :: j < k < |b| ==> b[k] == sorted[k - 1]
    requires forall k :: j <= k < |sorted| ==> sorted[k].avgScore < x.avgScore
    requires 0 < j ==> sorted[j - 1].avgScore >= x.avgScore
    ensures b == Insert(sorted, x)
  {
    InsertAt(sorted, x, j);
    assert b == sorted[..j] + [x] + sorted[j..];
  }

  /**
   fistival.py:114, in place: insertion sort of `a` by descending average. Each line
   moves left past the lines with a strictly smaller average only, so equal
   averages keep their order.
   */
  method SortByAverage(a: array<Ranked>)
    modifies a
    ensures a[..] == SortDesc(old(a[..]))
  {
    ghost var input := a[..];
    for i := 0 to a.Length
      invariant a[..i] == SortDesc(input[..i])
      invariant a[i..] == input[i..]
    {
      assert a[i] == input[i];
      InsertInPlace(a, i);
      assert input[..i + 1][..i] == input[..i];
    }
    assert a[..a.Length] == a[..] && input[..a.Length] == input;
  }
}

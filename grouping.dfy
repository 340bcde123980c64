/**
 The first step of the results routine: grouping the score list by
 performance into a running sum and a running count per performance. The
 specification functions read the score list from its end, as the loop that
 extends its totals one score at a time does.
 */
module Grouping {
  import opened Records

  /** The sum of the scores given to performance `p`. */
  function SumFor(scores: seq<ScoreEntry>, p: int): real
  {
    if scores == [] then 0.0
    else
      var last := scores[|scores| - 1];
      SumFor(scores[..|scores| - 1], p) + (if last.performanceId == p then last.score else 0.0)
  }

  /** The number of scores given to performance `p`. */
  function CountFor(scores: seq<ScoreEntry>, p: int): nat
  {
    if scores == [] then 0
    else
      var last := scores[|scores| - 1];
      CountFor(scores[..|scores| - 1], p) + (if last.performanceId == p then 1 else 0)
  }

  /**
   The performances that received a score, each once, in the order of their
   first score: the key order of a Python dictionary filled from `scores`.
   */
  function Scored(scores: seq<ScoreEntry>): seq<int>
  {
    if scores == [] then []
    else
      var keys := Scored(scores[..|scores| - 1]);
      var p := scores[|scores| - 1].performanceId;
      if p in keys then keys else keys + [p]
  }

  predicate Distinct(keys: seq<int>)
  {
    forall i, j :: 0 <= i < j < |keys| ==> keys[i] != keys[j]
  }

  /** A performance is among the scored ones exactly when it has a score. */
  lemma {:induction false} ScoredIffCounted(scores: seq<ScoreEntry>, p: int)
    ensures p in Scored(scores) <==> CountFor(scores, p) > 0
  {
    if scores != [] {
      ScoredIffCounted(scores[..|scores| - 1], p);
    }
  }

  /** A performance has a score exactly when some entry of the list names it. */
  lemma {:induction false} CountedIffOccurs(scores: seq<ScoreEntry>, p: int)
    ensures CountFor(scores, p) > 0 <==> exists i :: 0 <= i < |scores| && scores[i].performanceId == p
  {
    if scores != [] {
      var init := scores[..|scores| - 1];
      CountedIffOccurs(init, p);
      if CountFor(init, p) > 0 {
        var i :| 0 <= i < |init| && init[i].performanceId == p;
        assert scores[i].performanceId == p;
      }
      if exists i :: 0 <= i < |scores| && scores[i].performanceId == p {
        var i :| 0 <= i < |scores| && scores[i].performanceId == p;
        if i < |init| {
          assert init[i].performanceId == p;
        }
      }
    }
  }

  /** No performance appears twice among the scored ones. */
  lemma {:induction false} ScoredDistinct(scores: seq<ScoreEntry>)
    ensures Distinct(Scored(scores))
  {
    if scores != [] {
      ScoredDistinct(scores[..|scores| - 1]);
    }
  }

  /**
   `Scored` lists the performances in the order of their first scores: the
   entry at which the later of two keys is first scored comes after some
   score of the earlier key.
   */
  lemma {:induction false} ScoredInFirstScoreOrder(scores: seq<ScoreEntry>, i: int, j: int)
    requires 0 <= i < j < |Scored(scores)|
    ensures exists b :: && 0 <= b < |scores|
                        && scores[b].performanceId == Scored(scores)[j]
                        && (forall k :: 0 <= k < b ==> scores[k].performanceId != Scored(scores)[j])
                        && (exists a :: 0 <= a < b && scores[a].performanceId == Scored(scores)[i])
  {
    var init := scores[..|scores| - 1];
    var keys := Scored(init);
    var n := |scores| - 1;
    if j < |keys| {
      ScoredInFirstScoreOrder(init, i, j);
      var b :| && 0 <= b < |init|
               && init[b].performanceId == keys[j]
               && (forall k :: 0 <= k < b ==> init[k].performanceId != keys[j])
               && (exists a :: 0 <= a < b && init[a].performanceId == keys[i]);
      var a :| 0 <= a < b && init[a].performanceId == keys[i];
      assert scores[a] == init[a] && scores[b] == init[b];
      assert forall k :: 0 <= k < b ==> scores[k] == init[k];
    } else {
      var p, q := scores[n].performanceId, keys[i];
      assert Scored(scores)[j] == p && Scored(scores)[i] == q;
      ScoredIffCounted(init, p);
      CountedIffOccurs(init, p);
      ScoredIffCounted(init, q);
      CountedIffOccurs(init, q);
      var a :| 0 <= a < |init| && init[a].performanceId == q;
      assert scores[a] == init[a];
      assert forall k :: 0 <= k < n ==> scores[k] == init[k];
    }
  }

  /** Every scored performance is one that some score entry names. */
  lemma {:induction false} ScoredBounded(scores: seq<ScoreEntry>, n: int)
    requires forall i :: 0 <= i < |scores| ==> 0 <= scores[i].performanceId < n
    ensures forall p :: p in Scored(scores) ==> 0 <= p < n
  {
    if scores != [] {
      ScoredBounded(scores[..|scores| - 1], n);
    }
  }

  /** A performance without scores has sum 0. */
  lemma {:induction false} UncountedSumsToZero(scores: seq<ScoreEntry>, p: int)
    requires CountFor(scores, p) == 0
    ensures SumFor(scores, p) == 0.0
  {
    if scores != [] {
      UncountedSumsToZero(scores[..|scores| - 1], p);
    }
  }

  /** With every score in [1, 10], the sum lies between count and 10 * count. */
  lemma {:induction false} SumBetweenBounds(scores: seq<ScoreEntry>, p: int)
    requires ScoresInRange(scores)
    ensures CountFor(scores, p) as real <= SumFor(scores, p) <= 10.0 * CountFor(scores, p) as real
  {
    if scores != [] {
      var init := scores[..|scores| - 1];
      assert ScoresInRange(init) by {
        forall i | 0 <= i < |init| ensures 1.0 <= init[i].score <= 10.0 {
          assert init[i] == scores[i];
        }
      }
      SumBetweenBounds(init, p);
    }
  }

  /** The average of a scored performance lies in [1, 10]. */
  lemma AverageInRange(scores: seq<ScoreEntry>, p: int)
    requires ScoresInRange(scores)
    requires CountFor(scores, p) > 0
    ensures 1.0 <= SumFor(scores, p) / CountFor(scores, p) as real <= 10.0
  {
    SumBetweenBounds(scores, p);
    QuotientBounds(SumFor(scores, p), CountFor(scores, p) as real);
  }

  lemma QuotientBounds(s: real, c: real)
    requires 0.0 < c && c <= s <= 10.0 * c
    ensures 1.0 <= s / c <= 10.0
  {
    assert s / c * c == s;
  }

  /**
   fistival.py:91-100: one pass over the scores that keeps, per performance, the
   running sum and count, and (the dictionaries' key order) the list of
   performances in order of their first score.
   */
  method GroupScores(scores: seq<ScoreEntry>) returns (sums: map<int, real>, counts: map<int, nat>, order: seq<int>)
    ensures order == Scored(scores)
    ensures sums.Keys == counts.Keys == set p | p in order
    ensures forall p :: p in sums ==> sums[p] == SumFor(scores, p) && counts[p] == CountFor(scores, p)
  {
    sums, counts, order := map[], map[], [];
    for i := 0 to |scores|
      invariant order == Scored(scores[..i])
      invariant sums.Keys == counts.Keys == set p | p in order
      invariant forall p :: p in sums ==> sums[p] == SumFor(scores[..i], p) && counts[p] == CountFor(scores[..i], p)
    {
      assert scores[..i + 1][..i] == scores[..i];
      var p := scores[i].performanceId;
      if p !in sums {
        ScoredIffCounted(scores[..i], p);
        UncountedSumsToZero(scores[..i], p);
        sums := sums[p := 0.0];
        counts := counts[p := 0];
        order := order + [p];
      }
      sums := sums[p := sums[p] + scores[i].score];
      counts := counts[p := counts[p] + 1];
    }
    assert scores[..|scores|] == scores;
  }
}

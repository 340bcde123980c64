/**
 The results routine (`show_results`): the average score of every scored
 performance joined with its title and its participant's name, sorted by
 descending average, and the first three of that list.
 */
module Results {
  import opened Records
  import opened Grouping
  import opened Ranking

  /**
   `e` is the summary line of performance `e.performanceId`: the title of that
   performance, the name of its participant and the mean of its scores.
   */
  predicate Describes(participants: seq<Participant>, performances: seq<Performance>, scores: seq<ScoreEntry>, e: Ranked)
  {
    && 0 <= e.performanceId < |performances|
    && 0 <= performances[e.performanceId].participantId < |participants|
    && CountFor(scores, e.performanceId) > 0
    && e.name == participants[performances[e.performanceId].participantId].name
    && e.title == performances[e.performanceId].title
    && e.avgScore == SumFor(scores, e.performanceId) / CountFor(scores, e.performanceId) as real
  }

  /** No two lines are about the same performance. */
  predicate DistinctPerformances(s: seq<Ranked>)
  {
    forall i, j :: 0 <= i < j < |s| ==> s[i].performanceId != s[j].performanceId
  }

  /**
   With valid references, every scored performance exists, and a performance
   is scored exactly when it has a score.
   */
  lemma ScoredKeysValid(participants: seq<Participant>, performances: seq<Performance>, scores: seq<ScoreEntry>)
    requires Linked(participants, performances, scores)
    ensures forall p :: p in Scored(scores) ==> 0 <= p < |performances|
    ensures forall p :: p in Scored(scores) <==> CountFor(scores, p) > 0
  {
    ScoredBounded(scores, |performances|);
    forall p ensures p in Scored(scores) <==> CountFor(scores, p) > 0 {
      ScoredIffCounted(scores, p);
    }
  }

  /** Lines that follow a key list position by position have a line for each key. */
  lemma LinesCoverKeys(keys: seq<int>, r: seq<Ranked>)
    requires |r| == |keys| && forall j :: 0 <= j < |r| ==> r[j].performanceId == keys[j]
    ensures forall p :: p in keys ==> exists j :: 0 <= j < |r| && r[j].performanceId == p
  {
    forall p | p in keys ensures exists j :: 0 <= j < |r| && r[j].performanceId == p {
      var j :| 0 <= j < |keys| && keys[j] == p;
      assert r[j].performanceId == p;
    }
  }

  /**
   The list `avg_scores` before it is sorted: exactly the scored performances
   get a line, none gets two, each line is the true summary of its
   performance, and the lines come in the order of the performances' first
   scores.
   */
  function Entries(participants: seq<Participant>, performances: seq<Performance>, scores: seq<ScoreEntry>): (r: seq<Ranked>)
    requires Linked(participants, performances, scores)
    ensures forall p :: CountFor(scores, p) > 0 <==> exists j :: 0 <= j < |r| && r[j].performanceId == p
    ensures DistinctPerformances(r)
    ensures forall e :: e in r ==> Describes(participants, performances, scores, e)
    ensures |r| == |Scored(scores)| && forall j :: 0 <= j < |r| ==> r[j].performanceId == Scored(scores)[j]
  {
    ScoredKeysValid(participants, performances, scores);
    ScoredDistinct(scores);
    var keys := Scored(scores);
    assert forall j :: 0 <= j < |keys| ==> keys[j] in keys;
    var r := seq(|keys|, j requires 0 <= j < |keys| && 0 <= keys[j] < |performances| =>
                           var perf := performances[keys[j]];
                           Ranked(keys[j], participants[perf.participantId].name, perf.title,
                                  SumFor(scores, keys[j]) / CountFor(scores, keys[j]) as real));
    LinesCoverKeys(keys, r);
    r
  }

  /** `avg_scores` after the sort of fistival.py:114. */
  function Standings(participants: seq<Participant>, performances: seq<Performance>, scores: seq<ScoreEntry>): seq<Ranked>
    requires Linked(participants, performances, scores)
  {
    SortDesc(Entries(participants, performances, scores))
  }

  /** The first three lines of `s` (Python's `s[:3]`). */
  function TopThree(s: seq<Ranked>): (r: seq<Ranked>)
    ensures r <= s
    ensures |r| == if |s| < 3 then |s| else 3
  {
    if |s| <= 3 then s else s[..3]
  }

  /** The lines printed under the "top 3" heading. */
  function Podium(participants: seq<Participant>, performances: seq<Performance>, scores: seq<ScoreEntry>): seq<Ranked>
    requires Linked(participants, performances, scores)
  {
    TopThree(Standings(participants, performances, scores))
  }

  // ---- multiplicities, for distinctness under permutation ----

  lemma RepeatedTwice(s: seq<Ranked>, i: int, j: int)
    requires 0 <= i < j < |s| && s[i] == s[j]
    ensures multiset(s)[s[i]] >= 2
  {
    assert s == s[..j] + [s[j]] + s[j + 1..];
    assert s[i] in multiset(s[..j]);
  }

  lemma {:induction false} DistinctOnce(s: seq<Ranked>, x: Ranked)
    requires DistinctPerformances(s)
    ensures multiset(s)[x] <= 1
  {
    if s != [] {
      var init, last := s[..|s| - 1], s[|s| - 1];
      assert s == init + [last];
      DistinctOnce(init, x);
      if last == x {
        assert x !in init;
      }
    }
  }

  // ---- properties of the standings ----

  /**
   The sort of fistival.py:114 returns a permutation of the lines, ordered by descending
   average, with equal averages in their order before the sort (first-scored
   order), and about distinct performances.
   */
  lemma StandingsAreStableSort(participants: seq<Participant>, performances: seq<Performance>, scores: seq<ScoreEntry>)
    requires Linked(participants, performances, scores)
    ensures multiset(Standings(participants, performances, scores)) == multiset(Entries(participants, performances, scores))
    ensures DescSorted(Standings(participants, performances, scores))
    ensures forall v :: WithAverage(Standings(participants, performances, scores), v) == WithAverage(Entries(participants, performances, scores), v)
    ensures DistinctPerformances(Standings(participants, performances, scores))
  {
    var es := Entries(participants, performances, scores);
    var st := Standings(participants, performances, scores);
    SortDescPermutes(es);
    SortDescSorted(es);
    forall v ensures WithAverage(st, v) == WithAverage(es, v) {
      SortDescStable(es, v);
    }
    forall i, j | 0 <= i < j < |st| ensures st[i].performanceId != st[j].performanceId {
      if st[i].performanceId == st[j].performanceId {
        assert st[i] in multiset(es) && st[j] in multiset(es);
        assert st[i] == st[j];
        RepeatedTwice(st, i, j);
        DistinctOnce(es, st[i]);
        assert false;
      }
    }
  }

  /** Every line of the standings is the summary of one scored performance. */
  lemma StandingsDescribe(participants: seq<Participant>, performances: seq<Performance>, scores: seq<ScoreEntry>, e: Ranked)
    requires Linked(participants, performances, scores)
    requires e in Standings(participants, performances, scores)
    ensures e in Entries(participants, performances, scores)
    ensures Describes(participants, performances, scores, e)
    ensures ScoresInRange(scores) ==> 1.0 <= e.avgScore <= 10.0
  {
    StandingsAreStableSort(participants, performances, scores);
    assert e in multiset(Standings(participants, performances, scores));
    if ScoresInRange(scores) {
      AverageInRange(scores, e.performanceId);
    }
  }

  // ---- properties of the podium ----

  /** Three lines, or one per scored performance when fewer; none exactly when there are no scores. */
  lemma PodiumSize(participants: seq<Participant>, performances: seq<Performance>, scores: seq<ScoreEntry>)
    requires Linked(participants, performances, scores)
    ensures |Podium(participants, performances, scores)| == if |Scored(scores)| < 3 then |Scored(scores)| else 3
    ensures scores == [] <==> Podium(participants, performances, scores) == []
  {
    SortDescPermutes(Entries(participants, performances, scores));
    if scores != [] {
      ScoredIffCounted(scores, scores[0].performanceId);
      CountedIffOccurs(scores, scores[0].performanceId);
    }
  }

  /**
   The podium is ordered by descending average, names distinct scored
   performances with their true averages, each in [1, 10].
   */
  lemma PodiumIsRanked(participants: seq<Participant>, performances: seq<Performance>, scores: seq<ScoreEntry>)
    requires Linked(participants, performances, scores)
    ensures DescSorted(Podium(participants, performances, scores))
    ensures DistinctPerformances(Podium(participants, performances, scores))
    ensures forall e :: e in Podium(participants, performances, scores) ==>
              Describes(participants, performances, scores, e) && (ScoresInRange(scores) ==> 1.0 <= e.avgScore <= 10.0)
  {
    var st := Standings(participants, performances, scores);
    var top := Podium(participants, performances, scores);
    StandingsAreStableSort(participants, performances, scores);
    forall e | e in top ensures Describes(participants, performances, scores, e) && (ScoresInRange(scores) ==> 1.0 <= e.avgScore <= 10.0) {
      var k :| 0 <= k < |top| && top[k] == e;
      assert st[k] == e;
      StandingsDescribe(participants, performances, scores, e);
    }
  }

  /** No scored performance left off the podium has a higher average than its last line. */
  lemma PodiumBeatsTheRest(participants: seq<Participant>, performances: seq<Performance>, scores: seq<ScoreEntry>, e: Ranked)
    requires Linked(participants, performances, scores)
    requires e in Entries(participants, performances, scores)
    requires e !in Podium(participants, performances, scores)
    ensures |Podium(participants, performances, scores)| == 3
    ensures e.avgScore <= Podium(participants, performances, scores)[2].avgScore
  {
    var st := Standings(participants, performances, scores);
    var top := Podium(participants, performances, scores);
    StandingsAreStableSort(participants, performances, scores);
    assert e in multiset(st);
    var k :| 0 <= k < |st| && st[k] == e;
    assert top == st[..|top|];
    assert st[2] == top[2];
  }

  /**
   Podium lines with equal averages appear in the order their performances
   were first scored: for every average they form a prefix of that order.
   */
  lemma PodiumKeepsTies(participants: seq<Participant>, performances: seq<Performance>, scores: seq<ScoreEntry>, v: real)
    requires Linked(participants, performances, scores)
    ensures WithAverage(Podium(participants, performances, scores), v) <= WithAverage(Entries(participants, performances, scores), v)
  {
    var st := Standings(participants, performances, scores);
    StandingsAreStableSort(participants, performances, scores);
    WithAveragePrefix(st, |Podium(participants, performances, scores)|, v);
    assert st[..|Podium(participants, performances, scores)|] == Podium(participants, performances, scores);
  }

  // ---- the routine ----

  /**
   fistival.py:102-111: one line per key of the grouped totals, in key order. The
   lookups of the performance and of its participant stay in bounds because
   every reference in the store is valid (`Linked`).
   */
  method Averages(participants: seq<Participant>, performances: seq<Performance>, scores: seq<ScoreEntry>) returns (avgScores: seq<Ranked>)
    requires Linked(participants, performances, scores)
    ensures avgScores == Entries(participants, performances, scores)
  {
    var sums, counts, order := GroupScores(scores);
    ScoredKeysValid(participants, performances, scores);
    ghost var es := Entries(participants, performances, scores);
    avgScores := [];
    for k := 0 to |order|
      invariant avgScores == es[..k]
    {
      var p := order[k];
      assert p in sums;
      var avg := sums[p] / counts[p] as real;
      var perf := performances[p];
      var participant := participants[perf.participantId];
      avgScores := avgScores + [Ranked(p, participant.name, perf.title, avg)];
      assert es[..k + 1] == es[..k] + [es[k]];
    }
    assert es[..|order|] == es;
  }

  /**
   fistival.py:85-117: with no scores, nothing; otherwise the averages, sorted in
   place by descending average, and their first three.
   */
  method ShowResults(participants: seq<Participant>, performances: seq<Performance>, scores: seq<ScoreEntry>) returns (top: seq<Ranked>)
    requires Linked(participants, performances, scores)
    ensures top == Podium(participants, performances, scores)
  {
    if scores == [] {
      return [];
    }
    var avgScores := Averages(participants, performances, scores);
    var a := new Ranked[|avgScores|] (j requires 0 <= j < |avgScores| => avgScores[j]);
    assert a[..] == avgScores;
    SortByAverage(a);
    top := if a.Length <= 3 then a[..] else a[..3];
  }

  /** The totals of three scores: 8 and 9 for performance 0, 7 for performance 1. */
  lemma SongAndDanceTotals(scores: seq<ScoreEntry>)
    requires scores == [ScoreEntry(0, 8.0), ScoreEntry(0, 9.0), ScoreEntry(1, 7.0)]
    ensures Scored(scores) == [0, 1]
    ensures SumFor(scores, 0) == 17.0 && CountFor(scores, 0) == 2
    ensures SumFor(scores, 1) == 7.0 && CountFor(scores, 1) == 1
  {
    var s1, s2 := scores[..1], scores[..2];
    assert s2[..1] == s1 && s1[..0] == [] && scores[..2] == s2;
    assert Scored(s1) == [0] && Scored(s2) == [0];
    assert SumFor(s1, 0) == 8.0 && CountFor(s1, 0) == 1 && SumFor(s1, 1) == 0.0 && CountFor(s1, 1) == 0;
    assert SumFor(s2, 0) == 17.0 && CountFor(s2, 0) == 2 && SumFor(s2, 1) == 0.0 && CountFor(s2, 1) == 0;
  }

  /**
   Two performances, "Song" scored 8 and 9 and "Dance" scored 7: the podium
   is Song with 8.5, then Dance with 7.0.
   */
  lemma SongAndDance(participants: seq<Participant>, performances: seq<Performance>, scores: seq<ScoreEntry>)
    requires participants == [Participant("Ann", "1"), Participant("Bob", "2")]
    requires performances == [Performance(0, "Song"), Performance(1, "Dance")]
    requires scores == [ScoreEntry(0, 8.0), ScoreEntry(0, 9.0), ScoreEntry(1, 7.0)]
    ensures WellFormed(participants, performances, scores)
    ensures Podium(participants, performances, scores) == [Ranked(0, "Ann", "Song", 8.5), Ranked(1, "Bob", "Dance", 7.0)]
  {
    SongAndDanceTotals(scores);
    var es := Entries(participants, performances, scores);
    var song, dance := Ranked(0, "Ann", "Song", 8.5), Ranked(1, "Bob", "Dance", 7.0);
    assert es[0] == song && es[1] == dance;
    assert es == [song, dance] && es[..1] == [song] && [song][..0] == [];
    assert SortDesc([song]) == [song];
    assert SortDesc(es) == Insert([song], dance) == [song, dance];
  }

  /** The totals of two scores: 8 for performance 1, then 8 for performance 0. */
  lemma TieTotals(scores: seq<ScoreEntry>)
    requires scores == [ScoreEntry(1, 8.0), ScoreEntry(0, 8.0)]
    ensures Scored(scores) == [1, 0]
    ensures SumFor(scores, 0) == 8.0 && CountFor(scores, 0) == 1
    ensures SumFor(scores, 1) == 8.0 && CountFor(scores, 1) == 1
  {
    var s1 := scores[..1];
    assert s1 == [ScoreEntry(1, 8.0)] && s1[..0] == [];
    assert Scored(s1) == [1];
    assert SumFor(s1, 0) == 0.0 && CountFor(s1, 0) == 0;
    assert SumFor(s1, 1) == 8.0 && CountFor(s1, 1) == 1;
  }

  /**
   A tie: "Dance" is scored before "Song" and both average 8. The podium
   keeps them in the order of their first scores, Dance first.
   */
  lemma TieKeepsFirstScored(participants: seq<Participant>, performances: seq<Performance>, scores: seq<ScoreEntry>)
    requires participants == [Participant("Ann", "1"), Participant("Bob", "2")]
    requires performances == [Performance(0, "Song"), Performance(1, "Dance")]
    requires scores == [ScoreEntry(1, 8.0), ScoreEntry(0, 8.0)]
    ensures WellFormed(participants, performances, scores)
    ensures Podium(participants, performances, scores) == [Ranked(1, "Bob", "Dance", 8.0), Ranked(0, "Ann", "Song", 8.0)]
  {
    TieTotals(scores);
    var es := Entries(participants, performances, scores);
    var dance, song := Ranked(1, "Bob", "Dance", 8.0), Ranked(0, "Ann", "Song", 8.0);
    assert es[0] == dance && es[1] == song;
    assert es == [dance, song] && es[..1] == [dance] && [dance][..0] == [];
    assert SortDesc([dance]) == [dance];
    assert SortDesc(es) == Insert([dance], song) == [dance, song];
  }
}

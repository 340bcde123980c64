/**
 The festival store: three append-only lists linked by index, and the three
 guarded operations that append to them. The numbers a user picks from a menu
 are 1-based; the store keeps 0-based indices.
 */
module FestivalStore {
  import opened Records
  import opened ScoreInput
  import Results

  /** What an add operation reports back to the menu. */
  datatype Outcome =
    | Added
    | NoParticipants          // add_performance on an empty participant list
    | BadParticipantNumber    // menu number outside 1..|participants|
    | NoPerformances          // add_score on an empty performance list
    | BadPerformanceNumber    // menu number outside 1..|performances|
    | BadScore                // score outside [1, 10]

  class Store {
    var participants: seq<Participant>
    var performances: seq<Performance>
    var scores: seq<ScoreEntry>

    /** Referential integrity and the score range, kept by every operation. */
    ghost predicate Valid()
      reads this
    {
      WellFormed(participants, performances, scores)
    }

    /** The store a missing data file yields: three empty lists. */
    constructor ()
      ensures Valid()
      ensures participants == [] && performances == [] && scores == []
    {
      participants, performances, scores := [], [], [];
    }

    /** Registers a participant; there is nothing to reject. */
    method AddParticipant(name: string, group: string)
      requires Valid()
      modifies this
      ensures Valid()
      ensures participants == old(participants) + [Participant(name, group)]
      ensures performances == old(performances) && scores == old(scores)
    {
      participants := participants + [Participant(name, group)];
    }

    /**
     Records a performance of the participant the user picked by its 1-based
     menu `number`. Fails, changing nothing, when there are no participants or
     the number is out of range.
     */
    method AddPerformance(number: int, title: string) returns (outcome: Outcome)
      requires Valid()
      modifies this
      ensures Valid()
      ensures outcome ==
                if old(participants) == [] then NoParticipants
                else if number < 1 || number > |old(participants)| then BadParticipantNumber
                else Added
      ensures outcome == Added ==> performances == old(performances) + [Performance(number - 1, title)]
      ensures outcome != Added ==> performances == old(performances)
      ensures participants == old(participants) && scores == old(scores)
    {
      if participants == [] {
        return NoParticipants;
      }
      var participantId := number - 1;
      if participantId < 0 || participantId >= |participants| {
        return BadParticipantNumber;
      }
      performances := performances + [Performance(participantId, title)];
      outcome := Added;
    }

    /**
     Records a score for the performance the user picked by its 1-based menu
     `number`. The number is checked before the score; either failure, like an
     empty performance list, changes nothing.
     */
    method AddScore(number: int, score: Float) returns (outcome: Outcome)
      requires Valid()
      modifies this
      ensures Valid()
      ensures outcome ==
                if old(performances) == [] then NoPerformances
                else if number < 1 || number > |old(performances)| then BadPerformanceNumber
                else if !InScoreRange(score) then BadScore
                else Added
      ensures outcome == Added ==> scores == old(scores) + [ScoreEntry(number - 1, score.value)]
      ensures outcome != Added ==> scores == old(scores)
      ensures participants == old(participants) && performances == old(performances)
    {
      if performances == [] {
        return NoPerformances;
      }
      var performanceId := number - 1;
      if performanceId < 0 || performanceId >= |performances| {
        return BadPerformanceNumber;
      }
      if !InScoreRange(score) {
        return BadScore;
      }
      scores := scores + [ScoreEntry(performanceId, score.value)];
      outcome := Added;
    }

    /**
     The results routine run on the store. The store's invariant gives the
     results routine valid references, so both lookups of fistival.py:105-106
     stay in bounds, and it keeps every printed average in [1, 10].
     */
    method ShowResults() returns (top: seq<Ranked>)
      requires Valid()
      ensures top == Results.Podium(participants, performances, scores)
      ensures scores != [] ==> top != []
      ensures forall e :: e in top ==> 1.0 <= e.avgScore <= 10.0
    {
      top := Results.ShowResults(participants, performances, scores);
      Results.PodiumSize(participants, performances, scores);
      Results.PodiumIsRanked(participants, performances, scores);
    }
  }
}

/**
 The records of the festival store: participants, performances and scores,
 each list linked to the previous one by list index, and the summary line the
 results routine builds for one performance.
 */
module Records {

  /** A registered participant: full name and group (course/faculty). */
  datatype Participant = Participant(name: string, group: string)

  /** A performance; `participantId` is a 0-based index into the participants. */
  datatype Performance = Performance(participantId: int, title: string)

  /** One judge's score; `performanceId` is a 0-based index into the performances. */
  datatype ScoreEntry = ScoreEntry(performanceId: int, score: real)

  /**
   One line of the ranking: the performance's participant name, its title and
   its average score. `performanceId` is the dictionary key the line was made
   from; it is kept so that a line can be traced back to its performance.
   */
  datatype Ranked = Ranked(performanceId: int, name: string, title: string, avgScore: real)

  /** Every stored score lies in [1, 10]. */
  predicate ScoresInRange(scores: seq<ScoreEntry>)
  {
    forall i :: 0 <= i < |scores| ==> 1.0 <= scores[i].score <= 10.0
  }

  /**
   Referential integrity: every performance names an existing participant and
   every score names an existing performance. The results routine needs no
   more than this.
   */
  predicate Linked(participants: seq<Participant>, performances: seq<Performance>, scores: seq<ScoreEntry>)
  {
    && (forall i :: 0 <= i < |performances| ==> 0 <= performances[i].participantId < |participants|)
    && (forall i :: 0 <= i < |scores| ==> 0 <= scores[i].performanceId < |performances|)
  }

  /** The invariant of the store: referential integrity, and every score in [1, 10]. */
  predicate WellFormed(participants: seq<Participant>, performances: seq<Performance>, scores: seq<ScoreEntry>)
  {
    Linked(participants, performances, scores) && ScoresInRange(scores)
  }
}

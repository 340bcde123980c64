# Festival store and results, modelled in Dafny

The program keeps the records of an amateur arts festival in three
append-only lists. Participants are `{name, group}` records. Performances are
`{participant_id, title}` records, where `participant_id` is an index into the
participants. Scores are `{performance_id, score}` records, where
`performance_id` is an index into the performances. Three guarded operations
append to these lists. A results routine averages the scores of every scored
performance, pairs each average with the performance's title and its
participant's name, sorts the lines by descending average with a stable sort,
and prints the first three.

The model has six modules:

- `Records` (records.dfy) holds the record types and two invariants.
  `Linked` is referential integrity: every `participant_id` and every
  `performance_id` points at an existing record. `WellFormed` is the store's
  invariant: `Linked`, and every score lies in [1, 10]. The results routine
  needs only `Linked`; only the claims that averages lie in [1, 10] also
  need the score range.
- `FestivalStore` (store.dfy) holds the class `Store`, whose three `seq`
  fields are the three lists. Its methods `AddParticipant`, `AddPerformance`
  and `AddScore` take the user's answers as parameters. `AddPerformance` and
  `AddScore` return an `Outcome` that names the message the program prints;
  `AddParticipant` cannot fail and returns nothing. Each method keeps
  `Valid()`, and a rejected input leaves every list unchanged. The method
  `ShowResults` runs the results routine on the store's lists.
- `ScoreInput` (score_input.dfy) models what Python's `float(...)` can
  return, including the infinities and NaN, and the score range check. See
  Findings.
- `Grouping` (grouping.dfy) holds the first loop of the results routine. It
  keeps a running sum and count per performance and, as a dictionary does,
  the performances in the order of their first score. The loop is specified
  by `SumFor`, `CountFor` and `Scored`.
- `Ranking` (ranking.dfy) holds the sort. `SortDesc` is a stable insertion
  sort by descending average. `SortByAverage` runs it in place on an array.
  Lemmas prove that the result is sorted, is a permutation of the input, and
  keeps equal averages in their input order. A stable sort has only one
  possible result (`StableSortIsUnique`), so Python's own sort returns the
  same list.
- `Results` (results.dfy) holds the second loop (`Averages`), the whole
  routine (`ShowResults`) and the properties of what it prints (`Podium`).

Scores are exact `real`s. Each summary line (`Ranked`) also carries the index
of its performance, which is the dictionary key the line was built from. That
index is never printed. It lets a contract say which performance a line is
about.

## Model

| member | source | states |
|---|---|---|
| `FestivalStore.Store.constructor` | fistival.py:9-10 | The store that a missing data file yields: three empty lists, which satisfy the integrity invariant. |
| `FestivalStore.Store.AddParticipant` | fistival.py:18-21 | Always appends exactly one `{name, group}` record. Performances and scores stay unchanged, and the invariant is kept. |
| `FestivalStore.Store.AddPerformance` | fistival.py:26-46 | With no participants it reports that and changes nothing. Otherwise, for a menu number outside 1..\|participants\| it reports a bad number and changes nothing. Otherwise it appends exactly `{participant_id: number - 1, title}`. The other lists stay unchanged and the invariant is kept. |
| `FestivalStore.Store.AddScore` | fistival.py:51-80 | The checks run in the source's order: no performances, then a menu number outside 1..\|performances\|, then a score outside [1, 10]. Each failure is reported and changes nothing. Otherwise it appends exactly `{performance_id: number - 1, score}`. The other lists stay unchanged and the invariant is kept. |
| `FestivalStore.Store.ShowResults` | fistival.py:85-117 | Run on the store, the results routine returns exactly `Podium` of the three lists. At least one line is printed whenever there is a score, and every printed average lies in [1, 10]. The store's invariant is what keeps the lookups of lines 105-106 in bounds. |
| `ScoreInput.NaNPassesAsWritten` | fistival.py:69-72 | The written test `score < 1 or score > 10` lets NaN through, although NaN is not a score in [1, 10]. |
| `ScoreInput.InScoreRangeFixesNaN` | fistival.py:69-72 | The intended range check accepts exactly what the written test accepts, minus NaN. Both reject the two infinities. |
| `Grouping.GroupScores` | fistival.py:91-100 | After the pass, the key order is the list of scored performances in first-scored order. The sum and count dictionaries both have exactly those keys. Each key's sum and count are the sum and number of that performance's scores. |
| `Grouping.ScoredIffCounted` | fistival.py:94-100 | A performance becomes a dictionary key exactly when it has at least one score. |
| `Grouping.CountedIffOccurs` | fistival.py:94-100 | A performance's count is positive exactly when some score entry names it. |
| `Grouping.ScoredDistinct` | fistival.py:96-98 | No performance becomes a key twice. |
| `Grouping.ScoredInFirstScoreOrder` | fistival.py:94-98 | The keys come in the order of their first scores: for two keys, the entry where the later key is first scored comes after some score of the earlier key. |
| `Grouping.ScoredBounded` | fistival.py:94-96 | Every key is one of the `performance_id`s in the score list, so it lies within any bound that they all respect. |
| `Grouping.UncountedSumsToZero` | fistival.py:96-99 | A performance without scores has sum 0. The zero that line 97 initialises matches `SumFor` before the first score. |
| `Grouping.SumBetweenBounds` | fistival.py:99-100 | When every score lies in [1, 10], a performance's sum lies between its count and 10 times its count. |
| `Grouping.AverageInRange` | fistival.py:104 | When every stored score lies in [1, 10], every average sum/count lies in [1, 10]. |
| `Ranking.WithAverageAppend` | fistival.py:114 | Selecting the lines of one average distributes over concatenation. |
| `Ranking.WithAverageMembers` | fistival.py:114 | The lines selected for average v are lines of the list and have average v. |
| `Ranking.WithAverageContains` | fistival.py:114 | Every line is among the lines selected for its own average. |
| `Ranking.WithAveragePrefix` | fistival.py:117 | For any average, the lines of a prefix that have it form a prefix of the lines of the whole list that have it. |
| `Ranking.InsertSorted` | fistival.py:114 | Inserting into a descending list keeps it descending. It adds exactly one line and no line from elsewhere. |
| `Ranking.InsertPermutes` | fistival.py:114 | Insertion adds exactly the inserted line to the multiset of lines. |
| `Ranking.InsertKeepsTies` | fistival.py:114 | Insertion puts the new line after every earlier line of the same average. |
| `Ranking.InsertAt` | fistival.py:114 | Insertion places the line after the first j lines when every later line has a strictly smaller average and line j-1 does not. This is the position the in-place loop finds. |
| `Ranking.SortDescSorted` | fistival.py:114 | The sort's result is in non-increasing order of average. |
| `Ranking.SortDescPermutes` | fistival.py:114 | The sort's result is a permutation of its input. |
| `Ranking.SortDescStable` | fistival.py:114 | The sort is stable: for every average, the lines with it appear in the same order as in the input. |
| `Ranking.LastIsLowest` | fistival.py:114 | In a descending list, no average that occurs is below the last line's. |
| `Ranking.SameTiesSameList` | fistival.py:114 | Two descending lists that agree on their lines of every average are equal. |
| `Ranking.StableSortIsUnique` | fistival.py:114 | Any descending rearrangement that keeps equal averages in input order is `SortDesc` of the input. So the insertion sort returns what Python's stable sort (with `reverse=True`) returns. |
| `Ranking.InsertInPlace` | fistival.py:114 | One in-place step: the first i+1 cells become the insertion of cell i into the sorted first i cells. The cells from index i+1 on stay unchanged. |
| `Ranking.SortByAverage` | fistival.py:114 | The in-place sort leaves the array holding `SortDesc` of its old contents. |
| `Results.ScoredKeysValid` | fistival.py:105-106 | With valid references, every key of the grouped totals is a valid performance index, and a performance is a key exactly when it has a score. Together with `Linked`, this makes both lookups of lines 105-106 in bounds. |
| `Results.Entries` | fistival.py:102-111 | A performance has a line in the unsorted list exactly when it has a score, and no performance has two lines. Every line is the true summary of its performance: its title, its participant's name, and the mean of its scores. The lines come in first-scored order. |
| `Results.TopThree` | fistival.py:117 | The slice `[:3]` is a prefix of length min(3, length). |
| `Results.RepeatedTwice` | fistival.py:114 | A line that occurs at two positions has multiplicity at least 2. |
| `Results.DistinctOnce` | fistival.py:114 | In a list about distinct performances no line occurs more than once. |
| `Results.StandingsAreStableSort` | fistival.py:114 | The sorted list is a permutation of the unsorted lines and is in non-increasing order. Equal averages stay in first-scored order, and no performance appears twice. |
| `Results.StandingsDescribe` | fistival.py:104-114 | Every sorted line is one of the unsorted lines and is the true summary of its performance. When every score lies in [1, 10], so does its average. |
| `Results.PodiumSize` | fistival.py:86-117 | The podium has min(3, number of scored performances) lines. It is empty exactly when there are no scores. |
| `Results.PodiumIsRanked` | fistival.py:114-117 | The podium is in non-increasing order and names distinct performances. Each line holds its performance's true average, which lies in [1, 10] when every score does. |
| `Results.PodiumBeatsTheRest` | fistival.py:114-117 | A scored performance missing from the podium means the podium is full. That performance's average is at most the third line's. |
| `Results.PodiumKeepsTies` | fistival.py:114-117 | For every average, the podium lines with that average are the first-scored performances with that average, in first-scored order. |
| `Results.Averages` | fistival.py:102-111 | The second loop builds exactly the unsorted list `Entries`, and its two lookups are proved in bounds. |
| `Results.ShowResults` | fistival.py:85-117 | With no scores the routine returns nothing. Otherwise it groups, averages, sorts in place and takes three, and it returns exactly `Podium`. |
| `Results.TieKeepsFirstScored` | fistival.py:94-117 | Example: "Dance" is scored 8 before "Song" is scored 8. The tie keeps first-scored order: Dance, then Song. |
| `Results.SongAndDance` | fistival.py:85-118 | Example: "Song" is scored 8 and 9 and "Dance" is scored 7. The result is Song at 8.5, then Dance at 7.0. |

## Left out

- Loading and saving the JSON data file (fistival.py:5-15) are file I/O. The
  model starts from the empty store. A hand-edited file could break the
  invariant; such a file is not modelled.
- The menu loop `main` (fistival.py:121-149) is interactive dispatch. Choices
  1 to 4 call the four modelled operations. Choice 5 prints a farewell and leaves the
  loop (fistival.py:142-144), and any other input prints an error message
  (fistival.py:145-146); neither changes the lists, and neither is modelled.
- Prompts and their parsing are left out. The text typed at a prompt becomes
  a parameter: the participant number and the performance number as the
  integer `int(...)` would give, and the score as a `ScoreInput.Float`. The
  `ValueError` raised for text that is not a number is left out.
- Printed output is left out: the messages, the numbered listings of
  fistival.py:30-32 and fistival.py:56-59, and the `:.2f` format of the
  podium. The listing at line 58 looks up `participants[perf["participant_id"]]`.
  That lookup is in bounds under `Store.Valid()`, for the same reason as line
  106. `Outcome` stands for which message is printed.
- Floating-point arithmetic is left out. Sums and averages are exact reals,
  so ties under exact arithmetic may differ from ties between rounded floats.
- Python's sort is Timsort, not insertion sort. By
  `Ranking.StableSortIsUnique`, both return the same list.
- `avg_scores` is one Python list that is first appended to and then sorted
  in place. The model builds a `seq` and then sorts a fresh array copy of it
  in place.

## Findings

| source | as written | input that shows it | evidently intended | confidence | as-written member | corrected member |
|---|---|---|---|---|---|---|
| fistival.py:69-72 | `float(input(...))` accepts "nan". The test `score < 1 or score > 10` is false for NaN, so NaN is stored as a score. Every later average of that performance becomes NaN. | type `nan` at the score prompt | reject every value that is not a number from 1 to 10 | not executed | `ScoreInput.NaNPassesAsWritten` | `ScoreInput.InScoreRangeFixesNaN` |

`FestivalStore.Store.AddScore` uses the corrected check
`ScoreInput.InScoreRange`. That is why `Store.Valid()` can promise that every
stored score lies in [1, 10].

# Movie-recommendation telemetry and online performance, in Dafny

This project models two parts of a movie-recommendation system.

The first is the telemetry collector (`data_collection/collect_telemetry.py`).
It receives each line of the server's event stream already split on commas.
It classifies the line as a watch event (`/data/` in the path), a rating
(`/rate/`), a served recommendation list (`recommendation`) or an invalid
line. It turns the line into a typed document and appends that document to
one of three collections: `user_watch_history`, `user_ratings` or
`recommendations`.

The second is the online performance calculator
(`online_performance/calculate_performance.py`). It reads those collections
back. For each recommendation served on a day, it finds the first movie the
user watched after it. If that movie was in the recommended list, the score is
the user's first later rating of that movie, or nothing when there is no such
rating. Otherwise the score is a penalty of 1. The day's metric is the mean of
the scores. Over a period, every day is evaluated in turn, an undefined or zero
metric is recorded as 0, and the minimum, maximum and mean are reported.

Files:

- `wrappers.dfy`: `Option` and `Result`.
- `text.dfy` (module `Text`): the parts of Python's `str` that the collector
  relies on.
  - The substring test `sub in s`, with a reference definition by index.
  - `s.split(c)`, with `Join` as its inverse. Both round trips are proved.
  - `int(s)` and `str(n)`, with `int(str(n)) == n`.
- `events.dfy` (module `Events`): the three stored record kinds and the
  database value `Db`.
- `telemetry.dfy` (module `Telemetry`):
  - the classifier;
  - the three normalisers, each a function returning a `Result` whose error is
    the exception the source raises;
  - the dispatch decision of `log_data`;
  - a class `EventStore` whose methods append to its three collection fields.
- `performance.dfy` (module `Performance`):
  - the day filter;
  - "the earliest event strictly after t";
  - the score of one recommendation;
  - the day metric, as a method with the source's loop, proved equal to a
    specification function;
  - the period loop, as a method proved against that function.

Instants are integers counting microseconds, the resolution of Python's
`datetime`. Day `d` is the half-open interval from `d * 86_400_000_000` to
`(d + 1) * 86_400_000_000`. The timestamp parsers (`datetime.strptime` with
`'%Y-%m-%dT%H:%M:%S'` and `datetime.fromisoformat`) are parameters of type
`string -> Option<Instant>`, where `None` stands for the `ValueError` they
raise.

Behaviour of the code worth noting, which the model keeps:

- A recommendation line with fewer than 24 fields is not rejected. The slice
  `message[4:24]` clamps to the line's length, so the stored list is shorter
  or even empty. Only a line of fewer than 2 fields fails, with `IndexError`.
- A line of fewer than three fields is not classified as a recommendation.
  `message[2]` raises `IndexError` before the recommendation test can run.
- The day metric is undefined when no recommendation of the day has a score.
  That happens when the day has no recommendations, and also when every
  recommendation was followed by a watch of a recommended movie that was never
  rated afterwards. The docstring of `calculate_metric_for_day` gives None for a
  day without recommendations or on which no recommended movie was watched.
  The second is not the condition the code tests: a recommendation whose user
  watched nothing recommended next scores the penalty 1, so such a day has
  a metric of 1, not None.
- The day metric lies in `[1, 5]` whenever every stored rating does
  (`MetricWithin`). Nothing checks the range of a rating when the line is
  parsed, so a stored rating outside `1..5` can carry the metric outside it.
- A missing database client does not reach the `if client` guards of
  `log_data`. `client.movie_recommendation_system` is dereferenced first and
  raises, so the "Failed to connect" branches can never run. The model
  reports `StoreUnavailable`, and only after classification has run.

## Model

| member | source | states |
|---|---|---|
| Text.ContainsIffOccurs | data_collection/collect_telemetry.py:17-23 | The scanning substring test holds exactly when `sub` occurs at some index of `s`, as Python's `in` means. |
| Text.SplitPieces | data_collection/collect_telemetry.py:36 | No piece produced by `split(sep)` contains `sep`. |
| Text.JoinSplit | data_collection/collect_telemetry.py:36 | Joining the pieces of `s.split(sep)` with `sep` gives back `s`. |
| Text.SplitJoin | data_collection/collect_telemetry.py:57 | Splitting the join of separator-free pieces gives back exactly those pieces, empty ones included. |
| Text.SplitAround | data_collection/collect_telemetry.py:57 | Splitting `a + sep + b` gives the pieces of `a` followed by the pieces of `b`. |
| Text.ParseIntToString | data_collection/collect_telemetry.py:65 | `int(str(n)) == n` for every integer, negative ones included. |
| Text.ParseIntRejectsDot | data_collection/collect_telemetry.py:44 | A literal that still contains a `.` after stripping is refused by `int()`, which is why the minute is cut at the first dot. |
| Telemetry.IdentifyRequestTypeRules | data_collection/collect_telemetry.py:15-26 | Both directions for each class, in the source's order of tests: DATA for three fields containing `/data/`; RATE for three fields containing `/rate/` but not `/data/`; an `IndexError` exactly for fewer than three fields; otherwise RECOMMENDATION when field 2 contains `recommendation`, else INVALID. |
| Telemetry.WatchRoundTrip | data_collection/collect_telemetry.py:34-47 | A three-field line whose path ends in `/<movie>/<str(minute)>.<ext>` and whose timestamp parses is read back as that user, movie, instant and minute. |
| Telemetry.WatchNeedsTwoSegments | data_collection/collect_telemetry.py:35-36 | A path without `/` cannot be unpacked into movie and minute, so the line fails with an unpacking error. |
| Telemetry.RatingRoundTrip | data_collection/collect_telemetry.py:55-68 | A three-field line whose path ends in `/<movie>=<str(rating)>` is read back as that user, movie, instant and rating, for any integer rating, with no range check. |
| Telemetry.RatingWithoutEquals | data_collection/collect_telemetry.py:57 | A last segment with no `=` fails with an unpacking error. |
| Telemetry.RatingWithTwoEquals | data_collection/collect_telemetry.py:57 | A last segment with two `=` fails with an unpacking error. |
| Telemetry.Slice | data_collection/collect_telemetry.py:73 | Python's `s[lo:hi]`: the length is clamped to the sequence, and element `k` is `s[lo + k]`. |
| Telemetry.ProcessRecommendationInfo | data_collection/collect_telemetry.py:71-83 | The result is Ok exactly when there are at least two fields and the ISO timestamp parses. Fewer than two fields is an `IndexError`; a bad timestamp is a `ValueError`. Otherwise it holds the user of field 1 and the parsed instant, and the movie list is fields 4..23 in order, 20 long or shorter for a short line. |
| Telemetry.RecommendationWindow | data_collection/collect_telemetry.py:73 | On a line of at least 24 fields the stored list is exactly `message[4..24]`. |
| Telemetry.LogDecisionRouting | data_collection/collect_telemetry.py:97-118 | A short line raises `IndexError`; a classified line without a store raises `StoreUnavailable`; nothing is written for INVALID; a connected line of class DATA, RATE or RECOMMENDATION is written to that class's collection exactly when its normaliser succeeds, and otherwise raises the normaliser's error; a written document always comes from the normaliser of the line's class. |
| Telemetry.EventStore.LogStreamLine | data_collection/collect_telemetry.py:86-87 | `insert_one` appends the document to its own collection and leaves the other two unchanged. |
| Telemetry.EventStore.LogData | data_collection/collect_telemetry.py:97-118 | Returns the exception of the dispatch decision when there is one; otherwise appends exactly the decided document to the matching collection and changes nothing else; on an exception or an INVALID line the store is unchanged. |
| Performance.FetchRecommendations | online_performance/calculate_performance.py:30-34 | Every fetched recommendation lies in `[midnight, next midnight)` of the day, and no more are fetched than are stored. |
| Performance.FetchRecommendationsExact | online_performance/calculate_performance.py:30-34 | Each recommendation of the day is fetched exactly as many times as it is stored, and none from another day. |
| Performance.FetchRecommendationsMembers | online_performance/calculate_performance.py:32-34 | A recommendation is fetched if and only if it is stored and served on that day. |
| Performance.EarliestIndex | online_performance/calculate_performance.py:53-57 | `find_one` with an ascending sort: None exactly when nothing matches; otherwise a matching position that is no later than any match and strictly earlier than every match stored before it. |
| Performance.FindNextMovieWatched | online_performance/calculate_performance.py:53-68 | None exactly when the user watched nothing strictly after the instant. Otherwise the movie and time of a watch by that user strictly after it: no later than any such watch, and the first stored among equally early ones. |
| Performance.FindNextMovieRating | online_performance/calculate_performance.py:90-106 | The same for the user's ratings of the given movie, returning the rating and its time. |
| Performance.NeverWatchedScoresPenalty | online_performance/calculate_performance.py:134-144 | A recommendation whose user watched nothing afterwards scores the penalty 1. |
| Performance.UnrecommendedWatchScoresPenalty | online_performance/calculate_performance.py:137-144 | So does one whose user's next watch, the earliest later one and the first stored among equally early ones, is of a movie outside the recommended list, whatever that user watched afterwards. |
| Performance.WatchedRecommendedMovie | online_performance/calculate_performance.py:137-142 | When the next watch (the earliest later one, the first stored among ties) is of a recommended movie: the score is missing exactly when the user never rated that movie afterwards; otherwise it is the earliest such rating. |
| Performance.RankIgnored | online_performance/calculate_performance.py:137 | Only membership in the recommended list matters, not its order or length. |
| Performance.ContributionWithin | online_performance/calculate_performance.py:137-144 | A score is the penalty or a stored rating, so it lies in 1..5 when every stored rating does. |
| Performance.Collect | online_performance/calculate_performance.py:125-144 | The loop's `all_ratings` gains at most one entry per recommendation. |
| Performance.CollectEmpty | online_performance/calculate_performance.py:147-150 | `all_ratings` is empty exactly when no recommendation has a score. |
| Performance.CollectAll | online_performance/calculate_performance.py:141-144 | When every recommendation has a score, `all_ratings` holds exactly those scores, one each and in order. |
| Performance.CollectWithin | online_performance/calculate_performance.py:141-144 | Bounds on every score bound every entry of `all_ratings`. |
| Performance.MeanWithin | online_performance/calculate_performance.py:148 | `sum(xs) / len(xs)` lies between any lower and upper bound of the entries. |
| Performance.MetricUndefined | online_performance/calculate_performance.py:147-150 | The day metric is None exactly when no recommendation of the day has a score. |
| Performance.MetricWithin | online_performance/calculate_performance.py:124-150 | With every stored rating in 1..5, a defined day metric lies in [1.0, 5.0]. |
| Performance.UniformDay | online_performance/calculate_performance.py:147-148 | When every recommendation of the day scores `v`, the metric is exactly `v`. |
| Performance.CalculateMetricForDay | online_performance/calculate_performance.py:124-150 | The loop returns the day metric of the specification. It is None on a day without recommendations. It lies in [1.0, 5.0] when every stored rating does. |
| Performance.RecordDay | online_performance/calculate_performance.py:213-217 | Appending the day's value, with 0 for a metric that is None or 0, extends the series by exactly that day's value. |
| Performance.Minimum | online_performance/calculate_performance.py:221 | `min`: an element of the list that no element is below. |
| Performance.Maximum | online_performance/calculate_performance.py:222 | `max`: an element of the list that no element exceeds. |
| Performance.MinimumMeanMaximum | online_performance/calculate_performance.py:220-223 | The mean of a non-empty list lies between its minimum and maximum. |
| Performance.Summarize | online_performance/calculate_performance.py:220-228 | No summary exactly for an empty list. Otherwise min, max and mean, with min <= mean <= max. |
| Performance.WarOverPeriod | online_performance/calculate_performance.py:203-228 | One value per day from the start to the end day inclusive, ascending: the day metric, or 0 when it is undefined. The summary is None exactly when the start is after the end; otherwise it holds the minimum, maximum and mean of those values, ordered min <= mean <= max. |

## Left out

- The database is replaced by in-memory sequences in insertion order. The
  connection setup is reduced to a `connected` flag. A query returns matches in
  the order of insertion, and among equally early matches a sorted
  `find_one` returns the first stored. MongoDB guarantees neither the order
  of an unsorted `find` nor the order of ties in a sort; insertion order is a
  modelling choice, the one an in-memory store shows.
- Calendar arithmetic, time zones and the text formats of the timestamp parsers
  are left out. Both parsers are parameters, and a date is a day number.
  The parameters hide what each format accepts: in particular `strptime` with
  `%S` refuses fractional seconds, so a watch or rating line whose timestamp
  carries microseconds (`2024-03-15T13:23:19.104304`) raises `ValueError` in
  its normaliser even though the classifier accepts it.
- `print` output is left out. That includes the "Failed to connect" messages
  of `log_data`, which cannot run, and the reports of `war_over_period`. The
  period's figures are returned instead.
- `war_day` is left out. It only parses a date, calls the day metric and
  prints it.
- Python floats are modelled as exact `real` numbers, so the rounding of
  `sum(...) / len(...)` is not modelled.
- Python's `int()` is modelled on ASCII whitespace and ASCII digits only.
  Underscore digit separators and non-ASCII digits and spaces are not
  accepted.
- A record with a missing field or a field of the wrong type cannot arise in
  the model. The records are typed, so a `KeyError` from reading a stored
  document is not modelled.
- Performance.FetchRecommendationsExact: this lemma states what is fetched as
  a multiset. That the fetched recommendations keep store order follows from
  the definition but is not stated as a property.

/**
 * The online quality metric: for each recommendation served on a day, find
 * what the user watched next and how they rated it, and average the
 * outcomes; then do that for every day of a period.
 */
module Performance {
  import opened Wrappers
  import opened Events

  // ---------------------------------------------------------------------------
  // Days
  // ---------------------------------------------------------------------------

  const MicrosPerDay: int := 86_400_000_000

  /** Midnight at the start of day number `day`. */
  function StartOfDay(day: int): Instant
  {
    day * MicrosPerDay
  }

  /** `t` lies in the half-open interval from midnight of `day` to midnight of the next day. */
  predicate OnDay(t: Instant, day: int)
  {
    StartOfDay(day) <= t < StartOfDay(day + 1)
  }

  /**
   * `fetch_recommendations`: the recommendations served on `day`, in store
   * order.
   */
  function FetchRecommendations(recommendations: seq<RecommendationEvent>, day: int)
    : (r: seq<RecommendationEvent>)
    ensures |r| <= |recommendations|
    ensures forall k :: 0 <= k < |r| ==> OnDay(r[k].timestamp, day)
  {
    if recommendations == [] then []
    else
      var n := |recommendations| - 1;
      var rest := FetchRecommendations(recommendations[..n], day);
      if OnDay(recommendations[n].timestamp, day) then rest + [recommendations[n]] else rest
  }

  /**
   * Each recommendation of that day is fetched as often as it is stored, and
   * no other one is fetched.
   */
  lemma {:induction false} FetchRecommendationsExact(recommendations: seq<RecommendationEvent>, day: int)
    ensures forall x ::
              multiset(FetchRecommendations(recommendations, day))[x]
              == if OnDay(x.timestamp, day) then multiset(recommendations)[x] else 0
  {
    if recommendations != [] {
      var n := |recommendations| - 1;
      assert recommendations == recommendations[..n] + [recommendations[n]];
      FetchRecommendationsExact(recommendations[..n], day);
    }
  }

  /** In particular: fetched exactly when stored and served that day. */
  lemma FetchRecommendationsMembers(recommendations: seq<RecommendationEvent>, day: int, x: RecommendationEvent)
    ensures x in FetchRecommendations(recommendations, day) <==> x in recommendations && OnDay(x.timestamp, day)
  {
    FetchRecommendationsExact(recommendations, day);
    var r := FetchRecommendations(recommendations, day);
    assert x in r <==> multiset(r)[x] > 0;
    assert x in recommendations <==> multiset(recommendations)[x] > 0;
  }

  // ---------------------------------------------------------------------------
  // "The first event after t" (find_one sorted by ascending timestamp)
  // ---------------------------------------------------------------------------

  /**
   * The position of the earliest element of `s` that `keep` selects; among
   * equally early ones, the first in store order.
   */
  function EarliestIndex<T>(s: seq<T>, keep: T -> bool, time: T -> Instant): (r: Option<nat>)
    ensures r.None? <==> forall j :: 0 <= j < |s| ==> !keep(s[j])
    ensures r.Some? ==> r.value < |s| && keep(s[r.value])
    ensures r.Some? ==> forall j :: 0 <= j < |s| && keep(s[j]) ==> time(s[r.value]) <= time(s[j])
    ensures r.Some? ==> forall j :: 0 <= j < r.value && keep(s[j]) ==> time(s[r.value]) < time(s[j])
  {
    if s == [] then None
    else
      var n := |s| - 1;
      var r := EarliestIndex(s[..n], keep, time);
      assert forall j :: 0 <= j < n ==> s[..n][j] == s[j];
      if keep(s[n]) && (r.None? || time(s[n]) < time(s[r.value])) then Some(n) else r
  }

  predicate IsWatchAfter(w: WatchEvent, userId: string, after: Instant)
  {
    w.userId == userId && w.timestamp > after
  }

  /** What `find_next_movie_watched` returns: `movieid` and `watched_at`. */
  datatype WatchedMovie = WatchedMovie(movieId: string, watchedAt: Instant)

  /**
   * `find_next_movie_watched`: the earliest watch event of `userId` strictly
   * after `after` (the first stored of equally early ones), or None when the
   * user watched nothing after that instant.
   */
  function FindNextMovieWatched(history: seq<WatchEvent>, userId: string, after: Instant)
    : (r: Option<WatchedMovie>)
    ensures r.None? <==> forall j :: 0 <= j < |history| ==> !IsWatchAfter(history[j], userId, after)
    ensures r.Some? ==> exists i ::
      && 0 <= i < |history|
      && IsWatchAfter(history[i], userId, after)
      && r.value == WatchedMovie(history[i].movieId, history[i].timestamp)
      && (forall j :: 0 <= j < i && IsWatchAfter(history[j], userId, after) ==> history[i].timestamp < history[j].timestamp)
    ensures r.Some? ==> forall j :: 0 <= j < |history| && IsWatchAfter(history[j], userId, after) ==>
      r.value.watchedAt <= history[j].timestamp
  {
    match EarliestIndex(history, (w: WatchEvent) => IsWatchAfter(w, userId, after), (w: WatchEvent) => w.timestamp)
    case None => None
    case Some(i) => Some(WatchedMovie(history[i].movieId, history[i].timestamp))
  }

  predicate IsRatingAfter(r: RatingEvent, userId: string, after: Instant, movieId: string)
  {
    r.userId == userId && r.timestamp > after && r.movieId == movieId
  }

  /** What `find_next_movie_rating` returns: `movie_rating` and the rating's timestamp. */
  datatype MovieRating = MovieRating(movieRating: int, ratedAt: Instant)

  /**
   * `find_next_movie_rating`: the earliest rating of `movieId` by `userId`
   * strictly after `after`, or None when there is none.
   */
  function FindNextMovieRating(ratings: seq<RatingEvent>, userId: string, after: Instant, movieId: string)
    : (r: Option<MovieRating>)
    ensures r.None? <==> forall j :: 0 <= j < |ratings| ==> !IsRatingAfter(ratings[j], userId, after, movieId)
    ensures r.Some? ==> exists i ::
      && 0 <= i < |ratings|
      && IsRatingAfter(ratings[i], userId, after, movieId)
      && r.value == MovieRating(ratings[i].rating, ratings[i].timestamp)
      && (forall j :: 0 <= j < i && IsRatingAfter(ratings[j], userId, after, movieId) ==> ratings[i].timestamp < ratings[j].timestamp)
    ensures r.Some? ==> forall j :: 0 <= j < |ratings| && IsRatingAfter(ratings[j], userId, after, movieId) ==>
      r.value.ratedAt <= ratings[j].timestamp
  {
    match EarliestIndex(ratings, (x: RatingEvent) => IsRatingAfter(x, userId, after, movieId), (x: RatingEvent) => x.timestamp)
    case None => None
    case Some(i) => Some(MovieRating(ratings[i].rating, ratings[i].timestamp))
  }

  // ---------------------------------------------------------------------------
  // Scoring one recommendation
  // ---------------------------------------------------------------------------

  /** The score of a recommendation whose user watched nothing from it next. */
  const Penalty: int := 1

  /**
   * The share of one recommendation in its day's score, as the loop of
   * `calculate_metric_for_day` decides it: the penalty when the user's next
   * watch is missing or not among the recommended movies; otherwise the
   * user's earliest rating of that movie after the recommendation, or
   * nothing at all when there is no such rating.
   */
  function Contribution(db: Db, rec: RecommendationEvent): Option<int>
  {
    var watched := FindNextMovieWatched(db.userWatchHistory, rec.userId, rec.timestamp);
    if watched.Some? && watched.value.movieId in rec.recommendedMovies then
      match FindNextMovieRating(db.userRatings, rec.userId, rec.timestamp, watched.value.movieId)
      case Some(rating) => Some(rating.movieRating)
      case None => None
    else Some(Penalty)
  }

  /** A user who watched nothing after the recommendation scores the penalty. */
  lemma NeverWatchedScoresPenalty(db: Db, rec: RecommendationEvent)
    requires forall j :: 0 <= j < |db.userWatchHistory| ==> !IsWatchAfter(db.userWatchHistory[j], rec.userId, rec.timestamp)
    ensures Contribution(db, rec) == Some(Penalty)
  {
  }

  /**
   * So does a user whose next watch, the earliest one after the
   * recommendation (the first stored among equally early ones), is of a movie
   * outside the recommended list, whatever that user watched afterwards.
   */
  lemma UnrecommendedWatchScoresPenalty(db: Db, rec: RecommendationEvent, i: nat)
    requires i < |db.userWatchHistory|
    requires IsWatchAfter(db.userWatchHistory[i], rec.userId, rec.timestamp)
    requires forall j ::
               0 <= j < |db.userWatchHistory| && IsWatchAfter(db.userWatchHistory[j], rec.userId, rec.timestamp)
               ==> db.userWatchHistory[i].timestamp <= db.userWatchHistory[j].timestamp
    requires forall j ::
               0 <= j < i && IsWatchAfter(db.userWatchHistory[j], rec.userId, rec.timestamp)
               ==> db.userWatchHistory[i].timestamp < db.userWatchHistory[j].timestamp
    requires db.userWatchHistory[i].movieId !in rec.recommendedMovies
    ensures Contribution(db, rec) == Some(Penalty)
  {
    var watched := FindNextMovieWatched(db.userWatchHistory, rec.userId, rec.timestamp);
    assert watched.Some?;
    var w :| 0 <= w < |db.userWatchHistory| && IsWatchAfter(db.userWatchHistory[w], rec.userId, rec.timestamp)
      && watched.value == WatchedMovie(db.userWatchHistory[w].movieId, db.userWatchHistory[w].timestamp)
      && (forall j :: 0 <= j < w && IsWatchAfter(db.userWatchHistory[j], rec.userId, rec.timestamp)
            ==> db.userWatchHistory[w].timestamp < db.userWatchHistory[j].timestamp);
    assert w == i;
  }

  /**
   * A recommended movie that was watched next (earliest after the
   * recommendation, the first stored among ties) but never rated after the
   * recommendation contributes nothing; had it been rated, its earliest such
   * rating would be the contribution, whether given before or after the watch.
   */
  lemma WatchedRecommendedMovie(db: Db, rec: RecommendationEvent, i: nat)
    requires i < |db.userWatchHistory|
    requires IsWatchAfter(db.userWatchHistory[i], rec.userId, rec.timestamp)
    requires forall j ::
               0 <= j < |db.userWatchHistory| && IsWatchAfter(db.userWatchHistory[j], rec.userId, rec.timestamp)
               ==> db.userWatchHistory[i].timestamp <= db.userWatchHistory[j].timestamp
    requires forall j ::
               0 <= j < i && IsWatchAfter(db.userWatchHistory[j], rec.userId, rec.timestamp)
               ==> db.userWatchHistory[i].timestamp < db.userWatchHistory[j].timestamp
    requires db.userWatchHistory[i].movieId in rec.recommendedMovies
    ensures var m := db.userWatchHistory[i].movieId;
      && ((forall j :: 0 <= j < |db.userRatings| ==> !IsRatingAfter(db.userRatings[j], rec.userId, rec.timestamp, m))
            <==> Contribution(db, rec).None?)
      && (Contribution(db, rec).Some? ==>
            exists k :: 0 <= k < |db.userRatings| && IsRatingAfter(db.userRatings[k], rec.userId, rec.timestamp, m)
              && Contribution(db, rec).value == db.userRatings[k].rating
              && forall j :: 0 <= j < |db.userRatings| && IsRatingAfter(db.userRatings[j], rec.userId, rec.timestamp, m)
                   ==> db.userRatings[k].timestamp <= db.userRatings[j].timestamp)
  {
    var m := db.userWatchHistory[i].movieId;
    var watched := FindNextMovieWatched(db.userWatchHistory, rec.userId, rec.timestamp);
    assert watched.Some? && watched.value.movieId == m by {
      assert watched.Some?;
      var w :| 0 <= w < |db.userWatchHistory| && IsWatchAfter(db.userWatchHistory[w], rec.userId, rec.timestamp)
        && watched.value == WatchedMovie(db.userWatchHistory[w].movieId, db.userWatchHistory[w].timestamp)
        && (forall j :: 0 <= j < w && IsWatchAfter(db.userWatchHistory[j], rec.userId, rec.timestamp)
              ==> db.userWatchHistory[w].timestamp < db.userWatchHistory[j].timestamp);
      assert w == i;
    }
    var rating := FindNextMovieRating(db.userRatings, rec.userId, rec.timestamp, m);
    assert Contribution(db, rec) == if rating.Some? then Some(rating.value.movieRating) else None;
    if rating.Some? {
      var k :| 0 <= k < |db.userRatings| && IsRatingAfter(db.userRatings[k], rec.userId, rec.timestamp, m)
        && rating.value == MovieRating(db.userRatings[k].rating, db.userRatings[k].timestamp)
        && (forall j :: 0 <= j < k && IsRatingAfter(db.userRatings[j], rec.userId, rec.timestamp, m)
              ==> db.userRatings[k].timestamp < db.userRatings[j].timestamp);
      assert Contribution(db, rec).value == db.userRatings[k].rating;
    }
  }

  /** Only membership in the recommended list matters, not the rank nor the length of the list. */
  lemma RankIgnored(db: Db, rec: RecommendationEvent, other: RecommendationEvent)
    requires other.userId == rec.userId && other.timestamp == rec.timestamp
    requires forall m :: m in rec.recommendedMovies <==> m in other.recommendedMovies
    ensures Contribution(db, rec) == Contribution(db, other)
  {
  }

  /** Every rating in the store lies in `[lo, hi]`. */
  predicate RatingsWithin(ratings: seq<RatingEvent>, lo: int, hi: int)
  {
    forall j :: 0 <= j < |ratings| ==> lo <= ratings[j].rating <= hi
  }

  /** A contribution is the penalty or some stored rating, so it lies in 1..5 when all ratings do. */
  lemma ContributionWithin(db: Db, rec: RecommendationEvent)
    requires RatingsWithin(db.userRatings, 1, 5)
    ensures Contribution(db, rec).Some? ==> 1 <= Contribution(db, rec).value <= 5
  {
    var watched := FindNextMovieWatched(db.userWatchHistory, rec.userId, rec.timestamp);
    if watched.Some? && watched.value.movieId in rec.recommendedMovies {
      var rating := FindNextMovieRating(db.userRatings, rec.userId, rec.timestamp, watched.value.movieId);
      if rating.Some? {
        var k :| 0 <= k < |db.userRatings| && rating.value == MovieRating(db.userRatings[k].rating, db.userRatings[k].timestamp)
          && IsRatingAfter(db.userRatings[k], rec.userId, rec.timestamp, watched.value.movieId)
          && (forall j :: 0 <= j < k && IsRatingAfter(db.userRatings[j], rec.userId, rec.timestamp, watched.value.movieId)
                ==> db.userRatings[k].timestamp < db.userRatings[j].timestamp);
      }
    }
  }

  // ---------------------------------------------------------------------------
  // Scoring one day
  // ---------------------------------------------------------------------------

  /**
   * What a loop keeps when it appends `score(x)` for every `x` in turn whose
   * score is defined: at most one entry per element, in order.
   */
  function Collect<T>(xs: seq<T>, score: T -> Option<int>): (kept: seq<int>)
    ensures |kept| <= |xs|
  {
    if xs == [] then []
    else
      var rest := Collect(xs[..|xs| - 1], score);
      match score(xs[|xs| - 1])
      case None => rest
      case Some(v) => rest + [v]
  }

  /** Nothing is kept exactly when no element has a score. */
  lemma {:induction false} CollectEmpty<T>(xs: seq<T>, score: T -> Option<int>)
    ensures Collect(xs, score) == [] <==> forall k :: 0 <= k < |xs| ==> score(xs[k]).None?
  {
    if xs != [] {
      var n := |xs| - 1;
      CollectEmpty(xs[..n], score);
      assert forall k :: 0 <= k < n ==> xs[..n][k] == xs[k];
    }
  }

  /** When every element has a score, the scores are kept one for one, in order. */
  lemma {:induction false} CollectAll<T>(xs: seq<T>, score: T -> Option<int>)
    requires forall k :: 0 <= k < |xs| ==> score(xs[k]).Some?
    ensures |Collect(xs, score)| == |xs|
    ensures forall k :: 0 <= k < |xs| ==> Collect(xs, score)[k] == score(xs[k]).value
  {
    if xs != [] {
      var n := |xs| - 1;
      assert forall k :: 0 <= k < n ==> xs[..n][k] == xs[k];
      CollectAll(xs[..n], score);
    }
  }

  /** Bounds on every defined score bound every kept entry. */
  lemma {:induction false} CollectWithin<T>(xs: seq<T>, score: T -> Option<int>, lo: int, hi: int)
    requires forall k :: 0 <= k < |xs| && score(xs[k]).Some? ==> lo <= score(xs[k]).value <= hi
    ensures forall k :: 0 <= k < |Collect(xs, score)| ==> lo <= Collect(xs, score)[k] <= hi
  {
    if xs != [] {
      var n := |xs| - 1;
      assert forall k :: 0 <= k < n ==> xs[..n][k] == xs[k];
      CollectWithin(xs[..n], score, lo, hi);
    }
  }

  /** `Contribution` against a fixed store, as a function of the recommendation alone. */
  function ScoreAgainst(db: Db): RecommendationEvent -> Option<int>
  {
    (rec: RecommendationEvent) => Contribution(db, rec)
  }

  /** The list `all_ratings` the day's loop builds from its recommendations. */
  function Contributions(db: Db, recs: seq<RecommendationEvent>): seq<int>
  {
    Collect(recs, ScoreAgainst(db))
  }

  function Sum(xs: seq<real>): real
  {
    if xs == [] then 0.0 else Sum(xs[..|xs| - 1]) + xs[|xs| - 1]
  }

  /** Python's `sum(xs) / len(xs)`. */
  function Mean(xs: seq<real>): real
    requires |xs| > 0
  {
    Sum(xs) / |xs| as real
  }

  function AsReals(xs: seq<int>): (r: seq<real>)
    ensures |r| == |xs|
    ensures forall k :: 0 <= k < |xs| ==> r[k] == xs[k] as real
  {
    seq(|xs|, k requires 0 <= k < |xs| => xs[k] as real)
  }

  /** Bounds on every element bound the sum. */
  lemma {:induction false} SumWithin(xs: seq<real>, lo: real, hi: real)
    requires forall k :: 0 <= k < |xs| ==> lo <= xs[k] <= hi
    ensures |xs| as real * lo <= Sum(xs) <= |xs| as real * hi
  {
    if xs != [] {
      var n := |xs| - 1;
      var init := xs[..n];
      assert forall k :: 0 <= k < n ==> init[k] == xs[k];
      SumWithin(init, lo, hi);
      assert Sum(xs) == Sum(init) + xs[n];
      assert |xs| as real * lo == n as real * lo + lo;
      assert |xs| as real * hi == n as real * hi + hi;
    }
  }

  /** ... and so the mean. */
  lemma MeanWithin(xs: seq<real>, lo: real, hi: real)
    requires |xs| > 0
    requires forall k :: 0 <= k < |xs| ==> lo <= xs[k] <= hi
    ensures lo <= Mean(xs) <= hi
  {
    SumWithin(xs, lo, hi);
    var n := |xs| as real;
    assert Mean(xs) - lo == (Sum(xs) - n * lo) / n;
    assert hi - Mean(xs) == (n * hi - Sum(xs)) / n;
  }

  /** The sum of `n` copies of `v` is `n * v`. */
  lemma {:induction false} SumConstant(xs: seq<real>, v: real)
    requires forall k :: 0 <= k < |xs| ==> xs[k] == v
    ensures Sum(xs) == |xs| as real * v
  {
    if xs != [] {
      var n := |xs| - 1;
      assert forall k :: 0 <= k < n ==> xs[..n][k] == xs[k];
      SumConstant(xs[..n], v);
    }
  }

  /**
   * The day's metric, as `calculate_metric_for_day` returns it: None when no
   * recommendation of the day contributes, otherwise the mean contribution.
   */
  function MetricForDay(db: Db, day: int): Option<real>
  {
    var scores := Contributions(db, FetchRecommendations(db.recommendations, day));
    if scores == [] then None else Some(Mean(AsReals(scores)))
  }

  /**
   * The metric is undefined exactly when no recommendation of the day
   * contributes: in particular on a day without recommendations, and on a
   * day whose recommendations were all watched from the list but not rated.
   */
  lemma MetricUndefined(db: Db, day: int)
    ensures MetricForDay(db, day).None?
            <==> forall rec :: rec in FetchRecommendations(db.recommendations, day) ==> Contribution(db, rec).None?
  {
    var recs := FetchRecommendations(db.recommendations, day);
    var score := ScoreAgainst(db);
    CollectEmpty(recs, score);
    assert forall k :: 0 <= k < |recs| ==> score(recs[k]) == Contribution(db, recs[k]);
  }

  /** With every rating in 1..5, a defined metric lies in 1..5 too. */
  lemma MetricWithin(db: Db, day: int)
    requires RatingsWithin(db.userRatings, 1, 5)
    ensures MetricForDay(db, day).Some? ==> 1.0 <= MetricForDay(db, day).value <= 5.0
  {
    var recs := FetchRecommendations(db.recommendations, day);
    var scores := Contributions(db, recs);
    if scores != [] {
      forall k | 0 <= k < |recs| ensures Contribution(db, recs[k]).Some? ==> 1 <= Contribution(db, recs[k]).value <= 5 {
        ContributionWithin(db, recs[k]);
      }
      CollectWithin(recs, ScoreAgainst(db), 1, 5);
      MeanWithin(AsReals(scores), 1.0, 5.0);
    }
  }

  /**
   * A day on which every recommendation scores the same `v` has metric `v`;
   * a day whose recommendations were all never watched afterwards has metric 1.
   */
  lemma UniformDay(db: Db, day: int, v: int)
    requires |FetchRecommendations(db.recommendations, day)| > 0
    requires var recs := FetchRecommendations(db.recommendations, day);
      forall k :: 0 <= k < |recs| ==> Contribution(db, recs[k]) == Some(v)
    ensures MetricForDay(db, day) == Some(v as real)
  {
    var recs := FetchRecommendations(db.recommendations, day);
    assert forall k :: 0 <= k < |recs| ==> ScoreAgainst(db)(recs[k]) == Some(v);
    UniformMean(recs, ScoreAgainst(db), v);
  }

  /** When every element scores `v`, the mean of what is kept is `v`. */
  lemma UniformMean<T>(xs: seq<T>, score: T -> Option<int>, v: int)
    requires |xs| > 0
    requires forall k :: 0 <= k < |xs| ==> score(xs[k]) == Some(v)
    ensures |Collect(xs, score)| > 0
    ensures Mean(AsReals(Collect(xs, score))) == v as real
  {
    var kept := Collect(xs, score);
    CollectAll(xs, score);
    assert forall k :: 0 <= k < |kept| ==> kept[k] == v;
    var scores := AsReals(kept);
    var x := v as real;
    assert forall k :: 0 <= k < |scores| ==> scores[k] == x;
    SumConstant(scores, x);
    var n := |scores| as real;
    assert Sum(scores) == n * x;
    assert Mean(scores) == Sum(scores) / n;
    DivideOut(x, n);
  }

  lemma DivideOut(x: real, n: real)
    requires n != 0.0
    ensures (n * x) / n == x
  {
  }

  /**
   * `calculate_metric_for_day`: walks the day's recommendations, appending
   * each one's score to `all_ratings`, then averages.
   */
  method CalculateMetricForDay(db: Db, day: int) returns (average: Option<real>)
    ensures average == MetricForDay(db, day)
    ensures FetchRecommendations(db.recommendations, day) == [] ==> average.None?
    ensures RatingsWithin(db.userRatings, 1, 5) && average.Some? ==> 1.0 <= average.value <= 5.0
  {
    var recommendations := FetchRecommendations(db.recommendations, day);
    var allRatings: seq<int> := [];
    for i := 0 to |recommendations|
      invariant allRatings == Contributions(db, recommendations[..i])
    {
      var recommendation := recommendations[i];
      assert recommendations[..i + 1][..i] == recommendations[..i];
      var watched := FindNextMovieWatched(db.userWatchHistory, recommendation.userId, recommendation.timestamp);
      if watched.Some? && watched.value.movieId in recommendation.recommendedMovies {
        var rating := FindNextMovieRating(db.userRatings, recommendation.userId, recommendation.timestamp, watched.value.movieId);
        if rating.Some? {
          allRatings := allRatings + [rating.value.movieRating];
        }
      } else {
        allRatings := allRatings + [Penalty];
      }
    }
    assert recommendations[..|recommendations|] == recommendations;
    if |allRatings| > 0 {
      average := Some(Mean(AsReals(allRatings)));
    } else {
      average := None;
    }
    if RatingsWithin(db.userRatings, 1, 5) {
      MetricWithin(db, day);
    }
  }

  // ---------------------------------------------------------------------------
  // Scoring a period
  // ---------------------------------------------------------------------------

  /** The value recorded for a day: an undefined metric counts as 0. */
  function DayRating(db: Db, day: int): real
  {
    match MetricForDay(db, day)
    case None => 0.0
    case Some(v) => v
  }

  /** One more day's value, zero when its metric is undefined or zero, extends the series by that day. */
  lemma RecordDay(db: Db, startDay: int, ratings: seq<real>, average: Option<real>)
    requires forall k :: 0 <= k < |ratings| ==> ratings[k] == DayRating(db, startDay + k)
    requires average == MetricForDay(db, startDay + |ratings|)
    ensures var next := ratings + [if average.None? || average.value == 0.0 then 0.0 else average.value];
      forall k :: 0 <= k < |next| ==> next[k] == DayRating(db, startDay + k)
  {
    var value := if average.None? || average.value == 0.0 then 0.0 else average.value;
    assert value == DayRating(db, startDay + |ratings|);
    var next := ratings + [value];
    forall k | 0 <= k < |next| ensures next[k] == DayRating(db, startDay + k) {
      if k < |ratings| {
        assert next[k] == ratings[k];
      }
    }
  }

  function Minimum(xs: seq<real>): (m: real)
    requires |xs| > 0
    ensures m in xs
    ensures forall k :: 0 <= k < |xs| ==> m <= xs[k]
  {
    if |xs| == 1 then xs[0]
    else
      var rest := Minimum(xs[..|xs| - 1]);
      assert forall k :: 0 <= k < |xs| - 1 ==> xs[..|xs| - 1][k] == xs[k];
      if xs[|xs| - 1] < rest then xs[|xs| - 1] else rest
  }

  function Maximum(xs: seq<real>): (m: real)
    requires |xs| > 0
    ensures m in xs
    ensures forall k :: 0 <= k < |xs| ==> xs[k] <= m
  {
    if |xs| == 1 then xs[0]
    else
      var rest := Maximum(xs[..|xs| - 1]);
      assert forall k :: 0 <= k < |xs| - 1 ==> xs[..|xs| - 1][k] == xs[k];
      if xs[|xs| - 1] > rest then xs[|xs| - 1] else rest
  }

  lemma MinimumMeanMaximum(xs: seq<real>)
    requires |xs| > 0
    ensures Minimum(xs) <= Mean(xs) <= Maximum(xs)
  {
    MeanWithin(xs, Minimum(xs), Maximum(xs));
  }

  /** The three figures reported for a period. */
  datatype PeriodSummary = PeriodSummary(minimum: real, maximum: real, average: real)

  /** `min`, `max` and the mean of the recorded values, none for an empty period. */
  function Summarize(ratings: seq<real>): (summary: Option<PeriodSummary>)
    ensures summary.None? <==> ratings == []
    ensures summary.Some? ==> summary.value == PeriodSummary(Minimum(ratings), Maximum(ratings), Mean(ratings))
    ensures summary.Some? ==> summary.value.minimum <= summary.value.average <= summary.value.maximum
  {
    if |ratings| > 0 then
      MinimumMeanMaximum(ratings);
      Some(PeriodSummary(Minimum(ratings), Maximum(ratings), Mean(ratings)))
    else None
  }

  /**
   * `war_over_period`: one value per day from `startDay` to `endDay`
   * inclusive, ascending, then their minimum, maximum and mean; no summary
   * for an empty period.
   */
  method WarOverPeriod(db: Db, startDay: int, endDay: int) returns (ratings: seq<real>, summary: Option<PeriodSummary>)
    ensures |ratings| == if startDay <= endDay then endDay - startDay + 1 else 0
    ensures forall k :: 0 <= k < |ratings| ==> ratings[k] == DayRating(db, startDay + k)
    ensures summary.None? <==> startDay > endDay
    ensures summary.Some? ==> summary.value == PeriodSummary(Minimum(ratings), Maximum(ratings), Mean(ratings))
    ensures summary.Some? ==> summary.value.minimum <= summary.value.average <= summary.value.maximum
  {
    var currentDay := startDay;
    ratings := [];
    while currentDay <= endDay
      invariant currentDay == startDay + |ratings|
      invariant startDay <= endDay ==> currentDay <= endDay + 1
      invariant startDay > endDay ==> ratings == []
      invariant forall k :: 0 <= k < |ratings| ==> ratings[k] == DayRating(db, startDay + k)
      decreases endDay - currentDay
    {
      var average := CalculateMetricForDay(db, currentDay);
      // `if not average_rating`: an undefined or zero metric is recorded as 0
      var value := if average.None? || average.value == 0.0 then 0.0 else average.value;
      RecordDay(db, startDay, ratings, average);
      ratings := ratings + [value];
      currentDay := currentDay + 1;
    }
    summary := Summarize(ratings);
  }
}

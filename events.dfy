/**
 * The three kinds of record the telemetry collector stores and the
 * performance calculator reads back. Instants are integers (microseconds,
 * the resolution of Python's datetime); the calendar is not modelled.
 */
module Events {

  type Instant = int

  /** A playback checkpoint: `user_id` reached `minute` of `movieid` at `timestamp`. */
  datatype WatchEvent = WatchEvent(userId: string, movieId: string, timestamp: Instant, minute: int)

  /** One rating action; the value is whatever integer the log line carried. */
  datatype RatingEvent = RatingEvent(userId: string, movieId: string, timestamp: Instant, rating: int)

  /** One served recommendation list, in rank order. */
  datatype RecommendationEvent = RecommendationEvent(userId: string, recommendedMovies: seq<string>, timestamp: Instant)

  /** The database `movie_recommendation_system`: its three collections, in insertion order. */
  datatype Db = Db(
    userWatchHistory: seq<WatchEvent>,
    userRatings: seq<RatingEvent>,
    recommendations: seq<RecommendationEvent>)
}

/**
 * The collector's write path: classify a log line already split into its
 * comma-separated fields, turn it into a typed document, and insert that
 * document into the matching collection.
 */
module Telemetry {
  import opened Wrappers
  import opened Text
  import opened Events

  datatype RequestType = Data | Rate | Recommendation | Invalid

  /** The exceptions the collector can raise on one line. */
  datatype Fault =
    | IndexOutOfRange   // IndexError: a field read past the end of the line
    | WrongArity        // ValueError: unpacking into a fixed number of names
    | BadTimestamp      // ValueError from the timestamp parser
    | NotAnInteger      // ValueError from int()
    | StoreUnavailable  // no database client to write to

  /**
   * A timestamp parser: `strptime(s, '%Y-%m-%dT%H:%M:%S')` for watch and
   * rating lines, `datetime.fromisoformat(s)` for recommendation lines.
   */
  type TimeParser = string -> Option<Instant>

  const WatchMarker: string := "/data/"
  const RateMarker: string := "/rate/"
  const RecommendationMarker: string := "recommendation"

  // ---------------------------------------------------------------------------
  // Classification
  // ---------------------------------------------------------------------------

  /**
   * `identify_request_type`: the tests are tried in order, the first that
   * holds decides. The third test reads field 2 whatever the field count, so
   * a line of fewer than three fields raises instead of being INVALID.
   */
  function IdentifyRequestType(message: seq<string>): Result<RequestType, Fault>
  {
    if |message| == 3 && Contains(message[2], WatchMarker) then Ok(Data)
    else if |message| == 3 && Contains(message[2], RateMarker) then Ok(Rate)
    else if |message| < 3 then Err(IndexOutOfRange)
    else if Contains(message[2], RecommendationMarker) then Ok(Recommendation)
    else Ok(Invalid)
  }

  /** The classification rules, stated with the reference meaning of a substring. */
  lemma IdentifyRequestTypeRules(message: seq<string>)
    ensures IdentifyRequestType(message) == Err(IndexOutOfRange) <==> |message| < 3
    ensures IdentifyRequestType(message).Ok? <==> |message| >= 3
    ensures IdentifyRequestType(message) == Ok(Data)
        <==> |message| == 3 && Occurs(message[2], WatchMarker)
    ensures IdentifyRequestType(message) == Ok(Rate)
        <==> |message| == 3 && !Occurs(message[2], WatchMarker) && Occurs(message[2], RateMarker)
    ensures IdentifyRequestType(message) == Ok(Recommendation)
        <==> && |message| >= 3
             && !(|message| == 3 && (Occurs(message[2], WatchMarker) || Occurs(message[2], RateMarker)))
             && Occurs(message[2], RecommendationMarker)
    ensures IdentifyRequestType(message) == Ok(Invalid)
        <==> && |message| >= 3
             && !(|message| == 3 && (Occurs(message[2], WatchMarker) || Occurs(message[2], RateMarker)))
             && !Occurs(message[2], RecommendationMarker)
  {
    if |message| >= 3 {
      ContainsIffOccurs(message[2], WatchMarker);
      ContainsIffOccurs(message[2], RateMarker);
      ContainsIffOccurs(message[2], RecommendationMarker);
    }
  }

  // ---------------------------------------------------------------------------
  // Normalisers
  // ---------------------------------------------------------------------------

  /**
   * `process_user_watch_info`: the last two `/`-segments of the path are the
   * movie id and "<minute>.<ext>"; the minute is `int` of the text before the
   * first dot. Failures surface in the order the source meets them.
   */
  function ProcessUserWatchInfo(message: seq<string>, parseTime: TimeParser): Result<WatchEvent, Fault>
  {
    if |message| != 3 then Err(WrongArity)
    else
      var segments := Split(message[2], '/');
      if |segments| < 2 then Err(WrongArity)
      else
        var movieId, minute := segments[|segments| - 2], segments[|segments| - 1];
        match parseTime(message[0])
        case None => Err(BadTimestamp)
        case Some(t) =>
          match ParseInt(Split(minute, '.')[0])
          case None => Err(NotAnInteger)
          case Some(m) => Ok(WatchEvent(message[1], movieId, t, m))
  }

  /**
   * `process_user_rating_info`: the last `/`-segment must split on `=` into
   * exactly two parts, the movie id and `int` of the rating. No range check.
   */
  function ProcessUserRatingInfo(message: seq<string>, parseTime: TimeParser): Result<RatingEvent, Fault>
  {
    if |message| != 3 then Err(WrongArity)
    else
      var segments := Split(message[2], '/');
      var parts := Split(segments[|segments| - 1], '=');
      if |parts| != 2 then Err(WrongArity)
      else
        match parseTime(message[0])
        case None => Err(BadTimestamp)
        case Some(t) =>
          match ParseInt(parts[1])
          case None => Err(NotAnInteger)
          case Some(r) => Ok(RatingEvent(message[1], parts[0], t, r))
  }

  /** Python's `s[lo:hi]` for `0 <= lo <= hi`: both bounds are clamped to the length. */
  function Slice<T>(s: seq<T>, lo: nat, hi: nat): (r: seq<T>)
    requires lo <= hi
    ensures |r| == if |s| <= lo then 0 else if |s| <= hi then |s| - lo else hi - lo
    ensures forall k :: 0 <= k < |r| ==> r[k] == s[lo + k]
  {
    if |s| <= lo then [] else if |s| <= hi then s[lo..] else s[lo..hi]
  }

  /**
   * `process_recommendation_info`: field 1 is the user, `message[4:24]` the
   * recommended movies. A short line gives a short (possibly empty) list; it
   * does not fail.
   */
  function ProcessRecommendationInfo(message: seq<string>, parseIso: TimeParser)
    : (r: Result<RecommendationEvent, Fault>)
    ensures r.Ok? <==> |message| >= 2 && parseIso(message[0]).Some?
    ensures |message| < 2 ==> r == Err(IndexOutOfRange)
    ensures |message| >= 2 && parseIso(message[0]).None? ==> r == Err(BadTimestamp)
    ensures r.Ok? ==> r.value.userId == message[1] && parseIso(message[0]) == Some(r.value.timestamp)
    ensures r.Ok? ==> |r.value.recommendedMovies| == if |message| >= 24 then 20 else if |message| >= 4 then |message| - 4 else 0
    ensures r.Ok? ==> forall k :: 0 <= k < |r.value.recommendedMovies| ==> r.value.recommendedMovies[k] == message[4 + k]
  {
    if |message| < 2 then Err(IndexOutOfRange)
    else
      var movies := Slice(message, 4, 24);
      match parseIso(message[0])
      case None => Err(BadTimestamp)
      case Some(t) => Ok(RecommendationEvent(message[1], movies, t))
  }

  // ---------------------------------------------------------------------------
  // Properties of the normalisers
  // ---------------------------------------------------------------------------

  /** `str(n)` holds neither a `/` nor a `.` nor a `=`. */
  lemma IntToStringChars(n: int)
    ensures '/' !in IntToString(n) && '.' !in IntToString(n) && '=' !in IntToString(n)
  {
    if n < 0 { assert IntToString(n) == "-" + DecimalString(-n); }
  }

  /** The last two `/`-segments of `<head>/<a>/<b>` are `a` and `b`. */
  lemma LastTwoSegments(head: string, a: string, b: string)
    requires '/' !in a && '/' !in b
    ensures var segments := Split(head + "/" + a + "/" + b, '/');
      |segments| >= 2 && segments[|segments| - 2] == a && segments[|segments| - 1] == b
  {
    var tail := a + ['/'] + b;
    var path := head + "/" + a + "/" + b;
    assert path == head + ['/'] + tail;
    var front := Split(head, '/');
    assert Split(path, '/') == front + [a, b] by {
      SplitAround(head, tail, '/');
      TwoPieces(a, b, '/');
    }
  }

  /** The last `/`-segment of `<head>/<b>` is `b`. */
  lemma LastSegment(head: string, b: string)
    requires '/' !in b
    ensures var segments := Split(head + "/" + b, '/');
      segments[|segments| - 1] == b
  {
    SplitAround(head, b, '/');
    SplitNoSeparator(b, '/');
  }

  /** Splitting `<a><sep><b>` where neither side holds `sep` gives exactly the two sides. */
  lemma TwoPieces(a: string, b: string, sep: char)
    requires sep !in a && sep !in b
    ensures Split(a + [sep] + b, sep) == [a, b]
  {
    SplitAround(a, b, sep);
    SplitNoSeparator(a, sep);
    SplitNoSeparator(b, sep);
  }

  /** The text before the first `.` of `<a>.<b>` is `a` when `a` has no dot. */
  lemma BeforeFirstDot(a: string, b: string)
    requires '.' !in a
    ensures Split(a + "." + b, '.')[0] == a
  {
    SplitAround(a, b, '.');
    SplitNoSeparator(a, '.');
  }

  /** No `/` in either side and in the separator means none in the whole. */
  lemma NoSlashAround(a: string, sep: char, b: string)
    requires '/' !in a && '/' !in b && sep != '/'
    ensures '/' !in a + [sep] + b
  {
    var s := a + [sep] + b;
    forall k | 0 <= k < |s| ensures s[k] != '/' {
      if k < |a| { assert s[k] == a[k]; }
      else if k > |a| { assert s[k] == b[k - |a| - 1]; }
    }
  }

  /**
   * A watch path written as `<prefix>/<movie>/<minute>.<ext>` is read back as
   * exactly that movie and minute, for the user of field 1.
   */
  lemma WatchRoundTrip(
    timestamp: string, userId: string, prefix: string, movieId: string, minute: int, ext: string,
    parseTime: TimeParser, t: Instant)
    requires parseTime(timestamp) == Some(t)
    requires '/' !in movieId && '/' !in ext
    ensures ProcessUserWatchInfo(
              [timestamp, userId, prefix + "/" + movieId + "/" + (IntToString(minute) + "." + ext)], parseTime)
            == Ok(WatchEvent(userId, movieId, t, minute))
  {
    var digits := IntToString(minute);
    var path := prefix + "/" + movieId + "/" + (digits + "." + ext);
    var segments := Split(path, '/');
    assert |segments| >= 2 && segments[|segments| - 2] == movieId
      && Split(segments[|segments| - 1], '.')[0] == digits by {
      IntToStringChars(minute);
      WatchPathSegments(prefix, movieId, digits, ext);
    }
    assert ParseInt(digits) == Some(minute) by {
      ParseIntToString(minute);
    }
    WatchFromSegments([timestamp, userId, path], parseTime, t, movieId, digits, minute);
  }

  /** The last two `/`-segments of `<prefix>/<movie>/<digits>.<ext>`, and the minute text in the last. */
  lemma WatchPathSegments(prefix: string, movieId: string, digits: string, ext: string)
    requires '/' !in movieId && '/' !in ext && '/' !in digits && '.' !in digits
    ensures var segments := Split(prefix + "/" + movieId + "/" + (digits + "." + ext), '/');
      && |segments| >= 2
      && segments[|segments| - 2] == movieId
      && Split(segments[|segments| - 1], '.')[0] == digits
  {
    var last := digits + "." + ext;
    assert '/' !in last by {
      NoSlashAround(digits, '.', ext);
    }
    var segments := Split(prefix + "/" + movieId + "/" + last, '/');
    assert |segments| >= 2 && segments[|segments| - 2] == movieId && segments[|segments| - 1] == last by {
      LastTwoSegments(prefix, movieId, last);
    }
    assert Split(last, '.')[0] == digits by {
      BeforeFirstDot(digits, ext);
    }
  }

  /** Reading a three-field watch line whose parts all parse. */
  lemma WatchFromSegments(message: seq<string>, parseTime: TimeParser, t: Instant, movieId: string, digits: string, minute: int)
    requires |message| == 3 && parseTime(message[0]) == Some(t)
    requires var segments := Split(message[2], '/');
      |segments| >= 2 && segments[|segments| - 2] == movieId && Split(segments[|segments| - 1], '.')[0] == digits
    requires ParseInt(digits) == Some(minute)
    ensures ProcessUserWatchInfo(message, parseTime) == Ok(WatchEvent(message[1], movieId, t, minute))
  {
  }

  /** A watch path without any `/` has no second-to-last segment, so unpacking it fails. */
  lemma WatchNeedsTwoSegments(message: seq<string>, parseTime: TimeParser)
    requires |message| == 3 && '/' !in message[2]
    ensures ProcessUserWatchInfo(message, parseTime) == Err(WrongArity)
  {
    SplitNoSeparator(message[2], '/');
  }

  /**
   * A rating path written as `<prefix>/<movie>=<rating>` is read back as that
   * movie and that rating, whatever its value: nothing checks the range 1..5.
   */
  lemma RatingRoundTrip(
    timestamp: string, userId: string, prefix: string, movieId: string, rating: int,
    parseTime: TimeParser, t: Instant)
    requires parseTime(timestamp) == Some(t)
    requires '/' !in movieId && '=' !in movieId
    ensures ProcessUserRatingInfo(
              [timestamp, userId, prefix + "/" + (movieId + "=" + IntToString(rating))], parseTime)
            == Ok(RatingEvent(userId, movieId, t, rating))
  {
    var digits := IntToString(rating);
    var path := prefix + "/" + (movieId + "=" + digits);
    assert Split(Split(path, '/')[|Split(path, '/')| - 1], '=') == [movieId, digits] by {
      RatingPathSegments(prefix, movieId, rating);
    }
    assert ParseInt(digits) == Some(rating) by {
      ParseIntToString(rating);
    }
    RatingFromSegments([timestamp, userId, path], parseTime, t, movieId, digits, rating);
  }

  lemma RatingPathSegments(prefix: string, movieId: string, rating: int)
    requires '/' !in movieId && '=' !in movieId
    ensures var last := movieId + "=" + IntToString(rating);
      var segments := Split(prefix + "/" + last, '/');
      Split(segments[|segments| - 1], '=') == [movieId, IntToString(rating)]
  {
    var digits := IntToString(rating);
    var last := movieId + "=" + digits;
    assert '/' !in digits && '=' !in digits by {
      IntToStringChars(rating);
    }
    assert '/' !in last by {
      NoSlashAround(movieId, '=', digits);
    }
    var segments := Split(prefix + "/" + last, '/');
    assert segments[|segments| - 1] == last by {
      LastSegment(prefix, last);
    }
    TwoPieces(movieId, digits, '=');
  }

  /** Reading a three-field rating line whose parts all parse. */
  lemma RatingFromSegments(message: seq<string>, parseTime: TimeParser, t: Instant, movieId: string, digits: string, rating: int)
    requires |message| == 3 && parseTime(message[0]) == Some(t)
    requires Split(Split(message[2], '/')[|Split(message[2], '/')| - 1], '=') == [movieId, digits]
    requires ParseInt(digits) == Some(rating)
    ensures ProcessUserRatingInfo(message, parseTime) == Ok(RatingEvent(message[1], movieId, t, rating))
  {
  }

  /** The last segment must hold exactly one `=`: none at all is an unpacking error. */
  lemma RatingWithoutEquals(message: seq<string>, parseTime: TimeParser)
    requires |message| == 3
    requires '=' !in Split(message[2], '/')[|Split(message[2], '/')| - 1]
    ensures ProcessUserRatingInfo(message, parseTime) == Err(WrongArity)
  {
    var segments := Split(message[2], '/');
    SplitNoSeparator(segments[|segments| - 1], '=');
  }

  /** ... and two or more `=` are an unpacking error too. */
  lemma RatingWithTwoEquals(message: seq<string>, parseTime: TimeParser, a: string, b: string, c: string)
    requires |message| == 3
    requires Split(message[2], '/')[|Split(message[2], '/')| - 1] == a + "=" + b + "=" + c
    ensures ProcessUserRatingInfo(message, parseTime) == Err(WrongArity)
  {
    assert a + "=" + b + "=" + c == (a + ['='] + b) + ['='] + c;
    SplitAround(a + ['='] + b, c, '=');
    SplitAround(a, b, '=');
  }

  /** A full recommendation line yields exactly the twenty fields 4..23, in order. */
  lemma RecommendationWindow(message: seq<string>, parseIso: TimeParser)
    requires |message| >= 24 && parseIso(message[0]).Some?
    ensures ProcessRecommendationInfo(message, parseIso).Ok?
    ensures ProcessRecommendationInfo(message, parseIso).value.recommendedMovies == message[4..24]
  {
    var movies := ProcessRecommendationInfo(message, parseIso).value.recommendedMovies;
    assert |movies| == 20;
    assert forall k :: 0 <= k < 20 ==> movies[k] == message[4..24][k];
  }

  // ---------------------------------------------------------------------------
  // Dispatch (`log_data`)
  // ---------------------------------------------------------------------------

  /** A normalised line, tagged with the collection it belongs to. */
  datatype Document =
    | WatchDocument(watch: WatchEvent)
    | RatingDocument(rating: RatingEvent)
    | RecommendationDocument(recommendation: RecommendationEvent)

  /**
   * What `log_data` does with one line: the document it inserts (`None` for an
   * INVALID line) or the exception it raises. Classification comes first;
   * then the client is dereferenced, so a missing connection raises before
   * any normaliser runs and the `if client` guards after it never fail.
   */
  function LogDecision(message: seq<string>, connected: bool, parseTime: TimeParser, parseIso: TimeParser)
    : Result<Option<Document>, Fault>
  {
    match IdentifyRequestType(message)
    case Err(e) => Err(e)
    case Ok(kind) =>
      if !connected then Err(StoreUnavailable)
      else
        match kind
        case Data =>
          (match ProcessUserWatchInfo(message, parseTime)
           case Err(e) => Err(e)
           case Ok(w) => Ok(Some(WatchDocument(w))))
        case Rate =>
          (match ProcessUserRatingInfo(message, parseTime)
           case Err(e) => Err(e)
           case Ok(r) => Ok(Some(RatingDocument(r))))
        case Recommendation =>
          (match ProcessRecommendationInfo(message, parseIso)
           case Err(e) => Err(e)
           case Ok(r) => Ok(Some(RecommendationDocument(r))))
        case Invalid => Ok(None)
  }

  /**
   * A line is stored exactly when it classifies, the store is reachable and
   * its normaliser succeeds; the document goes to the collection of its class,
   * and a normaliser's error is the exception raised.
   */
  lemma LogDecisionRouting(message: seq<string>, connected: bool, parseTime: TimeParser, parseIso: TimeParser)
    ensures var d := LogDecision(message, connected, parseTime, parseIso);
      && (|message| < 3 ==> d == Err(IndexOutOfRange))
      && (|message| >= 3 && !connected ==> d == Err(StoreUnavailable))
      && (d.Ok? && d.value.Some? ==> connected)
      && (d == Ok(None) <==> connected && IdentifyRequestType(message) == Ok(Invalid))
      && (d.Ok? && d.value.Some? && d.value.value.WatchDocument? ==>
            IdentifyRequestType(message) == Ok(Data)
            && ProcessUserWatchInfo(message, parseTime) == Ok(d.value.value.watch))
      && (d.Ok? && d.value.Some? && d.value.value.RatingDocument? ==>
            IdentifyRequestType(message) == Ok(Rate)
            && ProcessUserRatingInfo(message, parseTime) == Ok(d.value.value.rating))
      && (d.Ok? && d.value.Some? && d.value.value.RecommendationDocument? ==>
            IdentifyRequestType(message) == Ok(Recommendation)
            && ProcessRecommendationInfo(message, parseIso) == Ok(d.value.value.recommendation))
      && (connected && IdentifyRequestType(message) == Ok(Data) ==>
            d == (match ProcessUserWatchInfo(message, parseTime)
                  case Ok(w) => Ok(Some(WatchDocument(w)))
                  case Err(e) => Err(e)))
      && (connected && IdentifyRequestType(message) == Ok(Rate) ==>
            d == (match ProcessUserRatingInfo(message, parseTime)
                  case Ok(r) => Ok(Some(RatingDocument(r)))
                  case Err(e) => Err(e)))
      && (connected && IdentifyRequestType(message) == Ok(Recommendation) ==>
            d == (match ProcessRecommendationInfo(message, parseIso)
                  case Ok(r) => Ok(Some(RecommendationDocument(r)))
                  case Err(e) => Err(e)))
  {
    IdentifyRequestTypeRules(message);
  }

  /** The collection store behind `log_data`: three append-only collections. */
  class EventStore {
    var userWatchHistory: seq<WatchEvent>
    var userRatings: seq<RatingEvent>
    var recommendations: seq<RecommendationEvent>

    constructor ()
      ensures userWatchHistory == [] && userRatings == [] && recommendations == []
    {
      userWatchHistory, userRatings, recommendations := [], [], [];
    }

    /** The current contents, as the performance calculator reads them. */
    function Snapshot(): Db
      reads this
    {
      Db(userWatchHistory, userRatings, recommendations)
    }

    /** `log_stream_line`: `insert_one` into the document's collection; the other two are untouched. */
    method LogStreamLine(doc: Document)
      modifies this
      ensures doc.WatchDocument? ==> userWatchHistory == old(userWatchHistory) + [doc.watch]
      ensures doc.RatingDocument? ==> userRatings == old(userRatings) + [doc.rating]
      ensures doc.RecommendationDocument? ==> recommendations == old(recommendations) + [doc.recommendation]
      ensures !doc.WatchDocument? ==> userWatchHistory == old(userWatchHistory)
      ensures !doc.RatingDocument? ==> userRatings == old(userRatings)
      ensures !doc.RecommendationDocument? ==> recommendations == old(recommendations)
    {
      match doc
      case WatchDocument(w) => userWatchHistory := userWatchHistory + [w];
      case RatingDocument(r) => userRatings := userRatings + [r];
      case RecommendationDocument(r) => recommendations := recommendations + [r];
    }

    /**
     * `log_data`: classify, normalise and insert one line. Returns the
     * exception the source raises, if any; on an exception or an INVALID
     * line nothing is written, otherwise exactly one document is appended
     * to the collection of its class.
     */
    method LogData(message: seq<string>, connected: bool, parseTime: TimeParser, parseIso: TimeParser)
      returns (raised: Option<Fault>)
      modifies this
      ensures var d := LogDecision(message, connected, parseTime, parseIso);
        && (raised.Some? <==> d.Err?)
        && (d.Err? ==> raised == Some(d.error))
      ensures var d := LogDecision(message, connected, parseTime, parseIso);
        match d
        case Ok(Some(WatchDocument(w))) =>
          userWatchHistory == old(userWatchHistory) + [w]
          && userRatings == old(userRatings) && recommendations == old(recommendations)
        case Ok(Some(RatingDocument(r))) =>
          userRatings == old(userRatings) + [r]
          && userWatchHistory == old(userWatchHistory) && recommendations == old(recommendations)
        case Ok(Some(RecommendationDocument(r))) =>
          recommendations == old(recommendations) + [r]
          && userWatchHistory == old(userWatchHistory) && userRatings == old(userRatings)
        case _ => Snapshot() == old(Snapshot())
    {
      ghost var decision := LogDecision(message, connected, parseTime, parseIso);
      var kind := IdentifyRequestType(message);
      if kind.Err? {
        return Some(kind.error);
      }
      if !connected {
        return Some(StoreUnavailable);
      }
      raised := None;
      match kind.value
      case Data =>
        var doc := ProcessUserWatchInfo(message, parseTime);
        if doc.Err? {
          assert decision == Err(doc.error);
          return Some(doc.error);
        }
        assert decision == Ok(Some(WatchDocument(doc.value)));
        LogStreamLine(WatchDocument(doc.value));
      case Rate =>
        var doc := ProcessUserRatingInfo(message, parseTime);
        if doc.Err? {
          assert decision == Err(doc.error);
          return Some(doc.error);
        }
        assert decision == Ok(Some(RatingDocument(doc.value)));
        LogStreamLine(RatingDocument(doc.value));
      case Recommendation =>
        var doc := ProcessRecommendationInfo(message, parseIso);
        if doc.Err? {
          assert decision == Err(doc.error);
          return Some(doc.error);
        }
        assert decision == Ok(Some(RecommendationDocument(doc.value)));
        LogStreamLine(RecommendationDocument(doc.value));
      case Invalid =>
        assert decision == Ok(None);
    }
  }
}

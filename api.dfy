/** The aggregation pipeline: one catalog search, then for every catalog result a
    ratings lookup and a trailer lookup whose outcomes are merged into an enriched
    record. The HTTP requests are not made here: each lookup's outcome (a transport
    error, or a response with a status and a parsed body) is an input. */
module Api {
  import opened JsValues
  import opened Decimal

  const TmdbFailed := "TMDB API request failed"
  const OmdbFailed := "OMDB API request failed"
  const YoutubeFailed := "YouTube API request failed"
  const NoMoviesForQuery := "No movies found for your query."
  /** The rating placeholder. */
  const NotAvailable := "N/A"
  const RottenTomatoesSource := "Rotten Tomatoes"
  const EmbedPrefix := "https://www.youtube.com/embed/"
  /** Stands for the message of the error thrown when a field of a missing object is
      read; that message is never observed, because the merge step's catch discards it. */
  const TypeErrorMessage := "TypeError"

  // ---------------------------------------------------------------------------
  // Upstream client

  /** What `fetch` resolved to: the status line, and the outcome of `response.json()`. */
  datatype Response<+T> = Response(status: nat, statusText: string, body: Result<T>) {
    /** `response.ok`: the status is in the range 200-299. */
    predicate Ok() {
      200 <= status <= 299
    }
  }

  /** The message thrown for a response that is not OK. */
  function StatusErrorMessage(errorMessage: string, statusText: string, status: nat): string {
    errorMessage + ": " + statusText + " (Status: " + NatToText(status) + ")"
  }

  /** Reads the status code back out of a message: the digits before the closing parenthesis. */
  function StatusOf(message: string): nat {
    if message == [] then 0 else TextToNat(TrailingDigits(message[..|message| - 1]))
  }

  /** `fetchAndHandle`: a transport error is rethrown as it is, a response that is not OK
      becomes an error naming the lookup and the status, and an OK response yields its
      parsed body (or the parse error). */
  function FetchAndHandle<T>(outcome: Result<Response<T>>, errorMessage: string): Result<T> {
    match outcome
    case Failure(e) => Failure(e)
    case Success(response) =>
      if !response.Ok() then
        Failure(StatusErrorMessage(errorMessage, response.statusText, response.status))
      else
        response.body
  }

  /** A lookup yields a value exactly when the request went through, the status was OK
      and the body parsed; transport and parse errors keep their own message. */
  lemma FetchAndHandleOutcome<T>(outcome: Result<Response<T>>, errorMessage: string)
    ensures FetchAndHandle(outcome, errorMessage).Success? <==>
              outcome.Success? && outcome.value.Ok() && outcome.value.body.Success?
    ensures FetchAndHandle(outcome, errorMessage).Success? ==>
              FetchAndHandle(outcome, errorMessage).value == outcome.value.body.value
    ensures outcome.Failure? ==> FetchAndHandle(outcome, errorMessage) == Failure(outcome.message)
    ensures outcome.Success? && outcome.value.Ok() && outcome.value.body.Failure? ==>
              FetchAndHandle(outcome, errorMessage) == Failure(outcome.value.body.message)
  {
  }

  /** The status code can be read back from the message for a response that is not OK. */
  lemma StatusOfStatusErrorMessage(errorMessage: string, statusText: string, status: nat)
    ensures StatusOf(StatusErrorMessage(errorMessage, statusText, status)) == status
  {
    var a := errorMessage + ": " + statusText + " (Status: ";
    var digits := NatToText(status);
    var m := StatusErrorMessage(errorMessage, statusText, status);
    assert m == (a + digits) + ")";
    assert m[..|m| - 1] == a + digits;
    assert a[|a| - 1] == ' ';
    TrailingDigitsAfterNonDigit(a, digits);
    TextToNatOfNatToText(status);
  }

  /** The message for a response that is not OK starts with the lookup's own message and
      its status text, and the status code can be read back from it. */
  lemma StatusErrorMessageFormat(errorMessage: string, statusText: string, status: nat)
    ensures var m := StatusErrorMessage(errorMessage, statusText, status);
            && m[..|errorMessage| + 2 + |statusText|] == errorMessage + ": " + statusText
            && m[|m| - 1] == ')'
            && StatusOf(m) == status
  {
    var prefix := errorMessage + ": " + statusText;
    var m := StatusErrorMessage(errorMessage, statusText, status);
    assert m == prefix + (" (Status: " + NatToText(status) + ")");
    StatusOfStatusErrorMessage(errorMessage, statusText, status);
  }

  /** Every failed non-OK lookup reports its status: the lookup's message, then the
      status text, and the status code as its last number. */
  lemma NonOkResponseReportsStatus<T>(response: Response<T>, errorMessage: string)
    requires !response.Ok()
    ensures var r := FetchAndHandle(Success(response), errorMessage);
            && r.Failure?
            && r.message[..|errorMessage| + 2 + |response.statusText|] == errorMessage + ": " + response.statusText
            && StatusOf(r.message) == response.status
  {
    StatusErrorMessageFormat(errorMessage, response.statusText, response.status);
  }

  // ---------------------------------------------------------------------------
  // Response bodies

  /** A catalog (TMDb) result: the fields the rest of the front end reads. */
  datatype Movie = Movie(
    id: int,
    title: string,
    releaseDate: Option<string>,
    overview: Option<string>,
    posterPath: Option<string>)

  /** The catalog search body `{ results?: [...] }`. */
  datatype CatalogPage = CatalogPage(results: Option<seq<Movie>>)

  /** One entry of the ratings body's `Ratings` list. */
  datatype Rating = Rating(source: string, value: Option<string>)

  /** The ratings (OMDb) body `{ imdbRating?, Ratings?: [...] }`. */
  datatype RatingsData = RatingsData(imdbRating: Option<string>, ratings: Option<seq<Rating>>)

  /** A video search hit `{ id?: { videoId? } }`. */
  datatype VideoId = VideoId(videoId: VideoIdField)

  /** The `videoId` field, the one field where `null` and a missing value print
      differently in a template literal. */
  datatype VideoIdField = Undefined | Null | Text(text: string)
  datatype SearchHit = SearchHit(id: Option<VideoId>)

  /** The video search (YouTube) body `{ items?: [...] }`. */
  datatype VideoSearch = VideoSearch(items: Option<seq<SearchHit>>)

  /** A catalog result with the three fields the aggregator adds; `movie` is every
      field of the original result, copied unchanged. */
  datatype EnrichedMovie = EnrichedMovie(
    movie: Movie,
    imdbRating: string,
    rottenTomatoesRating: string,
    trailerUrl: string)

  // ---------------------------------------------------------------------------
  // Catalog lookup

  /** `fetchTMDBMovies`: the catalog lookup, which also throws when the body has no
      `results` or an empty one. */
  function FetchTmdbMovies(outcome: Result<Response<CatalogPage>>): (r: Result<CatalogPage>)
    ensures r.Success? ==> r.value.results.Some? && |r.value.results.value| > 0
  {
    match FetchAndHandle(outcome, TmdbFailed)
    case Failure(e) => Failure(e)
    case Success(page) =>
      if page.results.None? || |page.results.value| == 0 then Failure(NoMoviesForQuery)
      else Success(page)
  }

  /** The catalog lookup fails exactly when the request fails, the status is not OK,
      the body does not parse, or the body holds no results; in the last case with the
      "No movies found" message. */
  lemma FetchTmdbMoviesFailsIff(outcome: Result<Response<CatalogPage>>)
    ensures FetchTmdbMovies(outcome).Failure? <==>
              || outcome.Failure?
              || !outcome.value.Ok()
              || outcome.value.body.Failure?
              || outcome.value.body.value.results.None?
              || |outcome.value.body.value.results.value| == 0
    ensures FetchTmdbMovies(outcome).Success? ==> FetchTmdbMovies(outcome).value == outcome.value.body.value
    ensures outcome.Success? && outcome.value.Ok() && outcome.value.body.Success? &&
            (outcome.value.body.value.results.None? || |outcome.value.body.value.results.value| == 0) ==>
              FetchTmdbMovies(outcome) == Failure(NoMoviesForQuery)
  {
  }

  // ---------------------------------------------------------------------------
  // Extraction of the secondary fields

  /** `omdbData.imdbRating || 'N/A'`. */
  function ImdbRatingOf(data: RatingsData): string {
    Or(data.imdbRating, NotAvailable)
  }

  /** `ratings.find(r => r.Source === source)`, as the index of the entry found. */
  function FindSource(ratings: seq<Rating>, source: string): (k: Option<nat>)
    ensures k.Some? ==> k.value < |ratings| && ratings[k.value].source == source
    ensures k.Some? ==> forall j :: 0 <= j < k.value ==> ratings[j].source != source
    ensures k.None? ==> forall j :: 0 <= j < |ratings| ==> ratings[j].source != source
  {
    if ratings == [] then None
    else if ratings[0].source == source then Some(0)
    else match FindSource(ratings[1..], source)
      case None => None
      case Some(k) => Some(k + 1)
  }

  /** Entry k is the first whose source is `source`. */
  predicate IsFirstWithSource(ratings: seq<Rating>, k: nat, source: string) {
    && k < |ratings|
    && ratings[k].source == source
    && forall j :: 0 <= j < k ==> ratings[j].source != source
  }

  /** `omdbData.Ratings?.find(r => r.Source === 'Rotten Tomatoes')?.Value || 'N/A'`. */
  function RottenTomatoesOf(data: RatingsData): string {
    match data.ratings
    case None => NotAvailable
    case Some(ratings) =>
      match FindSource(ratings, RottenTomatoesSource)
      case None => NotAvailable
      case Some(k) => Or(ratings[k].value, NotAvailable)
  }

  /** The Rotten Tomatoes rating is the value of the first entry whose source is exactly
      "Rotten Tomatoes", or "N/A" when there is no list, no such entry, or its value is
      missing or empty. */
  lemma RottenTomatoesRule(data: RatingsData)
    ensures data.ratings.None? ==> RottenTomatoesOf(data) == NotAvailable
    ensures data.ratings.Some? &&
            (forall j :: 0 <= j < |data.ratings.value| ==> data.ratings.value[j].source != RottenTomatoesSource) ==>
              RottenTomatoesOf(data) == NotAvailable
    ensures forall k: nat :: data.ratings.Some? && IsFirstWithSource(data.ratings.value, k, RottenTomatoesSource) ==>
              RottenTomatoesOf(data) == if Truthy(data.ratings.value[k].value) then data.ratings.value[k].value.value else NotAvailable
  {
    if data.ratings.Some? {
      var ratings := data.ratings.value;
      forall k: nat | IsFirstWithSource(ratings, k, RottenTomatoesSource)
        ensures FindSource(ratings, RottenTomatoesSource) == Some(k)
      {
        var found := FindSource(ratings, RottenTomatoesSource);
        assert found.Some?;
        assert !(found.value < k) && !(k < found.value);
      }
    }
  }

  /** The videoId as the template literal prints it: a missing one prints "undefined"
      and a `null` one prints "null". */
  function VideoIdText(videoId: VideoIdField): string {
    match videoId
    case Text(s) => s
    case Undefined => "undefined"
    case Null => "null"
  }

  /** The trailer expression of the merge step; reading `items.length` of a missing list
      or `id.videoId` of a missing `id` throws. */
  function TrailerUrlOf(search: VideoSearch): Result<string> {
    match search.items
    case None => Failure(TypeErrorMessage)
    case Some(items) =>
      if |items| == 0 then Success("")
      else match items[0].id
        case None => Failure(TypeErrorMessage)
        case Some(id) => Success(EmbedPrefix + VideoIdText(id.videoId))
  }

  /** The trailer URL is "" for an empty hit list and otherwise the embed URL of the
      first hit, from which that hit's video id can be read back; a missing list or a
      first hit without an id throws. */
  lemma TrailerRule(search: VideoSearch)
    ensures TrailerUrlOf(search).Failure? <==>
              search.items.None? || (|search.items.value| > 0 && search.items.value[0].id.None?)
    ensures search.items == Some([]) ==> TrailerUrlOf(search) == Success("")
    ensures search.items.Some? && |search.items.value| > 0 && search.items.value[0].id.Some? ==>
              var url := TrailerUrlOf(search).value;
              && url[..|EmbedPrefix|] == EmbedPrefix
              && url[|EmbedPrefix|..] == VideoIdText(search.items.value[0].id.value.videoId)
  {
  }

  // ---------------------------------------------------------------------------
  // The merge

  /** The record returned when any step of one movie's enrichment throws. */
  function Defaults(movie: Movie): EnrichedMovie {
    EnrichedMovie(movie, NotAvailable, NotAvailable, "")
  }

  /** The per-movie block of `fetchMovies`: both lookups must succeed (`Promise.all`)
      and the extraction must not throw, or every added field takes its default. */
  function EnrichMovie(movie: Movie, ratings: Result<RatingsData>, video: Result<VideoSearch>): EnrichedMovie {
    if ratings.Failure? || video.Failure? then Defaults(movie)
    else match TrailerUrlOf(video.value)
      case Failure(_) => Defaults(movie)
      case Success(url) => EnrichedMovie(movie, ImdbRatingOf(ratings.value), RottenTomatoesOf(ratings.value), url)
  }

  /** The enriched record keeps the movie; if either lookup fails or the extraction
      throws (no `items`, or a first hit without `id`), all three added fields are defaults, so a
      failed trailer lookup also discards the ratings; otherwise the IMDb rating is the
      body's rating when it is a non-empty string and "N/A" otherwise. */
  lemma EnrichMovieRules(movie: Movie, ratings: Result<RatingsData>, video: Result<VideoSearch>)
    ensures EnrichMovie(movie, ratings, video).movie == movie
    ensures ratings.Failure? || video.Failure? ==> EnrichMovie(movie, ratings, video) == Defaults(movie)
    ensures video.Success? && TrailerUrlOf(video.value).Failure? ==> EnrichMovie(movie, ratings, video) == Defaults(movie)
    ensures ratings.Success? && video.Success? && TrailerUrlOf(video.value).Success? ==>
              var r := EnrichMovie(movie, ratings, video);
              && r.imdbRating == (if Truthy(ratings.value.imdbRating) then ratings.value.imdbRating.value else NotAvailable)
              && r.rottenTomatoesRating == RottenTomatoesOf(ratings.value)
              && r.trailerUrl == TrailerUrlOf(video.value).value
  {
  }

  /** What every enriched record satisfies: both ratings are non-empty text and the
      trailer URL is either empty or a YouTube embed URL. */
  predicate WellFormed(e: EnrichedMovie) {
    && e.imdbRating != ""
    && e.rottenTomatoesRating != ""
    && (e.trailerUrl == "" || (|EmbedPrefix| <= |e.trailerUrl| && e.trailerUrl[..|EmbedPrefix|] == EmbedPrefix))
  }

  lemma EnrichMovieWellFormed(movie: Movie, ratings: Result<RatingsData>, video: Result<VideoSearch>)
    ensures WellFormed(EnrichMovie(movie, ratings, video))
  {
    if ratings.Success? && video.Success? {
      OrIsTruthyValueOrFallback(ratings.value.imdbRating, NotAvailable);
      match ratings.value.ratings
      case None =>
      case Some(rs) =>
        match FindSource(rs, RottenTomatoesSource)
        case None =>
        case Some(k) => OrIsTruthyValueOrFallback(rs[k].value, NotAvailable);
    }
  }

  /** One movie of the catalog with the lookups made for the movie at that position. */
  function EnrichAt(
    movie: Movie, i: nat,
    ratings: nat -> Result<Response<RatingsData>>,
    videos: nat -> Result<Response<VideoSearch>>): EnrichedMovie
  {
    EnrichMovie(movie, FetchAndHandle(ratings(i), OmdbFailed), FetchAndHandle(videos(i), YoutubeFailed))
  }

  /** `fetchMovies`: the catalog lookup, then the order-preserving map of the merge over
      its results; a catalog failure (including "no results") yields the empty list.
      `ratings(i)` and `videos(i)` are the outcomes of the two lookups made for the
      i-th result. */
  function FetchMovies(
    catalog: Result<Response<CatalogPage>>,
    ratings: nat -> Result<Response<RatingsData>>,
    videos: nat -> Result<Response<VideoSearch>>): seq<EnrichedMovie>
  {
    match FetchTmdbMovies(catalog)
    case Failure(_) => []
    case Success(page) =>
      match page.results
      case None => []
      case Some(movies) => seq(|movies|, i requires 0 <= i < |movies| => EnrichAt(movies[i], i, ratings, videos))
  }

  /** One enriched record per catalog result, in catalog order, each keeping every field
      of its movie and enriched from that movie's own two lookups. */
  lemma FetchMoviesOnePerResult(
    catalog: Result<Response<CatalogPage>>,
    ratings: nat -> Result<Response<RatingsData>>,
    videos: nat -> Result<Response<VideoSearch>>)
    requires FetchTmdbMovies(catalog).Success?
    ensures var movies := catalog.value.body.value.results.value;
            var r := FetchMovies(catalog, ratings, videos);
            && |r| == |movies|
            && forall i :: 0 <= i < |movies| ==>
                 && r[i].movie == movies[i]
                 && r[i] == EnrichMovie(movies[i], FetchAndHandle(ratings(i), OmdbFailed), FetchAndHandle(videos(i), YoutubeFailed))
  {
    FetchTmdbMoviesFailsIff(catalog);
  }

  /** The result is empty exactly when the catalog lookup failed: a transport error, a
      response that is not OK, a body that does not parse, or missing or empty results. */
  lemma FetchMoviesEmptyIff(
    catalog: Result<Response<CatalogPage>>,
    ratings: nat -> Result<Response<RatingsData>>,
    videos: nat -> Result<Response<VideoSearch>>)
    ensures FetchMovies(catalog, ratings, videos) == [] <==> FetchTmdbMovies(catalog).Failure?
  {
    if FetchTmdbMovies(catalog).Success? {
      assert |FetchMovies(catalog, ratings, videos)| == |FetchTmdbMovies(catalog).value.results.value| > 0;
    }
  }

  /** Failure isolation: the i-th record depends only on the i-th movie's lookups, so a
      failing lookup for one movie leaves every other movie's record as it was. */
  lemma FetchMoviesLocality(
    catalog: Result<Response<CatalogPage>>,
    ratings: nat -> Result<Response<RatingsData>>,
    videos: nat -> Result<Response<VideoSearch>>,
    ratings': nat -> Result<Response<RatingsData>>,
    videos': nat -> Result<Response<VideoSearch>>,
    i: nat)
    requires i < |FetchMovies(catalog, ratings, videos)|
    requires ratings(i) == ratings'(i) && videos(i) == videos'(i)
    ensures |FetchMovies(catalog, ratings', videos')| == |FetchMovies(catalog, ratings, videos)|
    ensures FetchMovies(catalog, ratings', videos')[i] == FetchMovies(catalog, ratings, videos)[i]
  {
  }

  /** Every record the pipeline returns is well formed. */
  lemma FetchMoviesWellFormed(
    catalog: Result<Response<CatalogPage>>,
    ratings: nat -> Result<Response<RatingsData>>,
    videos: nat -> Result<Response<VideoSearch>>)
    ensures forall e :: e in FetchMovies(catalog, ratings, videos) ==> WellFormed(e)
  {
    var r := FetchMovies(catalog, ratings, videos);
    forall e | e in r
      ensures WellFormed(e)
    {
      var i :| 0 <= i < |r| && r[i] == e;
      var movies := FetchTmdbMovies(catalog).value.results.value;
      EnrichMovieWellFormed(movies[i], FetchAndHandle(ratings(i), OmdbFailed), FetchAndHandle(videos(i), YoutubeFailed));
    }
  }

  /** A catalog with one result, "The Matrix", whose ratings lookup fails with a
      transport error: the movie is still returned, with both ratings "N/A" and no
      trailer, whatever the trailer lookup returned. */
  lemma MatrixRatingsFailure(
    matrix: Movie,
    videos: nat -> Result<Response<VideoSearch>>)
    requires matrix.title == "The Matrix"
    ensures var catalog := Success(Response(200, "OK", Success(CatalogPage(Some([matrix])))));
            var ratings := (i: nat) => Failure("Failed to fetch");
            FetchMovies(catalog, ratings, videos) == [EnrichedMovie(matrix, NotAvailable, NotAvailable, "")]
  {
    var catalog := Success(Response(200, "OK", Success(CatalogPage(Some([matrix])))));
    var ratings: nat -> Result<Response<RatingsData>> := (i: nat) => Failure("Failed to fetch");
    assert FetchTmdbMovies(catalog) == Success(CatalogPage(Some([matrix])));
  }
}

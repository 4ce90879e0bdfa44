/** The results panel: the formatting rules of one movie card, and the panel that is
    cleared and then filled with one card per movie. */
module Ui {
  import opened JsValues
  import Api

  const PosterBase := "https://image.tmdb.org/t/p/w500"
  const PosterPlaceholder := "https://via.placeholder.com/500x750.png?text=No+Image"
  const NoOverview := "No overview available."
  const NoMoviesFound := "No movies found."
  /** The year shown for a movie without a release date. */
  const NoYear := "N/A"

  // ---------------------------------------------------------------------------
  // Formatting helpers

  /** `getPosterUrl`: the TMDb image URL for a poster path, or the placeholder image. */
  function PosterUrl(posterPath: Option<string>): string {
    if Truthy(posterPath) then PosterBase + posterPath.value else PosterPlaceholder
  }

  /** The placeholder is shown exactly when there is no poster path; otherwise the URL
      is the image base followed by the path, which can be read back from it. */
  lemma PosterUrlRule(posterPath: Option<string>)
    ensures PosterUrl(posterPath) == PosterPlaceholder <==> !Truthy(posterPath)
    ensures Truthy(posterPath) ==>
              && PosterUrl(posterPath)[..|PosterBase|] == PosterBase
              && PosterUrl(posterPath)[|PosterBase|..] == posterPath.value
  {
    if Truthy(posterPath) {
      var url := PosterUrl(posterPath);
      assert url[8] == PosterBase[8] == 'i';
      assert PosterPlaceholder == "https://via.placeholder.com/" + "500x750.png?text=No+Image";
      assert PosterPlaceholder[8] == 'v';
    }
  }

  /** `s.split('-')[0]`: the text before the first '-', or all of s when it has none. */
  function BeforeFirstDash(s: string): (r: string)
    ensures |r| <= |s| && r == s[..|r|]
    ensures '-' !in r
    ensures |r| < |s| ==> s[|r|] == '-'
  {
    if s == [] || s[0] == '-' then [] else [s[0]] + BeforeFirstDash(s[1..])
  }

  /** The release-year expression of a card: the release date up to its first '-', or
      "N/A" when the date is missing or empty. */
  function ReleaseYear(releaseDate: Option<string>): string {
    if Truthy(releaseDate) then BeforeFirstDash(releaseDate.value) else NoYear
  }

  /** For a date written "year-rest" the year is the text before the first dash; a date
      without a dash is shown whole; a missing or empty date shows "N/A". */
  lemma ReleaseYearRule(releaseDate: Option<string>, year: string, rest: string)
    ensures !Truthy(releaseDate) ==> ReleaseYear(releaseDate) == NoYear
    ensures releaseDate == Some(year + "-" + rest) && '-' !in year ==> ReleaseYear(releaseDate) == year
    ensures Truthy(releaseDate) && '-' !in releaseDate.value ==> ReleaseYear(releaseDate) == releaseDate.value
  {
    if releaseDate == Some(year + "-" + rest) && '-' !in year {
      var d := releaseDate.value;
      var r := BeforeFirstDash(d);
      assert d[..|year|] == year;
      assert d[|year|] == '-';
    }
  }

  /** `movie.overview || 'No overview available.'`. */
  function OverviewText(overview: Option<string>): string {
    Or(overview, NoOverview)
  }

  /** The trailer iframe's source, present only for a non-empty trailer URL. */
  function TrailerFrame(trailerUrl: string): Option<string> {
    if trailerUrl != "" then Some(trailerUrl) else None
  }

  /** The content of one movie card. */
  datatype Card = Card(
    posterUrl: string,
    title: string,
    releaseYear: string,
    overview: string,
    imdbRating: string,
    rottenTomatoesRating: string,
    trailer: Option<string>)

  /** The card rendered for one enriched movie. */
  function CardFor(m: Api.EnrichedMovie): (c: Card)
    ensures c.trailer.Some? <==> m.trailerUrl != ""
    ensures c.trailer.Some? ==> c.trailer.value == m.trailerUrl
    ensures c.title == m.movie.title
    ensures c.imdbRating == m.imdbRating && c.rottenTomatoesRating == m.rottenTomatoesRating
    ensures c.posterUrl == PosterUrl(m.movie.posterPath)
    ensures c.releaseYear == ReleaseYear(m.movie.releaseDate)
    ensures c.overview == OverviewText(m.movie.overview)
  {
    Card(
      PosterUrl(m.movie.posterPath),
      m.movie.title,
      ReleaseYear(m.movie.releaseDate),
      OverviewText(m.movie.overview),
      m.imdbRating,
      m.rottenTomatoesRating,
      TrailerFrame(m.trailerUrl))
  }

  /** The overview falls back to "No overview available." exactly when it is missing or
      empty, so a card's overview is never empty. */
  lemma OverviewRule(overview: Option<string>)
    ensures !Truthy(overview) ==> OverviewText(overview) == NoOverview
    ensures Truthy(overview) ==> OverviewText(overview) == overview.value
    ensures OverviewText(overview) != ""
  {
    OrIsTruthyValueOrFallback(overview, NoOverview);
  }

  /** For every movie the pipeline returns, the card shows both ratings as non-empty
      text and its trailer frame, when there is one, is a YouTube embed URL. */
  lemma PipelineCardsWellFormed(
    catalog: Result<Api.Response<Api.CatalogPage>>,
    ratings: nat -> Result<Api.Response<Api.RatingsData>>,
    videos: nat -> Result<Api.Response<Api.VideoSearch>>,
    i: nat)
    requires i < |Api.FetchMovies(catalog, ratings, videos)|
    ensures var c := CardFor(Api.FetchMovies(catalog, ratings, videos)[i]);
            && c.imdbRating != ""
            && c.rottenTomatoesRating != ""
            && (c.trailer.Some? ==> c.trailer.value[..|Api.EmbedPrefix|] == Api.EmbedPrefix)
  {
    Api.FetchMoviesWellFormed(catalog, ratings, videos);
    assert Api.FetchMovies(catalog, ratings, videos)[i] in Api.FetchMovies(catalog, ratings, videos);
  }

  // ---------------------------------------------------------------------------
  // The results panel

  /** What the results container holds. */
  datatype Fragment = Loader | Notice(text: string) | MovieCard(card: Card)

  /** The movie-results container of the page. */
  class MovieResults {
    var fragments: seq<Fragment>

    constructor ()
      ensures fragments == []
    {
      fragments := [];
    }

    /** `showLoading`: the panel holds only the loading indicator. */
    method ShowLoading()
      modifies this
      ensures fragments == [Loader]
    {
      fragments := [Loader];
    }

    /** `clearResults`: the panel is emptied. */
    method ClearResults()
      modifies this
      ensures fragments == []
    {
      fragments := [];
    }

    /** `renderMovies`: clear the panel; for no movies show only the "No movies found."
        notice, and otherwise append one card per movie, in order. */
    method RenderMovies(movies: seq<Api.EnrichedMovie>)
      modifies this
      ensures movies == [] ==> fragments == [Notice(NoMoviesFound)]
      ensures movies != [] ==>
                && |fragments| == |movies|
                && forall i :: 0 <= i < |movies| ==> fragments[i] == MovieCard(CardFor(movies[i]))
    {
      ClearResults();
      if |movies| == 0 {
        fragments := [Notice(NoMoviesFound)];
        return;
      }
      for i := 0 to |movies|
        invariant |fragments| == i
        invariant forall k :: 0 <= k < i ==> fragments[k] == MovieCard(CardFor(movies[k]))
      {
        fragments := fragments + [MovieCard(CardFor(movies[i]))];
      }
    }
  }
}

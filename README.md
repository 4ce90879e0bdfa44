# Movie search front end: a Dafny model

This project models the three pieces of logic in a browser movie-search front end:

- **The aggregation pipeline** (`Api`, in `api.dfy`). One catalog (TMDb) search runs first. For
  every catalog result, a ratings (OMDb) lookup and a trailer (YouTube) lookup follow. Their
  outcomes are merged into an enriched record with a fixed fallback for each field.
- **The recent-searches history** (`Storage`, in `storage.dfy`). This is a class whose field holds
  the value stored under the history's local-storage key. `SaveSearch` puts a new query at the
  front and keeps five; a query already present changes nothing. `GetRecentSearches` reads the
  list back, and `RenderRecentSearches` fills the history panel.
- **The results panel** (`Ui`, in `ui.dfy`). It has the card formatting rules (poster URL,
  release year, overview and trailer fallbacks) and a panel class whose `RenderMovies` clears the
  panel and appends one card per movie.

Two small helper modules support these. `JsValues` (`jsvalues.dfy`) holds possibly-missing JSON
fields, outcomes that may have thrown, and JavaScript truthiness of strings. `Decimal`
(`decimal.dfy`) holds the decimal text of a status code and reads it back.

The network, storage and DOM are not modelled; they become inputs or object fields:

- Each HTTP request's outcome is an input `Result<Response<T>>`. It is either a transport error
  with its message, or a response with a status, a status text and the outcome of parsing its
  JSON body.
- The lookups for the i-th catalog result are `ratings(i)` and `videos(i)`. They are keyed by
  position, not by title: each lookup is its own request, so two results with the same title
  may get different outcomes. Building the request URLs is not modelled.
- Local storage is the field `stored` of `RecentSearchStore`. It holds `Absent`, `Unreadable` or
  `Saved(list)`. The field `writable` is false when writing to storage throws.
- The two page containers are the objects `RecentSearchesPanel` and `MovieResults`. Each holds
  the sequence of fragments it displays.
- The history's two storage warnings, which the source displays, are returned as `warnings`
  out-parameters.

Consequences of the code worth knowing:

- A failed ratings lookup also discards a successful trailer: `Promise.all` rejects as soon as
  either lookup fails, so the ratings and the trailer all become defaults (`Api.EnrichMovieRules`,
  `Api.MatrixRatingsFailure`).
- Saving "Dune", "Matrix", "Dune" leaves ["Matrix", "Dune"], because the list is most-recent-first
  and a repeated query is not moved (`Storage.DuneMatrixDune`).
- `fetchTMDBMovies` throws when there are no results, but `fetchMovies` catches it and returns `[]`
  (`Api.FetchMoviesEmptyIff`).

Edge cases that follow the code:

- A first video hit with an `id` object but no `videoId` gives the URL
  `https://www.youtube.com/embed/undefined`, and one whose `videoId` is `null` gives
  `https://www.youtube.com/embed/null`, as the template literal prints them (`Api.VideoIdText`).
- The `if (!tmdbData.results)` check in `fetchMovies` can never fire, because `fetchTMDBMovies`
  has already thrown in that case. It is modelled all the same.
- Corrupt storage reads as the empty list, so the next new query overwrites the corrupt value
  with a one-element list.

## Model

| member | source | states |
|---|---|---|
| `JsValues.OrIsTruthyValueOrFallback` | js/api.js:59 | `s or fallback` (JavaScript `or` on strings) is the string when it is present and non-empty, and the fallback otherwise; it is never empty when the fallback is not. |
| `Decimal.NatToText` | js/api.js:9 | The status printed in the message is a non-empty run of decimal digits. |
| `Decimal.TextToNatOfNatToText` | js/api.js:9 | Reading the printed digits back gives the status that was printed. |
| `Api.FetchAndHandleOutcome` | js/api.js:5-16 | A lookup yields a value exactly when the request went through, the status is 200-299 and the body parsed. That value is the parsed body. Transport and parse errors are rethrown with their own message. |
| `Api.StatusErrorMessageFormat` | js/api.js:8-9 | The error for a non-OK response is the lookup's message, ": ", the status text, then " (Status: N)"; it ends in ")" and its status can be read back. |
| `Api.StatusOfStatusErrorMessage` | js/api.js:9 | The status code is recoverable from the error message, whatever the lookup message and status text. |
| `Api.NonOkResponseReportsStatus` | js/api.js:8-10 | Every non-OK response fails with a message that starts with the lookup's message and status text and reports the status code. |
| `Api.FetchTmdbMovies` | js/api.js:20-27 | A successful catalog lookup always carries a present, non-empty results list. |
| `Api.FetchTmdbMoviesFailsIff` | js/api.js:20-27 | The catalog lookup fails exactly on a transport error, a non-OK status, an unparsable body, or missing or empty results. In the last case the message is "No movies found for your query."; on success the body is returned unchanged. |
| `Api.FindSource` | js/api.js:63 | The index found is that of the first rating whose source matches exactly; none is found only when no entry matches. |
| `Api.RottenTomatoesRule` | js/api.js:63 | The Rotten Tomatoes rating is the value of the first entry whose source is exactly "Rotten Tomatoes". It is "N/A" when `Ratings` is absent, no entry matches, or that entry's value is missing or empty. |
| `Api.TrailerRule` | js/api.js:64 | Extraction throws exactly when `items` is missing or the first hit has no `id`. An empty `items` gives "". Otherwise the URL is the embed prefix followed by the first hit's video id, which can be read back. |
| `Api.EnrichMovieRules` | js/api.js:52-83 | The record keeps the movie. A failure of either lookup, or an extraction that throws (no `items`, or a first hit without `id`), gives all defaults ("N/A", "N/A", ""). Otherwise the IMDb rating is the body's rating when non-empty and "N/A" if not, and the other two fields come from their extraction rules. |
| `Api.EnrichMovieWellFormed` | js/api.js:59-82 | Every enriched record has non-empty ratings, and a trailer URL that is empty or starts with the YouTube embed prefix. |
| `Api.FetchMoviesOnePerResult` | js/api.js:51-86 | On a successful catalog lookup there is exactly one record per result, in catalog order. Each keeps its movie and is enriched from that movie's own two lookups. |
| `Api.FetchMoviesEmptyIff` | js/api.js:42-90 | `fetchMovies` returns `[]` exactly when the catalog lookup failed, including missing or empty results, and never throws. |
| `Api.FetchMoviesLocality` | js/api.js:51-84 | The i-th record depends only on the i-th movie's two lookups, so a failure for one movie leaves every other movie's record unchanged. |
| `Api.FetchMoviesWellFormed` | js/api.js:51-86 | Every record `fetchMovies` returns is well formed (non-empty ratings, embed or empty trailer URL). |
| `Api.MatrixRatingsFailure` | js/api.js:54-82 | A single result "The Matrix" whose ratings lookup fails is still returned, with "N/A", "N/A" and no trailer, whatever the trailer lookup did. |
| `Storage.PrependedShape` | js/storage.js:11-13 | Prepending then slicing gives `[q]` followed by the first min(length of old, 4) entries of `old`: at most five entries, the query first, earlier entries in their order. |
| `Storage.SaveDuplicateIsNoOp` | js/storage.js:9 | Saving a query already in the list leaves the stored value unchanged: no reordering, no write. |
| `Storage.SaveNewQuery` | js/storage.js:9-15 | Saving a new query stores `[q]` followed by the first min(length of old, 4) entries of `old`, with the query at index 0 and at most five entries. |
| `Storage.SaveEvictsOldest` | js/storage.js:13 | With five distinct queries stored, a new one evicts the oldest and leaves five. |
| `Storage.PrependedDistinct` | js/storage.js:9-13 | A list without repeats stays without repeats when a new query is prepended and the list is sliced. |
| `Storage.SavePreservesWellFormed` | js/storage.js:6-16 | Saving keeps the history invariant: at most five entries, all distinct. |
| `Storage.SaveIdempotent` | js/storage.js:6-16 | Saving the same query twice gives the same stored value as saving it once. |
| `Storage.DuneMatrixDune` | js/storage.js:6-16 | Saving "Dune", "Matrix", "Dune" into empty storage leaves ["Matrix", "Dune"]. |
| `Storage.RecentSearchStore.GetRecentSearches` | js/storage.js:24-34 | Returns the saved list; `[]` when nothing is stored; `[]` with the "Could not retrieve" warning when the stored value cannot be read. |
| `Storage.RecentSearchStore.SaveSearch` | js/storage.js:6-21 | The new stored value is the state function `AfterSave` of the old one. A present query changes nothing; a new one goes first with at most five kept; the invariant is preserved. A failed write leaves storage unchanged and adds the "Could not save" warning. |
| `Storage.RecentSearchStore.RenderRecentSearches` | js/storage.js:37-55 | The panel is cleared; a non-empty history shows the "Recent Searches" heading followed by one item per query, in stored order. |
| `Ui.PosterUrlRule` | js/ui.js:18 | The placeholder URL is used exactly when the poster path is missing or empty. Otherwise the URL is the w500 image base followed by the path, which can be read back. |
| `Ui.BeforeFirstDash` | js/ui.js:35 | `split('-')[0]` is a prefix with no '-' in it, followed in the date by '-' unless it is the whole date. |
| `Ui.ReleaseYearRule` | js/ui.js:35 | A date "year-rest" shows `year`; a date without '-' shows whole; a missing or empty date shows "N/A". |
| `Ui.OverviewRule` | js/ui.js:42 | The overview falls back to "No overview available." exactly when it is missing or empty, and is otherwise the movie's own text, so it is never empty. |
| `Ui.CardFor` | js/ui.js:38-57 | A card has a trailer iframe exactly when the trailer URL is non-empty, with that URL as its source. It shows the movie's title and both ratings, the poster URL of its poster path, the release year of its date and its overview with the fallback. |
| `Ui.PipelineCardsWellFormed` | js/ui.js:45-54 | Every card rendered from the pipeline's output shows non-empty ratings, and any trailer iframe points at a YouTube embed URL. |
| `Ui.MovieResults.ShowLoading` | js/ui.js:4-6 | The panel holds only the loading indicator. |
| `Ui.MovieResults.ClearResults` | js/ui.js:9-11 | The panel is emptied. |
| `Ui.MovieResults.RenderMovies` | js/ui.js:22-61 | After clearing, an empty list shows only the "No movies found." notice. A non-empty list shows exactly one card per movie, in input order. |

## Left out

- Network I/O (`fetch`, `response.json()`, `encodeURIComponent`) and the URLs with their API keys: request outcomes are inputs.
- Concurrency: `Promise.all` and the async map become an order-preserving map. A stale response from an earlier search overwriting the panel is a timing effect and is not modelled.
- The DOM: HTML text, element creation, event listeners, the clear button, the resize handler and `displayError` are not modelled. The history click handler and the search orchestration in js/search.js are also not part of this model. The storage warnings become `warnings` out-parameters, and the error text shown for failed lookups is not modelled.
- HTML escaping: titles and other text are interpolated into HTML unescaped. The card is modelled as a record, not as markup.
- Console logging.
- Lookups that never settle: the source sets no time-out, so one ratings or trailer request that never answers keeps `Promise.all` waiting for ever and no movie is returned. The model assumes every lookup settles; beyond that, one movie's lookups affect no other movie (`Api.FetchMoviesLocality`).
- JSON serialisation of the history: `JSON.stringify` followed by `JSON.parse` of a list of strings is taken to give back the same list, so storage holds the list itself.
- A stored value that parses to something other than a list of strings, such as a number or `null`, is not modelled.
- A response body that is not an object (for example `null`), so that reading a field of it throws, is not modelled; bodies are records whose fields may be missing.
- Values in the JSON fields of other types than those the front end reads (a numeric `imdbRating`, a non-list `Ratings`) are not modelled.

# mm-app-view in Dafny

A functional model of the decision logic of the mm-app-view web client, a
Next.js front end for a movie catalogue with ratings, reviews, watchlists and
recommendations. The client does no heavy computation. Its logic is a
collection of small, sequential decisions, and each one is modelled as a pure
Dafny function over immutable datatypes:

- the mappers that turn backend records (extended-JSON ids and dates, optional
  fields) into client records;
- the classification of an HTTP response by `fetchApi` into a returned value or a
  thrown one, and the precedence chain of `getErrorMessage`, over a small
  JavaScript-value datatype (`JsValues.JsValue`);
- the development-mode answers of the movie API: search, lookups by id and genre,
  and the sorted, paged listing over the mock catalogue;
- the session record and its browser storage (hydrate, login, logout) and the
  route guard;
- the login, registration, watchlist-creation and review forms, with the
  registration regexes written out as predicates;
- selection sets and save plans of both watchlist dialogs, and pagination,
  removal and renaming in both watchlist cards;
- the optimistic rating-list patches with their rollback, and the tag editor;
- the small display derivations: stars, the movie tile, the summary block, the
  review list and the recommendation tile.

Each module follows one source file, or one component where a file holds two.
Shared helpers sit in `Wrappers` (Option/Result), `Text` (trim, ASCII lower
case, UTF-16 length, substring search, decimal rendering), `Seqs` (filters, de-duplication,
`Array.prototype.slice`), `Paging` (ceiling division, pages, pager buttons) and
`Sorting` (a stable insertion sort under code-point order).

Conventions:

- A live (non-development) API branch is the value `Remote(endpoint)`: exactly
  one request and nothing else.
- React Query invalidations, the review form's call to `refetchRatings` and
  navigations are recorded as values (`CacheAction`, `Finished.refetched`,
  `navigate`). An invalidation with an undefined key is `InvalidateAll`.
- Clocks, UUIDs, `JSON.stringify`/`JSON.parse`, ISO date conversion and the
  server are function parameters.

## Model

| member | source | states |
|---|---|---|
| MongoDb.CoalesceId | src/types/mapper/watchlistMapper.ts:25 | `a ?? b` on ids: the first operand unless it is absent |
| MongoDb.CoalesceDate | src/types/mapper/movieMapper.ts:73 | `a ?? b` on dates: the first operand unless it is absent |
| MongoDb.ParseMongoId | src/types/mapper/mongoDbHelper.ts:1-5 | the id is empty exactly for an absent id, an empty string, or a wrapper whose `$oid` is missing or empty; a string is returned as is; a wrapper yields its `$oid` |
| MongoDb.ParseMongoDate | src/types/mapper/mongoDbHelper.ts:7-10 | an absent date gives ""; a string date is returned as is; a `$date` wrapper gives its ISO rendering |
| MongoDb.IdEncodingsAgree | src/types/mapper/mongoDbHelper.ts:1-5 | `"X"` and `{$oid: "X"}` parse to the same id, X |
| MongoDb.DateEncodingsAgree | src/types/mapper/mongoDbHelper.ts:7-10 | a wrapped date parses to the same text as its ISO rendering sent as a string |
| MongoDb.ParseMongoIdIdempotent | src/types/mapper/mongoDbHelper.ts:1-5 | parsing the output of `parseMongoId` again changes nothing |
| MongoDb.ParseMongoDateIdempotent | src/types/mapper/mongoDbHelper.ts:7-9 | parsing the output of `parseMongoDate` again changes nothing |
| WatchlistMapper.MapWatchlist | src/types/mapper/watchlistMapper.ts:23-31 | the id comes from `_id`, else `id`; name and username are copied; `movies_id` passes through when it is an array, else []; the date is parsed |
| WatchlistMapper.MapAll | src/types/mapper/watchlistMapper.ts:40 | the elements are mapped one to one, in order |
| WatchlistMapper.MapPaginatedWatchlists | src/types/mapper/watchlistMapper.ts:33-42 | only nullish fields take a default (pageNo 1, pageSize 10, totalPages 1, isLast true); totalElements defaults to the raw count; missing both `totalElements` and `elements` throws the TypeError |
| WatchlistMapper.BareListIsOnePage | src/types/mapper/watchlistMapper.ts:35-40 | a page carrying only its elements maps to page 1 of 1, last, with a total equal to the number of elements |
| WatchlistMapper.MongoIdWins | src/types/mapper/watchlistMapper.ts:25 | a present `_id` decides the id whatever `id` holds |
| WatchlistMapper.EncodingsMapAlike | src/types/mapper/watchlistMapper.ts:23-31 | a record with `$oid`/`$date` wrappers maps to the same watchlist as its plain-string form |
| MovieMapper.ReplaceSpaceRuns | src/types/mapper/movieMapper.ts:62 | the result has no white space, changes nothing without white space, turns an all-white-space input into a single hyphen, and adds only hyphens |
| MovieMapper.ReplaceSpaceRunsIsScan | src/types/mapper/movieMapper.ts:62 | the run replacement equals, on every string, an independent left-to-right scan that emits one hyphen on entering each white-space run |
| MovieMapper.ScanSkipsRun | src/types/mapper/movieMapper.ts:62 | inside a white-space run the scan skips the rest of the run: it emits nothing until the next non-space character |
| MovieMapper.PlainPrefix | src/types/mapper/movieMapper.ts:62 | text without white space passes through the run replacement unchanged, in front of whatever follows |
| MovieMapper.RunBeforeWord | src/types/mapper/movieMapper.ts:62 | a non-empty white-space run followed by the end or a non-space character becomes exactly one hyphen |
| MovieMapper.GenreSlug | src/types/mapper/movieMapper.ts:62 | a genre id has no white space, is the lower-cased name when the name has none, and is the hyphenating scan of the lower-cased name |
| MovieMapper.SlugOfTwoWords | src/types/mapper/movieMapper.ts:62 | two words with any white space between them give the lower-cased words joined by one hyphen ("Science Fiction" gives "science-fiction") |
| MovieMapper.SlugIsLower | src/types/mapper/movieMapper.ts:62 | a slug is already lower case |
| MovieMapper.SlugIdempotent | src/types/mapper/movieMapper.ts:62 | slugging a slug changes nothing |
| MovieMapper.GenresOf | src/types/mapper/movieMapper.ts:59-65 | one genre per name, in order, named by the name, with the name's slug as id |
| MovieMapper.MapBackendMovie | src/types/mapper/movieMapper.ts:55-79 | `_id` over `id`; genres slugged or [] for a non-array; casts or []; date from `timestamp` over `releaseDate`; a falsy poster URL becomes null; other fields copied |
| MovieMapper.MappedGenreIdsAreSlugs | src/types/mapper/movieMapper.ts:59-65 | every mapped genre id is lower case, free of white space and stable under slugging |
| MovieMapper.MapBackendMovies | src/types/mapper/movieMapper.ts:81-83 | a non-array gives []; an array is mapped element by element, length kept |
| MovieMapper.IndexedGenres | src/types/mapper/movieMapper.ts:89 | genre i gets the decimal text of i as id and keeps its name |
| MovieMapper.IndexedGenreIds | src/types/mapper/movieMapper.ts:89 | the positional ids are distinct and each reads back as its position |
| MovieMapper.DetailedMovieFromMovie | src/types/mapper/movieMapper.ts:85-99 | positional genre ids; release date `year-01-01` for a truthy year, else ""; average = rating or 0, count always 0; empty director, casts, reviews |
| MovieMapper.EmptyPosterUrl | src/types/mapper/movieMapper.ts:77 | an empty poster URL becomes null in `mapBackendMovie` but survives `?? null` in `detailedMovieFromMovie` |
| MovieMapper.MapMovieRating | src/types/mapper/movieMapper.ts:101-111 | review = `review_text ?? review ?? ''`; tags default to []; `created_at` from `timestamp ?? created_at` and `updated_at` from `update_date ?? updated_at` |
| MovieMapper.RatingTimestampsAlwaysSet | src/types/mapper/movieMapper.ts:109-110 | a mapped rating always has both timestamps, "" when the backend sent none |
| FetchApi.Or | src/lib/api/fetchApi.tsx:23 | `a \|\| b` is truthy iff either operand is, and is `a` when `a` is truthy |
| FetchApi.FailureArgument | src/lib/api/fetchApi.tsx:23 | the `Error` argument `data?.message \|\| statusText \|\| "API Error"` is always truthy |
| FetchApi.FetchApi | src/lib/api/fetchApi.tsx:4-27 | returns iff ok: `{}` for an unparseable body, else the body; otherwise throws Error(statusText or "Unknown error") for an unparseable body, the body itself when it has `userMessage` and `message`, else Error(first truthy of message, statusText, "API Error") |
| FetchApi.ThrownHasMessage | src/lib/api/fetchApi.tsx:11-23 | everything `fetchApi` throws passes the `hasStringMessage` guard |
| FetchApi.FailureMessageShown | src/lib/api/fetchApi.tsx:11-23 | the message a page shows for each kind of failure: statusText, the backend's `userMessage`, or the text of the `Error` argument |
| FetchApi.FailureMessageNonEmpty | src/lib/api/fetchApi.tsx:14-23 | an unstructured failure never shows an empty message, unless the body's `message` is an array |
| FetchApi.MergeHeaders | src/lib/api/fetchApi.tsx:36-40 | Authorization is always set to `Bearer <token>`, spelled "Bearer undefined" without one, over any caller value; other headers are kept |
| FetchApi.AccessToken | src/lib/api/fetchApi.tsx:32-34 | the token is the stored `accessToken` entry, if any |
| FetchApi.TruthyToken | src/lib/api/fetchApi.tsx:50 | `token \|\| undefined`: an empty token counts as none |
| FetchApi.FetchApiWithAuth | src/lib/api/fetchApi.tsx:44-57 | exactly one request, with the caller's URL, method and body, the merged headers, and the outcome `fetchApi` gives for the server's one response |
| JsValues.Get | src/lib/utils.ts:40 | a property read: an own field, an `Error`'s message or property, a `length` (a string's in UTF-16 code units), or undefined |
| JsValues.OptGet | src/lib/api/fetchApi.tsx:23 | `v?.k` is undefined on a nullish value and a plain read otherwise |
| JsValues.ToDisplayString | src/lib/api/fetchApi.tsx:23 | `String(v)` keeps a string and is non-empty for any truthy non-array value |
| JsValues.NewError | src/lib/api/fetchApi.tsx:14 | `new Error(v)` carries `v` as message for a string, "" for undefined, and no other own property |
| ErrorMessages.GetErrorMessage | src/lib/utils.ts:10-21 | a string `userMessage` wins, even on an `Error`; then an `Error`'s message; then a string itself; anything else gives "An unknown error occurred" |
| ErrorMessages.ErrorGuards | src/lib/utils.ts:23-31 | every `Error` passes `hasStringMessage`; it passes `hasStatus` or `hasErrorCode` only with that own property |
| ErrorMessages.StringMessageIsPresenceOnly | src/lib/utils.ts:23-25 | `hasStringMessage` tests only the presence of `message`, never its type |
| MockMovies.LastWithKey | src/lib/mock/movieMockData.ts:22-23 | `new Map(entries).get(k)`: none iff no entry has key k, else the last entry with that key |
| MockMovies.LastWithKeyFinds | src/lib/mock/movieMockData.ts:22-23 | when no other entry shares an entry's key, `get` on that key returns exactly that entry |
| MockMovies.GenreById | src/lib/mock/movieMockData.ts:26-27 | the catalogue genre with that id, else `{id, name: id}`; the id is always kept |
| MockMovies.GenreByName | src/lib/mock/movieMockData.ts:29-30 | the catalogue genre with that name, else `{id: lower-cased name, name}`; the name is always kept |
| MockMovies.CatalogueLookups | src/lib/mock/movieMockData.ts:11-30 | both maps find every catalogue genre by its own id and name |
| MockMovies.MockTopGenres | src/lib/mock/movieMockData.ts:47-51 | the catalogue entries for sci-fi, drama and thriller, in that order |
| MockMovies.CatalogueEntry | src/lib/mock/movieMockData.ts:58-198 | the fixtures exist exactly for ids m1 to m5 and carry their own id |
| MockMovies.UnknownMovie | src/lib/mock/movieMockData.ts:200-214 | the placeholder keeps the id, is titled "Unknown Movie", has director "Unknown Director", synopsis "No synopsis available.", empty release date and language, rating {average 0, count 0}, a null poster, and no genres, casts or reviews |
| MockMovies.MockDetailedMovie | src/lib/mock/movieMockData.ts:57-215 | the result's id is always the requested id: the fixture for a catalogue id, else the placeholder |
| MockMovies.LiteralLookup | src/lib/mock/movieMockData.ts:201 | a read on an object literal gives an own value, else an inherited `Object.prototype` member for those names, else nothing |
| MockMovies.MockDetailedMovieAsWritten | src/lib/mock/movieMockData.ts:200-201 | as written, an unknown id that names an `Object.prototype` member returns that member |
| MockMovies.AsWrittenServesInheritedMember | src/lib/mock/movieMockData.ts:201 | the id "toString" returns the inherited method, not the placeholder |
| MockMovies.CorrectedAgreesElsewhere | src/lib/mock/movieMockData.ts:201 | for every other id the corrected and the written lookups agree |
| MockMovies.MockDetailedMovies | src/lib/mock/movieMockData.ts:217-223 | the five catalogue fixtures, in id order |
| MockMovies.CatalogueGenresResolve | src/lib/mock/movieMockData.ts:57-198 | every genre of a catalogue movie is a catalogue genre, not a fallback |
| MockMovies.GenreIndexSound | src/lib/mock/movieMockData.ts:36-44 | every id the genre index lists under g is a catalogue movie with a genre whose id is g |
| MockMovies.GenreIndexComplete | src/lib/mock/movieMockData.ts:36-44 | every genre of a catalogue movie lists that movie in the genre index |
| MockMovies.CatalogueIdsAreSlugs | src/lib/mock/movieMockData.ts:11-19 | each catalogue genre id is the slug the backend mapper derives from its name |
| MockMovies.MockDetailedMoviesIds | src/lib/mock/movieMockData.ts:217-223 | the five movies have the distinct ids m1 to m5 |
| MoviesApi.SearchMovies | src/lib/api/moviesApi.tsx:20-34 | a blank query gives []; otherwise exactly the catalogue movies, in catalogue order, whose lower-cased title, some genre name or director name contains the trimmed, lower-cased query |
| MoviesApi.SearchNormalises | src/lib/api/moviesApi.tsx:21-22 | search ignores the query's letter case and surrounding white space |
| MoviesApi.GetMovieById | src/lib/api/moviesApi.tsx:41-46 | in development, the movie with that id or its placeholder, which is also what the code as written returns for every id that is not an `Object.prototype` member name; otherwise one request |
| MoviesApi.GetMoviesByIds | src/lib/api/moviesApi.tsx:48-56 | in development, the catalogue movies whose id is listed, in catalogue order, and [] for no ids; otherwise one request |
| MoviesApi.MoviesByIdsDistinct | src/lib/api/moviesApi.tsx:50 | no movie repeats, even for repeated ids |
| MoviesApi.FirstGenreKey | src/lib/api/moviesApi.tsx:61 | the key read is the first genre |
| MoviesApi.GetMovieIdsByGenres | src/lib/api/moviesApi.tsx:58-67 | in development, the index entry of the first genre only, [] for no genres or an unknown one; otherwise one request |
| MoviesApi.GetMovieIdsByGenresAsWritten | src/lib/api/moviesApi.tsx:61 | as written, a first genre naming an `Object.prototype` member returns that member instead of [] |
| MoviesApi.GenreLookupServesInheritedMember | src/lib/api/moviesApi.tsx:61 | the genre "constructor" returns the inherited constructor |
| MoviesApi.ObjectListText | src/lib/api/moviesApi.tsx:82 | `String` of a list of objects is empty iff the list is |
| MoviesApi.SortKey | src/lib/api/moviesApi.tsx:78-89 | the sort key is the release date, an own field's text, the title for an unknown key, or an inherited member's text |
| MoviesApi.PageCountOf | src/lib/api/moviesApi.tsx:100 | `Math.ceil(n / size)`: the ceiling for a positive size, Infinity or NaN for size 0, and for a negative size the integer c with c·size <= n < (c-1)·size |
| MoviesApi.SortedCatalogue | src/lib/api/moviesApi.tsx:77-91 | the catalogue, permuted and ordered by key, descending unless the order is "ASC"; movies with equal keys (the three "English" ones under `language`) keep catalogue order |
| MoviesApi.Listing | src/lib/api/moviesApi.tsx:93-103 | the page at `(page-1)*size` of a sequence, at most size long, with its length as the total, `ceil(n/size)` pages, and isLast iff page >= that count for a positive size, iff page·size >= n otherwise |
| MoviesApi.GetAllMovies | src/lib/api/moviesApi.tsx:69-108 | in development: the slice of the sorted catalogue at `(page-1)*size`, at most size long; pageNo, pageSize, total 5, `ceil(5/size)` pages, isLast iff page >= totalPages (iff page·size >= 5 for a size <= 0); otherwise one request |
| MoviesApi.ListingPagesCoverCatalogue | src/lib/api/moviesApi.tsx:93-100 | reading pages 1 to totalPages returns every catalogue movie exactly once |
| MoviesApi.InheritedKeyKeepsOrder | src/lib/api/moviesApi.tsx:81-90 | a sort key that names an inherited member is the same for all movies, so the listing keeps catalogue order |
| Paging.CeilDiv | src/lib/api/moviesApi.tsx:100 | `Math.ceil(n / d)` as the integer c with `(c-1)*d < n <= c*d` |
| Paging.PageContents | src/lib/api/moviesApi.tsx:93-94 | a page holds the elements between its bounds, clipped to the end, at most size many |
| Paging.AllPagesPrefix | src/lib/api/moviesApi.tsx:93-94 | pages 1 to k together are the first k*size elements |
| Paging.PagesCover | src/lib/api/moviesApi.tsx:93-100 | pages 1 to `ceil(n/size)` together are the whole sequence, in order |
| Paging.LastPageIff | src/lib/api/moviesApi.tsx:101 | `start + size >= n` holds exactly when page >= `ceil(n/size)` |
| Paging.Prev | src/app/recommend/page.tsx:129 | `Math.max(1, p - 1)` |
| Paging.Next | src/app/recommend/page.tsx:139 | one page on, but never past the last: `totalPages` once `p` has reached it |
| Paging.PagerStaysInRange | src/components/watchlist/WatchlistCard.tsx:371-383 | Prev and Next keep a page inside [1, totalPages] |
| Paging.ClicksStayInRange | src/components/watchlist/WatchlistCard.tsx:371-383 | no run of clicks leaves [1, totalPages] |
| Sorting.LexLeTotal | src/lib/api/moviesApi.tsx:90 | the key order is total |
| Sorting.LexLeTrans | src/lib/api/moviesApi.tsx:90 | the key order is transitive |
| Sorting.LexLeAntisym | src/lib/api/moviesApi.tsx:90 | the key order is antisymmetric |
| Sorting.DescendingSwapsArguments | src/lib/api/moviesApi.tsx:90 | DESC compares with the arguments swapped |
| Sorting.Insert | src/lib/api/moviesApi.tsx:77-91 | one insertion step adds exactly the element |
| Sorting.InsertSorted | src/lib/api/moviesApi.tsx:77-91 | inserting into a sorted sequence keeps it sorted |
| Sorting.SortBy | src/lib/api/moviesApi.tsx:77-91 | `[...s].sort(...)` is sorted by key, a permutation of s, and stable: for every key, the elements with that key appear in the same order as in s |
| Sorting.InsertWithKey | src/lib/api/moviesApi.tsx:77-91 | one insertion step places the new element after every element with an equal key |
| Sorting.WithKeySnoc | src/lib/api/moviesApi.tsx:77-91 | appending an element extends the run of its own key and no other |
| Sorting.WithKeyAll | src/lib/api/moviesApi.tsx:77-91 | when every element has key k, the run of k is the whole sequence |
| Sorting.SortByConstantKey | src/lib/api/moviesApi.tsx:77-91 | when every key is the same, sorting leaves the sequence as it is |
| AuthSession.Hydrate | src/context/AuthContext.tsx:25-36 | the stored session is adopted only when token, refresh token and user are all stored and non-empty; initialized becomes true either way; storage is untouched |
| AuthSession.Login | src/context/AuthContext.tsx:38-45 | all three values set in memory and written to their keys; other keys untouched |
| AuthSession.Logout | src/context/AuthContext.tsx:47-54 | all three values cleared and exactly their three keys removed |
| AuthSession.LoginThenReload | src/context/AuthContext.tsx:29-44 | a page load after login with non-empty tokens restores the same session, given that the user survives JSON |
| AuthSession.LogoutThenReload | src/context/AuthContext.tsx:29-53 | a page load after logout finds no session |
| AuthSession.LogoutUndoesLogin | src/context/AuthContext.tsx:42-53 | logout after login leaves storage as logout alone would |
| AuthGuard.EnsureAuth | src/context/AuthGuard.tsx:19-37 | nothing before initialization; public paths and a present token end loading; otherwise navigate to login with the loader kept |
| AuthGuard.Render | src/context/AuthGuard.tsx:39-40 | children only once initialized and not loading |
| AuthGuard.LoadingTrace | src/context/AuthGuard.tsx:17-37 | one loading value per run of the effect |
| AuthGuard.LoadingNeverReturns | src/context/AuthGuard.tsx:17-29 | the loading flag only falls; once false it never becomes true again |
| AuthGuard.ProtectedPathWithoutToken | src/context/AuthGuard.tsx:33-39 | a protected path without a token keeps the loader and navigates to login |
| SignIn.Answered | src/app/login/page.tsx:43-54 | on success the session is logged in with the response and the user goes to the recommendations; on failure the error's message is shown |
| LoginForm.HandleSubmit | src/app/login/page.tsx:31-57 | no request iff identifier or password is blank; the message then; otherwise the trimmed identifier and the verbatim password are sent |
| LoginForm.BlankPasswordRefused | src/app/login/page.tsx:37-46 | a password of spaces is refused though passwords are never trimmed |
| RegisterForm.HandleChange | src/app/register/page.tsx:38-45 | the edited field loses leading white space unless it is the password; other fields unchanged |
| RegisterForm.FirstAt | src/app/register/page.tsx:51 | the position of the first '@' |
| RegisterForm.EmailOkIff | src/app/register/page.tsx:51 | the scanning check accepts exactly the strings `^[^\s@]+@[^\s@]+\.[^\s@]+$` matches |
| RegisterForm.Validate | src/app/register/page.tsx:48-56 | username, email, phone, password checked in that order, lengths in UTF-16 code units; the first failure's message, none iff all pass |
| RegisterForm.AstralPasswordAccepted | src/app/register/page.tsx:54 | three characters outside the Basic Multilingual Plane count as six and pass the password rule |
| RegisterForm.HandleSubmit | src/app/register/page.tsx:58-86 | a validation failure (lengths in UTF-16 code units) sends nothing and shows its message; otherwise username, email and phone are sent trimmed and the password verbatim |
| RegisterForm.EditedUsernameTrimsAtEnd | src/app/register/page.tsx:43-72 | an edited username has no leading white space, so sending it only trims its end |
| WatchlistSelection.Toggle | src/components/watchlist/AddToWatchlistsDialog.tsx:68-69 | flips the membership of one id and no other; keeps the selection duplicate-free |
| WatchlistSelection.ToggleTwice | src/components/watchlist/AddToWatchlistsDialog.tsx:68-69 | ticking then unticking gives back the selection |
| WatchlistSelection.Plan | src/components/watchlist/AddToWatchlistsDialog.tsx:73-84 | no update iff membership already matches the selection; else the movie appended, or every copy removed |
| WatchlistSelection.SavePlans | src/components/watchlist/AddToWatchlistsDialog.tsx:73-84 | one plan per watchlist, over all watchlists, in order |
| WatchlistSelection.SaveMatchesSelection | src/components/watchlist/AddToWatchlistsDialog.tsx:73-84 | after saving, a watchlist holds the movie iff it is selected; its other ids, name and owner are untouched |
| WatchlistSelection.Save | src/components/watchlist/AddToWatchlistsDialog.tsx:71-91 | success invalidates the user's watchlists and closes the dialog; failure leaves it open |
| AddToWatchlists.Filtered | src/components/watchlist/AddToWatchlistsDialog.tsx:52-55 | all watchlists for a blank search; else those whose lower-cased name contains the trimmed, lower-cased search, in order, each as often as it occurs |
| AddToWatchlists.ToggleAllFiltered | src/components/watchlist/AddToWatchlistsDialog.tsx:57-65 | when all listed ids are selected, exactly those are removed and every other id keeps all its copies, in order; otherwise they are added without duplicates, in first-occurrence order: the selection first, then the listed ids it lacks |
| AddToWatchlists.ClearAll | src/components/watchlist/AddToWatchlistsDialog.tsx:66 | the selection empties and the search stays |
| AddToWatchlists.ClearThenSaveIsLikeOpened | src/components/watchlist/AddToWatchlistsDialog.tsx:66 | saving after clearing sends the same updates as saving straight after opening |
| AddToWatchlists.SelectAllThenClear | src/components/watchlist/AddToWatchlistsDialog.tsx:57-65 | select-all twice leaves no listed id selected and keeps the rest |
| AddToWatchlists.SaveWithoutTicking | src/components/watchlist/AddToWatchlistsDialog.tsx:44-82 | saving straight after opening removes the movie from every watchlist that has it |
| LegacyAddToWatchlists.InitialSelection | src/components/AddToWatchlistsDialog.tsx:27-31 | the selection opens as the ids of the watchlists holding the movie, in list order: a walk over the list equals `filter(...).map(wl => wl.id)` |
| LegacyAddToWatchlists.OpenThenSaveIsQuiet | src/components/AddToWatchlistsDialog.tsx:28-50 | with distinct ids, opening then saving sends no update |
| WatchlistCards.CardMovies | src/components/watchlist/WatchlistCard.tsx:44-47 | an empty id list gives [] without a fetch; otherwise the movies by id |
| WatchlistCards.TotalPages | src/components/watchlist/WatchlistCard.tsx:63 | `max(1, ceil(n/pageSize))`: at least 1, and the smallest page count covering n |
| WatchlistCards.PageSlice | src/components/watchlist/WatchlistCard.tsx:66-67 | page p holds the movies between `(p-1)*pageSize` and `p*pageSize`, clipped, at most pageSize |
| WatchlistCards.ShowingMatchesSlice | src/components/watchlist/WatchlistCard.tsx:271-272 | the "Showing from–to" header counts exactly the movies on a reachable page |
| WatchlistCards.PageStaysInRange | src/components/watchlist/WatchlistCard.tsx:64-383 | after the reset to 1 and any clicks, the page stays in [1, totalPages] |
| WatchlistCards.RemoveMovie | src/components/watchlist/WatchlistCard.tsx:103-118 | every copy of the movie goes; every other id keeps all its copies, in order; name and owner unchanged |
| WatchlistCards.RemoveAllOnPage | src/components/watchlist/WatchlistCard.tsx:121-137 | every id on the page goes; every other id keeps all its copies, in order |
| WatchlistCards.Rename | src/components/watchlist/WatchlistCard.tsx:86-92 | the update carries the trimmed name and everything else as it was; a wanted rename is non-empty and new |
| WatchlistCard.SaveName | src/components/watchlist/WatchlistCard.tsx:79-100 | an update iff the trimmed draft is non-blank and new; edit mode ends; a cancelled rename resets the draft |
| LegacyWatchlistCard.SaveName | src/components/WatchlistCard.tsx:58-71 | an update iff the trimmed draft is non-blank and new; edit mode ends; the draft stays as typed |
| WatchlistCards.UpdateSettled | src/components/WatchlistCard.tsx:49-56 | a successful card update invalidates every query that `invalidateKey` prefixes, or every query when it is undefined; a failure invalidates nothing |
| LegacyWatchlistCard.VariantsAgreeOnUpdates | src/components/WatchlistCard.tsx:58-71 | both cards send the same update; they differ only in the draft after a cancelled rename |
| ProfilePage.HandleCreate | src/app/profile/page.tsx:56-60 | nothing for a blank name, else the trimmed name, the current user and no movies |
| ProfilePage.CreateSettled | src/app/profile/page.tsx:43-49 | a successful create invalidates the user's watchlists and clears the input |
| ProfilePage.DeleteSettled | src/app/profile/page.tsx:51-54 | a successful delete invalidates the same key; the input is untouched |
| ProfilePage.CardUpdatesRefreshEverything | src/app/profile/page.tsx:120-126 | the page gives its cards no `invalidateKey`, so a card's successful update invalidates every query, the watchlist list included |
| ProfilePage.MutationsRefreshTheList | src/app/profile/page.tsx:43-54 | create and delete refresh the list the page reads |
| ProfilePage.ListArea | src/app/profile/page.tsx:113-130 | spinner while loading; "No watchlists found." on error or no elements; else one card per watchlist |
| ReviewComposer.DraftFor | src/components/movie/ReviewComposer.tsx:25-39 | the form opens with the user's rating, review and tags, or blank |
| ReviewComposer.TypeReview | src/components/movie/ReviewComposer.tsx:174 | the textarea keeps the longest prefix of whole characters within 800 UTF-16 code units, and all of a text within the limit |
| ReviewComposer.TypedReviewWithinLimit | src/components/movie/ReviewComposer.tsx:41-43 | for typed text, `canSubmit` reduces to a rating, ten trimmed UTF-16 code units and a user |
| ReviewComposer.HandleSubmit | src/components/movie/ReviewComposer.tsx:137-155 | nothing unless `canSubmit` (lengths in UTF-16 code units); an update of the user's rating if there is one, else a new rating |
| ReviewComposer.OptimisticEntry | src/components/movie/ReviewComposer.tsx:51-63 | the placeholder's id starts "optimistic-", it carries the payload's fields, and its two timestamps are two separate clock readings |
| ReviewComposer.Patch | src/components/movie/ReviewComposer.tsx:86-92 | only entries with the rating's id are patched; the length is kept |
| ReviewComposer.Optimistic | src/components/movie/ReviewComposer.tsx:51-117 | submit appends one entry to an unchanged list; update keeps length and other entries and gives that id's entries the new rate, review, tags and `updated_at`; delete drops every entry with that id and keeps every other entry, each copy, in order |
| ReviewComposer.Settle | src/components/movie/ReviewComposer.tsx:66-121 | a failure restores the snapshot exactly |
| ReviewComposer.Finish | src/components/movie/ReviewComposer.tsx:66-134 | a settled mutation leaves the optimistic list or the rollback, invalidates `['ratings', movieId]` and calls `refetchRatings` on either outcome, and a successful delete resets the form to `Cleared` (no star, no review, no tags) |
| ReviewComposer.EveryMutationRefreshesRatings | src/components/movie/ReviewComposer.tsx:73-77 | every settled mutation, failed or not, marks this movie's rating list stale and no other movie's |
| ReviewComposer.DeletedReviewCannotBeResent | src/components/movie/ReviewComposer.tsx:124-130 | after a successful delete the form is blank, so it cannot be submitted |
| ReviewComposer.UpdateThenDelete | src/components/movie/ReviewComposer.tsx:86-117 | a delete after an update leaves no entry of that rating |
| ReviewComposer.AddTag | src/components/movie/ReviewComposer.tsx:244-253 | a non-blank tag joins once, trimmed, after the de-duplicated tags in first-occurrence order, and the field clears; a blank one changes nothing |
| ReviewComposer.RemoveTag | src/components/movie/ReviewComposer.tsx:264 | every copy of the tag disappears; every other tag keeps all its copies, in order |
| ReviewComposer.TagsStayDistinct | src/components/movie/ReviewComposer.tsx:244-264 | no run of edits introduces a duplicate tag |
| RecommendPage.SearchData | src/app/recommend/page.tsx:37-42 | no search for a blank query, else the catalogue search |
| RecommendPage.TotalPages | src/app/recommend/page.tsx:63-65 | `ceil(n/8)` once there are results, 0 before |
| RecommendPage.PaginatedResults | src/app/recommend/page.tsx:57-61 | the current page of eight, or nothing before results |
| RecommendPage.PagerShowsResults | src/app/recommend/page.tsx:28-30 | after the reset to page 1, Prev and Next keep a non-empty result list on a non-empty page |
| RecommendPage.PagesShowAllResults | src/app/recommend/page.tsx:57-65 | pages 1 to totalPages show every result once, in order |
| RecommendPage.ResultsArea | src/app/recommend/page.tsx:107-117 | skeleton while searching; the error message; "No results" only for an empty answer to a non-empty query; the current page whenever a non-empty answer is there and no search runs, and no cards otherwise |
| RecommendPage.SettledSearchShowsCards | src/app/recommend/page.tsx:107-141 | once a search has answered with results, every page the pager reaches shows cards and no "No results" |
| RecommendPage.ShownRecommendations | src/app/recommend/page.tsx:159-161 | at most the first six recommendations, in order, once loaded |
| RecommendPage.RecsErrorMessageAsWritten | src/app/recommend/page.tsx:155-157 | as written, the recommendations error box shows the search error's message |
| RecommendPage.RecsErrorShowsWrongMessage | src/app/recommend/page.tsx:156 | a recommendations failure alone shows the generic fallback, not its own message |
| RecommendPage.RecsErrorMessage | src/app/recommend/page.tsx:155-157 | the corrected box shows the recommendations error's own message |
| RecommendPage.RecsErrorIgnoresSearch | src/app/recommend/page.tsx:155-157 | the two boxes agree exactly when both queries report the same error |
| MovieView.FirstRatingBy | src/components/movie/MovieView.tsx:28 | the index of the first rating by that user, or the length |
| MovieView.MyRating | src/components/movie/MovieView.tsx:27-28 | the first rating with the user's name; none without a user |
| MovieView.FullName | src/components/movie/MovieView.tsx:33-35 | the non-empty name parts joined by one space, "" iff both are empty |
| MovieView.DirectorName | src/components/movie/MovieView.tsx:33 | the director's full name, or "—" when it is empty |
| MovieView.GenreNames | src/components/movie/MovieView.tsx:32 | the non-empty genre names, each as often as it occurs, in order |
| MovieView.CastNames | src/components/movie/MovieView.tsx:34-36 | each named cast member's full name, each as often as it occurs, in order; members with no name dropped |
| Stars.RenderStars | src/components/movie/Stars.tsx:9-14 | five stars; star i is filled iff i <= rating |
| Stars.CountFilledPrefix | src/components/movie/Stars.tsx:9-14 | a row filled on exactly its first k stars has k filled stars |
| Stars.FilledStarsCount | src/components/movie/Stars.tsx:9-14 | the filled count is the rating clamped to 0..5: none for <= 0, all for >= 5 |
| Stars.InputStars | src/components/movie/Stars.tsx:38-47 | radio i is lit iff the hover value, else the value, reaches it, and checked iff the value equals it |
| Stars.AtMostOneChecked | src/components/movie/Stars.tsx:47 | at most one radio is checked |
| Stars.InputMatchesRow | src/components/movie/Stars.tsx:39 | without hover the input lights what the read-only row fills |
| Stars.OnStarEvent | src/components/movie/Stars.tsx:48-55 | choosing calls `onChange(val)`; entering sets the hover; leaving clears it |
| Stars.ChooseThenLeave | src/components/movie/Stars.tsx:47-55 | after choosing star val and leaving, only radio val is checked and stars 1 to val are lit |
| Summary.LanguageBadge | src/components/movie/Summary.tsx:46 | a badge only for a non-empty language |
| Summary.Badges | src/components/movie/Summary.tsx:47-50 | the first min(4, n) names, and a "+k" badge with k = n - 4 iff n > 4 |
| Summary.BadgesAccountForEveryGenre | src/components/movie/Summary.tsx:47-50 | every genre is either shown or counted in "+k" |
| Summary.SynopsisText | src/components/movie/Summary.tsx:53 | the synopsis, or "No synopsis available." |
| Summary.CommunityRating | src/components/movie/Summary.tsx:58-71 | stars and count once there are ratings; a spinner only when none and loading; else a dash |
| Summary.RatingsOutrankLoading | src/components/movie/Summary.tsx:61-66 | a refetch does not hide ratings already there |
| SummaryBits.MetaRow | src/components/movie/SummaryBits.tsx:22-29 | a dash for a falsy value |
| SummaryBits.ShownCast | src/components/movie/SummaryBits.tsx:32-34 | all names when open, else the first six |
| SummaryBits.CastRow | src/components/movie/SummaryBits.tsx:31-56 | a dash for no names; the button iff more than six, labelled by the state; the ellipsis iff collapsed and more than six |
| SummaryBits.ToggleCast | src/components/movie/SummaryBits.tsx:45 | the button flips the state |
| SummaryBits.ShortCastIgnoresToggle | src/components/movie/SummaryBits.tsx:34-40 | six names or fewer look the same either way, with no button |
| SummaryBits.NamedCastIsListed | src/components/movie/SummaryBits.tsx:39 | a non-empty cast of named people is listed, never the dash |
| SummaryBits.ToggleRevealsTheRest | src/components/movie/SummaryBits.tsx:34-45 | expanding a long cast lists everyone; collapsed hides exactly those after the sixth |
| MovieCard.Year | src/components/movie/MovieCard.tsx:12 | the first four characters of the release date, or a dash for a shorter one |
| MovieCard.Href | src/components/movie/MovieCard.tsx:19 | the detail prefix, a slash, the id |
| MovieCard.HrefInjective | src/components/movie/MovieCard.tsx:19 | two tiles link to the same page only for the same id |
| Domain.AllGenreNames | src/components/movie/MovieCard.tsx:15 | the genre names, in order, one per genre |
| MovieCard.GenreLine | src/components/movie/MovieCard.tsx:50-56 | no line without genres; else the first two names joined by " · ", with "…" iff there are more |
| MovieCard.DirectorLine | src/components/movie/MovieCard.tsx:60-66 | a line iff the first name is non-empty: "first last" |
| ReviewSection.Author | src/components/movie/ReviewSection.tsx:39 | "Anonymous" for an empty username |
| ReviewSection.EntryFor | src/components/movie/ReviewSection.tsx:35-65 | an entry carries the rating's id, stars, review and tags, the author label and the "You" flag iff its id is the user's rating's |
| ReviewSection.Reviews | src/components/movie/ReviewSection.tsx:29-73 | a spinner while loading whatever is cached; then every rating in order, or the empty message |
| ReviewSection.YouBadgeMarksFirstOwnReview | src/components/movie/ReviewSection.tsx:40 | with distinct ids, "You" marks exactly the user's first rating |
| RecommendationCard.Label | src/components/RecommendationCard.tsx:22 | "From Top Movies" iff the percentage is 0, else "<pct>% match" |
| RecommendationCard.LabelInjective | src/components/RecommendationCard.tsx:22 | different percentages never share a label |
| RecommendationCard.ShownExplanations | src/components/RecommendationCard.tsx:27-34 | the explanations, in order, iff not a top movie and there are some |

## Left out

- Network and transport: `fetch`, `Headers` internals and `res.json()`. A response is the triple (ok, statusText, body), and a server is a function from request to response.
- Token refresh: the request layer has none, and `fetchApiWithAuth` sends exactly one request. `refreshToken` in src/lib/api/authApi.tsx is never called here.
- src/lib/api/authApi.tsx, src/lib/api/recommendationApi.tsx, src/lib/api/activityApi.tsx, `getRecommendations`, `getAllGenres` and `getTopGenres`: each only builds a URL or returns a constant.
- The watchlist and rating endpoints (`getUserWatchlists`, `updateWatchlist`, `createWatchlist`, `deleteWatchlist`, `submitRating`, `updateRating`, `deleteRating`) are not part of this model. They are effects that succeed or fail: a `succeeded` flag, or the update value sent.
- React machinery: rendering, hook scheduling, query cancellation and the refetch that an invalidation or `refetchRatings` starts. The invalidations, the call to `refetchRatings` and navigations are recorded values; toasts and focus are left out. Loading and submitting flags appear only where they choose what is shown.
- The browser's constraint validation. Neither form sets `noValidate`, so the browser checks `required`, `minLength`/`maxLength`, `type="email"` and the phone `pattern` before `handleSubmit` runs (src/app/register/page.tsx:140-232, src/app/login/page.tsx:109-141). `maxLength` also caps what `RegisterForm.HandleChange` receives. The model starts at `handleSubmit`, so some `RegisterForm.Validate` messages and `LoginForm.HandleSubmit`'s blank-identifier refusal are reached only by input the page itself would not submit.
- The 350 ms debounce of the recommendations search: the debounced query is an input.
- Floating point:
  - `JsValues`: a number is an integer (`Num(n: int)`); fractions, NaN and the infinities are not values of the model;
  - the review average in the summary is passed in already rounded;
  - `toFixed(1)` on the movie tile is not modelled;
  - `Math.round(score * 100)` on the recommendation tile is passed in;
  - `Date` to ISO conversion is a parameter `iso`;
  - year and locale date formatting are not modelled.
- `MovieMapper.DetailedMovieFromMovie`: a movie's `rating` is a number by its type, so the `typeof` test is written as `?? 0` on an optional value.
- `MoviesApi.SortedCatalogue`: `localeCompare` is modelled as lexicographic order by code point. The actual collation is locale dependent; only its being a total order is used.
- `Text.ToLower`: lower-cases ASCII letters only, where JavaScript uses full Unicode case mapping.
- `ReviewComposer.TypeReview`: when the 800th UTF-16 code unit is the first half of a surrogate pair, `slice` keeps that lone half. A Dafny character cannot hold half a pair, so the model drops the whole character and the text is one unit shorter.
- `ReviewComposer.Patch`: every entry with the rating's id gets the same `updated_at`. In the source, `map` reads the clock once per matching entry; ids are unique on the server, so at most one entry matches.
- `MovieCard.Year`: `length >= 4` and `slice(0, 4)` are taken on characters, not UTF-16 code units. They agree on release dates, which are ASCII.
- `MoviesApi.GetMovieById`: it is built on the corrected lookup `MockMovies.MockDetailedMovie`. For an id that names an `Object.prototype` member, such as "toString", the code as written returns that inherited function instead (see Findings).
- Logging: the `console.warn` of a failed response and the two `console.log` calls in `fetchApiWithAuth` (src/lib/api/fetchApi.tsx:19, 49, 52) have no effect on any result. One of them prints the raw access token.
- `MongoDb.ParseMongoDate`: a `$date` wrapper whose `$date` is missing makes `toISOString` throw a RangeError. This is not modelled; the wrapper always carries a date.
- `AuthSession.Hydrate`: a corrupt stored user makes `JSON.parse` throw. Here `parse` is total.
- `useRequireUser` (src/context/AuthContext.tsx:69-72) returns the context's `user`, possibly null, and never redirects. It has no member of its own; pages take `AuthState.user` as an `Option`.
- The `user!` non-null assertions read a username that is assumed present.
- `WatchlistCards.TotalPages` and `WatchlistCards.PageSlice`: these require pageSize >= 1. The prop defaults to 6 and no caller passes another value.
- `MovieCard.ShowsRatingBadge`: the summary's average is a number by its type, so the badge depends only on the summary being present. This is a predicate without a stated contract.
- The `hasUserMessage`, `hasStringMessage`, `hasStatus` and `hasErrorCode` guards are predicates. Their behaviour is stated by `ErrorMessages.GetErrorMessage`, `ErrorMessages.ErrorGuards` and `ErrorMessages.StringMessageIsPresenceOnly`.
- Styling (`cn`, Tailwind) and components with no decisions: Header, Footer, Feature, Frames, HeroSection, Spinner, FullScreenLoader, Stat, not-found, layout, the query-client provider, src/components/MovieCard.tsx and the home page animation.
- The `ROUTES` constants file is not part of this model, so routes are a parameter record.
- Behaviour the code does not have, stated so that it is not assumed:
  - there is no 401 refresh-and-retry;
  - search rejects only a blank query, not short ones;
  - `isLast` is `page >= totalPages`;
  - `getMoviesByIds([])` still sends a request outside development.

## Findings

| source | as written | input that shows it | evidently intended | confidence | as-written member | corrected member |
|---|---|---|---|---|---|---|
| src/lib/mock/movieMockData.ts:201 | `movies[id] \|\| placeholder` reads the object literal, so an id naming an `Object.prototype` member returns that member | id "toString" returns `Object.prototype.toString`, not a movie (`MockMovies.AsWrittenServesInheritedMember`) | an unknown id gets the "Unknown Movie" placeholder | medium, not executed | MockMovies.MockDetailedMovieAsWritten | MockMovies.MockDetailedMovie |
| src/lib/api/moviesApi.tsx:61 | `mockMovieIdsByGenre[genres[0]] ?? []` returns an inherited member for a genre naming one | genres ["constructor"] return the `Object` constructor, not [] (`MoviesApi.GenreLookupServesInheritedMember`) | an unknown genre gives no ids | medium, not executed | MoviesApi.GetMovieIdsByGenresAsWritten | MoviesApi.GetMovieIdsByGenres |
| src/app/recommend/page.tsx:156 | the recommendations error box renders `getErrorMessage(searchError)` | recommendations fail with Error("Recommendations unavailable") while search has no error: the box shows "An unknown error occurred" (`RecommendPage.RecsErrorShowsWrongMessage`) | the box shows the recommendations error's own message | high, not executed | RecommendPage.RecsErrorMessageAsWritten | RecommendPage.RecsErrorMessage |

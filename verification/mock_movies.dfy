/**
 * The in-memory movie catalogue the development build serves
 * (lib/mock/movieMockData): genres, the genre index and five detailed movies.
 */
module MockMovies {
  import opened Wrappers
  import opened Text
  import opened JsValues
  import opened Domain
  import opened MovieMapper

  const SciFi := Genre("sci-fi", "Sci-Fi")
  const Thriller := Genre("thriller", "Thriller")
  const Action := Genre("action", "Action")
  const Animation := Genre("animation", "Animation")
  const Fantasy := Genre("fantasy", "Fantasy")
  const Drama := Genre("drama", "Drama")
  const Comedy := Genre("comedy", "Comedy")

  /** The genre catalogue, in display order. */
  const MockGenres: seq<Genre> := [SciFi, Thriller, Action, Animation, Fantasy, Drama, Comedy]

  /** The key a genre map is built on: its id, or its name. */
  function Key(g: Genre, byId: bool): string {
    if byId then g.id else g.name
  }

  /** No entry after position i shares the key of entry i. */
  predicate LastKey(gs: seq<Genre>, i: int, byId: bool)
    requires 0 <= i < |gs|
  {
    forall j :: i < j < |gs| ==> Key(gs[j], byId) != Key(gs[i], byId)
  }

  /** `new Map(entries).get(k)` for entries keyed by `Key`: the last entry with that key wins. */
  function LastWithKey(gs: seq<Genre>, k: string, byId: bool): (r: Option<Genre>)
    ensures r.None? <==> forall i :: 0 <= i < |gs| ==> Key(gs[i], byId) != k
    ensures r.Some? ==> exists i :: 0 <= i < |gs| && gs[i] == r.value && Key(gs[i], byId) == k && LastKey(gs, i, byId)
  {
    if gs == [] then None
    else
      var last := gs[|gs| - 1];
      if Key(last, byId) == k then Some(last)
      else
        var r := LastWithKey(gs[..|gs| - 1], k, byId);
        assert r.Some? ==> exists i :: 0 <= i < |gs| - 1 && gs[i] == r.value && Key(gs[i], byId) == k && LastKey(gs, i, byId);
        r
  }

  /** `getGenreById`: the catalogue genre, or `{ id, name: id }`. */
  function GenreById(id: string): (g: Genre)
    ensures g.id == id
    ensures g in MockGenres || g == Genre(id, id)
    ensures (forall i :: 0 <= i < |MockGenres| ==> MockGenres[i].id != id) ==> g == Genre(id, id)
  {
    LastWithKey(MockGenres, id, true).GetOr(Genre(id, id))
  }

  /** `getGenreByName`: the catalogue genre, or `{ id: name.toLowerCase(), name }`. */
  function GenreByName(name: string): (g: Genre)
    ensures g.name == name
    ensures g in MockGenres || g == Genre(ToLower(name), name)
    ensures (forall i :: 0 <= i < |MockGenres| ==> MockGenres[i].name != name) ==> g == Genre(ToLower(name), name)
  {
    LastWithKey(MockGenres, name, false).GetOr(Genre(ToLower(name), name))
  }

  /** With no other entry sharing its key, an entry is what the map returns for that key. */
  lemma LastWithKeyFinds(gs: seq<Genre>, k: nat, byId: bool)
    requires k < |gs|
    requires forall j :: 0 <= j < |gs| && j != k ==> Key(gs[j], byId) != Key(gs[k], byId)
    ensures LastWithKey(gs, Key(gs[k], byId), byId) == Some(gs[k])
  {
    var r := LastWithKey(gs, Key(gs[k], byId), byId);
    assert r.Some?;
    var i :| 0 <= i < |gs| && gs[i] == r.value && Key(gs[i], byId) == Key(gs[k], byId) && LastKey(gs, i, byId);
    assert i == k;
  }

  /** Catalogue genres have distinct ids and distinct names, so both maps find every entry. */
  lemma CatalogueLookups(k: nat)
    requires k < |MockGenres|
    ensures GenreById(MockGenres[k].id) == MockGenres[k]
    ensures GenreByName(MockGenres[k].name) == MockGenres[k]
  {
    CatalogueKeysDistinct();
    LastWithKeyFinds(MockGenres, k, true);
    LastWithKeyFinds(MockGenres, k, false);
  }

  /** No two catalogue genres share an id or a name. */
  lemma CatalogueKeysDistinct()
    ensures forall i, j :: 0 <= i < |MockGenres| && 0 <= j < |MockGenres| && i != j ==>
      MockGenres[i].id != MockGenres[j].id && MockGenres[i].name != MockGenres[j].name
  {
  }

  /** The genre index: genre id to the ids of the movies in that genre. */
  const MockMovieIdsByGenre: map<string, seq<string>> := map[
    "sci-fi" := ["m1", "m2"],
    "thriller" := ["m1", "m4"],
    "action" := ["m2"],
    "animation" := ["m3"],
    "fantasy" := ["m3"],
    "drama" := ["m4", "m5"],
    "comedy" := ["m5"]
  ]

  /** The genres featured on the home page. */
  function MockTopGenres(): (gs: seq<Genre>)
    ensures |gs| == 3
    ensures forall g :: g in gs ==> g in MockGenres
    ensures gs[0].id == "sci-fi" && gs[1].id == "drama" && gs[2].id == "thriller"
    ensures gs == [SciFi, Drama, Thriller]
  {
    TopGenreLookups();
    [GenreById("sci-fi"), GenreById("drama"), GenreById("thriller")]
  }

  /** The three featured ids find their catalogue entries. */
  lemma TopGenreLookups()
    ensures GenreById("sci-fi") == SciFi && GenreById("drama") == Drama && GenreById("thriller") == Thriller
  {
    assert MockGenres[0] == SciFi && MockGenres[5] == Drama && MockGenres[1] == Thriller;
    CatalogueLookups(0);
    CatalogueLookups(5);
    CatalogueLookups(1);
  }

  function Review(user: string, comment: string, rating: int, dateCreated: string): EmbeddedReview {
    EmbeddedReview(user, comment, rating, dateCreated)
  }

  /*
   * Each catalogue movie lists its genres as `getGenreByName(name)` of
   * catalogue names; `CatalogueLookups` shows those lookups return the
   * catalogue entries written here.
   */

  /** The ids the catalogue holds, in order. */
  const CatalogueIds: seq<string> := ["m1", "m2", "m3", "m4", "m5"]

  const InceptionSynopsis := "A thief who steals corporate secrets through dream-sharing technology is given the inverse task of planting an idea into the mind of a CEO."

  const InceptionReviews: seq<EmbeddedReview> := [Review("neo", "Mind-bending and brilliant!", 9, "2021-10-01T10:00:00Z"),
    Review("arjun", "Nolan at his best. Stunning visuals.", 10, "2023-06-05T15:30:00Z")]

  function Inception(): (d: DetailedMovie)
    ensures d.id == "m1"
    ensures d.genres == [SciFi, Thriller]
  {
    DetailedMovie(
      "m1", "Inception",
      [SciFi, Thriller],
      Person("Christopher", "Nolan"),
      [Person("Leonardo", "DiCaprio"), Person("Joseph", "Gordon-Levitt")],
      InceptionSynopsis,
      "2010-07-16", "English",
      Some(RatingSummary(8.8, 2000)),
      InceptionReviews,
      None)
  }

  const MatrixSynopsis := "A hacker discovers the world is a simulation and joins a rebellion to break free from it."

  const MatrixReviews: seq<EmbeddedReview> := [Review("trinity", "A game-changer in science fiction.", 10, "2022-12-11T08:22:00Z"),
    Review("morpheus", "You take the red pill and go down the rabbit hole.", 9, "2023-02-01T18:45:00Z")]

  function Matrix(): (d: DetailedMovie)
    ensures d.id == "m2"
    ensures d.genres == [SciFi, Action]
  {
    DetailedMovie(
      "m2", "The Matrix",
      [SciFi, Action],
      Person("Lana", "Wachowski"),
      [Person("Keanu", "Reeves"), Person("Carrie-Anne", "Moss")],
      MatrixSynopsis,
      "1999-03-31", "English",
      Some(RatingSummary(8.7, 3000)),
      MatrixReviews,
      None)
  }

  const SpiritedAwaySynopsis := "A young girl enters a magical world ruled by gods, spirits, and a witch."

  const SpiritedAwayReviews: seq<EmbeddedReview> := [Review("haku", "Beautifully animated and deeply emotional.", 10, "2021-05-25T14:00:00Z")]

  function SpiritedAway(): (d: DetailedMovie)
    ensures d.id == "m3"
    ensures d.genres == [Animation, Fantasy]
  {
    DetailedMovie(
      "m3", "Spirited Away",
      [Animation, Fantasy],
      Person("Hayao", "Miyazaki"),
      [],
      SpiritedAwaySynopsis,
      "2001-07-20", "Japanese",
      Some(RatingSummary(8.6, 2500)),
      SpiritedAwayReviews,
      None)
  }

  const ParasiteSynopsis := "A poor family schemes to become employed by a wealthy family by infiltrating their household."

  const ParasiteReviews: seq<EmbeddedReview> := [Review("min", "Masterpiece of class commentary.", 9, "2022-03-12T12:45:00Z"),
    Review("sofia", "Darkly funny and terrifying.", 9, "2023-01-05T09:30:00Z")]

  function Parasite(): (d: DetailedMovie)
    ensures d.id == "m4"
    ensures d.genres == [Drama, Thriller]
  {
    DetailedMovie(
      "m4", "Parasite",
      [Drama, Thriller],
      Person("Bong", "Joon-ho"),
      [Person("Song", "Kang-ho"), Person("Choi", "Woo-shik")],
      ParasiteSynopsis,
      "2019-05-30", "Korean",
      Some(RatingSummary(8.6, 1800)),
      ParasiteReviews,
      None)
  }

  const GrandBudapestHotelSynopsis := "A hotel concierge teams up with a lobby boy to prove his innocence after being framed for murder."

  const GrandBudapestHotelReviews: seq<EmbeddedReview> := [Review("gustave", "Stylish, whimsical, and full of heart.", 8, "2021-08-19T20:15:00Z")]

  function GrandBudapestHotel(): (d: DetailedMovie)
    ensures d.id == "m5"
    ensures d.genres == [Comedy, Drama]
  {
    DetailedMovie(
      "m5", "The Grand Budapest Hotel",
      [Comedy, Drama],
      Person("Wes", "Anderson"),
      [Person("Ralph", "Fiennes"), Person("Tony", "Revolori")],
      GrandBudapestHotelSynopsis,
      "2014-03-07", "English",
      Some(RatingSummary(8.1, 1600)),
      GrandBudapestHotelReviews,
      None)
  }

  /** The catalogue's own entry for `id`, if any. */
  function CatalogueEntry(id: string): (r: Option<DetailedMovie>)
    ensures r.Some? <==> id in CatalogueIds
    ensures r.Some? ==> r.value.id == id
  {
    if id == "m1" then Some(Inception())
    else if id == "m2" then Some(Matrix())
    else if id == "m3" then Some(SpiritedAway())
    else if id == "m4" then Some(Parasite())
    else if id == "m5" then Some(GrandBudapestHotel())
    else None
  }

  /** The placeholder served for an id the catalogue does not hold. */
  function UnknownMovie(id: string): (d: DetailedMovie)
    ensures d.id == id && d.title == "Unknown Movie"
    ensures d.genres == [] && d.casts == [] && d.reviews == []
    ensures d.director == Person("Unknown", "Director") && d.synopsis == "No synopsis available."
    ensures d.releaseDate == "" && d.language == ""
    ensures d.rating == Some(RatingSummary(0.0, 0)) && d.posterUrl.None?
  {
    DetailedMovie(
      id, "Unknown Movie", [], Person("Unknown", "Director"), [],
      "No synopsis available.", "", "",
      Some(RatingSummary(0.0, 0)), [], None)
  }

  /**
   * `mockDetailedMovie(id)`, reading only the catalogue's own keys: the
   * catalogue movie, or the placeholder carrying the requested id.
   */
  function MockDetailedMovie(id: string): (d: DetailedMovie)
    ensures d.id == id
    ensures id in CatalogueIds ==> Some(d) == CatalogueEntry(id)
    ensures id !in CatalogueIds ==> d == UnknownMovie(id)
  {
    match CatalogueEntry(id)
    case Some(m) => m
    case None => UnknownMovie(id)
  }

  /** What a property read on an object literal yields: an own value or a member inherited from `Object.prototype`. */
  datatype Lookup<T> = Own(value: T) | Inherited(name: string) | Missing

  /** `record[k]` on an object literal whose own entries are read by `own`. */
  function LiteralLookup<T>(own: Option<T>, k: string): (r: Lookup<T>)
    ensures r.Own? <==> own.Some?
    ensures r.Own? ==> r.value == own.value
    ensures r.Inherited? <==> own.None? && k in ObjectPrototypeKeys
  {
    if own.Some? then Own(own.value) else if k in ObjectPrototypeKeys then Inherited(k) else Missing
  }

  /** What `movies[id] || fallback` returns as written: a movie, or an inherited `Object.prototype` member. */
  function MockDetailedMovieAsWritten(id: string): (r: Lookup<DetailedMovie>)
    ensures r.Own? ==> r.value == MockDetailedMovie(id)
    ensures r.Inherited? <==> id !in CatalogueIds && id in ObjectPrototypeKeys
    ensures !r.Missing?
  {
    match LiteralLookup(CatalogueEntry(id), id)
    case Own(d) => Own(d)
    case Inherited(name) => Inherited(name)
    case Missing => Own(UnknownMovie(id))
  }

  /** The id "toString" reaches `Object.prototype.toString` instead of the placeholder movie. */
  lemma AsWrittenServesInheritedMember()
    ensures MockDetailedMovieAsWritten("toString") == Inherited("toString")
    ensures MockDetailedMovie("toString") == UnknownMovie("toString")
  {
  }

  /** For every id outside `Object.prototype`'s member names the corrected lookup agrees with the code as written. */
  lemma CorrectedAgreesElsewhere(id: string)
    requires id !in ObjectPrototypeKeys
    ensures MockDetailedMovieAsWritten(id) == Own(MockDetailedMovie(id))
  {
  }

  /** `mockDetailedMovies`: the catalogue in id order, no placeholder among them. */
  function MockDetailedMovies(): (ms: seq<DetailedMovie>)
    ensures |ms| == |CatalogueIds|
    ensures forall i :: 0 <= i < |ms| ==> Some(ms[i]) == CatalogueEntry(CatalogueIds[i])
  {
    seq(|CatalogueIds|, i requires 0 <= i < |CatalogueIds| => MockDetailedMovie(CatalogueIds[i]))
  }

  /** Every catalogue genre is a catalogue entry, not a fallback. */
  lemma CatalogueGenresResolve(id: string)
    requires id in CatalogueIds
    ensures forall g :: g in MockDetailedMovie(id).genres ==> g in MockGenres
  {
  }

  /** Every movie the genre index lists under a genre carries that genre. */
  lemma GenreIndexSound(k: string, id: string)
    requires k in MockMovieIdsByGenre && id in MockMovieIdsByGenre[k]
    ensures id in CatalogueIds
    ensures exists g :: g in MockDetailedMovie(id).genres && g.id == k
  {
    var gs := MockDetailedMovie(id).genres;
    assert gs[0] in gs && gs[1] in gs;
  }

  /** Every genre a catalogue movie carries lists that movie in the genre index. */
  lemma GenreIndexComplete(id: string, g: Genre)
    requires id in CatalogueIds && g in MockDetailedMovie(id).genres
    ensures g.id in MockMovieIdsByGenre && id in MockMovieIdsByGenre[g.id]
  {
  }

  /** Letters and hyphens only, as every catalogue genre name is. */
  predicate AsciiWord(s: string) {
    forall i :: 0 <= i < |s| ==> 'A' <= s[i] <= 'Z' || 'a' <= s[i] <= 'z' || s[i] == '-'
  }

  lemma AsciiWordNoSpace(s: string)
    requires AsciiWord(s)
    ensures NoSpace(s)
  {
  }

  /** A letters-and-hyphens name whose lower-casing is `id` slugs to `id`. */
  lemma WordSlug(name: string, id: string)
    requires AsciiWord(name) && ToLower(name) == id
    ensures GenreSlug(name) == id
  {
    AsciiWordNoSpace(name);
  }

  /** A catalogue genre's name is a letters-and-hyphens word whose lower-casing is its id. */
  predicate WordWithId(g: Genre) {
    AsciiWord(g.name) && ToLower(g.name) == g.id
  }

  /*
   * One lemma per genre: the literal facts of several genres in one proof
   * make the solver's work grow far beyond the sum of the parts.
   */
  lemma SciFiWordWithId()
    ensures WordWithId(SciFi)
  {
  }

  lemma ThrillerWordWithId()
    ensures WordWithId(Thriller)
  {
  }

  lemma ActionWordWithId()
    ensures WordWithId(Action)
  {
  }

  lemma AnimationWordWithId()
    ensures WordWithId(Animation)
  {
  }

  lemma FantasyWordWithId()
    ensures WordWithId(Fantasy)
  {
  }

  lemma DramaWordWithId()
    ensures WordWithId(Drama)
  {
  }

  lemma ComedyWordWithId()
    ensures WordWithId(Comedy)
  {
  }

  /** Each catalogue genre, by position, is such a word. */
  lemma CatalogueNamesLowerToIds(k: nat)
    requires k < |MockGenres|
    ensures WordWithId(MockGenres[k])
  {
    if k == 0 {
      SciFiWordWithId();
    } else if k == 1 {
      ThrillerWordWithId();
    } else if k == 2 {
      ActionWordWithId();
    } else if k == 3 {
      AnimationWordWithId();
    } else if k == 4 {
      FantasyWordWithId();
    } else if k == 5 {
      DramaWordWithId();
    } else {
      ComedyWordWithId();
    }
  }

  /** The catalogue's genre ids are the slugs the backend mapper derives from the names. */
  lemma CatalogueIdsAreSlugs(k: nat)
    requires k < |MockGenres|
    ensures GenreSlug(MockGenres[k].name) == MockGenres[k].id
  {
    CatalogueNamesLowerToIds(k);
    WordSlug(MockGenres[k].name, MockGenres[k].id);
  }

  /** `mockDetailedMovies` holds five movies with the distinct ids m1 to m5. */
  lemma MockDetailedMoviesIds()
    ensures forall i :: 0 <= i < |MockDetailedMovies()| ==> MockDetailedMovies()[i].id == CatalogueIds[i]
    ensures forall i, j :: 0 <= i < j < |MockDetailedMovies()| ==> MockDetailedMovies()[i].id != MockDetailedMovies()[j].id
  {
    var ms := MockDetailedMovies();
    forall i | 0 <= i < |ms|
      ensures ms[i].id == CatalogueIds[i]
    {
      assert Some(ms[i]) == CatalogueEntry(CatalogueIds[i]);
    }
  }
}

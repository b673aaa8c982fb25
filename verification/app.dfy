/** The request handlers of app.js, each lifted into a pure function from the
    in-memory collection and the request to the next collection and the
    response. The collection is the module-level `movies` array; the handlers
    only ever read it, append to it, or replace one element in place.

    Outside the model: Express routing and body parsing, the port, logging
    and response headers. The id a create assigns is a parameter (the source
    draws a random UUID); the locale-aware lower-casing used by the genre
    filter is the `lower` parameter; URL well-formedness is `isUrl`. */
module App {
  import opened Wrappers
  import opened JsonValue
  import opened MovieSchema

  // ----------------------------------------------------------------------
  // Origin allow-list

  const AcceptedOrigins: seq<string> :=
    ["http://localhost:22522", "http://localhost:8080", "http://localhost:3000"]

  /** JavaScript truthiness of the `Origin` header: `undefined` and the empty
      string are falsy. */
  predicate Truthy(origin: Option<string>) {
    origin.Some? && origin.value != ""
  }

  /** `ACCEPTED_ORIGINS.includes(origin)`; `undefined` is never included. */
  predicate Included(origin: Option<string>) {
    origin.Some? && origin.value in AcceptedOrigins
  }

  /** The gate `!ACCEPTED_ORIGINS.includes(origin) && origin` that answers 403. */
  predicate OriginRejected(origin: Option<string>): (r: bool)
    ensures r ==> origin.Some? && origin.value != "" && origin.value !in AcceptedOrigins
    ensures !r ==> origin.None? || origin.value == "" || origin.value in AcceptedOrigins
  {
    !Included(origin) && Truthy(origin)
  }

  // ----------------------------------------------------------------------
  // Stored records

  /** A stored movie: an id plus the fields of a validated record. */
  datatype Movie = Movie(
    id: string,
    title: string,
    year: int,
    director: string,
    duration: real,
    poster: string,
    genre: seq<Tag>,
    rate: real)

  /** The record without its id. */
  function DataOf(m: Movie): MovieData {
    MovieData(m.title, m.year, m.director, m.duration, m.poster, m.genre, m.rate)
  }

  /** `{ id, ...data }`: the record a create stores. */
  function WithId(id: string, d: MovieData): (m: Movie)
    ensures m.id == id && DataOf(m) == d
  {
    Movie(id, d.title, d.year, d.director, d.duration, d.poster, d.genre, d.rate)
  }

  /** `{ ...movie, ...data }`: every field present in `p` overrides the
      stored one. The schema has no `id` key, so the id is never overridden. */
  function Merge(m: Movie, p: PartialMovie): (r: Movie)
    ensures r.id == m.id
    ensures r.title == (if p.title.Some? then p.title.value else m.title)
    ensures r.year == (if p.year.Some? then p.year.value else m.year)
    ensures r.director == (if p.director.Some? then p.director.value else m.director)
    ensures r.duration == (if p.duration.Some? then p.duration.value else m.duration)
    ensures r.poster == (if p.poster.Some? then p.poster.value else m.poster)
    ensures r.genre == (if p.genre.Some? then p.genre.value else m.genre)
    ensures r.rate == (if p.rate.Some? then p.rate.value else m.rate)
  {
    Movie(
      m.id,
      p.title.GetOr(m.title),
      p.year.GetOr(m.year),
      p.director.GetOr(m.director),
      p.duration.GetOr(m.duration),
      p.poster.GetOr(m.poster),
      p.genre.GetOr(m.genre),
      p.rate.GetOr(m.rate))
  }

  const IdKey: string := "id"

  /** A stored movie as the JSON object the service sends. */
  function EncodeMovie(m: Movie): map<string, Json> {
    EncodeData(DataOf(m))[IdKey := JStr(m.id)]
  }

  // ----------------------------------------------------------------------
  // The collection

  predicate HasId(s: seq<Movie>, id: string) {
    exists i :: 0 <= i < |s| && s[i].id == id
  }

  predicate UniqueIds(s: seq<Movie>) {
    forall i, j :: 0 <= i < j < |s| ==> s[i].id != s[j].id
  }

  /** What every collection the service keeps satisfies: unique ids, and every
      record within the schema's bounds. */
  predicate ValidStore(s: seq<Movie>, isUrl: string -> bool) {
    && UniqueIds(s)
    && forall i :: 0 <= i < |s| ==> ValidData(DataOf(s[i]), isUrl)
  }

  /** `movies.findIndex(m => m.id === id)`, with `None` for -1. */
  function FindIndex(s: seq<Movie>, id: string): (r: Option<nat>)
    ensures r.Some? ==> r.value < |s| && s[r.value].id == id
    ensures r.Some? ==> forall j :: 0 <= j < r.value ==> s[j].id != id
    ensures r.None? <==> !HasId(s, id)
  {
    if s == [] then None
    else if s[0].id == id then Some(0)
    else
      match FindIndex(s[1..], id)
      case None =>
        assert forall j :: 1 <= j < |s| ==> s[j] == s[1..][j - 1];
        None
      case Some(k) => Some(k + 1)
  }

  /** Whether movie `m` has a tag equal to `g` once both are lower-cased. */
  predicate HasGenre(m: Movie, g: string, lower: string -> string) {
    exists k :: 0 <= k < |m.genre| && lower(TagName(m.genre[k])) == lower(g)
  }

  /** `r` is `s` with some elements left out, the rest in their order. */
  predicate IsSubsequence<T(==)>(r: seq<T>, s: seq<T>)
    decreases |s|
  {
    if r == [] then true
    else if s == [] then false
    else if r[0] == s[0] then IsSubsequence(r[1..], s[1..])
    else IsSubsequence(r, s[1..])
  }

  /** Every sequence is a subsequence of itself. */
  lemma {:induction false} SubsequenceReflexive<T>(s: seq<T>)
    ensures IsSubsequence(s, s)
    decreases |s|
  {
    if s != [] {
      SubsequenceReflexive(s[1..]);
    }
  }

  /** `movies.filter(m => m.genre.some(...))`. */
  function FilterByGenre(s: seq<Movie>, g: string, lower: string -> string): (r: seq<Movie>)
    ensures |r| <= |s|
  {
    if s == [] then []
    else
      var rest := FilterByGenre(s[1..], g, lower);
      if HasGenre(s[0], g, lower) then [s[0]] + rest else rest
  }

  /** The filter keeps exactly the movies of `s` that have the genre. */
  lemma {:induction false} FilterMembers(s: seq<Movie>, g: string, lower: string -> string)
    ensures forall m :: m in FilterByGenre(s, g, lower) <==> m in s && HasGenre(m, g, lower)
    decreases |s|
  {
    if s != [] {
      FilterMembers(s[1..], g, lower);
      assert forall m :: m in s <==> m == s[0] || m in s[1..];
    }
  }

  /** The filter keeps the stored order. */
  lemma {:induction false} FilterIsSubsequence(s: seq<Movie>, g: string, lower: string -> string)
    ensures IsSubsequence(FilterByGenre(s, g, lower), s)
    decreases |s|
  {
    if s != [] {
      FilterIsSubsequence(s[1..], g, lower);
      var rest := FilterByGenre(s[1..], g, lower);
      if !HasGenre(s[0], g, lower) && rest != [] {
        FilterMembers(s[1..], g, lower);
        assert rest[0] in rest;
      }
    }
  }

  // ----------------------------------------------------------------------
  // Responses

  datatype Response =
    | Greeting                          // 200, 'Hello World'
    | Preflight                         // 200, empty body
    | MovieList(movies: seq<Movie>)     // 200
    | MovieBody(movie: Movie)           // 200
    | CreatedMovie(movie: Movie)        // 201
    | ValidationFailed(issues: Issues)  // 400, { error: [...] }
    | OriginNotAllowed                  // 403, { message: 'Origin not allowed' }
    | MovieNotFound                     // 404, { message: 'Movie not found' }

  function Status(r: Response): int {
    match r
    case Greeting => 200
    case Preflight => 200
    case MovieList(_) => 200
    case MovieBody(_) => 200
    case CreatedMovie(_) => 201
    case ValidationFailed(_) => 400
    case OriginNotAllowed => 403
    case MovieNotFound => 404
  }

  /** The collection after a request, and the response. */
  datatype Handled = Handled(store: seq<Movie>, response: Response)

  // ----------------------------------------------------------------------
  // Handlers

  /** `GET /`. */
  function GetRoot(origin: Option<string>): (r: Response)
    ensures Status(r) == 403 <==> OriginRejected(origin)
    ensures Status(r) == 200 <==> !OriginRejected(origin)
  {
    if OriginRejected(origin) then OriginNotAllowed else Greeting
  }

  /** `OPTIONS /movies/:id`. */
  function PreflightMovie(origin: Option<string>): (r: Response)
    ensures Status(r) == 403 <==> OriginRejected(origin)
    ensures Status(r) == 200 <==> !OriginRejected(origin)
  {
    if OriginRejected(origin) then OriginNotAllowed else Preflight
  }

  /** `GET /movies?genre=…`: no origin check; an absent or empty `genre`
      lists the whole collection. */
  function ListMovies(store: seq<Movie>, genre: Option<string>, lower: string -> string): (h: Handled)
    ensures h.store == store
    ensures h.response.MovieList? && IsSubsequence(h.response.movies, store)
    ensures Truthy(genre) ==>
      forall m :: m in h.response.movies <==> m in store && HasGenre(m, genre.value, lower)
  {
    if Truthy(genre) then
      FilterMembers(store, genre.value, lower);
      FilterIsSubsequence(store, genre.value, lower);
      Handled(store, MovieList(FilterByGenre(store, genre.value, lower)))
    else
      SubsequenceReflexive(store);
      Handled(store, MovieList(store))
  }

  /** `GET /movies/:id`: the first movie with that id, or 404. */
  function GetMovie(store: seq<Movie>, id: string): (h: Handled)
    ensures h.store == store
    ensures h.response == MovieNotFound <==> !HasId(store, id)
    ensures h.response != MovieNotFound ==> h.response.MovieBody? && h.response.movie.id == id && h.response.movie in store
  {
    match FindIndex(store, id)
    case None => Handled(store, MovieNotFound)
    case Some(i) => Handled(store, MovieBody(store[i]))
  }

  /** `POST /movies`: full validation, then `{ id: freshId, ...data }` pushed
      onto the end of the collection. */
  function PostMovie(store: seq<Movie>, body: Json, freshId: string, isUrl: string -> bool): (h: Handled)
    ensures ValidateFull(body, isUrl).Failure? <==> h.store == store
    ensures ValidateFull(body, isUrl).Failure? <==> Status(h.response) == 400
    ensures ValidateFull(body, isUrl).Success? ==> h.response.CreatedMovie?
    ensures Status(h.response) == 201 ==>
      && |h.store| == |store| + 1
      && h.store[..|store|] == store
      && h.response == CreatedMovie(h.store[|store|])
      && h.store[|store|].id == freshId
      && DataOf(h.store[|store|]) == ValidateFull(body, isUrl).value
  {
    match ValidateFull(body, isUrl)
    case Failure(e) => Handled(store, ValidationFailed(e))
    case Success(d) =>
      var m := WithId(freshId, d);
      assert (store + [m])[..|store|] == store;
      Handled(store + [m], CreatedMovie(m))
  }

  /** `PATCH /movies/:id`: the origin gate, then partial validation, then the
      lookup; the merged record replaces the old one at its index. */
  function PatchMovie(store: seq<Movie>, origin: Option<string>, id: string, body: Json, isUrl: string -> bool): (h: Handled)
    ensures |h.store| == |store|
    ensures h.response.MovieBody? || h.store == store
    ensures h.response.MovieBody? ==> h.response.movie.id == id && h.response.movie in h.store
  {
    if OriginRejected(origin) then Handled(store, OriginNotAllowed)
    else
      match ValidatePartial(body, isUrl)
      case Failure(e) => Handled(store, ValidationFailed(e))
      case Success(p) =>
        match FindIndex(store, id)
        case None => Handled(store, MovieNotFound)
        case Some(i) =>
          var updated := Merge(store[i], p);
          assert store[i := updated][i] == updated;
          Handled(store[i := updated], MovieBody(updated))
  }
}

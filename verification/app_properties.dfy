/** What the handlers of app.js promise about the collection: the origin
    gate, the genre filter, lookup, append on create, merge in place on
    update, the order of the update's checks, and the invariant every
    collection keeps. */
module AppProperties {
  import opened Wrappers
  import opened JsonValue
  import opened MovieSchema
  import opened MovieSchemaProperties
  import opened App

  // ----------------------------------------------------------------------
  // Origin gate

  /** A request is refused exactly when it names an origin that is neither
      empty nor one of the three listed. */
  lemma OriginGate(origin: Option<string>)
    ensures OriginRejected(origin) <==>
      && origin.Some?
      && origin.value != ""
      && origin.value != "http://localhost:22522"
      && origin.value != "http://localhost:8080"
      && origin.value != "http://localhost:3000"
    ensures !OriginRejected(None) && !OriginRejected(Some(""))
  {
  }

  // ----------------------------------------------------------------------
  // Listing

  /** Without a genre, or with an empty one, the listing is the whole
      collection in its stored order. */
  lemma ListWithoutGenre(store: seq<Movie>, genre: Option<string>, lower: string -> string)
    requires genre.None? || genre.value == ""
    ensures ListMovies(store, genre, lower) == Handled(store, MovieList(store))
  {
  }

  /** Filtering a collection with a first movie `x`: `x` if it matches,
      then the filtered rest. */
  lemma FilterCons(x: Movie, s: seq<Movie>, g: string, lower: string -> string)
    ensures FilterByGenre([x] + s, g, lower)
      == (if HasGenre(x, g, lower) then [x] else []) + FilterByGenre(s, g, lower)
  {
    assert ([x] + s)[0] == x && ([x] + s)[1..] == s;
  }

  /** The filter keeps each movie on its own merits: filtering a
      concatenation is concatenating the filtered parts. */
  lemma {:induction false} FilterAppend(a: seq<Movie>, b: seq<Movie>, g: string, lower: string -> string)
    ensures FilterByGenre(a + b, g, lower) == FilterByGenre(a, g, lower) + FilterByGenre(b, g, lower)
    decreases |a|
  {
    if a == [] {
      assert a + b == b;
    } else {
      var head := if HasGenre(a[0], g, lower) then [a[0]] else [];
      FilterAppend(a[1..], b, g, lower);
      assert a == [a[0]] + a[1..];
      assert a + b == [a[0]] + (a[1..] + b);
      FilterCons(a[0], a[1..], g, lower);
      FilterCons(a[0], a[1..] + b, g, lower);
      assert head + (FilterByGenre(a[1..], g, lower) + FilterByGenre(b, g, lower))
          == (head + FilterByGenre(a[1..], g, lower)) + FilterByGenre(b, g, lower);
    }
  }

  /** Filtering keeps exactly the matching movies, in stored order: a
      single movie is kept iff it matches, and a collection is filtered
      piecewise. */
  lemma FilterIsPiecewise(s: seq<Movie>, g: string, lower: string -> string)
    ensures forall m: Movie :: FilterByGenre([m], g, lower) == if HasGenre(m, g, lower) then [m] else []
    ensures forall i :: 0 <= i <= |s| ==>
      FilterByGenre(s, g, lower) == FilterByGenre(s[..i], g, lower) + FilterByGenre(s[i..], g, lower)
  {
    forall i | 0 <= i <= |s|
      ensures FilterByGenre(s, g, lower) == FilterByGenre(s[..i], g, lower) + FilterByGenre(s[i..], g, lower)
    {
      assert s == s[..i] + s[i..];
      FilterAppend(s[..i], s[i..], g, lower);
    }
  }

  /** Filtering twice by the same genre is filtering once. */
  lemma {:induction false} FilterIdempotent(s: seq<Movie>, g: string, lower: string -> string)
    ensures FilterByGenre(FilterByGenre(s, g, lower), g, lower) == FilterByGenre(s, g, lower)
    decreases |s|
  {
    if s != [] {
      FilterIdempotent(s[1..], g, lower);
      var rest := FilterByGenre(s[1..], g, lower);
      if HasGenre(s[0], g, lower) {
        assert ([s[0]] + rest)[1..] == rest;
      }
    }
  }

  /** When every movie matches, the filter returns the whole collection. */
  lemma {:induction false} FilterKeepsAllMatching(s: seq<Movie>, g: string, lower: string -> string)
    requires forall i :: 0 <= i < |s| ==> HasGenre(s[i], g, lower)
    ensures FilterByGenre(s, g, lower) == s
    decreases |s|
  {
    if s != [] {
      FilterKeepsAllMatching(s[1..], g, lower);
      assert s == [s[0]] + s[1..];
    }
  }

  // ----------------------------------------------------------------------
  // Lookup

  /** Get-by-id answers with the first movie carrying the id. */
  lemma GetFindsFirst(store: seq<Movie>, id: string, i: int)
    requires 0 <= i < |store| && store[i].id == id
    requires forall j :: 0 <= j < i ==> store[j].id != id
    ensures GetMovie(store, id) == Handled(store, MovieBody(store[i]))
  {
    var r := FindIndex(store, id);
    assert r.Some?;
    assert r.value == i;
  }

  // ----------------------------------------------------------------------
  // Create

  lemma IdKeyOutsideSchema()
    ensures IdKey !in SchemaKeys
  {
  }

  /** `{ id, ...data }` as JSON: the id next to exactly the validated fields. */
  lemma CreateIsSpread(id: string, d: MovieData)
    ensures EncodeMovie(WithId(id, d)) == map[IdKey := JStr(id)] + EncodeData(d)
  {
    IdKeyOutsideSchema();
    EncodeDataFields(d);
    var l := EncodeMovie(WithId(id, d));
    var r := map[IdKey := JStr(id)] + EncodeData(d);
    assert l.Keys == r.Keys;
    forall k | k in l ensures l[k] == r[k] {
      if k != IdKey {
        assert k in EncodeData(d);
      }
    }
  }

  /** A valid body appends exactly one record, `{ id: freshId, ...data }`,
      at the end; every earlier record stays where it was. */
  lemma CreateAppends(store: seq<Movie>, body: Json, freshId: string, isUrl: string -> bool)
    requires ValidateFull(body, isUrl).Success?
    ensures var h := PostMovie(store, body, freshId, isUrl);
      && h.store == store + [h.store[|store|]]
      && h.response == CreatedMovie(h.store[|store|])
      && EncodeMovie(h.store[|store|]) == map[IdKey := JStr(freshId)] + EncodeData(ValidateFull(body, isUrl).value)
  {
    var d := ValidateFull(body, isUrl).value;
    CreateIsSpread(freshId, d);
  }

  /** An invalid body answers 400 with the issues and leaves the collection
      as it was. */
  lemma CreateRejects(store: seq<Movie>, body: Json, freshId: string, isUrl: string -> bool)
    requires ValidateFull(body, isUrl).Failure?
    ensures PostMovie(store, body, freshId, isUrl) == Handled(store, ValidationFailed(ValidateFull(body, isUrl).error))
  {
  }

  /** With an id not already in use, the created movie is the one a later
      get-by-id finds. */
  lemma CreateThenGet(store: seq<Movie>, body: Json, freshId: string, isUrl: string -> bool)
    requires ValidateFull(body, isUrl).Success? && !HasId(store, freshId)
    ensures var h := PostMovie(store, body, freshId, isUrl);
      h.response.CreatedMovie? && GetMovie(h.store, freshId).response == MovieBody(h.response.movie)
  {
    var h := PostMovie(store, body, freshId, isUrl);
    GetFindsFirst(h.store, freshId, |store|);
  }

  /** With an id not already in use, a create keeps every collection
      invariant. */
  lemma CreatePreservesValidStore(store: seq<Movie>, body: Json, freshId: string, isUrl: string -> bool)
    requires ValidStore(store, isUrl) && !HasId(store, freshId)
    ensures ValidStore(PostMovie(store, body, freshId, isUrl).store, isUrl)
  {
    var h := PostMovie(store, body, freshId, isUrl);
    if ValidateFull(body, isUrl).Success? {
      var s := h.store;
      forall i, j | 0 <= i < j < |s| ensures s[i].id != s[j].id {
        if j == |store| {
          assert s[i] == store[i];
        } else {
          assert s[i] == store[i] && s[j] == store[j];
        }
      }
      forall i | 0 <= i < |s| ensures ValidData(DataOf(s[i]), isUrl) {
        if i < |store| {
          assert s[i] == store[i];
        }
      }
    }
  }

  // ----------------------------------------------------------------------
  // Update

  /** One schema field of a merged record: the value `p` gives if present,
      the stored one otherwise. */
  lemma MergeFieldIsSpread(m: Movie, p: PartialMovie, f: Field)
    ensures var l := EncodeData(DataOf(Merge(m, p)));
      var r := EncodeData(DataOf(m)) + EncodePartial(p);
      Key(f) in l && Key(f) in r && l[Key(f)] == r[Key(f)]
  {
    EncodeDataFields(DataOf(m));
    EncodeDataFields(DataOf(Merge(m, p)));
    EncodePartialFields(p);
    match f
    case Title => case Year => case Director => case Duration =>
    case Poster => case Genre => case Rate =>
  }

  /** The schema fields of a merged record: each present field of `p`
      laid over the stored ones. */
  lemma MergeDataIsSpread(m: Movie, p: PartialMovie)
    ensures EncodeData(DataOf(Merge(m, p))) == EncodeData(DataOf(m)) + EncodePartial(p)
  {
    var l := EncodeData(DataOf(Merge(m, p)));
    var r := EncodeData(DataOf(m)) + EncodePartial(p);
    EncodeDataFields(DataOf(m));
    EncodeDataFields(DataOf(Merge(m, p)));
    EncodePartialFields(p);
    forall f: Field ensures Lookup(l, f) == Lookup(r, f) {
      MergeFieldIsSpread(m, p, f);
    }
    SchemaMapsEqual(l, r);
  }

  /** Setting a key the right operand lacks commutes with the union. */
  lemma UpdateThenUnion(a: map<string, Json>, b: map<string, Json>, k: string, v: Json)
    requires k !in b
    ensures (a + b)[k := v] == a[k := v] + b
  {
  }

  /** `{ ...movie, ...data }` as JSON: the stored object with each present
      validated field laid over it; the id is never overridden. */
  lemma MergeIsSpread(m: Movie, p: PartialMovie)
    ensures EncodeMovie(Merge(m, p)) == EncodeMovie(m) + EncodePartial(p)
  {
    IdKeyOutsideSchema();
    EncodePartialFields(p);
    MergeDataIsSpread(m, p);
    UpdateThenUnion(EncodeData(DataOf(m)), EncodePartial(p), IdKey, JStr(m.id));
  }

  /** The update's checks run in a fixed order: origin (403), then the body
      (400), then the id (404); each refusal leaves the collection as it was. */
  lemma PatchCheckOrder(store: seq<Movie>, origin: Option<string>, id: string, body: Json, isUrl: string -> bool)
    ensures OriginRejected(origin) ==>
      PatchMovie(store, origin, id, body, isUrl) == Handled(store, OriginNotAllowed)
    ensures !OriginRejected(origin) && ValidatePartial(body, isUrl).Failure? ==>
      PatchMovie(store, origin, id, body, isUrl) == Handled(store, ValidationFailed(ValidatePartial(body, isUrl).error))
    ensures !OriginRejected(origin) && ValidatePartial(body, isUrl).Success? && !HasId(store, id) ==>
      PatchMovie(store, origin, id, body, isUrl) == Handled(store, MovieNotFound)
    ensures Status(PatchMovie(store, origin, id, body, isUrl).response) in {200, 400, 403, 404}
  {
  }

  /** An update of the first movie with the id replaces that one record and
      nothing else: the length is kept, the id is kept, every present field
      is overridden, every absent one kept, and the answer is the stored
      record. */
  lemma PatchUpdatesInPlace(store: seq<Movie>, origin: Option<string>, id: string, body: Json,
                            isUrl: string -> bool, i: int)
    requires !OriginRejected(origin) && ValidatePartial(body, isUrl).Success?
    requires 0 <= i < |store| && store[i].id == id
    requires forall j :: 0 <= j < i ==> store[j].id != id
    ensures var h := PatchMovie(store, origin, id, body, isUrl);
      && |h.store| == |store|
      && (forall j :: 0 <= j < |store| && j != i ==> h.store[j] == store[j])
      && h.store[i].id == store[i].id
      && EncodeMovie(h.store[i]) == EncodeMovie(store[i]) + EncodePartial(ValidatePartial(body, isUrl).value)
      && h.response == MovieBody(h.store[i])
  {
    var p := ValidatePartial(body, isUrl).value;
    GetFindsFirst(store, id, i);
    MergeIsSpread(store[i], p);
  }

  /** An update keeps every collection invariant. */
  lemma PatchPreservesValidStore(store: seq<Movie>, origin: Option<string>, id: string, body: Json, isUrl: string -> bool)
    requires ValidStore(store, isUrl)
    ensures ValidStore(PatchMovie(store, origin, id, body, isUrl).store, isUrl)
  {
    var h := PatchMovie(store, origin, id, body, isUrl);
    if h.store != store {
      var p := ValidatePartial(body, isUrl).value;
      var i := FindIndex(store, id).value;
      assert h.store == store[i := Merge(store[i], p)];
      forall j | 0 <= j < |h.store| ensures ValidData(DataOf(h.store[j]), isUrl) {
        if j != i {
          assert h.store[j] == store[j];
        }
      }
    }
  }

  // ----------------------------------------------------------------------
  // An end-to-end scenario

  /** The example create body: every field but the rate. */
  const DuneBody: Json := JObj(map[
    Key(Title) := JStr("Dune"),
    Key(Year) := JNum(2021.0),
    Key(Director) := JStr("Villeneuve"),
    Key(Duration) := JNum(155.0),
    Key(Poster) := JStr("http://x.com/p.jpg"),
    Key(Genre) := JArr([JStr("Sci-Fi")])])

  /** The example update body: a new rate only. */
  const RateOnly: Json := JObj(map[Key(Rate) := JNum(9.0)])

  const DuneData: MovieData :=
    MovieData("Dune", 2021, "Villeneuve", 155.0, "http://x.com/p.jpg", [SciFi], 0.0)

  /** The wire form of the one-tag list of the example. */
  lemma SciFiOnTheWire()
    ensures EncodeTags([SciFi]) == [JStr("Sci-Fi")]
  {
    var e := EncodeTags([SciFi]);
    assert |e| == 1 && e[0] == JStr(TagName(SciFi));
  }

  /** The example body passes full validation, its missing rate set to 0. */
  lemma DuneAccepted(isUrl: string -> bool)
    requires isUrl("http://x.com/p.jpg")
    ensures ValidateFull(DuneBody, isUrl) == Success(DuneData)
  {
    var o := DuneBody.fields;
    KeysDistinct();
    assert Key(Rate) !in o;
    AbsentRateIsDefault(o, isUrl);
    var o' := o[Key(Rate) := JNum(DefaultRate)];
    EncodeDataFields(DuneData);
    SciFiOnTheWire();
    assert o'.Keys <= SchemaKeys;
    forall f: Field ensures Lookup(o', f) == Lookup(EncodeData(DuneData), f) {
      match f
      case Title => case Year => case Director => case Duration =>
      case Poster => case Genre => case Rate =>
    }
    SchemaMapsEqual(o', EncodeData(DuneData));
    FullRoundTrip(DuneData, isUrl);
  }

  /** A body holding only a rate passes partial validation and changes only
      the rate. */
  lemma RateOnlyAccepted(isUrl: string -> bool)
    ensures ValidatePartial(RateOnly, isUrl) == Success(NoChange.(rate := Some(9.0)))
  {
    var p := NoChange.(rate := Some(9.0));
    PartialRoundTrip(p, isUrl);
    KeysDistinct();
    EncodePartialFields(p);
    SchemaMapsEqual(EncodePartial(p), RateOnly.fields);
  }

  /** Create a movie without a rate, read it back, change its rate, and look
      up an id that does not exist. */
  lemma DuneScenario(store: seq<Movie>, freshId: string, isUrl: string -> bool)
    requires isUrl("http://x.com/p.jpg")
    requires !HasId(store, freshId) && !HasId(store, "nonexistent-id") && freshId != "nonexistent-id"
    ensures var dune := Movie(freshId, "Dune", 2021, "Villeneuve", 155.0, "http://x.com/p.jpg", [SciFi], 0.0);
      var created := PostMovie(store, DuneBody, freshId, isUrl);
      var patched := PatchMovie(created.store, None, freshId, RateOnly, isUrl);
      && created.response == CreatedMovie(dune)
      && Status(created.response) == 201
      && GetMovie(created.store, freshId).response == MovieBody(dune)
      && patched.response == MovieBody(dune.(rate := 9.0))
      && GetMovie(patched.store, "nonexistent-id").response == MovieNotFound
  {
    DuneAccepted(isUrl);
    RateOnlyAccepted(isUrl);
    var dune := WithId(freshId, DuneData);
    var created := PostMovie(store, DuneBody, freshId, isUrl);
    assert created.store == store + [dune];
    CreateThenGet(store, DuneBody, freshId, isUrl);
    GetFindsFirst(created.store, freshId, |store|);
    var patched := PatchMovie(created.store, None, freshId, RateOnly, isUrl);
    assert patched.store == created.store[|store| := Merge(dune, NoChange.(rate := Some(9.0)))];
    assert !HasId(patched.store, "nonexistent-id") by {
      forall j | 0 <= j < |patched.store| ensures patched.store[j].id != "nonexistent-id" {
        if j < |store| {
          assert patched.store[j] == store[j];
        }
      }
    }
  }
}

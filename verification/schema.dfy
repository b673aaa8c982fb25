/** The movie schema of Schemas/movie.js: one table of field rules, applied in
    full mode (`validateMovie`: six fields required, `rate` defaults to 0) and in
    partial mode (`validatePartialMovie`: every field optional).

    The candidate is the parsed request body as loosely typed JSON. Validation
    follows the schema library's object semantics: a non-object body fails at
    the root; otherwise every field is checked, in declaration order, and all
    issues are collected; keys outside the schema are dropped from the result.
    Whether a string is a well-formed URL is left to the `isUrl` parameter. */
module MovieSchema {
  import opened Wrappers
  import opened JsonValue

  // ----------------------------------------------------------------------
  // Genre tags

  /** The eight tags of the genre enum, in declaration order. */
  datatype Tag = Action | Adventure | Comedy | Crime | Drama | Horror | Romance | SciFi

  /** The exact spelling of a tag in JSON. */
  function TagName(t: Tag): string {
    match t
    case Action => "Action"
    case Adventure => "Adventure"
    case Comedy => "Comedy"
    case Crime => "Crime"
    case Drama => "Drama"
    case Horror => "Horror"
    case Romance => "Romance"
    case SciFi => "Sci-Fi"
  }

  const AllTags: seq<Tag> := [Action, Adventure, Comedy, Crime, Drama, Horror, Romance, SciFi]

  lemma AllTagsListed()
    ensures forall t: Tag :: t in AllTags
  {
    forall t: Tag ensures t in AllTags {
      match t
      case Action => case Adventure => case Comedy => case Crime =>
      case Drama => case Horror => case Romance => case SciFi =>
    }
  }

  /** First tag of `tags` spelled exactly `s`. */
  function FindTag(s: string, tags: seq<Tag>): (r: Option<Tag>)
    ensures r.Some? ==> r.value in tags && TagName(r.value) == s
    ensures r.None? ==> forall t :: t in tags ==> TagName(t) != s
  {
    if tags == [] then None
    else if TagName(tags[0]) == s then Some(tags[0])
    else FindTag(s, tags[1..])
  }

  /** The enum's membership test: exact, case-sensitive match of a name. */
  function TagOf(s: string): (r: Option<Tag>)
    ensures r.Some? ==> TagName(r.value) == s
    ensures r.None? ==> forall t: Tag :: TagName(t) != s
  {
    AllTagsListed();
    FindTag(s, AllTags)
  }

  /** Each tag is found by its own name: names are pairwise distinct. */
  lemma TagOfName(t: Tag)
    ensures TagOf(TagName(t)) == Some(t)
  {
    match t
    case Action => case Adventure => case Comedy => case Crime =>
    case Drama => case Horror => case Romance => case SciFi =>
  }

  // ----------------------------------------------------------------------
  // Fields, issues and validated records

  /** The seven keys of the schema, in declaration order. */
  datatype Field = Title | Year | Director | Duration | Poster | Genre | Rate

  /** The JSON key of a field. */
  function Key(f: Field): string {
    match f
    case Title => "title"
    case Year => "year"
    case Director => "director"
    case Duration => "duration"
    case Poster => "poster"
    case Genre => "genre"
    case Rate => "rate"
  }

  /** The seven keys are pairwise distinct. */
  lemma KeysDistinct()
    ensures forall f: Field, g: Field :: Key(f) == Key(g) ==> f == g
  {
    forall f: Field, g: Field | Key(f) == Key(g) ensures f == g {
      match f
      case Title => case Year => case Director => case Duration =>
      case Poster => case Genre => case Rate =>
    }
  }

  const MinYear: int := 1900
  const MaxYear: int := 2100
  const MinRate: real := 0.0
  const MaxRate: real := 10.0
  const DefaultRate: real := 0.0

  /** Where an issue was found: the body itself, a field, or one element of
      the genre array. */
  datatype Path = Root | At(field: Field) | Item(field: Field, index: nat)

  /** The kinds of violation the schema can report. `Missing` is a required
      key that is absent; `InvalidType` a present value of the wrong JSON type
      (including `null`). */
  datatype IssueKind = Missing | InvalidType | NotInteger | TooSmall | TooBig | InvalidUrl | InvalidEnum

  datatype Issue = Issue(path: Path, kind: IssueKind)

  type Issues = seq<Issue>

  /** Whether an issue is about field `f` (the field or one of its elements). */
  predicate Concerns(i: Issue, f: Field) {
    !i.path.Root? && i.path.field == f
  }

  predicate AllConcern(issues: Issues, f: Field) {
    forall k :: 0 <= k < |issues| ==> Concerns(issues[k], f)
  }

  /** The two messages the title rule overrides; every other issue carries
      the schema library's default text, which the model does not spell. */
  function CustomMessage(i: Issue): Option<string> {
    if i == Issue(At(Title), Missing) then Some("Title is required")
    else if i == Issue(At(Title), InvalidType) then Some("Title must be a string")
    else None
  }

  /** A record that passed full validation (it has no `id`: the schema has
      no such key). */
  datatype MovieData = MovieData(
    title: string,
    year: int,
    director: string,
    duration: real,
    poster: string,
    genre: seq<Tag>,
    rate: real)

  /** A record that passed partial validation: `None` is an absent key. */
  datatype PartialMovie = PartialMovie(
    title: Option<string>,
    year: Option<int>,
    director: Option<string>,
    duration: Option<real>,
    poster: Option<string>,
    genre: Option<seq<Tag>>,
    rate: Option<real>)

  const NoChange: PartialMovie := PartialMovie(None, None, None, None, None, None, None)

  // ----------------------------------------------------------------------
  // The rule table, stated declaratively

  predicate IsInteger(x: real) {
    x.Floor as real == x
  }

  /** Whether a JSON value is one of the enum's tag names. */
  predicate IsTagJson(j: Json) {
    j.JStr? && exists t: Tag :: TagName(t) == j.s
  }

  /** Whether JSON value `j` satisfies the rule the schema declares for `f`. */
  predicate Conforms(f: Field, j: Json, isUrl: string -> bool) {
    match f
    case Title => j.JStr?
    case Year => j.JNum? && IsInteger(j.n) && MinYear as real <= j.n <= MaxYear as real
    case Director => j.JStr?
    case Duration => j.JNum? && j.n > 0.0
    case Poster => j.JStr? && isUrl(j.s)
    case Genre => j.JArr? && forall i :: 0 <= i < |j.items| ==> IsTagJson(j.items[i])
    case Rate => j.JNum? && MinRate <= j.n <= MaxRate
  }

  /** The bounds every validated record meets. */
  predicate ValidData(d: MovieData, isUrl: string -> bool) {
    && MinYear <= d.year <= MaxYear
    && d.duration > 0.0
    && isUrl(d.poster)
    && MinRate <= d.rate <= MaxRate
  }

  /** The bounds every present field of a validated partial record meets. */
  predicate ValidPartial(p: PartialMovie, isUrl: string -> bool) {
    && (p.year.Some? ==> MinYear <= p.year.value <= MaxYear)
    && (p.duration.Some? ==> p.duration.value > 0.0)
    && (p.poster.Some? ==> isUrl(p.poster.value))
    && (p.rate.Some? ==> MinRate <= p.rate.value <= MaxRate)
  }

  // ----------------------------------------------------------------------
  // Encoding validated records back to JSON

  function EncodeTags(tags: seq<Tag>): (r: seq<Json>)
    ensures |r| == |tags|
    ensures forall i :: 0 <= i < |tags| ==> r[i] == JStr(TagName(tags[i]))
  {
    if tags == [] then [] else EncodeTags(tags[..|tags| - 1]) + [JStr(TagName(tags[|tags| - 1]))]
  }

  /** The JSON object holding a validated record's fields. */
  function EncodeData(d: MovieData): map<string, Json> {
    map[
      Key(Title) := JStr(d.title),
      Key(Year) := JNum(d.year as real),
      Key(Director) := JStr(d.director),
      Key(Duration) := JNum(d.duration),
      Key(Poster) := JStr(d.poster),
      Key(Genre) := JArr(EncodeTags(d.genre)),
      Key(Rate) := JNum(d.rate)]
  }

  /** The object `m` with key `f` set when a value is given. */
  function Put(m: map<string, Json>, f: Field, v: Option<Json>): map<string, Json> {
    if v.Some? then m[Key(f) := v.value] else m
  }

  /** The JSON object holding exactly the present fields of a partial record. */
  function EncodePartial(p: PartialMovie): map<string, Json> {
    var m := map[];
    var m := Put(m, Title, if p.title.Some? then Some(JStr(p.title.value)) else None);
    var m := Put(m, Year, if p.year.Some? then Some(JNum(p.year.value as real)) else None);
    var m := Put(m, Director, if p.director.Some? then Some(JStr(p.director.value)) else None);
    var m := Put(m, Duration, if p.duration.Some? then Some(JNum(p.duration.value)) else None);
    var m := Put(m, Poster, if p.poster.Some? then Some(JStr(p.poster.value)) else None);
    var m := Put(m, Genre, if p.genre.Some? then Some(JArr(EncodeTags(p.genre.value))) else None);
    Put(m, Rate, if p.rate.Some? then Some(JNum(p.rate.value)) else None)
  }

  // ----------------------------------------------------------------------
  // The field rules as the schema library applies them

  /** `z.string()`: only a JSON string passes. */
  function ParseText(f: Field, j: Json): (r: Result<string, Issues>)
    ensures r.Success? <==> j.JStr?
    ensures r.Success? ==> j == JStr(r.value)
    ensures r.Failure? ==> r.error == [Issue(At(f), InvalidType)]
  {
    match j
    case JStr(s) => Success(s)
    case _ => Failure([Issue(At(f), InvalidType)])
  }

  /** `z.string().url()`: the type check, then the URL check. */
  function ParsePoster(j: Json, isUrl: string -> bool): (r: Result<string, Issues>)
    ensures r.Success? <==> j.JStr? && isUrl(j.s)
    ensures r.Success? ==> j == JStr(r.value)
    ensures r.Failure? ==> r.error != [] && AllConcern(r.error, Poster)
  {
    match j
    case JStr(s) => if isUrl(s) then Success(s) else Failure([Issue(At(Poster), InvalidUrl)])
    case _ => Failure([Issue(At(Poster), InvalidType)])
  }

  /** `z.number().int().min(1900).max(2100)`: after the type check, the three
      refinements all run and each failing one adds an issue. */
  function ParseYear(j: Json): (r: Result<int, Issues>)
    ensures r.Success? <==> j.JNum? && IsInteger(j.n) && MinYear as real <= j.n <= MaxYear as real
    ensures r.Success? ==> j == JNum(r.value as real)
    ensures r.Failure? ==> r.error != [] && AllConcern(r.error, Year)
  {
    match j
    case JNum(x) =>
      var issues :=
        (if IsInteger(x) then [] else [Issue(At(Year), NotInteger)])
        + (if x < MinYear as real then [Issue(At(Year), TooSmall)] else [])
        + (if x > MaxYear as real then [Issue(At(Year), TooBig)] else []);
      if issues == [] then Success(x.Floor) else Failure(issues)
    case _ => Failure([Issue(At(Year), InvalidType)])
  }

  /** `z.number().positive()`: zero is rejected. */
  function ParseDuration(j: Json): (r: Result<real, Issues>)
    ensures r.Success? <==> j.JNum? && j.n > 0.0
    ensures r.Success? ==> j == JNum(r.value)
    ensures r.Failure? ==> r.error != [] && AllConcern(r.error, Duration)
  {
    match j
    case JNum(x) => if x > 0.0 then Success(x) else Failure([Issue(At(Duration), TooSmall)])
    case _ => Failure([Issue(At(Duration), InvalidType)])
  }

  /** `z.number().min(0).max(10)`: both bounds inclusive. */
  function ParseRate(j: Json): (r: Result<real, Issues>)
    ensures r.Success? <==> j.JNum? && MinRate <= j.n <= MaxRate
    ensures r.Success? ==> j == JNum(r.value)
    ensures r.Failure? ==> r.error != [] && AllConcern(r.error, Rate)
  {
    match j
    case JNum(x) =>
      var issues :=
        (if x < MinRate then [Issue(At(Rate), TooSmall)] else [])
        + (if x > MaxRate then [Issue(At(Rate), TooBig)] else []);
      if issues == [] then Success(x) else Failure(issues)
    case _ => Failure([Issue(At(Rate), InvalidType)])
  }

  /** The enum rule for the genre element at position `index`. */
  function ParseTag(j: Json, index: nat): (r: Result<Tag, Issues>)
    ensures r.Success? <==> IsTagJson(j)
    ensures r.Success? ==> j == JStr(TagName(r.value))
    ensures r.Failure? ==> r.error != [] && forall k :: 0 <= k < |r.error| ==> r.error[k].path == Item(Genre, index)
  {
    match j
    case JStr(s) =>
      (match TagOf(s)
       case Some(t) => Success(t)
       case None => Failure([Issue(Item(Genre, index), InvalidEnum)]))
    case _ => Failure([Issue(Item(Genre, index), InvalidType)])
  }

  /** The element rule applied to every element, issues in index order. */
  function ParseTags(items: seq<Json>): (r: Result<seq<Tag>, Issues>)
    ensures r.Success? <==> forall i :: 0 <= i < |items| ==> IsTagJson(items[i])
    ensures r.Success? ==> items == EncodeTags(r.value)
    ensures r.Failure? ==> r.error != [] && forall k :: 0 <= k < |r.error| ==>
      r.error[k].path.Item? && r.error[k].path.field == Genre && r.error[k].path.index < |items|
    decreases |items|
  {
    if items == [] then Success([])
    else
      var n := |items| - 1;
      var init := ParseTags(items[..n]);
      var last := ParseTag(items[n], n);
      assert items == items[..n] + [items[n]];
      if init.Success? && last.Success? then
        var tags := init.value + [last.value];
        assert tags[..n] == init.value;
        Success(tags)
      else
        Failure(IssuesOf(init) + IssuesOf(last))
  }

  /** `z.array(z.enum([...]))`: the type check, then every element. */
  function ParseGenre(j: Json): (r: Result<seq<Tag>, Issues>)
    ensures r.Success? <==> j.JArr? && forall i :: 0 <= i < |j.items| ==> IsTagJson(j.items[i])
    ensures r.Success? ==> j == JArr(EncodeTags(r.value))
    ensures r.Failure? ==> r.error != [] && AllConcern(r.error, Genre)
  {
    match j
    case JArr(items) => ParseTags(items)
    case _ => Failure([Issue(At(Genre), InvalidType)])
  }

  // ----------------------------------------------------------------------
  // One rule table, two modes

  /** Full mode (`validateMovie`) or partial mode (`validatePartialMovie`). */
  datatype Mode = Full | Partial

  /** Whether mode `m` requires key `f`: full mode requires every key but
      `rate`, which has a default; partial mode requires none. */
  predicate IsRequired(m: Mode, f: Field) {
    m == Full && f != Rate
  }

  function Lookup(o: map<string, Json>, f: Field): Option<Json> {
    if Key(f) in o then Some(o[Key(f)]) else None
  }

  function IssuesOf<T>(r: Result<T, Issues>): Issues {
    if r.Failure? then r.error else []
  }

  /** The issues a present value draws from the rule for field `f`. */
  function RuleIssues(f: Field, j: Json, isUrl: string -> bool): (r: Issues)
    ensures r == [] <==> Conforms(f, j, isUrl)
    ensures AllConcern(r, f)
  {
    match f
    case Title => IssuesOf(ParseText(Title, j))
    case Year => IssuesOf(ParseYear(j))
    case Director => IssuesOf(ParseText(Director, j))
    case Duration => IssuesOf(ParseDuration(j))
    case Poster => IssuesOf(ParsePoster(j, isUrl))
    case Genre => IssuesOf(ParseGenre(j))
    case Rate => IssuesOf(ParseRate(j))
  }

  /** The issues mode `m` reports for key `f` of object `o`. */
  function IssuesAt(o: map<string, Json>, f: Field, m: Mode, isUrl: string -> bool): (r: Issues)
    ensures r == [] <==> (Key(f) in o ==> Conforms(f, o[Key(f)], isUrl)) && (IsRequired(m, f) ==> Key(f) in o)
    ensures AllConcern(r, f)
  {
    match Lookup(o, f)
    case None => if IsRequired(m, f) then [Issue(At(f), Missing)] else []
    case Some(j) => RuleIssues(f, j, isUrl)
  }

  /** Every key checked, issues collected in the schema's declaration order. */
  function ObjectIssues(o: map<string, Json>, m: Mode, isUrl: string -> bool): (r: Issues)
    ensures r == [] <==>
      && IssuesAt(o, Title, m, isUrl) == [] && IssuesAt(o, Year, m, isUrl) == []
      && IssuesAt(o, Director, m, isUrl) == [] && IssuesAt(o, Duration, m, isUrl) == []
      && IssuesAt(o, Poster, m, isUrl) == [] && IssuesAt(o, Genre, m, isUrl) == []
      && IssuesAt(o, Rate, m, isUrl) == []
  {
    IssuesAt(o, Title, m, isUrl) + IssuesAt(o, Year, m, isUrl) + IssuesAt(o, Director, m, isUrl)
    + IssuesAt(o, Duration, m, isUrl) + IssuesAt(o, Poster, m, isUrl) + IssuesAt(o, Genre, m, isUrl)
    + IssuesAt(o, Rate, m, isUrl)
  }

  /** An object draws no issue exactly when every key draws none. */
  lemma NoObjectIssues(o: map<string, Json>, m: Mode, isUrl: string -> bool)
    ensures ObjectIssues(o, m, isUrl) == [] <==> forall f: Field :: IssuesAt(o, f, m, isUrl) == []
  {
    if ObjectIssues(o, m, isUrl) == [] {
      forall f: Field ensures IssuesAt(o, f, m, isUrl) == [] {
        match f
        case Title => case Year => case Director => case Duration =>
        case Poster => case Genre => case Rate =>
      }
    }
  }

  /** The record full mode builds from an object that drew no issue: the
      parsed values, and the default for an absent `rate`. */
  function FullData(o: map<string, Json>, isUrl: string -> bool): (d: MovieData)
    requires ObjectIssues(o, Full, isUrl) == []
    ensures ValidData(d, isUrl)
  {
    NoObjectIssues(o, Full, isUrl);
    assert IssuesAt(o, Title, Full, isUrl) == [] && IssuesAt(o, Year, Full, isUrl) == [];
    assert IssuesAt(o, Director, Full, isUrl) == [] && IssuesAt(o, Duration, Full, isUrl) == [];
    assert IssuesAt(o, Poster, Full, isUrl) == [] && IssuesAt(o, Genre, Full, isUrl) == [];
    assert IssuesAt(o, Rate, Full, isUrl) == [];
    MovieData(
      ParseText(Title, o[Key(Title)]).value,
      ParseYear(o[Key(Year)]).value,
      ParseText(Director, o[Key(Director)]).value,
      ParseDuration(o[Key(Duration)]).value,
      ParsePoster(o[Key(Poster)], isUrl).value,
      ParseGenre(o[Key(Genre)]).value,
      if Key(Rate) in o then ParseRate(o[Key(Rate)]).value else DefaultRate)
  }

  /** The partial record built from an object that drew no issue: the parsed
      value of each present key, `None` for each absent one. */
  function PartialData(o: map<string, Json>, isUrl: string -> bool): (p: PartialMovie)
    requires ObjectIssues(o, Partial, isUrl) == []
    ensures ValidPartial(p, isUrl)
  {
    NoObjectIssues(o, Partial, isUrl);
    assert IssuesAt(o, Title, Partial, isUrl) == [] && IssuesAt(o, Year, Partial, isUrl) == [];
    assert IssuesAt(o, Director, Partial, isUrl) == [] && IssuesAt(o, Duration, Partial, isUrl) == [];
    assert IssuesAt(o, Poster, Partial, isUrl) == [] && IssuesAt(o, Genre, Partial, isUrl) == [];
    assert IssuesAt(o, Rate, Partial, isUrl) == [];
    PartialMovie(
      if Key(Title) in o then Some(ParseText(Title, o[Key(Title)]).value) else None,
      if Key(Year) in o then Some(ParseYear(o[Key(Year)]).value) else None,
      if Key(Director) in o then Some(ParseText(Director, o[Key(Director)]).value) else None,
      if Key(Duration) in o then Some(ParseDuration(o[Key(Duration)]).value) else None,
      if Key(Poster) in o then Some(ParsePoster(o[Key(Poster)], isUrl).value) else None,
      if Key(Genre) in o then Some(ParseGenre(o[Key(Genre)]).value) else None,
      if Key(Rate) in o then Some(ParseRate(o[Key(Rate)]).value) else None)
  }

  // ----------------------------------------------------------------------
  // The two entry points

  /** `validateMovie`: a non-object body fails at the root; otherwise the
      six keys other than `rate` are required and an absent `rate` becomes 0. */
  function ValidateFull(body: Json, isUrl: string -> bool): (r: Result<MovieData, Issues>)
    ensures r.Success? ==> ValidData(r.value, isUrl)
    ensures r.Failure? ==> r.error != []
  {
    match body
    case JObj(o) =>
      var issues := ObjectIssues(o, Full, isUrl);
      if issues == [] then Success(FullData(o, isUrl)) else Failure(issues)
    case _ => Failure([Issue(Root, InvalidType)])
  }

  /** `validatePartialMovie`: every key optional, `rate` included, whose
      default does not apply once the key is optional. */
  function ValidatePartial(body: Json, isUrl: string -> bool): (r: Result<PartialMovie, Issues>)
    ensures r.Success? ==> ValidPartial(r.value, isUrl)
    ensures r.Failure? ==> r.error != []
  {
    match body
    case JObj(o) =>
      var issues := ObjectIssues(o, Partial, isUrl);
      if issues == [] then Success(PartialData(o, isUrl)) else Failure(issues)
    case _ => Failure([Issue(Root, InvalidType)])
  }
}

/** What the two validation modes of Schemas/movie.js promise: which
    candidates each accepts, what the validated record holds, how the two
    modes relate, and how failures are reported. */
module MovieSchemaProperties {
  import opened Wrappers
  import opened JsonValue
  import opened MovieSchema

  /** Every key other than `rate` is present. */
  predicate RequiredPresent(o: map<string, Json>) {
    forall f: Field :: f != Rate ==> Key(f) in o
  }

  /** Every schema key that is present satisfies its field rule. */
  predicate PresentConform(o: map<string, Json>, isUrl: string -> bool) {
    forall f: Field :: Key(f) in o ==> Conforms(f, o[Key(f)], isUrl)
  }

  /** Two objects that agree on every schema key. */
  predicate SameOnSchema(o: map<string, Json>, o': map<string, Json>) {
    forall f: Field :: Lookup(o, f) == Lookup(o', f)
  }

  /** The JSON keys of the schema. */
  const SchemaKeys: set<string> :=
    {Key(Title), Key(Year), Key(Director), Key(Duration), Key(Poster), Key(Genre), Key(Rate)}

  // ----------------------------------------------------------------------
  // Field-by-field views of the two encodings

  lemma EncodeDataFields(d: MovieData)
    ensures EncodeData(d).Keys == SchemaKeys
    ensures EncodeData(d)[Key(Title)] == JStr(d.title)
    ensures EncodeData(d)[Key(Year)] == JNum(d.year as real)
    ensures EncodeData(d)[Key(Director)] == JStr(d.director)
    ensures EncodeData(d)[Key(Duration)] == JNum(d.duration)
    ensures EncodeData(d)[Key(Poster)] == JStr(d.poster)
    ensures EncodeData(d)[Key(Genre)] == JArr(EncodeTags(d.genre))
    ensures EncodeData(d)[Key(Rate)] == JNum(d.rate)
  {
  }

  lemma EncodePartialFields(p: PartialMovie)
    ensures EncodePartial(p).Keys <= SchemaKeys
    ensures Lookup(EncodePartial(p), Title) == (if p.title.Some? then Some(JStr(p.title.value)) else None)
    ensures Lookup(EncodePartial(p), Year) == (if p.year.Some? then Some(JNum(p.year.value as real)) else None)
    ensures Lookup(EncodePartial(p), Director) == (if p.director.Some? then Some(JStr(p.director.value)) else None)
    ensures Lookup(EncodePartial(p), Duration) == (if p.duration.Some? then Some(JNum(p.duration.value)) else None)
    ensures Lookup(EncodePartial(p), Poster) == (if p.poster.Some? then Some(JStr(p.poster.value)) else None)
    ensures Lookup(EncodePartial(p), Genre) == (if p.genre.Some? then Some(JArr(EncodeTags(p.genre.value))) else None)
    ensures Lookup(EncodePartial(p), Rate) == (if p.rate.Some? then Some(JNum(p.rate.value)) else None)
  {
    KeysDistinct();
  }

  // ----------------------------------------------------------------------
  // Which candidates each mode accepts

  /** Full mode accepts exactly the objects holding the six required keys in
      which every present schema key satisfies its rule. */
  lemma FullAcceptsExactly(body: Json, isUrl: string -> bool)
    ensures ValidateFull(body, isUrl).Success?
            <==> body.JObj? && RequiredPresent(body.fields) && PresentConform(body.fields, isUrl)
  {
    if body.JObj? {
      var o := body.fields;
      NoObjectIssues(o, Full, isUrl);
      if ValidateFull(body, isUrl).Success? {
        forall f: Field ensures (f != Rate ==> Key(f) in o) && (Key(f) in o ==> Conforms(f, o[Key(f)], isUrl)) {
          assert IssuesAt(o, f, Full, isUrl) == [];
        }
      }
    }
  }

  /** Partial mode accepts exactly the objects in which every present schema
      key satisfies its rule; no key is required. */
  lemma PartialAcceptsExactly(body: Json, isUrl: string -> bool)
    ensures ValidatePartial(body, isUrl).Success?
            <==> body.JObj? && PresentConform(body.fields, isUrl)
  {
    if body.JObj? {
      var o := body.fields;
      NoObjectIssues(o, Partial, isUrl);
      if ValidatePartial(body, isUrl).Success? {
        forall f: Field | Key(f) in o ensures Conforms(f, o[Key(f)], isUrl) {
          assert IssuesAt(o, f, Partial, isUrl) == [];
        }
      }
    }
  }

  /** The two modes share one rule table: full mode accepts a candidate
      exactly when partial mode does and the six required keys are present. */
  lemma FullIsPartialPlusRequired(body: Json, isUrl: string -> bool)
    ensures ValidateFull(body, isUrl).Success?
            <==> ValidatePartial(body, isUrl).Success? && body.JObj? && RequiredPresent(body.fields)
  {
    FullAcceptsExactly(body, isUrl);
    PartialAcceptsExactly(body, isUrl);
  }

  /** The empty object passes partial validation and changes nothing. */
  lemma EmptyPartialAccepted(isUrl: string -> bool)
    ensures ValidatePartial(JObj(map[]), isUrl) == Success(NoChange)
  {
  }

  // ----------------------------------------------------------------------
  // What a validated record holds

  /** A record validated in full mode holds exactly the input's values for
      the schema keys, `rate` is 0 when the input has none, and it has no key
      outside the schema. */
  lemma FullKeepsInputValues(body: Json, isUrl: string -> bool, d: MovieData)
    requires ValidateFull(body, isUrl) == Success(d)
    ensures body.JObj?
    ensures EncodeData(d).Keys == SchemaKeys
    ensures forall f: Field :: Key(f) in body.fields ==> EncodeData(d)[Key(f)] == body.fields[Key(f)]
    ensures Key(Rate) !in body.fields ==> d.rate == DefaultRate
  {
    var o := body.fields;
    FullAcceptsExactly(body, isUrl);
    assert d == FullData(o, isUrl);
    EncodeDataFields(d);
    forall f: Field | Key(f) in o ensures EncodeData(d)[Key(f)] == o[Key(f)] {
      match f
      case Title => assert o[Key(Title)] == JStr(d.title);
      case Year => assert o[Key(Year)] == JNum(d.year as real);
      case Director => assert o[Key(Director)] == JStr(d.director);
      case Duration => assert o[Key(Duration)] == JNum(d.duration);
      case Poster => assert o[Key(Poster)] == JStr(d.poster);
      case Genre => assert o[Key(Genre)] == JArr(EncodeTags(d.genre));
      case Rate => assert o[Key(Rate)] == JNum(d.rate);
    }
  }

  /** A record validated in partial mode holds a field exactly when the input
      has that key, with the input's value; absent keys, `rate` included, stay
      absent, and no key outside the schema appears. */
  lemma PartialKeepsInputValues(body: Json, isUrl: string -> bool, p: PartialMovie)
    requires ValidatePartial(body, isUrl) == Success(p)
    ensures body.JObj?
    ensures EncodePartial(p).Keys <= SchemaKeys
    ensures forall f: Field :: Lookup(EncodePartial(p), f) == Lookup(body.fields, f)
    ensures Key(Rate) !in body.fields ==> p.rate == None
  {
    var o := body.fields;
    assert p == PartialData(o, isUrl);
    EncodePartialFields(p);
    forall f: Field ensures Lookup(EncodePartial(p), f) == Lookup(o, f) {
      match f
      case Title => case Year => case Director => case Duration =>
      case Poster => case Genre => case Rate =>
    }
  }

  /** Objects whose keys draw the same issues draw the same issue list. */
  lemma SameIssues(o: map<string, Json>, o': map<string, Json>, m: Mode, isUrl: string -> bool)
    requires forall f: Field :: IssuesAt(o, f, m, isUrl) == IssuesAt(o', f, m, isUrl)
    ensures ObjectIssues(o, m, isUrl) == ObjectIssues(o', m, isUrl)
  {
    assert IssuesAt(o, Title, m, isUrl) == IssuesAt(o', Title, m, isUrl);
    assert IssuesAt(o, Year, m, isUrl) == IssuesAt(o', Year, m, isUrl);
    assert IssuesAt(o, Director, m, isUrl) == IssuesAt(o', Director, m, isUrl);
    assert IssuesAt(o, Duration, m, isUrl) == IssuesAt(o', Duration, m, isUrl);
    assert IssuesAt(o, Poster, m, isUrl) == IssuesAt(o', Poster, m, isUrl);
    assert IssuesAt(o, Genre, m, isUrl) == IssuesAt(o', Genre, m, isUrl);
    assert IssuesAt(o, Rate, m, isUrl) == IssuesAt(o', Rate, m, isUrl);
  }

  /** Keys outside the schema (an `id`, say) change neither mode's outcome. */
  lemma UnknownKeysIgnored(o: map<string, Json>, o': map<string, Json>, isUrl: string -> bool)
    requires SameOnSchema(o, o')
    ensures ValidateFull(JObj(o), isUrl) == ValidateFull(JObj(o'), isUrl)
    ensures ValidatePartial(JObj(o), isUrl) == ValidatePartial(JObj(o'), isUrl)
  {
    assert ObjectIssues(o, Full, isUrl) == ObjectIssues(o', Full, isUrl)
        && ObjectIssues(o, Partial, isUrl) == ObjectIssues(o', Partial, isUrl) by {
      forall m: Mode, f: Field ensures IssuesAt(o, f, m, isUrl) == IssuesAt(o', f, m, isUrl) {
        assert Lookup(o, f) == Lookup(o', f);
      }
      SameIssues(o, o', Full, isUrl);
      SameIssues(o, o', Partial, isUrl);
    }
    forall f: Field | Key(f) in o ensures Key(f) in o' && o[Key(f)] == o'[Key(f)] {
      assert Lookup(o, f) == Lookup(o', f);
    }
    forall f: Field | Key(f) in o' ensures Key(f) in o {
      assert Lookup(o, f) == Lookup(o', f);
    }
  }

  /** In full mode an absent `rate` is the same as a rate of 0 given
      explicitly. */
  lemma AbsentRateIsDefault(o: map<string, Json>, isUrl: string -> bool)
    requires Key(Rate) !in o
    ensures ValidateFull(JObj(o), isUrl) == ValidateFull(JObj(o[Key(Rate) := JNum(DefaultRate)]), isUrl)
  {
    var o' := o[Key(Rate) := JNum(DefaultRate)];
    KeysDistinct();
    forall f: Field ensures IssuesAt(o, f, Full, isUrl) == IssuesAt(o', f, Full, isUrl) {
      if f != Rate {
        assert Lookup(o, f) == Lookup(o', f);
      }
    }
    SameIssues(o, o', Full, isUrl);
  }

  /** Two objects holding only schema keys are equal when they agree on
      every field. */
  lemma SchemaMapsEqual(l: map<string, Json>, r: map<string, Json>)
    requires l.Keys <= SchemaKeys && r.Keys <= SchemaKeys
    requires forall f: Field :: Lookup(l, f) == Lookup(r, f)
    ensures l == r
  {
    assert l.Keys == r.Keys by {
      forall k | k in l ensures k in r {
        var f :| Key(f) == k by { assert k in SchemaKeys; }
        assert Lookup(l, f) == Lookup(r, f);
      }
      forall k | k in r ensures k in l {
        var f :| Key(f) == k by { assert k in SchemaKeys; }
        assert Lookup(l, f) == Lookup(r, f);
      }
    }
    forall k | k in l ensures l[k] == r[k] {
      var f :| Key(f) == k by { assert k in SchemaKeys; }
      assert Lookup(l, f) == Lookup(r, f);
    }
  }

  // ----------------------------------------------------------------------
  // Round trips

  /** Encoding a tag list and validating it gives the list back. */
  lemma TagsRoundTrip(tags: seq<Tag>)
    ensures ParseTags(EncodeTags(tags)) == Success(tags)
  {
    var items := EncodeTags(tags);
    forall i | 0 <= i < |items| ensures IsTagJson(items[i]) {
      assert TagName(tags[i]) == items[i].s;
    }
    var r := ParseTags(items);
    assert r.Success?;
    assert EncodeTags(r.value) == items;
    assert |r.value| == |tags|;
    forall i | 0 <= i < |tags| ensures r.value[i] == tags[i] {
      assert TagName(r.value[i]) == TagName(tags[i]);
      TagOfName(tags[i]);
      TagOfName(r.value[i]);
    }
    assert r.value == tags;
  }

  /** Every record within the schema's bounds is accepted by full mode when
      written out as JSON, and comes back unchanged. */
  lemma FullRoundTrip(d: MovieData, isUrl: string -> bool)
    requires ValidData(d, isUrl)
    ensures ValidateFull(JObj(EncodeData(d)), isUrl) == Success(d)
  {
    var o := EncodeData(d);
    EncodeDataFields(d);
    TagsRoundTrip(d.genre);
    assert (d.year as real).Floor == d.year;
    FullAcceptsExactly(JObj(o), isUrl);
    forall f: Field ensures Key(f) in o && Conforms(f, o[Key(f)], isUrl) {
      match f
      case Title => case Year => case Director => case Duration =>
      case Poster => case Genre => case Rate =>
    }
  }

  /** Distinct tag lists have distinct JSON forms. */
  lemma EncodeTagsInjective(a: seq<Tag>, b: seq<Tag>)
    requires EncodeTags(a) == EncodeTags(b)
    ensures a == b
  {
    TagsRoundTrip(a);
    TagsRoundTrip(b);
  }

  /** Distinct partial records have distinct JSON forms. */
  lemma EncodePartialInjective(p: PartialMovie, q: PartialMovie)
    requires forall f: Field :: Lookup(EncodePartial(p), f) == Lookup(EncodePartial(q), f)
    ensures p == q
  {
    EncodePartialFields(p);
    EncodePartialFields(q);
    assert Lookup(EncodePartial(p), Title) == Lookup(EncodePartial(q), Title);
    assert Lookup(EncodePartial(p), Year) == Lookup(EncodePartial(q), Year);
    assert Lookup(EncodePartial(p), Director) == Lookup(EncodePartial(q), Director);
    assert Lookup(EncodePartial(p), Duration) == Lookup(EncodePartial(q), Duration);
    assert Lookup(EncodePartial(p), Poster) == Lookup(EncodePartial(q), Poster);
    assert Lookup(EncodePartial(p), Genre) == Lookup(EncodePartial(q), Genre);
    assert Lookup(EncodePartial(p), Rate) == Lookup(EncodePartial(q), Rate);
    if p.genre.Some? {
      EncodeTagsInjective(p.genre.value, q.genre.value);
    }
    if p.year.Some? {
      assert (p.year.value as real).Floor == p.year.value;
      assert (q.year.value as real).Floor == q.year.value;
    }
  }

  /** Every partial record within the bounds comes back unchanged from
      partial validation of its JSON form. */
  lemma PartialRoundTrip(p: PartialMovie, isUrl: string -> bool)
    requires ValidPartial(p, isUrl)
    ensures ValidatePartial(JObj(EncodePartial(p)), isUrl) == Success(p)
  {
    var o := EncodePartial(p);
    EncodePartialFields(p);
    forall f: Field | Key(f) in o ensures Conforms(f, o[Key(f)], isUrl) {
      assert Lookup(o, f) == Some(o[Key(f)]);
      match f
      case Title => case Year => case Director => case Duration =>
      case Poster => case Rate =>
      case Genre =>
        TagsRoundTrip(p.genre.value);
        assert ParseGenre(o[Key(Genre)]).Success?;
    }
    PartialAcceptsExactly(JObj(o), isUrl);
    var q := ValidatePartial(JObj(o), isUrl).value;
    PartialKeepsInputValues(JObj(o), isUrl, q);
    EncodePartialInjective(p, q);
  }

  // ----------------------------------------------------------------------
  // Error reporting

  /** A candidate whose only fault is one absent required key fails with
      exactly one issue, naming that key. */
  lemma MissingFieldReported(o: map<string, Json>, f: Field, isUrl: string -> bool)
    requires f != Rate && Key(f) !in o
    requires forall g: Field :: g != Rate && g != f ==> Key(g) in o
    requires PresentConform(o, isUrl)
    ensures ValidateFull(JObj(o), isUrl) == Failure([Issue(At(f), Missing)])
  {
    forall g: Field ensures IssuesAt(o, g, Full, isUrl) == if g == f then [Issue(At(f), Missing)] else [] {
    }
    assert ObjectIssues(o, Full, isUrl) == [Issue(At(f), Missing)];
  }

  /** A present key that breaks its rule fails both modes, and some issue
      is about that key. */
  lemma BrokenFieldReported(o: map<string, Json>, f: Field, isUrl: string -> bool)
    requires Key(f) in o && !Conforms(f, o[Key(f)], isUrl)
    ensures ValidateFull(JObj(o), isUrl).Failure?
    ensures ValidatePartial(JObj(o), isUrl).Failure?
    ensures exists i :: i in ValidateFull(JObj(o), isUrl).error && Concerns(i, f)
    ensures exists i :: i in ValidatePartial(JObj(o), isUrl).error && Concerns(i, f)
  {
    var full := IssuesAt(o, f, Full, isUrl);
    var partial := IssuesAt(o, f, Partial, isUrl);
    assert full[0] in ObjectIssues(o, Full, isUrl) by {
      match f
      case Title => case Year => case Director => case Duration =>
      case Poster => case Genre => case Rate =>
    }
    assert partial[0] in ObjectIssues(o, Partial, isUrl) by {
      match f
      case Title => case Year => case Director => case Duration =>
      case Poster => case Genre => case Rate =>
    }
  }

  /** A missing title and a non-string title are reported first, with the
      title rule's two distinct custom messages; the empty string passes. */
  lemma TitleMessages(o: map<string, Json>, isUrl: string -> bool)
    ensures Key(Title) !in o ==>
      && ValidateFull(JObj(o), isUrl).Failure?
      && CustomMessage(ValidateFull(JObj(o), isUrl).error[0]) == Some("Title is required")
    ensures Key(Title) in o && !o[Key(Title)].JStr? ==>
      && ValidateFull(JObj(o), isUrl).Failure?
      && CustomMessage(ValidateFull(JObj(o), isUrl).error[0]) == Some("Title must be a string")
    ensures Key(Title) in o && !o[Key(Title)].JStr? ==>
      && ValidatePartial(JObj(o), isUrl).Failure?
      && CustomMessage(ValidatePartial(JObj(o), isUrl).error[0]) == Some("Title must be a string")
    ensures Conforms(Title, JStr(""), isUrl)
  {
  }

  /** The genre rule accepts the empty array and repeated tags. */
  lemma GenreAcceptsEmptyAndRepeats()
    ensures ParseGenre(JArr([])) == Success([])
    ensures ParseGenre(JArr([JStr("Comedy"), JStr("Comedy")])) == Success([Comedy, Comedy])
  {
    TagsRoundTrip([Comedy, Comedy]);
    assert EncodeTags([Comedy, Comedy]) == [JStr("Comedy"), JStr("Comedy")];
  }

  /** The genre rule is case-sensitive: a lower-case tag name is refused. */
  lemma GenreIsCaseSensitive()
    ensures ParseGenre(JArr([JStr("comedy")])).Failure?
    ensures ParseGenre(JArr([JStr("Comedy")])).Success?
  {
    assert !IsTagJson(JStr("comedy")) by {
      forall t: Tag ensures TagName(t) != "comedy" {
        match t
        case Action => case Adventure => case Comedy => case Crime =>
        case Drama => case Horror => case Romance => case SciFi =>
      }
    }
    assert IsTagJson(JStr("Comedy")) by {
      assert TagName(Comedy) == "Comedy";
    }
  }

  /** The numeric bounds at their edges. */
  lemma BoundaryExamples()
    ensures ParseYear(JNum(1900.0)) == Success(1900)
    ensures ParseYear(JNum(2100.0)) == Success(2100)
    ensures ParseYear(JNum(1899.0)).Failure?
    ensures ParseYear(JNum(2101.0)).Failure?
    ensures ParseYear(JNum(1999.5)).Failure?
    ensures ParseDuration(JNum(0.0)).Failure?
    ensures ParseRate(JNum(0.0)) == Success(0.0)
    ensures ParseRate(JNum(10.0)) == Success(10.0)
    ensures ParseRate(JNum(-0.5)).Failure?
    ensures ParseRate(JNum(10.5)).Failure?
  {
    assert (1999.5).Floor == 1999;
  }
}

# Movie service: a Dafny model

This project models the core of a small movie REST service. The service has two parts, and the model covers both.

- **The movie schema** (`Schemas/movie.js`). One rule table is applied in two modes:
  - **Full mode** (`validateMovie`): every key but `rate` is required, and an absent `rate` becomes 0.
  - **Partial mode** (`validatePartialMovie`): every key is optional, `rate` included, and an absent key stays absent.
- **The collection operations inside the request handlers** (`app.js`):
  - the origin allow-list gate;
  - listing with a case-insensitive genre filter;
  - lookup by id;
  - append on create;
  - field-merge in place on update.

The four collection handlers (list, get, create, update) are pure functions from the collection and the request to the next collection and the response (`App.Handled`). The two handlers that never touch the collection (`App.GetRoot`, `App.PreflightMovie`) take only the origin and return a bare `App.Response`.

Modules:

- `Wrappers`: `Option` and `Result`.
- `JsonValue`: a loosely typed JSON value, i.e. the request body before validation.
- `MovieSchema`: the field rules, the issues they report, and the two validation modes.
- `MovieSchemaProperties`: acceptance, round-trip and error-reporting lemmas about the schema.
- `App`: the stored record, the collection, the responses and the six handlers.
- `AppProperties`: frame, ordering and invariant lemmas about the handlers, plus one end-to-end scenario.

Validation is modelled field by field, following the semantics of major version 3 of the Zod schema library:

- A body that is not an object fails at the root.
- Otherwise every key is checked, and the issues are collected in the schema's key order.
- Every numeric check runs (integer, minimum, maximum), so one value can draw several issues.
- Every element of `genre` is checked, and each issue carries its index. A non-string element is a type error; an unknown string is an enum error.
- Keys outside the schema are dropped.
- `null` counts as a present value of the wrong type.
- In partial mode, `.partial()` makes `rate` optional, and the optional wrapper takes precedence over `.default(0)`. So an absent `rate` stays absent. (Zod 4 changed this: there the default would fill in 0.)

The title rule has no non-emptiness check, so `""` is a valid title. The model follows the code on this point.

A create takes the new id as a parameter (`freshId`). `App.PostMovie` places no condition on it, because the service does not check it either. The lemmas that rely on the id being unused say so in their preconditions (`AppProperties.CreateThenGet`, `AppProperties.CreatePreservesValidStore`, `AppProperties.DuneScenario`).

## Model

| member | source | states |
|---|---|---|
| MovieSchema.TagOf | Schemas/movie.js:12 | a string names a tag exactly when it is one of the eight tag names, compared with its case |
| MovieSchema.TagOfName | Schemas/movie.js:12 | every tag's own name is recognised as that tag |
| MovieSchema.ParseText | Schemas/movie.js:4-9 | `title` and `director` accept exactly strings, any string including the empty one, and give it back unchanged |
| MovieSchema.ParseYear | Schemas/movie.js:8 | `year` is accepted exactly when it is a number that is an integer between 1900 and 2100 inclusive; the result is that integer |
| MovieSchema.ParseDuration | Schemas/movie.js:10 | `duration` is accepted exactly when it is a number strictly greater than 0 |
| MovieSchema.ParsePoster | Schemas/movie.js:11 | `poster` is accepted exactly when it is a string that is a well-formed URL |
| MovieSchema.ParseRate | Schemas/movie.js:13 | `rate` is accepted exactly when it is a number between 0 and 10 inclusive |
| MovieSchema.ParseTag | Schemas/movie.js:12 | one `genre` element is accepted exactly when it is one of the eight tag names; a refused element is reported at its index |
| MovieSchema.ParseTags | Schemas/movie.js:12 | a list of elements is accepted exactly when every element is a tag name; the accepted list encodes back to the input |
| MovieSchema.ParseGenre | Schemas/movie.js:12 | `genre` is accepted exactly when it is an array of tag names; empty arrays and repeats pass |
| MovieSchema.RuleIssues | Schemas/movie.js:3-14 | a present value draws no issue exactly when it meets its field's rule, and every issue names that field |
| MovieSchema.ObjectIssues | Schemas/movie.js:3-14 | an object draws no issue exactly when none of the seven keys draws one; `MovieSchema.NoObjectIssues` states the same over all fields |
| MovieSchema.IssuesAt | Schemas/movie.js:3-14 | a key draws no issue exactly when it is well-formed if present and present if the mode requires it |
| MovieSchema.FullData | Schemas/movie.js:13 | the record built from an issue-free object lies within every bound, the defaulted rate included |
| MovieSchema.PartialData | Schemas/movie.js:21 | the partial record built from an issue-free object lies within every bound for each present field |
| MovieSchema.ValidateFull | Schemas/movie.js:16-18 | a success lies within the schema's bounds; a failure carries at least one issue |
| MovieSchema.ValidatePartial | Schemas/movie.js:20-22 | a success lies within the bounds for each present field; a failure carries at least one issue |
| MovieSchemaProperties.FullAcceptsExactly | Schemas/movie.js:3-18 | full mode accepts exactly the objects with every key but `rate` present and every present key well-formed |
| MovieSchemaProperties.PartialAcceptsExactly | Schemas/movie.js:20-22 | partial mode accepts exactly the objects whose present keys are well-formed |
| MovieSchemaProperties.FullIsPartialPlusRequired | Schemas/movie.js:13-21 | full acceptance is partial acceptance plus presence of the six keys without a default |
| MovieSchemaProperties.EmptyPartialAccepted | Schemas/movie.js:20-22 | the empty object passes partial mode and yields the record that changes nothing |
| MovieSchemaProperties.FullKeepsInputValues | Schemas/movie.js:3-18 | a full-mode record holds exactly the input's value for every present key, has no key outside the schema, and has rate 0 when `rate` was absent |
| MovieSchemaProperties.PartialKeepsInputValues | Schemas/movie.js:20-22 | a partial record holds exactly the input's present keys with their values; an absent key, `rate` included, stays absent |
| MovieSchemaProperties.UnknownKeysIgnored | Schemas/movie.js:3-14 | keys outside the schema change neither mode's outcome |
| MovieSchemaProperties.AbsentRateIsDefault | Schemas/movie.js:13 | in full mode an absent `rate` is the same as a rate of 0 given explicitly |
| MovieSchemaProperties.TagsRoundTrip | Schemas/movie.js:12 | encoding a tag list and validating it gives the list back |
| MovieSchemaProperties.FullRoundTrip | Schemas/movie.js:16-18 | encoding any in-bounds record and validating it in full mode gives the record back |
| MovieSchemaProperties.EncodeTagsInjective | Schemas/movie.js:12 | different tag lists have different JSON forms |
| MovieSchemaProperties.PartialRoundTrip | Schemas/movie.js:20-22 | encoding any in-bounds partial record and validating it in partial mode gives the record back |
| MovieSchemaProperties.MissingFieldReported | Schemas/movie.js:3-14 | a body missing one required key, and otherwise fine, fails with exactly one "missing" issue at that key |
| MovieSchemaProperties.BrokenFieldReported | Schemas/movie.js:3-14 | a present key that breaks its rule makes both modes fail with an issue at that key |
| MovieSchemaProperties.TitleMessages | Schemas/movie.js:4-7 | a missing title and a non-string title fail with the two distinct custom messages |
| MovieSchemaProperties.GenreAcceptsEmptyAndRepeats | Schemas/movie.js:12 | an empty genre array and a repeated tag both pass |
| MovieSchemaProperties.GenreIsCaseSensitive | Schemas/movie.js:12 | a tag name in the wrong case is refused |
| MovieSchemaProperties.BoundaryExamples | Schemas/movie.js:8-13 | 1900 and 2100 pass, 1899, 2101 and 1999.5 fail; a duration of 0 fails; rates 0 and 10 pass |
| App.OriginRejected | app.js:23 | a request is refused only when it names a non-empty origin outside the allow-list, and is let through whenever the origin is absent, empty or listed; `AppProperties.OriginGate` spells out the three origins |
| App.Merge | app.js:115-118 | the merged record keeps the stored id; each field is the update's value when present, the stored value otherwise; `AppProperties.MergeIsSpread` states the same over the JSON form |
| App.FilterByGenre | app.js:35 | the filtered list is no longer than the collection; `App.FilterMembers`, `App.FilterIsSubsequence` and `AppProperties.FilterIsPiecewise` pin down exactly which records it keeps, and in what order |
| App.GetRoot | app.js:21-26 | the answer is 403 exactly when the origin is rejected, 200 otherwise |
| App.PreflightMovie | app.js:95-100 | the answer is 403 exactly when the origin is rejected, 200 otherwise |
| App.WithId | app.js:83-86 | the created record carries the given id and exactly the validated fields |
| App.FindIndex | app.js:112 | the index found holds the id and no earlier one does; nothing is found exactly when no record has the id |
| App.FilterMembers | app.js:35 | the filter keeps exactly the records that have a tag equal to the genre after lower-casing both |
| App.FilterIsSubsequence | app.js:35 | the filtered list keeps the stored order |
| App.ListMovies | app.js:28-40 | listing leaves the collection unchanged and answers a subsequence of it; with a genre, exactly the matching records |
| App.GetMovie | app.js:42-48 | 404 exactly when no record has the id; otherwise a stored record with that id; the collection is unchanged |
| App.PostMovie | app.js:51-91 | the collection is unchanged exactly when validation fails, which is exactly when the answer is 400; a successful validation answers 201 (created); on 201 one record with the fresh id and the validated data is appended and the earlier ones kept |
| App.PatchMovie | app.js:102-124 | the length is kept; either the collection is unchanged or the answer is the stored record with the requested id |
| AppProperties.OriginGate | app.js:13-23 | a request is refused exactly when its origin is present, non-empty and none of the three listed; absent and empty origins pass |
| AppProperties.ListWithoutGenre | app.js:34-38 | without a genre, or with an empty one, the listing is the whole collection in stored order |
| AppProperties.FilterCons | app.js:35 | the filter keeps a first record exactly when it matches, then filters the rest |
| AppProperties.FilterAppend | app.js:35 | filtering a concatenation is concatenating the filtered parts |
| AppProperties.FilterIsPiecewise | app.js:35 | one record is kept exactly when it matches, and the collection can be filtered piece by piece at any split point |
| AppProperties.FilterIdempotent | app.js:35 | filtering twice by the same genre is filtering once |
| AppProperties.FilterKeepsAllMatching | app.js:35 | when every record matches, the filter returns the whole collection |
| AppProperties.GetFindsFirst | app.js:45-47 | lookup answers with the first record carrying the id |
| AppProperties.CreateIsSpread | app.js:83-86 | the created record's JSON is the id next to exactly the validated fields |
| AppProperties.CreateAppends | app.js:83-89 | a valid create appends exactly one record at the end, and the earlier records stay where they were |
| AppProperties.CreateRejects | app.js:53-55 | an invalid create answers 400 with the issues and leaves the collection unchanged |
| AppProperties.CreateThenGet | app.js:83-89 | with an unused id, a later lookup of that id finds the created record |
| AppProperties.CreatePreservesValidStore | app.js:83-88 | with an unused id, a create keeps ids unique and every record within the schema's bounds |
| AppProperties.MergeFieldIsSpread | app.js:115-118 | each field of a merged record is the update's value if present, the stored one otherwise |
| AppProperties.MergeDataIsSpread | app.js:115-118 | the merged record's fields are the stored ones with the update's present fields laid over them |
| AppProperties.MergeIsSpread | app.js:115-118 | the merged record's JSON is the stored JSON with the update's present keys laid over it; the id is never overridden |
| AppProperties.PatchCheckOrder | app.js:104-113 | an update checks the origin (403), then the body (400), then the id (404), and leaves the collection unchanged on each refusal |
| AppProperties.PatchUpdatesInPlace | app.js:112-122 | an update of the first record with the id keeps the length, changes no other index, keeps the id, lays the present fields over the record and answers the stored record |
| AppProperties.PatchPreservesValidStore | app.js:115-120 | an update keeps ids unique and every record within the schema's bounds |
| AppProperties.DuneAccepted | Schemas/movie.js:13-18 | a body without `rate` passes full mode with rate 0 |
| AppProperties.RateOnlyAccepted | Schemas/movie.js:20-22 | a body with only a rate passes partial mode and changes only the rate |
| AppProperties.DuneScenario | app.js:51-124 | create answers 201 with rate 0, lookup finds the created record, an update of its rate answers the updated record, and lookup of an unknown id answers 404 |

## Left out

- Express routing, JSON body parsing, `app.listen` and the port, logging, and response headers (app.js:1-11, 30, 106, 128-130). These are input/output plumbing. The collection is an explicit value instead of a module-level array.
- `crypto.randomUUID()` is replaced by the `freshId` parameter. Randomness is not modelled, so neither is the chance of a collision.
- The seed file `movies.json` is not part of this model. The lemmas take any collection, and the invariant lemmas take any collection satisfying `App.ValidStore`.
- The text and JSON layout of the schema library's error payload is not modelled, apart from the two custom title messages. Errors are modelled as a list of issues, each with a path and a kind.
- URL well-formedness is the uninterpreted parameter `isUrl`.
- Locale-aware lower-casing is the uninterpreted parameter `lower`.
- JavaScript numbers are modelled as `real`, and a validated year as `int`. Infinity, NaN and floating-point rounding are not modelled.
- A `genre` query given more than once (Express then passes an array) is not modelled; the query is at most one string.
- Concurrency between requests is not modelled; each request runs alone.
- App.Movie: stored records carry exactly the schema's fields and an id. Extra keys that a seed record might hold are not modelled.

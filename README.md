# TravelCompanion place search, in Dafny

TravelCompanion exposes one endpoint, `GET /search_places`. It forwards the
search parameters to the Foursquare places API. It then caches the returned
places in two tables, `categories` and `places`. Places are deduplicated by
their Foursquare id (`fsq_id`). The endpoint returns the places that this
request newly stored.

This project models that endpoint and proves what it promises.

- `Models` (`models.dfy`) models the two tables. The database is a value:
  a map from category name to category id, the place rows in insertion
  order, and the next primary key of each table. `Valid` states the table
  constraints: category ids are distinct, `fsq_id` is unique, place ids are
  distinct, and every `category_id` refers to a stored category.
- `Schemas` (`schemas.dfy`) models the request schema (default and bounds
  of `limit`) and the response schema (required fields, maximum lengths,
  rating range). Validation returns every violated constraint.
- `Reconcile` (`reconcile.dfy`) is the specification of one request as
  functions. Upstream JSON members are tri-state (absent, null or a value),
  because `get(key, default)` treats an absent key and a null differently.
  `Handle` gives the reply and the committed database for a given upstream
  answer.
- `SearchHandler` (`search_handler.dfy`) is the handler in its own
  imperative form. The class `Store` holds the tables. Its method
  `SearchPlaces` runs the handler's three loops (collect keys, insert
  missing categories, build new places) and the final commit. Its contract
  ties the reply and the new tables to `Handle`.
- `ReconcileFacts`, `BatchFacts` and `Response` prove what a request does:
  - which rows it creates, and that it leaves existing rows alone;
  - what happens to the categories;
  - idempotence;
  - preservation of the table constraints;
  - exactly when it fails on a malformed result or a repeated id;
  - that later categories of a result are ignored;
  - when the response of a created place passes the response schema.
- `Scenarios` works through a first search on an empty store, the same
  search repeated, and a batch that returns one new result twice.

Some behaviours follow from the code and are easy to miss:

- A request commits only when it builds at least one new place. Categories
  inserted for a request that stores no place are flushed but never
  committed.
- Nothing in the handler catches an exception. A null `results`,
  `location`, `geocodes` or `geocodes.main` on a result to be inserted
  raises before the commit. So does a batch that repeats a new `fsq_id`,
  which the `unique` constraint rejects at the commit. Either way the
  request fails and the store is left as it was, categories included.
- Only the first entry of a result's `categories` is read. A result with
  a null or missing name is still stored with `name` null. Its response
  then fails the schema, because `name` is required. An empty name is
  stored as `""` and passes the schema.

The handler in `main.py` catches nothing; a storage error fails the request
and commits nothing.

## Model

| member | source | states |
|---|---|---|
| Models.CategoryKeys | src/app_places/models.py:10-13 | In a valid database a category row is identified by its unique name and by its integer primary key |
| Models.Valid | src/app_places/models.py:10-31 | The definition of the table constraints: distinct category ids below the next id, unique `fsq_id`, distinct place keys below the next key, and each `category_id` null or the id of a stored category. `IngestPreservesValid`, `CommitPreservesValid` and `Store.SearchPlaces` state that a request keeps them |
| Models.CategorySharedByPlaces | src/app_places/models.py:30-31 | Several places may refer to the same category: two places with one `category_id` form a valid database |
| Schemas.ParseSearchParams | src/app_places/schemas.py:7-12 | Parameters are accepted exactly when `limit` is absent or in [1, 50]; `query` and `near` default to none, `limit` to 10; a rejection names the offending limit and whether it is too small |
| Schemas.ParseValidIsIdentity | src/app_places/schemas.py:11-12 | Validating valid parameters returns them unchanged |
| Schemas.ValidatePlaceOut | src/app_places/schemas.py:22-32 | The response schema reports exactly the violated constraints (missing `fsq_id` or `name`, lengths over 100/200/300, rating outside [0, 10]); it succeeds exactly when there is none and then copies every field |
| Reconcile.CleanParams | main.py:24-29 | The forwarded parameters are exactly those of `query`, `near`, `limit` that are set, each with its value |
| Reconcile.CollectIds | main.py:36-40 | The collected ids are exactly the non-empty `fsq_id`s of the results, at most one per result |
| Reconcile.CollectNames | main.py:41-43 | The collected names are exactly the non-empty names of the results' first categories |
| Reconcile.NewItems | main.py:74-77 | The results to insert are exactly those with a non-empty `fsq_id` outside the snapshot of stored ids, at most one per result |
| Reconcile.AddressOf | main.py:80-81 | The address is the formatted address when non-empty, else the plain address, with an absent one read as "" and a null one kept null |
| Reconcile.BuildAll | main.py:73-100 | Building succeeds exactly when every result to insert builds; then there is one place per result, in order, each the place built from that result |
| Reconcile.ExistingFsqIds | main.py:46-49 | The snapshot of stored ids is exactly the batch's ids that some stored place carries |
| Reconcile.KnownCategories | main.py:52-55 | The snapshot of categories maps exactly the collected names that are stored, each to its stored id |
| Reconcile.CategoryIdOf | main.py:84-89 | A place refers to a category exactly when its result's first category has a non-empty name that is resolved, and then to the id of that name |
| Reconcile.BuildPlace | main.py:79-100 | Building the place of a result to insert succeeds exactly when its `location`, `geocodes` and `geocodes.main` are not null; `CreatedPlaces` states every field of the stored row |
| Reconcile.Commit | main.py:102-104 | The commit creates one row per built place or fails; a failure or an empty list leaves the database unchanged, and created rows are appended after the old places |
| Reconcile.Ingest | main.py:35-104 | A pass that fails or creates nothing leaves the database unchanged; otherwise exactly the created rows are appended. `CreatedPlaces`, `MalformedIff` and `DuplicateIff` state which rows and which failures |
| Reconcile.Handle | main.py:18-106 | An upstream error status, a transport failure or a null `results` fails and commits nothing; present results go through `Ingest`; a failed or empty reply leaves the database unchanged |
| ReconcileFacts.ForwardedParams | main.py:24-29 | Validated parameters always forward `limit`, either the caller's value or 10, within [1, 50]; `query` and `near` are forwarded exactly when given |
| ReconcileFacts.BuildAllFails | main.py:80-96 | Building the new places raises exactly when one of the results to insert has a null `location`, `geocodes` or `geocodes.main` |
| ReconcileFacts.MalformedPrefix | main.py:74-100 | Once a result to insert is malformed, the whole pass is; the loop may stop at the first exception |
| ReconcileFacts.SnapshotIsStored | main.py:45-49 | Filtering by the snapshot of stored ids among the batch's ids is the same as filtering by all stored ids |
| ReconcileFacts.KnownMatchesCommitted | main.py:63-70 | Every collected name resolves to the id of its category row as committed, whether stored before or inserted now |
| ReconcileFacts.CreatedPlaces | main.py:72-106 | A successful pass returns one row per result to insert, in result order, with consecutive fresh keys. Each row carries its result's id, name, address fallback, coordinates, rating and first-category reference. Exactly these rows are appended and old rows are untouched. A result without an id, or with a stored id, yields no row |
| ReconcileFacts.NothingCommittedWithoutNewPlaces | main.py:102-104 | A pass that fails or creates no place leaves the database unchanged |
| ReconcileFacts.NoResultsNoChange | main.py:32-33 | An upstream error, a transport failure, a missing `results` or an empty list commit nothing; the last two reply with an empty list |
| ReconcileFacts.CommitShape | main.py:102-104 | A successful pass numbers the built places from the next key and commits them with the new categories only when there are any |
| ReconcileFacts.CategoriesAfterIngest | main.py:51-70 | After a pass that commits, each collected name has exactly one category row: stored names keep their row and id, each other name gets one new row; a pass that commits nothing adds no category |
| ReconcileFacts.AllStoredCreatesNothing | main.py:45-77 | When every id of the batch is stored, the pass creates nothing and leaves the database unchanged |
| ReconcileFacts.Idempotent | main.py:45-106 | Repeating a successful pass with the same results creates no place and commits nothing |
| ReconcileFacts.PlannedIsReady | main.py:84-89 | The built places have ids that are not stored, and every category reference is to a stored or newly inserted category |
| ReconcileFacts.CommitPreservesValid | main.py:102-104 | Committing ready places keeps every table constraint |
| ReconcileFacts.IngestPreservesValid | src/app_places/models.py:10-31 | A pass keeps the table constraints: distinct category ids, unique `fsq_id`, distinct place keys, and `category_id` null or referring to a stored category |
| BatchFacts.NewItemsShare | main.py:74-77 | The results to insert repeat an id exactly when the batch repeats the id of a result to insert |
| BatchFacts.BuiltDistinctIff | main.py:91-100 | Places built from results to insert repeat an `fsq_id` exactly when the results do |
| BatchFacts.MalformedIff | main.py:74-96 | A pass fails on a malformed result exactly when some result to insert has a null `location`, `geocodes` or `geocodes.main`, and it then commits nothing |
| BatchFacts.DuplicateIff | main.py:73-104 | The commit is rejected for a repeated `fsq_id` exactly when all results to insert are well formed and one of them has its id repeated later in the batch; it then commits nothing |
| BatchFacts.NaiveCommitBreaksUniqueness | src/app_places/models.py:24 | Appending places that repeat an `fsq_id` would break the unique constraint, whatever their keys |
| BatchFacts.LaterCategoriesIgnored | main.py:85-86 | Cutting every `categories` list down to its first entry changes neither the reply nor the committed database |
| Response.LoadsResolvedCategory | src/app_places/models.py:31 | With distinct category ids, a place's category reference loads the row it was resolved from |
| Response.ResponseOfRow | src/app_places/schemas.py:15-31 | A row describing a result serialises exactly when the result has a name, lengths within bounds and a rating in [0, 10]; the output echoes id and name, carries the first category by name only, and the row fits the column widths |
| Response.ResponseOfCreatedPlace | src/app_places/schemas.py:22-32 | Every created place serialises exactly when its result is servable; the output carries the result's id, name and first category |
| SearchHandler.CollectKeys | main.py:35-43 | The first loop yields exactly the collected ids, in order, and the collected first-category names |
| SearchHandler.FlushCategories | main.py:63-70 | The bulk insert gives each missing name its own id, drawn from the next ids of the table |
| SearchHandler.BuildOne | main.py:79-100 | The loop body builds exactly the place `BuildPlace` specifies, and fails exactly when the result's `location`, `geocodes` or `geocodes.main` is null |
| SearchHandler.BuildNewPlaces | main.py:72-100 | The second loop yields exactly the places `BuildAll` specifies for the results to insert, or fails when that does |
| SearchHandler.Store.ResolveCategories | main.py:51-70 | Every collected name is resolved: stored names to their ids, missing names to freshly inserted ids |
| SearchHandler.Store.PlanPlaces | main.py:35-100 | The handler's loops build exactly the places of the specification, with admissible new category ids |
| SearchHandler.Store.CommitPlaces | main.py:102-104 | The commit appends the places and categories as `Commit` specifies, or nothing, and keeps the table constraints |
| SearchHandler.Store.SearchPlaces | main.py:18-106 | A request's reply and new tables are those of `Handle` for the upstream answer to the cleaned parameters, and the table constraints are kept |
| Scenarios.FirstSearchPlan | main.py:51-100 | On an empty store, one new result has its first category inserted as id 1 and yields exactly one place, carrying the result's fields and referring to that category |
| Scenarios.RepeatedSearchStoresNothing | main.py:45-77 | Repeating that search once its place is stored returns an empty list and leaves the store as it was |
| Scenarios.RepeatedIdStoresNothing | src/app_places/models.py:24 | A batch returning the same new, well-formed result twice fails at the commit and stores neither the place nor its category |

## Left out

- The upstream call (`src/app_places/router.py`) is a parameter. `SearchPlaces` receives it as a function from the cleaned parameters to an upstream answer: a body, a non-200 status (the service answers 404), or a transport failure. HTTP, headers and JSON decoding are not modelled.
- `src/app_places/config.py` is not part of this model. Neither are the FastAPI wiring, the session dependency and the table creation. The session is assumed to close without committing.
- Timestamps (`created_at`, `update_at`, and the response's `created_at`/`updated_at`) are not modelled. The model column `update_at` differs from the response field `updated_at`, so the response's `updated_at` is always null; this is not modelled either.
- Latitude, longitude and rating are mathematical reals. Floating-point behaviour, NaN and infinities are not modelled.
- The store does not enforce the declared column widths of `fsq_id`, `name` and `address`, because their enforcement depends on the database backend. The widths appear only in `ResponseOfRow`, for rows that pass the response schema.
- Upstream JSON of another shape is not modelled: a non-object result or category entry, a member of the wrong type, a non-object body.
- Concurrent requests are not modelled, so neither is an integrity error from a race between two requests.
- Primary keys: a failed request leaves the key counters unchanged. Backends whose sequences skip keys after a rollback are not modelled.
- The database picks the ids of new categories in set iteration order. `SearchPlaces` returns the ids it picked as a ghost out-parameter, described only by `FreshIds` (distinct ids, counting up from the table's next id).
- Status codes for uncaught exceptions are not modelled. Such a request is a `Failed` reply naming the cause.
- Serialisation of the response happens after the commit. A place whose response fails the schema stays stored. `Response` states when serialisation succeeds but does not model the resulting error response.
- Scenarios.FirstSearchPlan: the first search on an empty store is worked through up to the places it builds; the commit that follows is covered by `CreatedPlaces` and `CategoriesAfterIngest` for every input rather than worked through for this one.

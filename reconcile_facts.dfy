/**
 * Properties of one reconciliation pass: which places it creates and
 * returns, what it does to the categories, that it keeps the table
 * constraints, that it is idempotent, and when the commit fails.
 */
module ReconcileFacts {
  import opened Wrappers
  import opened Models
  import opened Schemas
  import opened Reconcile

  /** The results of `s` the pass inserts: those whose external id is not stored. */
  function Fresh(db: Db, s: seq<Item>): seq<Item> {
    NewItems(s, StoredFsqIds(db))
  }

  /**
   * Validated parameters always forward `limit` upstream, with the caller's
   * value or the default 10; `query` and `near` are forwarded only when set.
   */
  lemma ForwardedParams(query: Option<string>, near: Option<string>, limit: Option<int>, p: SearchParams)
    requires ParseSearchParams(query, near, limit) == Success(p)
    ensures "limit" in CleanParams(p)
    ensures CleanParams(p)["limit"] == Number(if limit.None? then DefaultLimit else limit.value)
    ensures MinLimit <= CleanParams(p)["limit"].number <= MaxLimit
    ensures "query" in CleanParams(p) <==> query.Some?
    ensures "near" in CleanParams(p) <==> near.Some?
  {
  }

  /** The size of a union of maps with disjoint keys. */
  lemma DisjointUnionSize(m: map<string, int>, n: map<string, int>)
    requires m.Keys !! n.Keys
    ensures |m + n| == |m| + |n|
    ensures |n| == |n.Keys|
    ensures (m + n).Keys == m.Keys + n.Keys
    ensures forall k :: k in m ==> k in m + n && (m + n)[k] == m[k]
  {
    assert (m + n).Keys == m.Keys + n.Keys;
  }

  /** Inserting one row for each name not yet stored. */
  lemma CategoriesUnion(cats: map<string, int>, names: set<string>, newIds: map<string, int>)
    requires newIds.Keys == names - cats.Keys
    ensures (cats + newIds).Keys == cats.Keys + names
    ensures forall n :: n in cats ==> n in cats + newIds && (cats + newIds)[n] == cats[n]
    ensures |cats + newIds| == |cats| + |names - cats.Keys|
  {
    DisjointUnionSize(cats, newIds);
  }

  /** Whether two sets agree on the external ids of the results `s`. */
  ghost predicate AgreeOn(s: seq<Item>, e1: set<string>, e2: set<string>) {
    forall x :: x in s && FsqIdOf(x).Some? ==> (FsqIdOf(x).value in e1 <==> FsqIdOf(x).value in e2)
  }

  /** The results to insert depend only on which of their own ids are excluded. */
  lemma {:induction false} NewItemsAgree(s: seq<Item>, e1: set<string>, e2: set<string>)
    requires AgreeOn(s, e1, e2)
    ensures NewItems(s, e1) == NewItems(s, e2)
    decreases |s|
  {
    if s != [] {
      var init := s[..|s| - 1];
      assert forall x :: x in init ==> x in s;
      NewItemsAgree(init, e1, e2);
    }
  }

  /** When every external id of `s` is excluded, no result is inserted. */
  lemma {:induction false} NoNewItems(s: seq<Item>, existing: set<string>)
    requires forall x :: x in s && FsqIdOf(x).Some? ==> FsqIdOf(x).value in existing
    ensures NewItems(s, existing) == []
    decreases |s|
  {
    if s != [] {
      var init := s[..|s| - 1];
      assert forall x :: x in init ==> x in s;
      assert s[|s| - 1] in s;
      NoNewItems(init, existing);
    }
  }

  /** Building a list of places raises exactly when one of its results is malformed. */
  lemma BuildAllFails(xs: seq<Item>, known: map<string, int>)
    requires forall x :: x in xs ==> FsqIdOf(x).Some?
    ensures BuildAll(xs, known).None? <==> exists x :: x in xs && !WellFormed(x)
  {
    if BuildAll(xs, known).None? {
      var k :| 0 <= k < |xs| && BuildPlace(xs[k], known).None?;
      assert xs[k] in xs;
    } else {
      forall x | x in xs ensures WellFormed(x) {
        var k :| 0 <= k < |xs| && xs[k] == x;
        assert BuildPlace(xs[k], known).Some?;
      }
    }
  }

  /**
   * Once the results up to `i` contain a malformed result to insert, the
   * whole batch does: the loop may stop at the first exception.
   */
  lemma MalformedPrefix(s: seq<Item>, i: nat, existing: set<string>, known: map<string, int>)
    requires i <= |s|
    requires BuildAll(NewItems(s[..i], existing), known).None?
    ensures BuildAll(NewItems(s, existing), known).None?
  {
    BuildAllFails(NewItems(s[..i], existing), known);
    var x :| x in NewItems(s[..i], existing) && !WellFormed(x);
    assert x in s;
    BuildAllFails(NewItems(s, existing), known);
  }

  /**
   * Filtering against the snapshot of stored ids among the batch's ids is
   * the same as filtering against every stored id.
   */
  lemma SnapshotIsStored(db: Db, s: seq<Item>)
    ensures NewItems(s, ExistingFsqIds(db, CollectIds(s))) == Fresh(db, s)
  {
    var ids := CollectIds(s);
    forall x | x in s && FsqIdOf(x).Some?
      ensures FsqIdOf(x).value in ExistingFsqIds(db, ids) <==> FsqIdOf(x).value in StoredFsqIds(db)
    {
      assert FsqIdOf(x).value in ids;
    }
    NewItemsAgree(s, ExistingFsqIds(db, ids), StoredFsqIds(db));
  }

  /**
   * The category ids the places are resolved against agree with the
   * categories committed alongside them, on every collected name.
   */
  lemma KnownMatchesCommitted(db: Db, s: seq<Item>, newIds: map<string, int>, n: string)
    requires FreshIds(db, CollectNames(s), newIds)
    requires n in CollectNames(s)
    ensures n in KnownCategories(db, CollectNames(s)) + newIds
    ensures n in db.categories + newIds
    ensures (KnownCategories(db, CollectNames(s)) + newIds)[n] == (db.categories + newIds)[n]
  {
  }

  /**
   * A place row built from result `x` and committed with the categories
   * `categories`: it carries `x`'s external id, name, coordinates and rating,
   * its address follows the fallback of `AddressOf`, and it refers to the
   * category named by `x`'s first category, or to none when there is none.
   */
  ghost predicate DescribesResult(p: PlaceFields, x: Item, categories: map<string, int>) {
    && FsqIdOf(x) == Some(p.fsqId)
    && p.name == Get(x.name)
    && WellFormed(x)
    && p.address == AddressOf(LocationOf(x).value)
    && p.latitude == Get(CoordinatesOf(x).value.latitude)
    && p.longitude == Get(CoordinatesOf(x).value.longitude)
    && p.rating == Get(x.rating)
    && (p.categoryId.None? <==> FirstCategoryName(x).None?)
    && (p.categoryId.Some? ==>
          FirstCategoryName(x).value in categories &&
          categories[FirstCategoryName(x).value] == p.categoryId.value)
  }

  /** Each built place carries the external id of the result it was built from. */
  lemma BuiltIds(xs: seq<Item>, known: map<string, int>, ps: seq<PlaceFields>)
    requires forall x :: x in xs ==> FsqIdOf(x).Some?
    requires BuildAll(xs, known) == Some(ps)
    ensures |ps| == |xs|
    ensures forall k :: 0 <= k < |xs| ==> ps[k].fsqId == FsqIdOf(xs[k]).value
  {
    forall k | 0 <= k < |xs| ensures ps[k].fsqId == FsqIdOf(xs[k]).value {
      assert xs[k] in xs;
      assert BuildPlace(xs[k], known) == Some(ps[k]);
    }
  }

  /**
   * The rows numbered from the places built from results of `s` describe
   * those results, against the stored categories extended by `newIds`.
   */
  lemma BuiltRowsDescribe(db: Db, s: seq<Item>, newIds: map<string, int>, xs: seq<Item>, ps: seq<PlaceFields>, rows: seq<Place>)
    requires FreshIds(db, CollectNames(s), newIds)
    requires forall x :: x in xs ==> x in s && FsqIdOf(x).Some?
    requires BuildAll(xs, KnownCategories(db, CollectNames(s)) + newIds) == Some(ps)
    requires rows == Numbered(ps, db.nextPlaceId)
    ensures forall k :: 0 <= k < |rows| ==>
      rows[k].id == db.nextPlaceId + k && DescribesResult(rows[k].fields, xs[k], db.categories + newIds)
  {
    var known := KnownCategories(db, CollectNames(s)) + newIds;
    forall k | 0 <= k < |rows|
      ensures rows[k].id == db.nextPlaceId + k && DescribesResult(rows[k].fields, xs[k], db.categories + newIds)
    {
      var x := xs[k];
      assert x in xs;
      assert BuildPlace(x, known) == Some(ps[k]);
      if FirstCategoryName(x).Some? {
        KnownMatchesCommitted(db, s, newIds, FirstCategoryName(x).value);
      }
    }
  }

  /**
   * The rows numbered from the places built from the new results `xs` of
   * `s`: one per result, in order, each describing its result, none with a
   * stored external id, and one for every new result.
   */
  lemma BuiltRows(db: Db, s: seq<Item>, newIds: map<string, int>, xs: seq<Item>, ps: seq<PlaceFields>, rows: seq<Place>)
    requires FreshIds(db, CollectNames(s), newIds)
    requires forall x :: x in xs <==> x in s && IsNew(x, StoredFsqIds(db))
    requires forall x :: x in xs ==> FsqIdOf(x).Some?
    requires BuildAll(xs, KnownCategories(db, CollectNames(s)) + newIds) == Some(ps)
    requires rows == Numbered(ps, db.nextPlaceId)
    ensures |rows| == |xs|
    ensures forall k :: 0 <= k < |rows| ==>
      rows[k].id == db.nextPlaceId + k && DescribesResult(rows[k].fields, xs[k], db.categories + newIds)
    ensures forall k :: 0 <= k < |rows| ==> rows[k].fields.fsqId !in StoredFsqIds(db)
    ensures forall x :: x in s && IsNew(x, StoredFsqIds(db)) ==>
      exists k :: 0 <= k < |rows| && rows[k].fields.fsqId == FsqIdOf(x).value
  {
    BuiltIds(xs, KnownCategories(db, CollectNames(s)) + newIds, ps);
    BuiltRowsDescribe(db, s, newIds, xs, ps, rows);
    RowsCoverNew(s, StoredFsqIds(db), xs, rows);
  }

  /**
   * Rows that carry, one for one, the external ids of the new results `xs`
   * of `s` cover every new result and repeat no excluded id.
   */
  lemma RowsCoverNew(s: seq<Item>, existing: set<string>, xs: seq<Item>, rows: seq<Place>)
    requires forall x :: x in xs <==> x in s && IsNew(x, existing)
    requires |rows| == |xs|
    requires forall k :: 0 <= k < |xs| ==> FsqIdOf(xs[k]) == Some(rows[k].fields.fsqId)
    ensures forall k :: 0 <= k < |rows| ==> rows[k].fields.fsqId !in existing
    ensures forall x :: x in s && IsNew(x, existing) ==>
      exists k :: 0 <= k < |rows| && rows[k].fields.fsqId == FsqIdOf(x).value
  {
    forall x | x in s && IsNew(x, existing)
      ensures exists k :: 0 <= k < |rows| && rows[k].fields.fsqId == FsqIdOf(x).value
    {
      var k :| 0 <= k < |xs| && xs[k] == x;
      assert rows[k].fields.fsqId == FsqIdOf(x).value;
    }
    forall k | 0 <= k < |rows|
      ensures rows[k].fields.fsqId !in existing
    {
      assert xs[k] in xs;
    }
  }

  /**
   * A successful pass returns exactly one new row per result whose external
   * id is not stored, in result order and with consecutive fresh primary
   * keys; it appends exactly those rows to the places table and leaves the
   * existing rows untouched. A result without an external id, or whose id
   * is stored, yields no row.
   */
  lemma CreatedPlaces(db: Db, s: seq<Item>, newIds: map<string, int>, rows: seq<Place>, db': Db)
    requires FreshIds(db, CollectNames(s), newIds)
    requires Ingest(db, s, newIds) == Outcome(Created(rows), db')
    ensures |rows| == |Fresh(db, s)|
    ensures forall k :: 0 <= k < |rows| ==>
      rows[k].id == db.nextPlaceId + k && DescribesResult(rows[k].fields, Fresh(db, s)[k], db'.categories)
    ensures db'.places == db.places + rows
    ensures rows == [] ==> db' == db
    ensures forall k :: 0 <= k < |rows| ==> rows[k].fields.fsqId !in StoredFsqIds(db)
    ensures forall x :: x in s && IsNew(x, StoredFsqIds(db)) ==>
      exists k :: 0 <= k < |rows| && rows[k].fields.fsqId == FsqIdOf(x).value
  {
    var known := KnownCategories(db, CollectNames(s)) + newIds;
    var xs := Fresh(db, s);
    SnapshotIsStored(db, s);
    CommitShape(db, s, newIds, rows, db');
    assert Planned(db, s, newIds) == BuildAll(xs, known);
    BuiltRows(db, s, newIds, xs, BuildAll(xs, known).value, rows);
  }

  /** A failed pass, or one that creates no place, commits nothing. */
  lemma NothingCommittedWithoutNewPlaces(db: Db, s: seq<Item>, newIds: map<string, int>)
    ensures Ingest(db, s, newIds).db != db ==>
      Ingest(db, s, newIds).reply.Created? && Ingest(db, s, newIds).reply.places != []
  {
  }

  /**
   * When upstream fails, or returns no results, nothing is committed; with
   * no results the reply is an empty list.
   */
  lemma NoResultsNoChange(db: Db, up: Upstream, newIds: map<string, int>)
    requires Admissible(db, up, newIds)
    requires !(up.Body? && up.results.Present? && up.results.value != [])
    ensures Handle(db, up, newIds).db == db
    ensures up == ErrorStatus ==> Handle(db, up, newIds).reply == Failed(UpstreamNotFound)
    ensures up == TransportError ==> Handle(db, up, newIds).reply == Failed(UpstreamUnreachable)
    ensures ResultsOf(up).Some? ==> Handle(db, up, newIds).reply == Created([])
  {
  }

  /** A commit that succeeds: the places are numbered and committed when there are any. */
  lemma CommitCreated(db: Db, newIds: map<string, int>, ps: seq<PlaceFields>, rows: seq<Place>, db': Db)
    requires Commit(db, newIds, ps) == Outcome(Created(rows), db')
    ensures DistinctFsqIds(ps)
    ensures rows == Numbered(ps, db.nextPlaceId)
    ensures rows == [] ==> db' == db
    ensures rows != [] ==>
      db' == Db(db.categories + newIds, db.places + rows, db.nextCategoryId + |newIds|, db.nextPlaceId + |rows|)
  {
  }

  /** The shape of a successful pass: the built places, numbered and committed when there are any. */
  lemma CommitShape(db: Db, s: seq<Item>, newIds: map<string, int>, rows: seq<Place>, db': Db)
    requires Ingest(db, s, newIds) == Outcome(Created(rows), db')
    ensures Planned(db, s, newIds).Some?
    ensures DistinctFsqIds(Planned(db, s, newIds).value)
    ensures rows == Numbered(Planned(db, s, newIds).value, db.nextPlaceId)
    ensures rows == [] ==> db' == db
    ensures rows != [] ==>
      db' == Db(db.categories + newIds, db.places + rows, db.nextCategoryId + |newIds|, db.nextPlaceId + |rows|)
  {
    var planned := Planned(db, s, newIds);
    assert planned.Some?;
    CommitCreated(db, newIds, planned.value, rows, db');
  }

  /**
   * After a pass that commits, every collected category name has exactly one
   * category row: names already stored keep their row and id, and each other
   * name gets one new row. A pass that commits nothing adds no category.
   */
  lemma CategoriesAfterIngest(db: Db, s: seq<Item>, newIds: map<string, int>, rows: seq<Place>, db': Db)
    requires FreshIds(db, CollectNames(s), newIds)
    requires Ingest(db, s, newIds) == Outcome(Created(rows), db')
    ensures rows == [] ==> db'.categories == db.categories
    ensures rows != [] ==> db'.categories.Keys == db.categories.Keys + CollectNames(s)
    ensures forall n :: n in db.categories ==> n in db'.categories && db'.categories[n] == db.categories[n]
    ensures rows != [] ==> |db'.categories| == |db.categories| + |CollectNames(s) - db.categories.Keys|
  {
    CommitShape(db, s, newIds, rows, db');
    if rows != [] {
      CategoriesUnion(db.categories, CollectNames(s), newIds);
    }
  }

  /** Every external id of `s` that is stored in `db`. */
  ghost predicate AllStored(db: Db, s: seq<Item>) {
    forall x :: x in s && FsqIdOf(x).Some? ==> FsqIdOf(x).value in StoredFsqIds(db)
  }

  /** When every external id of the batch is stored, the pass creates nothing. */
  lemma AllStoredCreatesNothing(db: Db, s: seq<Item>, newIds: map<string, int>)
    requires AllStored(db, s)
    ensures Ingest(db, s, newIds) == Outcome(Created([]), db)
  {
    SnapshotIsStored(db, s);
    NoNewItems(s, StoredFsqIds(db));
  }

  /**
   * Idempotence: repeating a successful pass with the same results creates
   * no place and commits nothing.
   */
  lemma Idempotent(db: Db, s: seq<Item>, newIds: map<string, int>, rows: seq<Place>, db': Db, newIds': map<string, int>)
    requires FreshIds(db, CollectNames(s), newIds)
    requires Ingest(db, s, newIds) == Outcome(Created(rows), db')
    ensures Ingest(db', s, newIds') == Outcome(Created([]), db')
  {
    CreatedPlaces(db, s, newIds, rows, db');
    forall x | x in s && FsqIdOf(x).Some?
      ensures FsqIdOf(x).value in StoredFsqIds(db')
    {
      var f := FsqIdOf(x).value;
      if f in StoredFsqIds(db) {
        var p :| p in db.places && p.fields.fsqId == f;
        assert p in db'.places;
      } else {
        var k :| 0 <= k < |rows| && rows[k].fields.fsqId == f;
        assert rows[k] in db'.places;
      }
    }
    AllStoredCreatesNothing(db', s, newIds');
  }

  /** Adding fresh category ids keeps the category ids distinct and below the new counter. */
  lemma ExtendCategoriesValid(cats: map<string, int>, next: int, added: set<string>, newIds: map<string, int>)
    requires Injective(cats) && forall n :: n in cats ==> cats[n] < next
    requires IdsFrom(added, next, newIds) && cats.Keys !! added
    ensures Injective(cats + newIds)
    ensures forall n :: n in cats + newIds ==> (cats + newIds)[n] < next + |newIds|
    ensures forall n :: n in cats ==> n in cats + newIds && (cats + newIds)[n] == cats[n]
  {
    DisjointUnionSize(cats, newIds);
  }

  /**
   * Appending rows with consecutive fresh primary keys, distinct external ids
   * not yet stored, and category references into a category table that
   * extends the old one, keeps the table constraints.
   */
  lemma AppendRowsValid(db: Db, rows: seq<Place>, cats: map<string, int>, nextCat: int)
    requires Valid(db)
    requires Injective(cats) && forall n :: n in cats ==> cats[n] < nextCat
    requires forall n :: n in db.categories ==> n in cats && cats[n] == db.categories[n]
    requires forall k :: 0 <= k < |rows| ==> rows[k].id == db.nextPlaceId + k
    requires forall i, j :: 0 <= i < j < |rows| ==> rows[i].fields.fsqId != rows[j].fields.fsqId
    requires forall k :: 0 <= k < |rows| ==> rows[k].fields.fsqId !in StoredFsqIds(db)
    requires forall k :: 0 <= k < |rows| && rows[k].fields.categoryId.Some? ==>
      rows[k].fields.categoryId.value in cats.Values
    ensures Valid(Db(cats, db.places + rows, nextCat, db.nextPlaceId + |rows|))
  {
    var places := db.places + rows;
    forall i | 0 <= i < |places| && places[i].fields.categoryId.Some?
      ensures places[i].fields.categoryId.value in cats.Values
    {
      if i < |db.places| {
        var c := db.places[i].fields.categoryId.value;
        var n :| n in db.categories && db.categories[n] == c;
        assert cats[n] == c;
      } else {
        assert places[i] == rows[i - |db.places|];
      }
    }
    forall i, j | 0 <= i < j < |places|
      ensures places[i].fields.fsqId != places[j].fields.fsqId
    {
      if i < |db.places| <= j {
        assert db.places[i] in db.places;
        assert places[j] == rows[j - |db.places|];
      }
    }
  }

  /**
   * What the commit needs of the places it appends: the flushed category
   * ids are fresh, the places' external ids are not stored, and every
   * category reference is to a stored or flushed category.
   */
  ghost predicate CommitReady(db: Db, newIds: map<string, int>, ps: seq<PlaceFields>) {
    && db.categories.Keys !! newIds.Keys
    && IdsFrom(newIds.Keys, db.nextCategoryId, newIds)
    && (forall k :: 0 <= k < |ps| ==> ps[k].fsqId !in StoredFsqIds(db))
    && (forall k :: 0 <= k < |ps| && ps[k].categoryId.Some? ==>
          ps[k].categoryId.value in (db.categories + newIds).Values)
  }

  /** The places a pass builds are ready to be committed. */
  lemma PlannedIsReady(db: Db, s: seq<Item>, newIds: map<string, int>, ps: seq<PlaceFields>)
    requires FreshIds(db, CollectNames(s), newIds)
    requires Planned(db, s, newIds) == Some(ps)
    ensures CommitReady(db, newIds, ps)
  {
    var xs := Fresh(db, s);
    var known := KnownCategories(db, CollectNames(s)) + newIds;
    SnapshotIsStored(db, s);
    forall k | 0 <= k < |ps|
      ensures ps[k].fsqId !in StoredFsqIds(db)
      ensures ps[k].categoryId.Some? ==> ps[k].categoryId.value in (db.categories + newIds).Values
    {
      assert xs[k] in xs;
      assert BuildPlace(xs[k], known) == Some(ps[k]);
      if ps[k].categoryId.Some? {
        var n := FirstCategoryName(xs[k]).value;
        KnownMatchesCommitted(db, s, newIds, n);
        assert (db.categories + newIds)[n] == ps[k].categoryId.value;
      }
    }
  }

  /** Committing places that are ready keeps every table constraint. */
  lemma CommitPreservesValid(db: Db, newIds: map<string, int>, ps: seq<PlaceFields>)
    requires Valid(db)
    requires CommitReady(db, newIds, ps)
    ensures Valid(Commit(db, newIds, ps).db)
  {
    if ps != [] && DistinctFsqIds(ps) {
      var rows := Numbered(ps, db.nextPlaceId);
      ExtendCategoriesValid(db.categories, db.nextCategoryId, newIds.Keys, newIds);
      AppendRowsValid(db, rows, db.categories + newIds, db.nextCategoryId + |newIds|);
    }
  }

  /** The pass keeps every table constraint. */
  lemma IngestPreservesValid(db: Db, s: seq<Item>, newIds: map<string, int>)
    requires Valid(db)
    requires FreshIds(db, CollectNames(s), newIds)
    ensures Valid(Ingest(db, s, newIds).db)
  {
    if Planned(db, s, newIds).Some? {
      var ps := Planned(db, s, newIds).value;
      PlannedIsReady(db, s, newIds, ps);
      CommitPreservesValid(db, newIds, ps);
    }
  }
}

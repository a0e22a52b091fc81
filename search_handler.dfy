/**
 * The search endpoint's handler: it forwards the cleaned parameters
 * upstream, then reconciles the returned places with the database in three
 * loops (collect keys, insert missing categories, build new places) and
 * commits the new rows.
 */
module SearchHandler {
  import opened Wrappers
  import opened Models
  import opened Schemas
  import opened Reconcile
  import ReconcileFacts

  /** One step of the first loop extends the collected ids by the result's id, if it has one. */
  lemma CollectIdsStep(s: seq<Item>, i: nat)
    requires i < |s|
    ensures CollectIds(s[..i + 1]) ==
      if FsqIdOf(s[i]).Some? then CollectIds(s[..i]) + [FsqIdOf(s[i]).value] else CollectIds(s[..i])
  {
    assert s[..i + 1][..i] == s[..i];
  }

  /** One step of the first loop adds the result's first-category name, if it has one. */
  lemma CollectNamesStep(s: seq<Item>, i: nat)
    requires i < |s|
    ensures CollectNames(s[..i + 1]) ==
      if FirstCategoryName(s[i]).Some? then CollectNames(s[..i]) + {FirstCategoryName(s[i]).value} else CollectNames(s[..i])
  {
    assert s[..i + 1][..i] == s[..i];
  }

  /** The first loop: the external ids, in order, and the first-category names of the results. */
  method CollectKeys(results: seq<Item>) returns (ids: seq<string>, names: set<string>)
    ensures ids == CollectIds(results)
    ensures names == CollectNames(results)
  {
    ids, names := [], {};
    var i := 0;
    while i < |results|
      invariant 0 <= i <= |results|
      invariant ids == CollectIds(results[..i])
      invariant names == CollectNames(results[..i])
    {
      CollectIdsStep(results, i);
      CollectNamesStep(results, i);
      var item := results[i];
      var fsqId := FsqIdOf(item);
      if fsqId.Some? {
        ids := ids + [fsqId.value];
      }
      var name := FirstCategoryName(item);
      if name.Some? {
        names := names + {name.value};
      }
      i := i + 1;
    }
    assert results[..i] == results;
  }

  /**
   * The state of the bulk insert: the names not yet inserted are `pending`,
   * and the inserted ones have distinct ids counting up from `next`.
   */
  ghost predicate Flushing(newNames: set<string>, next: int, pending: set<string>, ids: map<string, int>) {
    && pending <= newNames
    && ids.Keys == newNames - pending
    && |ids| + |pending| == |newNames|
    && Injective(ids)
    && forall n :: n in ids ==> next <= ids[n] < next + |ids|
  }

  /** Inserting one pending name, with the next id, keeps the state of the bulk insert. */
  lemma FlushStep(newNames: set<string>, next: int, pending: set<string>, ids: map<string, int>, n: string,
                  pending': set<string>, ids': map<string, int>)
    requires Flushing(newNames, next, pending, ids)
    requires n in pending
    requires pending' == pending - {n} && ids' == ids[n := next + |ids|]
    ensures Flushing(newNames, next, pending', ids')
    ensures |pending'| < |pending|
  {
    assert n !in ids;
    assert |ids'| == |ids| + 1;
    assert |pending'| == |pending| - 1;
  }

  /**
   * The bulk insert of the missing categories followed by the re-read of
   * their ids: the database gives each name its own id, counting up from
   * `next` in an order of its choosing.
   */
  method FlushCategories(newNames: set<string>, next: int) returns (ids: map<string, int>)
    ensures IdsFrom(newNames, next, ids)
  {
    ids := map[];
    var pending := newNames;
    while pending != {}
      invariant Flushing(newNames, next, pending, ids)
      decreases |pending|
    {
      var n :| n in pending;
      FlushStep(newNames, next, pending, ids, n, pending - {n}, ids[n := next + |ids|]);
      ids := ids[n := next + |ids|];
      pending := pending - {n};
    }
  }

  /** The results to insert among the first `i + 1` results. */
  lemma NewItemsStep(s: seq<Item>, i: nat, existing: set<string>)
    requires i < |s|
    ensures NewItems(s[..i + 1], existing) ==
      if IsNew(s[i], existing) then NewItems(s[..i], existing) + [s[i]] else NewItems(s[..i], existing)
  {
    assert s[..i + 1][..i] == s[..i];
  }

  /** A step of the second loop that skips a result: nothing is built. */
  lemma SkipStep(s: seq<Item>, i: nat, existing: set<string>, known: map<string, int>, ps: seq<PlaceFields>)
    requires i < |s| && !IsNew(s[i], existing)
    requires BuildAll(NewItems(s[..i], existing), known) == Some(ps)
    ensures BuildAll(NewItems(s[..i + 1], existing), known) == Some(ps)
  {
    NewItemsStep(s, i, existing);
  }

  /** A step of the second loop that builds a place from a result to insert. */
  lemma AppendStep(s: seq<Item>, i: nat, existing: set<string>, known: map<string, int>, ps: seq<PlaceFields>, p: PlaceFields)
    requires i < |s| && IsNew(s[i], existing)
    requires BuildAll(NewItems(s[..i], existing), known) == Some(ps)
    requires BuildPlace(s[i], known) == Some(p)
    ensures BuildAll(NewItems(s[..i + 1], existing), known) == Some(ps + [p])
  {
    NewItemsStep(s, i, existing);
    var xs := NewItems(s[..i], existing);
    assert (xs + [s[i]])[..|xs|] == xs;
  }

  /** A step of the second loop on a malformed result to insert: the whole pass raises. */
  lemma FailStep(s: seq<Item>, i: nat, existing: set<string>, known: map<string, int>)
    requires i < |s| && IsNew(s[i], existing)
    requires BuildPlace(s[i], known).None?
    ensures BuildAll(NewItems(s, existing), known).None?
  {
    NewItemsStep(s, i, existing);
    var xs := NewItems(s[..i], existing);
    assert (xs + [s[i]])[..|xs|] == xs;
    ReconcileFacts.MalformedPrefix(s, i + 1, existing, known);
  }

  /**
   * The body of the second loop for one result to insert: its address,
   * category reference and coordinates; `None` when reading its location or
   * coordinates raises.
   */
  method BuildOne(item: Item, known: map<string, int>) returns (place: Option<PlaceFields>)
    requires FsqIdOf(item).Some?
    ensures place == BuildPlace(item, known)
    ensures place.Some? <==> WellFormed(item)
  {
    var location := LocationOf(item);
    if location.None? {
      return None;
    }
    var address := AddressOf(location.value);
    var categoryId := CategoryIdOf(item, known);
    var coordinates := CoordinatesOf(item);
    if coordinates.None? {
      return None;
    }
    place := Some(PlaceFields(FsqIdOf(item).value, Get(item.name), address,
                              Get(coordinates.value.latitude), Get(coordinates.value.longitude),
                              categoryId, Get(item.rating)));
  }

  /**
   * The second loop: one place per result whose external id is present and
   * not in `existing`, in result order; `None` when reading a result's
   * location or coordinates raises.
   */
  method BuildNewPlaces(results: seq<Item>, existing: set<string>, known: map<string, int>)
    returns (built: Option<seq<PlaceFields>>)
    ensures built == BuildAll(NewItems(results, existing), known)
  {
    var ps: seq<PlaceFields> := [];
    var i := 0;
    while i < |results|
      invariant 0 <= i <= |results|
      invariant BuildAll(NewItems(results[..i], existing), known) == Some(ps)
    {
      var item := results[i];
      var fsqId := FsqIdOf(item);
      if fsqId.None? || fsqId.value in existing {
        SkipStep(results, i, existing, known, ps);
        i := i + 1;
        continue;
      }
      var place := BuildOne(item, known);
      if place.None? {
        FailStep(results, i, existing, known);
        return None;
      }
      AppendStep(results, i, existing, known, ps, place.value);
      ps := ps + [place.value];
      i := i + 1;
    }
    assert results[..i] == results;
    built := Some(ps);
  }

  /** The commit of a non-empty list of places with distinct external ids. */
  lemma CommitAppends(db: Db, newIds: map<string, int>, ps: seq<PlaceFields>)
    requires ps != [] && DistinctFsqIds(ps)
    ensures Commit(db, newIds, ps) ==
      Outcome(Created(Numbered(ps, db.nextPlaceId)),
              Db(db.categories + newIds, db.places + Numbered(ps, db.nextPlaceId),
                 db.nextCategoryId + |newIds|, db.nextPlaceId + |ps|))
  {
  }

  /** After the flush every collected name has a category id. */
  lemma KnownAfterFlush(db: Db, names: set<string>, flushed: map<string, int>)
    requires IdsFrom(names - db.categories.Keys, db.nextCategoryId, flushed)
    ensures (KnownCategories(db, names) + flushed).Keys == names
  {
  }

  /** The database the endpoint works on: its two tables and their id counters. */
  class Store {
    var categories: map<string, int>
    var places: seq<Place>
    var nextCategoryId: int
    var nextPlaceId: int

    /** The committed contents of the tables. */
    function Tables(): Db
      reads this
    {
      Db(categories, places, nextCategoryId, nextPlaceId)
    }

    /** The table constraints hold. */
    ghost predicate Valid()
      reads this
    {
      Models.Valid(Tables())
    }

    /** An empty database. */
    constructor ()
      ensures Valid() && Tables() == Db(map[], [], 1, 1)
    {
      categories, places, nextCategoryId, nextPlaceId := map[], [], 1, 1;
    }

    /**
     * Snapshots the stored categories among `names`, inserts the missing
     * ones (flushed, not committed) and re-reads their ids. `known` maps
     * every name to its category id; `flushed` holds the ids of the
     * inserted categories.
     */
    method ResolveCategories(names: set<string>) returns (known: map<string, int>, flushed: map<string, int>)
      ensures FreshIds(Tables(), names, flushed)
      ensures known == KnownCategories(Tables(), names) + flushed
      ensures known.Keys == names
    {
      var missing := names - categories.Keys;
      flushed := map[];
      if missing != {} {
        flushed := FlushCategories(missing, nextCategoryId);
      }
      known := KnownCategories(Tables(), names) + flushed;
      KnownAfterFlush(Tables(), names, flushed);
    }

    /**
     * Collects the keys of the results, snapshots the stored places among
     * them, resolves the categories and builds the new places. `flushed`
     * holds the ids the database gave to the inserted categories.
     */
    method PlanPlaces(results: seq<Item>) returns (built: Option<seq<PlaceFields>>, flushed: map<string, int>)
      ensures FreshIds(Tables(), CollectNames(results), flushed)
      ensures built == Planned(Tables(), results, flushed)
    {
      var ids, names := CollectKeys(results);
      var existing := ExistingFsqIds(Tables(), ids);
      var known;
      known, flushed := ResolveCategories(names);
      built := BuildNewPlaces(results, existing, known);
    }

    /**
     * Commits the flushed categories `flushed` together with the new places
     * `ps`, when there are any. The `unique` constraint on `fsq_id` rejects
     * a batch with a repeated external id, and then nothing is committed.
     */
    method CommitPlaces(flushed: map<string, int>, ps: seq<PlaceFields>) returns (reply: Reply)
      requires Valid()
      requires ReconcileFacts.CommitReady(Tables(), flushed, ps)
      modifies this
      ensures Valid()
      ensures Outcome(reply, Tables()) == Commit(old(Tables()), flushed, ps)
    {
      if ps == [] {
        return Created([]);
      }
      if !DistinctFsqIds(ps) {
        return Failed(DuplicateFsqId);
      }
      ghost var db := Tables();
      var rows := Numbered(ps, nextPlaceId);
      CommitAppends(db, flushed, ps);
      ReconcileFacts.CommitPreservesValid(db, flushed, ps);
      ghost var committed := Commit(db, flushed, ps);
      categories, places := categories + flushed, places + rows;
      nextCategoryId, nextPlaceId := nextCategoryId + |flushed|, nextPlaceId + |ps|;
      reply := Created(rows);
      assert Outcome(reply, Tables()) == committed;
    }

    /**
     * Handles one search request: `fetch` stands for the upstream call and
     * receives the cleaned parameters. `newIds` records the ids the
     * database gave to the categories it inserted. The reply and the new
     * tables are those `Handle` prescribes, and the table constraints
     * are kept.
     */
    method SearchPlaces(params: SearchParams, fetch: map<string, ParamValue> -> Upstream)
      returns (reply: Reply, ghost newIds: map<string, int>)
      requires Valid()
      modifies this
      ensures Valid()
      ensures Admissible(old(Tables()), fetch(CleanParams(params)), newIds)
      ensures Outcome(reply, Tables()) == Handle(old(Tables()), fetch(CleanParams(params)), newIds)
    {
      newIds := map[];
      var upstream := fetch(CleanParams(params));
      var results: seq<Item>;
      match upstream {
        case ErrorStatus =>
          return Failed(UpstreamNotFound), newIds;
        case TransportError =>
          return Failed(UpstreamUnreachable), newIds;
        case Body(Null) =>
          return Failed(MalformedResults), newIds;
        case Body(Missing) =>
          results := [];
        case Body(Present(s)) =>
          results := s;
      }
      var built, flushed := PlanPlaces(results);
      newIds := flushed;
      if built.None? {
        return Failed(MalformedResults), newIds;
      }
      ReconcileFacts.PlannedIsReady(Tables(), results, flushed, built.value);
      reply := CommitPlaces(flushed, built.value);
    }
  }
}

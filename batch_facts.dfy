/**
 * Properties of a batch of results as a whole: when the commit is rejected
 * for a repeated external id, why committing such a batch would break the
 * `unique` constraint, when a pass fails on a malformed result, and that
 * only the first category of each result matters.
 */
module BatchFacts {
  import opened Wrappers
  import opened Models
  import opened Reconcile
  import opened ReconcileFacts

  /**
   * Some result to be inserted (its external id is not in `existing`) has
   * its external id repeated by a later result of `s`.
   */
  ghost predicate SharesNewId(s: seq<Item>, existing: set<string>) {
    exists i, j :: 0 <= i < j < |s| && IsNew(s[i], existing) && FsqIdOf(s[j]) == FsqIdOf(s[i])
  }

  /** Appending one result adds a repetition exactly when an earlier new result has its id. */
  lemma SharesNewIdSnoc(s: seq<Item>, x: Item, existing: set<string>)
    ensures SharesNewId(s + [x], existing) <==>
      SharesNewId(s, existing) || exists y :: y in s && IsNew(y, existing) && FsqIdOf(y) == FsqIdOf(x)
  {
    var t := s + [x];
    if SharesNewId(t, existing) {
      var i, j :| 0 <= i < j < |t| && IsNew(t[i], existing) && FsqIdOf(t[j]) == FsqIdOf(t[i]);
      if j == |s| {
        assert t[i] == s[i] && t[i] in s;
      } else {
        assert t[i] == s[i] && t[j] == s[j];
      }
    }
    if exists y :: y in s && IsNew(y, existing) && FsqIdOf(y) == FsqIdOf(x) {
      var y :| y in s && IsNew(y, existing) && FsqIdOf(y) == FsqIdOf(x);
      var i :| 0 <= i < |s| && s[i] == y;
      assert t[i] == y && t[|s|] == x;
    }
    if SharesNewId(s, existing) {
      var i, j :| 0 <= i < j < |s| && IsNew(s[i], existing) && FsqIdOf(s[j]) == FsqIdOf(s[i]);
      assert t[i] == s[i] && t[j] == s[j];
    }
  }

  /**
   * The results to insert repeat an external id exactly when the whole batch
   * repeats the id of a result to insert.
   */
  lemma {:induction false} NewItemsShare(s: seq<Item>, existing: set<string>)
    ensures SharesNewId(NewItems(s, existing), existing) <==> SharesNewId(s, existing)
    decreases |s|
  {
    if s != [] {
      var init, last := s[..|s| - 1], s[|s| - 1];
      assert s == init + [last];
      var r0 := NewItems(init, existing);
      NewItemsShare(init, existing);
      SharesNewIdSnoc(init, last, existing);
      if IsNew(last, existing) {
        assert NewItems(s, existing) == r0 + [last];
        SharesNewIdSnoc(r0, last, existing);
      } else {
        assert NewItems(s, existing) == r0;
      }
    }
  }

  /**
   * A pass fails on a malformed result exactly when some result to insert
   * has a null `location`, `geocodes` or `geocodes.main`; a malformed result
   * whose id is stored, or that has no id, is skipped before it is read.
   */
  lemma MalformedIff(db: Db, s: seq<Item>, newIds: map<string, int>)
    ensures Ingest(db, s, newIds).reply == Failed(MalformedResults) <==>
      exists x :: x in s && IsNew(x, StoredFsqIds(db)) && !WellFormed(x)
    ensures Ingest(db, s, newIds).reply == Failed(MalformedResults) ==> Ingest(db, s, newIds).db == db
  {
    SnapshotIsStored(db, s);
    var known := KnownCategories(db, CollectNames(s)) + newIds;
    BuildAllFails(Fresh(db, s), known);
  }

  /**
   * Places built from results that are all to be inserted repeat an external
   * id exactly when the results do.
   */
  lemma BuiltDistinctIff(xs: seq<Item>, existing: set<string>, known: map<string, int>, ps: seq<PlaceFields>)
    requires forall x :: x in xs ==> FsqIdOf(x).Some? && FsqIdOf(x).value !in existing
    requires BuildAll(xs, known) == Some(ps)
    ensures DistinctFsqIds(ps) <==> !SharesNewId(xs, existing)
  {
    BuiltIds(xs, known, ps);
    if SharesNewId(xs, existing) {
      var i, j :| 0 <= i < j < |xs| && IsNew(xs[i], existing) && FsqIdOf(xs[j]) == FsqIdOf(xs[i]);
      assert ps[i].fsqId == ps[j].fsqId;
    }
    if !DistinctFsqIds(ps) {
      var i, j :| 0 <= i < j < |ps| && ps[i].fsqId == ps[j].fsqId;
      assert xs[i] in xs && xs[j] in xs;
      assert FsqIdOf(xs[j]) == FsqIdOf(xs[i]);
    }
  }

  /**
   * The commit is rejected for a repeated external id exactly when every
   * result to insert is well formed and one of them has its external id
   * repeated later in the batch; the store is then left as it was.
   */
  lemma DuplicateIff(db: Db, s: seq<Item>, newIds: map<string, int>)
    ensures Ingest(db, s, newIds).reply == Failed(DuplicateFsqId) <==>
      && (forall x :: x in s && IsNew(x, StoredFsqIds(db)) ==> WellFormed(x))
      && SharesNewId(s, StoredFsqIds(db))
    ensures Ingest(db, s, newIds).reply == Failed(DuplicateFsqId) ==> Ingest(db, s, newIds).db == db
  {
    var stored := StoredFsqIds(db);
    var xs := Fresh(db, s);
    var known := KnownCategories(db, CollectNames(s)) + newIds;
    SnapshotIsStored(db, s);
    assert Planned(db, s, newIds) == BuildAll(xs, known);
    BuildAllFails(xs, known);
    NewItemsShare(s, stored);
    match BuildAll(xs, known)
    case None =>
      var x :| x in xs && !WellFormed(x);
      assert x in s && IsNew(x, stored);
    case Some(ps) =>
      BuiltDistinctIff(xs, stored, known, ps);
      assert (forall x :: x in s && IsNew(x, stored) ==> WellFormed(x)) by {
        forall x | x in s && IsNew(x, stored) ensures WellFormed(x) {
          assert x in xs;
        }
      }
  }

  /**
   * The reason the commit must be rejected: appending places that repeat an
   * external id, with any primary keys, breaks the `unique` constraint on
   * `fsq_id`.
   */
  lemma NaiveCommitBreaksUniqueness(db: Db, ps: seq<PlaceFields>)
    requires !DistinctFsqIds(ps)
    ensures !UniqueFsqIds(db.places + Numbered(ps, db.nextPlaceId))
  {
    var rows := Numbered(ps, db.nextPlaceId);
    var all := db.places + rows;
    var i, j :| 0 <= i < j < |ps| && ps[i].fsqId == ps[j].fsqId;
    var n := |db.places|;
    assert all[n + i] == rows[i] && all[n + j] == rows[j];
  }

  /** A result with its `categories` list cut down to the first entry. */
  function FirstCategoryOnly(x: Item): Item {
    match x.categories
    case Present(cs) => if |cs| == 0 then x else x.(categories := Present([cs[0]]))
    case _ => x
  }

  /** Every result of `s` with its `categories` list cut down to the first entry. */
  function FirstCategoriesOnly(s: seq<Item>): (r: seq<Item>)
    ensures |r| == |s|
    ensures forall k :: 0 <= k < |s| ==> r[k] == FirstCategoryOnly(s[k])
  {
    seq(|s|, k requires 0 <= k < |s| => FirstCategoryOnly(s[k]))
  }

  /** Cutting the categories commutes with dropping the last result. */
  lemma FirstCategoriesInit(s: seq<Item>)
    requires s != []
    ensures FirstCategoriesOnly(s)[..|s| - 1] == FirstCategoriesOnly(s[..|s| - 1])
  {
  }

  lemma {:induction false} IdsIgnoreLaterCategories(s: seq<Item>)
    ensures CollectIds(FirstCategoriesOnly(s)) == CollectIds(s)
    decreases |s|
  {
    if s != [] {
      FirstCategoriesInit(s);
      IdsIgnoreLaterCategories(s[..|s| - 1]);
    }
  }

  lemma {:induction false} NamesIgnoreLaterCategories(s: seq<Item>)
    ensures CollectNames(FirstCategoriesOnly(s)) == CollectNames(s)
    decreases |s|
  {
    if s != [] {
      FirstCategoriesInit(s);
      NamesIgnoreLaterCategories(s[..|s| - 1]);
    }
  }

  lemma {:induction false} NewItemsIgnoreLaterCategories(s: seq<Item>, existing: set<string>)
    ensures NewItems(FirstCategoriesOnly(s), existing) == FirstCategoriesOnly(NewItems(s, existing))
    decreases |s|
  {
    if s != [] {
      var init := s[..|s| - 1];
      FirstCategoriesInit(s);
      NewItemsIgnoreLaterCategories(init, existing);
      var r0 := NewItems(init, existing);
      if IsNew(s[|s| - 1], existing) {
        assert FirstCategoriesOnly(r0 + [s[|s| - 1]]) == FirstCategoriesOnly(r0) + [FirstCategoryOnly(s[|s| - 1])];
      }
    }
  }

  /** Cutting the categories of a result changes nothing that building its place reads. */
  lemma FirstCategoryOnlyKeeps(x: Item, known: map<string, int>)
    ensures FsqIdOf(FirstCategoryOnly(x)) == FsqIdOf(x)
    ensures FsqIdOf(x).Some? ==> BuildPlace(FirstCategoryOnly(x), known) == BuildPlace(x, known)
  {
  }

  lemma {:induction false} BuildIgnoresLaterCategories(xs: seq<Item>, known: map<string, int>)
    requires forall x :: x in xs ==> FsqIdOf(x).Some?
    ensures forall x :: x in FirstCategoriesOnly(xs) ==> FsqIdOf(x).Some?
    ensures BuildAll(FirstCategoriesOnly(xs), known) == BuildAll(xs, known)
    decreases |xs|
  {
    var ys := FirstCategoriesOnly(xs);
    forall y | y in ys ensures FsqIdOf(y).Some? {
      var k :| 0 <= k < |ys| && ys[k] == y;
      assert xs[k] in xs;
      FirstCategoryOnlyKeeps(xs[k], known);
    }
    if xs != [] {
      var init, last := xs[..|xs| - 1], xs[|xs| - 1];
      assert forall x :: x in init ==> x in xs;
      assert last in xs;
      FirstCategoriesInit(xs);
      assert ys == FirstCategoriesOnly(init) + [FirstCategoryOnly(last)];
      BuildIgnoresLaterCategories(init, known);
      FirstCategoryOnlyKeeps(last, known);
    }
  }

  /**
   * Only the first entry of a result's `categories` list is read: cutting
   * every list down to its first entry changes neither the reply nor the
   * committed store.
   */
  lemma LaterCategoriesIgnored(db: Db, s: seq<Item>, newIds: map<string, int>)
    ensures Ingest(db, FirstCategoriesOnly(s), newIds) == Ingest(db, s, newIds)
  {
    var t := FirstCategoriesOnly(s);
    IdsIgnoreLaterCategories(s);
    NamesIgnoreLaterCategories(s);
    var existing := ExistingFsqIds(db, CollectIds(s));
    NewItemsIgnoreLaterCategories(s, existing);
    BuildIgnoresLaterCategories(NewItems(s, existing), KnownCategories(db, CollectNames(s)) + newIds);
  }
}

/**
 * The response of the endpoint: each created place is serialised through
 * the response schema, its category read back through the category
 * reference.
 */
module Response {
  import opened Wrappers
  import opened Models
  import opened Schemas
  import opened Reconcile
  import opened ReconcileFacts

  /** The category a reference loads: the row with that id, if any. */
  ghost function CategoryOutOf(categories: map<string, int>, id: Option<int>): Option<CategoryOut> {
    if id.Some? && id.value in categories.Values then
      var n :| n in categories && categories[n] == id.value;
      Some(CategoryOut(n))
    else
      None
  }

  /** The attributes the serialiser reads from a stored place. */
  ghost function Serialized(p: Place, categories: map<string, int>): PlaceOutSource {
    PlaceOutSource(Some(p.fields.fsqId), p.fields.name, p.fields.address, p.fields.latitude,
                   p.fields.longitude, CategoryOutOf(categories, p.fields.categoryId), p.fields.rating)
  }

  /** With distinct category ids, a reference loads the row it was resolved from. */
  lemma LoadsResolvedCategory(categories: map<string, int>, n: string)
    requires Injective(categories)
    requires n in categories
    ensures CategoryOutOf(categories, Some(categories[n])) == Some(CategoryOut(n))
  {
    assert categories[n] in categories.Values;
  }

  /**
   * Whether the place built from the well-formed result `x` satisfies the
   * response schema: a name is present, the external id, name and address
   * are within their maximum lengths, and a rating lies in [0, 10].
   */
  ghost predicate Servable(x: Item)
    requires WellFormed(x) && FsqIdOf(x).Some?
  {
    var address := AddressOf(LocationOf(x).value);
    && Get(x.name).Some?
    && |FsqIdOf(x).value| <= FsqIdMaxLength
    && |Get(x.name).value| <= NameMaxLength
    && (address.Some? ==> |address.value| <= AddressMaxLength)
    && (Get(x.rating).Some? ==> MinRating <= Get(x.rating).value <= MaxRating)
  }

  /** The serialisation of a row that describes the result `x`. */
  lemma ResponseOfRow(p: Place, x: Item, categories: map<string, int>)
    requires Injective(categories)
    requires DescribesResult(p.fields, x, categories)
    ensures ValidatePlaceOut(Serialized(p, categories)).Success? <==> Servable(x)
    ensures ValidatePlaceOut(Serialized(p, categories)).Success? ==> WithinColumnLengths(p.fields)
    ensures ValidatePlaceOut(Serialized(p, categories)).Success? ==>
      var out := ValidatePlaceOut(Serialized(p, categories)).value;
      && Some(out.fsqId) == FsqIdOf(x)
      && Some(out.name) == Get(x.name)
      && out.category == (if FirstCategoryName(x).Some? then Some(CategoryOut(FirstCategoryName(x).value)) else None)
  {
    if FirstCategoryName(x).Some? {
      LoadsResolvedCategory(categories, FirstCategoryName(x).value);
    }
  }

  /**
   * The serialisation of a created place, read from the committed store,
   * succeeds exactly when the result it was built from is servable; it then
   * echoes the result's external id and name, its category is the first
   * category of the result, carrying only its name, and the stored row fits
   * the declared column widths.
   */
  lemma ResponseOfCreatedPlace(db: Db, s: seq<Item>, newIds: map<string, int>, rows: seq<Place>, db': Db, k: nat)
    requires Valid(db)
    requires FreshIds(db, CollectNames(s), newIds)
    requires Ingest(db, s, newIds) == Outcome(Created(rows), db')
    requires k < |rows|
    ensures k < |Fresh(db, s)| && WellFormed(Fresh(db, s)[k]) && FsqIdOf(Fresh(db, s)[k]).Some?
    ensures ValidatePlaceOut(Serialized(rows[k], db'.categories)).Success? <==> Servable(Fresh(db, s)[k])
    ensures ValidatePlaceOut(Serialized(rows[k], db'.categories)).Success? ==> WithinColumnLengths(rows[k].fields)
    ensures ValidatePlaceOut(Serialized(rows[k], db'.categories)).Success? ==>
      var out := ValidatePlaceOut(Serialized(rows[k], db'.categories)).value;
      var x := Fresh(db, s)[k];
      && Some(out.fsqId) == FsqIdOf(x)
      && Some(out.name) == Get(x.name)
      && out.category == (if FirstCategoryName(x).Some? then Some(CategoryOut(FirstCategoryName(x).value)) else None)
  {
    CreatedPlaces(db, s, newIds, rows, db');
    IngestPreservesValid(db, s, newIds);
    assert DescribesResult(rows[k].fields, Fresh(db, s)[k], db'.categories);
    ResponseOfRow(rows[k], Fresh(db, s)[k], db'.categories);
  }
}

/**
 * The two tables of the place cache (`categories` and `places`) and the
 * constraints their declarations put on the stored rows.
 */
module Models {
  import opened Wrappers

  /** Declared widths of the `fsq_id`, `name` and `address` columns of `places`. */
  const FsqIdColumnLength: nat := 100
  const NameColumnLength: nat := 200
  const AddressColumnLength: nat := 300

  /** A row of `categories`: an integer primary key and a unique, non-null name. */
  datatype Category = Category(id: int, name: string)

  /**
   * The columns of a `places` row other than its primary key and its
   * server-generated timestamps. Latitude, longitude and rating are carried
   * through unchanged and are never computed on.
   */
  datatype PlaceFields = PlaceFields(
    fsqId: string,
    name: Option<string>,
    address: Option<string>,
    latitude: Option<real>,
    longitude: Option<real>,
    categoryId: Option<int>,
    rating: Option<real>)

  /** A row of `places`: its primary key and its columns. */
  datatype Place = Place(id: int, fields: PlaceFields)

  /**
   * The committed contents of the database. `categories` maps each category
   * name to its primary key, so a name occurs at most once by construction;
   * `places` holds the place rows in insertion order; the two counters are
   * the next primary keys the tables will hand out.
   */
  datatype Db = Db(
    categories: map<string, int>,
    places: seq<Place>,
    nextCategoryId: int,
    nextPlaceId: int)

  /** No two names share a category id. */
  predicate Injective(m: map<string, int>) {
    forall a, b :: a in m && b in m && a != b ==> m[a] != m[b]
  }

  /** The `unique=True` constraint on `places.fsq_id`. */
  predicate UniqueFsqIds(places: seq<Place>) {
    forall i, j :: 0 <= i < j < |places| ==> places[i].fields.fsqId != places[j].fields.fsqId
  }

  /** The `fsq_id` values present in the `places` table. */
  function StoredFsqIds(db: Db): set<string> {
    set p | p in db.places :: p.fields.fsqId
  }

  /** The `categories` table as a set of rows. */
  function CategoryRows(categories: map<string, int>): set<Category> {
    set n | n in categories :: Category(categories[n], n)
  }

  /**
   * The table constraints: category ids are distinct primary keys below the
   * next id, category names are unique (by the map), `fsq_id` is unique,
   * place ids are distinct primary keys below the next id, and every non-null
   * `category_id` refers to an existing category.
   */
  predicate Valid(db: Db) {
    && Injective(db.categories)
    && (forall n :: n in db.categories ==> db.categories[n] < db.nextCategoryId)
    && UniqueFsqIds(db.places)
    && (forall i, j :: 0 <= i < j < |db.places| ==> db.places[i].id != db.places[j].id)
    && (forall i :: 0 <= i < |db.places| ==> db.places[i].id < db.nextPlaceId)
    && (forall i :: 0 <= i < |db.places| && db.places[i].fields.categoryId.Some? ==>
          db.places[i].fields.categoryId.value in db.categories.Values)
  }

  /** Whether a row's strings fit the declared column widths. */
  predicate WithinColumnLengths(p: PlaceFields) {
    && |p.fsqId| <= FsqIdColumnLength
    && (p.name.Some? ==> |p.name.value| <= NameColumnLength)
    && (p.address.Some? ==> |p.address.value| <= AddressColumnLength)
  }

  /**
   * In a valid database a category row is identified both by its name and by
   * its integer primary key.
   */
  lemma CategoryKeys(db: Db, c: Category, d: Category)
    requires Valid(db)
    requires c in CategoryRows(db.categories) && d in CategoryRows(db.categories)
    ensures c.name == d.name ==> c == d
    ensures c.id == d.id ==> c == d
  {
  }

  /**
   * Nothing limits how many places refer to one category: two places with
   * the same `category_id` form a valid database.
   */
  lemma CategorySharedByPlaces(name: string, id: int, a: PlaceFields, b: PlaceFields)
    requires a.fsqId != b.fsqId
    requires a.categoryId == Some(id) && b.categoryId == Some(id)
    ensures Valid(Db(map[name := id], [Place(1, a), Place(2, b)], id + 1, 3))
  {
    assert map[name := id][name] == id;
  }
}

/**
 * The reconciliation pass of the search endpoint, as functions of the
 * committed database and the upstream results: which category rows and
 * which place rows one request commits, and what it returns.
 */
module Reconcile {
  import opened Wrappers
  import opened Models
  import opened Schemas

  /** A member of an upstream JSON object: key absent, explicit null, or a value. */
  datatype Json<T> = Missing | Null | Present(value: T)

  /** `obj.get(key)`: an absent key and a null both read as `None`. */
  function Get<T>(j: Json<T>): Option<T> {
    if j.Present? then Some(j.value) else None
  }

  /** `obj.get(key, default)`: only an absent key yields the default; a null stays null. */
  function GetOr<T>(j: Json<T>, default: T): Option<T> {
    match j
    case Missing => Some(default)
    case Null => None
    case Present(v) => Some(v)
  }

  /** Python's truth test on an optional string: `None` and `""` are false. */
  function NonEmpty(s: Option<string>): Option<string> {
    if s.Some? && s.value != "" then s else None
  }

  /** An entry of a result's `categories` list. */
  datatype CategoryEntry = CategoryEntry(name: Json<string>)

  /** A result's `location` object. */
  datatype Location = Location(formattedAddress: Json<string>, address: Json<string>)

  /** The `geocodes.main` object of a result. */
  datatype Coordinates = Coordinates(latitude: Json<real>, longitude: Json<real>)

  /** A result's `geocodes` object. */
  datatype Geocodes = Geocodes(main: Json<Coordinates>)

  /** One place record returned by the upstream search; every member is optional. */
  datatype Item = Item(
    fsqId: Json<string>,
    name: Json<string>,
    location: Json<Location>,
    geocodes: Json<Geocodes>,
    rating: Json<real>,
    categories: Json<seq<CategoryEntry>>)

  /**
   * What the upstream search gave: a JSON body with an optional `results`
   * member, a status other than 200 (reported as "not found"), or a
   * transport failure that escapes as an exception.
   */
  datatype Upstream = Body(results: Json<seq<Item>>) | ErrorStatus | TransportError

  /** Why a request produced no places. */
  datatype Failure =
    | UpstreamNotFound     // status 404 raised for a non-200 upstream status
    | UpstreamUnreachable  // uncaught transport exception
    | MalformedResults     // uncaught exception on a null `results`, `location`, `geocodes` or `geocodes.main`
    | DuplicateFsqId       // uncaught integrity error of the commit

  /** The reply of the endpoint: the newly created places, or a failure. */
  datatype Reply = Created(places: seq<Place>) | Failed(failure: Failure)

  /** The reply together with the committed database after the request. */
  datatype Outcome = Outcome(reply: Reply, db: Db)

  /** A query parameter forwarded upstream. */
  datatype ParamValue = Text(text: string) | Number(number: int)

  /**
   * The parameters forwarded upstream: exactly those of `query`, `near` and
   * `limit` that are set, each with its value.
   */
  function CleanParams(p: SearchParams): (r: map<string, ParamValue>)
    ensures r.Keys <= {"query", "near", "limit"}
    ensures "query" in r <==> p.query.Some?
    ensures "near" in r <==> p.near.Some?
    ensures "limit" in r <==> p.limit.Some?
    ensures p.query.Some? ==> r["query"] == Text(p.query.value)
    ensures p.near.Some? ==> r["near"] == Text(p.near.value)
    ensures p.limit.Some? ==> r["limit"] == Number(p.limit.value)
  {
    var all := map[
      "query" := (if p.query.Some? then Some(Text(p.query.value)) else None),
      "near" := (if p.near.Some? then Some(Text(p.near.value)) else None),
      "limit" := (if p.limit.Some? then Some(Number(p.limit.value)) else None)];
    map k | k in all && all[k].Some? :: all[k].value
  }

  /** The external id of a result, when it is present and not empty. */
  function FsqIdOf(item: Item): Option<string> {
    NonEmpty(Get(item.fsqId))
  }

  /**
   * The name of a result's first category, when the list is non-empty and
   * that name is present and not empty. Later entries are never read.
   */
  function FirstCategoryName(item: Item): Option<string> {
    match item.categories
    case Present(cs) => if |cs| == 0 then None else NonEmpty(Get(cs[0].name))
    case _ => None
  }

  /** The external ids of the results, in order, skipping results without one. */
  function CollectIds(s: seq<Item>): (r: seq<string>)
    ensures |r| <= |s|
    ensures forall f :: f in r <==> exists x :: x in s && FsqIdOf(x) == Some(f)
    decreases |s|
  {
    if s == [] then []
    else
      var init, last := s[..|s| - 1], s[|s| - 1];
      assert s == init + [last];
      match FsqIdOf(last)
      case Some(f) => CollectIds(init) + [f]
      case None => CollectIds(init)
  }

  /** The first-category names of the results, as a set. */
  function CollectNames(s: seq<Item>): (r: set<string>)
    ensures forall n :: n in r <==> exists x :: x in s && FirstCategoryName(x) == Some(n)
    decreases |s|
  {
    if s == [] then {}
    else
      var init, last := s[..|s| - 1], s[|s| - 1];
      assert s == init + [last];
      match FirstCategoryName(last)
      case Some(n) => CollectNames(init) + {n}
      case None => CollectNames(init)
  }

  /** The snapshot of stored external ids among `ids`. */
  function ExistingFsqIds(db: Db, ids: seq<string>): (r: set<string>)
    ensures forall f :: f in r <==> f in ids && f in StoredFsqIds(db)
  {
    set p | p in db.places && p.fields.fsqId in ids :: p.fields.fsqId
  }

  /** The snapshot of stored categories among `names`. */
  function KnownCategories(db: Db, names: set<string>): (r: map<string, int>)
    ensures r.Keys == names * db.categories.Keys
    ensures forall n :: n in r ==> r[n] == db.categories[n]
  {
    map n | n in names && n in db.categories :: db.categories[n]
  }

  /**
   * `newIds` gives each name of `newNames` its own id, drawn from the
   * `|newNames|` ids starting at `next`.
   */
  ghost predicate IdsFrom(newNames: set<string>, next: int, newIds: map<string, int>) {
    && newIds.Keys == newNames
    && Injective(newIds)
    && forall n :: n in newIds ==> next <= newIds[n] < next + |newNames|
  }

  /**
   * The ids the database may give to the categories inserted for `names`:
   * one fresh id for each name not yet stored. The order in which the names
   * are inserted is not fixed, so neither is the assignment.
   */
  ghost predicate FreshIds(db: Db, names: set<string>, newIds: map<string, int>) {
    IdsFrom(names - db.categories.Keys, db.nextCategoryId, newIds)
  }

  /** Whether a result is to be inserted: it has an external id not in `existing`. */
  predicate IsNew(x: Item, existing: set<string>) {
    FsqIdOf(x).Some? && FsqIdOf(x).value !in existing
  }

  /** The results to be inserted, in result order. */
  function NewItems(s: seq<Item>, existing: set<string>): (r: seq<Item>)
    ensures |r| <= |s|
    ensures forall x :: x in r <==> x in s && IsNew(x, existing)
    decreases |s|
  {
    if s == [] then []
    else
      var init, last := s[..|s| - 1], s[|s| - 1];
      assert s == init + [last];
      if IsNew(last, existing) then NewItems(init, existing) + [last] else NewItems(init, existing)
  }

  /** `item.get("location", {})`; `None` when the member is null (the source raises). */
  function LocationOf(item: Item): Option<Location> {
    match item.location
    case Missing => Some(Location(Missing, Missing))
    case Null => None
    case Present(l) => Some(l)
  }

  /**
   * `item.get("geocodes", {}).get("main", {})`; `None` when either object is
   * null (the source raises).
   */
  function CoordinatesOf(item: Item): Option<Coordinates> {
    match item.geocodes
    case Missing => Some(Coordinates(Missing, Missing))
    case Null => None
    case Present(g) =>
      match g.main
      case Missing => Some(Coordinates(Missing, Missing))
      case Null => None
      case Present(c) => Some(c)
  }

  /** Whether building a place from the result raises no exception. */
  predicate WellFormed(item: Item) {
    LocationOf(item).Some? && CoordinatesOf(item).Some?
  }

  /**
   * The address of a place: the formatted address when it is present and
   * not empty, otherwise the plain address, where an absent plain address
   * reads as "" and a null one stays null.
   */
  function AddressOf(loc: Location): (r: Option<string>)
    ensures NonEmpty(Get(loc.formattedAddress)).Some? ==> r == Some(loc.formattedAddress.value)
    ensures NonEmpty(Get(loc.formattedAddress)).None? ==>
      match loc.address
      case Missing => r == Some("")
      case Null => r == None
      case Present(a) => r == Some(a)
  {
    var formatted := Get(loc.formattedAddress);
    if NonEmpty(formatted).Some? then formatted else GetOr(loc.address, "")
  }

  /**
   * The category reference of a place: the id `known` gives the name of its
   * first category, or `None` when it names none.
   */
  function CategoryIdOf(item: Item, known: map<string, int>): (r: Option<int>)
    ensures r.Some? <==> FirstCategoryName(item).Some? && FirstCategoryName(item).value in known
    ensures r.Some? ==> r.value == known[FirstCategoryName(item).value]
  {
    match FirstCategoryName(item)
    case None => None
    case Some(n) => if n in known then Some(known[n]) else None
  }

  /** The place built from a result to be inserted; `None` when building it raises. */
  function BuildPlace(item: Item, known: map<string, int>): (r: Option<PlaceFields>)
    requires FsqIdOf(item).Some?
    ensures r.Some? <==> WellFormed(item)
  {
    match (LocationOf(item), CoordinatesOf(item))
    case (Some(loc), Some(c)) =>
      Some(PlaceFields(FsqIdOf(item).value, Get(item.name), AddressOf(loc),
                       Get(c.latitude), Get(c.longitude), CategoryIdOf(item, known),
                       Get(item.rating)))
    case _ => None
  }

  /**
   * The places built from `xs`, one per result and in the same order, or
   * `None` when building any of them raises.
   */
  function BuildAll(xs: seq<Item>, known: map<string, int>): (r: Option<seq<PlaceFields>>)
    requires forall x :: x in xs ==> FsqIdOf(x).Some?
    ensures r.Some? <==> forall k :: 0 <= k < |xs| ==> BuildPlace(xs[k], known).Some?
    ensures r.Some? ==> |r.value| == |xs|
    ensures r.Some? ==> forall k :: 0 <= k < |xs| ==> BuildPlace(xs[k], known) == Some(r.value[k])
    decreases |xs|
  {
    if xs == [] then Some([])
    else
      var init, last := xs[..|xs| - 1], xs[|xs| - 1];
      assert xs == init + [last];
      match (BuildAll(init, known), BuildPlace(last, known))
      case (Some(ps), Some(p)) => Some(ps + [p])
      case (None, _) => None
      case (_, None) => None
  }

  /** No two of the places share an external id. */
  predicate DistinctFsqIds(ps: seq<PlaceFields>) {
    forall i, j :: 0 <= i < j < |ps| ==> ps[i].fsqId != ps[j].fsqId
  }

  /** The rows the commit creates: consecutive primary keys from `first`, in order. */
  function Numbered(ps: seq<PlaceFields>, first: int): (r: seq<Place>)
    ensures |r| == |ps|
    ensures forall k :: 0 <= k < |ps| ==> r[k] == Place(first + k, ps[k])
  {
    seq(|ps|, k requires 0 <= k < |ps| => Place(first + k, ps[k]))
  }

  /**
   * The places a pass over the results `s` builds, or `None` when building
   * one of them raises: one per result whose external id is not in the
   * snapshot of stored ids, with categories resolved through the snapshot of
   * stored categories extended by `newIds`, the ids the database gives to
   * the categories it inserts.
   */
  function Planned(db: Db, s: seq<Item>, newIds: map<string, int>): Option<seq<PlaceFields>> {
    var names := CollectNames(s);
    var existing := ExistingFsqIds(db, CollectIds(s));
    BuildAll(NewItems(s, existing), KnownCategories(db, names) + newIds)
  }

  /**
   * The commit of the built places `ps`: nothing when there are none; the
   * new categories and places together otherwise, unless two new places
   * share an external id, which the `unique` constraint rejects and which
   * then commits nothing.
   */
  function Commit(db: Db, newIds: map<string, int>, ps: seq<PlaceFields>): (r: Outcome)
    ensures r.reply.Failed? || |r.reply.places| == |ps|
    ensures r.reply.Failed? || r.reply.places == [] ==> r.db == db
    ensures r.reply.Created? ==> r.db.places == db.places + r.reply.places
  {
    if ps == [] then Outcome(Created([]), db)
    else if !DistinctFsqIds(ps) then Outcome(Failed(DuplicateFsqId), db)
    else
      var rows := Numbered(ps, db.nextPlaceId);
      Outcome(Created(rows),
              Db(db.categories + newIds, db.places + rows,
                 db.nextCategoryId + |newIds|, db.nextPlaceId + |ps|))
  }

  /**
   * One reconciliation pass over the results `s`. Nothing is committed
   * unless at least one new place is built; a failure commits nothing.
   */
  function Ingest(db: Db, s: seq<Item>, newIds: map<string, int>): (r: Outcome)
    ensures r.reply.Failed? || r.reply.places == [] ==> r.db == db
    ensures r.reply.Created? ==> r.db.places == db.places + r.reply.places
  {
    match Planned(db, s, newIds)
    case None => Outcome(Failed(MalformedResults), db)
    case Some(ps) => Commit(db, newIds, ps)
  }

  /** The results the upstream answer carries, when it carries any. */
  function ResultsOf(up: Upstream): Option<seq<Item>> {
    match up
    case Body(Missing) => Some([])
    case Body(Present(s)) => Some(s)
    case _ => None
  }

  /** A request, given what the upstream search answered. */
  function Handle(db: Db, up: Upstream, newIds: map<string, int>): (r: Outcome)
    ensures r.reply.Failed? || r.reply.places == [] ==> r.db == db
    ensures up.Body? && up.results.Present? ==> r == Ingest(db, up.results.value, newIds)
    ensures !up.Body? || up.results.Null? ==> r.reply.Failed? && r.db == db
  {
    match up
    case ErrorStatus => Outcome(Failed(UpstreamNotFound), db)
    case TransportError => Outcome(Failed(UpstreamUnreachable), db)
    case Body(Null) => Outcome(Failed(MalformedResults), db)
    case Body(Missing) => Ingest(db, [], newIds)
    case Body(Present(s)) => Ingest(db, s, newIds)
  }

  /** The category ids the database may assign while handling `up`. */
  ghost predicate Admissible(db: Db, up: Upstream, newIds: map<string, int>) {
    match ResultsOf(up)
    case Some(s) => FreshIds(db, CollectNames(s), newIds)
    case None => newIds == map[]
  }
}

/**
 * The request and response schemas of the search endpoint: the bounds and
 * defaults of the query parameters and the field constraints of a place in
 * the response.
 */
module Schemas {
  import opened Wrappers

  /** Default, least and greatest accepted `limit`. */
  const DefaultLimit: int := 10
  const MinLimit: int := 1
  const MaxLimit: int := 50

  /** Declared `max_length` of the response fields. */
  const FsqIdMaxLength: nat := 100
  const NameMaxLength: nat := 200
  const AddressMaxLength: nat := 300

  /** Declared bounds of the response `rating`. */
  const MinRating: real := 0.0
  const MaxRating: real := 10.0

  /** Validated query parameters of a search. */
  datatype SearchParams = SearchParams(query: Option<string>, near: Option<string>, limit: Option<int>)

  /** Why the query parameters were rejected. */
  datatype ParamError = LimitBelowMinimum(limit: int) | LimitAboveMaximum(limit: int)

  /** Parameters as validation leaves them: `limit` is set and within its bounds. */
  predicate ValidSearchParams(p: SearchParams) {
    p.limit.Some? && MinLimit <= p.limit.value <= MaxLimit
  }

  /**
   * Validates the query parameters as supplied by the caller (`None` when a
   * parameter is not supplied): `query` and `near` default to `None`,
   * `limit` defaults to 10 and is accepted only within [1, 50].
   */
  function ParseSearchParams(query: Option<string>, near: Option<string>, limit: Option<int>)
    : (r: Result<SearchParams, ParamError>)
    ensures r.Success? <==> limit.None? || MinLimit <= limit.value <= MaxLimit
    ensures r.Success? ==> ValidSearchParams(r.value)
    ensures r.Success? ==> r.value.query == query && r.value.near == near
    ensures r.Success? ==> r.value.limit == Some(if limit.None? then DefaultLimit else limit.value)
    ensures r.Failure? ==> limit.Some? && (r.error.limit == limit.value)
    ensures r.Failure? ==> (r.error.LimitBelowMinimum? <==> limit.value < MinLimit)
  {
    match limit
    case None => Success(SearchParams(query, near, Some(DefaultLimit)))
    case Some(n) =>
      if n < MinLimit then Failure(LimitBelowMinimum(n))
      else if n > MaxLimit then Failure(LimitAboveMaximum(n))
      else Success(SearchParams(query, near, limit))
  }

  /** Validating already validated parameters changes nothing. */
  lemma ParseValidIsIdentity(p: SearchParams)
    requires ValidSearchParams(p)
    ensures ParseSearchParams(p.query, p.near, p.limit) == Success(p)
  {
  }

  /** The serialised category of a place: only its name. */
  datatype CategoryOut = CategoryOut(name: string)

  /** A place as the endpoint returns it (timestamps are not modelled). */
  datatype PlaceOut = PlaceOut(
    fsqId: string,
    name: string,
    address: Option<string>,
    latitude: Option<real>,
    longitude: Option<real>,
    category: Option<CategoryOut>,
    rating: Option<real>)

  /** The attributes the serialiser reads from a stored place; any may be null. */
  datatype PlaceOutSource = PlaceOutSource(
    fsqId: Option<string>,
    name: Option<string>,
    address: Option<string>,
    latitude: Option<real>,
    longitude: Option<real>,
    category: Option<CategoryOut>,
    rating: Option<real>)

  /** The response fields that carry a constraint. */
  datatype Field = FsqIdField | NameField | AddressField | RatingField

  /** One violated constraint of the response schema. */
  datatype FieldError = Required(field: Field) | TooLong(field: Field, maxLength: nat) | OutOfRange(field: Field)

  /**
   * Whether `e` describes a constraint that `src` violates: `fsq_id` and
   * `name` are required, `fsq_id`, `name` and `address` have a maximum
   * length, and a present `rating` lies in [0, 10].
   */
  predicate Violates(src: PlaceOutSource, e: FieldError) {
    match e
    case Required(f) => (f == FsqIdField && src.fsqId.None?) || (f == NameField && src.name.None?)
    case TooLong(f, m) =>
      || (f == FsqIdField && m == FsqIdMaxLength && src.fsqId.Some? && |src.fsqId.value| > m)
      || (f == NameField && m == NameMaxLength && src.name.Some? && |src.name.value| > m)
      || (f == AddressField && m == AddressMaxLength && src.address.Some? && |src.address.value| > m)
    case OutOfRange(f) =>
      f == RatingField && src.rating.Some? && !(MinRating <= src.rating.value <= MaxRating)
  }

  /** The checks of one field, in declaration order. */
  function FsqIdErrors(src: PlaceOutSource): seq<FieldError> {
    match src.fsqId
    case None => [Required(FsqIdField)]
    case Some(s) => if |s| > FsqIdMaxLength then [TooLong(FsqIdField, FsqIdMaxLength)] else []
  }

  function NameErrors(src: PlaceOutSource): seq<FieldError> {
    match src.name
    case None => [Required(NameField)]
    case Some(s) => if |s| > NameMaxLength then [TooLong(NameField, NameMaxLength)] else []
  }

  function AddressErrors(src: PlaceOutSource): seq<FieldError> {
    match src.address
    case None => []
    case Some(s) => if |s| > AddressMaxLength then [TooLong(AddressField, AddressMaxLength)] else []
  }

  function RatingErrors(src: PlaceOutSource): seq<FieldError> {
    match src.rating
    case None => []
    case Some(x) => if x < MinRating || x > MaxRating then [OutOfRange(RatingField)] else []
  }

  /**
   * Validates a place for the response, collecting every violated
   * constraint. It succeeds exactly when no constraint is violated, and then
   * copies the fields through.
   */
  function ValidatePlaceOut(src: PlaceOutSource): (r: Result<PlaceOut, seq<FieldError>>)
    ensures forall e :: r.Failure? && e in r.error ==> Violates(src, e)
    ensures forall e :: Violates(src, e) ==> r.Failure? && e in r.error
    ensures r.Success? <==> forall e :: !Violates(src, e)
    ensures r.Success? ==>
      && src.fsqId == Some(r.value.fsqId) && src.name == Some(r.value.name)
      && r.value.address == src.address && r.value.latitude == src.latitude
      && r.value.longitude == src.longitude && r.value.category == src.category
      && r.value.rating == src.rating
  {
    var errors := FsqIdErrors(src) + NameErrors(src) + AddressErrors(src) + RatingErrors(src);
    if errors == [] then
      Success(PlaceOut(src.fsqId.value, src.name.value, src.address, src.latitude,
                       src.longitude, src.category, src.rating))
    else
      assert Violates(src, errors[0]);
      Failure(errors)
  }
}

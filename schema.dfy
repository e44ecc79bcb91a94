/**
 * The shapes shared by both repositories: the two tables `brand(id, name,
 * is_active)` and `brand_model(id, name, is_active, brand_id)`, keyed by `id`,
 * the request payloads, and the errors a repository call can return.
 */
module Schema {

  /** A UUID: the code only ever compares two of them for equality. */
  type Uuid(==, !new)

  /** Both `name` columns are `varchar(100)`. */
  const MaxNameLength: nat := 100

  datatype Option<T> = None | Some(value: T)

  /** Body of POST and PUT on a brand: a row without its key, the status optional. */
  datatype Brand = Brand(name: string, isActive: Option<bool>)

  /** A row of table `brand`. */
  datatype Brands = Brands(id: Uuid, name: string, isActive: bool)

  /** Body of POST on a model: the parent brand is optional (and ignored). */
  datatype BrandModel = BrandModel(name: string, isActive: bool, brandId: Option<Uuid>)

  /** A row of table `brand_model`; also the body of PUT on a model. */
  datatype BrandModels = BrandModels(id: Uuid, name: string, isActive: bool, brandId: Uuid)

  /** A table is a map from primary key to row. */
  type BrandTable = map<Uuid, Brands>
  type ModelTable = map<Uuid, BrandModels>

  /** The failures of the database driver that the model tells apart. */
  datatype DbError =
    | NotFound             // a statement that must return a row matched none
    | ValueTooLong         // a name the column rejects
    | ForeignKeyViolation  // a model row whose brand_id names no brand row

  /** What a repository call returns on failure. */
  datatype CustomError =
    | Status(code: int, message: string)  // built explicitly by the repository
    | FromDiesel(cause: DbError)          // a driver error passed on unchanged by `?`
    | NoConnection                        // no pooled connection could be acquired

  datatype Result<T> = Ok(value: T) | Err(error: CustomError)

  /** Whether the pool hands out a connection for this call. */
  datatype Connection = Open | Refused

  /**
   * A `varchar(100)` column accepts a longer value only when every
   * character past the hundredth is a space.
   */
  predicate NameFits(name: string) {
    forall i :: MaxNameLength <= i < |name| ==> name[i] == ' '
  }

  /** The value such a column stores: an accepted name cut to the column's width. */
  function StoredName(name: string): (s: string)
    requires NameFits(name)
    ensures |s| <= MaxNameLength
    ensures |s| <= |name| && s == name[..|s|]
    ensures forall i :: |s| <= i < |name| ==> name[i] == ' '
    ensures |name| <= MaxNameLength ==> s == name
    ensures |name| > MaxNameLength ==> |s| == MaxNameLength
  {
    if |name| <= MaxNameLength then name else name[..MaxNameLength]
  }

  /** Every brand row is stored under its own id and its name within the column's width. */
  ghost predicate BrandsKeyed(t: BrandTable) {
    forall k :: k in t ==> t[k].id == k && |t[k].name| <= MaxNameLength
  }

  /** Every model row is stored under its own id and its name within the column's width. */
  ghost predicate ModelsKeyed(t: ModelTable) {
    forall k :: k in t ==> t[k].id == k && |t[k].name| <= MaxNameLength
  }

  /** The foreign key `brand_model.brand_id -> brand.id` holds. */
  ghost predicate Referenced(models: ModelTable, brands: BrandTable) {
    forall k :: k in models ==> models[k].brandId in brands
  }

  /** Some model row belongs to brand `b`. */
  ghost predicate HasModels(models: ModelTable, b: Uuid) {
    exists k :: k in models && models[k].brandId == b
  }

  /**
   * How the three update operations classify a failed statement: "no row
   * matched" is a 404, anything else a 500.
   */
  function UpdateFailure(e: DbError): (err: CustomError)
    ensures err.Status?
    ensures err.code == 404 <==> e == NotFound
    ensures e == NotFound ==> err.message == "Not found"
    ensures e != NotFound ==> err == Status(500, "Internal error")
  {
    match e
    case NotFound => Status(404, "Not found")
    case _ => Status(500, "Internal error")
  }
}

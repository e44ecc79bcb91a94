/**
 * The read side of the brand repository and the rows its writes produce:
 * listing and fetching brands as functions of the `brand` table, and the row
 * an INSERT builds, the changeset a PUT applies and the status patch.
 */
module BrandRepo {
  import opened Schema
  import opened Query

  /** GET /brands: every stored brand, in whatever order the table is scanned. */
  ghost function RetrieveBrands(conn: Connection, t: BrandTable): (r: Result<seq<Brands>>)
    requires BrandsKeyed(t)
    ensures conn.Refused? ==> r == Err(NoConnection)
    ensures conn.Open? ==> r.Ok?
    ensures r.Ok? ==> |r.value| == |t|
    ensures r.Ok? ==> forall row :: row in r.value <==> row.id in t && t[row.id] == row
    ensures r.Ok? ==> forall i, j :: 0 <= i < j < |r.value| ==> r.value[i].id != r.value[j].id
  {
    match conn
    case Refused => Err(NoConnection)
    case Open =>
      var ks := SelectKeys(t, (k: Uuid, row: Brands) => true);
      assert Affected(t, (k: Uuid, row: Brands) => true) == t.Keys;
      ScannedRows(t, ks);
      Ok(Rows(t, ks))
  }

  /** Loading the rows under a scan of all keys yields every row once. */
  lemma ScannedRows(t: BrandTable, ks: seq<Uuid>)
    requires BrandsKeyed(t)
    requires forall k :: k in ks <==> k in t
    requires Distinct(ks)
    ensures forall row :: row in Rows(t, ks) <==> row.id in t && t[row.id] == row
    ensures forall i, j :: 0 <= i < j < |ks| ==> Rows(t, ks)[i].id != Rows(t, ks)[j].id
  {
  }

  /** GET /brand/{id}: the first row whose key is `id`. */
  ghost function RetrieveBrand(conn: Connection, t: BrandTable, id: Uuid): (r: Result<Brands>)
    ensures conn.Refused? ==> r == Err(NoConnection)
    ensures conn.Open? ==> (r.Ok? <==> id in t)
    ensures r.Ok? ==> id in t && r.value == t[id]
    ensures conn.Open? && id !in t ==> r == Err(FromDiesel(NotFound))
  {
    match conn
    case Refused => Err(NoConnection)
    case Open =>
      var ks := SelectKeys(t, (k: Uuid, row: Brands) => k == id);
      if |ks| == 0 then
        assert id !in ks;
        Err(FromDiesel(NotFound))
      else
        assert ks[0] in ks;
        Ok(t[ks[0]])
  }

  /** The row POST /brand inserts under the fresh key `id`: an omitted status means active. */
  function NewBrand(id: Uuid, brand: Brand): (row: Brands)
    ensures row.id == id && row.name == brand.name
    ensures brand.isActive == Some(false) <==> !row.isActive
  {
    Brands(id, brand.name, match brand.isActive case Some(a) => a case None => true)
  }

  /**
   * The changeset PUT /brand/{id} applies: `name` always, `is_active` only
   * when the body carries one; a `None` field is left out of the SET clause.
   */
  function Changeset(row: Brands, brand: Brand): (updated: Brands)
    ensures updated.id == row.id && updated.name == brand.name
    ensures brand.isActive.None? ==> updated.isActive == row.isActive
    ensures brand.isActive.Some? ==> updated.isActive == brand.isActive.value
  {
    match brand.isActive
    case Some(a) => Brands(row.id, brand.name, a)
    case None => row.(name := brand.name)
  }

  /** PATCH /brand/{id}/status sets the one column `is_active`. */
  function SetStatus(row: Brands, isActive: bool): (updated: Brands)
    ensures updated.id == row.id && updated.name == row.name
    ensures updated.isActive == isActive
  {
    row.(isActive := isActive)
  }
}

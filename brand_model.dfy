/**
 * The read side of the brand-model repository and the rows its writes
 * produce. A model is always addressed through the pair (brand id, model id):
 * a model stored under one brand is invisible under every other.
 */
module BrandModelRepo {
  import opened Schema
  import opened Query

  /**
   * GET /brand/{brand_id}/models: every model whose `brand_id` is `b`, in
   * scan order; empty when there is none, whether or not brand `b` exists.
   */
  ghost function RetrieveBrandModels(conn: Connection, t: ModelTable, b: Uuid): (r: Result<seq<BrandModels>>)
    requires ModelsKeyed(t)
    ensures conn.Refused? ==> r == Err(NoConnection)
    ensures conn.Open? ==> r.Ok?
    ensures r.Ok? ==> forall row :: row in r.value <==> row.id in t && t[row.id] == row && row.brandId == b
    ensures r.Ok? ==> forall i, j :: 0 <= i < j < |r.value| ==> r.value[i].id != r.value[j].id
    ensures r.Ok? ==> (r.value == [] <==> !HasModels(t, b))
  {
    match conn
    case Refused => Err(NoConnection)
    case Open =>
      var ks := SelectKeys(t, (k: Uuid, row: BrandModels) => row.brandId == b);
      FilteredRows(t, ks, b);
      Ok(Rows(t, ks))
  }

  /** Loading the rows under the keys of brand `b`'s models yields each such row once. */
  lemma FilteredRows(t: ModelTable, ks: seq<Uuid>, b: Uuid)
    requires ModelsKeyed(t)
    requires forall k :: k in ks <==> k in t && t[k].brandId == b
    requires Distinct(ks)
    ensures forall row :: row in Rows(t, ks) <==> row.id in t && t[row.id] == row && row.brandId == b
    ensures forall i, j :: 0 <= i < j < |ks| ==> Rows(t, ks)[i].id != Rows(t, ks)[j].id
    ensures Rows(t, ks) == [] <==> !HasModels(t, b)
  {
    var rows := Rows(t, ks);
    forall row | row in rows ensures row.id in t && t[row.id] == row && row.brandId == b {
      var i :| 0 <= i < |rows| && rows[i] == row;
      assert ks[i] in ks;
    }
    forall k | k in t && t[k].brandId == b ensures t[k] in rows {
      var i :| 0 <= i < |ks| && ks[i] == k;
      assert rows[i] == t[k];
    }
    forall i, j | 0 <= i < j < |ks| ensures rows[i].id != rows[j].id {
      assert ks[i] in ks && ks[j] in ks;
    }
    if rows != [] {
      assert ks[0] in ks;
    }
  }

  /**
   * GET /brand/{brand_id}/model/{id}: the first row matching both the
   * parent brand and the key.
   */
  ghost function RetrieveBrandModel(conn: Connection, t: ModelTable, b: Uuid, id: Uuid): (r: Result<BrandModels>)
    ensures conn.Refused? ==> r == Err(NoConnection)
    ensures conn.Open? ==> (r.Ok? <==> id in t && t[id].brandId == b)
    ensures r.Ok? ==> id in t && r.value == t[id] && r.value.brandId == b
    ensures conn.Open? && !(id in t && t[id].brandId == b) ==> r == Err(FromDiesel(NotFound))
  {
    match conn
    case Refused => Err(NoConnection)
    case Open =>
      var ks := SelectKeys(t, (k: Uuid, row: BrandModels) => row.brandId == b && k == id);
      if |ks| == 0 then
        assert id !in ks;
        Err(FromDiesel(NotFound))
      else
        assert ks[0] in ks;
        Ok(t[ks[0]])
  }

  /**
   * The row POST /brand/{brand_id}/model inserts under the fresh key `id`:
   * the parent is the brand of the path, whatever the body says.
   */
  function NewBrandModel(id: Uuid, model: BrandModel, b: Uuid): (row: BrandModels)
    ensures row.id == id && row.brandId == b
    ensures row.name == model.name && row.isActive == model.isActive
  {
    BrandModels(id, model.name, model.isActive, b)
  }

  /**
   * The changeset PUT /brand/{brand_id}/model/{id} applies: every column of
   * the body except the primary key, so the body may move the model to
   * another brand, while the body's `id` is ignored.
   */
  function Changeset(row: BrandModels, body: BrandModels): (updated: BrandModels)
    ensures updated.id == row.id
    ensures updated.name == body.name && updated.isActive == body.isActive
    ensures updated.brandId == body.brandId
  {
    body.(id := row.id)
  }
}

/**
 * The database both repositories write to, as an object holding the two
 * tables. Every write is one statement: it either takes effect completely or
 * fails and leaves both tables as they were.
 *
 * Besides the primary keys, the store enforces two rules that live in the
 * database and not in the repository code: a `name` is stored in at most 100
 * characters (a longer one is rejected unless its excess is all spaces, which
 * are cut off), and every model's `brand_id` names a stored brand (a brand
 * with models cannot be deleted).
 */
module Store {
  import opened Schema
  import opened Query
  import BrandRepo
  import BrandModelRepo

  class Database {
    var brands: BrandTable
    var models: ModelTable

    /** Keys match rows, names fit, and the foreign key holds. */
    ghost predicate Valid()
      reads this
    {
      BrandsKeyed(brands) && ModelsKeyed(models) && Referenced(models, brands)
    }

    constructor ()
      ensures Valid() && brands == map[] && models == map[]
    {
      brands := map[];
      models := map[];
    }

    /**
     * POST /brand: inserts one row under the fresh key `id` (drawn at random
     * by the caller) and returns it as stored.
     */
    method CreateBrand(conn: Connection, brand: Brand, id: Uuid) returns (r: Result<Brands>)
      requires Valid()
      requires id !in brands
      modifies this
      ensures Valid() && models == old(models)
      ensures conn.Refused? ==> r == Err(NoConnection)
      ensures conn.Open? && !NameFits(brand.name) ==> r == Err(FromDiesel(ValueTooLong))
      ensures conn.Open? && NameFits(brand.name) ==>
        r.Ok? && r.value.id == id && r.value.name == StoredName(brand.name)
        && r.value.isActive == (brand.isActive != Some(false))
      ensures r.Err? ==> brands == old(brands)
      ensures r.Ok? ==> brands == old(brands)[id := r.value]
      ensures r.Ok? ==> BrandRepo.RetrieveBrand(Open, brands, id) == r
    {
      if conn.Refused? {
        return Err(NoConnection);
      }
      var row := BrandRepo.NewBrand(id, brand);
      if !NameFits(row.name) {
        return Err(FromDiesel(ValueTooLong));
      }
      var stored := row.(name := StoredName(row.name));
      brands := brands[id := stored];
      r := Ok(stored);
    }

    /**
     * PUT /brand/{id}: sets `name`, and `is_active` when the body has one, on
     * the row keyed `id`; returns the updated row.
     */
    method UpdateBrand(conn: Connection, id: Uuid, brand: Brand) returns (r: Result<Brands>)
      requires Valid()
      modifies this
      ensures Valid() && models == old(models)
      ensures conn.Refused? ==> r == Err(NoConnection)
      ensures conn.Open? && id !in old(brands) ==> r == Err(Status(404, "Not found"))
      ensures conn.Open? && id in old(brands) && !NameFits(brand.name) ==> r == Err(Status(500, "Internal error"))
      ensures conn.Open? && id in old(brands) && NameFits(brand.name) ==> r.Ok?
      ensures r.Err? ==> brands == old(brands)
      ensures r.Ok? ==>
        && id in old(brands)
        && NameFits(brand.name)
        && r.value.id == id && r.value.name == StoredName(brand.name)
        && r.value.isActive == (if brand.isActive.Some? then brand.isActive.value else old(brands)[id].isActive)
        && brands == old(brands)[id := r.value]
      ensures r.Ok? ==> BrandRepo.RetrieveBrand(Open, brands, id) == r
    {
      if conn.Refused? {
        return Err(NoConnection);
      }
      var byKey := (k: Uuid, row: Brands) => k == id;
      var hits := Affected(brands, byKey);
      AffectedByKey(brands, id, byKey);
      if hits == {} {
        return Err(UpdateFailure(NotFound));
      }
      if !NameFits(brand.name) {
        return Err(UpdateFailure(ValueTooLong));
      }
      var stored := brand.(name := StoredName(brand.name));
      brands := UpdateRows(brands, hits, row => BrandRepo.Changeset(row, stored));
      r := Ok(brands[id]);
    }

    /**
     * PATCH /brand/{id}/status: sets `is_active` alone on the row keyed `id`;
     * returns the updated row.
     */
    method UpdateBrandStatus(conn: Connection, id: Uuid, isActive: bool) returns (r: Result<Brands>)
      requires Valid()
      modifies this
      ensures Valid() && models == old(models)
      ensures conn.Refused? ==> r == Err(NoConnection)
      ensures conn.Open? && id !in old(brands) ==> r == Err(Status(404, "Not found"))
      ensures conn.Open? && id in old(brands) ==> r.Ok?
      ensures r.Err? ==> brands == old(brands)
      ensures r.Ok? ==>
        && id in old(brands)
        && r.value == Brands(id, old(brands)[id].name, isActive)
        && brands == old(brands)[id := r.value]
      ensures r.Ok? ==> BrandRepo.RetrieveBrand(Open, brands, id) == r
    {
      if conn.Refused? {
        return Err(NoConnection);
      }
      var byKey := (k: Uuid, row: Brands) => k == id;
      var hits := Affected(brands, byKey);
      AffectedByKey(brands, id, byKey);
      if hits == {} {
        return Err(UpdateFailure(NotFound));
      }
      brands := UpdateRows(brands, hits, row => BrandRepo.SetStatus(row, isActive));
      r := Ok(brands[id]);
    }

    /**
     * DELETE /brand/{id}: removes the row keyed `id` and reports how many
     * rows went, which is one; a brand that still has models stays.
     */
    method DeleteBrand(conn: Connection, id: Uuid) returns (r: Result<Option<nat>>)
      requires Valid()
      modifies this
      ensures Valid() && models == old(models)
      ensures conn.Refused? ==> r == Err(NoConnection)
      ensures conn.Open? && id !in old(brands) ==> r == Err(Status(404, "Not found"))
      ensures conn.Open? && id in old(brands) && HasModels(models, id) ==> r == Err(FromDiesel(ForeignKeyViolation))
      ensures conn.Open? && id in old(brands) && !HasModels(models, id) ==> r == Ok(Some(1))
      ensures r.Err? ==> brands == old(brands)
      ensures r.Ok? ==> brands == old(brands) - {id}
      ensures r.Ok? ==> BrandRepo.RetrieveBrand(Open, brands, id) == Err(FromDiesel(NotFound))
    {
      if conn.Refused? {
        return Err(NoConnection);
      }
      var byKey := (k: Uuid, row: Brands) => k == id;
      var hits := Affected(brands, byKey);
      AffectedByKey(brands, id, byKey);
      var dependents := Affected(models, (k: Uuid, m: BrandModels) => m.brandId in hits);
      if id in brands && HasModels(models, id) {
        var k :| k in models && models[k].brandId == id;
        assert k in dependents;
      }
      if dependents != {} {
        return Err(FromDiesel(ForeignKeyViolation));
      }
      brands := brands - hits;
      var count := |hits|;
      if count == 0 {
        r := Err(Status(404, "Not found"));
      } else {
        r := Ok(Some(count));
      }
    }

    /**
     * POST /brand/{brand_id}/model: inserts one row under the fresh key `id`
     * with parent `b`, ignoring any parent named in the body; returns it.
     */
    method CreateBrandModel(conn: Connection, model: BrandModel, b: Uuid, id: Uuid) returns (r: Result<BrandModels>)
      requires Valid()
      requires id !in models
      modifies this
      ensures Valid() && brands == old(brands)
      ensures conn.Refused? ==> r == Err(NoConnection)
      ensures conn.Open? && !NameFits(model.name) ==> r == Err(FromDiesel(ValueTooLong))
      ensures conn.Open? && NameFits(model.name) && b !in brands ==> r == Err(FromDiesel(ForeignKeyViolation))
      ensures conn.Open? && NameFits(model.name) && b in brands ==>
        r == Ok(BrandModels(id, StoredName(model.name), model.isActive, b))
      ensures r.Err? ==> models == old(models)
      ensures r.Ok? ==> models == old(models)[id := r.value]
      ensures r.Ok? ==> BrandModelRepo.RetrieveBrandModel(Open, models, b, id) == r
    {
      if conn.Refused? {
        return Err(NoConnection);
      }
      var row := BrandModelRepo.NewBrandModel(id, model, b);
      if !NameFits(row.name) {
        return Err(FromDiesel(ValueTooLong));
      }
      if row.brandId !in brands {
        return Err(FromDiesel(ForeignKeyViolation));
      }
      var stored := row.(name := StoredName(row.name));
      models := models[id := stored];
      r := Ok(stored);
    }

    /**
     * PUT /brand/{brand_id}/model/{id}: overwrites every column but the key
     * of the model keyed `id` under brand `b`, possibly moving it to the
     * body's brand; returns the updated row.
     */
    method UpdateBrandModel(conn: Connection, b: Uuid, id: Uuid, body: BrandModels) returns (r: Result<BrandModels>)
      requires Valid()
      modifies this
      ensures Valid() && brands == old(brands)
      ensures conn.Refused? ==> r == Err(NoConnection)
      ensures conn.Open? && !(id in old(models) && old(models)[id].brandId == b) ==>
        r == Err(Status(404, "Not found"))
      ensures conn.Open? && id in old(models) && old(models)[id].brandId == b ==>
        if NameFits(body.name) && body.brandId in brands
        then r == Ok(BrandModels(id, StoredName(body.name), body.isActive, body.brandId))
        else r == Err(Status(500, "Internal error"))
      ensures r.Err? ==> models == old(models)
      ensures r.Ok? ==> models == old(models)[id := r.value]
      ensures r.Ok? ==> BrandModelRepo.RetrieveBrandModel(Open, models, body.brandId, id) == r
    {
      if conn.Refused? {
        return Err(NoConnection);
      }
      var byPair := (k: Uuid, row: BrandModels) => row.brandId == b && k == id;
      var hits := Affected(models, byPair);
      AffectedByKey(models, id, byPair);
      if hits == {} {
        return Err(UpdateFailure(NotFound));
      }
      if !NameFits(body.name) {
        return Err(UpdateFailure(ValueTooLong));
      }
      if body.brandId !in brands {
        return Err(UpdateFailure(ForeignKeyViolation));
      }
      var stored := body.(name := StoredName(body.name));
      models := UpdateRows(models, hits, row => BrandModelRepo.Changeset(row, stored));
      r := Ok(models[id]);
    }

    /**
     * DELETE /brand/{brand_id}/model/{id}: removes the model keyed `id` if it
     * belongs to brand `b`, and reports how many rows went.
     */
    method DeleteBrandModel(conn: Connection, b: Uuid, id: Uuid) returns (r: Result<Option<nat>>)
      requires Valid()
      modifies this
      ensures Valid() && brands == old(brands)
      ensures conn.Refused? ==> r == Err(NoConnection)
      ensures conn.Open? && !(id in old(models) && old(models)[id].brandId == b) ==>
        r == Err(Status(404, "Not found"))
      ensures conn.Open? && id in old(models) && old(models)[id].brandId == b ==> r == Ok(Some(1))
      ensures r.Err? ==> models == old(models)
      ensures r.Ok? ==> models == old(models) - {id}
      ensures r.Ok? ==> BrandModelRepo.RetrieveBrandModel(Open, models, b, id) == Err(FromDiesel(NotFound))
    {
      if conn.Refused? {
        return Err(NoConnection);
      }
      var byPair := (k: Uuid, row: BrandModels) => row.brandId == b && k == id;
      var hits := Affected(models, byPair);
      AffectedByKey(models, id, byPair);
      models := models - hits;
      var count := |hits|;
      if count == 0 {
        r := Err(Status(404, "Not found"));
      } else {
        r := Ok(Some(count));
      }
    }
  }

  /**
   * A brand's life through the HTTP surface: create it without a status,
   * read it back active, switch it off, delete it, and find it gone.
   */
  method BrandLifecycle(db: Database, id: Uuid)
    requires db.Valid() && id !in db.brands && !HasModels(db.models, id)
    modifies db
  {
    var created := db.CreateBrand(Open, Brand("Acme", None), id);
    assert created == Ok(Brands(id, "Acme", true));
    assert BrandRepo.RetrieveBrand(Open, db.brands, id) == created;
    var patched := db.UpdateBrandStatus(Open, id, false);
    assert patched == Ok(Brands(id, "Acme", false));
    var deleted := db.DeleteBrand(Open, id);
    assert deleted == Ok(Some(1));
    assert BrandRepo.RetrieveBrand(Open, db.brands, id).Err?;
    var again := db.DeleteBrand(Open, id);
    assert again == Err(Status(404, "Not found"));
  }

  /**
   * A model created under a brand is listed under that brand alone, and is
   * not found through any other brand.
   */
  method ModelUnderBrand(db: Database, b: Uuid, other: Uuid, id: Uuid)
    requires db.Valid() && b in db.brands && other != b && id !in db.models
    requires !HasModels(db.models, b)
    modifies db
  {
    ghost var before := db.models;
    var created := db.CreateBrandModel(Open, BrandModel("Roadster", true, Some(other)), b, id);
    assert created == Ok(BrandModels(id, "Roadster", true, b));
    assert db.models == before[id := created.value];
    var listed := BrandModelRepo.RetrieveBrandModels(Open, db.models, b);
    assert created.value in listed.value;
    assert forall k :: k in before ==> before[k].brandId != b;
    forall row | row in listed.value ensures row == created.value {
      assert row.id in db.models && db.models[row.id] == row && row.brandId == b;
      assert row.id == id;
    }
    assert BrandModelRepo.RetrieveBrandModel(Open, db.models, other, id) == Err(FromDiesel(NotFound));
  }
}

# Brand / brand-model repository, modelled in Dafny

This project models the repository layer of a small REST service for brands
and their product models. Each repository call issues one SQL statement
against one of two tables:

- `brand(id, name, is_active)`
- `brand_model(id, name, is_active, brand_id)`

Both tables are keyed by `id`. The layer turns the outcome of that
statement into a row or a typed error.

The model treats the database as an object, `Store.Database`, that holds both
tables as maps from key to row.

- The reads (`retrieve_*`) are ghost functions of those maps.
- The writes (`create_*`, `update_*`, `delete_*`) are methods that reassign
  the maps. Their postconditions give the new tables in terms of the old
  ones, the result, and that a read of the same key sees the write.
- `Valid()` is the store invariant. Every row sits under its own key, every
  name fits its column, and every model's `brand_id` names a stored brand.
  Every write preserves it.

Modules:

- `Schema` (`schema.dfy`): row and payload types, errors, and the table
  predicates. Also `UpdateFailure`, the 404/500 classification that the
  three update operations share.
- `Query` (`query.dfy`): the statement semantics the code relies on.
  - A full scan meets every key once, in no promised order.
  - A `WHERE` filter keeps the matching keys.
  - An `UPDATE`/`DELETE ... WHERE` on the primary key touches at most one row.
- `BrandRepo` (`brand.dfy`) and `BrandModelRepo` (`brand_model.dfy`): the
  reads of `src/models/brand.rs` and `src/models/brand_model.rs`. They also
  hold the row a create builds and the changeset an update applies.
- `Store` (`store.dfy`): the `Database` class with the seven write
  operations. Two client methods at the end replay the end-to-end scenarios
  (a brand's lifecycle, and a model listed under its brand only).

Environment inputs are parameters:

- The connection pool is a `Connection` argument (`Open` or `Refused`).
  A refused connection gives `NoConnection` and changes nothing.
- `Uuid::new_v4()` is a fresh-key argument that the caller guarantees is
  not yet in the table.

Behaviour that follows from the code, or that lives in the database rather
than in the code:

- Listing brands promises no order: the `SELECT` has no `ORDER BY`
  (`src/models/brand.rs:31`). The model promises only that each row comes
  exactly once, in an unknown order.
- Store rules. The foreign key `brand_model.brand_id -> brand.id` and the
  `varchar(100)` `name` columns are enforced by the database (PostgreSQL),
  not by the repository code. The model states them as the store's policy:
  - A name is accepted when every character past the hundredth is a space.
    Such trailing spaces are cut off, so the stored name is at most 100
    characters (`Schema.StoredName`). Any other longer name is rejected.
  - An insert or update that would break either rule fails and changes
    nothing.
  - Deleting a brand that still has models fails with a foreign-key
    violation (no cascade).
  - On insert, a rejected name is reported before a missing brand.
- Creating a model under an unknown brand gives the driver's error through
  `?`. The conversion of that error is not part of this model, so the model
  returns `FromDiesel(ForeignKeyViolation)` and asserts no status code.
- A `PUT` on a model sets every non-key column of the body, `brand_id`
  included. So a `PUT` on `/brand/A/model/m` with `brand_id: B` moves `m` to
  brand `B`.

## Model

| member | source | states |
|---|---|---|
| `Schema.UpdateFailure` | src/models/brand.rs:66-70 | an update error is 404 "Not found" exactly when no row matched; every other failure is 500 "Internal error" (the same match is at src/models/brand.rs:81-85 and src/models/brand_model.rs:74-78) |
| `Query.Scan` | src/models/brand.rs:31 | a table scan yields every key of the table exactly once and nothing else, in an order the model leaves open |
| `Query.Where` | src/models/brand_model.rs:35 | a `WHERE` filter keeps exactly the keys whose rows satisfy the condition, never more keys than it was given, and no key twice when the input has none twice |
| `Query.SelectKeys` | src/models/brand_model.rs:34-36 | a `SELECT ... WHERE` returns each matching row's key exactly once; there are as many keys as matching rows |
| `Query.DistinctCard` | src/models/brand_model.rs:34-36 | a key sequence without repeats is as long as its set of keys |
| `Query.AffectedByKey` | src/models/brand.rs:91-93 | a statement filtered on the primary key affects that one row if it is stored and matches, and none otherwise, so the count is at most 1 |
| `Schema.StoredName` | src/models/schema.rs:6 | an accepted name longer than 100 characters is stored as exactly its first 100 characters, and only spaces are cut off; a name within 100 characters is stored as given |
| `Query.Rows` | src/models/brand.rs:31 | loading a list of keys gives one row per key, in the same order, each the row stored under that key |
| `Query.Affected` | src/models/brand.rs:91-93 | an `UPDATE` or `DELETE ... WHERE` touches exactly the stored rows that satisfy the condition |
| `Query.UpdateRows` | src/models/brand.rs:61-63 | applying a changeset keeps the table's keys, rewrites exactly the touched rows and leaves every other row as it was (the same statement shape is at src/models/brand_model.rs:68-71) |
| `BrandRepo.SetStatus` | src/models/brand.rs:78 | the status patch sets `is_active` and keeps the row's id and name |
| `BrandRepo.RetrieveBrands` | src/models/brand.rs:29-33 | the list holds every stored brand, as many rows as the table, each id once; a refused connection gives an error |
| `BrandRepo.ScannedRows` | src/models/brand.rs:31 | loading the rows of a full scan yields exactly the stored rows, with no id twice |
| `BrandRepo.RetrieveBrand` | src/models/brand.rs:36-42 | succeeds exactly when `id` is stored and then returns that row; otherwise the driver's NotFound, passed on |
| `BrandRepo.NewBrand` | src/models/brand.rs:47-51 | the created row has the fresh id and the body's name, and it is inactive only when the body says `false` (an omitted status means active) |
| `BrandRepo.Changeset` | src/models/brand.rs:12-15 | the PUT changeset sets the name, sets `is_active` only when the body has one (a `None` is skipped), and never touches `id` |
| `BrandModelRepo.RetrieveBrandModels` | src/models/brand_model.rs:32-38 | the list holds exactly the models whose `brand_id` is the given brand, each once; it is empty when the brand has none, and the brand's existence is not checked |
| `BrandModelRepo.FilteredRows` | src/models/brand_model.rs:34-36 | loading the keys of one brand's models yields exactly those rows, with no id twice |
| `BrandModelRepo.RetrieveBrandModel` | src/models/brand_model.rs:41-48 | succeeds exactly when a row matches both the brand and the id; a model stored under another brand is NotFound |
| `BrandModelRepo.NewBrandModel` | src/models/brand_model.rs:53-58 | the created row has the fresh id, the body's name and status, and the brand of the path; the body's `brand_id` is ignored |
| `BrandModelRepo.Changeset` | src/models/brand_model.rs:19-26 | the PUT changeset copies name, status and `brand_id` from the body and keeps the row's own `id`, whatever id the body carries |
| `Store.Database.CreateBrand` | src/models/brand.rs:45-56 | adds exactly one row under the fresh id, with the body's name as the column stores it and `is_active` defaulting to true; returns that row, which a later read of the id returns; other rows and the model table are unchanged; errors change nothing |
| `Store.Database.UpdateBrand` | src/models/brand.rs:59-71 | an absent id gives 404 and no change; otherwise the name is set (as the column stores it), the status changes only when given, and the id stays; the updated row is returned and read back; a failing statement gives 500 |
| `Store.Database.UpdateBrandStatus` | src/models/brand.rs:74-86 | changes only `is_active` of the row keyed `id`; the id and name stay; an absent id gives 404 and no change |
| `Store.Database.DeleteBrand` | src/models/brand.rs:89-99 | an absent id gives 404 and no change; a brand that still has models gives `FromDiesel(ForeignKeyViolation)` and no change; otherwise exactly that row is removed and the call returns `Some(1)`, after which a read of the id is NotFound; the model table never changes |
| `Store.Database.CreateBrandModel` | src/models/brand_model.rs:51-63 | adds exactly one row under the fresh id, with the body's name (as the column stores it), its status and the path's brand; returns it, and a read through that brand returns it; other rows are unchanged; a name the column rejects gives `FromDiesel(ValueTooLong)` and an unknown brand gives `FromDiesel(ForeignKeyViolation)`, and neither adds a row; the brand table never changes |
| `Store.Database.UpdateBrandModel` | src/models/brand_model.rs:66-79 | when no row matches the (brand, id) pair: 404 and no change; on a match, name (as the column stores it), status and brand come from the body and the id stays; the row is returned and is visible under its new brand; a failing statement gives 500 |
| `Store.Database.DeleteBrandModel` | src/models/brand_model.rs:82-93 | when no row matches the (brand, id) pair: 404 and no change; otherwise only that row is removed and the call returns `Some(1)` |

## Left out

- Process start-up, configuration, logging, socket binding, API
  documentation and the health endpoint (`src/main.rs`). These are I/O and
  framework setup.
- HTTP routing and response building (`src/handlers/`). The handlers forward
  to the repository with `?`. This includes the `Location` headers
  `brand/{id}` and `brand/{brand_id}/model/{id}`, because the textual form of
  a UUID is not modelled.
- The status codes of errors passed on by `?` (the driver's NotFound on a
  read, a constraint violation on an insert, a failed connection). The
  `From<diesel::Error>` conversion and `database::connection()` are not part
  of this model. These errors stay symbolic: `FromDiesel(...)` and
  `NoConnection`.
- Store failures other than a refused connection, the foreign key and the
  name length (disk errors, timeouts, serialization failures). The model
  has no statement that fails for those reasons.
- The randomness of `Uuid::new_v4()`, and any guarantee that a key is never
  reused after a delete. The fresh-key precondition asks only that the key
  is absent now.
- Concurrency between requests and the connection pool. Each call is one
  atomic statement.
- Serialization and API-schema derives.
- `BrandRepo.RetrieveBrands`, `BrandModelRepo.RetrieveBrandModels`: the result
  is stated as "each stored row once", not as a multiset equality. With the
  rows keyed by id, the two say the same.

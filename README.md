# Seeding and migration helpers of the Whoa data layer, in Dafny

This project models the data-loading core of the Whoa PHP framework's data
package:

- **Seeding** (`SeedTrait`). A column's type comes from an override map, with the
  string type as fallback. One row is inserted through the connection, and a
  unique-constraint violation is swallowed. A generator is called `records`
  times and each generated row is inserted. The model-level wrappers resolve a
  model class to its table and attribute types through the schema-info service.
  Rows can be read back with an optional positive limit.
- **`RawNameType`**. This column type renders the raw SQL type name stored
  under the `RawName` column option. It requires that option to be set and
  not PHP-empty.
- **`MigrationContext`**. An immutable pair of a model class and the
  schema-info service.

Modules:

- `Wrappers`: `Option`, `Result` and `Outcome`. The model returns these where
  PHP throws.
- `Php`: scalar values and PHP's `empty()`.
- `Database`: the connection. It holds tables of rows, the unique keys of each
  table and its identifier-quoting function. It also keeps a ghost log of every
  insert call. One insert either stores the row, reports `UniqueViolation`, or
  fails with another error (a missing table).
- `Schemas`: the schema-info service as a read-only value.
- `Seeds`: the seeding functions, their specification (`QuotedFields`,
  `ColumnTypes`, `RunInserts`) with lemmas, and the `Seeder` class.
- `Migrations`: `MigrationContext` and `RawNameType`.

## Notes on the source

- `insertRow` only asserts that the insert result is not `false`. It does not
  check that exactly one row was affected.
- The `MigrationContext` constructor does not reject an empty model class.
- `getSQLDeclaration` signals a missing or empty raw name with `assert`, not
  with an exception it handles. The model therefore states it as a
  precondition.
- `readTableData` likewise asserts that its limit is null or positive. The
  model states that as a precondition of `ReadTableData` and `ReadModelsData`.

## Model

| member | source | states |
|---|---|---|
| `Seeds.CreateAttributeTypeGetter` | src/Seeds/SeedTrait.php:268-273 | The getter maps a column in the override map to its override, and every other column to `"string"`. It is total and depends only on the map and the name. |
| `Seeds.QuotedFields` | src/Seeds/SeedTrait.php:248-254 | The keys of the value map are exactly the quoted names of the row's columns. |
| `Seeds.ColumnTypes` | src/Seeds/SeedTrait.php:248-254 | The type map has the same key set as the value map: the quoted names of the row's columns. |
| `Seeds.LastWriteWins` | src/Seeds/SeedTrait.php:250-254 | Under a quoted name, both maps hold the value and the getter's type of the last column that quotes to that name. If two columns quote alike, the later one wins. |
| `Seeds.EachColumnKeepsItsValue` | src/Seeds/SeedTrait.php:250-254 | If no two columns quote alike, each column's quoted name maps to that column's own value and to the getter's type of the unquoted column. |
| `Seeds.DeclaredTypeFollowsOverrides` | src/Seeds/SeedTrait.php:268-273 | Each type declared to the insert is the column's override, or `"string"` when the column has no override. |
| `Seeds.RunInserts` | src/Seeds/SeedTrait.php:176-178 | The seeding run never issues more inserts than rows. Without an error it issues exactly one insert per row. Only the target table changes, and it only gains rows, at most one per insert. A missing table stops the run at the first insert. |
| `Seeds.RunInsertsNext` | src/Seeds/SeedTrait.php:176-178 | After `i` error-free inserts, the next row has the same effect and outcome as a single insert on the current tables. |
| `Seeds.RunInsertsStopsAtError` | src/Seeds/SeedTrait.php:176-178 | After an insert fails with a non-unique error, no later row is tried. The outcome is the one of the failing prefix. |
| `Seeds.RepeatedInsertKeepsOneCopy` | src/Seeds/SeedTrait.php:256-261 | Inserting `n >= 1` copies of a keyed row that clashes with no stored row stores it exactly once (multiplicity 1). It issues `n` inserts and raises no error. |
| `Seeds.SeedingRepeatedRowKeepsOneCopy` | src/Seeds/SeedTrait.php:176-178 | A generator that returns the same keyed, not-yet-stored row `n >= 1` times leaves exactly one copy in the table. There are `n` inserts and no error. |
| `Seeds.RunInsertsKeepsKeysUnique` | src/Seeds/SeedTrait.php:256-261 | Seeding preserves the invariant that no two rows of the table clash on a unique key. |
| `Database.InsertKeepsKeysUnique` | src/Seeds/SeedTrait.php:256-261 | A single insert preserves that same invariant. |
| `Database.Connection.Insert` | src/Seeds/SeedTrait.php:257 | The connection's insert returns the outcome of the statement. It appends the row only when the row was inserted, and it logs the call with its table, values and types. |
| `Seeds.Seeder.Init` | src/Seeds/SeedTrait.php:59-65 | Stores the container and returns the seeder itself. |
| `Seeds.Seeder.InsertRow` | src/Seeds/SeedTrait.php:246-262 | Issues exactly one insert, with the quoted value map and the type map. A unique violation leaves the tables unchanged and returns normally. Any other error is returned unchanged. |
| `Seeds.Seeder.SeedTableData` | src/Seeds/SeedTrait.php:167-179 | Builds the getter once and uses one connection. The generator is called and rows are inserted in order, all on `tableName`. On success there are exactly `records` inserts. The run stops at the first non-unique error. |
| `Seeds.Seeder.SeedModelsData` | src/Seeds/SeedTrait.php:190-195 | An unknown model class fails without any insert. Otherwise it behaves exactly like `SeedTableData`, using `getTable(modelClass)` as the table and `getAttributeTypes(modelClass)` as the overrides. |
| `Seeds.Seeder.SeedRowData` | src/Seeds/SeedTrait.php:206-211 | Performs exactly one `InsertRow` on `tableName`, with the getter built from `columnTypes`. |
| `Seeds.Seeder.SeedModelData` | src/Seeds/SeedTrait.php:221-226 | An unknown model class fails without any insert. Otherwise it behaves exactly like `SeedRowData` on the model's table, with the model's attribute types. |
| `Seeds.Seeder.ReadTableData` | src/Seeds/SeedTrait.php:129-141 | Requires `limit` to be null or greater than 0. Returns a prefix of the stored rows: all of them without a limit, and `min(limit, rows)` of them with one. A missing table is an error. |
| `Seeds.Seeder.ReadModelsData` | src/Seeds/SeedTrait.php:152-155 | Reads the table of the model class like `ReadTableData`. An unknown class fails the lookup. |
| `Migrations.GetSQLDeclaration` | src/Migrations/RawNameType.php:42-51 | Requires the `RawName` option to be present and not PHP-empty. Returns that option unchanged, and the result is not empty. |
| `Migrations.SQLDeclarationIgnoresPlatform` | src/Migrations/RawNameType.php:42-51 | The declaration is the same for every platform. |
| `Migrations.GetName` | src/Migrations/RawNameType.php:57-60 | The name is always `TYPE_NAME`, which is `"RawName"`. |
| `Migrations.MigrationContext.GetModelClass` | src/Migrations/MigrationContext.php:55-58 | Returns the model class given to the constructor. Rebuilding the context with it yields the same context. |
| `Migrations.MigrationContext.GetModelSchemas` | src/Migrations/MigrationContext.php:63-66 | Returns the schema-info service given to the constructor. |
| `Migrations.ContextGettersReturnArguments` | src/Migrations/MigrationContext.php:46-50 | For a freshly constructed context, both getters return exactly the constructor's arguments. |
| `Migrations.ContextDeterminedByGetters` | src/Migrations/MigrationContext.php:35-40 | Two contexts are equal exactly when both of their getters agree. The two fields are the whole state, and no method changes them. |

## Left out

- `now` (src/Seeds/SeedTrait.php:114-118) reads the wall clock and formats it with the platform's format string. It is not modelled.
- `getLastInsertId` and `getSchemaManager` are not modelled. They pass calls through to the driver.
- `getContainer`, `getConnection` and `getModelSchemas` are replaced by the `Container` datatype. It always carries both services, so the `has()` assertions of the container lookups are not modelled.
- The data closure receives the container. The model gives it the call number instead (`gen: nat -> Row`), so that successive calls can return different rows. A generator that reads services from the container is not modelled.
- Seeds.Seeder.SeedTableData: `records` is a `nat`. The source loop tests `$i !== $records`, which never stops for a negative count, so negative counts are not modelled.
- The generator's call count is not observed separately. In the source the closure is called just before each insert. While the closure returns normally, its calls equal the logged insert calls.
- Seeds.Seeder.SeedTableData: the generator always returns a row. In PHP the closure can throw, or it can return a non-array, which makes `insertRow`'s `array $data` parameter throw a `TypeError`. Either way seeding stops after the earlier inserts without a database error, and the closure has then been called once more than there were inserts. The model cannot express that result: its outcome is `Pass` after `records` inserts or `Fail(DbFailure(_))`. The same applies to `SeedModelsData`, which calls `SeedTableData`.
- Database.Connection.Insert: the only non-unique error modelled is a missing table. The driver's other failures are not modelled: NOT NULL, foreign keys, type conversion, connection loss.
- Database.Connection.Insert: the declared column types are logged but not used to convert values.
- Database.Connection.Insert: the insert result is not checked. The source only asserts `$result !== false`, and an affected-row count always passes that assertion.
- `quoteIdentifier` is an arbitrary function on the connection. The driver's quoting rules are not modelled.
- SQL generation, the query builder and result fetching are abstracted as `Connection.Select`. With a limit, it returns the first rows in stored order. A real database without `ORDER BY` may choose any rows.
- Seeds.Seeder.ReadTableData: the connection has no table schema. A stored row is exactly the map that was inserted, so rows read back are keyed by the quoted column names, while the source's `fetchAllAssociative()` keys them by plain column names. They carry only the inserted columns, not every column of the table, and no column defaults are filled in. For the same reason, a column left out of an insert never takes a default value that could clash on a unique key.
- Seeds.Seeder.InsertRow: column names are always strings. PHP turns an integer-like key such as `"1"` into an int, and under `strict_types=1` the type getter's `string` parameter then throws a `TypeError` that stops seeding. The model does not raise that error; it stores the row.
- Seeds.Seeder.SeedTableData: the same integer-like-key `TypeError` is not modelled, so seeding such a row goes on instead of stopping. This also applies to `SeedModelsData`, `SeedRowData` and `SeedModelData`.
- Seeds.Seeder.SeedTableData: calling it before `Init` is excluded by the precondition `container.Some?`. In PHP that call reads the uninitialised typed property `$container` and throws an `Error`, which the model does not return. The same precondition, with the same unmodelled `Error`, is on `SeedModelsData`, `SeedRowData`, `SeedModelData`, `ReadTableData` and `ReadModelsData`.
- Unique constraints are sets of quoted column names, and NULLs never clash. Constraint naming, partial indexes and collations are not modelled.
- Values are PHP null, bool, int and string only. Floats, arrays and objects in rows or column options are not modelled.
- Seeds.Seeder.ReadTableData: the `assert($limit === null || $limit > 0)` is modelled as the precondition `limit.None? || limit.value > 0`. With assertions disabled at runtime, PHP would pass 0 or a negative limit on to `setMaxResults`; that behaviour is not modelled. The same precondition is on `ReadModelsData`, which passes its limit to `ReadTableData`.
- Migrations.GetSQLDeclaration: PHP `assert` is modelled as a precondition. With assertions disabled at runtime, PHP would return whatever the lookup yields instead; that behaviour is not modelled.
- Migrations.MigrationContext.GetModelSchemas: the schema-info service is a value, so "the same object" is modelled as equality of values.
- `UuidTypeTrait`, Doctrine's `Type` base class and `AbstractPlatform` are not part of this model. The platform is an uninterpreted value.

/**
 * The seeding helpers: the attribute-type getter, the single-row insert that
 * tolerates unique-constraint violations, the counted seeding loop, the
 * model-level wrappers that resolve a model class through the schema-info
 * service, and reading a table back.
 */
module Seeds {
  import opened Wrappers
  import opened Php
  import opened Database
  import opened Schemas

  /** A row to insert: column name to value, in PHP array order. */
  type Row = seq<(string, Value)>

  /** The library's string column type, the fallback for columns without an override. */
  const STRING_TYPE: string := "string"

  /** Why a seeding call failed; a unique-constraint violation is never one of these. */
  datatype SeedError = DbFailure(error: DbError) | UnknownModel(modelClass: string)

  /** The framework's dependency container, reduced to the two services the seeder looks up. */
  datatype Container = Container(connection: Connection, modelSchemas: ModelSchemas)

  // ---------------------------------------------------------------------------
  // Attribute types and the arguments of one insert
  // ---------------------------------------------------------------------------

  /** A column's type: its override when it has one, the string type otherwise. */
  function CreateAttributeTypeGetter(attributeTypes: map<string, string>): (getter: string -> string)
    ensures forall c :: c in attributeTypes ==> getter(c) == attributeTypes[c]
    ensures forall c :: c !in attributeTypes ==> getter(c) == STRING_TYPE
  {
    c => if c in attributeTypes then attributeTypes[c] else STRING_TYPE
  }

  /** The quoted names of the columns of `data`. */
  ghost function QuotedNames(data: Row, quote: string -> string): set<string>
  {
    set i | 0 <= i < |data| :: quote(data[i].0)
  }

  /** The values to insert, keyed by quoted column name; a later column overwrites an earlier one quoted alike. */
  function QuotedFields(data: Row, quote: string -> string): (fields: Record)
    ensures fields.Keys == QuotedNames(data, quote)
  {
    if data == [] then map[]
    else
      var prefix := data[..|data| - 1];
      var last := data[|data| - 1];
      var fields := QuotedFields(prefix, quote);
      assert QuotedNames(data, quote) == QuotedNames(prefix, quote) + {quote(last.0)} by {
        assert forall i :: 0 <= i < |prefix| ==> prefix[i] == data[i];
      }
      fields[quote(last.0) := last.1]
  }

  /** The declared type of each quoted column, from the getter applied to the unquoted name. */
  function ColumnTypes(data: Row, quote: string -> string, getColumnType: string -> string): (types: map<string, string>)
    ensures types.Keys == QuotedNames(data, quote)
  {
    if data == [] then map[]
    else
      var prefix := data[..|data| - 1];
      var last := data[|data| - 1];
      var types := ColumnTypes(prefix, quote, getColumnType);
      assert QuotedNames(data, quote) == QuotedNames(prefix, quote) + {quote(last.0)} by {
        assert forall i :: 0 <= i < |prefix| ==> prefix[i] == data[i];
      }
      types[quote(last.0) := getColumnType(last.0)]
  }

  /**
   * The last column of `data` that quotes to a given name decides both the
   * value and the type stored under that name.
   */
  lemma {:induction false} LastWriteWins(data: Row, quote: string -> string, getColumnType: string -> string, i: nat)
    requires i < |data|
    requires forall j :: i < j < |data| ==> quote(data[j].0) != quote(data[i].0)
    ensures quote(data[i].0) in QuotedFields(data, quote)
    ensures QuotedFields(data, quote)[quote(data[i].0)] == data[i].1
    ensures ColumnTypes(data, quote, getColumnType)[quote(data[i].0)] == getColumnType(data[i].0)
  {
    assert quote(data[i].0) in QuotedNames(data, quote);
    if i < |data| - 1 {
      var prefix := data[..|data| - 1];
      assert prefix[i] == data[i];
      LastWriteWins(prefix, quote, getColumnType, i);
    }
  }

  /** When no two columns quote alike, every column keeps its own value and its own type. */
  lemma EachColumnKeepsItsValue(data: Row, quote: string -> string, getColumnType: string -> string)
    requires forall i, j :: 0 <= i < j < |data| ==> quote(data[i].0) != quote(data[j].0)
    ensures forall i :: 0 <= i < |data| ==>
      && quote(data[i].0) in QuotedFields(data, quote)
      && QuotedFields(data, quote)[quote(data[i].0)] == data[i].1
      && ColumnTypes(data, quote, getColumnType)[quote(data[i].0)] == getColumnType(data[i].0)
  {
    forall i | 0 <= i < |data|
      ensures quote(data[i].0) in QuotedFields(data, quote)
      ensures QuotedFields(data, quote)[quote(data[i].0)] == data[i].1
      ensures ColumnTypes(data, quote, getColumnType)[quote(data[i].0)] == getColumnType(data[i].0)
    {
      LastWriteWins(data, quote, getColumnType, i);
    }
  }

  /** Under the attribute-type getter, a column's declared type is its override, or the string type. */
  lemma DeclaredTypeFollowsOverrides(data: Row, quote: string -> string, attributeTypes: map<string, string>, i: nat)
    requires i < |data|
    requires forall j :: i < j < |data| ==> quote(data[j].0) != quote(data[i].0)
    ensures ColumnTypes(data, quote, CreateAttributeTypeGetter(attributeTypes))[quote(data[i].0)]
            == if data[i].0 in attributeTypes then attributeTypes[data[i].0] else STRING_TYPE
  {
    LastWriteWins(data, quote, CreateAttributeTypeGetter(attributeTypes), i);
  }

  // ---------------------------------------------------------------------------
  // A sequence of inserts on one table
  // ---------------------------------------------------------------------------

  /** What `insertRow` reports for one insert: a unique violation is swallowed, any other error is passed on. */
  function RowOutcome(o: InsertOutcome): Outcome<SeedError>
  {
    if o.OtherError? then Fail(DbFailure(o.error)) else Pass
  }

  /** The state after a run of inserts: the tables, how many inserts were issued, and the error that stopped it. */
  datatype Batch = Batch(tables: map<string, seq<Record>>, attempted: nat, error: Option<DbError>)

  /**
   * Inserting `recs` into `table` one after another: a unique-constraint
   * violation skips that row, any other error stops the run.
   */
  function RunInserts(tables: map<string, seq<Record>>, uniqueKeys: map<string, set<set<string>>>,
                      table: string, recs: seq<Record>): (b: Batch)
    ensures b.attempted <= |recs|
    ensures b.error.None? ==> b.attempted == |recs|
    ensures b.error.Some? ==> 1 <= b.attempted
    ensures b.tables.Keys == tables.Keys
    ensures forall t :: t in tables && t != table ==> b.tables[t] == tables[t]
    ensures table in tables ==> tables[table] <= b.tables[table]
    ensures table in tables ==> |b.tables[table]| <= |tables[table]| + b.attempted
    ensures table !in tables && recs != [] ==> b == Batch(tables, 1, Some(NoSuchTable(table)))
  {
    if recs == [] then Batch(tables, 0, None)
    else
      var prev := RunInserts(tables, uniqueKeys, table, recs[..|recs| - 1]);
      var rec := recs[|recs| - 1];
      if prev.error.Some? then prev
      else
        match Insertion(prev.tables, uniqueKeys, table, rec)
        case Inserted => Batch(prev.tables[table := prev.tables[table] + [rec]], prev.attempted + 1, None)
        case UniqueViolation => Batch(prev.tables, prev.attempted + 1, None)
        case OtherError(e) => Batch(prev.tables, prev.attempted + 1, Some(e))
  }

  /** A run that went through `i` rows without error takes the `i`-th row exactly as a single insert would. */
  lemma RunInsertsNext(tables0: map<string, seq<Record>>, uniqueKeys: map<string, set<set<string>>>,
                       table: string, recs: seq<Record>, i: nat, tables: map<string, seq<Record>>)
    requires i < |recs|
    requires RunInserts(tables0, uniqueKeys, table, recs[..i]) == Batch(tables, i, None)
    ensures var o := Insertion(tables, uniqueKeys, table, recs[i]);
            RunInserts(tables0, uniqueKeys, table, recs[..i + 1])
              == Batch(TablesAfter(tables, uniqueKeys, table, recs[i]), i + 1,
                       if o.OtherError? then Some(o.error) else None)
  {
    assert recs[..i + 1][..i] == recs[..i];
  }

  /** Seeding never leaves two rows that clash on a unique key of the table. */
  lemma {:induction false} RunInsertsKeepsKeysUnique(tables: map<string, seq<Record>>,
                                                     uniqueKeys: map<string, set<set<string>>>,
                                                     table: string, recs: seq<Record>)
    requires table in tables && KeysUnique(tables[table], KeysOf(uniqueKeys, table))
    ensures KeysUnique(RunInserts(tables, uniqueKeys, table, recs).tables[table], KeysOf(uniqueKeys, table))
    decreases |recs|
  {
    if recs != [] {
      var prev := RunInserts(tables, uniqueKeys, table, recs[..|recs| - 1]);
      RunInsertsKeepsKeysUnique(tables, uniqueKeys, table, recs[..|recs| - 1]);
      if prev.error.None? {
        InsertKeepsKeysUnique(prev.tables, uniqueKeys, table, recs[|recs| - 1]);
      }
    }
  }

  /** Once a prefix of the run has failed, the rest of the rows are never tried. */
  lemma {:induction false} RunInsertsStopsAtError(tables: map<string, seq<Record>>,
                                                  uniqueKeys: map<string, set<set<string>>>,
                                                  table: string, recs: seq<Record>, k: nat)
    requires k <= |recs|
    requires RunInserts(tables, uniqueKeys, table, recs[..k]).error.Some?
    ensures RunInserts(tables, uniqueKeys, table, recs) == RunInserts(tables, uniqueKeys, table, recs[..k])
    decreases |recs|
  {
    if k < |recs| {
      var prefix := recs[..|recs| - 1];
      assert prefix[..k] == recs[..k];
      RunInsertsStopsAtError(tables, uniqueKeys, table, prefix, k);
    } else {
      assert recs[..k] == recs;
    }
  }

  /** One more row of the seeding loop: either the run goes on, or its error is the outcome of the whole run. */
  lemma SeedStep(tables0: map<string, seq<Record>>, uniqueKeys: map<string, set<set<string>>>,
                 table: string, recs: seq<Record>, i: nat, tables: map<string, seq<Record>>, r: Outcome<SeedError>)
    requires i < |recs|
    requires RunInserts(tables0, uniqueKeys, table, recs[..i]) == Batch(tables, i, None)
    requires r == RowOutcome(Insertion(tables, uniqueKeys, table, recs[i]))
    ensures r.Pass? ==> RunInserts(tables0, uniqueKeys, table, recs[..i + 1])
                        == Batch(TablesAfter(tables, uniqueKeys, table, recs[i]), i + 1, None)
    ensures r.Fail? ==> RunInserts(tables0, uniqueKeys, table, recs)
                        == Batch(TablesAfter(tables, uniqueKeys, table, recs[i]), i + 1, Some(r.error.error))
  {
    RunInsertsNext(tables0, uniqueKeys, table, recs, i, tables);
    if r.Fail? {
      RunInsertsStopsAtError(tables0, uniqueKeys, table, recs, i + 1);
    }
  }

  /**
   * Inserting one keyed row any number of times into a table that does not
   * hold it yet stores it exactly once, and no error is raised.
   */
  lemma {:induction false} RepeatedInsertKeepsOneCopy(tables: map<string, seq<Record>>,
                                                      uniqueKeys: map<string, set<set<string>>>,
                                                      table: string, rec: Record, recs: seq<Record>)
    requires 1 <= |recs|
    requires forall i :: 0 <= i < |recs| ==> recs[i] == rec
    requires table in tables
    requires exists key :: key in KeysOf(uniqueKeys, table) && Keyed(key, rec)
    requires !Violates(tables[table], KeysOf(uniqueKeys, table), rec)
    ensures RunInserts(tables, uniqueKeys, table, recs) == Batch(tables[table := tables[table] + [rec]], |recs|, None)
    ensures multiset(tables[table := tables[table] + [rec]][table])[rec] == 1
    decreases |recs|
  {
    var keys := KeysOf(uniqueKeys, table);
    var key :| key in keys && Keyed(key, rec);
    var rows := tables[table];
    if |recs| == 1 {
      assert recs[..0] == [];
    } else {
      var prefix := recs[..|recs| - 1];
      RepeatedInsertKeepsOneCopy(tables, uniqueKeys, table, rec, prefix);
      var after := tables[table := rows + [rec]];
      assert after[table][|rows|] == rec;
      assert Collides(key, after[table][|rows|], rec);
      assert Violates(after[table], keys, rec);
    }
    assert multiset(rows)[rec] == 0;
  }

  /** The rows the seeding loop inserts: the quoted fields of the first `n` generated rows. */
  function RowsOf(gen: nat -> Row, n: nat, quote: string -> string): (recs: seq<Record>)
    ensures |recs| == n
  {
    seq(n, i requires 0 <= i => QuotedFields(gen(i), quote))
  }

  /** The insert calls the seeding loop issues for the first `n` generated rows. */
  function CallsOf(table: string, gen: nat -> Row, n: nat, quote: string -> string,
                   getColumnType: string -> string): (calls: seq<InsertCall>)
    ensures |calls| == n
  {
    seq(n, i requires 0 <= i => InsertCall(table, QuotedFields(gen(i), quote), ColumnTypes(gen(i), quote, getColumnType)))
  }

  /** One more generated row appends its own insert call to a log that already holds the earlier ones. */
  lemma CallsOfNext(log: seq<InsertCall>, table: string, gen: nat -> Row, n: nat, quote: string -> string,
                    getColumnType: string -> string)
    ensures log + CallsOf(table, gen, n + 1, quote, getColumnType)
            == (log + CallsOf(table, gen, n, quote, getColumnType))
               + [InsertCall(table, QuotedFields(gen(n), quote), ColumnTypes(gen(n), quote, getColumnType))]
  {
  }

  /**
   * Seeding `n >= 1` copies of one row whose key is not yet in a table that
   * enforces it leaves exactly one such row, raises no error, and issues `n` inserts.
   */
  lemma SeedingRepeatedRowKeepsOneCopy(tables: map<string, seq<Record>>,
                                       uniqueKeys: map<string, set<set<string>>>,
                                       quote: string -> string, table: string,
                                       gen: nat -> Row, data: Row, n: nat)
    requires 1 <= n
    requires forall i: nat :: i < n ==> gen(i) == data
    requires table in tables
    requires exists key :: key in KeysOf(uniqueKeys, table) && Keyed(key, QuotedFields(data, quote))
    requires !Violates(tables[table], KeysOf(uniqueKeys, table), QuotedFields(data, quote))
    ensures var rec := QuotedFields(data, quote);
            var b := RunInserts(tables, uniqueKeys, table, RowsOf(gen, n, quote));
            && b.error == None && b.attempted == n
            && b.tables == tables[table := tables[table] + [rec]]
            && multiset(b.tables[table])[rec] == 1
  {
    RepeatedInsertKeepsOneCopy(tables, uniqueKeys, table, QuotedFields(data, quote), RowsOf(gen, n, quote));
  }

  // ---------------------------------------------------------------------------
  // What the seeding operations leave behind
  // ---------------------------------------------------------------------------

  /**
   * One row was inserted into `tableName`: exactly one insert call carrying
   * the quoted fields and their types, the row stored unless it violated a
   * unique constraint, and only a non-unique error reported.
   */
  ghost predicate RowInserted(conn: Connection, tables0: map<string, seq<Record>>, attempts0: seq<InsertCall>,
                              tableName: string, data: Row, getColumnType: string -> string, r: Outcome<SeedError>)
    reads conn
  {
    var rec := QuotedFields(data, conn.quote);
    var o := Insertion(tables0, conn.uniqueKeys, tableName, rec);
    && conn.tables == TablesAfter(tables0, conn.uniqueKeys, tableName, rec)
    && conn.attempts == attempts0 + [InsertCall(tableName, rec, ColumnTypes(data, conn.quote, getColumnType))]
    && r == RowOutcome(o)
  }

  /**
   * `records` generated rows were inserted into `tableName` in order, each
   * with the types from `columnTypes`, stopping at the first non-unique error.
   */
  ghost predicate TableSeeded(conn: Connection, tables0: map<string, seq<Record>>, attempts0: seq<InsertCall>,
                              records: nat, tableName: string, gen: nat -> Row,
                              columnTypes: map<string, string>, r: Outcome<SeedError>)
    reads conn
  {
    var b := RunInserts(tables0, conn.uniqueKeys, tableName, RowsOf(gen, records, conn.quote));
    && conn.tables == b.tables
    && conn.attempts == attempts0 + CallsOf(tableName, gen, b.attempted, conn.quote, CreateAttributeTypeGetter(columnTypes))
    && r == (if b.error.Some? then Fail(DbFailure(b.error.value)) else Pass)
  }

  /** The rows read back from `tableName`: a prefix of the stored rows, cut at the limit when there is one. */
  ghost predicate TableRead(conn: Connection, tableName: string, limit: Option<int>,
                            r: Result<seq<Record>, SeedError>)
    reads conn
  {
    && (r.Failure? <==> tableName !in conn.tables)
    && (r.Failure? ==> r.error == DbFailure(NoSuchTable(tableName)))
    && (r.Success? ==>
          && r.value <= conn.tables[tableName]
          && (limit.None? ==> r.value == conn.tables[tableName])
          && (limit.Some? ==> |r.value| == if limit.value < |conn.tables[tableName]| then limit.value
                                           else |conn.tables[tableName]|))
  }

  // ---------------------------------------------------------------------------
  // The seeder
  // ---------------------------------------------------------------------------

  class Seeder {
    /** The container given to `Init`; None until then. */
    var container: Option<Container>

    constructor ()
      ensures container == None
    {
      container := None;
    }

    /** Keeps the container and returns the seeder itself. */
    method Init(c: Container) returns (self: Seeder)
      modifies this
      ensures container == Some(c) && self == this
    {
      container := Some(c);
      self := this;
    }

    /** `select * from tableName [limit n]` on the container's connection; `limit` must be absent or positive. */
    method ReadTableData(tableName: string, limit: Option<int>) returns (r: Result<seq<Record>, SeedError>)
      requires container.Some?
      requires limit.None? || limit.value > 0
      ensures TableRead(container.value.connection, tableName, limit, r)
    {
      var connection := container.value.connection;
      var max: Option<nat> := if limit.Some? then Some(limit.value) else None;
      var rows := connection.Select(tableName, max);
      match rows
      case Success(v) => r := Success(v);
      case Failure(e) => r := Failure(DbFailure(e));
    }

    /** Reads the table of `modelClass`; an unknown class fails the lookup. */
    method ReadModelsData(modelClass: string, limit: Option<int>) returns (r: Result<seq<Record>, SeedError>)
      requires container.Some?
      requires limit.None? || limit.value > 0
      ensures var table := container.value.modelSchemas.GetTable(modelClass);
              && (table.None? ==> r == Failure(UnknownModel(modelClass)))
              && (table.Some? ==> TableRead(container.value.connection, table.value, limit, r))
    {
      var table := container.value.modelSchemas.GetTable(modelClass);
      if table.None? {
        return Failure(UnknownModel(modelClass));
      }
      r := ReadTableData(table.value, limit);
    }

    /**
     * Inserts one row: builds the quoted-name-to-value and quoted-name-to-type
     * maps, issues one insert, and swallows a unique-constraint violation.
     */
    static method InsertRow(tableName: string, connection: Connection, data: Row, getColumnType: string -> string)
      returns (r: Outcome<SeedError>)
      modifies connection
      ensures RowInserted(connection, old(connection.tables), old(connection.attempts), tableName, data, getColumnType, r)
      ensures Insertion(old(connection.tables), connection.uniqueKeys, tableName, QuotedFields(data, connection.quote)).UniqueViolation?
              ==> r == Pass && connection.tables == old(connection.tables)
    {
      var types: map<string, string> := map[];
      var quotedFields: Record := map[];
      var i := 0;
      while i < |data|
        invariant 0 <= i <= |data|
        invariant quotedFields == QuotedFields(data[..i], connection.quote)
        invariant types == ColumnTypes(data[..i], connection.quote, getColumnType)
      {
        var (column, value) := data[i];
        var name := connection.quote(column);
        quotedFields := quotedFields[name := value];
        types := types[name := getColumnType(column)];
        assert data[..i + 1][..i] == data[..i];
        i := i + 1;
      }
      assert data[..i] == data;
      var o := connection.Insert(tableName, quotedFields, types);
      if o.OtherError? {
        r := Fail(DbFailure(o.error));
      } else {
        r := Pass;
      }
    }

    /**
     * Builds the type getter once, then calls the generator and inserts its
     * row `records` times on the container's connection.
     */
    method SeedTableData(records: nat, tableName: string, dataClosure: nat -> Row, columnTypes: map<string, string>)
      returns (r: Outcome<SeedError>)
      requires container.Some?
      modifies container.value.connection
      ensures TableSeeded(container.value.connection, old(container.value.connection.tables),
                          old(container.value.connection.attempts), records, tableName, dataClosure, columnTypes, r)
    {
      var attributeTypeGetter := CreateAttributeTypeGetter(columnTypes);
      var connection := container.value.connection;
      ghost var tables0, attempts0 := connection.tables, connection.attempts;
      ghost var all := RowsOf(dataClosure, records, connection.quote);
      var i := 0;
      while i != records
        invariant 0 <= i <= records
        invariant RunInserts(tables0, connection.uniqueKeys, tableName, all[..i]) == Batch(connection.tables, i, None)
        invariant connection.attempts == attempts0 + CallsOf(tableName, dataClosure, i, connection.quote, attributeTypeGetter)
      {
        ghost var tables := connection.tables;
        r := InsertRow(tableName, connection, dataClosure(i), attributeTypeGetter);
        SeedStep(tables0, connection.uniqueKeys, tableName, all, i, tables, r);
        CallsOfNext(attempts0, tableName, dataClosure, i, connection.quote, attributeTypeGetter);
        if r.Fail? {
          return;
        }
        i := i + 1;
      }
      assert all[..i] == all;
      r := Pass;
    }

    /** Seeds the table of `modelClass` with its attribute types as the overrides. */
    method SeedModelsData(records: nat, modelClass: string, dataClosure: nat -> Row) returns (r: Outcome<SeedError>)
      requires container.Some?
      modifies container.value.connection
      ensures var schemas := container.value.modelSchemas;
              var connection := container.value.connection;
              var attributeTypes := schemas.GetAttributeTypes(modelClass);
              var table := schemas.GetTable(modelClass);
              if attributeTypes.None? || table.None? then
                && r == Fail(UnknownModel(modelClass))
                && connection.tables == old(connection.tables)
                && connection.attempts == old(connection.attempts)
              else
                TableSeeded(connection, old(connection.tables), old(connection.attempts),
                            records, table.value, dataClosure, attributeTypes.value, r)
    {
      var attributeTypes := container.value.modelSchemas.GetAttributeTypes(modelClass);
      if attributeTypes.None? {
        return Fail(UnknownModel(modelClass));
      }
      var table := container.value.modelSchemas.GetTable(modelClass);
      if table.None? {
        return Fail(UnknownModel(modelClass));
      }
      r := SeedTableData(records, table.value, dataClosure, attributeTypes.value);
    }

    /** Inserts one given row into `tableName`, typed by `columnTypes`. */
    method SeedRowData(tableName: string, data: Row, columnTypes: map<string, string>) returns (r: Outcome<SeedError>)
      requires container.Some?
      modifies container.value.connection
      ensures RowInserted(container.value.connection, old(container.value.connection.tables),
                          old(container.value.connection.attempts), tableName, data,
                          CreateAttributeTypeGetter(columnTypes), r)
    {
      var attributeTypeGetter := CreateAttributeTypeGetter(columnTypes);
      r := InsertRow(tableName, container.value.connection, data, attributeTypeGetter);
    }

    /** Inserts one given row into the table of `modelClass`, typed by its attribute types. */
    method SeedModelData(modelClass: string, data: Row) returns (r: Outcome<SeedError>)
      requires container.Some?
      modifies container.value.connection
      ensures var schemas := container.value.modelSchemas;
              var connection := container.value.connection;
              var attributeTypes := schemas.GetAttributeTypes(modelClass);
              var table := schemas.GetTable(modelClass);
              if attributeTypes.None? || table.None? then
                && r == Fail(UnknownModel(modelClass))
                && connection.tables == old(connection.tables)
                && connection.attempts == old(connection.attempts)
              else
                RowInserted(connection, old(connection.tables), old(connection.attempts),
                            table.value, data, CreateAttributeTypeGetter(attributeTypes.value), r)
    {
      var attributeTypes := container.value.modelSchemas.GetAttributeTypes(modelClass);
      if attributeTypes.None? {
        return Fail(UnknownModel(modelClass));
      }
      var table := container.value.modelSchemas.GetTable(modelClass);
      if table.None? {
        return Fail(UnknownModel(modelClass));
      }
      r := SeedRowData(table.value, data, attributeTypes.value);
    }
  }
}

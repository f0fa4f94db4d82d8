/**
 * The relational connection the seeder writes through. The real connection
 * belongs to the database-abstraction library; this module keeps only what the
 * seeder observes: named tables holding rows, the unique constraints on each
 * table, the connection's identifier-quoting rule, and the outcome of one
 * insert statement.
 */
module Database {
  import opened Wrappers
  import opened Php

  /** A stored row: quoted column name to value. */
  type Record = map<string, Value>

  /** Failures of a statement other than a unique-constraint violation. */
  datatype DbError = NoSuchTable(table: string)

  /** What one insert statement did. */
  datatype InsertOutcome = Inserted | UniqueViolation | OtherError(error: DbError)

  /** One call of the connection's insert, as the seeder issued it. */
  datatype InsertCall = InsertCall(table: string, fields: Record, types: map<string, string>)

  /**
   * Two rows clash on a unique key when both carry every column of the key,
   * with equal, non-null values (SQL lets NULLs repeat under a unique index).
   */
  predicate Collides(key: set<string>, a: Record, b: Record)
  {
    key != {} && key <= a.Keys && key <= b.Keys &&
    forall c :: c in key ==> a[c] == b[c] && !a[c].Null?
  }

  /** `rec` carries every column of `key`, all non-null: it clashes with any copy of itself. */
  predicate Keyed(key: set<string>, rec: Record)
  {
    key != {} && key <= rec.Keys && forall c :: c in key ==> !rec[c].Null?
  }

  /** The unique keys declared on `table` (none when the table declares none). */
  function KeysOf(uniqueKeys: map<string, set<set<string>>>, table: string): set<set<string>>
  {
    if table in uniqueKeys then uniqueKeys[table] else {}
  }

  /** Some stored row clashes with `rec` on one of `keys`. */
  predicate Violates(rows: seq<Record>, keys: set<set<string>>, rec: Record)
  {
    exists i, key :: 0 <= i < |rows| && key in keys && Collides(key, rows[i], rec)
  }

  /** The outcome of inserting `rec` into `table`. */
  function Insertion(tables: map<string, seq<Record>>, uniqueKeys: map<string, set<set<string>>>,
                     table: string, rec: Record): InsertOutcome
  {
    if table !in tables then OtherError(NoSuchTable(table))
    else if Violates(tables[table], KeysOf(uniqueKeys, table), rec) then UniqueViolation
    else Inserted
  }

  /** The tables after that insert: the row is appended only when it was inserted. */
  function TablesAfter(tables: map<string, seq<Record>>, uniqueKeys: map<string, set<set<string>>>,
                       table: string, rec: Record): map<string, seq<Record>>
  {
    if Insertion(tables, uniqueKeys, table, rec).Inserted? then tables[table := tables[table] + [rec]]
    else tables
  }

  /** No two stored rows clash on any of `keys`: the state a unique index guarantees. */
  ghost predicate KeysUnique(rows: seq<Record>, keys: set<set<string>>)
  {
    forall i, j, key :: 0 <= i < j < |rows| && key in keys ==> !Collides(key, rows[i], rows[j])
  }

  /** A single insert keeps every unique key of the table unique. */
  lemma InsertKeepsKeysUnique(tables: map<string, seq<Record>>, uniqueKeys: map<string, set<set<string>>>,
                              table: string, rec: Record)
    requires table in tables && KeysUnique(tables[table], KeysOf(uniqueKeys, table))
    ensures table in TablesAfter(tables, uniqueKeys, table, rec)
    ensures KeysUnique(TablesAfter(tables, uniqueKeys, table, rec)[table], KeysOf(uniqueKeys, table))
  {
  }

  class Connection {
    /** Rows stored per table, in insertion order. */
    var tables: map<string, seq<Record>>
    /** The unique constraints (primary key included) per table, as sets of quoted column names. */
    const uniqueKeys: map<string, set<set<string>>>
    /** The connection's `quoteIdentifier`; its quoting rules are the driver's. */
    const quote: string -> string
    /** Every insert issued on this connection, in order, whatever its outcome. */
    ghost var attempts: seq<InsertCall>

    constructor (tables: map<string, seq<Record>>, uniqueKeys: map<string, set<set<string>>>,
                 quote: string -> string)
      ensures this.tables == tables && this.uniqueKeys == uniqueKeys && this.quote == quote
      ensures attempts == []
    {
      this.tables := tables;
      this.uniqueKeys := uniqueKeys;
      this.quote := quote;
      attempts := [];
    }

    /** One insert statement with its values and declared column types. */
    method Insert(table: string, fields: Record, types: map<string, string>) returns (o: InsertOutcome)
      modifies this
      ensures o == Insertion(old(tables), uniqueKeys, table, fields)
      ensures tables == TablesAfter(old(tables), uniqueKeys, table, fields)
      ensures attempts == old(attempts) + [InsertCall(table, fields, types)]
    {
      o := Insertion(tables, uniqueKeys, table, fields);
      if o.Inserted? {
        tables := tables[table := tables[table] + [fields]];
      }
      attempts := attempts + [InsertCall(table, fields, types)];
    }

    /** `select * from table [limit n]`: rows in stored order, the first `n` of them under a limit. */
    function Select(table: string, limit: Option<nat>): Result<seq<Record>, DbError>
      reads this
    {
      if table !in tables then Failure(NoSuchTable(table))
      else if limit.Some? && limit.value < |tables[table]| then Success(tables[table][..limit.value])
      else Success(tables[table])
    }
  }
}

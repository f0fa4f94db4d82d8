/**
 * The migration helpers: the context handed to a migration step, and the
 * column type that renders a caller-supplied raw SQL type name.
 */
module Migrations {
  import opened Php
  import opened Schemas

  // ---------------------------------------------------------------------------
  // MigrationContext: a model class paired with the schema-info service.
  // ---------------------------------------------------------------------------

  /** Built once by its constructor; no member reassigns either field. */
  datatype MigrationContext = MigrationContext(modelClass: string, modelSchemas: ModelSchemas)
  {
    /** The model class given at construction. */
    function GetModelClass(): (c: string)
      ensures this == MigrationContext(c, modelSchemas)
    {
      modelClass
    }

    /** The schema-info service given at construction. */
    function GetModelSchemas(): (s: ModelSchemas)
      ensures this == MigrationContext(modelClass, s)
    {
      modelSchemas
    }
  }

  /** The getters give back exactly what the constructor was given. */
  lemma ContextGettersReturnArguments(modelClass: string, modelSchemas: ModelSchemas)
    ensures MigrationContext(modelClass, modelSchemas).GetModelClass() == modelClass
    ensures MigrationContext(modelClass, modelSchemas).GetModelSchemas() == modelSchemas
  {
  }

  /** Two contexts are the same exactly when both getters agree: the getters expose the whole state. */
  lemma ContextDeterminedByGetters(a: MigrationContext, b: MigrationContext)
    ensures a == b <==> a.GetModelClass() == b.GetModelClass() && a.GetModelSchemas() == b.GetModelSchemas()
  {
  }

  // ---------------------------------------------------------------------------
  // RawNameType: a column type whose SQL declaration is a raw name from the column options.
  // ---------------------------------------------------------------------------

  /** The type's registered name, which is also the column-option key holding the raw SQL. */
  const TYPE_NAME: string := "RawName"

  /** The SQL platform the declaration is rendered for; this type never consults it. */
  datatype Platform = Platform(name: string)

  /** The type's name. */
  function GetName(): (name: string)
    ensures name == TYPE_NAME && name == "RawName"
  {
    TYPE_NAME
  }

  /**
   * The SQL declaration of a column of this type: the raw name stored under
   * `RawName` in the column's options, unchanged. The option must be set and
   * not PHP-empty.
   */
  function GetSQLDeclaration(column: map<string, Value>, platform: Platform): (decl: Value)
    requires TYPE_NAME in column
    requires !Empty(column[TYPE_NAME])
    ensures decl == column[TYPE_NAME]
    ensures !Empty(decl)
  {
    column[TYPE_NAME]
  }

  /** The declaration does not depend on the platform. */
  lemma SQLDeclarationIgnoresPlatform(column: map<string, Value>, p: Platform, q: Platform)
    requires TYPE_NAME in column && !Empty(column[TYPE_NAME])
    ensures GetSQLDeclaration(column, p) == GetSQLDeclaration(column, q)
  {
  }
}

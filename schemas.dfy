/**
 * The model schema-info service: it maps a model class to its table and to the
 * column types of its attributes. The seeder and the migrations only read it.
 */
module Schemas {
  import opened Wrappers

  datatype ModelSchemas = ModelSchemas(tables: map<string, string>,
                                       attributeTypes: map<string, map<string, string>>)
  {
    /** The table of `modelClass`, or None for a class the service does not know. */
    function GetTable(modelClass: string): Option<string>
    {
      if modelClass in tables then Some(tables[modelClass]) else None
    }

    /** The attribute (column) types of `modelClass`, or None for an unknown class. */
    function GetAttributeTypes(modelClass: string): Option<map<string, string>>
    {
      if modelClass in attributeTypes then Some(attributeTypes[modelClass]) else None
    }
  }
}

/** The entity query's table resolver: when a condition crosses a dynamic
    entity reference field into the target entity type's base table, the
    join goes through the integer shadow column for integer-id targets and
    through the target_id column itself otherwise. */
module Tables {
  import opened Wrappers

  /** The parts of an entity type the resolver reads: its id and its "id"
      entity key (getKey('id') answers FALSE, here None, when it has none). */
  datatype EntityType = EntityType(id: string, idKey: Option<string>)

  /** A field storage definition, by its field type. */
  datatype FieldStorage = FieldStorage(fieldType: string)

  /** The arguments handed on to the parent addNextBaseTable(). */
  datatype BaseTableCall = BaseTableCall(entityType: EntityType, table: string, sqlColumn: string,
                                         fieldStorage: Option<FieldStorage>)

  const Suffix := "_int"

  /** Whether the override picks the shadow column: a dynamic entity
      reference field pointing at an entity type that has an id key and
      integer ids (hasIntegerId stands for entityHasIntegerId()). */
  predicate UsesIntColumn(entityType: EntityType, fieldStorage: Option<FieldStorage>, hasIntegerId: string -> bool)
  {
    fieldStorage.Some? && fieldStorage.value.fieldType == "dynamic_entity_reference" &&
    entityType.idKey.Some? && hasIntegerId(entityType.id)
  }

  /** addNextBaseTable(): the call it delegates to the parent. */
  function AddNextBaseTable(entityType: EntityType, table: string, sqlColumn: string, fieldStorage: Option<FieldStorage>,
                            hasIntegerId: string -> bool): (r: BaseTableCall)
    ensures r.entityType == entityType && r.table == table && r.fieldStorage == fieldStorage
    ensures r.sqlColumn == sqlColumn + Suffix <==> UsesIntColumn(entityType, fieldStorage, hasIntegerId)
    ensures r.sqlColumn == sqlColumn <==> !UsesIntColumn(entityType, fieldStorage, hasIntegerId)
  {
    var column := if fieldStorage.Some? && fieldStorage.value.fieldType == "dynamic_entity_reference" &&
                     entityType.idKey.Some? && hasIntegerId(entityType.id)
                  then sqlColumn + "_int" else sqlColumn;
    assert |sqlColumn + Suffix| != |sqlColumn|;
    BaseTableCall(entityType, table, column, fieldStorage)
  }

  /** No storage, or a field of another type, never changes the column. */
  lemma OtherFieldsUnchanged(entityType: EntityType, table: string, sqlColumn: string, fieldStorage: Option<FieldStorage>,
                             hasIntegerId: string -> bool)
    requires fieldStorage.None? || fieldStorage.value.fieldType != "dynamic_entity_reference"
    ensures AddNextBaseTable(entityType, table, sqlColumn, fieldStorage, hasIntegerId).sqlColumn == sqlColumn
  {
  }

  /** The join column for a reference field's target_id column: the shadow
      column of target_id for integer-id targets, target_id for string-id
      ones. */
  lemma JoinColumnByIdType(entityType: EntityType, table: string, field: string, hasIntegerId: string -> bool)
    requires entityType.idKey.Some?
    ensures var r := AddNextBaseTable(entityType, table, field + "_target_id",
                                      Some(FieldStorage("dynamic_entity_reference")), hasIntegerId);
      r.sqlColumn == (if hasIntegerId(entityType.id) then field + "_target_id_int" else field + "_target_id")
  {
    if hasIntegerId(entityType.id) {
      assert field + "_target_id" + "_int" == field + "_target_id_int";
    }
  }
}

/**
 * Predicates over index-pattern fields
 * (src/plugins/data/common/index_patterns/fields/utils.ts).
 */
module FieldUtils {
  import opened Wrappers

  /** The `nested` part of a field's sub-type: the path of the nested object. */
  datatype NestedInfo = NestedInfo(path: string)

  /** The `multi` part of a field's sub-type: the parent field. */
  datatype MultiInfo = MultiInfo(parent: string)

  /** `IFieldSubType`: both parts are optional. */
  datatype SubType = SubType(multi: Option<MultiInfo>, nested: Option<NestedInfo>)

  /**
   * The attributes of `IFieldType` the predicates look at. An absent
   * `scripted` or `searchable` flag is falsy, so it is modelled as `false`.
   */
  datatype Field = Field(
    name: string,
    fieldType: string,
    scripted: bool,
    searchable: bool,
    subType: Option<SubType>)

  /** The name of the document-id meta field. */
  const ID_FIELD: string := "_id"

  /**
   * `isFilterable`. The list returned by the field-types library
   * (`getFilterableKbnTypeNames`) is the parameter `filterableTypes`.
   */
  predicate IsFilterable(field: Field, filterableTypes: set<string>)
  {
    field.name == ID_FIELD || field.scripted || (field.searchable && field.fieldType in filterableTypes)
  }

  /** `isNestedField`: `subType?.nested` is an object, hence truthy, whenever it is present. */
  predicate IsNestedField(field: Field)
  {
    field.subType.Some? && field.subType.value.nested.Some?
  }

  /** A field named `_id` is filterable whatever its other attributes. */
  lemma IdFieldIsFilterable(field: Field, filterableTypes: set<string>)
    requires field.name == ID_FIELD
    ensures IsFilterable(field, filterableTypes)
  {
  }

  /** A scripted field is filterable whatever its type or searchability. */
  lemma ScriptedFieldIsFilterable(field: Field, filterableTypes: set<string>)
    requires field.scripted
    ensures IsFilterable(field, filterableTypes)
  {
  }

  /** Any other field is filterable exactly when it is searchable and of a filterable type. */
  lemma OrdinaryFieldFilterableIff(field: Field, filterableTypes: set<string>)
    requires field.name != ID_FIELD && !field.scripted
    ensures IsFilterable(field, filterableTypes) <==> field.searchable && field.fieldType in filterableTypes
  {
  }

  /** A field that is not searchable, not scripted and not `_id` is never filterable. */
  lemma UnsearchableFieldNotFilterable(field: Field, filterableTypes: set<string>)
    requires field.name != ID_FIELD && !field.scripted && !field.searchable
    ensures !IsFilterable(field, filterableTypes)
  {
  }

  /**
   * A field is nested exactly when its sub-type is present and carries a
   * `nested` part, whatever its `multi` part; a missing sub-type gives false.
   */
  lemma NestedFieldIff(field: Field)
    ensures field.subType.None? ==> !IsNestedField(field)
    ensures forall multi, info :: IsNestedField(field.(subType := Some(SubType(multi, Some(info)))))
    ensures forall multi :: !IsNestedField(field.(subType := Some(SubType(multi, None))))
  {
  }
}

/** Schemas: types and the properties of objects (tools/types/properties.go). */
module Schemas {
  import opened Prelude
  import opened Strings

  datatype Type =
    | StringType(values: Option<seq<string>>)
    | BooleanType | IntType(unsigned: bool) | FloatType | DecimalType(scale: nat)
    | DateTimeType | DateType | TimeType | YearType | UUIDType | JSONType | IPType
    | ArrayType(elem: Type) | MapType(elem: Type) | ObjectType(properties: seq<Property>)

  datatype Property = Property(name: string, typ: Type, nullable: bool, readOptional: bool)

  function ByName(properties: seq<Property>, name: string): (found: Option<Property>)
    ensures found.Some? ==> found.value in properties && found.value.name == name
  {
    if properties == [] then None
    else if properties[0].name == name then Some(properties[0])
    else ByName(properties[1..], name)
  }

  /** The property that a path of names leads to, through objects only (tools/types/properties.go:41-78). */
  function ByPath(properties: seq<Property>, names: seq<string>): Option<Property>
    decreases names
  {
    if names == [] then None
    else
      match ByName(properties, names[0])
      case None => None
      case Some(p) =>
        if |names| == 1 then Some(p)
        else if p.typ.ObjectType? then ByPath(p.typ.properties, names[1..])
        else None
  }

  // Names and paths of properties (tools/types/properties.go:274-304).

  predicate ValidName(name: string) {
    name != "" && forall i :: 0 <= i < |name| ==>
      'a' <= name[i] <= 'z' || name[i] == '_' || 'A' <= name[i] <= 'Z' || (i > 0 && '0' <= name[i] <= '9')
  }

  /** A name starts with a letter or an underscore; digits can follow. */
  lemma ValidNamesAre(name: string)
    ensures ValidName(name) <==>
      && |name| >= 1 && !('0' <= name[0] <= '9')
      && forall i :: 0 <= i < |name| ==>
           'a' <= name[i] <= 'z' || 'A' <= name[i] <= 'Z' || '0' <= name[i] <= '9' || name[i] == '_'
  {
  }

  predicate ValidPath(path: string) {
    forall i :: 0 <= i < |Split(path)| ==> ValidName(Split(path)[i])
  }
}

/** The custom fields an LDtk entity instance carries, and the lookup both
    tag parsers (enemy type, tutorial type) share. */
module LdtkFields {
  import opened Common

  /** Integer grid coordinates (`IVec2`). */
  datatype Point = Point(x: int, y: int)

  /** The field value shapes the game inspects; every other shape is `OtherValue`. */
  datatype FieldValue =
    | EnumValue(tag: Option<string>)
    | PointsValue(points: seq<Option<Point>>)
    | OtherValue

  datatype FieldInstance = FieldInstance(identifier: string, value: FieldValue)

  /** Why a tag could not be read; each one is a panic in the game. */
  datatype TagError =
    | MissingField   // no field with the expected identifier
    | NotAnEnum      // the field holds something other than an enum value
    | UnknownTag     // the enum value is absent or names no known variant

  /** Position of the first field named `identifier`, as `Iterator::find` returns it. */
  function FindField(fields: seq<FieldInstance>, identifier: string): (r: Option<nat>)
    ensures r.Some? ==> r.value < |fields| && fields[r.value].identifier == identifier
    ensures r.Some? ==> forall j :: 0 <= j < r.value ==> fields[j].identifier != identifier
    ensures r.None? <==> forall j :: 0 <= j < |fields| ==> fields[j].identifier != identifier
  {
    if |fields| == 0 then None
    else if fields[0].identifier == identifier then Some(0)
    else
      match FindField(fields[1..], identifier)
      case None => None
      case Some(i) => Some(i + 1)
  }

  /** The enum tag held by the first field named `identifier`. */
  function EnumTag(fields: seq<FieldInstance>, identifier: string): (r: Result<string, TagError>)
    ensures r == Err(MissingField) <==> FindField(fields, identifier).None?
    ensures r.Ok? <==>
              (exists i :: FindField(fields, identifier) == Some(i) && fields[i].value.EnumValue? && fields[i].value.tag.Some?)
    ensures r.Ok? ==> fields[FindField(fields, identifier).value].value == EnumValue(Some(r.value))
  {
    match FindField(fields, identifier)
    case None => Err(MissingField)
    case Some(i) =>
      match fields[i].value
      case EnumValue(Some(tag)) => Ok(tag)
      case EnumValue(None) => Err(UnknownTag)
      case _ => Err(NotAnEnum)
  }
}

/**
  Native (Qt meta-type) types, the native value container, and the mapping
  from a native type to the JSON tag it travels as.
*/
module MetaTypes {
  import opened Json

  /** The native types the router distinguishes; `UnknownType` is an unresolvable type name. */
  datatype MetaType =
    | UnknownType
    | Void
    | Bool
    | Int | UInt | Long | LongLong | Short | Char | ULong | ULongLong | UShort | UChar
    | Double | Float
    | QString | QStringList | QVariantList | QVariantMap
    | QVariant | QJsonValue
    | OtherType(typeName: string)

  /** The native numeric types; JavaScript numbers are doubles, so all of them travel as numbers. */
  const NumericTypes: set<MetaType> :=
    {Int, UInt, Double, Long, LongLong, Short, Char, ULong, ULongLong, UShort, UChar, Float}

  /**
    convertVariantTypeToJSType: the wire tag a declared native type expects.
    `UndefinedTag` is the wildcard: a parameter of such a type accepts any value.
  */
  function JsTypeOf(t: MetaType): (tag: Tag)
    ensures tag == NumberTag <==> t in NumericTypes
    ensures tag == ArrayTag <==> t == QVariantList || t == QStringList
    ensures tag == ObjectTag <==> t == QVariantMap
    ensures tag == StringTag <==> t == QString
    ensures tag == BoolTag <==> t == Bool
    ensures tag == UndefinedTag <==>
      t !in NumericTypes && t != QVariantList && t != QStringList && t != QVariantMap && t != QString && t != Bool
    ensures tag != NullTag
  {
    match t
    case Int | UInt | Double | Long | LongLong | Short | Char | ULong | ULongLong | UShort | UChar | Float =>
      NumberTag
    case QVariantList | QStringList => ArrayTag
    case QVariantMap => ObjectTag
    case QString => StringTag
    case Bool => BoolTag
    case _ => UndefinedTag
  }

  /**
    A native value (QVariant): either invalid (the result of a failed
    conversion, or the empty return slot of a void method) or a value of some
    native type whose content is represented abstractly by a JSON value.
  */
  datatype Variant = InvalidVariant | Boxed(metaType: MetaType, content: Json)
}

/** Attribute values, their types, and attribute bags. */
module Values {

  datatype Option<+T> = None | Some(value: T)

  const TWO32: int := 0x1_0000_0000
  const TWO63: int := 0x8000_0000_0000_0000

  /** Go's int64. */
  type int64 = i: int | -TWO63 <= i < TWO63

  /** The attribute types that flow through the expression compiler. */
  datatype Type = STRING | BOOL | INT64 | DURATION | STRING_MAP

  datatype Value =
    | Str(s: string)
    | Boolean(b: bool)
    | Int(i: int64)
    | Dur(d: int64)
    | StrMap(m: map<string, string>)

  function TypeOf(v: Value): Type {
    match v
    case Str(_) => STRING
    case Boolean(_) => BOOL
    case Int(_) => INT64
    case Dur(_) => DURATION
    case StrMap(_) => STRING_MAP
  }

  /** An attribute bag: the attributes present, by name. */
  type Bag = map<string, Value>

  /** The attribute vocabulary: the declared type of every known attribute. */
  type Vocabulary = map<string, Type>
}

/** The closed catalogue of compact field kinds.

    Every kind the record accessors distinguish belongs to one of four
    families built over a primitive type (`INT32`, `NULLABLE_INT32`,
    `ARRAY_OF_INT32`, `ARRAY_OF_NULLABLE_INT32`, ...) or to one of two
    families built over a variable-length type (`STRING`, `ARRAY_OF_STRING`,
    ...), plus the `NOT_AVAILABLE` sentinel for a name the schema lacks. */
module FieldKinds {

  /** Fixed-size Java primitives. */
  datatype Prim = Boolean | Int8 | Int16 | Int32 | Int64 | Float32 | Float64

  /** Variable-size scalars; `Compact` is a nested record. */
  datatype Var = String | Decimal | Time | Date | Timestamp | TimestampWithTimezone | Compact

  datatype FieldKind =
    | NotAvailable
    | Primitive(p: Prim)                  // INT32
    | NullablePrimitive(p: Prim)          // NULLABLE_INT32
    | ArrayOfPrimitive(p: Prim)           // ARRAY_OF_INT32
    | ArrayOfNullablePrimitive(p: Prim)   // ARRAY_OF_NULLABLE_INT32
    | Variable(v: Var)                    // STRING, DECIMAL, ..., COMPACT
    | ArrayOfVariable(v: Var)             // ARRAY_OF_STRING, ..., ARRAY_OF_COMPACT

  /** The payloads a Java primitive of type `p` can hold. Booleans are 0/1,
      integers are two's-complement ranges, floating-point values are kept as
      their raw IEEE-754 bit patterns. */
  predicate InRange(p: Prim, n: int) {
    match p
    case Boolean => 0 <= n <= 1
    case Int8 => -0x80 <= n < 0x80
    case Int16 => -0x8000 <= n < 0x8000
    case Int32 => -0x8000_0000 <= n < 0x8000_0000
    case Int64 => -0x8000_0000_0000_0000 <= n < 0x8000_0000_0000_0000
    case Float32 => 0 <= n < 0x1_0000_0000
    case Float64 => 0 <= n < 0x1_0000_0000_0000_0000
  }

  /** The type name an accessor carries in its own name (`getInt32`), used
      in the null-value error messages. */
  function Suffix(p: Prim): string {
    match p
    case Boolean => "Boolean"
    case Int8 => "Int8"
    case Int16 => "Int16"
    case Int32 => "Int32"
    case Int64 => "Int64"
    case Float32 => "Float32"
    case Float64 => "Float64"
  }

  /** The kinds a scalar primitive accessor (`getInt32`, `getNullableInt32`)
      accepts. */
  function ScalarKinds(p: Prim): seq<FieldKind> {
    [Primitive(p), NullablePrimitive(p)]
  }

  /** The kinds an array accessor (`getArrayOfInt32`,
      `getArrayOfNullableInt32`) accepts. */
  function ArrayKinds(p: Prim): seq<FieldKind> {
    [ArrayOfPrimitive(p), ArrayOfNullablePrimitive(p)]
  }
}

/** Schemas, materialised field values and deserialized generic records. */
module CompactRecords {
  import opened Results
  import opened FieldKinds

  /** A schema: the logical type name, the declared kind of every field,
      and the identifier the schema is registered under. How the identifier
      is fingerprinted from the other two is not part of this model. */
  datatype Schema = Schema(typeName: string, fields: map<string, FieldKind>, schemaId: int)

  datatype FieldDescriptor = FieldDescriptor(fieldName: string, kind: FieldKind)

  /** A Java object as the record's value map holds it. */
  datatype Value =
    | Null
      /** a boxed or unboxed primitive (`Integer`, `int`, ...) */
    | Boxed(p: Prim, bits: int)
      /** a `String` */
    | Text(chars: string)
      /** a `BigDecimal`, `LocalTime`, `LocalDate`, `LocalDateTime` or
          `OffsetDateTime`; its content is irrelevant to the accessors */
    | Opaque(v: Var, payload: int)
      /** a nested `GenericRecord` */
    | Record(record: GenericRecord)
      /** a primitive array (`int[]`): no element can be null */
    | PrimitiveArray(p: Prim, values: seq<int>)
      /** a boxed array (`Integer[]`): any element can be null */
    | NullableArray(p: Prim, boxes: seq<Option<int>>)
      /** an array of variable-size objects (`String[]`, `GenericRecord[]`) */
    | ObjectArray(v: Var, items: seq<Value>)

  /** A deserialized record: its schema and the field values keyed by name. */
  datatype GenericRecord = GenericRecord(schema: Schema, objects: map<string, Value>)

  /** The exceptions the accessors throw. */
  datatype Error =
      /** `check` found no descriptor for the name */
    | InvalidFieldName(field: string)
      /** `check` found a declared kind outside the accessor's list */
    | InvalidFieldKind(field: string, valid: seq<FieldKind>, found: FieldKind)
      /** a non-nullable accessor found a null value */
    | UnexpectedNull(field: string, accessor: string)
      /** an unboxing array accessor found a null element */
    | UnexpectedNullInArray(field: string, accessor: string)
      /** `getFieldDescriptor` found no descriptor for the name */
    | UnknownFieldName(field: string)
      /** character accessors, which the compact format does not support */
    | Unsupported(message: string)
      /** a stored value whose Java class does not match its declared kind */
    | ClassCast(field: string)
      /** a null array dereferenced by a converter */
    | NullPointer(field: string)
      /** a negative index into an array */
    | IndexOutOfBounds(index: int)

  /** `TreeMap.get`: the stored value, or null when the key is absent. */
  function Lookup(r: GenericRecord, name: string): (x: Value)
    ensures name !in r.objects ==> x == Null
    ensures name in r.objects ==> x == r.objects[name]
  {
    if name in r.objects then r.objects[name] else Null
  }

  /** The value stored under `name` is a plain array of `p`. */
  predicate StoresPrimitiveArray(r: GenericRecord, name: string, p: Prim) {
    Lookup(r, name).PrimitiveArray? && Lookup(r, name).p == p
  }

  /** The value stored under `name` is a boxed array of `p`. */
  predicate StoresNullableArray(r: GenericRecord, name: string, p: Prim) {
    Lookup(r, name).NullableArray? && Lookup(r, name).p == p
  }

  /** The value stored under `name` is an object array of `v`. */
  predicate StoresObjectArray(r: GenericRecord, name: string, v: Var) {
    Lookup(r, name).ObjectArray? && Lookup(r, name).v == v
  }

  /** The Java class of a variable-size value of kind `v`. */
  predicate IsVarInstance(x: Value, v: Var) {
    match v
    case String => x.Text?
    case Compact => x.Record?
    case _ => x.Opaque? && x.v == v
  }

  /** Whether `x` is a value a field declared with kind `k` can hold: the
      right Java class, in range, and non-null only for the non-nullable
      primitive kinds. */
  predicate Conforms(k: FieldKind, x: Value) {
    match k
    case NotAvailable => false
    case Primitive(p) => x.Boxed? && x.p == p && InRange(p, x.bits)
    case NullablePrimitive(p) => x == Null || (x.Boxed? && x.p == p && InRange(p, x.bits))
    case ArrayOfPrimitive(p) =>
      x == Null || (x.PrimitiveArray? && x.p == p && forall i :: 0 <= i < |x.values| ==> InRange(p, x.values[i]))
    case ArrayOfNullablePrimitive(p) =>
      x == Null || (x.NullableArray? && x.p == p &&
                    forall i :: 0 <= i < |x.boxes| && x.boxes[i].Some? ==> InRange(p, x.boxes[i].value))
    case Variable(v) => x == Null || IsVarInstance(x, v)
    case ArrayOfVariable(v) =>
      x == Null || (x.ObjectArray? && x.v == v &&
                    forall i :: 0 <= i < |x.items| ==> x.items[i] == Null || IsVarInstance(x.items[i], v))
  }

  /** The invariant the deserializer establishes: the value map has exactly
      the schema's field names, and every value conforms to its field's
      declared kind. */
  predicate Valid(r: GenericRecord) {
    && r.objects.Keys == r.schema.fields.Keys
    && forall name :: name in r.objects ==> Conforms(r.schema.fields[name], r.objects[name])
  }
}

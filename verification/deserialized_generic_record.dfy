/** The read path of a deserialized compact record.

    Every by-name accessor first runs `Check`, which validates the name
    against the schema and the declared kind against the accessor's list of
    allowed kinds; it then applies the accessor's null policy and, for the
    primitive arrays, converts between the plain and the boxed variant.
    One function per accessor family stands for the seven per-type Java
    methods of that family (`GetPrimitive(r, name, Int32)` is
    `getInt32(name)`). */
module DeserializedGenericRecord {
  import opened Results
  import opened FieldKinds
  import opened CompactRecords

  /** Prefix of the accessor name reported in null-value errors. */
  const MethodPrefix := "get"

  const CharFieldMessage := "Compact format does not support reading a char field"
  const CharArrayFieldMessage := "Compact format does not support reading an array of chars field"

  /** The name has a descriptor whose kind is one of `kinds`. */
  predicate Declared(r: GenericRecord, name: string, kinds: seq<FieldKind>) {
    name in r.schema.fields && r.schema.fields[name] in kinds
  }

  // ---------------------------------------------------------------------
  // Schema queries
  // ---------------------------------------------------------------------

  /** `getFieldKind`: never fails; `NotAvailable` for an undeclared name.
      On a materialised record that is exactly a name with no value, since
      no declared field has kind `NotAvailable`. */
  function FieldKindOf(r: GenericRecord, name: string): (k: FieldKind)
    ensures name in r.schema.fields ==> k == r.schema.fields[name]
    ensures name !in r.schema.fields ==> k == NotAvailable
    ensures Valid(r) ==> (k == NotAvailable <==> name !in r.objects)
  {
    if name in r.schema.fields then r.schema.fields[name] else NotAvailable
  }

  /** `hasField`: asks the value map, not the schema; on a materialised
      record the two agree with `getFieldKind`. */
  function HasField(r: GenericRecord, name: string): (b: bool)
    ensures b <==> name in r.objects
    ensures Valid(r) ==> (b <==> FieldKindOf(r, name) != NotAvailable)
    ensures Valid(r) ==> (b <==> GetFieldDescriptor(r, name).Ok?)
  {
    name in r.objects
  }

  /** `getFieldNames`: the keys of the value map. */
  function FieldNames(r: GenericRecord): (names: set<string>)
    ensures forall name :: name in names <==> HasField(r, name)
  {
    r.objects.Keys
  }

  /** `getFieldDescriptor`: the descriptor, or an unknown-field error. */
  function GetFieldDescriptor(r: GenericRecord, name: string): (res: Result<FieldDescriptor, Error>)
    ensures res.Ok? <==> name in r.schema.fields
    ensures res.Ok? ==> res.value.fieldName == name && res.value.kind == FieldKindOf(r, name)
    ensures res.Err? ==> res.error == UnknownFieldName(name)
  {
    if name in r.schema.fields then Ok(FieldDescriptor(name, r.schema.fields[name]))
    else Err(UnknownFieldName(name))
  }

  /** The `valid |= fieldKind == kind` loop of `check`: an or-fold over the
      allowed kinds, from first to last. */
  function Listed(kinds: seq<FieldKind>, k: FieldKind): (valid: bool)
    ensures valid <==> k in kinds
    decreases |kinds|
  {
    if kinds == [] then false
    else
      assert kinds == kinds[..|kinds| - 1] + [kinds[|kinds| - 1]];
      Listed(kinds[..|kinds| - 1], k) || kinds[|kinds| - 1] == k
  }

  /** `check`: the declared kind, provided the name is declared and its kind
      is one the accessor accepts. */
  function Check(r: GenericRecord, name: string, kinds: seq<FieldKind>): (res: Result<FieldKind, Error>)
    ensures name !in r.schema.fields ==> res == Err(InvalidFieldName(name))
    ensures name in r.schema.fields && r.schema.fields[name] !in kinds ==>
              res == Err(InvalidFieldKind(name, kinds, r.schema.fields[name]))
    ensures res.Ok? <==> Declared(r, name, kinds)
    ensures res.Ok? ==> res.value == FieldKindOf(r, name) && res.value in kinds
  {
    if name !in r.schema.fields then Err(InvalidFieldName(name))
    else
      var fieldKind := r.schema.fields[name];
      if !Listed(kinds, fieldKind) then Err(InvalidFieldKind(name, kinds, fieldKind))
      else Ok(fieldKind)
  }

  // ---------------------------------------------------------------------
  // Scalars
  // ---------------------------------------------------------------------

  /** `getNonNull`: the stored value, failing when it is null. */
  function NonNull(r: GenericRecord, name: string, suffix: string): (res: Result<Value, Error>)
    ensures res.Ok? <==> Lookup(r, name) != Null
    ensures res.Ok? ==> res.value == Lookup(r, name)
    ensures res.Err? ==> res.error == UnexpectedNull(name, MethodPrefix + suffix)
  {
    var t := Lookup(r, name);
    if t == Null then Err(UnexpectedNull(name, MethodPrefix + suffix)) else Ok(t)
  }

  /** `getInt32(FieldDescriptor)` and its siblings: no kind check, only the
      null check and the unboxing. */
  function GetPrimitiveByDescriptor(r: GenericRecord, fd: FieldDescriptor, p: Prim): (res: Result<int, Error>)
    ensures Lookup(r, fd.fieldName) == Null ==> res == Err(UnexpectedNull(fd.fieldName, MethodPrefix + Suffix(p)))
    ensures res.Ok? ==> Lookup(r, fd.fieldName) == Boxed(p, res.value)
    ensures Lookup(r, fd.fieldName).Boxed? && Lookup(r, fd.fieldName).p == p ==> res.Ok?
  {
    var t :- NonNull(r, fd.fieldName, Suffix(p));
    if t.Boxed? && t.p == p then Ok(t.bits) else Err(ClassCast(fd.fieldName))
  }

  /** `getInt32(name)` and its siblings: the kind must be the primitive or
      its nullable counterpart, and the stored value must not be null. */
  function GetPrimitive(r: GenericRecord, name: string, p: Prim): (res: Result<int, Error>)
    ensures name !in r.schema.fields ==> res == Err(InvalidFieldName(name))
    ensures name in r.schema.fields && !Declared(r, name, ScalarKinds(p)) ==>
              res == Err(InvalidFieldKind(name, ScalarKinds(p), r.schema.fields[name]))
    ensures Declared(r, name, ScalarKinds(p)) && Lookup(r, name) == Null ==>
              res == Err(UnexpectedNull(name, MethodPrefix + Suffix(p)))
    ensures res.Ok? ==> Declared(r, name, ScalarKinds(p)) && Lookup(r, name) == Boxed(p, res.value)
    ensures Valid(r) && Declared(r, name, ScalarKinds(p)) && Lookup(r, name) != Null ==>
              res.Ok? && InRange(p, res.value)
  {
    var kind :- Check(r, name, ScalarKinds(p));
    GetPrimitiveByDescriptor(r, FieldDescriptor(name, kind), p)
  }

  /** `getNullableInt32(FieldDescriptor)` and its siblings. */
  function GetNullablePrimitiveByDescriptor(r: GenericRecord, fd: FieldDescriptor, p: Prim): (res: Result<Value, Error>)
    ensures res.Ok? ==> res.value == Lookup(r, fd.fieldName)
    ensures res.Ok? <==> Lookup(r, fd.fieldName) == Null || (Lookup(r, fd.fieldName).Boxed? && Lookup(r, fd.fieldName).p == p)
  {
    var t := Lookup(r, fd.fieldName);
    if t == Null || (t.Boxed? && t.p == p) then Ok(t) else Err(ClassCast(fd.fieldName))
  }

  /** `getNullableInt32(name)` and its siblings: the same kind check as the
      primitive accessor, but a stored null is returned, not rejected. */
  function GetNullablePrimitive(r: GenericRecord, name: string, p: Prim): (res: Result<Value, Error>)
    ensures name !in r.schema.fields ==> res == Err(InvalidFieldName(name))
    ensures name in r.schema.fields && !Declared(r, name, ScalarKinds(p)) ==>
              res == Err(InvalidFieldKind(name, ScalarKinds(p), r.schema.fields[name]))
    ensures res.Ok? ==> res.value == Lookup(r, name) && (res.value == Null || (res.value.Boxed? && res.value.p == p))
    ensures res.Err? ==> !res.error.UnexpectedNull? && !res.error.UnexpectedNullInArray?
    ensures Valid(r) && Declared(r, name, ScalarKinds(p)) ==> res == Ok(Lookup(r, name))
  {
    var kind :- Check(r, name, ScalarKinds(p));
    GetNullablePrimitiveByDescriptor(r, FieldDescriptor(name, kind), p)
  }

  /** `getString(FieldDescriptor)`, `getDecimal(FieldDescriptor)`, ...: a
      cast of the stored value. */
  function GetVariableByDescriptor(r: GenericRecord, fd: FieldDescriptor, v: Var): (res: Result<Value, Error>)
    ensures res.Ok? ==> res.value == Lookup(r, fd.fieldName)
    ensures res.Ok? <==> Lookup(r, fd.fieldName) == Null || IsVarInstance(Lookup(r, fd.fieldName), v)
  {
    var t := Lookup(r, fd.fieldName);
    if t == Null || IsVarInstance(t, v) then Ok(t) else Err(ClassCast(fd.fieldName))
  }

  /** `getObject(FieldDescriptor)`: an unchecked generic cast, so the stored
      value comes back whatever its class, and null for a name without a
      value. */
  function GetObjectByDescriptor(r: GenericRecord, fd: FieldDescriptor): (res: Result<Value, Error>)
    ensures res.Ok?
    ensures fd.fieldName !in r.objects ==> res.value == Null
    ensures fd.fieldName in r.objects ==> res.value == r.objects[fd.fieldName]
  {
    Ok(Lookup(r, fd.fieldName))
  }

  /** `getString`, `getDecimal`, `getTime`, `getDate`, `getTimestamp`,
      `getTimestampWithTimezone`, and `getGenericRecord` (with its aliases
      `getObject` and `getInternalGenericRecord`): exactly one allowed kind,
      null passed through. */
  function GetVariable(r: GenericRecord, name: string, v: Var): (res: Result<Value, Error>)
    ensures name !in r.schema.fields ==> res == Err(InvalidFieldName(name))
    ensures name in r.schema.fields && r.schema.fields[name] != Variable(v) ==>
              res == Err(InvalidFieldKind(name, [Variable(v)], r.schema.fields[name]))
    ensures res.Ok? ==> r.schema.fields[name] == Variable(v) && res.value == Lookup(r, name)
    ensures Valid(r) && Declared(r, name, [Variable(v)]) ==> res == Ok(Lookup(r, name))
  {
    var kind :- Check(r, name, [Variable(v)]);
    GetVariableByDescriptor(r, FieldDescriptor(name, kind), v)
  }

  // ---------------------------------------------------------------------
  // Arrays
  // ---------------------------------------------------------------------

  /** No element of a boxed array is null. */
  predicate NoNulls(xs: seq<Option<int>>) {
    forall i :: 0 <= i < |xs| ==> xs[i].Some?
  }

  /** The unboxing loop of the `*Internal` converters: `None` as soon as an
      element is null, otherwise the element-wise unboxed array. */
  function Unbox(xs: seq<Option<int>>): (ys: Option<seq<int>>)
    ensures ys.Some? <==> NoNulls(xs)
    ensures ys.Some? ==> |ys.value| == |xs| && forall i :: 0 <= i < |xs| ==> xs[i] == Some(ys.value[i])
    decreases |xs|
  {
    if xs == [] then Some([])
    else if xs[0].None? then None
    else
      var rest :- Unbox(xs[1..]);
      Some([xs[0].value] + rest)
  }

  /** `Arrays.setAll(result, i -> array[i])`: element-wise boxing. */
  function Box(xs: seq<int>): (ys: seq<Option<int>>)
    ensures |ys| == |xs| && NoNulls(ys)
    ensures forall i :: 0 <= i < |xs| ==> ys[i].value == xs[i]
  {
    seq(|xs|, i requires 0 <= i < |xs| => Some(xs[i]))
  }

  /** `getArrayOfInt32Internal` and its siblings, which are also what
      `getArrayOfInt32(FieldDescriptor)` runs. A boxed array declared
      `ARRAY_OF_NULLABLE_*` is unboxed, failing on a null element; anything
      else is returned as stored. A stored null array yields null for both
      declared variants (see `ArrayOfPrimitiveInternalAsWritten`). */
  function ArrayOfPrimitiveInternal(r: GenericRecord, fd: FieldDescriptor, p: Prim): (res: Result<Value, Error>)
    ensures Lookup(r, fd.fieldName) == Null ==> res == Ok(Null)
    ensures res.Ok? ==> res.value == Null || (res.value.PrimitiveArray? && res.value.p == p)
    ensures fd.kind != ArrayOfNullablePrimitive(p) && StoresPrimitiveArray(r, fd.fieldName, p) ==> res == Ok(Lookup(r, fd.fieldName))
    ensures fd.kind == ArrayOfNullablePrimitive(p) && StoresNullableArray(r, fd.fieldName, p) ==>
              var xs := Lookup(r, fd.fieldName).boxes;
              && (res.Ok? <==> NoNulls(xs))
              && (res.Ok? ==> res.value.PrimitiveArray? && |res.value.values| == |xs| &&
                               forall i :: 0 <= i < |xs| ==> xs[i] == Some(res.value.values[i]))
              && (res.Err? ==> res.error == UnexpectedNullInArray(fd.fieldName, MethodPrefix + Suffix(p)))
  {
    var arr := Lookup(r, fd.fieldName);
    if fd.kind == ArrayOfNullablePrimitive(p) then
      if arr == Null then Ok(Null)
      else if arr.NullableArray? && arr.p == p then
        match Unbox(arr.boxes)
        case None => Err(UnexpectedNullInArray(fd.fieldName, MethodPrefix + Suffix(p)))
        case Some(values) => Ok(PrimitiveArray(p, values))
      else Err(ClassCast(fd.fieldName))
    else if arr == Null || (arr.PrimitiveArray? && arr.p == p) then Ok(arr)
    else Err(ClassCast(fd.fieldName))
  }

  /** The converter as the code is written: the boxed array is read through
      `array.length` before any null test, so a null array declared
      `ARRAY_OF_NULLABLE_*` throws a `NullPointerException` where a null
      array declared `ARRAY_OF_*` is returned as null. */
  function ArrayOfPrimitiveInternalAsWritten(r: GenericRecord, fd: FieldDescriptor, p: Prim): (res: Result<Value, Error>)
    ensures fd.kind == ArrayOfNullablePrimitive(p) && Lookup(r, fd.fieldName) == Null ==>
              res == Err(NullPointer(fd.fieldName))
    ensures fd.kind != ArrayOfNullablePrimitive(p) || Lookup(r, fd.fieldName) != Null ==>
              res == ArrayOfPrimitiveInternal(r, fd, p)
  {
    var arr := Lookup(r, fd.fieldName);
    if fd.kind == ArrayOfNullablePrimitive(p) then
      if !(arr == Null || (arr.NullableArray? && arr.p == p)) then Err(ClassCast(fd.fieldName))
      else if arr == Null then Err(NullPointer(fd.fieldName))
      else
        match Unbox(arr.boxes)
        case None => Err(UnexpectedNullInArray(fd.fieldName, MethodPrefix + Suffix(p)))
        case Some(values) => Ok(PrimitiveArray(p, values))
    else if arr == Null || (arr.PrimitiveArray? && arr.p == p) then Ok(arr)
    else Err(ClassCast(fd.fieldName))
  }

  /** `getArrayOfInt32(name)` and its siblings, over the corrected
      converter: a stored null array reads as null under both array kinds.
      The code as written is `GetArrayOfPrimitiveAsWritten`. */
  function GetArrayOfPrimitive(r: GenericRecord, name: string, p: Prim): (res: Result<Value, Error>)
    ensures name !in r.schema.fields ==> res == Err(InvalidFieldName(name))
    ensures name in r.schema.fields && !Declared(r, name, ArrayKinds(p)) ==>
              res == Err(InvalidFieldKind(name, ArrayKinds(p), r.schema.fields[name]))
    ensures res.Ok? ==> Declared(r, name, ArrayKinds(p)) &&
                        (res.value == Null || (res.value.PrimitiveArray? && res.value.p == p))
    ensures Declared(r, name, ArrayKinds(p)) && Lookup(r, name) == Null ==> res == Ok(Null)
    ensures Declared(r, name, [ArrayOfPrimitive(p)]) && StoresPrimitiveArray(r, name, p) ==>
              res == Ok(Lookup(r, name))
    ensures Declared(r, name, [ArrayOfNullablePrimitive(p)]) && StoresNullableArray(r, name, p) ==>
              var xs := Lookup(r, name).boxes;
              && (res.Ok? <==> NoNulls(xs))
              && (res.Ok? ==> res.value.PrimitiveArray? && |res.value.values| == |xs| &&
                               forall i :: 0 <= i < |xs| ==> xs[i] == Some(res.value.values[i]))
              && (res.Err? ==> res.error == UnexpectedNullInArray(name, MethodPrefix + Suffix(p)))
  {
    var kind :- Check(r, name, ArrayKinds(p));
    ArrayOfPrimitiveInternal(r, FieldDescriptor(name, kind), p)
  }

  /** `getArrayOfInt32(name)` as the code is written: the corrected accessor,
      except that a null array declared `ARRAY_OF_NULLABLE_*` is
      dereferenced. */
  function GetArrayOfPrimitiveAsWritten(r: GenericRecord, name: string, p: Prim): (res: Result<Value, Error>)
    ensures Declared(r, name, [ArrayOfNullablePrimitive(p)]) && Lookup(r, name) == Null ==>
              res == Err(NullPointer(name))
    ensures !(Declared(r, name, [ArrayOfNullablePrimitive(p)]) && Lookup(r, name) == Null) ==>
              res == GetArrayOfPrimitive(r, name, p)
  {
    var kind :- Check(r, name, ArrayKinds(p));
    ArrayOfPrimitiveInternalAsWritten(r, FieldDescriptor(name, kind), p)
  }

  /** `getArrayOfNullableInt32Internal` and its siblings, which are also what
      `getArrayOfNullableInt32(FieldDescriptor)` runs. A plain array declared
      `ARRAY_OF_*` is boxed element-wise; anything else is returned as
      stored. A stored null array yields null for both declared variants. */
  function ArrayOfNullablePrimitiveInternal(r: GenericRecord, fd: FieldDescriptor, p: Prim): (res: Result<Value, Error>)
    ensures Lookup(r, fd.fieldName) == Null ==> res == Ok(Null)
    ensures res.Ok? ==> res.value == Null || (res.value.NullableArray? && res.value.p == p)
    ensures res.Err? ==> res.error == ClassCast(fd.fieldName)
    ensures fd.kind == ArrayOfPrimitive(p) && StoresPrimitiveArray(r, fd.fieldName, p) ==>
              var xs := Lookup(r, fd.fieldName).values;
              && res.Ok? && res.value.NullableArray?
              && |res.value.boxes| == |xs| && NoNulls(res.value.boxes)
              && forall i :: 0 <= i < |xs| ==> res.value.boxes[i] == Some(xs[i])
    ensures fd.kind != ArrayOfPrimitive(p) && StoresNullableArray(r, fd.fieldName, p) ==>
              res == Ok(Lookup(r, fd.fieldName))
  {
    var arr := Lookup(r, fd.fieldName);
    if fd.kind == ArrayOfPrimitive(p) then
      if arr == Null then Ok(Null)
      else if arr.PrimitiveArray? && arr.p == p then Ok(NullableArray(p, Box(arr.values)))
      else Err(ClassCast(fd.fieldName))
    else if arr == Null || (arr.NullableArray? && arr.p == p) then Ok(arr)
    else Err(ClassCast(fd.fieldName))
  }

  /** The boxing converter as the code is written: `Arrays.setAll` reads the
      length of a null plain array and throws a `NullPointerException`. */
  function ArrayOfNullablePrimitiveInternalAsWritten(r: GenericRecord, fd: FieldDescriptor, p: Prim): (res: Result<Value, Error>)
    ensures fd.kind == ArrayOfPrimitive(p) && Lookup(r, fd.fieldName) == Null ==>
              res == Err(NullPointer(fd.fieldName))
    ensures fd.kind != ArrayOfPrimitive(p) || Lookup(r, fd.fieldName) != Null ==>
              res == ArrayOfNullablePrimitiveInternal(r, fd, p)
  {
    var arr := Lookup(r, fd.fieldName);
    if fd.kind == ArrayOfPrimitive(p) then
      if !(arr == Null || (arr.PrimitiveArray? && arr.p == p)) then Err(ClassCast(fd.fieldName))
      else if arr == Null then Err(NullPointer(fd.fieldName))
      else Ok(NullableArray(p, Box(arr.values)))
    else if arr == Null || (arr.NullableArray? && arr.p == p) then Ok(arr)
    else Err(ClassCast(fd.fieldName))
  }

  /** `getArrayOfNullableInt32(name)` and its siblings, over the corrected
      converter: a stored null array reads as null under both array kinds.
      The code as written is `GetArrayOfNullablePrimitiveAsWritten`. */
  function GetArrayOfNullablePrimitive(r: GenericRecord, name: string, p: Prim): (res: Result<Value, Error>)
    ensures name !in r.schema.fields ==> res == Err(InvalidFieldName(name))
    ensures name in r.schema.fields && !Declared(r, name, ArrayKinds(p)) ==>
              res == Err(InvalidFieldKind(name, ArrayKinds(p), r.schema.fields[name]))
    ensures res.Ok? ==> Declared(r, name, ArrayKinds(p)) &&
                        (res.value == Null || (res.value.NullableArray? && res.value.p == p))
    ensures res.Err? ==> !res.error.UnexpectedNull? && !res.error.UnexpectedNullInArray?
    ensures Declared(r, name, ArrayKinds(p)) && Lookup(r, name) == Null ==> res == Ok(Null)
    ensures Declared(r, name, [ArrayOfPrimitive(p)]) && StoresPrimitiveArray(r, name, p) ==>
              var xs := Lookup(r, name).values;
              && res.Ok? && res.value.NullableArray?
              && |res.value.boxes| == |xs| && NoNulls(res.value.boxes)
              && forall i :: 0 <= i < |xs| ==> res.value.boxes[i] == Some(xs[i])
    ensures Declared(r, name, [ArrayOfNullablePrimitive(p)]) && StoresNullableArray(r, name, p) ==>
              res == Ok(Lookup(r, name))
  {
    var kind :- Check(r, name, ArrayKinds(p));
    ArrayOfNullablePrimitiveInternal(r, FieldDescriptor(name, kind), p)
  }

  /** `getArrayOfNullableInt32(name)` as the code is written: the corrected
      accessor, except that a null array declared `ARRAY_OF_*` is
      dereferenced. */
  function GetArrayOfNullablePrimitiveAsWritten(r: GenericRecord, name: string, p: Prim): (res: Result<Value, Error>)
    ensures Declared(r, name, [ArrayOfPrimitive(p)]) && Lookup(r, name) == Null ==>
              res == Err(NullPointer(name))
    ensures !(Declared(r, name, [ArrayOfPrimitive(p)]) && Lookup(r, name) == Null) ==>
              res == GetArrayOfNullablePrimitive(r, name, p)
  {
    var kind :- Check(r, name, ArrayKinds(p));
    ArrayOfNullablePrimitiveInternalAsWritten(r, FieldDescriptor(name, kind), p)
  }

  /** `getArrayOfString(FieldDescriptor)`, ..., a cast of the stored array. */
  function GetArrayOfVariableByDescriptor(r: GenericRecord, fd: FieldDescriptor, v: Var): (res: Result<Value, Error>)
    ensures res.Ok? ==> res.value == Lookup(r, fd.fieldName)
    ensures res.Ok? <==> Lookup(r, fd.fieldName) == Null ||
                         StoresObjectArray(r, fd.fieldName, v)
  {
    var t := Lookup(r, fd.fieldName);
    if t == Null || (t.ObjectArray? && t.v == v) then Ok(t) else Err(ClassCast(fd.fieldName))
  }

  /** `getArrayOfString`, `getArrayOfDecimal`, ..., and
      `getArrayOfGenericRecord` (with its aliases `getArrayOfObject` and
      `getArrayOfInternalGenericRecord`). */
  function GetArrayOfVariable(r: GenericRecord, name: string, v: Var): (res: Result<Value, Error>)
    ensures name !in r.schema.fields ==> res == Err(InvalidFieldName(name))
    ensures name in r.schema.fields && r.schema.fields[name] != ArrayOfVariable(v) ==>
              res == Err(InvalidFieldKind(name, [ArrayOfVariable(v)], r.schema.fields[name]))
    ensures res.Ok? ==> r.schema.fields[name] == ArrayOfVariable(v) && res.value == Lookup(r, name)
    ensures Valid(r) && Declared(r, name, [ArrayOfVariable(v)]) ==> res == Ok(Lookup(r, name))
  {
    var kind :- Check(r, name, [ArrayOfVariable(v)]);
    GetArrayOfVariableByDescriptor(r, FieldDescriptor(name, kind), v)
  }

  // ---------------------------------------------------------------------
  // Index accessors
  // ---------------------------------------------------------------------

  predicate IsArray(x: Value) {
    x.PrimitiveArray? || x.NullableArray? || x.ObjectArray?
  }

  /** The element a Java program sees at position `i`: primitive elements
      boxed, missing boxes as null. */
  function Elements(arr: Value): (elems: seq<Value>)
    ensures arr.PrimitiveArray? ==> |elems| == |arr.values|
    ensures arr.NullableArray? ==> |elems| == |arr.boxes|
    ensures arr.ObjectArray? ==> elems == arr.items
  {
    match arr
    case PrimitiveArray(p, xs) => seq(|xs|, i requires 0 <= i < |xs| => Boxed(p, xs[i]))
    case NullableArray(p, xs) =>
      seq(|xs|, i requires 0 <= i < |xs| => if xs[i].Some? then Boxed(p, xs[i].value) else Null)
    case ObjectArray(_, xs) => xs
    case _ => []
  }

  /** `getFromArray`, and the identical inline code of `getInt32FromArray`
      and its siblings: null for a null array or an index at or past the
      length; Java's bounds check rejects a negative index. */
  function FromArray(arr: Value, index: int): (res: Result<Value, Error>)
    requires arr == Null || IsArray(arr)
    ensures arr == Null || |Elements(arr)| <= index ==> res == Ok(Null)
    ensures arr != Null && 0 <= index < |Elements(arr)| ==> res == Ok(Elements(arr)[index])
    ensures arr != Null && index < 0 ==> res == Err(IndexOutOfBounds(index))
  {
    match arr
    case PrimitiveArray(p, xs) =>
      if |xs| <= index then Ok(Null)
      else if index < 0 then Err(IndexOutOfBounds(index))
      else Ok(Boxed(p, xs[index]))
    case NullableArray(p, xs) =>
      if |xs| <= index then Ok(Null)
      else if index < 0 then Err(IndexOutOfBounds(index))
      else Ok(if xs[index].Some? then Boxed(p, xs[index].value) else Null)
    case ObjectArray(_, xs) =>
      if |xs| <= index then Ok(Null)
      else if index < 0 then Err(IndexOutOfBounds(index))
      else Ok(xs[index])
    case Null => Ok(Null)
  }

  /** `getInt32FromArray(name, index)` and its siblings: read through
      `getArrayOfInt32`, so its name, kind and null-element failures
      propagate; otherwise tolerant of a null array or a short one. This is
      the corrected reading; the code as written is
      `PrimitiveFromArrayAsWritten`. */
  function PrimitiveFromArray(r: GenericRecord, name: string, index: int, p: Prim): (res: Result<Value, Error>)
    ensures name !in r.schema.fields ==> res == Err(InvalidFieldName(name))
    ensures name in r.schema.fields && !Declared(r, name, ArrayKinds(p)) ==>
              res == Err(InvalidFieldKind(name, ArrayKinds(p), r.schema.fields[name]))
    ensures res.Ok? ==> res.value == Null || (res.value.Boxed? && res.value.p == p)
    ensures Declared(r, name, ArrayKinds(p)) && Lookup(r, name) == Null ==> res == Ok(Null)
    ensures Declared(r, name, [ArrayOfPrimitive(p)]) && StoresPrimitiveArray(r, name, p) ==>
              var xs := Lookup(r, name).values;
              && (|xs| <= index ==> res == Ok(Null))
              && (0 <= index < |xs| ==> res == Ok(Boxed(p, xs[index])))
              && (index < 0 ==> res == Err(IndexOutOfBounds(index)))
    ensures Declared(r, name, [ArrayOfNullablePrimitive(p)]) && StoresNullableArray(r, name, p) ==>
              var xs := Lookup(r, name).boxes;
              && (!NoNulls(xs) ==> res == Err(UnexpectedNullInArray(name, MethodPrefix + Suffix(p))))
              && (NoNulls(xs) && |xs| <= index ==> res == Ok(Null))
              && (NoNulls(xs) && 0 <= index < |xs| ==> res == Ok(Boxed(p, xs[index].value)))
  {
    var arr :- GetArrayOfPrimitive(r, name, p);
    FromArray(arr, index)
  }

  /** `getInt32FromArray(name, index)` as the code is written: the null
      dereference of `getArrayOfInt32` escapes before the null test of the
      index accessor is reached. */
  function PrimitiveFromArrayAsWritten(r: GenericRecord, name: string, index: int, p: Prim): (res: Result<Value, Error>)
    ensures Declared(r, name, [ArrayOfNullablePrimitive(p)]) && Lookup(r, name) == Null ==>
              res == Err(NullPointer(name))
    ensures !(Declared(r, name, [ArrayOfNullablePrimitive(p)]) && Lookup(r, name) == Null) ==>
              res == PrimitiveFromArray(r, name, index, p)
  {
    var arr :- GetArrayOfPrimitiveAsWritten(r, name, p);
    FromArray(arr, index)
  }

  /** `getNullableInt32FromArray(name, index)` and its siblings:
      `getFromArray` over `getArrayOfNullableInt32`; a null element comes
      back as null. This is the corrected reading; the code as written is
      `NullablePrimitiveFromArrayAsWritten`. */
  function NullablePrimitiveFromArray(r: GenericRecord, name: string, index: int, p: Prim): (res: Result<Value, Error>)
    ensures name !in r.schema.fields ==> res == Err(InvalidFieldName(name))
    ensures name in r.schema.fields && !Declared(r, name, ArrayKinds(p)) ==>
              res == Err(InvalidFieldKind(name, ArrayKinds(p), r.schema.fields[name]))
    ensures res.Ok? ==> res.value == Null || (res.value.Boxed? && res.value.p == p)
    ensures Declared(r, name, ArrayKinds(p)) && Lookup(r, name) == Null ==> res == Ok(Null)
    ensures Declared(r, name, [ArrayOfNullablePrimitive(p)]) && StoresNullableArray(r, name, p) ==>
              var xs := Lookup(r, name).boxes;
              && (|xs| <= index ==> res == Ok(Null))
              && (0 <= index < |xs| && xs[index].None? ==> res == Ok(Null))
              && (0 <= index < |xs| && xs[index].Some? ==> res == Ok(Boxed(p, xs[index].value)))
              && (index < 0 ==> res == Err(IndexOutOfBounds(index)))
  {
    var arr :- GetArrayOfNullablePrimitive(r, name, p);
    FromArray(arr, index)
  }

  /** `getNullableInt32FromArray(name, index)` as the code is written: the
      null dereference of `getArrayOfNullableInt32` escapes before
      `getFromArray` tests for null. */
  function NullablePrimitiveFromArrayAsWritten(r: GenericRecord, name: string, index: int, p: Prim): (res: Result<Value, Error>)
    ensures Declared(r, name, [ArrayOfPrimitive(p)]) && Lookup(r, name) == Null ==>
              res == Err(NullPointer(name))
    ensures !(Declared(r, name, [ArrayOfPrimitive(p)]) && Lookup(r, name) == Null) ==>
              res == NullablePrimitiveFromArray(r, name, index, p)
  {
    var arr :- GetArrayOfNullablePrimitiveAsWritten(r, name, p);
    FromArray(arr, index)
  }

  /** `getStringFromArray`, `getDecimalFromArray`, ...,
      `getGenericRecordFromArray` (with its aliases `getObjectFromArray`
      and `getInternalGenericRecordFromArray`). */
  function VariableFromArray(r: GenericRecord, name: string, index: int, v: Var): (res: Result<Value, Error>)
    ensures name !in r.schema.fields ==> res == Err(InvalidFieldName(name))
    ensures name in r.schema.fields && r.schema.fields[name] != ArrayOfVariable(v) ==>
              res == Err(InvalidFieldKind(name, [ArrayOfVariable(v)], r.schema.fields[name]))
    ensures Declared(r, name, [ArrayOfVariable(v)]) && StoresObjectArray(r, name, v) ==>
              var xs := Lookup(r, name).items;
              && (|xs| <= index ==> res == Ok(Null))
              && (0 <= index < |xs| ==> res == Ok(xs[index]))
              && (index < 0 ==> res == Err(IndexOutOfBounds(index)))
    ensures Valid(r) && res.Ok? ==> res.value == Null || IsVarInstance(res.value, v)
  {
    var arr :- GetArrayOfVariable(r, name, v);
    FromArray(arr, index)
  }

  // ---------------------------------------------------------------------
  // Unsupported accessors and builders
  // ---------------------------------------------------------------------

  /** `getChar` and `getCharFromArray`: the compact format has no char
      kind, so they throw whatever the record and the arguments. */
  function GetChar(r: GenericRecord, name: string): (res: Result<char, Error>)
    ensures res.Err? && res.error.Unsupported?
  {
    Err(Unsupported(CharFieldMessage))
  }

  /** `getArrayOfChar`. */
  function GetArrayOfChar(r: GenericRecord, name: string): (res: Result<seq<char>, Error>)
    ensures res.Err? && res.error.Unsupported?
  {
    Err(Unsupported(CharArrayFieldMessage))
  }

  /** What a builder starts from: the schema it is bound to and the values
      already set. Building and the setters are not part of this model. */
  datatype Builder = Builder(schema: Schema, values: map<string, Value>)

  /** `newBuilder`: bound to the record's schema, nothing set. */
  function NewBuilder(r: GenericRecord): (b: Builder)
    ensures b.schema == r.schema && b.values == map[]
  {
    Builder(r.schema, map[])
  }

  /** `newBuilderWithClone`: bound to the record's schema, pre-populated
      with every current field value. */
  function NewBuilderWithClone(r: GenericRecord): (b: Builder)
    ensures b.schema == r.schema
    ensures forall name :: name in b.values <==> HasField(r, name)
    ensures forall name :: name in b.values ==> b.values[name] == Lookup(r, name)
  {
    Builder(r.schema, r.objects)
  }
}

/** Properties relating the accessors of a deserialized compact record to
    each other and to the record invariant. */
module GenericRecordProperties {
  import opened Results
  import opened FieldKinds
  import opened CompactRecords
  import opened DeserializedGenericRecord

  /** An accessor outcome that is not a Java runtime failure: neither a
      class-cast nor a null dereference. */
  predicate NoRuntimeFailure<T>(res: Result<T, Error>) {
    res.Err? ==> !res.error.ClassCast? && !res.error.NullPointer?
  }

  /** The field `name` is declared with `kind` and holds a null array. */
  predicate NullUnder(r: GenericRecord, name: string, kind: FieldKind) {
    Declared(r, name, [kind]) && Lookup(r, name) == Null
  }

  /** An outcome of an as-written accessor: never a class-cast, and a null
      dereference exactly when `dereferenced` holds. */
  predicate NullPointerExactlyWhen<T>(res: Result<T, Error>, dereferenced: bool) {
    && (res.Err? ==> !res.error.ClassCast?)
    && (res.Err? && res.error.NullPointer? <==> dereferenced)
  }

  /** On a materialised record, the value map and the schema agree: a name
      has a value exactly when its kind is available. */
  lemma HasFieldIffDeclared(r: GenericRecord, name: string)
    requires Valid(r)
    ensures HasField(r, name) <==> FieldKindOf(r, name) != NotAvailable
    ensures FieldNames(r) == r.schema.fields.Keys
  {
    if name in r.objects {
      assert Conforms(r.schema.fields[name], r.objects[name]);
    }
  }

  /** `getInt32` and `getNullableInt32` share their kind check and differ
      only in what they do with a stored null. */
  lemma NullablePrimitiveAgreesWithPrimitive(r: GenericRecord, name: string, p: Prim)
    ensures GetPrimitive(r, name, p).Ok? ==>
              GetNullablePrimitive(r, name, p) == Ok(Boxed(p, GetPrimitive(r, name, p).value))
    ensures GetNullablePrimitive(r, name, p) == Ok(Null) ==>
              GetPrimitive(r, name, p) == Err(UnexpectedNull(name, MethodPrefix + Suffix(p)))
    ensures GetNullablePrimitive(r, name, p).Err? ==>
              GetPrimitive(r, name, p).Err? && GetPrimitive(r, name, p).error == GetNullablePrimitive(r, name, p).error
  {
  }

  /** A field declared with a non-nullable primitive kind always reads
      back, in range, through both scalar accessors. */
  lemma DeclaredPrimitiveNeverNull(r: GenericRecord, name: string, p: Prim)
    requires Valid(r) && name in r.schema.fields && r.schema.fields[name] == Primitive(p)
    ensures GetPrimitive(r, name, p).Ok? && InRange(p, GetPrimitive(r, name, p).value)
    ensures GetNullablePrimitive(r, name, p) == Ok(Boxed(p, GetPrimitive(r, name, p).value))
  {
    assert Conforms(r.schema.fields[name], r.objects[name]);
  }

  /** A null stored under a nullable primitive kind is rejected by the
      primitive accessor and returned by the nullable one. */
  lemma StoredNullReadsOnlyAsNullable(r: GenericRecord, name: string, p: Prim)
    requires Valid(r) && name in r.schema.fields && r.schema.fields[name] == NullablePrimitive(p)
    requires Lookup(r, name) == Null
    ensures GetPrimitive(r, name, p) == Err(UnexpectedNull(name, MethodPrefix + Suffix(p)))
    ensures GetNullablePrimitive(r, name, p) == Ok(Null)
  {
  }

  /** Boxing introduces no null, so unboxing undoes it. */
  lemma UnboxAfterBox(xs: seq<int>)
    ensures Unbox(Box(xs)) == Some(xs)
  {
    var ys := Unbox(Box(xs));
    assert ys.Some?;
    assert ys.value == xs;
  }

  /** Unboxing a null-free boxed array and boxing it again gives the
      original boxed array back. */
  lemma BoxAfterUnbox(xs: seq<Option<int>>)
    requires NoNulls(xs)
    ensures Unbox(xs).Some? && Box(Unbox(xs).value) == xs
  {
    var ys := Unbox(xs).value;
    assert Box(ys) == xs;
  }

  /** `getArrayOfNullableInt32` on an `ARRAY_OF_INT32` field boxes the
      stored array; unboxing the result reproduces it. */
  lemma NullableArrayViewRoundTrip(r: GenericRecord, name: string, p: Prim)
    requires Declared(r, name, [ArrayOfPrimitive(p)]) && StoresPrimitiveArray(r, name, p)
    ensures GetArrayOfNullablePrimitive(r, name, p).Ok?
    ensures var boxed := GetArrayOfNullablePrimitive(r, name, p).value;
            boxed.NullableArray? && Unbox(boxed.boxes) == Some(Lookup(r, name).values)
  {
    var boxed := GetArrayOfNullablePrimitive(r, name, p).value;
    assert boxed.boxes == Box(Lookup(r, name).values);
    UnboxAfterBox(Lookup(r, name).values);
  }

  /** `getArrayOfInt32` on a null-free `ARRAY_OF_NULLABLE_INT32` field
      unboxes the stored array; boxing the result reproduces it. */
  lemma PrimitiveArrayViewRoundTrip(r: GenericRecord, name: string, p: Prim)
    requires Declared(r, name, [ArrayOfNullablePrimitive(p)]) && StoresNullableArray(r, name, p)
    requires NoNulls(Lookup(r, name).boxes)
    ensures GetArrayOfPrimitive(r, name, p).Ok?
    ensures var plain := GetArrayOfPrimitive(r, name, p).value;
            plain.PrimitiveArray? && Box(plain.values) == Lookup(r, name).boxes
  {
    var plain := GetArrayOfPrimitive(r, name, p).value;
    assert Box(plain.values) == Lookup(r, name).boxes;
  }

  /** Whenever `getArrayOfInt32` succeeds, `getInt32FromArray` and
      `getNullableInt32FromArray` read the same element at every index. */
  lemma IndexAccessorsAgree(r: GenericRecord, name: string, index: int, p: Prim)
    requires GetArrayOfPrimitive(r, name, p).Ok?
    ensures PrimitiveFromArray(r, name, index, p) == NullablePrimitiveFromArray(r, name, index, p)
  {
    var plain := GetArrayOfPrimitive(r, name, p).value;
    var boxed := GetArrayOfNullablePrimitive(r, name, p);
    assert boxed.Ok?;
    if plain != Null {
      var kind := r.schema.fields[name];
      if kind == ArrayOfPrimitive(p) {
        assert boxed.value == NullableArray(p, Box(plain.values));
      } else {
        assert boxed.value == Lookup(r, name);
      }
      assert Elements(plain) == Elements(boxed.value);
    }
  }

  /** On a materialised record with an `ARRAY_OF_INT32` field, an index
      accessor answers null for any index at or past the stored length, or
      for a stored null array. As written, `getInt32FromArray` does so in
      every such case, while `getNullableInt32FromArray` dereferences the
      null array while boxing it. */
  lemma IndexAccessorToleratesShortArrays(r: GenericRecord, name: string, index: int, p: Prim)
    requires Valid(r) && Declared(r, name, [ArrayOfPrimitive(p)])
    requires Lookup(r, name) == Null || |Lookup(r, name).values| <= index
    ensures PrimitiveFromArray(r, name, index, p) == Ok(Null)
    ensures NullablePrimitiveFromArray(r, name, index, p) == Ok(Null)
    ensures PrimitiveFromArrayAsWritten(r, name, index, p) == Ok(Null)
    ensures NullablePrimitiveFromArrayAsWritten(r, name, index, p)
            == if Lookup(r, name) == Null then Err(NullPointer(name)) else Ok(Null)
  {
    assert Conforms(r.schema.fields[name], r.objects[name]);
    if Lookup(r, name) != Null {
      assert |GetArrayOfNullablePrimitive(r, name, p).value.boxes| == |Lookup(r, name).values|;
    }
  }

  /** On a materialised record the scalar accessors fail only with the
      documented exceptions, never with a Java runtime failure. */
  lemma ScalarAccessorsFailOnlyAsDocumented(r: GenericRecord, name: string, p: Prim, v: Var)
    requires Valid(r)
    ensures NoRuntimeFailure(GetPrimitive(r, name, p))
    ensures NoRuntimeFailure(GetNullablePrimitive(r, name, p))
    ensures NoRuntimeFailure(GetVariable(r, name, v))
  {
    if name in r.schema.fields {
      assert Conforms(r.schema.fields[name], r.objects[name]);
    }
  }

  /** On a materialised record the whole-array accessors never fail with a
      class-cast. The corrected converters fail only with the documented
      exceptions; as written, a primitive-array accessor throws a null
      dereference exactly when the field holds a null array declared with
      the other array variant. */
  lemma ArrayAccessorsFailOnlyAsDocumented(r: GenericRecord, name: string, p: Prim, v: Var)
    requires Valid(r)
    ensures NoRuntimeFailure(GetArrayOfPrimitive(r, name, p))
    ensures NoRuntimeFailure(GetArrayOfNullablePrimitive(r, name, p))
    ensures NoRuntimeFailure(GetArrayOfVariable(r, name, v))
    ensures NullPointerExactlyWhen(GetArrayOfPrimitiveAsWritten(r, name, p),
                                   NullUnder(r, name, ArrayOfNullablePrimitive(p)))
    ensures NullPointerExactlyWhen(GetArrayOfNullablePrimitiveAsWritten(r, name, p),
                                   NullUnder(r, name, ArrayOfPrimitive(p)))
  {
    if name in r.schema.fields {
      assert Conforms(r.schema.fields[name], r.objects[name]);
    }
  }

  /** On a materialised record the index accessors never fail with a
      class-cast. Over the corrected converters they fail only with the
      documented exceptions, a negative index among them; as written, a
      primitive index accessor throws a null dereference exactly when its
      whole-array accessor does. */
  lemma IndexAccessorsFailOnlyAsDocumented(r: GenericRecord, name: string, index: int, p: Prim, v: Var)
    requires Valid(r)
    ensures NoRuntimeFailure(PrimitiveFromArray(r, name, index, p))
    ensures NoRuntimeFailure(NullablePrimitiveFromArray(r, name, index, p))
    ensures NoRuntimeFailure(VariableFromArray(r, name, index, v))
    ensures NullPointerExactlyWhen(PrimitiveFromArrayAsWritten(r, name, index, p),
                                   NullUnder(r, name, ArrayOfNullablePrimitive(p)))
    ensures NullPointerExactlyWhen(NullablePrimitiveFromArrayAsWritten(r, name, index, p),
                                   NullUnder(r, name, ArrayOfPrimitive(p)))
  {
    ArrayAccessorsFailOnlyAsDocumented(r, name, p, v);
  }

  /** The descriptor overloads skip `check` but otherwise run the same code
      as the by-name accessors, so on a descriptor the schema hands out,
      whose kind the accessor accepts, the two agree. */
  lemma DescriptorOverloadsAgree(r: GenericRecord, name: string, p: Prim, v: Var)
    requires GetFieldDescriptor(r, name).Ok?
    ensures var fd := GetFieldDescriptor(r, name).value;
            && (fd.kind in ScalarKinds(p) ==>
                  && GetPrimitive(r, name, p) == GetPrimitiveByDescriptor(r, fd, p)
                  && GetNullablePrimitive(r, name, p) == GetNullablePrimitiveByDescriptor(r, fd, p))
            && (fd.kind in ArrayKinds(p) ==>
                  && GetArrayOfPrimitive(r, name, p) == ArrayOfPrimitiveInternal(r, fd, p)
                  && GetArrayOfNullablePrimitive(r, name, p) == ArrayOfNullablePrimitiveInternal(r, fd, p))
            && (fd.kind == Variable(v) ==> GetVariable(r, name, v) == GetVariableByDescriptor(r, fd, v))
            && (fd.kind == ArrayOfVariable(v) ==> GetArrayOfVariable(r, name, v) == GetArrayOfVariableByDescriptor(r, fd, v))
  {
  }

  /** `getObject(FieldDescriptor)` skips both the kind check and the cast of
      `getObject(name)`; on a materialised record with a `COMPACT` field they
      agree. */
  lemma ObjectOverloadsAgree(r: GenericRecord, name: string)
    requires Valid(r) && Declared(r, name, [Variable(Compact)])
    ensures GetObjectByDescriptor(r, GetFieldDescriptor(r, name).value) == GetVariable(r, name, Compact)
  {
    assert Conforms(r.schema.fields[name], r.objects[name]);
  }

  /** A record with a single field `a` of the given kind holding null. */
  function NullArrayRecord(kind: FieldKind): GenericRecord {
    GenericRecord(Schema("T", map["a" := kind], 1), map["a" := Null])
  }

  /** The converters as written dereference a null array declared with the
      "other" array variant, on a record that satisfies the invariant,
      while the same null under the matching variant reads back as null. */
  lemma NullArrayDereferencedAsWritten(p: Prim)
    ensures Valid(NullArrayRecord(ArrayOfNullablePrimitive(p)))
    ensures ArrayOfPrimitiveInternalAsWritten(
              NullArrayRecord(ArrayOfNullablePrimitive(p)), FieldDescriptor("a", ArrayOfNullablePrimitive(p)), p)
            == Err(NullPointer("a"))
    ensures ArrayOfPrimitiveInternalAsWritten(
              NullArrayRecord(ArrayOfPrimitive(p)), FieldDescriptor("a", ArrayOfPrimitive(p)), p)
            == Ok(Null)
    ensures Valid(NullArrayRecord(ArrayOfPrimitive(p)))
    ensures ArrayOfNullablePrimitiveInternalAsWritten(
              NullArrayRecord(ArrayOfPrimitive(p)), FieldDescriptor("a", ArrayOfPrimitive(p)), p)
            == Err(NullPointer("a"))
    ensures ArrayOfNullablePrimitiveInternalAsWritten(
              NullArrayRecord(ArrayOfNullablePrimitive(p)), FieldDescriptor("a", ArrayOfNullablePrimitive(p)), p)
            == Ok(Null)
  {
  }

  /** The same null arrays read by name: the as-written accessors, whole
      array and index alike, throw where the corrected ones answer null. */
  lemma NullArrayReadByNameAsWritten(p: Prim, index: int)
    ensures var plainNull := NullArrayRecord(ArrayOfPrimitive(p));
            var boxedNull := NullArrayRecord(ArrayOfNullablePrimitive(p));
            && GetArrayOfPrimitiveAsWritten(boxedNull, "a", p) == Err(NullPointer("a"))
            && GetArrayOfPrimitive(boxedNull, "a", p) == Ok(Null)
            && PrimitiveFromArrayAsWritten(boxedNull, "a", index, p) == Err(NullPointer("a"))
            && PrimitiveFromArray(boxedNull, "a", index, p) == Ok(Null)
            && GetArrayOfNullablePrimitiveAsWritten(plainNull, "a", p) == Err(NullPointer("a"))
            && GetArrayOfNullablePrimitive(plainNull, "a", p) == Ok(Null)
            && NullablePrimitiveFromArrayAsWritten(plainNull, "a", index, p) == Err(NullPointer("a"))
            && NullablePrimitiveFromArray(plainNull, "a", index, p) == Ok(Null)
  {
  }

  /** The schema `Point { x: INT32, y: INT32 }` with the record
      `{ x: 3, y: 4 }`, and a field `age: NULLABLE_INT32` holding null. */
  lemma PointScenario()
    ensures var point := GenericRecord(Schema("Point", map["x" := Primitive(Int32), "y" := Primitive(Int32)], 1),
                                       map["x" := Boxed(Int32, 3), "y" := Boxed(Int32, 4)]);
            && Valid(point)
            && GetPrimitive(point, "x", Int32) == Ok(3)
            && FieldKindOf(point, "z") == NotAvailable
            && GetPrimitive(point, "z", Int32) == Err(InvalidFieldName("z"))
            && GetPrimitive(point, "x", Int64) == Err(InvalidFieldKind("x", ScalarKinds(Int64), Primitive(Int32)))
    ensures var person := GenericRecord(Schema("Person", map["age" := NullablePrimitive(Int32)], 2),
                                        map["age" := Null]);
            && GetNullablePrimitive(person, "age", Int32) == Ok(Null)
            && GetPrimitive(person, "age", Int32) == Err(UnexpectedNull("age", "getInt32"))
  {
    assert MethodPrefix + Suffix(Int32) == "getInt32";
  }
}

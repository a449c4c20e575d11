# Compact generic records, the in-memory schema registry, and SQL row assignment

A Dafny model of three pieces of Hazelcast logic that need no I/O:

1. **The read path of a deserialized compact `GenericRecord`.** A record pairs a schema, which maps each field name to a
   `FieldKind`, with a map from field name to value. Each accessor runs through the same steps:
   - It validates the name and the declared kind through `check`.
   - It applies its null policy: primitive accessors reject a null, nullable accessors pass it through.
   - Array accessors convert between the plain array (`int[]`) and the boxed one (`Integer[]`).
   - Index accessors (`getInt32FromArray`, ...) answer null for a null array or for an index at or past its length.

   One Dafny function stands for each accessor family and takes the primitive or variable-size type as a parameter.
   For example, `GetPrimitive(r, name, Int32)` is `getInt32(name)`. Each Java exception is an `Error` constructor in a
   `Result`: `ClassCastException` and `NullPointerException` become `ClassCast` and `NullPointer`.
2. **The in-memory `SchemaService`.** It is an add-only map from schema id to schema.
   - `put` inserts only if the id is absent.
   - Re-registering an equal schema is a silent no-op.
   - A different schema under a taken id raises `IllegalStateException` and leaves the stored schema in place.
   - `putLocal` delegates to `put`.
3. **The SQL row-assignment coercion matrix**, as its parameterised test table pins it down:
   - a type-level verdict on the source and target families (denied, allowed, or allowed only for a literal source);
   - then a value-level conversion with the Java `byte`/`short`/`int`/`long` range checks.

Modules:

| file | module | content |
|---|---|---|
| `results.dfy` | `Results` | `Option` (a nullable reference) and `Result` (return or throw) |
| `field_kinds.dfy` | `FieldKinds` | the field-kind catalogue and the payload range of each primitive |
| `compact_records.dfy` | `CompactRecords` | schemas, values, records, errors, and the record invariant `Valid` |
| `deserialized_generic_record.dfy` | `DeserializedGenericRecord` | every accessor |
| `generic_record_properties.dfy` | `GenericRecordProperties` | lemmas relating accessors to each other and to `Valid` |
| `schema_registry.dfy` | `SchemaRegistry` | `get`, `put`, `putLocal`, request sequences, and their lemmas |
| `row_assignment.dfy` | `RowAssignment` | type families, the verdict, conversion, and messages |
| `row_assignment_properties.dfy` | `RowAssignmentProperties` | one lemma per property of the coercion table |

`Valid(r)` is the invariant the deserializer establishes:
- the value map has exactly the schema's names;
- every value has the Java class its declared kind calls for, and is in range;
- a null appears only where the kind is nullable, an array kind, or a variable-size kind.

The accessors are total and do not require `Valid`. A record that breaks it yields `ClassCast`, as the Java cast would.

The primitive-array accessors come in two versions (see Findings):
- `GetArrayOfPrimitive`, `GetArrayOfNullablePrimitive`, `PrimitiveFromArray` and `NullablePrimitiveFromArray` are the
  corrected accessors. A null array reads as null under both array kinds.
- The `*AsWritten` twins are the code as it stands. They dereference a null array declared with the other array kind,
  and throw `NullPointerException`.

The `*FailOnlyAsDocumented` lemmas show what can fail on a `Valid` record:
- `ClassCast` never occurs;
- the corrected accessors never give `NullPointer`;
- the as-written ones give `NullPointer` exactly in that null-array case.

Coercion parameters. Parsing a `VARCHAR` literal into a temporal value, and converting a temporal value between
families, are delegated to `java.time`. The model takes both as parameters (`Library.parse`, `Library.retime`).

## Model

| member | source | states |
|---|---|---|
| DeserializedGenericRecord.FieldKindOf | hazelcast/src/main/java/com/hazelcast/internal/serialization/impl/compact/DeserializedGenericRecord.java:113-121 | never fails: the declared kind for a declared name, `NotAvailable` otherwise; on a valid record `NotAvailable` exactly for a name without a value |
| DeserializedGenericRecord.HasField | hazelcast/src/main/java/com/hazelcast/internal/serialization/impl/compact/DeserializedGenericRecord.java:123-126 | true exactly when the value map (not the schema) has the key; on a valid record, exactly when `getFieldKind` is not `NOT_AVAILABLE` and exactly when `getFieldDescriptor` succeeds |
| DeserializedGenericRecord.FieldNames | hazelcast/src/main/java/com/hazelcast/internal/serialization/impl/compact/DeserializedGenericRecord.java:128-132 | a name is listed exactly when `hasField` holds for it |
| DeserializedGenericRecord.GetFieldDescriptor | hazelcast/src/main/java/com/hazelcast/internal/serialization/impl/compact/DeserializedGenericRecord.java:1002-1010 | succeeds exactly for a declared name, with that name and the kind `getFieldKind` reports; otherwise fails as an unknown field |
| DeserializedGenericRecord.Listed | hazelcast/src/main/java/com/hazelcast/internal/serialization/impl/compact/DeserializedGenericRecord.java:853-857 | the or-fold over the allowed kinds is true exactly when the declared kind is one of them |
| DeserializedGenericRecord.Check | hazelcast/src/main/java/com/hazelcast/internal/serialization/impl/compact/DeserializedGenericRecord.java:848-863 | an undeclared name fails as an invalid name; a kind outside the list fails as an invalid kind carrying the list and the kind found; otherwise returns the declared kind, which is in the list |
| DeserializedGenericRecord.NonNull | hazelcast/src/main/java/com/hazelcast/internal/serialization/impl/compact/DeserializedGenericRecord.java:840-846 | fails with the unexpected-null error naming `get` plus the type suffix exactly when the stored value is null; otherwise returns it |
| DeserializedGenericRecord.GetPrimitiveByDescriptor | hazelcast/src/main/java/com/hazelcast/internal/serialization/impl/compact/DeserializedGenericRecord.java:184-186 | no kind check; fails on a null; otherwise the stored primitive |
| DeserializedGenericRecord.GetPrimitive | hazelcast/src/main/java/com/hazelcast/internal/serialization/impl/compact/DeserializedGenericRecord.java:188-192 | accepts only the plain and nullable scalar kinds; a null fails; success means the stored value is that non-null primitive; on a valid record a declared non-null field always succeeds, in range |
| DeserializedGenericRecord.GetNullablePrimitiveByDescriptor | hazelcast/src/main/java/com/hazelcast/internal/serialization/impl/compact/DeserializedGenericRecord.java:640-644 | no kind check; returns the stored value, null included |
| DeserializedGenericRecord.GetNullablePrimitive | hazelcast/src/main/java/com/hazelcast/internal/serialization/impl/compact/DeserializedGenericRecord.java:646-651 | the same kind check as `getInt32`; never fails on nullability; on a valid record returns the stored value, null included |
| DeserializedGenericRecord.GetVariableByDescriptor | hazelcast/src/main/java/com/hazelcast/internal/serialization/impl/compact/DeserializedGenericRecord.java:216-220 | succeeds exactly when the stored value is null or of the type's class, and then returns it |
| DeserializedGenericRecord.GetVariable | hazelcast/src/main/java/com/hazelcast/internal/serialization/impl/compact/DeserializedGenericRecord.java:222-227 | exactly one allowed kind; null passed through; on a valid record returns the stored value |
| DeserializedGenericRecord.GetObjectByDescriptor | hazelcast/src/main/java/com/hazelcast/internal/serialization/impl/compact/DeserializedGenericRecord.java:996-1000 | never fails: the stored value, or null for a name without a value |
| DeserializedGenericRecord.Unbox | hazelcast/src/main/java/com/hazelcast/internal/serialization/impl/compact/DeserializedGenericRecord.java:433-442 | the unboxing loop succeeds exactly when no element is null, and then has the same length and element-wise equal values |
| DeserializedGenericRecord.Box | hazelcast/src/main/java/com/hazelcast/internal/serialization/impl/compact/DeserializedGenericRecord.java:786-789 | same length, `result[i]` is `array[i]`, no null element |
| DeserializedGenericRecord.ArrayOfPrimitiveInternal | hazelcast/src/main/java/com/hazelcast/internal/serialization/impl/compact/DeserializedGenericRecord.java:432-445 | a nullable-array kind unboxes, failing on any null element with the null-in-array error; a plain kind returns the stored array unchanged; a stored null gives null (corrected behaviour, see Findings) |
| DeserializedGenericRecord.ArrayOfPrimitiveInternalAsWritten | hazelcast/src/main/java/com/hazelcast/internal/serialization/impl/compact/DeserializedGenericRecord.java:432-445 | as written: a null stored under the nullable-array kind is dereferenced; in every other case equal to the corrected converter |
| DeserializedGenericRecord.GetArrayOfPrimitive | hazelcast/src/main/java/com/hazelcast/internal/serialization/impl/compact/DeserializedGenericRecord.java:425-430 | corrected behaviour: accepts only the two array kinds; a plain stored array is returned unchanged; a boxed one is unboxed element-wise or fails on a null element; a null array reads as null under both kinds |
| DeserializedGenericRecord.GetArrayOfPrimitiveAsWritten | hazelcast/src/main/java/com/hazelcast/internal/serialization/impl/compact/DeserializedGenericRecord.java:425-445 | as written: a null array declared `ARRAY_OF_NULLABLE_INT32` throws a null dereference; in every other case the same answer as the corrected accessor |
| DeserializedGenericRecord.ArrayOfNullablePrimitiveInternal | hazelcast/src/main/java/com/hazelcast/internal/serialization/impl/compact/DeserializedGenericRecord.java:784-792 | a plain-array kind boxes element-wise with no nulls; a nullable kind returns the stored array; a stored null gives null (corrected behaviour, see Findings) |
| DeserializedGenericRecord.ArrayOfNullablePrimitiveInternalAsWritten | hazelcast/src/main/java/com/hazelcast/internal/serialization/impl/compact/DeserializedGenericRecord.java:784-792 | as written: a null stored under the plain-array kind is dereferenced; in every other case equal to the corrected converter |
| DeserializedGenericRecord.GetArrayOfNullablePrimitive | hazelcast/src/main/java/com/hazelcast/internal/serialization/impl/compact/DeserializedGenericRecord.java:777-782 | corrected behaviour: accepts only the two array kinds; a plain array comes back boxed, same length and values; a null array reads as null under both kinds; its only failures are the name and kind checks and the cast |
| DeserializedGenericRecord.GetArrayOfNullablePrimitiveAsWritten | hazelcast/src/main/java/com/hazelcast/internal/serialization/impl/compact/DeserializedGenericRecord.java:777-792 | as written: a null array declared `ARRAY_OF_INT32` throws a null dereference; in every other case the same answer as the corrected accessor |
| DeserializedGenericRecord.GetArrayOfVariableByDescriptor | hazelcast/src/main/java/com/hazelcast/internal/serialization/impl/compact/DeserializedGenericRecord.java:503-507 | succeeds exactly when the stored value is null or an array of the type, and then returns it |
| DeserializedGenericRecord.GetArrayOfVariable | hazelcast/src/main/java/com/hazelcast/internal/serialization/impl/compact/DeserializedGenericRecord.java:509-514 | exactly one allowed kind; on a valid record returns the stored array or null |
| DeserializedGenericRecord.FromArray | hazelcast/src/main/java/com/hazelcast/internal/serialization/impl/compact/DeserializedGenericRecord.java:1084-1089 | null for a null array or an index at or past the length; the element at an index in range; a negative index fails the bounds check |
| DeserializedGenericRecord.PrimitiveFromArray | hazelcast/src/main/java/com/hazelcast/internal/serialization/impl/compact/DeserializedGenericRecord.java:930-938 | corrected behaviour: name and kind failures propagate; null for a null or short array under either kind; the element otherwise; a null element anywhere in a boxed array fails, whatever the index |
| DeserializedGenericRecord.PrimitiveFromArrayAsWritten | hazelcast/src/main/java/com/hazelcast/internal/serialization/impl/compact/DeserializedGenericRecord.java:930-938 | as written: the null dereference of `getArrayOfInt32` on a null `ARRAY_OF_NULLABLE_INT32` array escapes before the null test; otherwise the same answer as the corrected accessor |
| DeserializedGenericRecord.NullablePrimitiveFromArray | hazelcast/src/main/java/com/hazelcast/internal/serialization/impl/compact/DeserializedGenericRecord.java:1060-1064 | corrected behaviour: name and kind failures propagate; null for a null or short array under either kind, or a null element; the element otherwise |
| DeserializedGenericRecord.NullablePrimitiveFromArrayAsWritten | hazelcast/src/main/java/com/hazelcast/internal/serialization/impl/compact/DeserializedGenericRecord.java:1060-1064 | as written: the null dereference of `getArrayOfNullableInt32` on a null `ARRAY_OF_INT32` array escapes before `getFromArray` tests for null; otherwise the same answer as the corrected accessor |
| DeserializedGenericRecord.VariableFromArray | hazelcast/src/main/java/com/hazelcast/internal/serialization/impl/compact/DeserializedGenericRecord.java:960-964 | name and kind failures propagate; null past the end; the element otherwise; on a valid record the element is null or of the type's class |
| DeserializedGenericRecord.GetChar | hazelcast/src/main/java/com/hazelcast/internal/serialization/impl/compact/DeserializedGenericRecord.java:156-159 | always fails as unsupported |
| DeserializedGenericRecord.GetArrayOfChar | hazelcast/src/main/java/com/hazelcast/internal/serialization/impl/compact/DeserializedGenericRecord.java:357-361 | always fails as unsupported |
| DeserializedGenericRecord.NewBuilder | hazelcast/src/main/java/com/hazelcast/internal/serialization/impl/compact/DeserializedGenericRecord.java:101-105 | bound to the record's schema, nothing set |
| DeserializedGenericRecord.NewBuilderWithClone | hazelcast/src/main/java/com/hazelcast/internal/serialization/impl/compact/DeserializedGenericRecord.java:107-111 | bound to the record's schema, holding exactly the record's fields with their values |
| GenericRecordProperties.HasFieldIffDeclared | hazelcast/src/main/java/com/hazelcast/internal/serialization/impl/compact/DeserializedGenericRecord.java:113-132 | on a valid record `hasField` holds exactly when `getFieldKind` is not `NOT_AVAILABLE`, and the field names are the schema's |
| GenericRecordProperties.NullablePrimitiveAgreesWithPrimitive | hazelcast/src/main/java/com/hazelcast/internal/serialization/impl/compact/DeserializedGenericRecord.java:646-651 | when `getInt32` succeeds, `getNullableInt32` returns the same value boxed; when `getNullableInt32` returns null, `getInt32` fails on the null; both fail alike on name and kind |
| GenericRecordProperties.DeclaredPrimitiveNeverNull | hazelcast/src/main/java/com/hazelcast/internal/serialization/impl/compact/DeserializedGenericRecord.java:188-192 | on a valid record a field declared `INT32` reads back in range through both scalar accessors |
| GenericRecordProperties.StoredNullReadsOnlyAsNullable | hazelcast/src/main/java/com/hazelcast/internal/serialization/impl/compact/DeserializedGenericRecord.java:840-846 | a null under `NULLABLE_INT32` fails `getInt32` and reads as null through `getNullableInt32` |
| GenericRecordProperties.UnboxAfterBox | hazelcast/src/main/java/com/hazelcast/internal/serialization/impl/compact/DeserializedGenericRecord.java:784-792 | unboxing a boxed array gives the original back |
| GenericRecordProperties.BoxAfterUnbox | hazelcast/src/main/java/com/hazelcast/internal/serialization/impl/compact/DeserializedGenericRecord.java:432-445 | a null-free boxed array unboxes and re-boxes to itself |
| GenericRecordProperties.NullableArrayViewRoundTrip | hazelcast/src/main/java/com/hazelcast/internal/serialization/impl/compact/DeserializedGenericRecord.java:784-792 | `getArrayOfNullableInt32` on an `ARRAY_OF_INT32` field succeeds, and unboxing its result reproduces the stored array |
| GenericRecordProperties.PrimitiveArrayViewRoundTrip | hazelcast/src/main/java/com/hazelcast/internal/serialization/impl/compact/DeserializedGenericRecord.java:432-445 | `getArrayOfInt32` on a null-free `ARRAY_OF_NULLABLE_INT32` field succeeds, and boxing its result reproduces the stored array |
| GenericRecordProperties.IndexAccessorsAgree | hazelcast/src/main/java/com/hazelcast/internal/serialization/impl/compact/DeserializedGenericRecord.java:930-938 | whenever `getArrayOfInt32` succeeds, `getInt32FromArray` and `getNullableInt32FromArray` agree at every index |
| GenericRecordProperties.IndexAccessorToleratesShortArrays | hazelcast/src/main/java/com/hazelcast/internal/serialization/impl/compact/DeserializedGenericRecord.java:930-938 | on a valid record with an `ARRAY_OF_INT32` field, a null array or an index at or past the length reads as null through both corrected index accessors and through `getInt32FromArray` as written; `getNullableInt32FromArray` as written gives null for the short array but throws a null dereference on the null array |
| GenericRecordProperties.ScalarAccessorsFailOnlyAsDocumented | hazelcast/src/main/java/com/hazelcast/internal/serialization/impl/compact/DeserializedGenericRecord.java:184-227 | on a valid record the scalar accessors never fail with a class-cast or null-pointer exception |
| GenericRecordProperties.ArrayAccessorsFailOnlyAsDocumented | hazelcast/src/main/java/com/hazelcast/internal/serialization/impl/compact/DeserializedGenericRecord.java:419-445 | on a valid record the whole-array accessors never fail with a class-cast; the corrected ones never with a null dereference; the as-written primitive ones throw a null dereference exactly when the field holds a null array declared with the other array kind |
| GenericRecordProperties.IndexAccessorsFailOnlyAsDocumented | hazelcast/src/main/java/com/hazelcast/internal/serialization/impl/compact/DeserializedGenericRecord.java:930-938 | on a valid record the index accessors never fail with a class-cast; the corrected ones never with a null dereference; the as-written primitive ones throw a null dereference exactly when the field holds a null array declared with the other array kind |
| GenericRecordProperties.DescriptorOverloadsAgree | hazelcast/src/main/java/com/hazelcast/internal/serialization/impl/compact/DeserializedGenericRecord.java:419-430 | on the descriptor the schema hands out, the descriptor overloads and the by-name accessors give the same answer |
| GenericRecordProperties.ObjectOverloadsAgree | hazelcast/src/main/java/com/hazelcast/internal/serialization/impl/compact/DeserializedGenericRecord.java:990-1000 | on a valid record with a `COMPACT` field, `getObject(descriptor)` and `getObject(name)` agree |
| GenericRecordProperties.NullArrayDereferencedAsWritten | hazelcast/src/main/java/com/hazelcast/internal/serialization/impl/compact/DeserializedGenericRecord.java:432-445 | a valid one-field record whose array is null: each as-written converter dereferences it under the other array kind, yet returns null under its own |
| GenericRecordProperties.NullArrayReadByNameAsWritten | hazelcast/src/main/java/com/hazelcast/internal/serialization/impl/compact/DeserializedGenericRecord.java:930-938 | on the same one-field records, read by name: `getArrayOfInt32`, `getInt32FromArray`, `getArrayOfNullableInt32` and `getNullableInt32FromArray` as written throw a null dereference, where the corrected accessors answer null |
| GenericRecordProperties.PointScenario | hazelcast/src/main/java/com/hazelcast/internal/serialization/impl/compact/DeserializedGenericRecord.java:848-863 | on `Point {x: 3, y: 4}`: `getInt32("x")` is 3, an unknown name and a wrong kind fail; a null `age` reads as null and fails `getInt32` |
| SchemaRegistry.Get | hazelcast/src/test/java/com/hazelcast/internal/serialization/impl/compact/CompactTestUtil.java:174-177 | the schema registered under the id, or null when there is none |
| SchemaRegistry.Put | hazelcast/src/test/java/com/hazelcast/internal/serialization/impl/compact/CompactTestUtil.java:179-188 | an absent id is inserted; a taken id leaves the registry unchanged; a conflict is raised exactly when a different schema holds the id, carrying both schemas; no entry is lost; every schema stays under its own id |
| SchemaRegistry.PutLocal | hazelcast/src/test/java/com/hazelcast/internal/serialization/impl/compact/CompactTestUtil.java:190-193 | the same effect and the same conflict as `put`: an absent id is inserted; a taken id leaves the registry unchanged; a conflict exactly when a different schema holds the id, carrying both schemas; no entry is lost; every schema stays under its own id |
| SchemaRegistry.PutIdempotent | hazelcast/src/test/java/com/hazelcast/internal/serialization/impl/compact/CompactTestUtil.java:181-183 | registering the same schema again changes nothing and ends as the first registration did |
| SchemaRegistry.GetAfterPut | hazelcast/src/test/java/com/hazelcast/internal/serialization/impl/compact/CompactTestUtil.java:180-182 | after a successful `put`, `get` of its id answers the schema and every other id answers as before |
| SchemaRegistry.FirstRegistrationWins | hazelcast/src/test/java/com/hazelcast/internal/serialization/impl/compact/CompactTestUtil.java:182-187 | a second, different schema under the same id fails through either entry point and the first stays registered |
| SchemaRegistry.ApplyExtends | hazelcast/src/test/java/com/hazelcast/internal/serialization/impl/compact/CompactTestUtil.java:170-195 | over any sequence of requests, every entry present before stays present and unchanged |
| SchemaRegistry.ApplyKeepsWellKeyed | hazelcast/src/test/java/com/hazelcast/internal/serialization/impl/compact/CompactTestUtil.java:180-182 | over any sequence of requests every schema stays stored under its own id |
| SchemaRegistry.GetIsStable | hazelcast/src/test/java/com/hazelcast/internal/serialization/impl/compact/CompactTestUtil.java:170-195 | once `get(id)` is non-null it answers the same schema after any further requests |
| RowAssignment.Rule | hazelcast-sql/src/test/java/com/hazelcast/jet/sql/impl/validate/RowAssignmentTypeCoercionTest.java:83-535 | agrees with the verdict the table lists for every pair of families it covers; NULL, OBJECT and identical families are always allowed; literal-only exactly for VARCHAR into a temporal family |
| RowAssignment.TruncDiv | hazelcast-sql/src/test/java/com/hazelcast/jet/sql/impl/validate/RowAssignmentTypeCoercionTest.java:306 | the quotient truncated toward zero, which agrees with 42.1 becoming 42 |
| RowAssignment.Convert | hazelcast-sql/src/test/java/com/hazelcast/jet/sql/impl/validate/RowAssignmentTypeCoercionTest.java:192-320 | a result always belongs to the target family; an overflow names source and target and occurs only for an integer target; a parse failure only for VARCHAR |
| RowAssignment.Assign | hazelcast-sql/src/test/java/com/hazelcast/jet/sql/impl/validate/RowAssignmentTypeCoercionTest.java:83-535 | fails with cannot-assign exactly when the verdict is denied, or literal-only with a non-literal source; a result belongs to the target family; NULL stays NULL; OBJECT and identical targets keep the value |
| RowAssignmentProperties.NullAssignsEverywhere | hazelcast-sql/src/test/java/com/hazelcast/jet/sql/impl/validate/RowAssignmentTypeCoercionTest.java:84-97 | NULL is assignable to every target and yields NULL |
| RowAssignmentProperties.BooleanOnlyToBooleanOrObject | hazelcast-sql/src/test/java/com/hazelcast/jet/sql/impl/validate/RowAssignmentTypeCoercionTest.java:164-189 | a BOOLEAN succeeds exactly into BOOLEAN and OBJECT, unchanged; elsewhere it fails with cannot-assign |
| RowAssignmentProperties.ObjectOnlyToObject | hazelcast-sql/src/test/java/com/hazelcast/jet/sql/impl/validate/RowAssignmentTypeCoercionTest.java:507-535 | an OBJECT succeeds exactly into OBJECT; elsewhere it fails with cannot-assign |
| RowAssignmentProperties.EverythingToObject | hazelcast-sql/src/test/java/com/hazelcast/jet/sql/impl/validate/RowAssignmentTypeCoercionTest.java:83-535 | every source goes into OBJECT with its value unchanged |
| RowAssignmentProperties.IntegerWideningKeepsValue | hazelcast-sql/src/test/java/com/hazelcast/jet/sql/impl/validate/RowAssignmentTypeCoercionTest.java:196-199 | widening an integer succeeds with the same value |
| RowAssignmentProperties.IntegerConversionRangeChecked | hazelcast-sql/src/test/java/com/hazelcast/jet/sql/impl/validate/RowAssignmentTypeCoercionTest.java:268-276 | an integer conversion succeeds exactly when the value fits the target, keeps it, and otherwise fails with the numeric overflow from source to target |
| RowAssignmentProperties.DecimalToIntegerTruncates | hazelcast-sql/src/test/java/com/hazelcast/jet/sql/impl/validate/RowAssignmentTypeCoercionTest.java:296-307 | a DECIMAL reaches an integer column as its quotient truncated toward zero, range-checked |
| RowAssignmentProperties.IntegerToDecimalExact | hazelcast-sql/src/test/java/com/hazelcast/jet/sql/impl/validate/RowAssignmentTypeCoercionTest.java:200 | an integer reaches DECIMAL exactly |
| RowAssignmentProperties.OverflowRows | hazelcast-sql/src/test/java/com/hazelcast/jet/sql/impl/validate/RowAssignmentTypeCoercionTest.java:219-307 | SMALLINT 420 to TINYINT, INTEGER 42000 to SMALLINT, BIGINT 4200000000 to INTEGER and DECIMAL 9223372036854775809 to BIGINT overflow; DECIMAL 42.1 to BIGINT gives 42 |
| RowAssignmentProperties.VarcharNeverNumericOrBoolean | hazelcast-sql/src/test/java/com/hazelcast/jet/sql/impl/validate/RowAssignmentTypeCoercionTest.java:101-138 | a VARCHAR never reaches a numeric or BOOLEAN target, whatever its text, literal or not |
| RowAssignmentProperties.VarcharLiteralOnlyToTemporal | hazelcast-sql/src/test/java/com/hazelcast/jet/sql/impl/validate/RowAssignmentTypeCoercionTest.java:139-160 | a VARCHAR column into a temporal target fails with cannot-assign; a literal is parsed, failing with cannot-parse when the text is not a value of the target |
| RowAssignmentProperties.LiteralnessMattersOnlyForVarcharToTemporal | hazelcast-sql/src/test/java/com/hazelcast/jet/sql/impl/validate/RowAssignmentTypeCoercionTest.java:762-773 | literal and column sources give different outcomes only for VARCHAR into a temporal target |
| RowAssignmentProperties.TemporalAssignments | hazelcast-sql/src/test/java/com/hazelcast/jet/sql/impl/validate/RowAssignmentTypeCoercionTest.java:387-503 | between temporal families an assignment succeeds exactly unless it is TIME into DATE or DATE into TIME, which fail with cannot-assign |
| RowAssignmentProperties.NonTemporalNeverToTemporalOrVarchar | hazelcast-sql/src/test/java/com/hazelcast/jet/sql/impl/validate/RowAssignmentTypeCoercionTest.java:164-320 | a numeric or BOOLEAN source never reaches a temporal or VARCHAR target |
| RowAssignmentProperties.OverflowMessage | hazelcast-sql/src/test/java/com/hazelcast/jet/sql/impl/validate/RowAssignmentTypeCoercionTest.java:219-220 | the overflow message reads "Numeric overflow while converting SMALLINT to TINYINT" |
| RowAssignmentProperties.ParseMessage | hazelcast-sql/src/test/java/com/hazelcast/jet/sql/impl/validate/RowAssignmentTypeCoercionTest.java:158-159 | the parse message reads "Cannot parse VARCHAR value to TIMESTAMP WITH TIME ZONE" |

## Left out

- Floating point. `FLOAT32`/`FLOAT64` values are opaque bit patterns in the record model. The REAL and DOUBLE families,
  and their table rows, are not modelled.
- Character accessors. `getCharFromArray` is covered by `GetChar`, since both throw whatever their arguments.
  CHAR and PORTABLE kinds never reach this record's accessors, so they are not in the kind catalogue.
- Error messages. Accessors carry the exception's identifying data (field, allowed kinds, kind found, accessor name),
  not the formatted text, which embeds the schema's `toString`.
- The accessor name in null errors. `exceptionForUnexpectedNullValue` and its array variant are not part of this model.
  The error carries the prefix and type suffix they are given.
- Builders. `newBuilder` and `newBuilderWithClone` are stated only as binding the schema (and the cloned values). The
  builder classes, their setters and `build` are not part of this model.
- `getSchema` and `getClassIdentifier`. They return the schema and its type name, with no logic to state.
- `getInternalGenericRecord` and `getArrayOfInternalGenericRecord`. They behave as `getGenericRecord` and
  `getArrayOfGenericRecord` (`GetVariable` and `GetArrayOfVariable` with `Compact`). `InternalGenericRecord` is not
  distinguished from `GenericRecord`.
- Schema-id fingerprinting. The id is a field of the schema; how it is computed from the fields is not part of this
  model.
- Concurrency. The `ConcurrentHashMap` behind the registry is modelled as a value; concurrent `put`s are not modelled.
  Neither is the cluster-wide propagation of the real schema service.
- Serialization service wiring and the DTO factories of the test utility. They are test fixtures and I/O.
- DECIMAL precision and rounding. The converter is not part of this model. Decimal-to-integer truncates toward zero,
  a modelling choice consistent with the table's 42.1 row. That row has a positive operand, so it cannot tell
  truncation from flooring. Precision, scale limits and the `DECIMAL(38, 38)` type itself are not modelled.
- Temporal arithmetic. Temporal values are opaque; conversion between temporal families (date fill, time-zone offsets)
  and parsing of VARCHAR literals are parameters of the model.
- Message text of the coercion errors. The family names are modelled; the table's regular expressions over field
  names are not.
- RPC, operation, pipeline and connector classes around the core (replicated-map put-all task, merging-map collector,
  Raft group lookup, WAN event publishing, peek pipeline, list writer, Kafka data-link registration). They hold no local
  logic to model.
- `*FromArray` on a field absent from the schema. The schema-evolution contract of these index accessors has them
  return null, and never throw, for such a field. The code disagrees in two ways:
  - it reaches them through `check`, which throws an invalid-field-name error;
  - a negative index fails Java's bounds check.

  The model follows the code: `PrimitiveFromArray` and its siblings fail with `InvalidFieldName` and
  `IndexOutOfBounds`.
- GetArrayOfPrimitive: models the corrected converter. A null `ARRAY_OF_NULLABLE_*` array reads as null, where the code
  throws `NullPointerException`. The code as written is `GetArrayOfPrimitiveAsWritten`.
- GetArrayOfNullablePrimitive: models the corrected converter. A null `ARRAY_OF_*` array reads as null, where the code
  throws `NullPointerException`. The code as written is `GetArrayOfNullablePrimitiveAsWritten`.
- PrimitiveFromArray: reads through the corrected `GetArrayOfPrimitive`, so a null `ARRAY_OF_NULLABLE_*` array reads as
  null. The code throws; `PrimitiveFromArrayAsWritten` models it.
- NullablePrimitiveFromArray: reads through the corrected `GetArrayOfNullablePrimitive`, so a null `ARRAY_OF_*` array
  reads as null. The code throws; `NullablePrimitiveFromArrayAsWritten` models it.

## Findings

| source | as written | input that shows it | evidently intended | confidence | as-written member | corrected member |
|---|---|---|---|---|---|---|
| hazelcast/src/main/java/com/hazelcast/internal/serialization/impl/compact/DeserializedGenericRecord.java:432-445 | under `ARRAY_OF_NULLABLE_INT32` the converter reads `array.length` without a null check | a record whose `ARRAY_OF_NULLABLE_INT32` field holds null, read with `getArrayOfInt32`: `NullPointerException` | return null, as the `ARRAY_OF_INT32` path and the `*FromArray` null checks do | not executed | DeserializedGenericRecord.ArrayOfPrimitiveInternalAsWritten | DeserializedGenericRecord.ArrayOfPrimitiveInternal |
| hazelcast/src/main/java/com/hazelcast/internal/serialization/impl/compact/DeserializedGenericRecord.java:784-792 | under `ARRAY_OF_INT32` the converter reads `array.length` without a null check | a record whose `ARRAY_OF_INT32` field holds null, read with `getArrayOfNullableInt32`: `NullPointerException` | return null, as the `ARRAY_OF_NULLABLE_INT32` path does | not executed | DeserializedGenericRecord.ArrayOfNullablePrimitiveInternalAsWritten | DeserializedGenericRecord.ArrayOfNullablePrimitiveInternal |

`GenericRecordProperties.NullArrayDereferencedAsWritten` exhibits both rows on a record that satisfies `Valid`.
`GenericRecordProperties.NullArrayReadByNameAsWritten` shows the same null dereference through the public accessors, by
name and by index. The same
pattern recurs in every per-type converter (`Boolean`, `Int8`, `Int16`, `Int64`, `Float32`, `Float64`).

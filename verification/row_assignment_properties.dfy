/** Properties of row assignment, one per column or line of the coercion
    table, stated over all values and both source kinds. */
module RowAssignmentProperties {
  import opened Results
  import opened RowAssignment

  /** `NULL` is assignable to every column and stays `NULL`. */
  lemma NullAssignsEverywhere(lib: Library, tgt: Family, isLiteral: bool)
    ensures Assign(lib, Null, tgt, isLiteral, SqlNull) == Ok(SqlNull)
  {
  }

  /** A `BOOLEAN` source reaches only `BOOLEAN` and `OBJECT` columns. */
  lemma BooleanOnlyToBooleanOrObject(lib: Library, tgt: Family, isLiteral: bool, v: SqlValue)
    requires HasFamily(v, Boolean)
    ensures Assign(lib, Boolean, tgt, isLiteral, v).Ok? <==> tgt == Boolean || tgt == Object
    ensures Assign(lib, Boolean, tgt, isLiteral, v).Ok? ==> Assign(lib, Boolean, tgt, isLiteral, v).value == v
    ensures Assign(lib, Boolean, tgt, isLiteral, v).Err? ==>
              Assign(lib, Boolean, tgt, isLiteral, v).error == CannotAssign(tgt, Boolean)
  {
  }

  /** An `OBJECT` source reaches only an `OBJECT` column. */
  lemma ObjectOnlyToObject(lib: Library, tgt: Family, isLiteral: bool, v: SqlValue)
    ensures Assign(lib, Object, tgt, isLiteral, v).Ok? <==> tgt == Object
    ensures tgt != Object ==> Assign(lib, Object, tgt, isLiteral, v) == Err(CannotAssign(tgt, Object))
  {
  }

  /** Every source reaches an `OBJECT` column, with its value unchanged. */
  lemma EverythingToObject(lib: Library, src: Family, isLiteral: bool, v: SqlValue)
    requires HasFamily(v, src)
    ensures Assign(lib, src, Object, isLiteral, v) == Ok(v)
  {
  }

  /** Widening an integer keeps its value. */
  lemma IntegerWideningKeepsValue(lib: Library, src: Family, tgt: Family, isLiteral: bool, n: int)
    requires IsIntegerFamily(src) && IsIntegerFamily(tgt) && Width(src) <= Width(tgt)
    requires InRange(src, n)
    ensures Assign(lib, src, tgt, isLiteral, Int(n)) == Ok(Int(n))
  {
  }

  /** Any integer conversion succeeds exactly when the value fits the
      target, keeps the value when it does, and reports a numeric overflow
      from source to target when it does not. */
  lemma IntegerConversionRangeChecked(lib: Library, src: Family, tgt: Family, isLiteral: bool, n: int)
    requires IsIntegerFamily(src) && IsIntegerFamily(tgt) && InRange(src, n)
    ensures Assign(lib, src, tgt, isLiteral, Int(n)).Ok? <==> InRange(tgt, n)
    ensures InRange(tgt, n) ==> Assign(lib, src, tgt, isLiteral, Int(n)) == Ok(Int(n))
    ensures !InRange(tgt, n) ==> Assign(lib, src, tgt, isLiteral, Int(n)) == Err(NumericOverflow(src, tgt))
  {
  }

  /** A `DECIMAL` reaches an integer column as its quotient truncated toward
      zero, range-checked like any integer. */
  lemma DecimalToIntegerTruncates(lib: Library, tgt: Family, isLiteral: bool, unscaled: int, scale: nat)
    requires IsIntegerFamily(tgt)
    ensures var q := TruncDiv(unscaled, Pow10(scale));
            Assign(lib, Decimal, tgt, isLiteral, Dec(unscaled, scale))
            == if InRange(tgt, q) then Ok(Int(q)) else Err(NumericOverflow(Decimal, tgt))
  {
  }

  /** An integer reaches a `DECIMAL` column exactly, with scale zero. */
  lemma IntegerToDecimalExact(lib: Library, src: Family, isLiteral: bool, n: int)
    requires IsIntegerFamily(src) && InRange(src, n)
    ensures Assign(lib, src, Decimal, isLiteral, Int(n)) == Ok(Dec(n, 0))
  {
  }

  /** The overflow rows of the table: `SMALLINT 420 -> TINYINT`,
      `INTEGER 42000 -> SMALLINT`, `BIGINT 4200000000 -> INTEGER`,
      `DECIMAL 9223372036854775809 -> BIGINT`; and `DECIMAL 42.1 -> BIGINT`
      giving 42. */
  lemma OverflowRows(lib: Library, isLiteral: bool)
    ensures Assign(lib, SmallInt, TinyInt, isLiteral, Int(420)) == Err(NumericOverflow(SmallInt, TinyInt))
    ensures Assign(lib, Integer, SmallInt, isLiteral, Int(42000)) == Err(NumericOverflow(Integer, SmallInt))
    ensures Assign(lib, BigInt, Integer, isLiteral, Int(4200000000)) == Err(NumericOverflow(BigInt, Integer))
    ensures Assign(lib, Decimal, BigInt, isLiteral, Dec(9223372036854775809, 0))
            == Err(NumericOverflow(Decimal, BigInt))
    ensures Assign(lib, Decimal, BigInt, isLiteral, Dec(421, 1)) == Ok(Int(42))
    ensures Assign(lib, BigInt, TinyInt, isLiteral, Int(42)) == Ok(Int(42))
  {
    assert Pow10(1) == 10;
  }

  /** A `VARCHAR` never reaches a numeric or `BOOLEAN` column, whatever its
      text and whether or not it is a literal. */
  lemma VarcharNeverNumericOrBoolean(lib: Library, tgt: Family, isLiteral: bool, s: string)
    requires IsNumeric(tgt) || tgt == Boolean
    ensures Assign(lib, Varchar, tgt, isLiteral, Text(s)) == Err(CannotAssign(tgt, Varchar))
  {
  }

  /** A `VARCHAR` literal is parsed into a temporal column; the same
      `VARCHAR` from a column or expression is rejected. */
  lemma VarcharLiteralOnlyToTemporal(lib: Library, tgt: Family, s: string)
    requires IsTemporal(tgt)
    ensures Assign(lib, Varchar, tgt, false, Text(s)) == Err(CannotAssign(tgt, Varchar))
    ensures Assign(lib, Varchar, tgt, true, Text(s))
            == match lib.parse(tgt, s)
               case None => Err(CannotParse(tgt))
               case Some(p) => Ok(Temporal(tgt, p))
  {
  }

  /** Whether the source is a literal matters only for `VARCHAR` into a
      temporal column. */
  lemma LiteralnessMattersOnlyForVarcharToTemporal(lib: Library, src: Family, tgt: Family, v: SqlValue)
    requires HasFamily(v, src)
    ensures Assign(lib, src, tgt, true, v) != Assign(lib, src, tgt, false, v) ==>
              src == Varchar && IsTemporal(tgt)
  {
  }

  /** Among the temporal families, `TIMESTAMP` (with or without time zone)
      reaches `TIME` and `DATE`, `TIME` and `DATE` reach both timestamps,
      and `TIME` and `DATE` do not reach each other. */
  lemma TemporalAssignments(lib: Library, src: Family, tgt: Family, isLiteral: bool, v: SqlValue)
    requires IsTemporal(src) && IsTemporal(tgt) && HasFamily(v, src)
    ensures Assign(lib, src, tgt, isLiteral, v).Ok?
            <==> (src, tgt) != (Time, Date) && (src, tgt) != (Date, Time)
    ensures Assign(lib, src, tgt, isLiteral, v).Err? ==>
              Assign(lib, src, tgt, isLiteral, v).error == CannotAssign(tgt, src)
  {
  }

  /** No other family reaches a temporal column, nor a `VARCHAR` one. */
  lemma NonTemporalNeverToTemporalOrVarchar(lib: Library, src: Family, tgt: Family, isLiteral: bool, v: SqlValue)
    requires HasFamily(v, src)
    requires IsNumeric(src) || src == Boolean
    requires IsTemporal(tgt) || tgt == Varchar
    ensures Assign(lib, src, tgt, isLiteral, v) == Err(CannotAssign(tgt, src))
  {
  }

  /** The overflow message the table expects. */
  lemma OverflowMessage()
    ensures Message(NumericOverflow(SmallInt, TinyInt), "field1", "v")
            == "Numeric overflow while converting SMALLINT to TINYINT"
  {
  }

  /** The parse-failure message the table expects. */
  lemma ParseMessage()
    ensures Message(CannotParse(TimestampWithTimeZone), "field1", "v")
            == "Cannot parse VARCHAR value to TIMESTAMP WITH TIME ZONE"
  {
  }
}

/** Assigning a value of one SQL type family to a target column of another,
    as an `INSERT`/`SINK INTO ... VALUES`, `INSERT ... SELECT` or `UPDATE ...
    SET` performs it: a type-level decision on the two families, then a
    value-level conversion with integer range checks. */
module RowAssignment {
  import opened Results

  /** The query type families (`REAL` and `DOUBLE` are not part of this
      model). */
  datatype Family =
    | Null | Varchar | Boolean
    | TinyInt | SmallInt | Integer | BigInt | Decimal
    | Time | Date | Timestamp | TimestampWithTimeZone
    | Object

  predicate IsIntegerFamily(f: Family) {
    f.TinyInt? || f.SmallInt? || f.Integer? || f.BigInt?
  }

  predicate IsNumeric(f: Family) {
    IsIntegerFamily(f) || f == Decimal
  }

  predicate IsTemporal(f: Family) {
    f.Time? || f.Date? || f.Timestamp? || f.TimestampWithTimeZone?
  }

  /** The bit width of the Java type behind an integer family: `byte`,
      `short`, `int`, `long`. */
  function Width(f: Family): nat
    requires IsIntegerFamily(f)
  {
    match f
    case TinyInt => 8
    case SmallInt => 16
    case Integer => 32
    case BigInt => 64
  }

  /** The values the Java type behind an integer family can hold. */
  predicate InRange(f: Family, n: int)
    requires IsIntegerFamily(f)
  {
    match f
    case TinyInt => -0x80 <= n < 0x80
    case SmallInt => -0x8000 <= n < 0x8000
    case Integer => -0x8000_0000 <= n < 0x8000_0000
    case BigInt => -0x8000_0000_0000_0000 <= n < 0x8000_0000_0000_0000
  }

  /** A runtime value. A `DECIMAL` is `unscaled / 10^scale`; a temporal
      value's content is opaque; `Other` is any Java object an `OBJECT`
      column may hold. */
  datatype SqlValue =
    | SqlNull
    | Text(chars: string)
    | Bool(b: bool)
    | Int(n: int)
    | Dec(unscaled: int, scale: nat)
    | Temporal(family: Family, payload: int)
    | Other(payload: int)

  /** Whether `v` is a value of a column of family `f`; SQL `NULL` belongs
      to every family. */
  predicate HasFamily(v: SqlValue, f: Family) {
    v == SqlNull ||
    match f
    case Null => false
    case Varchar => v.Text?
    case Boolean => v.Bool?
    case TinyInt | SmallInt | Integer | BigInt => v.Int? && InRange(f, v.n)
    case Decimal => v.Dec?
    case Time | Date | Timestamp | TimestampWithTimeZone => v.Temporal? && v.family == f
    case Object => true
  }

  /** The library conversions the engine delegates to `java.time`: parsing a
      `VARCHAR` literal into a temporal family, and converting a temporal
      value between families. */
  datatype Library = Library(
    parse: (Family, string) -> Option<int>,
    retime: (Family, Family, int) -> int)

  /** Why an assignment fails. */
  datatype AssignError =
      /** the validator rejects the pair of families */
    | CannotAssign(target: Family, source: Family)
      /** an integer conversion whose value does not fit the target */
    | NumericOverflow(source: Family, target: Family)
      /** a `VARCHAR` literal that is not a valid temporal value */
    | CannotParse(target: Family)

  /** The type-level decision: denied, allowed, or allowed for a literal
      source only. */
  datatype Verdict = Denied | Allowed | LiteralOnly

  /** The verdicts the coercion table lists, one source family per line and
      in its order; `None` for pairs it does not list (a `NULL` target, which
      is no column type). */
  function TableVerdict(src: Family, tgt: Family): Option<Verdict> {
    if tgt == Null then None
    else
      Some(match src
           case Null => Allowed
           case Varchar =>
             if tgt in {Varchar, Object} then Allowed
             else if tgt in {Time, Date, Timestamp, TimestampWithTimeZone} then LiteralOnly
             else Denied
           case Boolean => if tgt in {Boolean, Object} then Allowed else Denied
           case TinyInt | SmallInt | Integer | BigInt | Decimal =>
             if tgt in {TinyInt, SmallInt, Integer, BigInt, Decimal, Object} then Allowed else Denied
           case Time => if tgt in {Time, Timestamp, TimestampWithTimeZone, Object} then Allowed else Denied
           case Date => if tgt in {Date, Timestamp, TimestampWithTimeZone, Object} then Allowed else Denied
           case Timestamp | TimestampWithTimeZone =>
             if tgt in {Time, Date, Timestamp, TimestampWithTimeZone, Object} then Allowed else Denied
           case Object => if tgt == Object then Allowed else Denied)
  }

  /** The assignment rule: `NULL` goes anywhere, anything goes to `OBJECT`
      and to its own family, numeric families interconvert, a `VARCHAR`
      reaches a temporal family only as a literal, and temporal families
      interconvert except between `TIME` and `DATE`. */
  function Rule(src: Family, tgt: Family): (verdict: Verdict)
    ensures TableVerdict(src, tgt).Some? ==> verdict == TableVerdict(src, tgt).value
    ensures src == Null || tgt == Object || tgt == src ==> verdict == Allowed
    ensures verdict == LiteralOnly <==> src == Varchar && IsTemporal(tgt)
  {
    if src == Null || tgt == Object || src == tgt then Allowed
    else if src == Varchar then (if IsTemporal(tgt) then LiteralOnly else Denied)
    else if IsNumeric(src) && IsNumeric(tgt) then Allowed
    else if IsTemporal(src) && IsTemporal(tgt) then
      (if (src, tgt) == (Time, Date) || (src, tgt) == (Date, Time) then Denied else Allowed)
    else Denied
  }

  /** The quotient truncated toward zero, as Java's integer division
      rounds. The converter itself is not part of this model; truncation is
      a modelling choice that agrees with the table's `42.1 -> 42` row, whose
      positive operand does not tell truncation from flooring. */
  function TruncDiv(a: int, d: int): (q: int)
    requires d > 0
    ensures a >= 0 ==> q * d <= a < q * d + d
    ensures a < 0 ==> q * d - d < a <= q * d
  {
    if a >= 0 then a / d else -((-a) / d)
  }

  function Pow10(k: nat): (p: int)
    ensures p >= 1
  {
    if k == 0 then 1 else 10 * Pow10(k - 1)
  }

  /** The value-level conversion of an assignment the rule admits. */
  function Convert(lib: Library, src: Family, tgt: Family, v: SqlValue): (res: Result<SqlValue, AssignError>)
    requires HasFamily(v, src) && Rule(src, tgt) != Denied
    ensures res.Ok? ==> HasFamily(res.value, tgt)
    ensures res.Err? && res.error.NumericOverflow? ==> res.error == NumericOverflow(src, tgt) && IsIntegerFamily(tgt)
    ensures res.Err? && res.error.CannotParse? ==> res.error == CannotParse(tgt) && src == Varchar
    ensures res.Err? ==> !res.error.CannotAssign?
  {
    if v == SqlNull then Ok(SqlNull)
    else if tgt == Object || tgt == src then Ok(v)
    else if IsIntegerFamily(tgt) then
      var n := if v.Int? then v.n else TruncDiv(v.unscaled, Pow10(v.scale));
      if InRange(tgt, n) then Ok(Int(n)) else Err(NumericOverflow(src, tgt))
    else if tgt == Decimal then Ok(Dec(v.n, 0))
    else if src == Varchar then
      match lib.parse(tgt, v.chars)
      case None => Err(CannotParse(tgt))
      case Some(p) => Ok(Temporal(tgt, p))
    else Ok(Temporal(tgt, lib.retime(src, tgt, v.payload)))
  }

  /** Assign `v`, of family `src`, to a column of family `tgt`; `isLiteral`
      says whether the source is a literal rather than a column or
      expression. */
  function Assign(lib: Library, src: Family, tgt: Family, isLiteral: bool, v: SqlValue): (res: Result<SqlValue, AssignError>)
    requires HasFamily(v, src)
    ensures res.Err? && res.error.CannotAssign? <==>
              Rule(src, tgt) == Denied || (Rule(src, tgt) == LiteralOnly && !isLiteral)
    ensures res.Err? && res.error.CannotAssign? ==> res.error == CannotAssign(tgt, src)
    ensures res.Ok? ==> HasFamily(res.value, tgt)
    ensures v == SqlNull && res.Ok? ==> res.value == SqlNull
    ensures tgt == Object || tgt == src ==> res == Ok(v)
    ensures res.Err? && res.error.NumericOverflow? ==> IsNumeric(src) && IsIntegerFamily(tgt)
  {
    match Rule(src, tgt)
    case Denied => Err(CannotAssign(tgt, src))
    case LiteralOnly => if isLiteral then Convert(lib, src, tgt, v) else Err(CannotAssign(tgt, src))
    case Allowed => Convert(lib, src, tgt, v)
  }

  /** The type name the validator prints. */
  function TypeName(f: Family): string {
    if f == Decimal then "DECIMAL(38, 38)" else FamilyName(f)
  }

  /** The family name the converters print. */
  function FamilyName(f: Family): string {
    match f
    case Null => "NULL"
    case Varchar => "VARCHAR"
    case Boolean => "BOOLEAN"
    case TinyInt => "TINYINT"
    case SmallInt => "SMALLINT"
    case Integer => "INTEGER"
    case BigInt => "BIGINT"
    case Decimal => "DECIMAL"
    case Time => "TIME"
    case Date => "DATE"
    case Timestamp => "TIMESTAMP"
    case TimestampWithTimeZone => "TIMESTAMP WITH TIME ZONE"
    case Object => "OBJECT"
  }

  /** The exception message of a failed assignment into field `target` from
      field `source`. */
  function Message(e: AssignError, target: string, source: string): string {
    match e
    case CannotAssign(t, s) =>
      "Cannot assign to target field '" + target + "' of type " + TypeName(t)
      + " from source field '" + source + "' of type " + TypeName(s)
    case NumericOverflow(s, t) => "Numeric overflow while converting " + FamilyName(s) + " to " + FamilyName(t)
    case CannotParse(t) => "Cannot parse VARCHAR value to " + FamilyName(t)
  }
}

/** ValueConverter: choosing a conversion mode for a (target type, source
    column type) pair, and converting one source field by that mode. */
module ValueConverter {
  import opened Wrappers
  import opened Text
  import opened YdbTypes
  import opened Jdbc

  /** How one source field becomes a YDB value: one constructor per conversion rule. */
  datatype ConvMode =
    | BlobStream | BlobObject
    | Binary | Bool | Int32 | Int64 | Uint32 | Uint64 | Float | Double | Decimal
    | Date | Datetime | Timestamp | Text
    | DateInt32 | DateInt64 | DateUint32 | DateUint64 | DateStr
    | TsDate | TsInt64 | TsUint64 | TsStr
    | Int2Bool | Str2Bool

  /** Conversion settings of one bound column: 1-based position in the result
      set, 0-based position in the target struct, mode, and the full path of
      the auxiliary table for a blob mode. */
  datatype ConvInfo = ConvInfo(sourceIndex: int, targetIndex: int, mode: ConvMode, blobPath: Option<string>)

  /** The exceptions the modelled code raises, as values. */
  datatype Failure =
    | UnsupportedType(prim: PrimitiveType)     // chooseMode: unsupported primitive type
    | UnsupportedKind(ty: Type)                // chooseMode: neither decimal nor primitive
    | UnsupportedConversion(mode: ConvMode)    // convertValue: mode without a case
    | GetterFailed(mode: ConvMode)             // the JDBC getter the mode reads threw
    | ColumnFailed(column: string, cause: Failure)  // convert: wrapped with the column name
    | BlobStreamFailed                         // openStream threw
    | IndexOutOfBounds                         // an array store outside the members array
    | IllegalCapacity                          // new ArrayList(n) with n < 0
    | SourceFailed                             // connection, statement or query failed
    | WriteFailed                              // the upsert executor reported a failed write

  const INT_SOURCES: set<int> := {SMALLINT, INTEGER, BIGINT, DECIMAL, NUMERIC, FLOAT, DOUBLE}
  const CHAR_SOURCES: set<int> := {CHAR, NCHAR, VARCHAR, NVARCHAR}

  /** The modes that encode a source DATE into a number or text. */
  predicate IsDateMode(m: ConvMode)
  {
    m.DateInt32? || m.DateInt64? || m.DateUint32? || m.DateUint64? || m.DateStr?
  }

  /** The modes that read a source TIMESTAMP into a non-timestamp target. */
  predicate IsTsMode(m: ConvMode)
  {
    m.TsDate? || m.TsInt64? || m.TsUint64? || m.TsStr?
  }

  /** The target types that absorb a DATE source, and those that absorb a TIMESTAMP source. */
  predicate AbsorbsDate(p: PrimitiveType)
  {
    p.Int32? || p.Int64? || p.Uint32? || p.Uint64? || p.Text?
  }

  predicate AbsorbsTimestamp(p: PrimitiveType)
  {
    p.Date? || p.Int64? || p.Uint64?
  }

  /** The primitive target types chooseMode has a case for. */
  predicate Supported(p: PrimitiveType)
  {
    p.Bool? || p.Date? || p.Datetime? || p.Timestamp? || p.Float? || p.Double?
    || p.Int32? || p.Int64? || p.Uint32? || p.Uint64? || p.Text? || p.Bytes?
  }

  function P(p: PrimitiveType): Type { Primitive(p) }

  /** The type of the values a mode produces (a blob mode produces the Int64
      reference to the auxiliary row). TsStr is declared without a conversion. */
  function ModeTarget(mode: ConvMode): Type
  {
    match mode
    case BlobStream | BlobObject => P(PrimitiveType.Int64)
    case Binary => P(PrimitiveType.Bytes)
    case Bool | Int2Bool | Str2Bool => P(PrimitiveType.Bool)
    case Int32 | DateInt32 => P(PrimitiveType.Int32)
    case Int64 | DateInt64 | TsInt64 => P(PrimitiveType.Int64)
    case Uint32 | DateUint32 => P(PrimitiveType.Uint32)
    case Uint64 | DateUint64 | TsUint64 => P(PrimitiveType.Uint64)
    case Float => P(PrimitiveType.Float)
    case Double => P(PrimitiveType.Double)
    case Decimal => DECIMAL_TYPE
    case Date | TsDate => P(PrimitiveType.Date)
    case Datetime => P(PrimitiveType.Datetime)
    case Timestamp => P(PrimitiveType.Timestamp)
    case Text | DateStr | TsStr => P(PrimitiveType.Text)
  }

  /** A mode serves a target type when its values have that type; every decimal
      target is served by the one decimal mode. */
  predicate Serves(mode: ConvMode, target: Type)
  {
    if target.Decimal? then mode == ConvMode.Decimal else ModeTarget(mode) == target
  }

  /** The inner switch on the source type for a Bool target. */
  function BoolMode(sourceType: int): (m: ConvMode)
    ensures m == ConvMode.Int2Bool <==> sourceType in INT_SOURCES
    ensures m == ConvMode.Str2Bool <==> sourceType in CHAR_SOURCES
    ensures m == ConvMode.Bool <==> sourceType !in INT_SOURCES + CHAR_SOURCES
  {
    if sourceType in INT_SOURCES then ConvMode.Int2Bool
    else if sourceType in CHAR_SOURCES then ConvMode.Str2Bool
    else ConvMode.Bool
  }

  /** The switch on a primitive target type, then on the source type. */
  function PrimitiveMode(p: PrimitiveType, sourceType: int): (r: Result<ConvMode, Failure>)
    // never a blob mode or TsStr
    ensures r.Ok? ==> !r.value.BlobStream? && !r.value.BlobObject? && !r.value.TsStr?
    ensures r.Err? <==> !Supported(p)
    ensures r.Err? ==> r.error == UnsupportedType(p)
  {
    match p
    case Bool => Ok(BoolMode(sourceType))
    case Date => if sourceType == TIMESTAMP then Ok(ConvMode.TsDate) else Ok(ConvMode.Date)
    case Datetime => Ok(ConvMode.Datetime)
    case Timestamp => Ok(ConvMode.Timestamp)
    case Float => Ok(ConvMode.Float)
    case Double => Ok(ConvMode.Double)
    case Int32 => if sourceType == DATE then Ok(ConvMode.DateInt32) else Ok(ConvMode.Int32)
    case Int64 =>
      if sourceType == DATE then Ok(ConvMode.DateInt64)
      else if sourceType == TIMESTAMP then Ok(ConvMode.TsInt64)
      else Ok(ConvMode.Int64)
    case Uint32 => if sourceType == DATE then Ok(ConvMode.DateUint32) else Ok(ConvMode.Uint32)
    case Uint64 =>
      if sourceType == DATE then Ok(ConvMode.DateUint64)
      else if sourceType == TIMESTAMP then Ok(ConvMode.TsUint64)
      else Ok(ConvMode.Uint64)
    case Text => if sourceType == DATE then Ok(ConvMode.DateStr) else Ok(ConvMode.Text)
    case Bytes => Ok(ConvMode.Binary)
    case _ => Err(UnsupportedType(p))
  }

  /** The mode chosen for a primitive target produces values of that type. */
  lemma PrimitiveModeServes(p: PrimitiveType, sourceType: int)
    requires PrimitiveMode(p, sourceType).Ok?
    ensures ModeTarget(PrimitiveMode(p, sourceType).value) == Primitive(p)
  {
    var m := PrimitiveMode(p, sourceType).value;
    if p.Bool? {
      assert m in {ConvMode.Bool, ConvMode.Int2Bool, ConvMode.Str2Bool};
    } else if p.Int64? || p.Uint64? {
      assert sourceType == DATE || sourceType == TIMESTAMP || m in {ConvMode.Int64, ConvMode.Uint64};
    }
  }

  /** Date absorption is chosen exactly for a DATE source into a type that
      absorbs dates, timestamp absorption exactly for a TIMESTAMP source into
      a type that absorbs timestamps. */
  lemma PrimitiveModeAbsorbs(p: PrimitiveType, sourceType: int)
    ensures var r := PrimitiveMode(p, sourceType);
      (r.Ok? && IsDateMode(r.value) ==> sourceType == DATE)
      && (r.Ok? && IsTsMode(r.value) ==> sourceType == TIMESTAMP)
      && (sourceType == DATE && AbsorbsDate(p) ==> r.Ok? && IsDateMode(r.value))
      && (sourceType == TIMESTAMP && AbsorbsTimestamp(p) ==> r.Ok? && IsTsMode(r.value))
  {
  }

  /** The decision table of chooseMode, applied to a type with no optional
      wrapper left and the source column's java.sql.Types code. */
  function ModeFor(t: Type, sourceType: int): (r: Result<ConvMode, Failure>)
    // a decimal target takes the decimal mode whatever the source
    ensures t.Decimal? ==> r == Ok(ConvMode.Decimal)
    // the chosen mode produces values of the target type; never a blob mode or TsStr
    ensures r.Ok? ==> Serves(r.value, t)
    ensures r.Ok? ==> !r.value.BlobStream? && !r.value.BlobObject? && !r.value.TsStr?
    // the error cases: an unsupported primitive type, or a kind neither decimal nor primitive
    ensures r.Err? <==> !t.Decimal? && !(t.Primitive? && Supported(t.prim))
    ensures r.Err? && !t.Primitive? ==> r.error == UnsupportedKind(t)
  {
    match t
    case Decimal(_, _) => Ok(ConvMode.Decimal)
    case Primitive(p) =>
      if PrimitiveMode(p, sourceType).Ok? then PrimitiveModeServes(p, sourceType); PrimitiveMode(p, sourceType)
      else PrimitiveMode(p, sourceType)
    case _ => Err(UnsupportedKind(t))
  }

  /** chooseMode: the type of target member ixTarget, with its optional
      wrappers stripped one by one, against the type of source column ixSource. */
  method ChooseMode(ixSource: int, ixTarget: int, fields: StructType, columns: seq<ColumnMeta>)
    returns (r: Result<ConvMode, Failure>)
    requires 0 <= ixTarget < |fields| && 1 <= ixSource <= |columns|
    ensures r == ModeFor(Innermost(fields[ixTarget].ty), columns[ixSource - 1].sqlType)
  {
    var paramType := fields[ixTarget].ty;
    while paramType.Optional?
      invariant Innermost(paramType) == Innermost(fields[ixTarget].ty)
      decreases paramType
    {
      paramType := paramType.item;
    }
    r := ModeFor(paramType, columns[ixSource - 1].sqlType);
  }

  /** Wrapping a target type in any number of optional layers does not change the mode. */
  lemma {:induction false} ModeIgnoresOptional(t: Type, k: nat, sourceType: int)
    ensures ModeFor(Innermost(WrapOptional(t, k)), sourceType) == ModeFor(Innermost(t), sourceType)
  {
    if k > 0 {
      ModeIgnoresOptional(t, k - 1, sourceType);
    }
  }

  // ---------------------------------------------------------------------------
  // Helpers of convertValue

  /** The first characters that make a string false, compared ignoring case:
      N, 0, F and the Cyrillic letters EN (U+041D) and EL (U+041B). */
  const FALSY_INITIALS: set<char> :=
    {'N', 'n', '0', 'F', 'f', 'Н', 'н', 'Л', 'л'}

  /** String.trim: drop the characters up to U+0020 at both ends. */
  function TrimStart(s: string): string
  {
    if s != [] && s[0] <= ' ' then TrimStart(s[1..]) else s
  }

  function TrimEnd(s: string): string
  {
    if s != [] && s[|s| - 1] <= ' ' then TrimEnd(s[..|s| - 1]) else s
  }

  function Trim(s: string): string { TrimEnd(TrimStart(s)) }

  /** The first character above U+0020 of s is at position i. */
  predicate FirstVisibleAt(s: string, i: int)
  {
    0 <= i < |s| && s[i] > ' ' && forall j :: 0 <= j < i ==> s[j] <= ' '
  }

  /** str2bool: false for null and for a blank string; otherwise false exactly
      when the first non-blank character is one of FALSY_INITIALS. */
  function StringToBool(value: Option<string>): (r: bool)
    ensures r <==> (value.Some? && exists i :: FirstVisibleAt(value.value, i) && value.value[i] !in FALSY_INITIALS)
  {
    if value.None? then false
    else
      var t := Trim(value.value);
      TrimFirst(value.value);
      if |t| == 0 then false else t[0] !in FALSY_INITIALS
  }

  /** Trimming leaves nothing exactly when there is no visible character, and
      otherwise starts with the first visible one. */
  lemma {:induction false} TrimFirst(s: string)
    ensures |Trim(s)| == 0 <==> !exists i :: FirstVisibleAt(s, i)
    ensures forall i :: FirstVisibleAt(s, i) ==> |Trim(s)| > 0 && Trim(s)[0] == s[i]
  {
    TrimStartDrops(s);
    var u := TrimStart(s);
    if u != [] {
      TrimEndKeepsFirst(u);
      var k :| FirstVisibleAt(s, k) && u == s[k..];
      assert forall i :: FirstVisibleAt(s, i) ==> i == k;
    }
  }

  lemma {:induction false} TrimStartDrops(s: string)
    ensures TrimStart(s) == [] ==> forall j :: 0 <= j < |s| ==> s[j] <= ' '
    ensures TrimStart(s) != [] ==> exists k :: FirstVisibleAt(s, k) && TrimStart(s) == s[k..]
  {
    if s != [] && s[0] <= ' ' {
      TrimStartDrops(s[1..]);
      var u := TrimStart(s);
      if u != [] {
        var k :| FirstVisibleAt(s[1..], k) && u == s[1..][k..];
        assert u == s[k + 1..];
        forall j | 0 <= j < k + 1 ensures s[j] <= ' ' {
          if j > 0 { assert s[j] == s[1..][j - 1]; }
        }
        assert FirstVisibleAt(s, k + 1);
      } else {
        forall j | 0 <= j < |s| ensures s[j] <= ' ' {
          if j > 0 { assert s[j] == s[1..][j - 1]; }
        }
      }
    } else if s != [] {
      assert FirstVisibleAt(s, 0) && s == s[0..];
    }
  }

  lemma {:induction false} TrimEndKeepsFirst(u: string)
    requires u != [] && u[0] > ' '
    ensures TrimEnd(u) != [] && TrimEnd(u)[0] == u[0]
  {
    if u[|u| - 1] <= ' ' {
      assert |u| > 1;
      TrimEndKeepsFirst(u[..|u| - 1]);
    }
  }

  /** date2int: year * 10000 + month * 100 + day, in Java int arithmetic. */
  function DateToInt(d: LocalDate): (r: YdbTypes.Int32)
  {
    Wrap32(d.year * 10000 + d.month * 100 + d.day)
  }

  /** date2str: "%d/%02d/%02d" of year, month and day, as String.format
      prints it under a default locale whose digits are ASCII. */
  function DateToString(d: LocalDate): (s: string)
  {
    IntToString(d.year) + "/" + Pad2(d.month) + "/" + Pad2(d.day)
  }

  /** Reads "y/mm/dd" back into a date: the inverse of DateToString. */
  function ParseDateString(s: string): Option<Ymd>
  {
    if |s| >= 7 && s[|s| - 6] == '/' && s[|s| - 3] == '/'
       && AllDigits(s[|s| - 5..|s| - 3]) && AllDigits(s[|s| - 2..])
    then
      match ParseInt(s[..|s| - 6])
      case Some(y) => Some(Ymd(y, ParseDigits(s[|s| - 5..|s| - 3]), ParseDigits(s[|s| - 2..])))
      case None => None
    else None
  }

  /** For a year from 0 to 214748 the Java int does not overflow, and the
      number decodes back: /10000 gives the year, /100 % 100 the month and
      % 100 the day. */
  lemma DateToIntDecodes(d: LocalDate)
    requires 0 <= d.year <= 214748
    ensures DateToInt(d) / 10000 == d.year
    ensures DateToInt(d) / 100 % 100 == d.month
    ensures DateToInt(d) % 100 == d.day
  {
    var x := d.year * 10000 + d.month * 100 + d.day;
    assert x < 0x8000_0000;
    var low := d.month * 100 + d.day;
    assert 0 <= low < 10000;
    assert x == d.year * 10000 + low;
    DivModPart(d.year, 10000, low);
    assert x == (d.year * 100 + d.month) * 100 + d.day;
    DivModPart(d.year * 100 + d.month, 100, d.day);
    DivModPart(d.year, 100, d.month);
  }

  lemma DivModPart(q: int, n: int, rem: int)
    requires (n == 100 || n == 10000) && 0 <= rem < n
    ensures (q * n + rem) / n == q && (q * n + rem) % n == rem
  {
    if n == 100 {
      assert (q * 100 + rem) / 100 == q;
    } else {
      assert (q * 10000 + rem) / 10000 == q;
    }
  }

  /** ParseDateString inverts DateToString for every date. */
  lemma DateStringRoundTrip(d: LocalDate)
    ensures ParseDateString(DateToString(d)) == Some(Ymd(d.year, d.month, d.day))
  {
    var y := IntToString(d.year);
    var mm := Pad2(d.month);
    var dd := Pad2(d.day);
    var s := DateToString(d);
    assert s == y + "/" + mm + "/" + dd;
    assert |y| >= 1 by { if d.year < 0 { } }
    assert s[..|s| - 6] == y;
    assert s[|s| - 5..|s| - 3] == mm;
    assert s[|s| - 2..] == dd;
    ParseIntToString(d.year);
    ParsePad2(d.month);
    ParsePad2(d.day);
  }

  /** The date 2021-03-05 as the number 20210305 and the text "2021/03/05". */
  lemma DateEncodingExample()
    ensures DateToInt(Ymd(2021, 3, 5)) == 20210305
    ensures DateToString(Ymd(2021, 3, 5)) == "2021/03/05"
  {
    assert NatToString(2021) == "2021" by {
      assert NatToString(2) == "2";
      assert NatToString(20) == "20";
      assert NatToString(202) == "202";
    }
  }

  // ---------------------------------------------------------------------------
  // convertValue

  /** What convertValue hands back: a converted value, or, for a blob mode,
      the hand-off to convertBlob (which the load task implements). */
  datatype Conversion = Converted(value: Value) | ToBlob

  /** Whether the JDBC getter that a mode reads succeeds on a present field. */
  predicate GetterSucceeds(f: Field, mode: ConvMode, decimalIssue: bool)
    requires f.Present?
  {
    match mode
    case Binary => f.asBytes.Some?
    case Bool => f.asBoolean.Some?
    case Int2Bool | Int32 | Uint32 => f.asInt.Some?
    case Int64 | Uint64 => f.asLong.Some?
    case Date | DateInt32 | DateInt64 | DateUint32 | DateUint64 | DateStr => f.asDate.Some?
    case Datetime | Timestamp | TsDate | TsInt64 | TsUint64 => f.asTimestamp.Some?
    case Float => f.asFloat.Some?
    case Double => f.asDouble.Some?
    case Decimal => decimalIssue || f.asBigDecimal.Some?
    case Str2Bool | Text | BlobStream | BlobObject | TsStr => true
  }

  /** The value read by a getter that succeeded, or the getter's failure. */
  function Got(succeeded: bool, v: Value, mode: ConvMode): Result<Conversion, Failure>
  {
    if succeeded then Ok(Converted(v)) else Err(GetterFailed(mode))
  }

  /** convertValue: a null field gives VoidValue whatever the mode; otherwise one
      dispatch on the mode. decimalIssue stands for DECIMAL_ISSUE1, the startup
      probe that selects building decimals from their text. */
  function ConvertValue(f: Field, mode: ConvMode, decimalIssue: bool): Result<Conversion, Failure>
  {
    if f.SqlNull? then Ok(Converted(VoidValue))
    else
      match mode
      case BlobStream | BlobObject => Ok(ToBlob)
      case Binary => Got(f.asBytes.Some?, if f.asBytes.Some? then BytesValue(f.asBytes.value) else VoidValue, mode)
      case Bool => Got(f.asBoolean.Some?, if f.asBoolean.Some? then BoolValue(f.asBoolean.value) else VoidValue, mode)
      case Int2Bool => Got(f.asInt.Some?, if f.asInt.Some? then BoolValue(f.asInt.value != 0) else VoidValue, mode)
      case Str2Bool => Ok(Converted(BoolValue(StringToBool(Some(f.text)))))
      case Date => Got(f.asDate.Some?, if f.asDate.Some? then DateValue(f.asDate.value) else VoidValue, mode)
      case DateInt32 => Got(f.asDate.Some?, if f.asDate.Some? then Int32Value(DateToInt(f.asDate.value)) else VoidValue, mode)
      case DateUint32 => Got(f.asDate.Some?, if f.asDate.Some? then Uint32Value(DateToInt(f.asDate.value)) else VoidValue, mode)
      case DateInt64 => Got(f.asDate.Some?, if f.asDate.Some? then Int64Value(DateToInt(f.asDate.value)) else VoidValue, mode)
      case DateUint64 => Got(f.asDate.Some?, if f.asDate.Some? then Uint64Value(DateToInt(f.asDate.value)) else VoidValue, mode)
      case DateStr => Got(f.asDate.Some?, if f.asDate.Some? then TextValue(DateToString(f.asDate.value)) else VoidValue, mode)
      case Datetime => Got(f.asTimestamp.Some?, if f.asTimestamp.Some? then DatetimeValue(f.asTimestamp.value.instant) else VoidValue, mode)
      case Timestamp => Got(f.asTimestamp.Some?, if f.asTimestamp.Some? then TimestampValue(f.asTimestamp.value.instant) else VoidValue, mode)
      case TsDate => Got(f.asTimestamp.Some?, if f.asTimestamp.Some? then DateValue(f.asTimestamp.value.localDate) else VoidValue, mode)
      case TsInt64 => Got(f.asTimestamp.Some?, if f.asTimestamp.Some? then Int64Value(f.asTimestamp.value.epochMillis) else VoidValue, mode)
      case TsUint64 => Got(f.asTimestamp.Some?, if f.asTimestamp.Some? then Uint64Value(f.asTimestamp.value.epochMillis) else VoidValue, mode)
      case Float => Got(f.asFloat.Some?, if f.asFloat.Some? then FloatValue(f.asFloat.value) else VoidValue, mode)
      case Double => Got(f.asDouble.Some?, if f.asDouble.Some? then DoubleValue(f.asDouble.value) else VoidValue, mode)
      case Int32 => Got(f.asInt.Some?, if f.asInt.Some? then Int32Value(f.asInt.value) else VoidValue, mode)
      case Uint32 => Got(f.asInt.Some?, if f.asInt.Some? then Uint32Value(f.asInt.value) else VoidValue, mode)
      case Int64 => Got(f.asLong.Some?, if f.asLong.Some? then Int64Value(f.asLong.value) else VoidValue, mode)
      case Uint64 => Got(f.asLong.Some?, if f.asLong.Some? then Uint64Value(f.asLong.value) else VoidValue, mode)
      case Text => Ok(Converted(TextValue(f.text)))
      case Decimal =>
        if decimalIssue then Ok(Converted(DecimalValue(FromText(f.text))))
        else Got(f.asBigDecimal.Some?, if f.asBigDecimal.Some? then DecimalValue(f.asBigDecimal.value) else VoidValue, mode)
      case TsStr => Err(UnsupportedConversion(mode))
  }

  /** A null field gives Void whatever the mode; a present one is handed to
      convertBlob exactly in the two blob modes. */
  lemma ConvertValueBlob(f: Field, mode: ConvMode, decimalIssue: bool)
    ensures f.SqlNull? ==> ConvertValue(f, mode, decimalIssue) == Ok(Converted(VoidValue))
    ensures ConvertValue(f, mode, decimalIssue) == Ok(ToBlob)
      <==> f.Present? && mode in {ConvMode.BlobStream, ConvMode.BlobObject}
  {
  }

  /** A present field converts to a value of the mode's target type. */
  lemma ConvertValueTyped(f: Field, mode: ConvMode, decimalIssue: bool)
    requires f.Present? && ConvertValue(f, mode, decimalIssue).Ok?
    ensures var c := ConvertValue(f, mode, decimalIssue).value;
      c.Converted? ==> TypeOf(c.value) == Some(ModeTarget(mode))
  {
  }

  /** convertValue fails exactly when the mode has no case (TsStr) or the
      getter it reads throws, and says which. */
  lemma ConvertValueFails(f: Field, mode: ConvMode, decimalIssue: bool)
    ensures var r := ConvertValue(f, mode, decimalIssue);
      (r.Err? <==> f.Present? && (mode == ConvMode.TsStr || !GetterSucceeds(f, mode, decimalIssue)))
      && (r.Err? ==> r.error == (if mode == ConvMode.TsStr then UnsupportedConversion(mode) else GetterFailed(mode)))
  {
  }

  /** A mode chosen for a column, applied to a present field, yields a value of
      the column's own type once its optional wrappers are stripped (for a
      decimal column, of the fixed decimal type). */
  lemma ChosenModeFitsColumn(t: Type, sourceType: int, f: Field, decimalIssue: bool)
    requires f.Present? && ModeFor(Innermost(t), sourceType).Ok?
    requires ConvertValue(f, ModeFor(Innermost(t), sourceType).value, decimalIssue).Ok?
    ensures var c := ConvertValue(f, ModeFor(Innermost(t), sourceType).value, decimalIssue).value;
      c.Converted? &&
      TypeOf(c.value) == Some(if Innermost(t).Decimal? then DECIMAL_TYPE else Innermost(t))
  {
    var m := ModeFor(Innermost(t), sourceType).value;
    ConvertValueBlob(f, m, decimalIssue);
    ConvertValueTyped(f, m, decimalIssue);
    assert Serves(m, Innermost(t));
  }

  /** INT2BOOL reads the column as an int and gives false exactly for 0 and
      true for every other int; it fails only when getInt throws. */
  lemma IntToBoolZeroOnly(f: Field, decimalIssue: bool)
    requires f.Present?
    ensures ConvertValue(f, ConvMode.Int2Bool, decimalIssue) == Ok(Converted(BoolValue(false))) <==> f.asInt == Some(0)
    ensures ConvertValue(f, ConvMode.Int2Bool, decimalIssue) == Ok(Converted(BoolValue(true))) <==> f.asInt.Some? && f.asInt.value != 0
    ensures ConvertValue(f, ConvMode.Int2Bool, decimalIssue).Err? <==> f.asInt.None?
  {
  }

  /** str2bool on the strings the loader's documentation lists as false ... */
  lemma StringToBoolFalseExamples()
    ensures !StringToBool(None) && !StringToBool(Some("")) && !StringToBool(Some("  "))
    ensures !StringToBool(Some("n")) && !StringToBool(Some("N")) && !StringToBool(Some("0"))
    ensures !StringToBool(Some("f")) && !StringToBool(Some(" false")) && !StringToBool(Some("нет"))
  {
    assert Trim("  ") == "";
    assert Trim(" false") == "false";
  }

  /** ... and as true. */
  lemma StringToBoolTrueExamples()
    ensures StringToBool(Some("1")) && StringToBool(Some("yes")) && StringToBool(Some("true"))
  {
    assert FirstVisibleAt("1", 0) && FirstVisibleAt("yes", 0) && FirstVisibleAt("true", 0);
  }
}

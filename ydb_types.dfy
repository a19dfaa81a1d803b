/** The part of the target store's type and value system that the loader
    touches: primitive types, decimals, the optional wrapper, struct members,
    and the typed values a converted row is made of. */
module YdbTypes {
  import opened Wrappers

  newtype byte = x: int | 0 <= x < 256

  /** A Java int and a Java long. */
  type Int32 = x: int | -0x8000_0000 <= x < 0x8000_0000
  type Int64 = x: int | -0x8000_0000_0000_0000 <= x < 0x8000_0000_0000_0000

  /** Java int arithmetic: the result wrapped into the 32-bit two's-complement range. */
  function Wrap32(x: int): (r: Int32)
    ensures -0x8000_0000 <= x < 0x8000_0000 ==> r == x
  {
    var m := x % 0x1_0000_0000;
    if m < 0x8000_0000 then m else m - 0x1_0000_0000
  }

  datatype PrimitiveType =
    | Bool | Int8 | Uint8 | Int16 | Uint16 | Int32 | Uint32 | Int64 | Uint64
    | Float | Double | Bytes | Text | Yson | Json | Uuid
    | Date | Datetime | Timestamp | Interval | TzDate | TzDatetime | TzTimestamp
    | JsonDocument | DyNumber

  /** The kinds other than primitive, decimal and optional. */
  datatype OtherKind = List | Tuple | Struct | Dict | Variant | Void | Null | Tagged | PgType

  datatype Type =
    | Primitive(prim: PrimitiveType)
    | Decimal(precision: nat, scale: nat)
    | Optional(item: Type)
    | Other(kind: OtherKind)

  /** The type left once every optional wrapper is stripped. */
  function Innermost(t: Type): (r: Type)
    ensures !r.Optional?
    ensures !t.Optional? ==> r == t
  {
    if t.Optional? then Innermost(t.item) else t
  }

  /** t wrapped in k optional layers. */
  function WrapOptional(t: Type, k: nat): Type
  {
    if k == 0 then t else Optional(WrapOptional(t, k - 1))
  }

  datatype Member = Member(name: string, ty: Type)

  /** The members of a struct type, in their declared order. */
  type StructType = seq<Member>

  function MemberNames(s: StructType): (names: seq<string>)
    ensures |names| == |s| && forall i :: 0 <= i < |s| ==> names[i] == s[i].name
  {
    seq(|s|, i requires 0 <= i < |s| => s[i].name)
  }

  /** A calendar date as (year, month, day), as java.time.LocalDate reports it. */
  datatype Ymd = Ymd(year: int, month: int, day: int)

  type LocalDate = d: Ymd | 1 <= d.month <= 12 && 1 <= d.day <= 31 witness Ymd(1970, 1, 1)

  /** A floating-point value, carried as its bit pattern and never interpreted. */
  datatype FloatBits = FloatBits(bits: int)

  /** How a decimal value was handed to the store: as source text or as a BigDecimal. */
  datatype DecimalInput = FromText(text: string) | FromBigDecimal(unscaled: int, scale: int)

  /** The decimal type every decimal value is built with, DecimalType.of(22, 9). */
  const DECIMAL_TYPE: Type := Decimal(22, 9)

  /** A target value; VoidValue is the "no value" placed in unset members. */
  datatype Value =
    | VoidValue
    | BoolValue(b: bool)
    | Int32Value(i32: Int32)
    | Uint32Value(u32: int)
    | Int64Value(i64: int)
    | Uint64Value(u64: int)
    | FloatValue(f: FloatBits)
    | DoubleValue(d: FloatBits)
    | TextValue(text: string)
    | BytesValue(bytes: seq<byte>)
    | DateValue(date: LocalDate)
    | DatetimeValue(dtInstant: int)
    | TimestampValue(tsInstant: int)
    | DecimalValue(dec: DecimalInput)

  /** The type of a value, or None for VoidValue. */
  function TypeOf(v: Value): Option<Type>
  {
    match v
    case VoidValue => None
    case BoolValue(_) => Some(Primitive(PrimitiveType.Bool))
    case Int32Value(_) => Some(Primitive(PrimitiveType.Int32))
    case Uint32Value(_) => Some(Primitive(PrimitiveType.Uint32))
    case Int64Value(_) => Some(Primitive(PrimitiveType.Int64))
    case Uint64Value(_) => Some(Primitive(PrimitiveType.Uint64))
    case FloatValue(_) => Some(Primitive(PrimitiveType.Float))
    case DoubleValue(_) => Some(Primitive(PrimitiveType.Double))
    case TextValue(_) => Some(Primitive(PrimitiveType.Text))
    case BytesValue(_) => Some(Primitive(PrimitiveType.Bytes))
    case DateValue(_) => Some(Primitive(PrimitiveType.Date))
    case DatetimeValue(_) => Some(Primitive(PrimitiveType.Datetime))
    case TimestampValue(_) => Some(Primitive(PrimitiveType.Timestamp))
    case DecimalValue(_) => Some(DECIMAL_TYPE)
  }
}

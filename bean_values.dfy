/** Java property values as the record framework sees them through bean getters: their
    declared types, their own `hashCode()`, `compareTo` and `String.valueOf`. Two values are
    `equals` in Java exactly when they are equal here: floating-point values are carried as
    their canonical bit patterns (`floatToIntBits`, `doubleToLongBits`), dates as their
    milliseconds, and an object of a class outside the model as its identity and hash code. */
module BeanValues {
  import opened Wrappers
  import opened JavaLang

  datatype Primitive = BooleanP | ByteP | ShortP | IntP | LongP | FloatP | DoubleP

  /** The declared type of a bean property. */
  datatype JavaType =
    | StringType
      /** `Boolean`, `Byte`, `Short`, `Integer`, `Long`, `Float`, `Double` */
    | BoxedType(boxed: Primitive)
      /** `boolean`, `byte`, ...: the getter's result is boxed, so it is never null */
    | PrimitiveType(prim: Primitive)
      /** `java.util.Date` */
    | DateType
      /** `java.util.List` */
    | ListType
      /** any other class; it has no `compareTo` taking its own type */
    | ObjectType

  /** A value read from a bean property. */
  datatype Value =
    | Null
    | Str(s: string)
    | Bool(b: bool)
    | Byte(i8: Int8)
    | Short(i16: Int16)
    | Int(i32: Int32)
    | Long(i64: Int64)
    | Float(floatBits: Int32)
    | Double(doubleBits: Int64)
    | Date(millis: Int64)
    | List(elems: seq<Value>)
    | Other(ident: int, hash: Int32)

  /** Whether `Class.getMethod("compareTo", t)` finds a method on the declared type itself.
      A primitive type has no methods, and `List` and other classes have no `compareTo(T)`. */
  predicate HasCompareTo(t: JavaType)
  {
    t.StringType? || t.BoxedType? || t.DateType?
  }

  predicate IsPrimitiveOf(p: Primitive, v: Value)
  {
    match p
    case BooleanP => v.Bool?
    case ByteP => v.Byte?
    case ShortP => v.Short?
    case IntP => v.Int?
    case LongP => v.Long?
    case FloatP => v.Float?
    case DoubleP => v.Double?
  }

  /** The values a getter of declared type `t` can return. */
  predicate Conforms(t: JavaType, v: Value)
  {
    match t
    case StringType => v.Null? || v.Str?
    case BoxedType(p) => v.Null? || IsPrimitiveOf(p, v)
    case PrimitiveType(p) => IsPrimitiveOf(p, v)
    case DateType => v.Null? || v.Date?
    case ListType => v.Null? || v.List?
    case ObjectType => true
  }

  /** `v.hashCode()` of the value's own class (and 0 for null, as `List.hashCode` counts it). */
  function JavaHashCode(v: Value): Int32
    decreases v, 1, 0
  {
    match v
    case Null => 0
    case Str(s) => StringHash(s)
    case Bool(b) => if b then 1231 else 1237
    case Byte(x) => x
    case Short(x) => x
    case Int(x) => x
    case Long(x) => LongHash(x)
    case Float(bits) => bits
    case Double(bits) => LongHash(bits)
    case Date(ms) => LongHash(ms)
    case List(es) => ListHash(v, |es|)
    case Other(_, h) => h
  }

  /** `List.hashCode()` over the first `n` elements: `h = 31 * h + e.hashCode()` from 1. */
  function ListHash(v: Value, n: nat): Int32
    requires v.List? && n <= |v.elems|
    decreases v, 0, n
  {
    if n == 0 then 1 else Wrap32(31 * ListHash(v, n - 1) + JavaHashCode(v.elems[n - 1]))
  }

  function Sign(x: int): (r: int)
    ensures r == -1 || r == 0 || r == 1
    ensures (r < 0 <==> x < 0) && (r == 0 <==> x == 0)
  {
    if x < 0 then -1 else if x > 0 then 1 else 0
  }

  /** The position of a float in `Float.compare`'s total order, from its canonical bits:
      non-negative patterns ascend with their value, negative ones descend, so -0.0 sits
      just below +0.0 and the canonical NaN above positive infinity. */
  function FloatOrderKey(bits: Int32): int
  {
    if bits >= 0 then bits else -1 - (bits + 0x8000_0000)
  }

  function DoubleOrderKey(bits: Int64): int
  {
    if bits >= 0 then bits else -1 - (bits + 0x8000_0000_0000_0000)
  }

  /** `x.compareTo(y)` invoked reflectively through the declared type's `compareTo`.
      `None` when the two values are not of one comparable kind: `Method.invoke` then throws. */
  function NativeCompare(x: Value, y: Value): Option<int>
  {
    match (x, y)
    case (Str(a), Str(b)) => Some(StringCompare(a, b))
    case (Bool(a), Bool(b)) => Some(if a == b then 0 else if a then 1 else -1)
    case (Byte(a), Byte(b)) => Some(a - b)
    case (Short(a), Short(b)) => Some(a - b)
    case (Int(a), Int(b)) => Some(Sign(a - b))
    case (Long(a), Long(b)) => Some(Sign(a - b))
    case (Float(a), Float(b)) => Some(Sign(FloatOrderKey(a) - FloatOrderKey(b)))
    case (Double(a), Double(b)) => Some(Sign(DoubleOrderKey(a) - DoubleOrderKey(b)))
    case (Date(a), Date(b)) => Some(Sign(a - b))
    case _ => None
  }

  /** The declared types whose values have a natural order: all but `List` and other classes. */
  predicate Ordered(t: JavaType)
  {
    !t.ListType? && !t.ObjectType?
  }

  /** Two non-null values that a property of an ordered type can hold can be compared; in
      particular, whenever the declared type has a `compareTo`. */
  lemma NativeCompareDefined(t: JavaType, x: Value, y: Value)
    requires Ordered(t) && Conforms(t, x) && Conforms(t, y) && x != Null && y != Null
    ensures NativeCompare(x, y).Some?
  {
  }

  /** `compareTo` is zero exactly on equal values ... */
  lemma NativeCompareZero(x: Value, y: Value)
    requires NativeCompare(x, y).Some?
    ensures NativeCompare(x, y).value == 0 <==> x == y
  {
    match (x, y)
    case (Str(a), Str(b)) => StringCompareMeaning(a, b);
    case _ =>
  }

  /** ... and swapping the operands negates it exactly. */
  lemma NativeCompareAntisymmetric(x: Value, y: Value)
    ensures NativeCompare(y, x) == (match NativeCompare(x, y) case Some(r) => Some(-r) case None => None)
  {
    match (x, y)
    case (Str(a), Str(b)) => StringCompareAntisymmetric(a, b);
    case _ =>
  }

  /** The calendar reading of an instant in the process's default time zone. */
  datatype DateTime = DateTime(year: nat, month: nat, day: nat, hour: nat, minute: nat, second: nat)

  /** What the model takes from the running platform instead of computing it: the decimal
      text of floating-point values, `Date.toString()`, the calendar reading of an instant,
      and `Object.toString()` of objects outside the model. */
  datatype Platform = Platform(
    floatText: Int32 -> string,
    doubleText: Int64 -> string,
    dateText: Int64 -> string,
    localTime: Int64 -> DateTime,
    objectText: int -> string)

  /** `String.valueOf(v)`. */
  function JavaText(env: Platform, v: Value): string
    decreases v, 1, 0
  {
    match v
    case Null => "null"
    case Str(s) => s
    case Bool(b) => if b then "true" else "false"
    case Byte(x) => IntToString(x)
    case Short(x) => IntToString(x)
    case Int(x) => IntToString(x)
    case Long(x) => IntToString(x)
    case Float(bits) => env.floatText(bits)
    case Double(bits) => env.doubleText(bits)
    case Date(ms) => env.dateText(ms)
    case List(es) => "[" + ListText(env, v, |es|) + "]"
    case Other(id, _) => env.objectText(id)
  }

  /** The first `n` elements of a list, each as `String.valueOf`, separated by ", ". */
  function ListText(env: Platform, v: Value, n: nat): string
    requires v.List? && n <= |v.elems|
    decreases v, 0, n
  {
    if n == 0 then ""
    else if n == 1 then JavaText(env, v.elems[0])
    else ListText(env, v, n - 1) + ", " + JavaText(env, v.elems[n - 1])
  }

  /** A date under the pattern `yyyy-MM-dd'T'HH:mm:ss`. */
  function FormatDate(dt: DateTime): string
  {
    ZeroPad(dt.year, 4) + "-" + ZeroPad(dt.month, 2) + "-" + ZeroPad(dt.day, 2) + "T"
    + ZeroPad(dt.hour, 2) + ":" + ZeroPad(dt.minute, 2) + ":" + ZeroPad(dt.second, 2)
  }
}

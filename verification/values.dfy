/**
 * Value types shared by every channel interface: 32-bit unsigned integers,
 * the variant values carried by message parts and property maps, D-Bus
 * errors, and the decimal rendering of numbers used for channel names.
 */
module Values {

  /** The C++ `uint` of the source: 32 bits, unsigned. */
  type UInt32 = x: nat | x < 0x1_0000_0000

  /** One byte of a `QByteArray`. */
  type Byte = x: nat | x < 0x100

  /** Post-increment of a `uint` counter: wraps from 2^32 - 1 to 0. */
  function Increment32(x: UInt32): (r: UInt32)
    ensures x < 0xFFFF_FFFF ==> r == x + 1
    ensures x == 0xFFFF_FFFF ==> r == 0
  {
    (x + 1) % 0x1_0000_0000
  }

  /** Conversion of a non-negative 64-bit quantity to `uint` (keeps the low 32 bits). */
  function Truncate32(x: nat): (r: UInt32)
    ensures x < 0x1_0000_0000 ==> r == x
  {
    x % 0x1_0000_0000
  }

  /** A variant value as carried on the bus (only the kinds this model needs). */
  datatype Value =
    | UInt(n: UInt32)
    | Str(s: string)
    | Bool(b: bool)
    | StrList(strings: seq<string>)
    | UIntList(numbers: seq<UInt32>)

  /** A message part (attribute name to value); a message is a list of parts, the first being the header. */
  type MessagePart = map<string, Value>
  type MessagePartList = seq<MessagePart>

  /** A property map, keyed by fully qualified property name. */
  type VariantMap = map<string, Value>

  /** `QVariant::toUInt` restricted to the value kinds of this model. */
  function ToUInt(v: Value): UInt32
  {
    match v
    case UInt(n) => n
    case Bool(b) => if b then 1 else 0
    case _ => 0
  }

  /** `QVariant::toString` restricted to the value kinds of this model. */
  function ToText(v: Value): string
  {
    match v
    case Str(s) => s
    case UInt(n) => Decimal(n)
    case Bool(b) => if b then "true" else "false"
    case _ => ""
  }

  /** A D-Bus error: a name and a human-readable message. */
  datatype DBusError = DBusError(name: string, message: string)

  const NotImplementedName := "org.freedesktop.Telepathy.Error.NotImplemented"
  const InvalidArgumentName := "org.freedesktop.Telepathy.Error.InvalidArgument"

  /** The error every unset optional callback produces. */
  const NotImplemented := DBusError(NotImplementedName, "Not implemented")

  datatype Option<+T> = None | Some(value: T)

  datatype Result<+T> = Ok(value: T) | Err(error: DBusError)

  /** No element occurs twice. */
  predicate NoDup<T(==)>(s: seq<T>)
  {
    forall i, j :: 0 <= i < j < |s| ==> s[i] != s[j]
  }

  /** The elements of a sequence. */
  function Elements<T>(s: seq<T>): set<T>
  {
    set x | x in s
  }

  predicate IsDigit(c: char)
  {
    '0' <= c <= '9'
  }

  predicate AllDigits(s: string)
  {
    forall i :: 0 <= i < |s| ==> IsDigit(s[i])
  }

  function DigitChar(d: nat): (c: char)
    requires d < 10
    ensures IsDigit(c)
  {
    (('0' as int) + d) as char
  }

  function DigitValue(c: char): nat
    requires IsDigit(c)
  {
    (c as int) - ('0' as int)
  }

  /** `QString::number` for a non-negative integer: its decimal digits, most significant first. */
  function Decimal(n: nat): (s: string)
    ensures |s| > 0 && AllDigits(s)
    decreases n
  {
    if n < 10 then [DigitChar(n)] else Decimal(n / 10) + [DigitChar(n % 10)]
  }

  /** Reads a string of decimal digits back as a number. */
  function ParseDecimal(s: string): nat
    requires AllDigits(s)
  {
    if |s| == 0 then 0 else ParseDecimal(s[..|s| - 1]) * 10 + DigitValue(s[|s| - 1])
  }

  /** Decimal rendering round-trips through parsing. */
  lemma {:induction false} DecimalRoundTrip(n: nat)
    ensures ParseDecimal(Decimal(n)) == n
    decreases n
  {
    var s := Decimal(n);
    if n >= 10 {
      DecimalRoundTrip(n / 10);
      assert s[..|s| - 1] == Decimal(n / 10);
    }
  }

  /** Distinct numbers have distinct decimal renderings. */
  lemma DecimalInjective(a: nat, b: nat)
    requires Decimal(a) == Decimal(b)
    ensures a == b
  {
    DecimalRoundTrip(a);
    DecimalRoundTrip(b);
  }
}

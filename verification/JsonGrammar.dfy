/**
  The JSON grammar of RFC 8259 (sections 2 to 7) as concrete syntax trees.

  A tree is a derivation: `Render` is the text it derives, `Value` the value that text denotes. The grammar
  is that of the RFC with three restrictions of the strict parser: bytes of a string are UTF-8
  (section 8.1), \u escapes denote scalar values, so surrogates come in pairs (section 7), and a number that is not
  a 64-bit integer is within the range of a double (section 6).
 */
module JsonGrammar {
  import opened Wrappers
  import opened Order
  import opened Utf8
  import opened JsonValue

  predicate IsDigit(c: char) { '0' <= c <= '9' }
  predicate AllDigits(s: string) { forall i | 0 <= i < |s| :: IsDigit(s[i]) }
  predicate IsWs(c: char) { c == ' ' || c == '\t' || c == '\n' || c == '\r' }
  predicate AllWs(s: string) { forall i | 0 <= i < |s| :: IsWs(s[i]) }

  // Section 7: strings

  datatype Piece = Raw(bytes: string) | Esc(c: char) | Uni(h: string) | Pair(hi: string, lo: string)

  function HexDigitVal(c: char): int {
    if '0' <= c <= '9' then c as int - 48
    else if 'a' <= c <= 'f' then c as int - 87
    else if 'A' <= c <= 'F' then c as int - 55
    else -1
  }

  predicate AllHex(h: string) { forall i | 0 <= i < |h| :: HexDigitVal(h[i]) >= 0 }

  function HexVal(h: string): int
    requires |h| == 4
  {
    HexDigitVal(h[0]) * 0x1000 + HexDigitVal(h[1]) * 0x100 + HexDigitVal(h[2]) * 0x10 + HexDigitVal(h[3])
  }

  predicate IsHex4(h: string) { |h| == 4 && AllHex(h) }

  predicate SimpleEscape(c: char) {
    c == '"' || c == '\\' || c == '/' || c == 'b' || c == 'f' || c == 'n' || c == 'r' || c == 't'
  }

  function Unescape(c: char): char
    requires SimpleEscape(c)
  {
    match c
    case 'b' => 8 as char
    case 'f' => 12 as char
    case 'n' => 10 as char
    case 'r' => 13 as char
    case 't' => 9 as char
    case _ => c
  }

  predicate HighSurrogate(v: int) { 0xD800 <= v <= 0xDBFF }
  predicate LowSurrogate(v: int) { 0xDC00 <= v <= 0xDFFF }

  function Combine(hi: int, lo: int): (cp: int)
    requires HighSurrogate(hi) && LowSurrogate(lo)
    ensures 0x10000 <= cp <= 0x10FFFF
  {
    0x10000 + (hi - 0xD800) * 0x400 + (lo - 0xDC00)
  }

  predicate PieceOk(p: Piece) {
    match p
    case Raw(b) => b != "" && CharLen(b) == |b| && 0x20 <= b[0] as int && b[0] != '"' && b[0] != '\\'
    case Esc(c) => SimpleEscape(c)
    case Uni(h) => IsHex4(h) && Scalar(HexVal(h))
    case Pair(hi, lo) => IsHex4(hi) && IsHex4(lo) && HighSurrogate(HexVal(hi)) && LowSurrogate(HexVal(lo))
  }

  function RenderPiece(p: Piece): string {
    match p
    case Raw(b) => b
    case Esc(c) => ['\\', c]
    case Uni(h) => "\\u" + h
    case Pair(hi, lo) => "\\u" + hi + "\\u" + lo
  }

  function PieceValue(p: Piece): string {
    if !PieceOk(p) then "" else
    match p
    case Raw(b) => b
    case Esc(c) => [Unescape(c)]
    case Uni(h) => EncodeUtf8(HexVal(h))
    case Pair(hi, lo) => EncodeUtf8(Combine(HexVal(hi), HexVal(lo)))
  }

  predicate PiecesOk(ps: seq<Piece>) { forall i | 0 <= i < |ps| :: PieceOk(ps[i]) }

  function RenderPieces(ps: seq<Piece>): string {
    if ps == [] then "" else RenderPiece(ps[0]) + RenderPieces(ps[1..])
  }

  function PiecesValue(ps: seq<Piece>): string {
    if ps == [] then "" else PieceValue(ps[0]) + PiecesValue(ps[1..])
  }

  function RenderString(ps: seq<Piece>): string { "\"" + RenderPieces(ps) + "\"" }

  // Section 6: numbers

  predicate IntPart(s: string) { s != "" && AllDigits(s) && (s[0] == '0' ==> s == "0") }
  predicate FracPart(s: string) { s == "" || (|s| >= 2 && s[0] == '.' && AllDigits(s[1..])) }
  predicate ExpPart(s: string) {
    s == "" || (|s| >= 2 && (s[0] == 'e' || s[0] == 'E') && AllDigits(s[1..]))
    || (|s| >= 3 && (s[0] == 'e' || s[0] == 'E') && (s[1] == '+' || s[1] == '-') && AllDigits(s[2..]))
  }

  function DecVal(s: string): int {
    if s == "" then 0 else DecVal(s[..|s| - 1]) * 10 + (s[|s| - 1] as int - 48)
  }

  function Signed(neg: bool, ip: string): int { if neg then -DecVal(ip) else DecVal(ip) }

  function Lexeme(neg: bool, ip: string, frac: string, exp: string): string { (if neg then "-" else "") + ip + frac + exp }

  predicate Int64Lexeme(neg: bool, ip: string, frac: string, exp: string) {
    frac == "" && exp == "" && INT64_MIN <= Signed(neg, ip) <= INT64_MAX
  }

  /** Every number that is not a 64-bit integer must be within the range of a double (section 6: limits on the range). */
  predicate NumFits(neg: bool, ip: string, frac: string, exp: string) {
    Int64Lexeme(neg, ip, frac, exp) || READ_DOUBLE(Lexeme(neg, ip, frac, exp)).Some?
  }

  /** An integer lexeme that fits 64 bits is an integer; every other number is a double. */
  function NumValue(neg: bool, ip: string, frac: string, exp: string): Json
    requires NumFits(neg, ip, frac, exp)
  {
    if Int64Lexeme(neg, ip, frac, exp) then Int(Signed(neg, ip)) else Double(READ_DOUBLE(Lexeme(neg, ip, frac, exp)).value)
  }

  // Sections 2 to 5: values, objects, arrays

  datatype Tree =
    | TLit(v: Json)
    | TNum(neg: bool, ip: string, frac: string, exp: string)
    | TStr(ps: seq<Piece>)
    | TArr(ws: string, items: seq<Item>)
    | TObj(ws: string, members: seq<Member>)
  datatype Item = Item(pre: string, t: Tree, post: string)
  datatype Member = Member(pre: string, key: seq<Piece>, beforeColon: string, afterColon: string, t: Tree, post: string)

  /** `t` is a derivation with at most `n` levels of containers below it. */
  ghost predicate TreeOk(t: Tree, n: int)
    decreases t
  {
    && n >= 0
    && match t
       case TLit(v) => v.Null? || v.Bool?
       case TNum(neg, ip, frac, exp) => IntPart(ip) && FracPart(frac) && ExpPart(exp) && NumFits(neg, ip, frac, exp)
       case TStr(ps) => PiecesOk(ps)
       case TArr(ws, items) => AllWs(ws) && (items != [] ==> ws == "") && forall i | 0 <= i < |items| :: ItemOk(items[i], n - 1)
       case TObj(ws, ms) => AllWs(ws) && (ms != [] ==> ws == "") && forall i | 0 <= i < |ms| :: MemberOk(ms[i], n - 1)
  }

  ghost predicate ItemOk(m: Item, n: int)
    decreases m
  {
    AllWs(m.pre) && AllWs(m.post) && TreeOk(m.t, n)
  }

  ghost predicate MemberOk(m: Member, n: int)
    decreases m
  {
    && AllWs(m.pre) && AllWs(m.beforeColon) && AllWs(m.afterColon) && AllWs(m.post)
    && PiecesOk(m.key) && TreeOk(m.t, n)
  }

  function Render(t: Tree): string {
    match t
    case TLit(v) => if v == Bool(true) then "true" else if v == Bool(false) then "false" else "null"
    case TNum(neg, ip, frac, exp) => Lexeme(neg, ip, frac, exp)
    case TStr(ps) => RenderString(ps)
    case TArr(ws, items) => "[" + ws + RenderItems(items) + "]"
    case TObj(ws, ms) => "{" + ws + RenderMembers(ms) + "}"
  }

  function RenderItem(m: Item): string { m.pre + Render(m.t) + m.post }

  function RenderItems(items: seq<Item>): string {
    if items == [] then ""
    else RenderItem(items[0]) + (if |items| == 1 then "" else "," + RenderItems(items[1..]))
  }

  function RenderMember(m: Member): string {
    m.pre + RenderString(m.key) + m.beforeColon + ":" + m.afterColon + Render(m.t) + m.post
  }

  function RenderMembers(ms: seq<Member>): string {
    if ms == [] then ""
    else RenderMember(ms[0]) + (if |ms| == 1 then "" else "," + RenderMembers(ms[1..]))
  }

  function Value(t: Tree): Json {
    match t
    case TLit(v) => v
    case TNum(neg, ip, frac, exp) => if NumFits(neg, ip, frac, exp) then NumValue(neg, ip, frac, exp) else Null
    case TStr(ps) => Str(PiecesValue(ps))
    case TArr(ws, items) => Arr(ItemsValue(items))
    case TObj(ws, ms) => Obj(MembersValue(ms, map[]))
  }

  function ItemsValue(items: seq<Item>): seq<Json> {
    if items == [] then [] else [Value(items[0].t)] + ItemsValue(items[1..])
  }

  /** Of members with the same key the last one counts. */
  function MembersValue(ms: seq<Member>, acc: map<string, Json>): map<string, Json> {
    if ms == [] then acc
    else MembersValue(ms[1..], acc[PiecesValue(ms[0].key) := Value(ms[0].t)])
  }
}

/** Canonical JSON on the two sides of the signing channel.

    The server signs json.dumps(payload, sort_keys=True, ensure_ascii=False); the agent decodes the
    payload it received and prints it again with its own recursive printer. Both printers are
    given here by the syntax tree they print, and decoding by the meaning of a tree. What the texts
    mean is proved in `CanonicalMeaning`, where the two printers agree in `PrinterAgreement`. */
module CanonicalJson {
  import opened Options
  import opened JsonSyntax
  import opened KeyOrder
  import opened Numerals
  import opened Decimals
  import opened Floats

  /** What the libraries and the processor decide: the characters above ASCII that strconv.IsPrint
      accepts; whether int64(x) saturates for a float above the range, as on arm64, or is the smallest
      integer, as on amd64; which float a number is rounded to; and the digits of a float, which
      strconv with precision -1 and float.__repr__ both choose. */
  datatype Lib = Lib(wide: char -> bool, saturates: bool, nearest: real -> Option<Float>, shortest: Float -> Decimal)

  /** Rounding is to a nearest float, and the digits of a float are rounded to it. */
  ghost predicate Faithful(lib: Lib) {
    Rounds(lib.nearest) && forall x: Float :: lib.nearest(Value(lib.shortest(x))) == Some(x)
  }

  /** What encoding/json decodes a value to. */
  datatype Json =
    | Null
    | Bool(b: bool)
    | Num(x: Float)
    | Str(s: string)
    | Arr(items: seq<Json>)
    | Obj(fields: map<string, Json>)

  /** A Python payload. A dict keeps the insertion order of its keys; integers are unbounded. */
  datatype Py =
    | PNone
    | PBool(b: bool)
    | PInt(n: int)
    | PFloat(x: Float)
    | PStr(s: string)
    | PList(items: seq<Py>)
    | PDict(order: seq<string>, fields: map<string, Py>)

  ghost predicate DictsOk(q: Py) {
    match q
    case PList(items) => forall i | 0 <= i < |items| :: DictsOk(items[i])
    case PDict(order, fields) =>
      Enumerates(order, fields.Keys) && forall k | k in fields :: DictsOk(fields[k])
    case _ => true
  }

  // ----- Meaning of a syntax tree (encoding/json) -----

  function HexValue(ds: string): nat
    requires AllHex(ds)
  {
    if ds == "" then 0 else 16 * HexValue(ds[..|ds| - 1]) + DigitValue(ds[|ds| - 1])
  }

  const REPLACEMENT: char := '\U{FFFD}'

  predicate IsScalar(code: nat) { code < 0xD800 || 0xE000 <= code < 0x11_0000 }

  function Scalar(code: nat): char {
    if IsScalar(code) then code as char else REPLACEMENT
  }

  function ShortValue(m: char): char {
    match m
    case 'a' => 7 as char
    case 'b' => 8 as char
    case 't' => 9 as char
    case 'n' => 10 as char
    case 'v' => 11 as char
    case 'f' => 12 as char
    case 'r' => 13 as char
    case _ => m
  }

  predicate IsLowSurrogate(p: Piece)
    requires PieceOk(p, true)
  {
    p.Hex? && p.mark == 'u' && 0xDC00 <= HexValue(p.digits) < 0xE000
  }

  function PiecesValue(ps: seq<Piece>): string
    requires PiecesOk(ps, true)
  {
    if ps == [] then "" else
    match ps[0]
    case Raw(c) => [c] + PiecesValue(ps[1..])
    case Short(m) => [ShortValue(m)] + PiecesValue(ps[1..])
    case Hex(m, ds) =>
      var code := HexValue(ds);
      if m == 'u' && 0xD800 <= code < 0xDC00 && |ps| > 1 && IsLowSurrogate(ps[1]) then
        [Scalar(0x1_0000 + (code - 0xD800) * 0x400 + (HexValue(ps[1].digits) - 0xDC00))] + PiecesValue(ps[2..])
      else
        [Scalar(code)] + PiecesValue(ps[1..])
  }

  // Where the number is out of range the decoder fails; see Readable.
  function Rounded(q: real, lib: Lib): Float {
    if lib.nearest(q).Some? then lib.nearest(q).value else Zero()
  }

  function ValueOf(d: Doc, lib: Lib): Json
    requires DocOk(d, true)
  {
    match d
    case DNull => Null
    case DBool(b) => Bool(b)
    case DNum(literal) => Num(Rounded(LiteralValue(literal), lib))
    case DStr(ps) => Str(PiecesValue(ps))
    case DArr(_, cells) => Arr(CellsValue(cells, lib))
    case DObj(_, members) => Obj(MembersValue(members, lib))
  }

  function CellsValue(cs: Cells, lib: Lib): seq<Json>
    requires CellsOk(cs, true)
  {
    match cs
    case NoCells => []
    case Cell(_, d, _, more) => [ValueOf(d, lib)] + CellsValue(more, lib)
  }

  // Of two members with the same key the later one counts.
  function MembersValue(ms: Members, lib: Lib): map<string, Json>
    requires MembersOk(ms, true)
  {
    match ms
    case NoMembers => map[]
    case Member(_, key, _, _, d, _, more) => map[PiecesValue(key) := ValueOf(d, lib)] + MembersValue(more, lib)
  }

  // Every number is in range.
  predicate Readable(d: Doc, lib: Lib)
    requires DocOk(d, true)
  {
    match d
    case DNum(literal) => lib.nearest(LiteralValue(literal)).Some?
    case DArr(_, cells) => CellsReadable(cells, lib)
    case DObj(_, members) => MembersReadable(members, lib)
    case _ => true
  }

  predicate CellsReadable(cs: Cells, lib: Lib)
    requires CellsOk(cs, true)
  {
    cs.Cell? ==> Readable(cs.doc, lib) && CellsReadable(cs.more, lib)
  }

  predicate MembersReadable(ms: Members, lib: Lib)
    requires MembersOk(ms, true)
  {
    ms.Member? ==> Readable(ms.doc, lib) && MembersReadable(ms.more, lib)
  }

  // json.Unmarshal into an interface{}; None is an error.
  function Unmarshal(t: string, lib: Lib): Option<Json> {
    match ParseDoc(t[WsLen(t)..], false)
    case Bad => None
    case Got(d, rest) =>
      QuotedWeaker(d);
      if WsLen(rest) == |rest| && Readable(d, lib) then Some(ValueOf(d, lib)) else None
  }

  // ----- Hexadecimal digits -----

  function HexDigits(n: nat, width: nat): string {
    if width == 0 then "" else HexDigits(n / 16, width - 1) + [DigitChar(n % 16)]
  }

  function Pow16(w: nat): nat { if w == 0 then 1 else 16 * Pow16(w - 1) }

  // ----- The agent's printer: strconv.AppendQuote and appendCanonical -----

  // strconv.IsPrint
  predicate IsPrint(c: char, lib: Lib) {
    if c as int < 0x80 then ' ' <= c <= '~' else lib.wide(c)
  }

  function GoPiece(c: char, lib: Lib): Piece {
    if c == '"' || c == '\\' then Short(c)
    else if IsPrint(c, lib) then Raw(c)
    else
      match c as int
      case 7 => Short('a')
      case 8 => Short('b')
      case 9 => Short('t')
      case 10 => Short('n')
      case 11 => Short('v')
      case 12 => Short('f')
      case 13 => Short('r')
      case code =>
        if code < 0x20 || code == 0x7f then Hex('x', HexDigits(code, 2))
        else if code < 0x1_0000 then Hex('u', HexDigits(code, 4))
        else Hex('U', HexDigits(code, 8))
  }

  function GoQuote(s: string, lib: Lib): (ps: seq<Piece>)
    ensures |ps| == |s|
  {
    seq(|s|, i requires 0 <= i < |s| => GoPiece(s[i], lib))
  }

  // The conversion of the source: towards zero.
  function Int64Of(x: real, lib: Lib): int {
    var k := if x < 0.0 then -((-x).Floor) else x.Floor;
    if MIN_INT64 <= k <= MAX_INT64 then k
    else if lib.saturates && x > 0.0 then MAX_INT64 else MIN_INT64
  }

  // strconv.AppendFloat(_, x, 'g', -1, 64)
  function FormatG(x: Float, lib: Lib): Parts { Layout(lib.shortest(x), 6) }

  function GoNumber(x: Float, lib: Lib): Parts {
    var k := Int64Of(x, lib);
    if lib.nearest(k as real) == Some(x) then IntParts(k) else FormatG(x, lib)
  }

  ghost function CanonicalDoc(v: Json, lib: Lib): Doc
    decreases v, 1, 0
  {
    match v
    case Null => DNull
    case Bool(b) => DBool(b)
    case Num(x) => DNum(Text(GoNumber(x, lib)))
    case Str(s) => DStr(GoQuote(s, lib))
    case Arr(items) => DArr("", CanonicalCells(items, "", lib))
    case Obj(fields) => DObj("", CanonicalMembers(v, SortedKeys(fields.Keys), "", lib))
  }

  // `pre` stands before the first element, a space before every other one.
  ghost function CanonicalCells(items: seq<Json>, pre: string, lib: Lib): Cells
    decreases items, 0, 0
  {
    if items == [] then NoCells
    else Cell(pre, CanonicalDoc(items[0], lib), "", CanonicalCells(items[1..], " ", lib))
  }

  ghost function CanonicalMembers(v: Json, keys: seq<string>, pre: string, lib: Lib): Members
    requires v.Obj? && Elements(keys) <= v.fields.Keys
    decreases v, 0, |keys|
  {
    if keys == [] then NoMembers
    else
      assert keys[0] in Elements(keys);
      assert Elements(keys[1..]) <= Elements(keys);
      Member(pre, GoQuote(keys[0], lib), "", " ", CanonicalDoc(v.fields[keys[0]], lib), "",
             CanonicalMembers(v, keys[1..], " ", lib))
  }

  ghost function CanonicalText(v: Json, lib: Lib): string { Render(CanonicalDoc(v, lib)) }

  // ----- The server's printer: json.dumps(..., ensure_ascii=False) -----

  function PyPiece(c: char): Piece {
    if c == '"' || c == '\\' then Short(c)
    else
      match c as int
      case 8 => Short('b')
      case 9 => Short('t')
      case 10 => Short('n')
      case 12 => Short('f')
      case 13 => Short('r')
      case code => if code < 0x20 then Hex('u', HexDigits(code, 4)) else Raw(c)
  }

  function PyQuote(s: string): (ps: seq<Piece>)
    ensures |ps| == |s|
  {
    seq(|s|, i requires 0 <= i < |s| => PyPiece(s[i]))
  }

  // float.__repr__
  function PyNumber(x: Float, lib: Lib): Parts {
    var p := Layout(lib.shortest(x), 16);
    if p.exponent == "" && p.fraction == "" then p.(fraction := "0") else p
  }

  // sort_keys, and the whitespace after "," and after ":".
  datatype Style = Style(sorted: bool, comma: string, colon: string)

  const SIGNED: Style := Style(true, " ", " ")
  // What the web socket sends: json.dumps(..., separators=(",", ":")).
  const COMPACT: Style := Style(false, "", "")

  function PyDoc(q: Py, style: Style, lib: Lib): Doc
    decreases q, 1, 0
  {
    match q
    case PNone => DNull
    case PBool(b) => DBool(b)
    case PInt(n) => DNum(ShowInt(n))
    case PFloat(x) => DNum(Text(PyNumber(x, lib)))
    case PStr(s) => DStr(PyQuote(s))
    case PList(items) => DArr("", PyCells(items, "", style, lib))
    case PDict(order, fields) =>
      DObj("", PyMembers(q, if style.sorted then Sort(order) else order, "", style, lib))
  }

  function PyCells(items: seq<Py>, pre: string, style: Style, lib: Lib): Cells
    decreases items, 0, 0
  {
    if items == [] then NoCells
    else Cell(pre, PyDoc(items[0], style, lib), "", PyCells(items[1..], style.comma, style, lib))
  }

  function PyMembers(q: Py, keys: seq<string>, pre: string, style: Style, lib: Lib): Members
    requires q.PDict?
    decreases q, 0, |keys|
  {
    if keys == [] then NoMembers
    else
      var d := if keys[0] in q.fields then PyDoc(q.fields[keys[0]], style, lib) else DNull;
      Member(pre, PyQuote(keys[0]), "", style.colon, d, "", PyMembers(q, keys[1..], style.comma, style, lib))
  }

  function SignedText(q: Py, lib: Lib): string { Render(PyDoc(q, SIGNED, lib)) }

  /** The value the agent sees when the server sends q. */
  function Decoded(q: Py, lib: Lib): Json {
    match q
    case PNone => Null
    case PBool(b) => Bool(b)
    case PInt(n) => Num(Rounded(n as real, lib))
    case PFloat(x) => Num(x)
    case PStr(s) => Str(s)
    case PList(items) => Arr(seq(|items|, i requires 0 <= i < |items| => Decoded(items[i], lib)))
    case PDict(_, fields) => Obj(map k | k in fields :: Decoded(fields[k], lib))
  }
}

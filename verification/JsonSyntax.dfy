/** JSON texts as concrete syntax trees (RFC 8259, sections 2 to 7).

    A tree keeps everything the text shows: whitespace, the order of the members of an object,
    duplicate members, and the way each character of a string is escaped. `Render` prints a tree,
    `ParseDoc` reads one, and `ParseShow` says that reading undoes printing. The meaning of a
    tree is left to module CanonicalJson, so two texts are compared by comparing trees.

    The `quoted` flag admits, besides the escapes of RFC 8259, the ones Go's strconv.AppendQuote
    writes and a JSON decoder rejects: \a, \v, \xHH and \UHHHHHHHH. */
module JsonSyntax {

  // ----- Trees -----

  datatype Piece =
    | Raw(c: char)                      // the character itself
    | Short(mark: char)                 // a two-character escape such as \n
    | Hex(mark: char, digits: string)   // \uHHHH, and \xHH or \UHHHHHHHH when quoted

  datatype Doc =
    | DNull
    | DBool(b: bool)
    | DNum(literal: string)
    | DStr(pieces: seq<Piece>)
    | DArr(gap: string, cells: Cells)       // gap: whitespace of an empty array
    | DObj(gap: string, members: Members)

  datatype Cells = NoCells | Cell(pre: string, doc: Doc, post: string, more: Cells)

  datatype Members =
    | NoMembers
    | Member(pre: string, key: seq<Piece>, mid: string, gap: string, doc: Doc, post: string, more: Members)

  // ----- Lexical classes -----

  predicate IsWs(c: char) { c == ' ' || c == '\t' || c == '\n' || c == '\r' }

  predicate AllWs(w: string) { forall i | 0 <= i < |w| :: IsWs(w[i]) }

  predicate IsDigit(c: char) { '0' <= c <= '9' }

  predicate IsHex(c: char) { IsDigit(c) || 'a' <= c <= 'f' || 'A' <= c <= 'F' }

  predicate AllHex(s: string) { forall i | 0 <= i < |s| :: IsHex(s[i]) }

  predicate ShortMark(m: char, quoted: bool) {
    || m == '"' || m == '\\' || m == '/' || m == 'b' || m == 'f' || m == 'n' || m == 'r' || m == 't'
    || (quoted && (m == 'a' || m == 'v'))
  }

  function HexWidth(m: char, quoted: bool): nat {
    if m == 'u' then 4 else if quoted && m == 'x' then 2 else if quoted && m == 'U' then 8 else 0
  }

  function DigitValue(c: char): nat
    requires IsHex(c)
  {
    if IsDigit(c) then c as int - '0' as int
    else if 'a' <= c <= 'f' then c as int - 'a' as int + 10
    else c as int - 'A' as int + 10
  }

  function DigitLen(t: string): (n: nat)
    ensures n <= |t|
    ensures forall i | 0 <= i < n :: IsDigit(t[i])
  {
    if t != "" && IsDigit(t[0]) then 1 + DigitLen(t[1..]) else 0
  }

  predicate IsNumChar(c: char) { IsDigit(c) || c == '-' || c == '+' || c == '.' || c == 'e' || c == 'E' }

  predicate ExponentOk(v: string) {
    v == "" ||
    ((v[0] == 'e' || v[0] == 'E') &&
     var w := v[1..];
     var x := if w != "" && (w[0] == '+' || w[0] == '-') then w[1..] else w;
     x != "" && DigitLen(x) == |x|)
  }

  predicate FractionOk(v: string) {
    if v != "" && v[0] == '.' then
      var n := DigitLen(v[1..]);
      n > 0 && ExponentOk(v[1..][n..])
    else ExponentOk(v)
  }

  // No superfluous zero in front.
  predicate UnsignedOk(u: string) {
    var n := DigitLen(u);
    n > 0 && (u[0] == '0' ==> n == 1) && FractionOk(u[n..])
  }

  // A number of RFC 8259, section 6.
  predicate Literal(s: string) {
    && (forall i | 0 <= i < |s| :: IsNumChar(s[i]))
    && s != "" && UnsignedOk(if s[0] == '-' then s[1..] else s)
  }

  predicate IsSeparator(c: char) { c == ',' || c == ']' || c == '}' }

  // What may follow a value inside a JSON text.
  predicate Delimited(rest: string) {
    rest == "" || IsSeparator(rest[0]) || IsWs(rest[0])
  }

  // ----- Well-formed trees -----

  predicate PieceOk(p: Piece, quoted: bool) {
    match p
    case Raw(c) => c != '"' && c != '\\' && ' ' <= c
    case Short(m) => ShortMark(m, quoted)
    case Hex(m, ds) => |ds| == HexWidth(m, quoted) > 0 && AllHex(ds)
  }

  predicate PiecesOk(ps: seq<Piece>, quoted: bool) {
    forall i | 0 <= i < |ps| :: PieceOk(ps[i], quoted)
  }

  predicate DocOk(d: Doc, quoted: bool) {
    match d
    case DNull => true
    case DBool(_) => true
    case DNum(literal) => Literal(literal)
    case DStr(ps) => PiecesOk(ps, quoted)
    case DArr(gap, cells) => AllWs(gap) && (cells.Cell? ==> gap == "") && CellsOk(cells, quoted)
    case DObj(gap, members) => AllWs(gap) && (members.Member? ==> gap == "") && MembersOk(members, quoted)
  }

  predicate CellsOk(cs: Cells, quoted: bool) {
    match cs
    case NoCells => true
    case Cell(pre, d, post, more) => AllWs(pre) && AllWs(post) && DocOk(d, quoted) && CellsOk(more, quoted)
  }

  predicate MembersOk(ms: Members, quoted: bool) {
    match ms
    case NoMembers => true
    case Member(pre, key, mid, gap, d, post, more) =>
      AllWs(pre) && AllWs(mid) && AllWs(gap) && AllWs(post) &&
      PiecesOk(key, quoted) && DocOk(d, quoted) && MembersOk(more, quoted)
  }

  /** RFC 8259 trees are also trees of the larger notation. */
  lemma QuotedWeaker(d: Doc)
    ensures DocOk(d, false) ==> DocOk(d, true)
  {
    match d {
      case DArr(_, cells) => CellsWeaker(cells);
      case DObj(_, members) => MembersWeaker(members);
      case _ =>
    }
  }

  lemma CellsWeaker(cs: Cells)
    ensures CellsOk(cs, false) ==> CellsOk(cs, true)
  {
    if cs.Cell? { QuotedWeaker(cs.doc); CellsWeaker(cs.more); }
  }

  lemma MembersWeaker(ms: Members)
    ensures MembersOk(ms, false) ==> MembersOk(ms, true)
  {
    if ms.Member? { QuotedWeaker(ms.doc); MembersWeaker(ms.more); }
  }

  // ----- Printing -----

  // The texts are built from the right: each function prints its argument before `rest`.

  function RenderPiece(p: Piece): string {
    match p
    case Raw(c) => [c]
    case Short(m) => ['\\', m]
    case Hex(m, ds) => ['\\', m] + ds
  }

  function ShowPieces(ps: seq<Piece>, rest: string): string {
    if ps == [] then "\"" + rest else RenderPiece(ps[0]) + ShowPieces(ps[1..], rest)
  }

  function Show(d: Doc, rest: string): string {
    match d
    case DNull => "null" + rest
    case DBool(b) => (if b then "true" else "false") + rest
    case DNum(literal) => literal + rest
    case DStr(ps) => "\"" + ShowPieces(ps, rest)
    case DArr(gap, cells) => "[" + (gap + ShowCells(cells, "]" + rest))
    case DObj(gap, members) => "{" + (gap + ShowMembers(members, "}" + rest))
  }

  function ShowCells(cs: Cells, rest: string): string {
    match cs
    case NoCells => rest
    case Cell(pre, d, post, more) =>
      pre + Show(d, post + (if more.NoCells? then rest else "," + ShowCells(more, rest)))
  }

  function ShowMembers(ms: Members, rest: string): string {
    match ms
    case NoMembers => rest
    case Member(pre, key, mid, gap, d, post, more) =>
      pre + ("\"" + ShowPieces(key,
        mid + (":" + (gap + Show(d,
          post + (if more.NoMembers? then rest else "," + ShowMembers(more, rest)))))))
  }

  function Render(d: Doc): string { Show(d, "") }

  // ----- Reading -----

  datatype Parsed<+T> = Bad | Got(value: T, rest: string)

  function WsLen(t: string): (n: nat)
    ensures n <= |t| && AllWs(t[..n])
  {
    if t != "" && IsWs(t[0]) then 1 + WsLen(t[1..]) else 0
  }

  function NumLen(t: string): (n: nat)
    ensures n <= |t|
  {
    if t != "" && IsNumChar(t[0]) then 1 + NumLen(t[1..]) else 0
  }

  // The pieces up to the closing quote.
  function ParsePieces(t: string, quoted: bool): (r: Parsed<seq<Piece>>)
    ensures r.Got? ==> |r.rest| < |t| && PiecesOk(r.value, quoted)
  {
    if t == "" then Bad
    else if t[0] == '"' then Got([], t[1..])
    else if t[0] != '\\' then
      if t[0] < ' ' then Bad else Prefixed(Raw(t[0]), ParsePieces(t[1..], quoted))
    else if |t| < 2 then Bad
    else if ShortMark(t[1], quoted) then Prefixed(Short(t[1]), ParsePieces(t[2..], quoted))
    else
      var w := HexWidth(t[1], quoted);
      if 0 < w && 2 + w <= |t| && AllHex(t[2..2 + w])
      then Prefixed(Hex(t[1], t[2..2 + w]), ParsePieces(t[2 + w..], quoted))
      else Bad
  }

  function Prefixed(p: Piece, r: Parsed<seq<Piece>>): Parsed<seq<Piece>> {
    match r
    case Bad => Bad
    case Got(ps, rest) => Got([p] + ps, rest)
  }

  function ParseNumber(t: string): (r: Parsed<Doc>)
    ensures r.Got? ==> |r.rest| < |t| && DocOk(r.value, true) && DocOk(r.value, false)
  {
    var n := NumLen(t);
    if Literal(t[..n]) then Got(DNum(t[..n]), t[n..]) else Bad
  }

  // A value with no whitespace before it.
  function ParseDoc(t: string, quoted: bool): (r: Parsed<Doc>)
    ensures r.Got? ==> |r.rest| < |t| && DocOk(r.value, quoted)
    decreases |t|, 0
  {
    if t == "" then Bad
    else if t[0] == 'n' then if |t| >= 4 && t[..4] == "null" then Got(DNull, t[4..]) else Bad
    else if t[0] == 't' then if |t| >= 4 && t[..4] == "true" then Got(DBool(true), t[4..]) else Bad
    else if t[0] == 'f' then if |t| >= 5 && t[..5] == "false" then Got(DBool(false), t[5..]) else Bad
    else if t[0] == '"' then
      match ParsePieces(t[1..], quoted)
      case Bad => Bad
      case Got(ps, rest) => Got(DStr(ps), rest)
    else if t[0] == '[' then
      var u := t[1..];
      var n := WsLen(u);
      if n < |u| && u[n] == ']' then Got(DArr(u[..n], NoCells), u[n + 1..])
      else
        match ParseCells(u, quoted)
        case Bad => Bad
        case Got(cs, rest) => Got(DArr("", cs), rest)
    else if t[0] == '{' then
      var u := t[1..];
      var n := WsLen(u);
      if n < |u| && u[n] == '}' then Got(DObj(u[..n], NoMembers), u[n + 1..])
      else
        match ParseMembers(u, quoted)
        case Bad => Bad
        case Got(ms, rest) => Got(DObj("", ms), rest)
    else ParseNumber(t)
  }

  // A cell before the cells that have been read after it.
  function WithCells(pre: string, d: Doc, post: string, r: Parsed<Cells>): Parsed<Cells> {
    match r
    case Bad => Bad
    case Got(more, rest) => Got(Cell(pre, d, post, more), rest)
  }

  // One or more values separated by commas, and the closing bracket.
  function ParseCells(t: string, quoted: bool): (r: Parsed<Cells>)
    ensures r.Got? ==> |r.rest| < |t| && r.value.Cell? && CellsOk(r.value, quoted)
    decreases |t|, 1
  {
    var n := WsLen(t);
    match ParseDoc(t[n..], quoted)
    case Bad => Bad
    case Got(d, u) =>
      var m := WsLen(u);
      if m < |u| && u[m] == ']' then Got(Cell(t[..n], d, u[..m], NoCells), u[m + 1..])
      else if m < |u| && u[m] == ',' then WithCells(t[..n], d, u[..m], ParseCells(u[m + 1..], quoted))
      else Bad
  }

  datatype Key = Key(pre: string, pieces: seq<Piece>, mid: string)

  // A key with the whitespace around it, and the colon.
  function ParseKey(t: string, quoted: bool): (r: Parsed<Key>)
    ensures r.Got? ==> |r.rest| < |t|
    ensures r.Got? ==> AllWs(r.value.pre) && PiecesOk(r.value.pieces, quoted) && AllWs(r.value.mid)
  {
    var n := WsLen(t);
    if n == |t| || t[n] != '"' then Bad else
    match ParsePieces(t[n + 1..], quoted)
    case Bad => Bad
    case Got(key, u) => FinishKey(t[..n], key, u)
  }

  function FinishKey(pre: string, key: seq<Piece>, u: string): (r: Parsed<Key>)
    ensures r.Got? ==> |r.rest| < |u| && r.value.pre == pre && r.value.pieces == key && AllWs(r.value.mid)
  {
    var m := WsLen(u);
    if m < |u| && u[m] == ':' then Got(Key(pre, key, u[..m]), u[m + 1..]) else Bad
  }

  // One or more members separated by commas, and the closing brace.
  function ParseMembers(t: string, quoted: bool): (r: Parsed<Members>)
    ensures r.Got? ==> |r.rest| < |t| && r.value.Member? && MembersOk(r.value, quoted)
    decreases |t|, 1
  {
    match ParseKey(t, quoted)
    case Bad => Bad
    case Got(k, v) => ParseMember(k.pre, k.pieces, k.mid, v, quoted)
  }

  // A member before the members that have been read after it.
  function WithMore(m: Members, r: Parsed<Members>): Parsed<Members>
    requires m.Member?
  {
    match r
    case Bad => Bad
    case Got(more, rest) => Got(m.(more := more), rest)
  }

  // The value of a member, and the members after it.
  function ParseMember(pre: string, key: seq<Piece>, mid: string, v: string, quoted: bool): (r: Parsed<Members>)
    requires AllWs(pre) && PiecesOk(key, quoted) && AllWs(mid)
    ensures r.Got? ==> |r.rest| < |v| && r.value.Member? && MembersOk(r.value, quoted)
    decreases |v|, 1
  {
    var k := WsLen(v);
    match ParseDoc(v[k..], quoted)
    case Bad => Bad
    case Got(d, w) => FinishMember(Member(pre, key, mid, v[..k], d, "", NoMembers), w, quoted)
  }

  // What follows the value of a member.
  function FinishMember(m: Members, w: string, quoted: bool): (r: Parsed<Members>)
    requires m.Member? && m.more.NoMembers? && m.post == "" && MembersOk(m, quoted)
    ensures r.Got? ==> |r.rest| < |w| && r.value.Member? && MembersOk(r.value, quoted)
    decreases |w|, 2
  {
    var l := WsLen(w);
    if l < |w| && w[l] == '}' then Got(m.(post := w[..l]), w[l + 1..])
    else if l < |w| && w[l] == ',' then WithMore(m.(post := w[..l]), ParseMembers(w[l + 1..], quoted))
    else Bad
  }

  // ----- Reading undoes printing -----

  lemma {:induction false} WsLenAppend(w: string, rest: string)
    requires AllWs(w) && (rest != "" ==> !IsWs(rest[0]))
    ensures WsLen(w + rest) == |w|
  {
    if w == "" {
      assert w + rest == rest;
    } else {
      assert (w + rest)[1..] == w[1..] + rest;
      WsLenAppend(w[1..], rest);
    }
  }

  lemma {:induction false} NumLenAppend(literal: string, rest: string)
    requires forall i | 0 <= i < |literal| :: IsNumChar(literal[i])
    requires rest != "" ==> !IsNumChar(rest[0])
    ensures NumLen(literal + rest) == |literal|
  {
    if literal == "" {
      assert literal + rest == rest;
    } else {
      assert (literal + rest)[1..] == literal[1..] + rest;
      NumLenAppend(literal[1..], rest);
    }
  }

  lemma PieceStep(p: Piece, u: string, quoted: bool)
    requires PieceOk(p, quoted)
    ensures ParsePieces(RenderPiece(p) + u, quoted) == Prefixed(p, ParsePieces(u, quoted))
  {
    var t := RenderPiece(p) + u;
    assert t[|RenderPiece(p)|..] == u;
    if p.Hex? {
      assert t[2..2 + |p.digits|] == p.digits;
      assert !ShortMark(p.mark, quoted);
    }
  }

  lemma {:induction false} ParseShowPieces(ps: seq<Piece>, rest: string, quoted: bool)
    requires PiecesOk(ps, quoted)
    ensures ParsePieces(ShowPieces(ps, rest), quoted) == Got(ps, rest)
  {
    if ps != [] {
      ParseShowPieces(ps[1..], rest, quoted);
      PieceStep(ps[0], ShowPieces(ps[1..], rest), quoted);
      assert ps == [ps[0]] + ps[1..];
    } else {
      assert ShowPieces(ps, rest)[1..] == rest;
    }
  }

  // What the first character of a printed value can be.
  lemma ShowHead(d: Doc, rest: string, quoted: bool)
    requires DocOk(d, quoted)
    ensures var t := Show(d, rest); t != "" && !IsWs(t[0]) && t[0] != ']' && t[0] != '}'
  {
  }

  lemma ParseLiteral(d: Doc, rest: string, quoted: bool)
    requires d.DNull? || d.DBool?
    ensures ParseDoc(Show(d, rest), quoted) == Got(d, rest)
  {
    var t := Show(d, rest);
    var n := if d == DBool(false) then 5 else 4;
    assert t[n..] == rest;
    assert t[..n] == if d.DNull? then "null" else if d.b then "true" else "false";
  }

  // ParseDoc on a text that starts like a number.
  lemma NumberStep(t: string, quoted: bool)
    requires t != "" && (t[0] == '-' || IsDigit(t[0]))
    ensures ParseDoc(t, quoted) == ParseNumber(t)
  {
  }

  lemma ParseShowNumber(literal: string, rest: string, quoted: bool)
    requires Literal(literal) && Delimited(rest)
    ensures ParseDoc(Show(DNum(literal), rest), quoted) == Got(DNum(literal), rest)
  {
    var t := literal + rest;
    assert t[0] == literal[0];
    NumberStep(t, quoted);
    NumLenAppend(literal, rest);
    assert t[..|literal|] == literal && t[|literal|..] == rest;
  }

  lemma ParseShowString(ps: seq<Piece>, rest: string, quoted: bool)
    requires PiecesOk(ps, quoted)
    ensures ParseDoc(Show(DStr(ps), rest), quoted) == Got(DStr(ps), rest)
  {
    ParseShowPieces(ps, rest, quoted);
    assert Show(DStr(ps), rest)[1..] == ShowPieces(ps, rest);
  }

  lemma {:induction false} ParseShow(d: Doc, rest: string, quoted: bool)
    requires DocOk(d, quoted) && Delimited(rest)
    ensures ParseDoc(Show(d, rest), quoted) == Got(d, rest)
    decreases d, 0
  {
    match d {
      case DNull => ParseLiteral(d, rest, quoted);
      case DBool(_) => ParseLiteral(d, rest, quoted);
      case DNum(literal) => ParseShowNumber(literal, rest, quoted);
      case DStr(ps) => ParseShowString(ps, rest, quoted);
      case DArr(gap, cells) => ParseShownArray(gap, cells, rest, quoted);
      case DObj(gap, members) => ParseShownObject(gap, members, rest, quoted);
    }
  }

  lemma {:induction false} ParseShownArray(gap: string, cells: Cells, rest: string, quoted: bool)
    requires DocOk(DArr(gap, cells), quoted)
    ensures ParseDoc(Show(DArr(gap, cells), rest), quoted) == Got(DArr(gap, cells), rest)
    decreases cells, 2
  {
    var u := gap + ShowCells(cells, "]" + rest);
    ParseShowArray(u, gap, cells, rest, quoted);
    ArrayStep(u, quoted);
  }

  lemma {:induction false} ParseShownObject(gap: string, members: Members, rest: string, quoted: bool)
    requires DocOk(DObj(gap, members), quoted)
    ensures ParseDoc(Show(DObj(gap, members), rest), quoted) == Got(DObj(gap, members), rest)
    decreases members, 2
  {
    var u := gap + ShowMembers(members, "}" + rest);
    ParseShowObject(u, gap, members, rest, quoted);
    ObjectStep(u, quoted);
  }

  // ParseDoc after an opening bracket, and after an opening brace.
  lemma ArrayStep(u: string, quoted: bool)
    requires WsLen(u) < |u|
    ensures u[WsLen(u)] == ']' ==>
      ParseDoc("[" + u, quoted) == Got(DArr(u[..WsLen(u)], NoCells), u[WsLen(u) + 1..])
    ensures u[WsLen(u)] != ']' && ParseCells(u, quoted).Got? ==>
      ParseDoc("[" + u, quoted) == Got(DArr("", ParseCells(u, quoted).value), ParseCells(u, quoted).rest)
  {
    var t := "[" + u;
    assert t[1..] == u;
  }

  lemma ObjectStep(u: string, quoted: bool)
    requires WsLen(u) < |u|
    ensures u[WsLen(u)] == '}' ==>
      ParseDoc("{" + u, quoted) == Got(DObj(u[..WsLen(u)], NoMembers), u[WsLen(u) + 1..])
    ensures u[WsLen(u)] != '}' && ParseMembers(u, quoted).Got? ==>
      ParseDoc("{" + u, quoted) == Got(DObj("", ParseMembers(u, quoted).value), ParseMembers(u, quoted).rest)
  {
    var t := "{" + u;
    assert t[1..] == u;
  }

  // What follows an opening bracket is either an empty gap or a list of cells, and looks like it.
  lemma {:induction false} ParseShowArray(u: string, gap: string, cells: Cells, rest: string, quoted: bool)
    requires AllWs(gap) && (cells.Cell? ==> gap == "") && CellsOk(cells, quoted)
    requires u == gap + ShowCells(cells, "]" + rest)
    ensures WsLen(u) < |u|
    ensures cells.NoCells? ==> WsLen(u) == |gap| && u[|gap|] == ']' && u[..|gap|] == gap && u[|gap| + 1..] == rest
    ensures cells.Cell? ==> u[WsLen(u)] != ']' && ParseCells(u, quoted) == Got(cells, rest)
    decreases cells, 1
  {
    if cells.NoCells? {
      WsLenAppend(gap, "]" + rest);
    } else {
      ParseShowCells(cells, rest, quoted);
      assert u == ShowCells(cells, "]" + rest);
    }
  }

  lemma {:induction false} ParseShowObject(u: string, gap: string, members: Members, rest: string, quoted: bool)
    requires AllWs(gap) && (members.Member? ==> gap == "") && MembersOk(members, quoted)
    requires u == gap + ShowMembers(members, "}" + rest)
    ensures WsLen(u) < |u|
    ensures members.NoMembers? ==> WsLen(u) == |gap| && u[|gap|] == '}' && u[..|gap|] == gap && u[|gap| + 1..] == rest
    ensures members.Member? ==> u[WsLen(u)] != '}' && ParseMembers(u, quoted) == Got(members, rest)
    decreases members, 1
  {
    if members.NoMembers? {
      WsLenAppend(gap, "}" + rest);
    } else {
      ParseShowMembers(members, rest, quoted);
      assert u == ShowMembers(members, "}" + rest);
    }
  }

  // Whitespace before a separator.
  lemma ReadGap(post: string, next: string)
    requires AllWs(post) && next != "" && IsSeparator(next[0])
    ensures var u := post + next;
      && WsLen(u) == |post| < |u| && u[..|post|] == post && u[|post|] == next[0] && u[|post| + 1..] == next[1..]
      && Delimited(u)
  {
    WsLenAppend(post, next);
    assert (post + next)[0] == if post == "" then next[0] else post[0];
  }

  // A value with its whitespace, before a separator.
  lemma {:induction false} ReadValue(pre: string, d: Doc, post: string, next: string, quoted: bool)
    requires AllWs(pre) && AllWs(post) && DocOk(d, quoted)
    requires next != "" && IsSeparator(next[0])
    ensures var t := pre + Show(d, post + next);
      && WsLen(t) == |pre| < |t| && t[|pre|] != ']' && t[|pre|] != '}'
      && t[..|pre|] == pre && ParseDoc(t[|pre|..], quoted) == Got(d, post + next)
    decreases d, 1
  {
    var u := post + next;
    var v := Show(d, u);
    ReadGap(post, next);
    ShowHead(d, u, quoted);
    WsLenAppend(pre, v);
    assert (pre + v)[|pre|..] == v;
    ParseShow(d, u, quoted);
  }

  // One turn of ParseCells, given what each of its readers returns.
  lemma CellStep(t: string, n: nat, d: Doc, u: string, m: nat, quoted: bool)
    requires WsLen(t) == n < |t| && ParseDoc(t[n..], quoted) == Got(d, u)
    requires WsLen(u) == m < |u|
    ensures u[m] == ']' ==> ParseCells(t, quoted) == Got(Cell(t[..n], d, u[..m], NoCells), u[m + 1..])
    ensures u[m] == ',' ==> ParseCells(t, quoted) == WithCells(t[..n], d, u[..m], ParseCells(u[m + 1..], quoted))
  {
  }

  lemma {:induction false} ParseShowCells(cs: Cells, rest: string, quoted: bool)
    requires CellsOk(cs, quoted) && cs.Cell?
    ensures var t := ShowCells(cs, "]" + rest);
      WsLen(t) < |t| && t[WsLen(t)] != ']' && ParseCells(t, quoted) == Got(cs, rest)
    decreases cs, 0
  {
    var Cell(pre, d, post, more) := cs;
    var next := if more.NoCells? then "]" + rest else "," + ShowCells(more, "]" + rest);
    assert next[1..] == if more.NoCells? then rest else ShowCells(more, "]" + rest);
    ReadValue(pre, d, post, next, quoted);
    ReadGap(post, next);
    if more.Cell? {
      ParseShowCells(more, rest, quoted);
    }
    CellStep(pre + Show(d, post + next), |pre|, d, post + next, |post|, quoted);
  }

  // One turn of ParseMember.
  lemma MemberStep(pre: string, key: seq<Piece>, mid: string, v: string, d: Doc, w: string, quoted: bool)
    requires AllWs(pre) && PiecesOk(key, quoted) && AllWs(mid)
    requires ParseDoc(v[WsLen(v)..], quoted) == Got(d, w)
    ensures ParseMember(pre, key, mid, v, quoted)
         == FinishMember(Member(pre, key, mid, v[..WsLen(v)], d, "", NoMembers), w, quoted)
  {
  }

  lemma FinishStep(m: Members, w: string, l: nat, quoted: bool)
    requires m.Member? && m.more.NoMembers? && m.post == "" && MembersOk(m, quoted) && WsLen(w) == l < |w|
    ensures w[l] == '}' ==> FinishMember(m, w, quoted) == Got(m.(post := w[..l]), w[l + 1..])
    ensures w[l] == ',' ==>
      FinishMember(m, w, quoted) == WithMore(m.(post := w[..l]), ParseMembers(w[l + 1..], quoted))
  {
  }

  lemma {:induction false} ParseShowMembers(ms: Members, rest: string, quoted: bool)
    requires MembersOk(ms, quoted) && ms.Member?
    ensures var t := ShowMembers(ms, "}" + rest);
      WsLen(t) < |t| && t[WsLen(t)] != '}' && ParseMembers(t, quoted) == Got(ms, rest)
    decreases ms, 0
  {
    var Member(pre, key, mid, gap, d, post, more) := ms;
    var next := if more.NoMembers? then "}" + rest else "," + ShowMembers(more, "}" + rest);
    assert next[1..] == if more.NoMembers? then rest else ShowMembers(more, "}" + rest);
    ReadValue(gap, d, post, next, quoted);
    ReadGap(post, next);
    var v := gap + Show(d, post + next);
    if more.Member? {
      ParseShowMembers(more, rest, quoted);
    }
    MemberStep(pre, key, mid, v, d, post + next, quoted);
    FinishStep(Member(pre, key, mid, gap, d, "", NoMembers), post + next, |post|, quoted);
    ReadKey(pre, key, mid, v, quoted);
  }

  lemma KeyStep(t: string, n: nat, key: seq<Piece>, u: string, quoted: bool)
    requires WsLen(t) == n < |t| && t[n] == '"' && ParsePieces(t[n + 1..], quoted) == Got(key, u)
    ensures ParseKey(t, quoted) == FinishKey(t[..n], key, u)
  {
  }

  lemma ReadColon(pre: string, key: seq<Piece>, mid: string, v: string)
    requires AllWs(mid)
    ensures FinishKey(pre, key, mid + (":" + v)) == Got(Key(pre, key, mid), v)
  {
    var u := mid + (":" + v);
    WsLenAppend(mid, ":" + v);
    assert u[..|mid|] == mid && u[|mid| + 1..] == v;
  }

  // A key with its whitespace and the colon.
  lemma ReadKey(pre: string, key: seq<Piece>, mid: string, v: string, quoted: bool)
    requires AllWs(pre) && AllWs(mid) && PiecesOk(key, quoted)
    ensures var t := pre + ("\"" + ShowPieces(key, mid + (":" + v)));
      WsLen(t) == |pre| < |t| && t[|pre|] == '"' && ParseKey(t, quoted) == Got(Key(pre, key, mid), v)
  {
    var u := mid + (":" + v);
    var q := ShowPieces(key, u);
    var t := pre + ("\"" + q);
    WsLenAppend(pre, "\"" + q);
    ParseShowPieces(key, u, quoted);
    assert t[|pre| + 1..] == q && t[..|pre|] == pre;
    KeyStep(t, |pre|, key, u, quoted);
    ReadColon(pre, key, mid, v);
  }

  /** Two well-formed trees that print alike are the same tree. */
  lemma RenderInjective(d: Doc, e: Doc, quoted: bool)
    requires DocOk(d, quoted) && DocOk(e, quoted) && Render(d) == Render(e)
    ensures d == e
  {
    ParseShow(d, "", quoted);
    ParseShow(e, "", quoted);
  }
}

/** The texts and their meaning spelled out: constants, digits and escapes as they stand in a JSON text,
    the later of two members with one key, and characters written as surrogate pairs. */
module JsonReading {
  import opened Options
  import opened JsonSyntax
  import opened KeyOrder
  import opened Numerals
  import opened CanonicalJson
  import opened CanonicalMeaning

  lemma ConstantTexts()
    ensures Render(DNull) == "null" && Render(DBool(true)) == "true" && Render(DBool(false)) == "false"
  {
    assert "null" + "" == "null" && "true" + "" == "true" && "false" + "" == "false";
  }

  lemma DigitTexts(n: nat)
    requires n < 16
    ensures DigitChar(n) == "0123456789abcdef"[n]
    ensures IsHex(DigitChar(n)) && DigitValue(DigitChar(n)) == n
  {
  }

  lemma TwoDigits(n: int)
    requires 10 <= n < 100
    ensures ShowInt(n) == [DigitChar(n / 10), DigitChar(n % 10)] && ShowInt(-n) == "-" + ShowInt(n)
  {
    assert DecimalDigits(n / 10) == [DigitChar(n / 10)];
  }

  /** The escapes of strconv.AppendQuote, as they are written. */
  lemma GoEscapes(lib: Lib)
    ensures RenderPiece(GoPiece('"', lib)) == "\\\"" && RenderPiece(GoPiece('\\', lib)) == "\\\\"
    ensures RenderPiece(GoPiece(7 as char, lib)) == "\\a" && RenderPiece(GoPiece(8 as char, lib)) == "\\b"
    ensures RenderPiece(GoPiece('\t', lib)) == "\\t" && RenderPiece(GoPiece('\n', lib)) == "\\n"
    ensures RenderPiece(GoPiece(11 as char, lib)) == "\\v" && RenderPiece(GoPiece(12 as char, lib)) == "\\f"
    ensures RenderPiece(GoPiece('\r', lib)) == "\\r"
  {
  }

  // n divided by 16, i times.
  function DividedBy16(n: nat, i: nat): nat { if i == 0 then n else DividedBy16(n / 16, i - 1) }

  /** The digit at the i-th place from the end is the remainder after i divisions. */
  lemma {:induction false} HexPlaces(n: nat, width: nat, i: nat)
    requires i < width
    ensures |HexDigits(n, width)| == width
    ensures HexDigits(n, width)[width - 1 - i] == "0123456789abcdef"[DividedBy16(n, i) % 16]
    decreases i
  {
    HexWidths(n, width);
    HexWidths(n / 16, width - 1);
    DigitTexts(DividedBy16(n, i) % 16);
    if i > 0 { HexPlaces(n / 16, width - 1, i - 1); }
  }

  lemma {:induction false} HexWidths(n: nat, width: nat)
    ensures |HexDigits(n, width)| == width
  {
    if width > 0 { HexWidths(n / 16, width - 1); }
  }

  /** What has no letter and cannot be printed is written by its code, in two, four or eight digits. */
  lemma GoNumericEscapes(c: char, lib: Lib)
    requires !IsPrint(c, lib) && !(7 <= c as int <= 13)
    ensures var width := if c as int < 0x80 then 2 else if c as int < 0x1_0000 then 4 else 8;
      RenderPiece(GoPiece(c, lib)) ==
        ['\\', if width == 2 then 'x' else if width == 4 then 'u' else 'U'] + HexDigits(c as int, width)
  {
  }

  /** The escapes of json.dumps, as they are written. */
  lemma PyEscapes()
    ensures RenderPiece(PyPiece('"')) == "\\\"" && RenderPiece(PyPiece('\\')) == "\\\\"
    ensures RenderPiece(PyPiece(8 as char)) == "\\b" && RenderPiece(PyPiece(12 as char)) == "\\f"
    ensures RenderPiece(PyPiece('\t')) == "\\t" && RenderPiece(PyPiece('\n')) == "\\n"
    ensures RenderPiece(PyPiece('\r')) == "\\r"
  {
  }

  lemma PyNumericEscapes(c: char)
    requires c != '"' && c != '\\' && !(8 <= c as int <= 10) && !(12 <= c as int <= 13)
    ensures RenderPiece(PyPiece(c)) == if c as int < 0x20 then ['\\', 'u'] + HexDigits(c as int, 4) else [c]
  {
  }

  // ----- Members with one key -----

  predicate Occurs(ms: Members, key: string)
    requires MembersOk(ms, true)
  {
    ms.Member? && (PiecesValue(ms.key) == key || Occurs(ms.more, key))
  }

  // The value of the last member with the key.
  function LastValue(ms: Members, key: string, lib: Lib): Json
    requires MembersOk(ms, true) && Occurs(ms, key)
  {
    if Occurs(ms.more, key) then LastValue(ms.more, key, lib) else ValueOf(ms.doc, lib)
  }

  /** An object has the keys that are written, each with the value that is written last. */
  lemma {:induction false} LastMemberCounts(ms: Members, key: string, lib: Lib)
    requires MembersOk(ms, true)
    ensures key in MembersValue(ms, lib) <==> Occurs(ms, key)
    ensures Occurs(ms, key) ==> MembersValue(ms, lib)[key] == LastValue(ms, key, lib)
  {
    if ms.Member? { LastMemberCounts(ms.more, key, lib); }
  }

  // ----- Surrogate pairs -----

  /** A character beyond the basic plane may be written as a pair of escapes (RFC 8259, section 7). */
  lemma SurrogatePair(c: char)
    requires c as int >= 0x1_0000
    ensures var n := c as int - 0x1_0000;
      var pair := [Hex('u', HexDigits(0xD800 + n / 0x400, 4)), Hex('u', HexDigits(0xDC00 + n % 0x400, 4))];
      PiecesOk(pair, false) && PiecesOk(pair, true) && PiecesValue(pair) == [c]
  {
    var n := c as int - 0x1_0000;
    var high, low := 0xD800 + n / 0x400, 0xDC00 + n % 0x400;
    Pow4();
    HexRoundTrip(high, 4);
    HexRoundTrip(low, 4);
    var pair := [Hex('u', HexDigits(high, 4)), Hex('u', HexDigits(low, 4))];
    assert pair[2..] == [];
    assert n == n / 0x400 * 0x400 + n % 0x400;
  }

  lemma Pow4()
    ensures Pow16(4) == 0x1_0000
  {
    assert Pow16(1) == 16 && Pow16(2) == 16 * Pow16(1) && Pow16(3) == 16 * Pow16(2) && Pow16(4) == 16 * Pow16(3);
  }

  /** Half a pair alone is read as the replacement character. */
  lemma LoneSurrogate(code: nat)
    requires 0xD800 <= code < 0xE000
    ensures var alone := [Hex('u', HexDigits(code, 4))]; PiecesOk(alone, true) && PiecesValue(alone) == "\U{FFFD}"
  {
    Pow4();
    HexRoundTrip(code, 4);
    var alone := [Hex('u', HexDigits(code, 4))];
    assert alone[1..] == [];
  }
}

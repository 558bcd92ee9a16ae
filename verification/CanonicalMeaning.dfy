/** What the texts of both printers mean: the agent's text determines the value (`CanonicalInjective`),
    and the agent decodes every rendering of the server's payload to the same value whatever its key
    order and spacing (`UnmarshalRender`, `StyleValue`). */
module CanonicalMeaning {
  import opened Options
  import opened JsonSyntax
  import opened KeyOrder
  import opened Decimals
  import opened CanonicalJson
  import opened NumberTexts

  // ----- Characters -----

  lemma {:induction false} HexRoundTrip(n: nat, width: nat)
    requires n < Pow16(width)
    ensures var ds := HexDigits(n, width); |ds| == width && AllHex(ds) && HexValue(ds) == n
  {
    if width > 0 {
      HexRoundTrip(n / 16, width - 1);
      var ds := HexDigits(n, width);
      assert ds[..|ds| - 1] == HexDigits(n / 16, width - 1);
    }
  }

  // The piece p alone stands for the character c.
  predicate Says(p: Piece, c: char) {
    PieceOk(p, true) &&
    match p
    case Raw(d) => d == c
    case Short(m) => ShortValue(m) == c
    case Hex(m, ds) => HexValue(ds) == c as int
  }

  lemma {:induction false} PiecesSay(ps: seq<Piece>, s: string)
    requires |ps| == |s| && forall i | 0 <= i < |s| :: Says(ps[i], s[i])
    ensures PiecesOk(ps, true) && PiecesValue(ps) == s
  {
    if s != "" {
      PiecesSay(ps[1..], s[1..]);
      assert s == [s[0]] + s[1..];
    }
  }

  lemma GoPieceSays(c: char, lib: Lib)
    ensures Says(GoPiece(c, lib), c)
  {
    assert Pow16(2) == 0x100 && Pow16(4) == 0x1_0000 && Pow16(8) == 0x1_0000_0000 by {
      assert Pow16(1) == 16 && Pow16(2) == 16 * Pow16(1) && Pow16(3) == 16 * Pow16(2) && Pow16(4) == 16 * Pow16(3);
      assert Pow16(5) == 16 * Pow16(4) && Pow16(6) == 16 * Pow16(5) && Pow16(7) == 16 * Pow16(6)
        && Pow16(8) == 16 * Pow16(7);
    }
    var p := GoPiece(c, lib);
    if p.Hex? {
      HexRoundTrip(c as int, HexWidth(p.mark, true));
    }
  }

  lemma PyPieceSays(c: char)
    ensures Says(PyPiece(c), c) && PieceOk(PyPiece(c), false)
  {
    if PyPiece(c).Hex? {
      assert Pow16(1) == 16 && Pow16(2) == 16 * Pow16(1) && Pow16(3) == 16 * Pow16(2) && Pow16(4) == 16 * Pow16(3);
      HexRoundTrip(c as int, 4);
    }
  }

  lemma GoQuoteValue(s: string, lib: Lib)
    ensures PiecesOk(GoQuote(s, lib), true) && PiecesValue(GoQuote(s, lib)) == s
  {
    forall i | 0 <= i < |s| ensures Says(GoQuote(s, lib)[i], s[i]) { GoPieceSays(s[i], lib); }
    PiecesSay(GoQuote(s, lib), s);
  }

  lemma PyQuoteValue(s: string)
    ensures PiecesOk(PyQuote(s), false) && PiecesOk(PyQuote(s), true) && PiecesValue(PyQuote(s)) == s
  {
    forall i | 0 <= i < |s| ensures Says(PyQuote(s)[i], s[i]) && PieceOk(PyQuote(s)[i], false) {
      PyPieceSays(s[i]);
    }
    PiecesSay(PyQuote(s), s);
  }

  // ----- The agent's text determines the value -----

  lemma {:induction false} CanonicalValue(v: Json, lib: Lib)
    requires Faithful(lib)
    ensures DocOk(CanonicalDoc(v, lib), true) && ValueOf(CanonicalDoc(v, lib), lib) == v
    decreases v, 1, 0
  {
    match v {
      case Num(x) => GoNumberRead(x, lib);
      case Str(s) => GoQuoteValue(s, lib);
      case Arr(items) => CanonicalCellsValue(items, "", lib);
      case Obj(_) => CanonicalObjectValue(v, lib);
      case _ =>
    }
  }

  lemma {:induction false} CanonicalObjectValue(v: Json, lib: Lib)
    requires v.Obj? && Faithful(lib)
    ensures DocOk(CanonicalDoc(v, lib), true) && ValueOf(CanonicalDoc(v, lib), lib) == v
    decreases v, 0, |SortedKeys(v.fields.Keys)| + 1
  {
    var keys := SortedKeys(v.fields.Keys);
    CanonicalMembersValue(v, keys, "", lib);
    RestrictAll(v.fields, keys);
  }

  lemma {:induction false} CanonicalCellsValue(items: seq<Json>, pre: string, lib: Lib)
    requires AllWs(pre) && Faithful(lib)
    ensures var cs := CanonicalCells(items, pre, lib); CellsOk(cs, true) && CellsValue(cs, lib) == items
    decreases items, 0, 0
  {
    if items != [] {
      CanonicalValue(items[0], lib);
      CanonicalCellsValue(items[1..], " ", lib);
    }
  }

  function Restrict(f: map<string, Json>, keys: seq<string>): map<string, Json>
    requires Elements(keys) <= f.Keys
  {
    map k | k in Elements(keys) :: f[k]
  }

  lemma RestrictCons(f: map<string, Json>, keys: seq<string>)
    requires keys != [] && Elements(keys) <= f.Keys
    ensures keys[0] in f && Elements(keys[1..]) <= f.Keys
    ensures Restrict(f, keys) == map[keys[0] := f[keys[0]]] + Restrict(f, keys[1..])
  {
    assert keys[0] in Elements(keys);
    assert Elements(keys) == {keys[0]} + Elements(keys[1..]);
  }

  lemma {:induction false} CanonicalMembersValue(v: Json, keys: seq<string>, pre: string, lib: Lib)
    requires v.Obj? && Elements(keys) <= v.fields.Keys && AllWs(pre) && Faithful(lib)
    ensures var ms := CanonicalMembers(v, keys, pre, lib);
      MembersOk(ms, true) && MembersValue(ms, lib) == Restrict(v.fields, keys)
    decreases v, 0, |keys|
  {
    if keys != [] {
      RestrictCons(v.fields, keys);
      GoQuoteValue(keys[0], lib);
      CanonicalValue(v.fields[keys[0]], lib);
      CanonicalMembersValue(v, keys[1..], " ", lib);
    }
  }

  /** A reader recovers every value, at any depth, from its canonical text. */
  lemma CanonicalRoundTrip(v: Json, lib: Lib)
    requires Faithful(lib)
    ensures ParseDoc(CanonicalText(v, lib), true) == Got(CanonicalDoc(v, lib), "")
    ensures DocOk(CanonicalDoc(v, lib), true) && ValueOf(CanonicalDoc(v, lib), lib) == v
  {
    CanonicalValue(v, lib);
    ParseShow(CanonicalDoc(v, lib), "", true);
  }

  lemma CanonicalInjective(v: Json, w: Json, lib: Lib)
    requires Faithful(lib) && CanonicalText(v, lib) == CanonicalText(w, lib)
    ensures v == w
  {
    CanonicalRoundTrip(v, lib);
    CanonicalRoundTrip(w, lib);
  }

  // ----- The keys are in order -----

  // The keys of an object in the order of its text.
  function KeyTexts(ms: Members): seq<string>
    requires MembersOk(ms, true)
  {
    match ms
    case NoMembers => []
    case Member(_, key, _, _, _, _, more) => [PiecesValue(key)] + KeyTexts(more)
  }

  lemma {:induction false} CanonicalKeyTexts(v: Json, keys: seq<string>, pre: string, lib: Lib)
    requires v.Obj? && Elements(keys) <= v.fields.Keys && AllWs(pre) && Faithful(lib)
    ensures var ms := CanonicalMembers(v, keys, pre, lib); MembersOk(ms, true) && KeyTexts(ms) == keys
    decreases |keys|
  {
    if keys != [] {
      RestrictCons(v.fields, keys);
      CanonicalMembersValue(v, keys, pre, lib);
      CanonicalKeyTexts(v, keys[1..], " ", lib);
      GoQuoteValue(keys[0], lib);
    }
  }

  /** The agent prints the keys of an object in ascending order, each once and none besides. */
  lemma KeysAscend(v: Json, lib: Lib)
    requires v.Obj? && Faithful(lib)
    ensures DocOk(CanonicalDoc(v, lib), true)
    ensures var ks := KeyTexts(CanonicalDoc(v, lib).members);
      && (forall i, j | 0 <= i < j < |ks| :: TextBelow(ks[i], ks[j]))
      && forall k :: k in ks <==> k in v.fields
  {
    var keys := SortedKeys(v.fields.Keys);
    CanonicalValue(v, lib);
    CanonicalKeyTexts(v, keys, "", lib);
    forall i, j | 0 <= i < j < |keys| ensures TextBelow(keys[i], keys[j]) { LessExactly(keys[i], keys[j]); }
    forall k ensures k in keys <==> k in v.fields { assert k in Elements(keys) <==> k in keys; }
  }

  // ----- Any rendering of the payload decodes to the same value -----

  /** Decoding reads every RFC 8259 rendering, with whitespace anywhere the standard allows it, unless
      it holds a number that is out of range. */
  lemma UnmarshalRender(pre: string, d: Doc, post: string, lib: Lib)
    requires AllWs(pre) && AllWs(post) && DocOk(d, false)
    ensures DocOk(d, true)
    ensures Unmarshal(pre + Show(d, post), lib) == if Readable(d, lib) then Some(ValueOf(d, lib)) else None
  {
    QuotedWeaker(d);
    var t := Show(d, post);
    ShowHead(d, post, false);
    WsLenAppend(pre, t);
    assert (pre + t)[|pre|..] == t;
    ParseShow(d, post, false);
    WsLenAppend(post, "");
    assert post + "" == post;
  }

  predicate InRange(q: Py, lib: Lib) {
    match q
    case PInt(n) => lib.nearest(n as real).Some?
    case PList(items) => forall i | 0 <= i < |items| :: InRange(items[i], lib)
    case PDict(_, fields) => forall k | k in fields :: InRange(fields[k], lib)
    case _ => true
  }

  predicate StyleOk(style: Style) { AllWs(style.comma) && AllWs(style.colon) }

  /** The server's own renderings, sorted or not and with any spacing, all mean Decoded(q, lib); they can
      be decoded if the payload holds no integer beyond the range of a float64. */
  lemma {:induction false} StyleValue(q: Py, style: Style, lib: Lib)
    requires DictsOk(q) && StyleOk(style) && Faithful(lib)
    ensures var d := PyDoc(q, style, lib);
      && DocOk(d, false) && DocOk(d, true) && ValueOf(d, lib) == Decoded(q, lib)
      && (Readable(d, lib) <==> InRange(q, lib))
    decreases q, 1, 0
  {
    match q {
      case PInt(n) => IntText(n);
      case PFloat(x) => PyNumberRead(x, lib);
      case PStr(s) => PyQuoteValue(s);
      case PList(items) => StyleCellsValue(items, Decoded(q, lib).items, "", style, lib);
      case PDict(order, _) =>
        var keys := if style.sorted then Sort(order) else order;
        assert Elements(keys) == q.fields.Keys;
        StyleMembersValue(q, keys, "", style, lib);
        RestrictAll(Decoded(q, lib).fields, keys);
      case _ =>
    }
  }

  lemma RestrictAll(f: map<string, Json>, keys: seq<string>)
    requires Elements(keys) == f.Keys
    ensures Restrict(f, keys) == f
  {
  }

  lemma {:induction false} StyleCellsValue(items: seq<Py>, values: seq<Json>, pre: string, style: Style, lib: Lib)
    requires AllWs(pre) && StyleOk(style) && Faithful(lib)
    requires |values| == |items|
    requires forall i | 0 <= i < |items| :: DictsOk(items[i]) && values[i] == Decoded(items[i], lib)
    ensures var cs := PyCells(items, pre, style, lib);
      && CellsOk(cs, false) && CellsOk(cs, true) && CellsValue(cs, lib) == values
      && (CellsReadable(cs, lib) <==> forall i | 0 <= i < |items| :: InRange(items[i], lib))
    decreases items, 0, 0
  {
    if items != [] {
      StyleValue(items[0], style, lib);
      StyleCellsValue(items[1..], values[1..], style.comma, style, lib);
      assert forall i | 1 <= i < |items| :: items[i] == items[1..][i - 1];
    }
  }

  lemma {:induction false} StyleMembersValue(q: Py, keys: seq<string>, pre: string, style: Style, lib: Lib)
    requires q.PDict? && DictsOk(q) && Elements(keys) <= q.fields.Keys
    requires AllWs(pre) && StyleOk(style) && Faithful(lib)
    ensures Decoded(q, lib).fields.Keys == q.fields.Keys
    ensures var ms := PyMembers(q, keys, pre, style, lib);
      && MembersOk(ms, false) && MembersOk(ms, true) && MembersValue(ms, lib) == Restrict(Decoded(q, lib).fields, keys)
      && (MembersReadable(ms, lib) <==> forall k | k in Elements(keys) :: InRange(q.fields[k], lib))
    decreases q, 0, |keys|
  {
    if keys != [] {
      RestrictCons(Decoded(q, lib).fields, keys);
      assert Elements(keys) == {keys[0]} + Elements(keys[1..]);
      PyQuoteValue(keys[0]);
      StyleValue(q.fields[keys[0]], style, lib);
      StyleMembersValue(q, keys[1..], style.comma, style, lib);
    }
  }

  /** The two printers cannot write the same text for different values. */
  lemma CrossInjective(v: Json, q: Py, lib: Lib)
    requires Faithful(lib) && DictsOk(q) && CanonicalText(v, lib) == SignedText(q, lib)
    ensures v == Decoded(q, lib)
  {
    CanonicalValue(v, lib);
    StyleValue(q, SIGNED, lib);
    RenderInjective(CanonicalDoc(v, lib), PyDoc(q, SIGNED, lib), true);
  }
}

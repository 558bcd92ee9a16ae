/** The agent's printer as it is written: a buffer that grows while loops run over the sorted keys
    of an object and over the items of an array (agent/internal/crypto/verify.go). */
module CanonicalPrinter {
  import opened JsonSyntax
  import opened KeyOrder
  import opened Options
  import opened Numerals
  import opened Decimals
  import opened Floats
  import opened CanonicalJson

  // ----- Printing before a rest is printing, then the rest -----

  lemma {:induction false} ShowPiecesAppend(ps: seq<Piece>, a: string, b: string)
    ensures ShowPieces(ps, a + b) == ShowPieces(ps, a) + b
  {
    if ps == [] {
      assert "\"" + (a + b) == ("\"" + a) + b;
    } else {
      ShowPiecesAppend(ps[1..], a, b);
      var x, y := RenderPiece(ps[0]), ShowPieces(ps[1..], a);
      assert x + (y + b) == (x + y) + b;
    }
  }

  lemma Assoc(x: string, y: string, b: string)
    ensures x + (y + b) == (x + y) + b
  {
  }

  lemma {:induction false} ShowAppend(d: Doc, a: string, b: string)
    ensures Show(d, a + b) == Show(d, a) + b
    decreases d
  {
    match d {
      case DNull => Assoc("null", a, b);
      case DBool(v) => Assoc(if v then "true" else "false", a, b);
      case DNum(literal) => Assoc(literal, a, b);
      case DStr(ps) =>
        ShowPiecesAppend(ps, a, b);
        Assoc("\"", ShowPieces(ps, a), b);
      case DArr(gap, cells) =>
        Assoc("]", a, b);
        ShowCellsAppend(cells, "]" + a, b);
        Assoc(gap, ShowCells(cells, "]" + a), b);
        Assoc("[", gap + ShowCells(cells, "]" + a), b);
      case DObj(gap, members) =>
        Assoc("}", a, b);
        ShowMembersAppend(members, "}" + a, b);
        Assoc(gap, ShowMembers(members, "}" + a), b);
        Assoc("{", gap + ShowMembers(members, "}" + a), b);
    }
  }

  lemma {:induction false} ShowCellsAppend(cs: Cells, a: string, b: string)
    ensures ShowCells(cs, a + b) == ShowCells(cs, a) + b
    decreases cs
  {
    if cs.Cell? {
      var next := if cs.more.NoCells? then a else "," + ShowCells(cs.more, a);
      if cs.more.Cell? {
        ShowCellsAppend(cs.more, a, b);
        Assoc(",", ShowCells(cs.more, a), b);
      }
      Assoc(cs.post, next, b);
      ShowAppend(cs.doc, cs.post + next, b);
      Assoc(cs.pre, Show(cs.doc, cs.post + next), b);
    }
  }

  lemma {:induction false} ShowMembersAppend(ms: Members, a: string, b: string)
    ensures ShowMembers(ms, a + b) == ShowMembers(ms, a) + b
    decreases ms
  {
    if ms.Member? {
      var next := if ms.more.NoMembers? then a else "," + ShowMembers(ms.more, a);
      if ms.more.Member? {
        ShowMembersAppend(ms.more, a, b);
        Assoc(",", ShowMembers(ms.more, a), b);
      }
      Assoc(ms.post, next, b);
      var d := Show(ms.doc, ms.post + next);
      ShowAppend(ms.doc, ms.post + next, b);
      Assoc(ms.gap, d, b);
      Assoc(":", ms.gap + d, b);
      Assoc(ms.mid, ":" + (ms.gap + d), b);
      ShowPiecesAppend(ms.key, ms.mid + (":" + (ms.gap + d)), b);
      Assoc("\"", ShowPieces(ms.key, ms.mid + (":" + (ms.gap + d))), b);
      Assoc(ms.pre, "\"" + ShowPieces(ms.key, ms.mid + (":" + (ms.gap + d))), b);
    }
  }

  // Appending a separator and a text one after the other.
  lemma AppendTwo(r: string, sep: string, t: string, n: string)
    ensures r + (sep + (t + n)) == ((r + sep) + t) + n
  {
    Assoc(r, sep, t + n);
    Assoc(r + sep, t, n);
  }

  lemma AppendFour(r: string, sep: string, k: string, c: string, t: string, n: string)
    ensures r + (sep + (((k + c) + t) + n)) == ((((r + sep) + k) + c) + t) + n
  {
    AppendTwo(r, sep, (k + c) + t, n);
    Assoc(r + sep, k + c, t);
    Assoc(r + sep, k, c);
  }

  // strconv.AppendQuote
  function AppendQuote(dst: string, s: string, lib: Lib): string {
    dst + Show(DStr(GoQuote(s, lib)), "")
  }

  // The cells, or members, that follow one that has been printed.
  function MoreCells(cs: Cells): string { if cs.NoCells? then "]" else "," + ShowCells(cs, "]") }

  function MoreMembers(ms: Members): string { if ms.NoMembers? then "}" else "," + ShowMembers(ms, "}") }

  lemma CellText(pre: string, d: Doc, more: Cells)
    ensures ShowCells(Cell(pre, d, "", more), "]") == pre + (Render(d) + MoreCells(more))
  {
    var next := MoreCells(more);
    assert "" + next == next;
    ShowAppend(d, "", next);
  }

  lemma MemberText(pre: string, ps: seq<Piece>, d: Doc, more: Members)
    ensures ShowMembers(Member(pre, ps, "", " ", d, "", more), "}")
         == pre + (((Show(DStr(ps), "") + ": ") + Render(d)) + MoreMembers(more))
  {
    var next := MoreMembers(more);
    assert "" + next == next;
    ShowAppend(d, "", next);
    var value := ":" + (" " + Show(d, next));
    assert "" + value == value;
    assert value == ": " + Show(d, next);
    ShowAppend(DStr(ps), "", value);
    var k := Show(DStr(ps), "");
    Assoc(k, ": ", Render(d) + next);
    Assoc(k + ": ", Render(d), next);
  }

  // What remains to be printed of an array, or of an object, before its i-th element.
  ghost function ItemsFrom(items: seq<Json>, i: nat, lib: Lib): string
    requires i <= |items|
  {
    if i == 0 then ShowCells(CanonicalCells(items, "", lib), "]")
    else MoreCells(CanonicalCells(items[i..], " ", lib))
  }

  ghost function FieldsFrom(v: Json, keys: seq<string>, i: nat, lib: Lib): string
    requires v.Obj? && i <= |keys| && Elements(keys) <= v.fields.Keys
  {
    assert Elements(keys[i..]) <= Elements(keys);
    if i == 0 then ShowMembers(CanonicalMembers(v, keys, "", lib), "}")
    else MoreMembers(CanonicalMembers(v, keys[i..], " ", lib))
  }

  lemma ItemStep(items: seq<Json>, i: nat, lib: Lib)
    requires i < |items|
    ensures ItemsFrom(items, i, lib)
         == (if i > 0 then ", " else "") + (CanonicalText(items[i], lib) + ItemsFrom(items, i + 1, lib))
  {
    var d, more := CanonicalDoc(items[i], lib), CanonicalCells(items[i + 1..], " ", lib);
    var pre := if i > 0 then " " else "";
    assert items[i..][1..] == items[i + 1..] && (i == 0 ==> items[i..] == items);
    CellText(pre, d, more);
    if i > 0 {
      Assoc(",", " ", Render(d) + MoreCells(more));
      assert ", " == "," + " ";
    }
  }

  lemma FieldStep(v: Json, keys: seq<string>, i: nat, lib: Lib)
    requires v.Obj? && i < |keys| && Elements(keys) <= v.fields.Keys
    ensures keys[i] in v.fields
    ensures FieldsFrom(v, keys, i, lib)
         == (if i > 0 then ", " else "")
            + (((Show(DStr(GoQuote(keys[i], lib)), "") + ": ") + CanonicalText(v.fields[keys[i]], lib))
               + FieldsFrom(v, keys, i + 1, lib))
  {
    assert keys[i] in Elements(keys);
    assert Elements(keys[i..]) <= Elements(keys) && Elements(keys[i + 1..]) <= Elements(keys);
    assert keys[i..][1..] == keys[i + 1..] && (i == 0 ==> keys[i..] == keys);
    var ps, d := GoQuote(keys[i], lib), CanonicalDoc(v.fields[keys[i]], lib);
    var more := CanonicalMembers(v, keys[i + 1..], " ", lib);
    var pre := if i > 0 then " " else "";
    MemberText(pre, ps, d, more);
    if i > 0 {
      Assoc(",", " ", ((Show(DStr(ps), "") + ": ") + Render(d)) + MoreMembers(more));
      assert ", " == "," + " ";
    }
  }

  lemma ArrayText(items: seq<Json>, lib: Lib)
    ensures CanonicalText(Arr(items), lib) == "[" + ItemsFrom(items, 0, lib)
  {
    assert "]" + "" == "]";
    var t := ItemsFrom(items, 0, lib);
    assert "" + t == t;
  }

  lemma ObjectText(v: Json, lib: Lib)
    requires v.Obj?
    ensures CanonicalText(v, lib) == "{" + FieldsFrom(v, SortedKeys(v.fields.Keys), 0, lib)
  {
    assert "}" + "" == "}";
    var t := FieldsFrom(v, SortedKeys(v.fields.Keys), 0, lib);
    assert "" + t == t;
  }

  /** Collects the keys of a map in some order, as ranging over a Go map does. */
  method CollectKeys(fields: map<string, Json>) returns (keys: seq<string>)
    ensures Enumerates(keys, fields.Keys)
  {
    keys := [];
    var todo := fields.Keys;
    while todo != {}
      invariant Distinct(keys) && todo <= fields.Keys && Elements(keys) == fields.Keys - todo
      decreases |todo|
    {
      var k :| k in todo;
      assert k !in Elements(keys);
      assert Elements(keys + [k]) == Elements(keys) + {k};
      keys := keys + [k];
      todo := todo - {k};
    }
  }

  /** appendCanonical: whatever order the keys come in, dst grows by the canonical text of v. */
  method AppendCanonical(dst: string, v: Json, lib: Lib) returns (r: string)
    ensures r == dst + CanonicalText(v, lib)
    decreases v, 1, 0
  {
    match v {
      case Null => r := dst + Render(DNull);
      case Bool(b) => r := dst + Render(DBool(b));
      case Num(x) => r := AppendNumber(dst, x, lib);
      case Str(s) => r := AppendQuote(dst, s, lib);
      case Arr(items) => r := AppendItems(dst, items, lib);
      case Obj(_) => r := AppendFields(dst, v, lib);
    }
  }

  // The case of a float64; strconv.AppendInt and strconv.AppendFloat.
  method AppendNumber(dst: string, x: Float, lib: Lib) returns (r: string)
    ensures r == dst + CanonicalText(Num(x), lib)
  {
    var k := Int64Of(x, lib);
    IntText(k);
    NumberText(x, lib);
    r := dst + if lib.nearest(k as real) == Some(x) then ShowInt(k) else Text(FormatG(x, lib));
  }

  lemma NumberText(x: Float, lib: Lib)
    ensures CanonicalText(Num(x), lib) == Text(GoNumber(x, lib))
  {
    assert Text(GoNumber(x, lib)) + "" == Text(GoNumber(x, lib));
  }

  method AppendItems(dst: string, items: seq<Json>, lib: Lib) returns (r: string)
    ensures r == dst + CanonicalText(Arr(items), lib)
    decreases items, 0, 1
  {
    ghost var whole := dst + CanonicalText(Arr(items), lib);
    ArrayText(items, lib);
    r := dst + "[";
    Assoc(dst, "[", ItemsFrom(items, 0, lib));
    for i := 0 to |items|
      invariant whole == r + ItemsFrom(items, i, lib)
    {
      r := AppendItem(r, items, i, lib);
    }
    assert items[|items|..] == [];
    r := r + "]";
  }

  // The body of the loop over the items.
  method AppendItem(dst: string, items: seq<Json>, i: nat, lib: Lib) returns (r: string)
    requires i < |items|
    ensures r + ItemsFrom(items, i + 1, lib) == dst + ItemsFrom(items, i, lib)
    decreases items, 0, 0
  {
    ItemStep(items, i, lib);
    var sep := if i > 0 then ", " else "";
    r := AppendCanonical(dst + sep, items[i], lib);
    AppendTwo(dst, sep, CanonicalText(items[i], lib), ItemsFrom(items, i + 1, lib));
  }

  method AppendFields(dst: string, v: Json, lib: Lib) returns (r: string)
    requires v.Obj?
    ensures r == dst + CanonicalText(v, lib)
    decreases v, 0, 1
  {
    ghost var whole := dst + CanonicalText(v, lib);
    var keys := CollectKeys(v.fields);
    SortAnyOrder(keys, v.fields.Keys);
    keys := Sort(keys);
    ObjectText(v, lib);
    r := dst + "{";
    Assoc(dst, "{", FieldsFrom(v, keys, 0, lib));
    for i := 0 to |keys|
      invariant whole == r + FieldsFrom(v, keys, i, lib)
    {
      r := AppendField(r, v, keys, i, lib);
    }
    assert keys[|keys|..] == [];
    r := r + "}";
  }

  // The body of the loop over the keys.
  method AppendField(dst: string, v: Json, keys: seq<string>, i: nat, lib: Lib) returns (r: string)
    requires v.Obj? && i < |keys| && Elements(keys) <= v.fields.Keys
    ensures r + FieldsFrom(v, keys, i + 1, lib) == dst + FieldsFrom(v, keys, i, lib)
    decreases v, 0, 0
  {
    FieldStep(v, keys, i, lib);
    var sep := if i > 0 then ", " else "";
    ghost var k := Show(DStr(GoQuote(keys[i], lib)), "");
    r := AppendQuote(dst + sep, keys[i], lib) + ": ";
    r := AppendCanonical(r, v.fields[keys[i]], lib);
    AppendFour(dst, sep, k, ": ", CanonicalText(v.fields[keys[i]], lib), FieldsFrom(v, keys, i + 1, lib));
  }
}

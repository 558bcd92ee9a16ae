/** Where the printers agree: the two texts are equal exactly on the payloads that `Portable` describes
    (`PrintersAgree`). */
module PrinterAgreement {
  import opened JsonSyntax
  import opened KeyOrder
  import opened Floats
  import opened CanonicalJson
  import opened CanonicalMeaning
  import opened NumberTexts

  // The characters both sides write the same way.
  predicate PortableChar(c: char, lib: Lib) {
    if c as int < 0x80 then ' ' <= c <= '~' || c as int in {8, 9, 10, 12, 13} else lib.wide(c)
  }

  predicate PortableString(s: string, lib: Lib) {
    forall i | 0 <= i < |s| :: PortableChar(s[i], lib)
  }

  /** Portable strings, keys and numbers at every depth. */
  ghost predicate Portable(q: Py, lib: Lib) {
    match q
    case PInt(n) => IntPortable(n, lib)
    case PFloat(x) => FloatPortable(x, lib)
    case PStr(s) => PortableString(s, lib)
    case PList(items) => forall i | 0 <= i < |items| :: Portable(items[i], lib)
    case PDict(_, fields) => forall k | k in fields :: PortableString(k, lib) && Portable(fields[k], lib)
    case _ => true
  }

  lemma PieceAgrees(c: char, lib: Lib)
    ensures GoPiece(c, lib) == PyPiece(c) <==> PortableChar(c, lib)
  {
  }

  lemma PiecesAgree(s: string, lib: Lib)
    ensures GoQuote(s, lib) == PyQuote(s) <==> PortableString(s, lib)
  {
    forall i | 0 <= i < |s|
      ensures GoQuote(s, lib)[i] == PyQuote(s)[i] <==> PortableChar(s[i], lib)
    {
      PieceAgrees(s[i], lib);
    }
  }

  // The two trees of one payload.
  ghost predicate SameTree(q: Py, lib: Lib) { CanonicalDoc(Decoded(q, lib), lib) == PyDoc(q, SIGNED, lib) }

  lemma {:induction false} TreesAgree(q: Py, lib: Lib)
    requires DictsOk(q) && Faithful(lib)
    ensures SameTree(q, lib) <==> Portable(q, lib)
    decreases q, 1, 0
  {
    match q {
      case PInt(n) => IntAgrees(n, lib);
      case PFloat(x) => FloatTextsAgree(x, lib);
      case PStr(s) => PiecesAgree(s, lib);
      case PList(items) => CellsAgree(items, Decoded(q, lib).items, "", lib);
      case PDict(_, _) => DictsAgree(q, lib);
      case _ =>
    }
  }

  // The keys of a decoded dict are its own, sorted.
  lemma DecodedKeys(q: Py, lib: Lib)
    requires q.PDict? && DictsOk(q)
    ensures Elements(Sort(q.order)) == q.fields.Keys && Decoded(q, lib).fields.Keys == q.fields.Keys
    ensures CanonicalDoc(Decoded(q, lib), lib) == DObj("", CanonicalMembers(Decoded(q, lib), Sort(q.order), "", lib))
  {
    SortAnyOrder(q.order, q.fields.Keys);
    DecodedKeySet(q, lib);
  }

  lemma DecodedKeySet(q: Py, lib: Lib)
    requires q.PDict?
    ensures Decoded(q, lib).Obj? && Decoded(q, lib).fields.Keys == q.fields.Keys
  {
  }

  lemma {:induction false} DictsAgree(q: Py, lib: Lib)
    requires q.PDict? && DictsOk(q) && Faithful(lib)
    ensures SameTree(q, lib) <==> Portable(q, lib)
    decreases q, 0, |q.order| + 1
  {
    DecodedKeys(q, lib);
    MembersAgree(q, Sort(q.order), "", lib);
  }

  lemma {:induction false} CellsAgree(items: seq<Py>, values: seq<Json>, pre: string, lib: Lib)
    requires |values| == |items| && Faithful(lib)
    requires forall i | 0 <= i < |items| :: DictsOk(items[i]) && values[i] == Decoded(items[i], lib)
    ensures CanonicalCells(values, pre, lib) == PyCells(items, pre, SIGNED, lib)
      <==> forall i | 0 <= i < |items| :: Portable(items[i], lib)
    decreases items, 0, 0
  {
    if items != [] {
      TreesAgree(items[0], lib);
      CellsAgree(items[1..], values[1..], " ", lib);
      assert forall i | 1 <= i < |items| :: items[i] == items[1..][i - 1];
    }
  }

  lemma {:induction false} MembersAgree(q: Py, keys: seq<string>, pre: string, lib: Lib)
    requires q.PDict? && DictsOk(q) && Elements(keys) <= q.fields.Keys && Faithful(lib)
    ensures CanonicalMembers(Decoded(q, lib), keys, pre, lib) == PyMembers(q, keys, pre, SIGNED, lib)
      <==> forall k | k in Elements(keys) :: PortableString(k, lib) && Portable(q.fields[k], lib)
    decreases q, 0, |keys|
  {
    if keys != [] {
      assert keys[0] in Elements(keys);
      assert Elements(keys) == {keys[0]} + Elements(keys[1..]);
      PiecesAgree(keys[0], lib);
      TreesAgree(q.fields[keys[0]], lib);
      MembersAgree(q, keys[1..], " ", lib);
    }
  }

  /** Server and agent write the same text for exactly the portable payloads. */
  lemma PrintersAgree(q: Py, lib: Lib)
    requires DictsOk(q) && Faithful(lib)
    ensures CanonicalText(Decoded(q, lib), lib) == SignedText(q, lib) <==> Portable(q, lib)
  {
    TreesAgree(q, lib);
    if CanonicalText(Decoded(q, lib), lib) == SignedText(q, lib) {
      CanonicalValue(Decoded(q, lib), lib);
      StyleValue(q, SIGNED, lib);
      RenderInjective(CanonicalDoc(Decoded(q, lib), lib), PyDoc(q, SIGNED, lib), true);
    }
  }

  // ----- Payloads of the usual kind -----

  // No floats, no integer beyond 2^53, and portable strings.
  predicate Plain(q: Py, lib: Lib) {
    match q
    case PInt(n) => -MAX_EXACT <= n <= MAX_EXACT
    case PFloat(_) => false
    case PStr(s) => PortableString(s, lib)
    case PList(items) => forall i | 0 <= i < |items| :: Plain(items[i], lib)
    case PDict(_, fields) => forall k | k in fields :: PortableString(k, lib) && Plain(fields[k], lib)
    case _ => true
  }

  lemma {:induction false} PlainPortable(q: Py, lib: Lib)
    requires Plain(q, lib)
    ensures Portable(q, lib)
  {
    match q {
      case PInt(n) => SmallIntegers(n);
      case PList(items) =>
        forall i | 0 <= i < |items| ensures Portable(items[i], lib) { PlainPortable(items[i], lib); }
      case PDict(_, fields) =>
        forall k | k in fields ensures PortableString(k, lib) && Portable(fields[k], lib) {
          PlainPortable(fields[k], lib);
        }
      case _ =>
    }
  }
}

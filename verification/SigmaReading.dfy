/** What a Sigma rule does, read off its text and the event, without the functions of the evaluator:
    the value at a path, each operator, the captured fields, the logsource and the blocks of a pattern. */
module SigmaReading {
  import opened Options
  import opened KeyOrder
  import opened Sigma
  import opened SigmaParser

  // ----- Values of an event -----

  // The keys of a Python dict are distinct.
  predicate DistinctKeys(entries: seq<(string, Value)>) {
    forall i, j | 0 <= i < j < |entries| :: entries[i].0 != entries[j].0
  }

  lemma {:induction false} LookupExactly(entries: seq<(string, Value)>, key: string)
    requires DistinctKeys(entries)
    ensures forall i | 0 <= i < |entries| && entries[i].0 == key :: Lookup(entries, key) == entries[i].1
    ensures !HasKey(entries, key) ==> Lookup(entries, key).Null?
  {
    if entries != [] {
      LookupExactly(entries[1..], key);
      assert forall i | 1 <= i < |entries| :: entries[i] == entries[1..][i - 1];
      if HasKey(entries[1..], key) {
        var i :| 0 <= i < |entries[1..]| && entries[1..][i].0 == key;
        assert entries[i + 1].0 == key;
      }
    }
  }

  predicate Undotted(name: string) { forall i | 0 <= i < |name| :: name[i] != '.' }

  lemma {:induction false} SplitFirst(name: string, rest: string)
    requires Undotted(name)
    ensures Split(name + ("." + rest), '.') == [name] + Split(rest, '.')
  {
    var s := name + ("." + rest);
    if name == "" {
      assert s[0] == '.' && s[1..] == rest;
    } else {
      assert s[1..] == name[1..] + ("." + rest);
      SplitFirst(name[1..], rest);
      assert [name[0]] + name[1..] == name;
    }
  }

  /** A name is looked up in the event; a path goes on from there, unless there is nothing. */
  lemma GetExactly(event: Value, name: string, rest: string)
    requires Undotted(name)
    ensures Get(event, name) == if event.Dict? then Lookup(event.entries, name) else Null
    ensures Get(event, name + ("." + rest)) ==
      if Get(event, name).Null? then Null else Get(Get(event, name), rest)
  {
    SplitNothing(name, '.');
    SplitFirst(name, rest);
    assert ([name] + Split(rest, '.'))[1..] == Split(rest, '.');
    if event.Dict? {
      var child := Lookup(event.entries, name);
      assert [name][1..] == [] && Descend(child, []) == child;
      assert Get(event, name) == if child.Null? then Null else Descend(child, [name][1..]);
    }
  }

  // ----- One test -----

  // A rule with the one test `key: y`, in the flat form.
  predicate OneTest(py: Python, data: Value, rule: Rule, key: string, y: Value) {
    Parse(py, data) == Ok(rule) && Detection(data) == Ok(([(key, y)], "selection")) && !y.Dict?
  }

  lemma OneTestHits(py: Python, data: Value, rule: Rule, key: string, y: Value, event: Value)
    requires OneTest(py, data, rule, key, y)
    ensures Hits(py, rule, event) <==> LogsourceAgrees(py, data, event) && Satisfies(py, event, FromYaml(py, key, y))
  {
    var selection := [(key, y)];
    assert selection[0] == (key, y);
    FlatSelection(py, selection, event);
    ParsingKeepsMeaning(py, data, rule, event);
  }

  lemma FlatSelection(py: Python, selection: Entries, event: Value)
    requires |selection| == 1 && !selection[0].1.Dict?
    ensures FirstTests(py, selection, "selection") == selection
    ensures SourceHolds(py, selection, "selection", event)
      <==> Satisfies(py, event, FromYaml(py, selection[0].0, selection[0].1))
  {
    assert !Named(selection);
    assert "selection"[0] == 's' && ONE_OF[0] == '1' && ALL_OF[0] == 'a';
  }

  predicate Barless(field: string) { forall i | 0 <= i < |field| :: field[i] != '|' }

  // The operators by their names; any other name, and none, is equality.
  predicate Spells(py: Python, op: string, name: string) { op != "" && py.lower(op) == name }

  lemma OrderOperators(py: Python, op: string)
    ensures Spells(py, op, "gt") ==> ParseOperator(py, op) == Gt
    ensures Spells(py, op, "gte") ==> ParseOperator(py, op) == Gte
    ensures Spells(py, op, "lt") ==> ParseOperator(py, op) == Lt
    ensures Spells(py, op, "lte") ==> ParseOperator(py, op) == Lte
  {
  }

  lemma OtherOperators(py: Python, op: string)
    ensures Spells(py, op, "neq") ==> ParseOperator(py, op) == Neq
    ensures Spells(py, op, "contains") ==> ParseOperator(py, op) == Contains
    ensures Spells(py, op, "startswith") ==> ParseOperator(py, op) == StartsWith
    ensures Spells(py, op, "exists") ==> ParseOperator(py, op) == Exists
  {
  }

  predicate Known(name: string) {
    || name == "neq" || name == "gt" || name == "gte" || name == "lt" || name == "lte"
    || name == "contains" || name == "startswith" || name == "exists"
  }

  lemma Equality(py: Python, op: string)
    ensures op == "" || !Known(py.lower(op)) ==> ParseOperator(py, op) == Eq
  {
  }

  // The number a value is taken for when it is ordered: its own, or the one its text spells.
  predicate Reads(py: Python, v: Value, x: real) {
    || v == Num(x) || (v.Bool? && x == if v.b then 1.0 else 0.0) || (v.Str? && py.number(v.s) == Some(x))
  }

  /** `field|gt: y`, and the other three: between two values that read as numbers, the relation of the
      numbers. */
  lemma OrderTests(py: Python, data: Value, rule: Rule, field: string, op: string, y: Value, event: Value,
                   x: real, z: real)
    requires OneTest(py, data, rule, field + "|" + op, y) && Barless(field)
    requires Reads(py, Get(event, field), x) && Reads(py, y, z)
    ensures Spells(py, op, "gt") ==> (Hits(py, rule, event) <==> LogsourceAgrees(py, data, event) && x > z)
    ensures Spells(py, op, "gte") ==> (Hits(py, rule, event) <==> LogsourceAgrees(py, data, event) && x >= z)
    ensures Spells(py, op, "lt") ==> (Hits(py, rule, event) <==> LogsourceAgrees(py, data, event) && x < z)
    ensures Spells(py, op, "lte") ==> (Hits(py, rule, event) <==> LogsourceAgrees(py, data, event) && x <= z)
  {
    OneTestHits(py, data, rule, field + "|" + op, y, event);
    FromYamlReads(py, field, op, y);
    OrderOperators(py, op);
    NumbersCompared(py, Get(event, field), y, x, z);
  }

  lemma NumbersCompared(py: Python, a: Value, b: Value, x: real, z: real)
    requires Reads(py, a, x) && Reads(py, b, z)
    ensures Compare(py, a, Gt, b) == (x > z) && Compare(py, a, Gte, b) == (x >= z)
    ensures Compare(py, a, Lt, b) == (x < z) && Compare(py, a, Lte, b) == (x <= z)
  {
  }

  /** Between texts that spell no numbers the order is that of the texts; a text is not ordered against
      a number, nor anything against a mapping. */
  lemma OtherOrders(py: Python, a: Value, b: Value)
    requires a.Str? && py.number(a.s).None?
    ensures b.Str? && py.number(b.s).None? ==>
      && (Compare(py, a, Gt, b) <==> TextBelow(b.s, a.s)) && (Compare(py, a, Gte, b) <==> a == b || TextBelow(b.s, a.s))
      && (Compare(py, a, Lt, b) <==> TextBelow(a.s, b.s)) && (Compare(py, a, Lte, b) <==> a == b || TextBelow(a.s, b.s))
    ensures b.Num? || b.Bool? || b.Dict? || b.Null? ==>
      !Compare(py, a, Gt, b) && !Compare(py, a, Gte, b) && !Compare(py, a, Lt, b) && !Compare(py, a, Lte, b)
  {
    if b.Str? {
      LessExactly(a.s, b.s);
      LessExactly(b.s, a.s);
      LessTotal(a.s, b.s);
    }
  }

  /** `field: y` and `field|neq: y`: the same number or the same text, and a value that is there. */
  lemma EqualityTests(py: Python, data: Value, rule: Rule, field: string, op: string, y: Value, event: Value)
    requires OneTest(py, data, rule, field + "|" + op, y) && Barless(field) && (y.Num? || y.Str?)
    ensures var v := Get(event, field);
      var same := v == y || (v.Bool? && y == Num(if v.b then 1.0 else 0.0));
      && (op == "" || !Known(py.lower(op)) ==> (Hits(py, rule, event) <==> LogsourceAgrees(py, data, event) && same))
      && (Spells(py, op, "neq") ==>
            (Hits(py, rule, event) <==> LogsourceAgrees(py, data, event) && !v.Null? && !same))
  {
    OneTestHits(py, data, rule, field + "|" + op, y, event);
    FromYamlReads(py, field, op, y);
    OtherOperators(py, op);
    Equality(py, op);
  }

  lemma PlainTest(py: Python, data: Value, rule: Rule, field: string, y: Value, event: Value)
    requires OneTest(py, data, rule, field, y) && Barless(field) && (y.Num? || y.Str?)
    ensures var v := Get(event, field);
      Hits(py, rule, event) <==>
        LogsourceAgrees(py, data, event) && (v == y || (v.Bool? && y == Num(if v.b then 1.0 else 0.0)))
  {
    OneTestHits(py, data, rule, field, y, event);
    FromYamlReads(py, field, "", y);
  }

  // Some text before and some text after.
  ghost predicate OccursIn(part: string, s: string) { exists a, b :: s == a + part + b }

  ghost predicate Begins(part: string, s: string) { exists b :: s == part + b }

  lemma SubstringExactly(part: string, s: string)
    ensures Substring(part, s) <==> OccursIn(part, s)
    ensures part <= s <==> Begins(part, s)
  {
    if i: nat :| i <= |s| && OccursAt(part, s, i) {
      assert s == s[..i] + part + s[i + |part|..];
    }
    if a, b :| s == a + part + b {
      assert OccursAt(part, s, |a|);
    }
    if part <= s { assert s == part + s[|part|..]; }
  }

  /** contains, startswith and exists, on the texts of the values in lower case. */
  lemma TextTests(py: Python, data: Value, rule: Rule, field: string, op: string, y: Value, event: Value)
    requires OneTest(py, data, rule, field + "|" + op, y) && Barless(field)
    ensures var v := Get(event, field);
      var part, text := py.lower(py.show(y)), py.lower(py.show(v));
      && (Spells(py, op, "contains") ==>
            (Hits(py, rule, event) <==> LogsourceAgrees(py, data, event) && !v.Null? && OccursIn(part, text)))
      && (Spells(py, op, "startswith") ==>
            (Hits(py, rule, event) <==> LogsourceAgrees(py, data, event) && !v.Null? && Begins(part, text)))
      && (Spells(py, op, "exists") ==>
            (Hits(py, rule, event) <==> LogsourceAgrees(py, data, event) && !v.Null?))
  {
    OneTestHits(py, data, rule, field + "|" + op, y, event);
    FromYamlReads(py, field, op, y);
    OtherOperators(py, op);
    TextsCompared(py, Get(event, field), y);
  }

  lemma TextsCompared(py: Python, v: Value, y: Value)
    ensures var part, text := py.lower(py.show(y)), py.lower(py.show(v));
      && (Compare(py, v, Contains, y) <==> !v.Null? && OccursIn(part, text))
      && (Compare(py, v, StartsWith, y) <==> !v.Null? && Begins(part, text))
      && (Compare(py, v, Exists, y) <==> !v.Null?)
  {
    SubstringExactly(py.lower(py.show(y)), py.lower(py.show(v)));
  }

  // ----- The selection and the condition -----

  predicate Supported(condition: Value) {
    condition.Str? && (condition.s == "selection" || condition.s == "all of them" || "1 of " <= condition.s)
  }

  /** Where a rule has its selection and its condition, what they default to, and when they are refused. */
  lemma DetectionExactly(data: Value, detection: Value, selection: Value, condition: Value)
    requires data.Dict? && detection == Lookup(data.entries, "detection")
    requires detection.Dict? ==>
      selection == Lookup(detection.entries, "selection") && condition == Lookup(detection.entries, "condition")
    ensures !Truthy(detection) ==> Detection(data) == Ok(([], "selection"))
    ensures Truthy(detection) && !detection.Dict? ==> Detection(data).Err?
    ensures Truthy(detection) && detection.Dict? ==>
      && (Detection(data).Ok? <==>
            (Truthy(selection) ==> selection.Dict?) && (Truthy(condition) ==> Supported(condition)))
      && (Detection(data).Ok? ==>
            && Detection(data).value.0 == (if Truthy(selection) then selection.entries else [])
            && Detection(data).value.1 == (if Truthy(condition) then condition.s else "selection"))
  {
    assert Lookup([], "selection").Null? && Lookup([], "condition").Null?;
  }

  // ----- The logsource -----

  /** A rule that states a product, or a service, misses every event that declares another one, and an
      event that declares nothing passes. */
  lemma LogsourceExactly(rule: Rule, event: Value)
    ensures LogsourceFits(rule, event) <==>
      && (rule.product == "" || !Truthy(Declared(event, "product")) || Declared(event, "product") == Str(rule.product))
      && (rule.service == "" || !Truthy(Declared(event, "service")) || Declared(event, "service") == Str(rule.service))
    ensures !Get(event, "logsource").Dict? ==> LogsourceFits(rule, event)
    ensures forall p: string | p != "" && Declared(event, "product") == Str(p) ::
      rule.product != p && rule.product != "" ==> !LogsourceFits(rule, event)
    ensures forall p: string | p != "" && Declared(event, "service") == Str(p) ::
      rule.service != p && rule.service != "" ==> !LogsourceFits(rule, event)
  {
  }

  // ----- The blocks of a pattern -----

  /** `1 of them` chooses every block, and `1 of prefix*` those whose name begins with the prefix. */
  lemma ChosenExactly(py: Python, condition: string, prefix: string, key: string)
    requires ONE_OF <= condition
    requires var pattern := condition[|ONE_OF|..];
      && pattern != "" && !py.space(pattern[0]) && !py.space(pattern[|pattern| - 1])
      && (pattern == "them" || (pattern == prefix + "*" && (prefix != "" ==> prefix[|prefix| - 1] != '*')))
    ensures Chosen(py, condition, key) <==> condition[|ONE_OF|..] == "them" || Begins(prefix, key)
  {
    var pattern := condition[|ONE_OF|..];
    SubstringExactly(prefix, key);
    if pattern != "them" {
      var stars := (c: char) => c == '*';
      assert pattern[..|pattern| - 1] == prefix;
      assert StripRight(pattern, stars) == StripRight(prefix, stars) == prefix;
    }
  }

  // ----- Captured fields -----

  // The block is the first that holds.
  predicate IsFirst(py: Python, blocks: seq<Block>, event: Value, i: nat) {
    i < |blocks| && BlockHolds(py, event, blocks[i]) && forall k | 0 <= k < i :: !BlockHolds(py, event, blocks[k])
  }

  lemma {:induction false} FirstHoldingIs(py: Python, blocks: seq<Block>, event: Value, i: nat)
    requires IsFirst(py, blocks, event, i)
    ensures FirstHolding(py, blocks, event) == blocks[i]
  {
    if i > 0 {
      assert !BlockHolds(py, event, blocks[0]);
      assert forall k | 0 <= k < |blocks[1..]| :: blocks[1..][k] == blocks[k + 1];
      FirstHoldingIs(py, blocks[1..], event, i - 1);
    }
  }

  predicate Tests(block: Block, path: string) { exists k | 0 <= k < |block| :: block[k].field == path }

  predicate AnyTests(blocks: seq<Block>, path: string) { exists i | 0 <= i < |blocks| :: Tests(blocks[i], path) }

  /** A hit reports the fields of the blocks that made it, and besides those of the rule's own fields
      that the event has. */
  lemma ReportedExactly(py: Python, rule: Rule, event: Value, path: string, i: nat)
    requires Hits(py, rule, event) && rule.predLists != []
    requires rule.mode.OneOf? ==> IsFirst(py, rule.predLists, event, i)
    ensures path in Reported(py, rule, event) <==>
      || (path in rule.detectionFields && !Get(event, path).Null?)
      || match rule.mode
         case OneOf => Tests(rule.predLists[i], path)
         case AllOf => AnyTests(rule.predLists, path)
         case Selection => Tests(rule.predLists[0], path)
  {
    var blocks := rule.predLists;
    if rule.mode.OneOf? { FirstHoldingIs(py, blocks, event, i); }
    forall k | 0 <= k < |blocks| ensures path in FieldsOf(blocks[k]) <==> Tests(blocks[k], path) {
      FieldsExactly(blocks[k], path);
    }
    if path in AllFields(blocks) {
      var block, p :| block in blocks && p in block && p.field == path;
      var k :| 0 <= k < |blocks| && blocks[k] == block;
      assert path in FieldsOf(blocks[k]);
    }
    if AnyTests(blocks, path) {
      var k :| 0 <= k < |blocks| && Tests(blocks[k], path);
      BlockFieldsRead(blocks, k);
    }
  }

  lemma FieldsExactly(block: Block, path: string)
    ensures path in FieldsOf(block) <==> Tests(block, path)
  {
    if path in FieldsOf(block) {
      var p :| p in block && p.field == path;
      var k :| 0 <= k < |block| && block[k] == p;
    }
  }

  /** The rule's own fields are those that its text lists: a single one, or several. */
  lemma OwnFieldsExactly(py: Python, data: Value, rule: Rule)
    requires Parse(py, data) == Ok(rule)
    ensures var v := Lookup(data.entries, "fields");
      && (v.Null? ==> rule.detectionFields == [])
      && (v.Str? && v.s != "" ==> rule.detectionFields == [py.show(v)])
      && (v.List? ==> |rule.detectionFields| == |v.items|)
      && (v.List? ==> forall i | 0 <= i < |v.items| :: rule.detectionFields[i] == py.show(v.items[i]))
  {
  }
}

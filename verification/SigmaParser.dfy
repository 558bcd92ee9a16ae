/** Parsing a Sigma rule (src/detection/sigma.py: parse_sigma_dict), and what the parsed rule means.

    Only the parts of a rule that decide matching are modelled: detection, fields and logsource. */
module SigmaParser {
  import opened Sigma

  type Entries = seq<(string, Value)>

  datatype Error =
    | NotAMapping            // the ValueErrors that the parser raises itself
    | UnsupportedCondition
    | NeedsNamedBlocks
    | MatchesNoSelections
    | NeedsBlocks
    | AttributeError         // a value without the method the parser calls
    | TypeError              // a value that cannot be iterated

  datatype Result<T> = Ok(value: T) | Err(error: Error)

  // ----- FieldPredicate.from_yaml -----

  // Where the first bar is, or the length if there is none.
  function FirstBar(raw: string): (i: nat)
    ensures i <= |raw| && (forall k | 0 <= k < i :: raw[k] != '|') && (i < |raw| ==> raw[i] == '|')
  {
    if raw == "" || raw[0] == '|' then 0 else 1 + FirstBar(raw[1..])
  }

  function ParseOperator(py: Python, raw: string): Operator {
    var op := py.lower(raw);
    if raw == "" then Eq
    else if op == "neq" then Neq
    else if op == "gt" then Gt
    else if op == "gte" then Gte
    else if op == "lt" then Lt
    else if op == "lte" then Lte
    else if op == "contains" then Contains
    else if op == "startswith" then StartsWith
    else if op == "exists" then Exists
    else Eq
  }

  function FromYaml(py: Python, raw: string, value: Value): FieldPredicate {
    var bar := FirstBar(raw);
    if bar < |raw| then FieldPredicate(raw[..bar], ParseOperator(py, raw[bar + 1..]), value)
    else FieldPredicate(raw, Eq, value)
  }

  /** A key is read as the field before its first bar and the operator after it. */
  lemma FromYamlReads(py: Python, field: string, op: string, value: Value)
    requires forall k | 0 <= k < |field| :: field[k] != '|'
    ensures FromYaml(py, field, value) == FieldPredicate(field, Eq, value)
    ensures FromYaml(py, field + "|" + op, value) == FieldPredicate(field, ParseOperator(py, op), value)
  {
    var raw := field + "|" + op;
    var bar := FirstBar(raw);
    assert raw[|field|] == '|';
    assert forall k | 0 <= k < |field| :: raw[k] == field[k];
    assert bar == |field|;
    assert raw[..bar] == field && raw[bar + 1..] == op;
  }

  // ----- parse_sigma_dict -----

  function BlockOf(py: Python, entries: Entries): Block {
    seq(|entries|, i requires 0 <= i < |entries| => FromYaml(py, entries[i].0, entries[i].1))
  }

  // `v or {}`
  function OrEmpty(v: Value): Value { if Truthy(v) then v else Dict([]) }

  predicate Named(selection: Entries) { forall i | 0 <= i < |selection| :: selection[i].1.Dict? }

  function SelectionBlocks(py: Python, selection: Entries): seq<Block> {
    if selection == [] then []
    else if Named(selection) then
      seq(|selection|, i requires 0 <= i < |selection| => BlockOf(py, selection[i].1.entries))
    else [BlockOf(py, selection)]
  }

  function StripLeft(s: string, strip: char -> bool): string {
    if s != "" && strip(s[0]) then StripLeft(s[1..], strip) else s
  }

  function StripRight(s: string, strip: char -> bool): string {
    if s != "" && strip(s[|s| - 1]) then StripRight(s[..|s| - 1], strip) else s
  }

  const ONE_OF := "1 of "

  const ALL_OF := "all of them"

  // The blocks that `1 of <pattern>` speaks of.
  predicate Chosen(py: Python, condition: string, key: string)
    requires ONE_OF <= condition
  {
    var pattern := StripRight(StripLeft(condition[|ONE_OF|..], py.space), py.space);
    pattern == "them" || StripRight(pattern, c => c == '*') <= key
  }

  function ChosenBlocks(py: Python, selection: Entries, condition: string): seq<Block>
    requires ONE_OF <= condition && Named(selection)
  {
    if selection == [] then []
    else
      var rest := ChosenBlocks(py, selection[1..], condition);
      if Chosen(py, condition, selection[0].0) then [BlockOf(py, selection[0].1.entries)] + rest else rest
  }

  function ParseBlocks(py: Python, selection: Entries, condition: string): Result<(Mode, seq<Block>)> {
    if condition == ALL_OF then
      var blocks := SelectionBlocks(py, selection);
      if blocks == [] then Err(NeedsBlocks) else Ok((AllOf, blocks))
    else if ONE_OF <= condition then
      if !Named(selection) then Err(NeedsNamedBlocks)
      else
        var blocks := ChosenBlocks(py, selection, condition);
        if blocks == [] then Err(MatchesNoSelections) else Ok((OneOf, blocks))
    else Ok((Selection, SelectionBlocks(py, selection)))
  }

  function ShowAll(py: Python, items: seq<Value>): seq<string> {
    seq(|items|, i requires 0 <= i < |items| => py.show(items[i]))
  }

  function ParseFields(py: Python, fields: Value): Result<seq<string>> {
    if !Truthy(fields) then Ok([])
    else match fields
      case Str(_) => Ok([py.show(fields)])
      case List(items) => Ok(ShowAll(py, items))
      case Dict(entries) => Ok(ShowAll(py, seq(|entries|, i requires 0 <= i < |entries| => Str(entries[i].0))))
      case _ => Err(TypeError)
  }

  // `str(logsource.get(key) or "")`
  function Stated(py: Python, logsource: Entries, key: string): string {
    var v := Lookup(logsource, key); if Truthy(v) then py.show(v) else ""
  }

  // The selection and condition of a rule, with the parser's defaults.
  function Detection(data: Value): Result<(Entries, string)> {
    if !data.Dict? then Err(NotAMapping)
    else
      var detection := OrEmpty(Lookup(data.entries, "detection"));
      if !detection.Dict? then Err(AttributeError)
      else
        var selection := OrEmpty(Lookup(detection.entries, "selection"));
        var stated := Lookup(detection.entries, "condition");
        var condition := if Truthy(stated) then stated else Str("selection");
        if !condition.Str? then Err(AttributeError)
        else if condition.s != "selection" && !(ONE_OF <= condition.s) && condition.s != ALL_OF then
          Err(UnsupportedCondition)
        else if !selection.Dict? then Err(AttributeError)
        else Ok((selection.entries, condition.s))
  }

  function Parse(py: Python, data: Value): Result<Rule> {
    match Detection(data)
    case Err(e) => Err(e)
    case Ok((selection, condition)) =>
      match ParseBlocks(py, selection, condition)
      case Err(e) => Err(e)
      case Ok((mode, blocks)) =>
        var logsource := OrEmpty(Lookup(data.entries, "logsource"));
        if !logsource.Dict? then Err(AttributeError)
        else
          match ParseFields(py, Lookup(data.entries, "fields"))
          case Err(e) => Err(e)
          case Ok(fields) => Ok(Rule(Stated(py, logsource.entries, "product"), Stated(py, logsource.entries, "service"),
                                     fields, if blocks != [] then blocks[0] else [], blocks, mode))
  }

  // ----- What a rule says, read off its text -----

  // Every test in a map of tests holds.
  predicate TestsHold(py: Python, event: Value, tests: Entries) {
    forall i | 0 <= i < |tests| :: Satisfies(py, event, FromYaml(py, tests[i].0, tests[i].1))
  }

  predicate ChosenHolds(py: Python, event: Value, condition: string, entry: (string, Value))
    requires ONE_OF <= condition && entry.1.Dict?
  {
    Chosen(py, condition, entry.0) && TestsHold(py, event, entry.1.entries)
  }

  predicate AnyChosenHolds(py: Python, event: Value, condition: string, selection: Entries)
    requires ONE_OF <= condition && Named(selection)
  {
    exists i | 0 <= i < |selection| :: ChosenHolds(py, event, condition, selection[i])
  }

  predicate SourceHolds(py: Python, selection: Entries, condition: string, event: Value) {
    if condition == ALL_OF then
      if Named(selection) then forall i | 0 <= i < |selection| :: TestsHold(py, event, selection[i].1.entries)
      else TestsHold(py, event, selection)
    else if ONE_OF <= condition then
      Named(selection) && AnyChosenHolds(py, event, condition, selection)
    else if selection != [] && Named(selection) then TestsHold(py, event, selection[0].1.entries)
    else TestsHold(py, event, selection)
  }

  // The tests of the first block the condition speaks of.
  function FirstTests(py: Python, selection: Entries, condition: string): Entries {
    if selection == [] then []
    else if !Named(selection) then selection
    else if condition == ALL_OF || !(ONE_OF <= condition) || Chosen(py, condition, selection[0].0) then
      selection[0].1.entries
    else FirstTests(py, selection[1..], condition)
  }

  predicate LogsourceAgrees(py: Python, data: Value, event: Value)
    requires data.Dict?
  {
    var logsource := OrEmpty(Lookup(data.entries, "logsource"));
    logsource.Dict?
    && Fits(Declared(event, "product"), Stated(py, logsource.entries, "product"))
    && Fits(Declared(event, "service"), Stated(py, logsource.entries, "service"))
  }

  lemma BlockMeaning(py: Python, tests: Entries, event: Value)
    ensures BlockHolds(py, event, BlockOf(py, tests)) <==> TestsHold(py, event, tests)
  {
    var block := BlockOf(py, tests);
    if BlockHolds(py, event, block) {
      forall i | 0 <= i < |tests| ensures Satisfies(py, event, FromYaml(py, tests[i].0, tests[i].1)) {
        assert Satisfies(py, event, block[i]);
      }
    }
  }

  predicate AnyBlockHolds(py: Python, event: Value, blocks: seq<Block>) {
    exists i | 0 <= i < |blocks| :: BlockHolds(py, event, blocks[i])
  }

  lemma AnyBlockCons(py: Python, event: Value, block: Block, rest: seq<Block>)
    ensures AnyBlockHolds(py, event, [block] + rest) <==> BlockHolds(py, event, block) || AnyBlockHolds(py, event, rest)
  {
    var all := [block] + rest;
    assert all[0] == block;
    assert forall i | 0 <= i < |rest| :: rest[i] == all[i + 1];
    assert forall i | 1 <= i < |all| :: all[i] == rest[i - 1];
  }

  lemma AnyChosenCons(py: Python, event: Value, condition: string, selection: Entries)
    requires ONE_OF <= condition && Named(selection) && selection != []
    ensures AnyChosenHolds(py, event, condition, selection) <==>
      ChosenHolds(py, event, condition, selection[0]) || AnyChosenHolds(py, event, condition, selection[1..])
  {
    assert forall i | 0 <= i < |selection[1..]| :: selection[1..][i] == selection[i + 1];
    assert forall i | 1 <= i < |selection| :: selection[i] == selection[1..][i - 1];
  }

  lemma NotBoth(condition: string)
    requires ONE_OF <= condition
    ensures condition != ALL_OF && condition != "selection"
  {
    assert condition[0] == ONE_OF[0] == '1' && ALL_OF[0] == 'a';
  }

  lemma {:induction false} ChosenMeaning(py: Python, selection: Entries, condition: string, event: Value)
    requires ONE_OF <= condition && Named(selection)
    ensures var blocks := ChosenBlocks(py, selection, condition);
      && (AnyBlockHolds(py, event, blocks) <==> AnyChosenHolds(py, event, condition, selection))
      && (blocks != [] ==> blocks[0] == BlockOf(py, FirstTests(py, selection, condition)))
  {
    NotBoth(condition);
    if selection != [] {
      ChosenMeaning(py, selection[1..], condition, event);
      AnyChosenCons(py, event, condition, selection);
      BlockMeaning(py, selection[0].1.entries, event);
      AnyBlockCons(py, event, BlockOf(py, selection[0].1.entries), ChosenBlocks(py, selection[1..], condition));
    }
  }

  lemma AllMeaning(py: Python, selection: Entries, event: Value)
    requires selection != [] && Named(selection)
    ensures var blocks := SelectionBlocks(py, selection);
      (forall i | 0 <= i < |blocks| :: BlockHolds(py, event, blocks[i])) <==>
      (forall i | 0 <= i < |selection| :: TestsHold(py, event, selection[i].1.entries))
  {
    var blocks := SelectionBlocks(py, selection);
    forall i | 0 <= i < |selection|
      ensures BlockHolds(py, event, blocks[i]) <==> TestsHold(py, event, selection[i].1.entries)
    {
      BlockMeaning(py, selection[i].1.entries, event);
    }
  }

  // The three conditions, for the blocks alone.
  lemma BlocksMeaning(py: Python, selection: Entries, condition: string, event: Value, rule: Rule)
    requires ParseBlocks(py, selection, condition) == Ok((rule.mode, rule.predLists))
    requires rule.selection == if rule.predLists != [] then rule.predLists[0] else []
    ensures rule.selection == BlockOf(py, FirstTests(py, selection, condition))
    ensures rule.selection != [] ==> (ConditionHolds(py, rule, event) <==> SourceHolds(py, selection, condition, event))
  {
    if ONE_OF <= condition {
      OneOfMeaning(py, selection, condition, event, rule);
    } else if condition == ALL_OF {
      if Named(selection) { AllMeaning(py, selection, event); } else { BlockMeaning(py, selection, event); }
    } else if selection != [] {
      BlockMeaning(py, if Named(selection) then selection[0].1.entries else selection, event);
    }
  }

  lemma OneOfMeaning(py: Python, selection: Entries, condition: string, event: Value, rule: Rule)
    requires ONE_OF <= condition && ParseBlocks(py, selection, condition) == Ok((rule.mode, rule.predLists))
    requires rule.selection == if rule.predLists != [] then rule.predLists[0] else []
    ensures rule.selection == BlockOf(py, FirstTests(py, selection, condition))
    ensures rule.selection != [] ==> (ConditionHolds(py, rule, event) <==> SourceHolds(py, selection, condition, event))
  {
    NotBoth(condition);
    ChosenMeaning(py, selection, condition, event);
    assert rule.mode == OneOf && rule.predLists == ChosenBlocks(py, selection, condition);
    assert Blocks(rule) == rule.predLists;
    if AnyBlockHolds(py, event, rule.predLists) {
      var i :| 0 <= i < |rule.predLists| && BlockHolds(py, event, rule.predLists[i]);
      assert ConditionHolds(py, rule, event);
    }
  }

  /** A parsed rule hits exactly the events that its text describes, as long as the first block the
      condition speaks of has a test; if it has none, the rule never hits. */
  lemma ParsingKeepsMeaning(py: Python, data: Value, rule: Rule, event: Value)
    requires Parse(py, data) == Ok(rule)
    ensures var (selection, condition) := Detection(data).value;
      Hits(py, rule, event) <==>
        FirstTests(py, selection, condition) != [] && LogsourceAgrees(py, data, event)
        && SourceHolds(py, selection, condition, event)
  {
    var (selection, condition) := Detection(data).value;
    BlocksMeaning(py, selection, condition, event, rule);
    assert LogsourceAgrees(py, data, event) == LogsourceFits(rule, event);
  }

  /** When a rule is accepted, and with which error it is refused. */
  lemma Accepts(py: Python, data: Value)
    ensures Parse(py, data).Ok? <==>
      && Detection(data).Ok?
      && var (selection, condition) := Detection(data).value;
      && (condition == ALL_OF ==> selection != [])
      && (ONE_OF <= condition ==>
        Named(selection) && exists i | 0 <= i < |selection| :: Chosen(py, condition, selection[i].0))
      && OrEmpty(Lookup(data.entries, "logsource")).Dict?
      && var fields := Lookup(data.entries, "fields");
      (Truthy(fields) ==> fields.Str? || fields.List? || fields.Dict?)
  {
    if Detection(data).Ok? {
      var (selection, condition) := Detection(data).value;
      if ONE_OF <= condition { NotBoth(condition); }
      if ONE_OF <= condition && Named(selection) { ChosenNonEmpty(py, selection, condition); }
    }
  }

  lemma {:induction false} ChosenNonEmpty(py: Python, selection: Entries, condition: string)
    requires ONE_OF <= condition && Named(selection)
    ensures ChosenBlocks(py, selection, condition) != [] <==>
      exists i | 0 <= i < |selection| :: Chosen(py, condition, selection[i].0)
  {
    if selection != [] {
      ChosenNonEmpty(py, selection[1..], condition);
      assert forall i | 0 <= i < |selection[1..]| :: selection[1..][i] == selection[i + 1];
      assert forall i | 1 <= i < |selection| :: selection[i] == selection[1..][i - 1];
    }
  }

  // ----- Where the parsed rule says less than its text -----

  /** Under `1 of`, a first block without tests holds of every event, so that the text describes every
      event with a fitting logsource: the parsed rule says what the text says about all events exactly
      when its first block has a test. */
  lemma OneOfKeepsMeaningIff(py: Python, data: Value, rule: Rule)
    requires Parse(py, data) == Ok(rule) && rule.mode.OneOf?
    ensures var (selection, condition) := Detection(data).value;
      (forall event :: Hits(py, rule, event)
        <==> LogsourceAgrees(py, data, event) && SourceHolds(py, selection, condition, event))
      <==> FirstTests(py, selection, condition) != []
  {
    var (selection, condition) := Detection(data).value;
    forall event
      ensures Hits(py, rule, event) <==>
        FirstTests(py, selection, condition) != [] && LogsourceAgrees(py, data, event)
        && SourceHolds(py, selection, condition, event)
    {
      ParsingKeepsMeaning(py, data, rule, event);
    }
    if FirstTests(py, selection, condition) == [] {
      var event := Dict([]);
      ChosenNonEmpty(py, selection, condition);
      FirstChosen(py, selection, condition);
      assert SourceHolds(py, selection, condition, event);
      assert Declared(event, "product").Null? && Declared(event, "service").Null?;
      assert LogsourceAgrees(py, data, event) && !Hits(py, rule, event);
    }
  }

  lemma {:induction false} FirstChosen(py: Python, selection: Entries, condition: string)
    requires ONE_OF <= condition && Named(selection)
    requires exists i | 0 <= i < |selection| :: Chosen(py, condition, selection[i].0)
    ensures exists i | 0 <= i < |selection| ::
      Chosen(py, condition, selection[i].0) && selection[i].1.entries == FirstTests(py, selection, condition)
  {
    NotBoth(condition);
    if !Chosen(py, condition, selection[0].0) {
      assert forall i | 1 <= i < |selection| :: selection[i] == selection[1..][i - 1];
      FirstChosen(py, selection[1..], condition);
      var k :| 0 <= k < |selection[1..]| && Chosen(py, condition, selection[1..][k].0)
        && selection[1..][k].1.entries == FirstTests(py, selection[1..], condition);
      assert selection[k + 1] == selection[1..][k];
    } else {
      assert selection[0].1.entries == FirstTests(py, selection, condition);
    }
  }

  predicate LaterFails(py: Python, event: Value, selection: Entries)
    requires Named(selection)
  {
    exists i | 1 <= i < |selection| :: !TestsHold(py, event, selection[i].1.entries)
  }

  // The reading that every named block must hold, and the one that only the first counts.
  lemma TwoReadings(py: Python, selection: Entries, event: Value)
    requires selection != [] && Named(selection)
    ensures SourceHolds(py, selection, "selection", event) <==> TestsHold(py, event, selection[0].1.entries)
    ensures SourceHolds(py, selection, ALL_OF, event)
      <==> TestsHold(py, event, selection[0].1.entries) && !LaterFails(py, event, selection)
  {
    assert "selection"[0] == 's' && ONE_OF[0] == '1' && ALL_OF[0] == 'a';
    if SourceHolds(py, selection, ALL_OF, event) {
      assert TestsHold(py, event, selection[0].1.entries);
    }
  }

  /** Under `selection`, of several named blocks only the first counts. Compared with the reading that
      all of them must hold, the rule hits too much at exactly the events that fit the first block and
      fail a later one, and never too little. */
  lemma LaterBlocksIgnored(py: Python, data: Value, rule: Rule, selection: Entries, event: Value)
    requires Parse(py, data) == Ok(rule) && Detection(data) == Ok((selection, "selection"))
    requires selection != [] && Named(selection) && selection[0].1.entries != []
    ensures var fits := LogsourceAgrees(py, data, event) && TestsHold(py, event, selection[0].1.entries);
      var all := LogsourceAgrees(py, data, event) && SourceHolds(py, selection, ALL_OF, event);
      && (all ==> Hits(py, rule, event))
      && (Hits(py, rule, event) && !all <==> fits && LaterFails(py, event, selection))
  {
    ParsingKeepsMeaning(py, data, rule, event);
    FirstOfSelection(py, selection);
    TwoReadings(py, selection, event);
  }

  lemma FirstOfSelection(py: Python, selection: Entries)
    requires selection != [] && Named(selection)
    ensures FirstTests(py, selection, "selection") == selection[0].1.entries
  {
    assert "selection"[0] == 's' && ONE_OF[0] == '1';
  }

  lemma EmptyThenTests(py: Python, selection: Entries, tests: Entries, event: Value)
    requires |selection| == 2 && selection[0].1 == Dict([]) && selection[1].1 == Dict(tests)
    ensures Named(selection)
    ensures SourceHolds(py, selection, ALL_OF, event) <==> TestsHold(py, event, tests)
    ensures FirstTests(py, selection, ALL_OF) == []
  {
    if TestsHold(py, event, tests) {
      forall i | 0 <= i < |selection| ensures TestsHold(py, event, selection[i].1.entries) {
        if i == 1 { assert selection[i].1.entries == tests; }
      }
    } else {
      assert !TestsHold(py, event, selection[1].1.entries);
    }
  }

  /** Under `all of them` an empty first block silences the tests of the second. */
  lemma EmptyBlockSilences(py: Python, data: Value, rule: Rule, selection: Entries, tests: Entries, event: Value)
    requires Parse(py, data) == Ok(rule) && Detection(data) == Ok((selection, ALL_OF))
    requires |selection| == 2 && selection[0].1 == Dict([]) && selection[1].1 == Dict(tests)
    ensures SourceHolds(py, selection, ALL_OF, event) <==> TestsHold(py, event, tests)
    ensures !Hits(py, rule, event)
  {
    EmptyThenTests(py, selection, tests, event);
    ParsingKeepsMeaning(py, data, rule, event);
  }
}

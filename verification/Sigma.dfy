/** Matching an event against a parsed Sigma rule (src/detection/sigma.py). */
module Sigma {
  import opened Options
  import opened KeyOrder

  // What YAML and JSON documents decode to. A Python dict keeps its order and has distinct string keys.
  datatype Value =
    | Null
    | Bool(b: bool)
    | Num(n: real)
    | Str(s: string)
    | List(items: seq<Value>)
    | Dict(entries: seq<(string, Value)>)

  predicate Truthy(v: Value) {
    match v
    case Null => false
    case Bool(b) => b
    case Num(n) => n != 0.0
    case Str(s) => s != ""
    case List(items) => items != []
    case Dict(entries) => entries != []
  }

  // dict.get
  function Lookup(entries: seq<(string, Value)>, key: string): Value {
    if entries == [] then Null else if entries[0].0 == key then entries[0].1 else Lookup(entries[1..], key)
  }

  // str.split at one character; the result is never empty.
  function Split(s: string, at: char): (parts: seq<string>)
    ensures parts != []
  {
    if s == "" then [""]
    else if s[0] == at then [""] + Split(s[1..], at)
    else var rest := Split(s[1..], at); [[s[0]] + rest[0]] + rest[1..]
  }

  function Descend(node: Value, parts: seq<string>): Value
    decreases |parts|
  {
    if parts == [] then node
    else if !node.Dict? then Null
    else var child := Lookup(node.entries, parts[0]); if child.Null? then Null else Descend(child, parts[1..])
  }

  // The value an event has at a dotted path; Null for none.
  function Get(event: Value, path: string): Value { Descend(event, Split(path, '.')) }

  method EventGet(event: Value, path: string) returns (v: Value)
    ensures v == Get(event, path)
  {
    var parts := Split(path, '.');
    v := event;
    for i := 0 to |parts|
      invariant Descend(v, parts[i..]) == Get(event, path)
    {
      if !v.Dict? { return Null; }
      v := Lookup(v.entries, parts[i]);
      if v.Null? { return Null; }
    }
  }

  // ----- Predicates on a field -----

  datatype Operator = Eq | Neq | Gt | Gte | Lt | Lte | Contains | StartsWith | Exists

  datatype Order = Less | Equal | Greater | Incomparable

  // Python's own operations: the number that _coerce reads in a string, if it reads one, str(),
  // str.lower() and str.isspace().
  datatype Python = Python(
    number: string -> Option<real>,
    show: Value -> string,
    lower: string -> string,
    space: char -> bool)

  // True and False are the integers 1 and 0.
  predicate IsNumber(v: Value) { v.Bool? || v.Num? }

  function NumberOf(v: Value): real
    requires IsNumber(v)
  {
    match v
    case Bool(b) => if b then 1.0 else 0.0
    case Num(n) => n
  }

  predicate HasKey(entries: seq<(string, Value)>, key: string) {
    exists i | 0 <= i < |entries| :: entries[i].0 == key
  }

  // Python's ==; dicts are compared without regard to order.
  predicate Equals(a: Value, b: Value)
    decreases a
  {
    match a
    case Null => b.Null?
    case Str(s) => b == a
    case List(items) => b.List? && |b.items| == |items| && forall i | 0 <= i < |items| :: Equals(items[i], b.items[i])
    case Dict(entries) =>
      b.Dict? && |b.entries| == |entries|
      && forall i | 0 <= i < |entries| ::
           HasKey(b.entries, entries[i].0) && Equals(entries[i].1, Lookup(b.entries, entries[i].0))
    case _ => IsNumber(b) && NumberOf(a) == NumberOf(b)
  }

  // Strings by code point.
  function TextOrder(a: string, b: string): Order {
    if a == b then Equal else if StrLess(a, b) then Less else Greater
  }

  // Python's ordering; Incomparable is a TypeError.
  function ValueOrder(a: Value, b: Value): Order
    decreases a, 1
  {
    if IsNumber(a) && IsNumber(b) then
      if NumberOf(a) < NumberOf(b) then Less else if NumberOf(a) > NumberOf(b) then Greater else Equal
    else if a.Str? && b.Str? then TextOrder(a.s, b.s)
    else if a.List? && b.List? then ListOrder(a.items, b.items)
    else Incomparable
  }

  // The first items that differ decide.
  function ListOrder(a: seq<Value>, b: seq<Value>): Order
    decreases a, 0
  {
    if a == [] || b == [] then if b != [] then Less else if a != [] then Greater else Equal
    else if Equals(a[0], b[0]) then ListOrder(a[1..], b[1..])
    else ValueOrder(a[0], b[0])
  }

  function Coerce(py: Python, v: Value): Value {
    if v.Str? && py.number(v.s).Some? then Num(py.number(v.s).value) else v
  }

  predicate OccursAt(part: string, s: string, i: nat) { i + |part| <= |s| && s[i..i + |part|] == part }

  predicate Substring(part: string, s: string) { exists i: nat | i <= |s| :: OccursAt(part, s, i) }

  predicate Compare(py: Python, actual: Value, op: Operator, expected: Value) {
    !actual.Null? &&
    var order := ValueOrder(Coerce(py, actual), Coerce(py, expected));
    match op
    case Eq => Equals(actual, expected)
    case Neq => !Equals(actual, expected)
    case Gt => order.Greater?
    case Gte => order.Greater? || order.Equal?
    case Lt => order.Less?
    case Lte => order.Less? || order.Equal?
    case Contains => Substring(py.lower(py.show(expected)), py.lower(py.show(actual)))
    case StartsWith => py.lower(py.show(expected)) <= py.lower(py.show(actual))
    case Exists => true
  }

  datatype FieldPredicate = FieldPredicate(field: string, op: Operator, value: Value)

  type Block = seq<FieldPredicate>

  datatype Mode = Selection | OneOf | AllOf

  datatype Rule = Rule(
    product: string, service: string, detectionFields: seq<string>, selection: Block, predLists: seq<Block>, mode: Mode)

  // ----- What a match is -----

  predicate Satisfies(py: Python, event: Value, p: FieldPredicate) {
    Compare(py, Get(event, p.field), p.op, p.value)
  }

  predicate BlockHolds(py: Python, event: Value, block: Block) {
    forall i | 0 <= i < |block| :: Satisfies(py, event, block[i])
  }

  // An event that does not declare the product or service fits any rule.
  predicate Fits(declared: Value, wanted: string) { wanted == "" || !Truthy(declared) || declared == Str(wanted) }

  function Declared(event: Value, key: string): Value {
    var source := Get(event, "logsource"); if source.Dict? then Lookup(source.entries, key) else Null
  }

  predicate LogsourceFits(rule: Rule, event: Value) {
    Fits(Declared(event, "product"), rule.product) && Fits(Declared(event, "service"), rule.service)
  }

  function Blocks(rule: Rule): seq<Block> {
    if rule.predLists != [] then rule.predLists else if rule.selection != [] then [rule.selection] else []
  }

  predicate ConditionHolds(py: Python, rule: Rule, event: Value) {
    var blocks := Blocks(rule);
    match rule.mode
    case OneOf => exists i | 0 <= i < |blocks| :: BlockHolds(py, event, blocks[i])
    case AllOf => forall i | 0 <= i < |blocks| :: BlockHolds(py, event, blocks[i])
    case Selection => BlockHolds(py, event, if blocks != [] then blocks[0] else rule.selection)
  }

  predicate Hits(py: Python, rule: Rule, event: Value) {
    rule.selection != [] && LogsourceFits(rule, event) && ConditionHolds(py, rule, event)
  }

  function FieldsOf(block: Block): set<string> { set p | p in block :: p.field }

  function AllFields(blocks: seq<Block>): set<string> { set block, p | block in blocks && p in block :: p.field }

  function FirstHolding(py: Python, blocks: seq<Block>, event: Value): Block {
    if blocks == [] then []
    else if BlockHolds(py, event, blocks[0]) then blocks[0]
    else FirstHolding(py, blocks[1..], event)
  }

  function Present(paths: seq<string>, event: Value): set<string> { set p | p in paths && !Get(event, p).Null? }

  // The fields of the blocks that made the hit.
  function Selected(py: Python, rule: Rule, event: Value): set<string> {
    var blocks := Blocks(rule);
    match rule.mode
    case OneOf => FieldsOf(FirstHolding(py, blocks, event))
    case AllOf => AllFields(blocks)
    case Selection => FieldsOf(if blocks != [] then blocks[0] else rule.selection)
  }

  // The paths that a hit reports.
  function Reported(py: Python, rule: Rule, event: Value): set<string> {
    Selected(py, rule, event) + Present(rule.detectionFields, event)
  }

  // Every captured value is the event's own at that path.
  function Capture(paths: set<string>, event: Value): map<string, Value> { map p | p in paths :: Get(event, p) }

  lemma CaptureUnion(a: set<string>, b: set<string>, event: Value)
    ensures Capture(a, event) + Capture(b, event) == Capture(a + b, event)
  {
  }

  lemma CapturePut(a: set<string>, p: string, event: Value)
    ensures Capture(a, event)[p := Get(event, p)] == Capture(a + {p}, event)
  {
  }

  // ----- _block_matches, matches, _finish_match -----

  method BlockMatches(py: Python, event: Value, block: Block) returns (r: Option<map<string, Value>>)
    ensures r.Some? <==> BlockHolds(py, event, block)
    ensures r.Some? ==> r.value == Capture(FieldsOf(block), event)
  {
    var matched := map[];
    for i := 0 to |block|
      invariant BlockHolds(py, event, block[..i])
      invariant matched == Capture(FieldsOf(block[..i]), event)
    {
      var actual := EventGet(event, block[i].field);
      if !Compare(py, actual, block[i].op, block[i].value) {
        assert !Satisfies(py, event, block[i]);
        return None;
      }
      FieldsGrow(block, i);
      CapturePut(FieldsOf(block[..i]), block[i].field, event);
      assert block[..i + 1] == block[..i] + [block[i]];
      matched := matched[block[i].field := actual];
    }
    assert block[..|block|] == block;
    return Some(matched);
  }

  lemma FieldsGrow(block: Block, i: nat)
    requires i < |block|
    ensures FieldsOf(block[..i + 1]) == FieldsOf(block[..i]) + {block[i].field}
  {
    assert block[..i + 1] == block[..i] + [block[i]];
  }

  lemma AllFieldsGrow(blocks: seq<Block>, i: nat)
    requires i < |blocks|
    ensures AllFields(blocks[..i + 1]) == AllFields(blocks[..i]) + FieldsOf(blocks[i])
  {
    assert blocks[..i + 1] == blocks[..i] + [blocks[i]];
  }

  lemma PresentGrows(paths: seq<string>, i: nat, event: Value)
    requires i < |paths|
    ensures Present(paths[..i + 1], event) ==
      if Get(event, paths[i]).Null? then Present(paths[..i], event) else Present(paths[..i], event) + {paths[i]}
  {
    assert paths[..i + 1] == paths[..i] + [paths[i]];
  }

  method FinishMatch(rule: Rule, event: Value, matched: map<string, Value>) returns (hit: bool, all: map<string, Value>)
    requires matched == Capture(matched.Keys, event)
    ensures hit && all == Capture(matched.Keys + Present(rule.detectionFields, event), event)
  {
    all := matched;
    var paths := rule.detectionFields;
    assert matched.Keys + Present(paths[..0], event) == matched.Keys;
    for i := 0 to |paths|
      invariant all == Capture(matched.Keys + Present(paths[..i], event), event)
    {
      var val := EventGet(event, paths[i]);
      PresentGrows(paths, i, event);
      CapturePut(matched.Keys + Present(paths[..i], event), paths[i], event);
      assert matched.Keys + Present(paths[..i], event) + {paths[i]}
          == matched.Keys + (Present(paths[..i], event) + {paths[i]});
      if !val.Null? && paths[i] !in all { all := all[paths[i] := val]; }
    }
    assert paths[..|paths|] == paths;
    return true, all;
  }

  method FindBlock(py: Python, blocks: seq<Block>, event: Value) returns (r: Option<map<string, Value>>)
    ensures r.Some? <==> exists i | 0 <= i < |blocks| :: BlockHolds(py, event, blocks[i])
    ensures r.Some? ==> r.value == Capture(FieldsOf(FirstHolding(py, blocks, event)), event)
  {
    for i := 0 to |blocks|
      invariant forall k | 0 <= k < i :: !BlockHolds(py, event, blocks[k])
      invariant FirstHolding(py, blocks[i..], event) == FirstHolding(py, blocks, event)
    {
      r := BlockMatches(py, event, blocks[i]);
      if r.Some? { return r; }
    }
    return None;
  }

  method MergeBlocks(py: Python, blocks: seq<Block>, event: Value) returns (r: Option<map<string, Value>>)
    ensures r.Some? <==> forall i | 0 <= i < |blocks| :: BlockHolds(py, event, blocks[i])
    ensures r.Some? ==> r.value == Capture(AllFields(blocks), event)
  {
    var merged := map[];
    for i := 0 to |blocks|
      invariant forall k | 0 <= k < i :: BlockHolds(py, event, blocks[k])
      invariant merged == Capture(AllFields(blocks[..i]), event)
    {
      var matched := BlockMatches(py, event, blocks[i]);
      if matched.None? { return None; }
      AllFieldsGrow(blocks, i);
      CaptureUnion(AllFields(blocks[..i]), FieldsOf(blocks[i]), event);
      merged := merged + matched.value;
    }
    assert blocks[..|blocks|] == blocks;
    return Some(merged);
  }

  method CheckLogsource(rule: Rule, event: Value) returns (fits: bool)
    ensures fits == LogsourceFits(rule, event)
  {
    var source := EventGet(event, "logsource");
    if rule.product != "" {
      var declared := if source.Dict? then Lookup(source.entries, "product") else Null;
      if Truthy(declared) && declared != Str(rule.product) { return false; }
    }
    if rule.service != "" {
      var declared := if source.Dict? then Lookup(source.entries, "service") else Null;
      if Truthy(declared) && declared != Str(rule.service) { return false; }
    }
    return true;
  }

  method MatchBlocks(py: Python, rule: Rule, event: Value) returns (r: Option<map<string, Value>>)
    ensures r.Some? <==> ConditionHolds(py, rule, event)
    ensures r.Some? ==> r.value == Capture(Selected(py, rule, event), event)
  {
    var blocks := Blocks(rule);
    match rule.mode {
      case OneOf => r := FindBlock(py, blocks, event);
      case AllOf => r := MergeBlocks(py, blocks, event);
      case Selection => r := BlockMatches(py, event, if blocks != [] then blocks[0] else rule.selection);
    }
  }

  /** matches: whether the rule hits, and the fields it captured. */
  method Matches(py: Python, rule: Rule, event: Value) returns (hit: bool, captured: map<string, Value>)
    ensures hit == Hits(py, rule, event)
    ensures captured == if hit then Capture(Reported(py, rule, event), event) else map[]
  {
    if rule.selection == [] { return false, map[]; }
    var fits := CheckLogsource(rule, event);
    if !fits { return false, map[]; }
    var matched := MatchBlocks(py, rule, event);
    if matched.None? { return false, map[]; }
    assert matched.value.Keys == Selected(py, rule, event);
    hit, captured := FinishMatch(rule, event, matched.value);
  }

  // ----- Monotone in the event -----

  // The paths whose values decide whether the rule hits.
  function Read(rule: Rule): set<string> { AllFields(Blocks(rule)) }

  // later still has what earlier has at the given paths, and declares the same logsource.
  predicate Extends(later: Value, earlier: Value, paths: set<string>) {
    && (forall p | p in paths :: !Get(earlier, p).Null? ==> Get(later, p) == Get(earlier, p))
    && Get(later, "logsource") == Get(earlier, "logsource")
  }

  lemma BlockKept(py: Python, block: Block, earlier: Value, later: Value, paths: set<string>)
    requires BlockHolds(py, earlier, block) && Extends(later, earlier, paths) && FieldsOf(block) <= paths
    ensures BlockHolds(py, later, block)
  {
    forall i | 0 <= i < |block| ensures Satisfies(py, later, block[i]) {
      assert Satisfies(py, earlier, block[i]);
      assert block[i].field in FieldsOf(block);
    }
  }

  lemma BlockFieldsRead(blocks: seq<Block>, i: nat)
    requires i < |blocks|
    ensures FieldsOf(blocks[i]) <= AllFields(blocks)
  {
    forall f | f in FieldsOf(blocks[i]) ensures f in AllFields(blocks) {
      var p :| p in blocks[i] && p.field == f;
      assert blocks[i] in blocks;
    }
  }

  /** Adding to an event, without changing the logsource or any value the rule has found, never turns
      a hit into a miss; except under `1 of`, where another block may come to be the first that
      holds, what was captured stays captured. */
  lemma HitsAreMonotone(py: Python, rule: Rule, earlier: Value, later: Value)
    requires Hits(py, rule, earlier) && Extends(later, earlier, Read(rule))
    ensures Hits(py, rule, later)
    ensures !rule.mode.OneOf? && Extends(later, earlier, Reported(py, rule, earlier)) ==>
      forall p | p in Reported(py, rule, earlier) ::
        p in Reported(py, rule, later) && Get(later, p) == Get(earlier, p)
  {
    var blocks := Blocks(rule);
    assert blocks != [];
    forall i | 0 <= i < |blocks| && BlockHolds(py, earlier, blocks[i])
      ensures BlockHolds(py, later, blocks[i])
    {
      BlockFieldsRead(blocks, i);
      BlockKept(py, blocks[i], earlier, later, Read(rule));
    }
    if !rule.mode.OneOf? && Extends(later, earlier, Reported(py, rule, earlier)) {
      forall p | p in Reported(py, rule, earlier)
        ensures p in Reported(py, rule, later) && Get(later, p) == Get(earlier, p)
      {
        ReportedIsPresent(py, rule, earlier, p);
      }
    }
  }

  // A hit reports no path at which the event has nothing.
  lemma ReportedIsPresent(py: Python, rule: Rule, event: Value, p: string)
    requires Hits(py, rule, event) && p in Reported(py, rule, event)
    ensures !Get(event, p).Null?
  {
    var blocks := Blocks(rule);
    if p !in Present(rule.detectionFields, event) {
      match rule.mode {
        case OneOf =>
          FirstHoldingHolds(py, blocks, event);
          HeldFieldPresent(py, FirstHolding(py, blocks, event), event, p);
        case AllOf =>
          var block, q :| block in blocks && q in block && q.field == p;
          HeldFieldPresent(py, block, event, p);
        case Selection => HeldFieldPresent(py, blocks[0], event, p);
      }
    }
  }

  lemma HeldFieldPresent(py: Python, block: Block, event: Value, p: string)
    requires BlockHolds(py, event, block) && p in FieldsOf(block)
    ensures !Get(event, p).Null?
  {
    var i :| 0 <= i < |block| && block[i].field == p;
    assert Satisfies(py, event, block[i]);
  }

  lemma {:induction false} FirstHoldingHolds(py: Python, blocks: seq<Block>, event: Value)
    ensures BlockHolds(py, event, FirstHolding(py, blocks, event))
  {
    if blocks != [] { FirstHoldingHolds(py, blocks[1..], event); }
  }

  lemma {:induction false} LookupAppend(a: seq<(string, Value)>, b: seq<(string, Value)>, key: string)
    ensures Lookup(a + b, key) == if exists i | 0 <= i < |a| :: a[i].0 == key then Lookup(a, key) else Lookup(b, key)
  {
    if a == [] {
      assert a + b == b;
    } else {
      assert (a + b)[1..] == a[1..] + b;
      LookupAppend(a[1..], b, key);
      assert forall i | 0 <= i < |a[1..]| :: a[1..][i] == a[i + 1];
      assert forall i | 1 <= i < |a| :: a[i] == a[1..][i - 1];
    }
  }

  lemma {:induction false} LookupMisses(a: seq<(string, Value)>, key: string)
    requires forall i | 0 <= i < |a| :: a[i].0 != key
    ensures Lookup(a, key).Null?
  {
    if a != [] { LookupMisses(a[1..], key); }
  }

  /** New keys, other than logsource, may be added to an event: every rule that hit still hits. */
  lemma NewKeysKeepHits(py: Python, rule: Rule, event: Value, more: seq<(string, Value)>)
    requires event.Dict? && Hits(py, rule, event)
    requires forall i | 0 <= i < |more| :: more[i].0 != "logsource"
    ensures Hits(py, rule, Dict(event.entries + more))
  {
    var later := Dict(event.entries + more);
    forall p | p in Read(rule) ensures !Get(event, p).Null? ==> Get(later, p) == Get(event, p) {
      if !Get(event, p).Null? { NewKeysKeepLookup(event.entries, more, p); }
    }
    LogsourceKept(event.entries, more);
    assert Extends(later, event, Read(rule));
    HitsAreMonotone(py, rule, event, later);
  }

  lemma LogsourceKept(entries: seq<(string, Value)>, more: seq<(string, Value)>)
    requires forall i | 0 <= i < |more| :: more[i].0 != "logsource"
    ensures Get(Dict(entries + more), "logsource") == Get(Dict(entries), "logsource")
  {
    OtherKeysKeepLookup(entries, more, "logsource");
  }

  lemma OtherKeysKeepLookup(entries: seq<(string, Value)>, more: seq<(string, Value)>, key: string)
    requires forall i | 0 <= i < |more| :: more[i].0 != key
    requires forall i | 0 <= i < |key| :: key[i] != '.'
    ensures Get(Dict(entries + more), key) == Get(Dict(entries), key)
  {
    SplitNothing(key, '.');
    LookupAppend(entries, more, key);
    LookupMisses(more, key);
    if forall i | 0 <= i < |entries| :: entries[i].0 != key {
      LookupMisses(entries, key);
    }
  }

  lemma NewKeysKeepLookup(entries: seq<(string, Value)>, more: seq<(string, Value)>, p: string)
    requires !Get(Dict(entries), p).Null?
    ensures Get(Dict(entries + more), p) == Get(Dict(entries), p)
  {
    var key := Split(p, '.')[0];
    LookupAppend(entries, more, key);
    if forall i | 0 <= i < |entries| :: entries[i].0 != key {
      LookupMisses(entries, key);
    }
  }

  lemma {:induction false} SplitNothing(s: string, at: char)
    requires forall i | 0 <= i < |s| :: s[i] != at
    ensures Split(s, at) == [s]
  {
    if s != "" {
      SplitNothing(s[1..], at);
      assert [s[0]] + s[1..] == s;
    }
  }

  // ----- The order of blocks under `all of them` -----

  lemma SameMembers(a: seq<Block>, b: seq<Block>)
    requires multiset(a) == multiset(b)
    ensures forall block: Block :: block in a <==> block in b
    ensures AllFields(a) == AllFields(b)
  {
    forall block: Block ensures block in a <==> block in b {
      assert block in multiset(a) <==> block in multiset(b);
    }
  }

  /** Rules that differ in the order of their blocks only capture the same fields, and disagree on an
      event exactly when one of them begins with an empty block, the other does not, and the event
      satisfies all the blocks. */
  lemma BlockOrder(py: Python, a: Rule, b: Rule, event: Value)
    requires a.mode.AllOf? && b == a.(selection := b.selection, predLists := b.predLists)
    requires multiset(a.predLists) == multiset(b.predLists) && a.predLists != [] && b.predLists != []
    requires a.selection == a.predLists[0] && b.selection == b.predLists[0]
    ensures Reported(py, a, event) == Reported(py, b, event)
    ensures Hits(py, a, event) == Hits(py, b, event) <==>
      ((a.selection == []) == (b.selection == []) || !LogsourceFits(a, event) || !ConditionHolds(py, a, event))
  {
    SameMembers(a.predLists, b.predLists);
    assert Blocks(a) == a.predLists && Blocks(b) == b.predLists;
    if ConditionHolds(py, a, event) { AllTransfer(py, a.predLists, b.predLists, event); }
    if ConditionHolds(py, b, event) { AllTransfer(py, b.predLists, a.predLists, event); }
  }

  lemma AllTransfer(py: Python, a: seq<Block>, b: seq<Block>, event: Value)
    requires (forall block: Block :: block in b ==> block in a)
    requires forall i | 0 <= i < |a| :: BlockHolds(py, event, a[i])
    ensures forall i | 0 <= i < |b| :: BlockHolds(py, event, b[i])
  {
    forall i | 0 <= i < |b| ensures BlockHolds(py, event, b[i]) {
      assert b[i] in b;
      var k :| 0 <= k < |a| && a[k] == b[i];
    }
  }
}

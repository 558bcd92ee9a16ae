/** Matching collected items against vulnerability rules (agent/internal/scan/matcher.go).

    Checks of configuration files rest on regular expressions; their outcome is the parameter
    `config`. */
module Matcher {
  import opened Options
  import opened PaddedOrder
  import opened VersionOrder

  datatype Item = Item(category: string, kind: string, data: map<string, string>)

  datatype RuleCheck = RuleCheck(kind: string, name: string, op: string, value: string, file: string,
      pattern: string, expected: string)

  datatype Rule = Rule(id: string, category: string, cve: string, name: string, severity: string, check: RuleCheck,
      fix: string)

  datatype Finding = Finding(category: string, cve: string, name: string, severity: string, evidence: string,
      fix: string)

  type ConfigCheck = (Rule, Item) -> Option<Finding>

  // Reading a Go map: a missing key yields "".
  function Field(item: Item, key: string): string { if key in item.data then item.data[key] else "" }

  // strings.Contains
  predicate Contains(s: string, sub: string) {
    (|sub| <= |s| && s[..|sub|] == sub) || (s != "" && Contains(s[1..], sub))
  }

  datatype Relation = Lt | Le | Gt | Ge | Eq | Ne

  function RelationOf(op: string): Option<Relation> {
    match op
    case "<" => Some(Lt)
    case "lt" => Some(Lt)
    case "<=" => Some(Le)
    case "le" => Some(Le)
    case ">" => Some(Gt)
    case "gt" => Some(Gt)
    case ">=" => Some(Ge)
    case "ge" => Some(Ge)
    case "=" => Some(Eq)
    case "==" => Some(Eq)
    case "eq" => Some(Eq)
    case "!=" => Some(Ne)
    case "ne" => Some(Ne)
    case _ => None
  }

  predicate Holds(a: string, rel: Relation, b: string) { Allows(rel, CompareVersions(a, b)) }

  predicate Allows(rel: Relation, c: int) {
    match rel
    case Lt => c < 0
    case Le => c <= 0
    case Gt => c > 0
    case Ge => c >= 0
    case Eq => c == 0
    case Ne => c != 0
  }

  // An unknown operator never matches.
  function VersionCompare(v1: string, op: string, v2: string): bool {
    match RelationOf(op)
    case None => false
    case Some(rel) => Holds(v1, rel, v2)
  }

  function Report(rule: Rule, evidence: string): Finding {
    Finding(rule.category, rule.cve, rule.name, rule.severity, evidence, rule.fix)
  }

  function MatchPackageVersion(rule: Rule, item: Item): Option<Finding> {
    var name, version := Field(item, "name"), Field(item, "version");
    if item.kind != "package" || name != rule.check.name || !VersionCompare(version, rule.check.op, rule.check.value)
    then None
    else Some(Report(rule, "Package " + name + " version " + version + " " + rule.check.op + " " + rule.check.value))
  }

  function MatchKernelVersion(rule: Rule, item: Item): Option<Finding> {
    var version, name := Field(item, "version"), rule.check.name;
    if item.kind != "kernel"
      || (name != "" && name != "kernel" && !Contains(version, name))
      || !VersionCompare(version, rule.check.op, rule.check.value)
    then None
    else Some(Report(rule, "Kernel version " + version + " " + rule.check.op + " " + rule.check.value))
  }

  predicate RuleApplies(rule: Rule, item: Item) {
    (rule.category == "baseline" && item.category == "baseline")
      || (rule.category == "sys_vuln" && item.category == "sys_vuln")
  }

  function MatchItem(rule: Rule, item: Item, config: ConfigCheck): Option<Finding> {
    match rule.check.kind
    case "package_version" => MatchPackageVersion(rule, item)
    case "kernel_version" => MatchKernelVersion(rule, item)
    case "config_check" => config(rule, item)
    case _ => None
  }

  predicate Hits(rule: Rule, item: Item, config: ConfigCheck) {
    RuleApplies(rule, item) && MatchItem(rule, item, config).Some?
  }

  predicate Fires(rule: Rule, items: seq<Item>, config: ConfigCheck) {
    exists j | 0 <= j < |items| :: Hits(rule, items[j], config)
  }

  // The finding is what the rule says of the first item it hits.
  predicate FirstHit(f: Finding, rule: Rule, items: seq<Item>, config: ConfigCheck) {
    exists j | 0 <= j < |items| ::
      && Hits(rule, items[j], config) && MatchItem(rule, items[j], config) == Some(f)
      && forall k | 0 <= k < j :: !Hits(rule, items[k], config)
  }

  // from[k] is the rule behind the k-th finding: the rules that fire, in order, each once.
  ghost predicate Explains(from: seq<nat>, findings: seq<Finding>, items: seq<Item>, rules: seq<Rule>,
      config: ConfigCheck) {
    InOrder(from, findings, items, rules, config) && Complete(from, items, rules, config)
  }

  predicate InOrder(from: seq<nat>, findings: seq<Finding>, items: seq<Item>, rules: seq<Rule>, config: ConfigCheck) {
    && |from| == |findings|
    && (forall k, l | 0 <= k < l < |from| :: from[k] < from[l])
    && forall k | 0 <= k < |from| :: from[k] < |rules| && FirstHit(findings[k], rules[from[k]], items, config)
  }

  predicate Complete(from: seq<nat>, items: seq<Item>, rules: seq<Rule>, config: ConfigCheck) {
    forall r: nat | r < |rules| :: Fires(rules[r], items, config) <==> r in from
  }

  /** One finding for each rule that fires, in the order of the rules. */
  method Match(items: seq<Item>, rules: seq<Rule>, config: ConfigCheck) returns (findings: seq<Finding>)
    ensures exists from :: Explains(from, findings, items, rules, config)
  {
    findings := [];
    ghost var from: seq<nat> := [];
    for r := 0 to |rules|
      invariant Explains(from, findings, items, rules[..r], config)
    {
      var found := FirstFinding(rules[r], items, config);
      OneMoreRule(from, findings, items, rules, r, config, found);
      if found.Some? { findings, from := findings + [found.value], from + [r]; }
    }
    assert rules[..|rules|] == rules;
  }

  lemma OneMoreRule(from: seq<nat>, findings: seq<Finding>, items: seq<Item>, rules: seq<Rule>, r: nat,
                    config: ConfigCheck, found: Option<Finding>)
    requires r < |rules| && Explains(from, findings, items, rules[..r], config)
    requires found.Some? <==> Fires(rules[r], items, config)
    requires found.Some? ==> FirstHit(found.value, rules[r], items, config)
    ensures if found.Some? then Explains(from + [r], findings + [found.value], items, rules[..r + 1], config)
            else Explains(from, findings, items, rules[..r + 1], config)
  {
    assert r !in from;
    CompleteMore(from, items, rules, r, config, found.Some?);
    RuleAdded(from, findings, items, rules, r, config);
    if found.Some? { FindingAdded(from, findings, items, rules, r, config, found.value); }
  }

  predicate NoneHits(rule: Rule, items: seq<Item>, config: ConfigCheck, n: nat)
    requires n <= |items|
  {
    forall k | 0 <= k < n :: !Hits(rule, items[k], config)
  }

  // The loop over the items.
  method FirstFinding(rule: Rule, items: seq<Item>, config: ConfigCheck) returns (found: Option<Finding>)
    ensures found.Some? <==> Fires(rule, items, config)
    ensures found.Some? ==> FirstHit(found.value, rule, items, config)
  {
    assert NoneHits(rule, items, config, 0);
    for j := 0 to |items|
      invariant NoneHits(rule, items, config, j)
    {
      found := TryItem(rule, items, j, config);
      if found.Some? { return; }
    }
    return None;
  }

  method TryItem(rule: Rule, items: seq<Item>, j: nat, config: ConfigCheck) returns (found: Option<Finding>)
    requires j < |items| && NoneHits(rule, items, config, j)
    ensures found.Some? ==> Fires(rule, items, config) && FirstHit(found.value, rule, items, config)
    ensures found.None? ==> NoneHits(rule, items, config, j + 1)
  {
    if !RuleApplies(rule, items[j]) { return None; }
    found := MatchItem(rule, items[j], config);
    assert found.Some? <==> Hits(rule, items[j], config);
  }

  // The order and the findings are kept when the next rule fires ...
  lemma FindingAdded(from: seq<nat>, findings: seq<Finding>, items: seq<Item>, rules: seq<Rule>, r: nat,
                     config: ConfigCheck, f: Finding)
    requires r < |rules| && InOrder(from, findings, items, rules[..r], config) && FirstHit(f, rules[r], items, config)
    ensures InOrder(from + [r], findings + [f], items, rules[..r + 1], config)
  {
    forall k | 0 <= k < |from + [r]|
      ensures (from + [r])[k] < r + 1 && FirstHit((findings + [f])[k], rules[..r + 1][(from + [r])[k]], items, config)
    {
      if k < |from| { assert rules[..r][from[k]] == rules[..r + 1][from[k]]; }
    }
  }

  // ... and when it does not.
  lemma RuleAdded(from: seq<nat>, findings: seq<Finding>, items: seq<Item>, rules: seq<Rule>, r: nat,
      config: ConfigCheck)
    requires r < |rules| && InOrder(from, findings, items, rules[..r], config)
    ensures InOrder(from, findings, items, rules[..r + 1], config)
  {
    forall k | 0 <= k < |from|
      ensures from[k] < r + 1 && FirstHit(findings[k], rules[..r + 1][from[k]], items, config)
    {
      assert rules[..r][from[k]] == rules[..r + 1][from[k]];
    }
  }

  lemma CompleteMore(from: seq<nat>, items: seq<Item>, rules: seq<Rule>, r: nat, config: ConfigCheck, fires: bool)
    requires r < |rules| && Complete(from, items, rules[..r], config) && fires == Fires(rules[r], items, config)
    requires r !in from
    ensures Complete(if fires then from + [r] else from, items, rules[..r + 1], config)
  {
    var more := if fires then from + [r] else from;
    forall q: nat | q < r + 1 ensures Fires(rules[..r + 1][q], items, config) <==> q in more {
      assert q in more <==> q in from || (fires && q == r) by { if fires { assert more[|from|] == r; } }
      if q < r { assert rules[..r][q] == rules[..r + 1][q]; }
    }
  }

  // ----- When a rule hits, by its text -----

  // The operators by their spellings; any other one never matches.
  predicate Says(op: string, c: int) {
    || ((op == "<" || op == "lt") && c < 0) || ((op == "<=" || op == "le") && c <= 0)
    || ((op == ">" || op == "gt") && c > 0) || ((op == ">=" || op == "ge") && c >= 0)
    || ((op == "=" || op == "==" || op == "eq") && c == 0) || ((op == "!=" || op == "ne") && c != 0)
  }

  lemma LowerSpellings(op: string)
    ensures RelationOf(op) == Some(Lt) <==> op == "<" || op == "lt"
    ensures RelationOf(op) == Some(Le) <==> op == "<=" || op == "le"
  {
  }

  lemma HigherSpellings(op: string)
    ensures RelationOf(op) == Some(Gt) <==> op == ">" || op == "gt"
    ensures RelationOf(op) == Some(Ge) <==> op == ">=" || op == "ge"
  {
  }

  lemma EqualSpellings(op: string)
    ensures RelationOf(op) == Some(Eq) <==> op == "=" || op == "==" || op == "eq"
    ensures RelationOf(op) == Some(Ne) <==> op == "!=" || op == "ne"
  {
  }

  lemma OperatorsBySpelling(a: string, op: string, b: string)
    ensures VersionCompare(a, op, b) <==> Says(op, CompareVersions(a, b))
  {
    LowerSpellings(op);
    HigherSpellings(op);
    EqualSpellings(op);
    RelationByCase(RelationOf(op), CompareVersions(a, b));
  }

  lemma RelationByCase(rel: Option<Relation>, c: int)
    ensures (rel.Some? && Allows(rel.value, c)) <==>
        || (rel == Some(Lt) && c < 0) || (rel == Some(Le) && c <= 0) || (rel == Some(Gt) && c > 0)
        || (rel == Some(Ge) && c >= 0) || (rel == Some(Eq) && c == 0) || (rel == Some(Ne) && c != 0)
  {
  }

  // Some text before and some text after.
  ghost predicate OccursIn(sub: string, s: string) { exists a, b :: s == a + sub + b }

  lemma {:induction false} ContainsExactly(s: string, sub: string)
    ensures Contains(s, sub) <==> OccursIn(sub, s)
  {
    OccursHere(sub, s);
    if s != "" { ContainsExactly(s[1..], sub); }
  }

  // At the front, or further on.
  lemma OccursHere(sub: string, s: string)
    ensures OccursIn(sub, s) <==> (|sub| <= |s| && s[..|sub|] == sub) || (s != "" && OccursIn(sub, s[1..]))
  {
    if |sub| <= |s| && s[..|sub|] == sub { assert s == "" + sub + s[|sub|..]; }
    if s != "" && OccursIn(sub, s[1..]) { OccursLater(sub, s); }
    if OccursIn(sub, s) { OccursCases(sub, s); }
  }

  lemma OccursLater(sub: string, s: string)
    requires s != "" && OccursIn(sub, s[1..])
    ensures OccursIn(sub, s)
  {
    var a, b :| s[1..] == a + sub + b;
    var front := [s[0]] + a;
    assert s == [s[0]] + s[1..] == front + sub + b;
  }

  lemma OccursCases(sub: string, s: string)
    requires OccursIn(sub, s)
    ensures (|sub| <= |s| && s[..|sub|] == sub) || (s != "" && OccursIn(sub, s[1..]))
  {
    var a, b :| s == a + sub + b;
    if a == "" { assert s[..|sub|] == sub; } else { assert s[1..] == a[1..] + sub + b; }
  }

  // Rules and items meet within the two categories only.
  predicate SameModule(rule: Rule, item: Item) {
    rule.category == item.category && (rule.category == "baseline" || rule.category == "sys_vuln")
  }

  /** A rule on a package hits exactly the packages of its module that have its name and a version in
      the stated relation to its value. */
  lemma PackageRuleHits(rule: Rule, item: Item, config: ConfigCheck)
    requires rule.check.kind == "package_version"
    ensures var name := if "name" in item.data then item.data["name"] else "";
      var version := if "version" in item.data then item.data["version"] else "";
      Hits(rule, item, config) <==>
        && SameModule(rule, item) && item.kind == "package" && name == rule.check.name
        && Says(rule.check.op, CompareVersions(version, rule.check.value))
  {
    OperatorsBySpelling(Field(item, "version"), rule.check.op, rule.check.value);
  }

  /** A rule on the kernel hits exactly the kernels of its module with such a version in which its name,
      if it has one other than "kernel", occurs. */
  lemma KernelRuleHits(rule: Rule, item: Item, config: ConfigCheck)
    requires rule.check.kind == "kernel_version"
    ensures var version := if "version" in item.data then item.data["version"] else "";
      Hits(rule, item, config) <==>
        && SameModule(rule, item) && item.kind == "kernel"
        && (rule.check.name == "" || rule.check.name == "kernel" || OccursIn(rule.check.name, version))
        && Says(rule.check.op, CompareVersions(version, rule.check.value))
  {
    OperatorsBySpelling(Field(item, "version"), rule.check.op, rule.check.value);
    ContainsExactly(Field(item, "version"), rule.check.name);
  }

  /** A rule of another kind hits nothing; what a hit reports is the rule's own, with the version as
      evidence. */
  lemma OtherRulesAndReports(rule: Rule, item: Item, config: ConfigCheck)
    ensures
      rule.check.kind != "package_version" && rule.check.kind != "kernel_version" && rule.check.kind != "config_check"
      ==> !Hits(rule, item, config)
    ensures rule.check.kind != "config_check" && Hits(rule, item, config) ==>
      var f := MatchItem(rule, item, config).value;
      && f.category == rule.category && f.cve == rule.cve && f.name == rule.name
      && f.severity == rule.severity && f.fix == rule.fix && OccursIn(Field(item, "version"), f.evidence)
  {
    if rule.check.kind == "package_version" && Hits(rule, item, config) {
      Evidence("Package " + Field(item, "name") + " version ", Field(item, "version"), rule.check.op, rule.check.value);
    } else if rule.check.kind == "kernel_version" && Hits(rule, item, config) {
      Evidence("Kernel version ", Field(item, "version"), rule.check.op, rule.check.value);
    }
  }

  lemma Evidence(before: string, version: string, op: string, value: string)
    ensures OccursIn(version, before + version + " " + op + " " + value)
  {
    assert before + version + " " + op + " " + value == before + version + (" " + op + " " + value);
  }

  // ----- Operators -----

  /** The six operators are the six relations of one order. */
  lemma OperatorsConsistent(a: string, b: string)
    ensures Holds(a, Lt, b) == Holds(b, Gt, a) == !Holds(a, Ge, b)
    ensures Holds(a, Le, b) == Holds(b, Ge, a) == !Holds(a, Gt, b)
    ensures Holds(a, Eq, b) == Holds(b, Eq, a) == !Holds(a, Ne, b)
    ensures Holds(a, Le, b) == (Holds(a, Lt, b) || Holds(a, Eq, b))
  {
    VersionSymmetric(SplitVersion(a), SplitVersion(b));
  }

  // ----- Downgrades -----

  predicate UpperBoundOp(op: string) { RelationOf(op) == Some(Lt) || RelationOf(op) == Some(Le) }

  // The same package at another version.
  function WithVersion(item: Item, v: string): Item { item.(data := item.data["version" := v]) }

  lemma LowerVersionHits(rule: Rule, item: Item, v: string, config: ConfigCheck)
    requires rule.check.kind == "package_version" && UpperBoundOp(rule.check.op)
    requires CompareVersions(v, Field(item, "version")) <= 0 && Hits(rule, item, config)
    ensures Hits(rule, WithVersion(item, v), config)
  {
    VersionPreorder();
    PreorderAt(CompareVersions, v, Field(item, "version"), rule.check.value);
  }

  /** Lowering the version of an item never silences a rule that bounds a package from above. */
  lemma LoweringKeepsFindings(rule: Rule, items: seq<Item>, i: nat, v: string, config: ConfigCheck)
    requires rule.check.kind == "package_version" && UpperBoundOp(rule.check.op)
    requires i < |items| && CompareVersions(v, Field(items[i], "version")) <= 0
    requires Fires(rule, items, config)
    ensures Fires(rule, items[i := WithVersion(items[i], v)], config)
  {
    var lowered := items[i := WithVersion(items[i], v)];
    var j :| 0 <= j < |items| && Hits(rule, items[j], config);
    if j == i { LowerVersionHits(rule, items[i], v, config); }
    assert Hits(rule, lowered[j], config);
  }
}

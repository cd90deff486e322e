/** The table-driven extraction shared by every record kind: a record is a set
    of named attributes with defaults; a mapping table, chosen by source
    database and state, is a list of rules; each rule locates an element, reads
    its text or one of its attributes, transforms the value and stores it under
    an attribute. The kinds differ in how a second value for an attribute
    already holding one is combined with it (the join policy) and in how the
    table is chosen. */
module Engine {
  import opened Outcomes
  import opened Text
  import opened Xml
  import opened Transforms

  /** An attribute value: None, a string, an integer or a boolean. */
  datatype Value = Null | Str(s: string) | Int(i: int) | Bool(b: bool)

  /** Python truthiness of an attribute value. */
  predicate Truthy(v: Value) {
    match v
    case Null => false
    case Str(s) => s != []
    case Int(i) => i != 0
    case Bool(b) => b
  }

  /** The instance attributes of a record, by name. */
  type Attrs = map<string, Value>

  /** One mapping: where to look, which attribute of the element to read
      (its text when None), the record attribute to set and the transform. */
  datatype Rule = Rule(loc: Locator, prop: Option<string>, attr: string, transform: Transform)

  /** A rule reading the text of the field labelled name. */
  function ByLabel(name: string, attr: string, transform: Transform): Rule {
    Rule(FieldLabel(name), None, attr, transform)
  }

  /** A rule reading attribute prop of the field labelled name. */
  function ByLabelProp(name: string, prop: string, attr: string): Rule {
    Rule(FieldLabel(name), Some(prop), attr, Identity)
  }

  /** A rule reading the text of the element an explicit path selects. */
  function ByPath(path: string, attr: string, transform: Transform): Rule {
    Rule(Path(path), None, attr, transform)
  }

  /** A rule reading an attribute of the record element itself, stored
      under the same name. */
  function FromRoot(prop: string): Rule {
    Rule(Root, Some(prop), prop, Identity)
  }

  /** How a value found for an attribute that already holds a truthy value is
      stored: appended after " / " (the shared base class, vehicle details),
      after " " (lienholders), after " " and then stripped (real-property
      details), or stored over it (the summary kinds). */
  datatype Policy = SlashAppend | SpaceAppend | StripAppend | Overwrite

  /** Mapping tables: source database, then state, then the rules. */
  type Tables = map<string, map<string, seq<Rule>>>

  /** The table lookup of the shared base class and of the detail kinds that
      copy it: both membership tests upper-case their key, but the state test
      indexes the tables with the source as given. */
  function LookupFolded(tables: Tables, source: string, state: string): Result<seq<Rule>> {
    if Upper(source) !in tables then Err(ValueError("No mappings for this source: " + source))
    else if source !in tables then Err(KeyError(source))
    else if Upper(state) !in tables[source] then Err(ValueError("No " + source + " mappings for this state: " + state))
    else if Upper(state) !in tables[Upper(source)] then Err(KeyError(Upper(state)))
    else Ok(tables[Upper(source)][Upper(state)])
  }

  /** The table lookup of the summary kinds and the real-property details:
      exact keys. */
  function LookupExact(tables: Tables, source: string, state: string): Result<seq<Rule>> {
    if source !in tables then Err(ValueError("No mappings for this source: " + source))
    else if state !in tables[source] then Err(ValueError("No " + source + " mappings for this state: " + state))
    else Ok(tables[source][state])
  }

  /** Every source and state key is written in upper case, as in all the
      tables of the modelled code. */
  predicate UpperKeyed(tables: Tables) {
    (forall src :: src in tables ==> Upper(src) == src) &&
    (forall src, st :: src in tables && st in tables[src] ==> Upper(st) == st)
  }

  /** With upper-case keys and a source spelled as in the tables, the folded
      lookup ignores the case of the state. */
  lemma FoldedLookupIgnoresStateCase(tables: Tables, source: string, state: string)
    requires UpperKeyed(tables) && source in tables
    ensures LookupFolded(tables, source, state).Ok? <==> LookupExact(tables, source, Upper(state)).Ok?
    ensures LookupFolded(tables, source, state).Ok? ==>
      LookupFolded(tables, source, state).value == LookupExact(tables, source, Upper(state)).value
  {
  }

  /** ... but a source spelled in any other case fails with KeyError, after
      passing the upper-cased membership test. */
  lemma FoldedLookupSourceCase(tables: Tables, source: string, state: string)
    requires UpperKeyed(tables) && Upper(source) in tables && Upper(source) != source
    ensures LookupFolded(tables, source, state) == Err(KeyError(source))
  {
  }

  /** The value a rule contributes: the transformed value read from the first
      element found, when that value is present and non-empty. */
  function Contribution(tree: Tree, rule: Rule): (r: Option<string>)
    ensures r.Some? ==> exists raw :: raw != [] && FirstValue(tree, rule.loc, rule.prop) == Some(raw)
  {
    match FirstValue(tree, rule.loc, rule.prop)
    case None => None
    case Some(raw) => if raw == [] then None else Some(Apply(rule.transform, raw))
  }

  /** The exception a rule's transform raises on the value it reads: only
      the owner transform raises, and only on a non-empty value without a
      colon. */
  function Failure(tree: Tree, rule: Rule): (r: Option<Error>)
    ensures r.Some? <==> (rule.transform == Owner && FirstValue(tree, rule.loc, rule.prop).Some? &&
      FirstValue(tree, rule.loc, rule.prop).value != [] && ':' !in FirstValue(tree, rule.loc, rule.prop).value)
    ensures r.Some? ==> r.value == AttributeError("copy") && Contribution(tree, rule).Some?
  {
    match FirstValue(tree, rule.loc, rule.prop)
    case None => None
    case Some(raw) =>
      if raw == [] then None
      else match ApplyAsWritten(rule.transform, raw)
        case Err(e) => Some(e)
        case Ok(_) => None
  }

  /** No rule of the list raises on the tree. */
  predicate NoneRaise(tree: Tree, rules: seq<Rule>) {
    forall j :: 0 <= j < |rules| ==> Failure(tree, rules[j]).None?
  }

  /** No rule of the list uses the owner transform, the one transform that
      can raise. */
  predicate Total(rules: seq<Rule>) {
    forall j :: 0 <= j < |rules| ==> rules[j].transform != Owner
  }

  /** Rules that never use the owner transform raise on no tree. */
  lemma TotalNeverRaises(tree: Tree, rules: seq<Rule>)
    requires Total(rules)
    ensures NoneRaise(tree, rules)
  {
  }

  /** Storing value v into an attribute currently holding e. */
  function Combine(policy: Policy, e: Value, v: string): Result<Value> {
    if policy == Overwrite || !Truthy(e) then Ok(Str(v))
    else match e
      case Str(x) =>
        (match policy
         case SlashAppend => Ok(Str(x + " / " + v))
         case SpaceAppend => Ok(Str(x + " " + v))
         case StripAppend => Ok(Str(Strip(x + " " + v)))
         case Overwrite => Ok(Str(v)))
      case _ => Err(TypeError("unsupported operand type(s) for +"))
  }

  /** One rule applied to the attributes: the transform runs first and may
      raise; then the append policies read the attribute, which fails for an
      attribute the record does not have. */
  function Step(policy: Policy, attrs: Attrs, tree: Tree, rule: Rule): Result<Attrs> {
    if Failure(tree, rule).Some? then Err(Failure(tree, rule).value)
    else match Contribution(tree, rule)
      case None => Ok(attrs)
      case Some(v) =>
        if policy == Overwrite then Ok(attrs[rule.attr := Str(v)])
        else if rule.attr !in attrs then Err(AttributeError(rule.attr))
        else match Combine(policy, attrs[rule.attr], v)
          case Ok(nv) => Ok(attrs[rule.attr := nv])
          case Err(e) => Err(e)
  }

  /** The attributes after an extraction, and the exception that ended it
      early, if any; the attributes then hold what the rules before it set. */
  datatype Outcome = Outcome(attrs: Attrs, error: Option<Error>)

  /** The rules applied in order from the attributes init. */
  function RunRules(policy: Policy, init: Attrs, tree: Tree, rules: seq<Rule>): Outcome
    decreases |rules|
  {
    if rules == [] then Outcome(init, None)
    else
      var o := RunRules(policy, init, tree, rules[..|rules| - 1]);
      if o.error.Some? then o
      else match Step(policy, o.attrs, tree, rules[|rules| - 1])
        case Ok(a) => Outcome(a, None)
        case Err(e) => Outcome(o.attrs, Some(e))
  }

  /** Once a rule has failed, the later rules change nothing. */
  lemma {:induction false} ErrorPersists(policy: Policy, init: Attrs, tree: Tree, rules: seq<Rule>, k: nat)
    requires k <= |rules| && RunRules(policy, init, tree, rules[..k]).error.Some?
    ensures RunRules(policy, init, tree, rules) == RunRules(policy, init, tree, rules[..k])
    decreases |rules| - k
  {
    if k < |rules| {
      assert rules[..k + 1][..k] == rules[..k];
      ErrorPersists(policy, init, tree, rules, k + 1);
    } else {
      assert rules[..k] == rules;
    }
  }

  /** The attributes the rules may set. */
  function Targets(rules: seq<Rule>): set<string> {
    set r | r in rules :: r.attr
  }

  /** Targets checked rule by rule. */
  lemma TargetsWithin(rules: seq<Rule>, names: set<string>)
    requires forall j :: 0 <= j < |rules| ==> rules[j].attr in names
    ensures Targets(rules) <= names
  {
  }

  /** An attribute no rule names, checked rule by rule. */
  lemma NotTargeted(rules: seq<Rule>, x: string)
    requires forall j :: 0 <= j < |rules| ==> rules[j].attr != x
    ensures x !in Targets(rules)
  {
  }

  /** An extraction touches no attribute that no rule names, and adds no
      attribute beyond those the rules name. */
  lemma {:induction false} RunRulesFrame(policy: Policy, init: Attrs, tree: Tree, rules: seq<Rule>)
    ensures forall a :: a in init && a !in Targets(rules) ==>
      a in RunRules(policy, init, tree, rules).attrs && RunRules(policy, init, tree, rules).attrs[a] == init[a]
    ensures RunRules(policy, init, tree, rules).attrs.Keys <= init.Keys + Targets(rules)
    decreases |rules|
  {
    if rules != [] {
      var pre := rules[..|rules| - 1];
      RunRulesFrame(policy, init, tree, pre);
      assert Targets(pre) <= Targets(rules);
      assert rules[|rules| - 1].attr in Targets(rules);
    }
  }

  /** The values the rules contribute to attribute x, in rule order. */
  function Contributions(tree: Tree, rules: seq<Rule>, x: string): seq<string>
    decreases |rules|
  {
    if rules == [] then []
    else
      var last := rules[|rules| - 1];
      Contributions(tree, rules[..|rules| - 1], x) +
        (if last.attr == x && Contribution(tree, last).Some? then [Contribution(tree, last).value] else [])
  }

  lemma {:induction false} ContributionsAppend(tree: Tree, a: seq<Rule>, b: seq<Rule>, x: string)
    ensures Contributions(tree, a + b, x) == Contributions(tree, a, x) + Contributions(tree, b, x)
    decreases |b|
  {
    if b == [] {
      assert a + b == a;
    } else {
      assert (a + b)[..|a + b| - 1] == a + b[..|b| - 1];
      ContributionsAppend(tree, a, b[..|b| - 1], x);
    }
  }

  lemma {:induction false} ContributionsUntargeted(tree: Tree, rules: seq<Rule>, x: string)
    requires x !in Targets(rules)
    ensures Contributions(tree, rules, x) == []
    decreases |rules|
  {
    if rules != [] {
      assert rules[|rules| - 1] in rules;
      assert Targets(rules[..|rules| - 1]) <= Targets(rules);
      ContributionsUntargeted(tree, rules[..|rules| - 1], x);
    }
  }

  /** The contributions of a single rule. */
  lemma ContributionsOne(tree: Tree, rule: Rule, x: string)
    ensures Contributions(tree, [rule], x) ==
      if rule.attr == x && Contribution(tree, rule).Some? then [Contribution(tree, rule).value] else []
  {
    assert [rule][..0] == [];
  }

  /** A table laid out in groups, as one sequence of rules. */
  function Flatten(groups: seq<seq<Rule>>): seq<Rule>
    decreases |groups|
  {
    if groups == [] then [] else Flatten(groups[..|groups| - 1]) + groups[|groups| - 1]
  }

  lemma TargetsAppend(a: seq<Rule>, b: seq<Rule>)
    ensures Targets(a + b) == Targets(a) + Targets(b)
  {
    assert forall r :: r in a + b <==> r in a || r in b;
  }

  /** The attributes a grouped table names are those its groups name. */
  lemma {:induction false} FlattenTargets(groups: seq<seq<Rule>>, names: set<string>)
    requires forall n :: 0 <= n < |groups| ==> Targets(groups[n]) <= names
    ensures Targets(Flatten(groups)) <= names
    decreases |groups|
  {
    if groups != [] {
      FlattenTargets(groups[..|groups| - 1], names);
      TargetsAppend(Flatten(groups[..|groups| - 1]), groups[|groups| - 1]);
    }
  }

  /** A grouped table uses the owner transform nowhere when none of its
      groups does. */
  lemma {:induction false} FlattenTotal(groups: seq<seq<Rule>>)
    requires forall n :: 0 <= n < |groups| ==> Total(groups[n])
    ensures Total(Flatten(groups))
    decreases |groups|
  {
    if groups != [] {
      var pre := groups[..|groups| - 1];
      FlattenTotal(pre);
      var a: seq<Rule> := Flatten(pre);
      var b: seq<Rule> := groups[|groups| - 1];
      forall j | 0 <= j < |a + b|
        ensures (a + b)[j].transform != Owner
      {
        if j < |a| {
          assert (a + b)[j] == a[j];
        } else {
          assert (a + b)[j] == b[j - |a|];
        }
      }
    }
  }

  /** Groups none of which names x contribute nothing to it. */
  lemma {:induction false} SilentGroups(tree: Tree, groups: seq<seq<Rule>>, x: string)
    requires forall n :: 0 <= n < |groups| ==> x !in Targets(groups[n])
    ensures Contributions(tree, Flatten(groups), x) == []
    decreases |groups|
  {
    if groups != [] {
      var pre := groups[..|groups| - 1];
      SilentGroups(tree, pre, x);
      ContributionsAppend(tree, Flatten(pre), groups[|groups| - 1], x);
      ContributionsUntargeted(tree, groups[|groups| - 1], x);
    }
  }

  /** When only group k names x, x receives what group k contributes. */
  lemma {:induction false} SoleGroup(tree: Tree, groups: seq<seq<Rule>>, k: nat, x: string)
    requires k < |groups|
    requires forall n :: 0 <= n < |groups| && n != k ==> x !in Targets(groups[n])
    ensures Contributions(tree, Flatten(groups), x) == Contributions(tree, groups[k], x)
    decreases |groups|
  {
    var pre := groups[..|groups| - 1];
    var last := groups[|groups| - 1];
    ContributionsAppend(tree, Flatten(pre), last, x);
    if k == |groups| - 1 {
      SilentGroups(tree, pre, x);
    } else {
      SoleGroup(tree, pre, k, x);
      ContributionsUntargeted(tree, last, x);
    }
  }

  /** SoleGroup, with what each group names given as a set per group. */
  lemma SoleNamedGroup(tree: Tree, groups: seq<seq<Rule>>, names: seq<set<string>>, k: nat, x: string)
    requires |names| == |groups| && k < |groups|
    requires forall n :: 0 <= n < |groups| ==> Targets(groups[n]) <= names[n]
    requires forall n :: 0 <= n < |groups| && n != k ==> x !in names[n]
    ensures Contributions(tree, Flatten(groups), x) == Contributions(tree, groups[k], x)
  {
    SoleGroup(tree, groups, k, x);
  }

  /** Only the rules before k name x. */
  lemma TargetsBefore(tree: Tree, rules: seq<Rule>, k: nat, x: string)
    requires k <= |rules| && forall j :: k <= j < |rules| ==> rules[j].attr != x
    ensures Contributions(tree, rules, x) == Contributions(tree, rules[..k], x)
  {
    assert rules == rules[..k] + rules[k..];
    ContributionsAppend(tree, rules[..k], rules[k..], x);
    ContributionsUntargeted(tree, rules[k..], x);
  }

  /** Only rule k names x. */
  lemma OnlyTarget(tree: Tree, rules: seq<Rule>, k: nat, x: string)
    requires k < |rules| && rules[k].attr == x
    requires forall j :: 0 <= j < |rules| && j != k ==> rules[j].attr != x
    ensures Contributions(tree, rules, x) ==
      if Contribution(tree, rules[k]).Some? then [Contribution(tree, rules[k]).value] else []
  {
    TargetsBefore(tree, rules, k + 1, x);
    assert rules[..k + 1] == rules[..k] + [rules[k]];
    ContributionsAppend(tree, rules[..k], [rules[k]], x);
    ContributionsUntargeted(tree, rules[..k], x);
    ContributionsOne(tree, rules[k], x);
  }

  /** The non-empty text of the first element a locator finds, as a list of
      zero or one values. */
  function FoundText(tree: Tree, loc: Locator): (r: seq<string>)
    ensures |r| <= 1 && forall k :: 0 <= k < |r| ==> r[k] != []
  {
    match FirstValue(tree, loc, None)
    case Some(v) => if v == [] then [] else [v]
    case None => []
  }

  /** The value of attribute prop of the first field labelled name, as
      stored: None when absent or empty. */
  function PropValue(tree: Tree, name: string, prop: string): Value {
    match FirstValue(tree, FieldLabel(name), Some(prop))
    case Some(v) => if v == [] then Null else Str(v)
    case None => Null
  }

  /** What a single text-reading rule contributes to its attribute. */
  lemma TextRule(tree: Tree, loc: Locator, attr: string, t: Transform)
    ensures Contributions(tree, [Rule(loc, None, attr, t)], attr) ==
      if FoundText(tree, loc) == [] then [] else [Apply(t, FoundText(tree, loc)[0])]
  {
    ContributionsOne(tree, Rule(loc, None, attr, t), attr);
  }

  /** The transformed text a rule reading loc contributes, if any. */
  function Transformed(tree: Tree, loc: Locator, t: Transform): seq<string> {
    if FoundText(tree, loc) == [] then [] else [Apply(t, FoundText(tree, loc)[0])]
  }

  /** What three text-reading rules for x contribute to it. */
  lemma ThreeTextRules(tree: Tree, l0: Locator, t0: Transform, l1: Locator, t1: Transform, l2: Locator, t2: Transform,
                       x: string)
    ensures Contributions(tree, [Rule(l0, None, x, t0), Rule(l1, None, x, t1), Rule(l2, None, x, t2)], x) ==
      Transformed(tree, l0, t0) + Transformed(tree, l1, t1) + Transformed(tree, l2, t2)
  {
    var r0, r1, r2 := Rule(l0, None, x, t0), Rule(l1, None, x, t1), Rule(l2, None, x, t2);
    assert [r0, r1, r2] == [r0] + [r1] + [r2];
    ContributionsAppend(tree, [r0] + [r1], [r2], x);
    ContributionsAppend(tree, [r0], [r1], x);
    TextRule(tree, l0, x, t0);
    TextRule(tree, l1, x, t1);
    TextRule(tree, l2, x, t2);
  }

  /** A plain text rule contributes the text its locator finds, if any. */
  lemma PlainContribution(tree: Tree, rule: Rule)
    requires rule.prop.None? && rule.transform == Identity
    ensures (if Contribution(tree, rule).Some? then [Contribution(tree, rule).value] else []) == FoundText(tree, rule.loc)
  {
  }

  /** When the rules naming x are exactly the plain text rules i and j, x
      receives their texts in that order. */
  lemma TwoTextRules(tree: Tree, rules: seq<Rule>, i: nat, j: nat, x: string)
    requires i < j < |rules|
    requires rules[i].attr == x && rules[i].prop.None? && rules[i].transform == Identity
    requires rules[j].attr == x && rules[j].prop.None? && rules[j].transform == Identity
    requires forall n :: 0 <= n < |rules| && n != i && n != j ==> rules[n].attr != x
    ensures Contributions(tree, rules, x) == FoundText(tree, rules[i].loc) + FoundText(tree, rules[j].loc)
  {
    var pre := rules[..j + 1];
    assert pre[i] == rules[i] && pre[|pre| - 1] == rules[j];
    assert forall n :: 0 <= n < |pre| - 1 ==> pre[n] == rules[n];
    LastTextRule(tree, pre, i, x);
    TargetsBefore(tree, rules, j + 1, x);
  }

  /** When the rules naming x are the plain text rule i and the last rule,
      also a plain text rule, x receives their texts in that order. */
  lemma LastTextRule(tree: Tree, rules: seq<Rule>, i: nat, x: string)
    requires i < |rules| - 1
    requires rules[i].attr == x && rules[i].prop.None? && rules[i].transform == Identity
    requires rules[|rules| - 1].attr == x && rules[|rules| - 1].prop.None? && rules[|rules| - 1].transform == Identity
    requires forall n :: 0 <= n < |rules| - 1 && n != i ==> rules[n].attr != x
    ensures Contributions(tree, rules, x) == FoundText(tree, rules[i].loc) + FoundText(tree, rules[|rules| - 1].loc)
  {
    var pre := rules[..|rules| - 1];
    assert forall n :: 0 <= n < |pre| ==> pre[n] == rules[n];
    OnlyTarget(tree, pre, i, x);
    PlainContribution(tree, rules[i]);
    PlainContribution(tree, rules[|rules| - 1]);
  }

  /** The non-empty texts the rules' locators find, in rule order. */
  function Texts(tree: Tree, rules: seq<Rule>): seq<string>
    decreases |rules|
  {
    if rules == [] then [] else Texts(tree, rules[..|rules| - 1]) + FoundText(tree, rules[|rules| - 1].loc)
  }

  lemma Texts2(tree: Tree, r0: Rule, r1: Rule)
    ensures Texts(tree, [r0, r1]) == FoundText(tree, r0.loc) + FoundText(tree, r1.loc)
  {
    assert [r0, r1][..1] == [r0];
    assert [r0][..0] == [];
    assert Texts(tree, [r0]) == Texts(tree, []) + FoundText(tree, r0.loc);
    assert Texts(tree, [r0, r1]) == Texts(tree, [r0]) + FoundText(tree, r1.loc);
  }

  lemma Texts3(tree: Tree, r0: Rule, r1: Rule, r2: Rule)
    ensures Texts(tree, [r0, r1, r2]) == FoundText(tree, r0.loc) + FoundText(tree, r1.loc) + FoundText(tree, r2.loc)
  {
    assert [r0, r1, r2][..2] == [r0, r1];
    Texts2(tree, r0, r1);
  }

  /** The non-empty texts of the first fields carrying the labels, in order. */
  function LabelTexts(tree: Tree, labels: seq<string>): seq<string>
    decreases |labels|
  {
    if labels == [] then []
    else LabelTexts(tree, labels[..|labels| - 1]) + FoundText(tree, FieldLabel(labels[|labels| - 1]))
  }

  lemma {:induction false} TextsOfLabels(tree: Tree, rules: seq<Rule>, labels: seq<string>)
    requires |rules| == |labels| && forall j :: 0 <= j < |rules| ==> rules[j].loc == FieldLabel(labels[j])
    ensures Texts(tree, rules) == LabelTexts(tree, labels)
    decreases |rules|
  {
    if rules != [] {
      TextsOfLabels(tree, rules[..|rules| - 1], labels[..|labels| - 1]);
    }
  }

  /** One untransformed text rule per label, all storing into attr. */
  function LabelRules(labels: seq<string>, attr: string): (r: seq<Rule>)
    ensures |r| == |labels| && forall j :: 0 <= j < |r| ==> r[j] == ByLabel(labels[j], attr, Identity)
  {
    seq(|labels|, j requires 0 <= j < |labels| => ByLabel(labels[j], attr, Identity))
  }

  /** Rules that each store a located element's text, untransformed, into x. */
  predicate PlainTextRulesFor(rules: seq<Rule>, x: string) {
    forall j :: 0 <= j < |rules| ==> rules[j].attr == x && rules[j].prop.None? && rules[j].transform == Identity
  }

  lemma {:induction false} TextBlock(tree: Tree, block: seq<Rule>, x: string)
    requires PlainTextRulesFor(block, x)
    ensures Contributions(tree, block, x) == Texts(tree, block)
    decreases |block|
  {
    if block != [] {
      var last := block[|block| - 1];
      TextBlock(tree, block[..|block| - 1], x);
      assert FirstValue(tree, last.loc, last.prop) == FirstValue(tree, last.loc, None);
    }
  }

  /** One text rule per label gives x the labels' texts, in order, and
      names nothing else. */
  lemma LabelRulesTexts(tree: Tree, labels: seq<string>, x: string)
    ensures Contributions(tree, LabelRules(labels, x), x) == LabelTexts(tree, labels)
    ensures Targets(LabelRules(labels, x)) <= {x}
  {
    TextBlock(tree, LabelRules(labels, x), x);
    TextsOfLabels(tree, LabelRules(labels, x), labels);
    TargetsWithin(LabelRules(labels, x), {x});
  }

  /** When the rules naming x are exactly the plain text rules k .. k+n-1,
      x receives their texts in order. */
  lemma AdjacentTextRules(tree: Tree, rules: seq<Rule>, k: nat, n: nat, x: string)
    requires k + n <= |rules| && PlainTextRulesFor(rules[k..k + n], x)
    requires forall j :: 0 <= j < |rules| && !(k <= j < k + n) ==> rules[j].attr != x
    ensures Contributions(tree, rules, x) == Texts(tree, rules[k..k + n])
  {
    TargetsBefore(tree, rules, k + n, x);
    var a, b := rules[..k], rules[k..k + n];
    assert rules[..k + n] == a + b;
    ContributionsAppend(tree, a, b, x);
    TargetsWithin(a, set j | 0 <= j < |a| :: a[j].attr);
    ContributionsUntargeted(tree, a, x);
    TextBlock(tree, b, x);
  }

  /** The values cs stored one after another into an attribute holding v. */
  function Accumulate(policy: Policy, v: Value, cs: seq<string>): Result<Value>
    decreases |cs|
  {
    if cs == [] then Ok(v)
    else match Accumulate(policy, v, cs[..|cs| - 1])
      case Ok(w) => Combine(policy, w, cs[|cs| - 1])
      case Err(e) => Err(e)
  }

  /** What one successful rule does to attribute x. */
  lemma StepEffect(policy: Policy, attrs: Attrs, tree: Tree, rule: Rule, x: string)
    requires x in attrs && Step(policy, attrs, tree, rule).Ok?
    ensures x in Step(policy, attrs, tree, rule).value
    ensures rule.attr == x && Contribution(tree, rule).Some? ==>
      Combine(policy, attrs[x], Contribution(tree, rule).value) == Ok(Step(policy, attrs, tree, rule).value[x])
    ensures !(rule.attr == x && Contribution(tree, rule).Some?) ==>
      Step(policy, attrs, tree, rule).value[x] == attrs[x]
  {
  }

  /** When an extraction completes, each attribute it started from ends
      holding its initial value with that attribute's contributions stored
      into it in rule order. */
  lemma {:induction false} RunAccumulates(policy: Policy, init: Attrs, tree: Tree, rules: seq<Rule>, x: string)
    requires x in init
    requires RunRules(policy, init, tree, rules).error.None?
    ensures x in RunRules(policy, init, tree, rules).attrs
    ensures Accumulate(policy, init[x], Contributions(tree, rules, x)) == Ok(RunRules(policy, init, tree, rules).attrs[x])
    decreases |rules|
  {
    if rules != [] {
      var pre := rules[..|rules| - 1];
      var last := rules[|rules| - 1];
      var o := RunRules(policy, init, tree, pre);
      assert o.error.None?;
      RunAccumulates(policy, init, tree, pre, x);
      assert Step(policy, o.attrs, tree, last).Ok?;
      StepEffect(policy, o.attrs, tree, last, x);
      var cs := Contributions(tree, pre, x);
      if last.attr == x && Contribution(tree, last).Some? {
        var c := Contribution(tree, last).value;
        assert Contributions(tree, rules, x) == cs + [c];
        assert (cs + [c])[..|cs|] == cs;
      } else {
        assert Contributions(tree, rules, x) == cs + [];
        assert cs + [] == cs;
      }
    }
  }

  /** Every named attribute exists and holds a string or a falsy value, so
      appending to it cannot fail. */
  predicate Receptive(attrs: Attrs, names: set<string>) {
    forall a :: a in names ==> a in attrs && (attrs[a].Str? || !Truthy(attrs[a]))
  }

  /** Extractions whose transforms do not raise never fail when they
      overwrite, or append into records receptive for every attribute the
      rules name. */
  lemma {:induction false} ReceptiveNoError(policy: Policy, init: Attrs, tree: Tree, rules: seq<Rule>, names: set<string>)
    requires NoneRaise(tree, rules)
    requires policy == Overwrite || (Receptive(init, names) && Targets(rules) <= names)
    ensures RunRules(policy, init, tree, rules).error.None?
    ensures policy != Overwrite ==> Receptive(RunRules(policy, init, tree, rules).attrs, names)
    decreases |rules|
  {
    if rules != [] {
      var pre := rules[..|rules| - 1];
      var last := rules[|rules| - 1];
      assert last in rules;
      assert Targets(pre) <= Targets(rules);
      ReceptiveNoError(policy, init, tree, pre, names);
    }
  }

  /** An appending extraction into a record receptive for every attribute
      the rules name completes and keeps exactly the record's attributes. */
  lemma CompletesKeepingAttributes(policy: Policy, init: Attrs, tree: Tree, rules: seq<Rule>)
    requires NoneRaise(tree, rules)
    requires policy != Overwrite && Targets(rules) <= init.Keys && Receptive(init, init.Keys)
    ensures RunRules(policy, init, tree, rules).error.None?
    ensures RunRules(policy, init, tree, rules).attrs.Keys == init.Keys
  {
    ReceptiveNoError(policy, init, tree, rules, init.Keys);
    RunRulesFrame(policy, init, tree, rules);
  }

  /** Python's sep.join, taken one part at a time from the right. */
  lemma {:induction false} JoinSnoc(sep: string, parts: seq<string>, p: string)
    requires parts != []
    ensures Join(sep, parts + [p]) == Join(sep, parts) + sep + p
    decreases |parts|
  {
    if |parts| == 1 {
      assert parts + [p] == [parts[0], p];
    } else {
      assert (parts + [p])[1..] == parts[1..] + [p];
      JoinSnoc(sep, parts[1..], p);
    }
  }

  /** A join of non-empty parts starts with the first part's first character
      and ends with the last part's last character. */
  lemma {:induction false} JoinEnds(sep: string, parts: seq<string>)
    requires parts != [] && forall k :: 0 <= k < |parts| ==> parts[k] != []
    ensures Join(sep, parts) != []
    ensures Join(sep, parts)[0] == parts[0][0]
    ensures Join(sep, parts)[|Join(sep, parts)| - 1] == parts[|parts| - 1][|parts[|parts| - 1]| - 1]
    decreases |parts|
  {
    if |parts| > 1 {
      JoinEnds(sep, parts[1..]);
    }
  }

  function Separator(policy: Policy): string {
    match policy
    case SlashAppend => " / "
    case _ => " "
  }

  /** Non-empty, with no whitespace at either end. */
  predicate Trimmed(s: string) {
    s != [] && !IsSpace(s[0]) && !IsSpace(s[|s| - 1])
  }

  predicate AllTrimmed(cs: seq<string>) {
    forall k :: 0 <= k < |cs| ==> Trimmed(cs[k])
  }

  lemma AllTrimmedAppend(a: seq<string>, b: seq<string>)
    requires AllTrimmed(a) && AllTrimmed(b)
    ensures AllTrimmed(a + b)
  {
    assert forall k :: |a| <= k < |a + b| ==> (a + b)[k] == b[k - |a|];
  }

  /** A prefix that starts with a non-space keeps a trimmed text trimmed. */
  lemma PrefixedTrimmed(p: string, s: string)
    requires p != [] && !IsSpace(p[0]) && Trimmed(s)
    ensures Trimmed(p + s)
  {
    assert (p + s)[|p + s| - 1] == s[|s| - 1];
  }

  /** Appending non-empty values one after another into an attribute holding
      a falsy value joins them with the policy's separator. For the stripping
      policy the values must themselves carry no surrounding whitespace. */
  lemma {:induction false} AccumulateJoins(policy: Policy, v: Value, cs: seq<string>)
    requires policy != Overwrite && !Truthy(v) && cs != []
    requires forall k :: 0 <= k < |cs| ==> cs[k] != []
    requires policy == StripAppend ==> forall k :: 0 <= k < |cs| ==> Trimmed(cs[k])
    ensures Accumulate(policy, v, cs) == Ok(Str(Join(Separator(policy), cs)))
    decreases |cs|
  {
    var pre := cs[..|cs| - 1];
    var c := cs[|cs| - 1];
    var sep := Separator(policy);
    if |cs| == 1 {
      assert pre == [];
      assert Accumulate(policy, v, cs) == Combine(policy, v, c);
    } else {
      assert forall k :: 0 <= k < |pre| ==> pre[k] == cs[k];
      AccumulateJoins(policy, v, pre);
      assert pre + [c] == cs;
      AccumulateSnoc(policy, v, pre, c);
    }
  }

  /** One more value appended after values that were joined. */
  lemma AccumulateSnoc(policy: Policy, v: Value, pre: seq<string>, c: string)
    requires policy != Overwrite && pre != [] && c != []
    requires forall k :: 0 <= k < |pre| ==> pre[k] != []
    requires policy == StripAppend ==> Trimmed(pre[0]) && Trimmed(c)
    requires Accumulate(policy, v, pre) == Ok(Str(Join(Separator(policy), pre)))
    ensures Accumulate(policy, v, pre + [c]) == Ok(Str(Join(Separator(policy), pre + [c])))
  {
    assert (pre + [c])[..|pre|] == pre;
    CombineJoined(policy, pre, c);
  }

  /** Appending one more value to joined values joins it too. */
  lemma CombineJoined(policy: Policy, pre: seq<string>, c: string)
    requires policy != Overwrite && pre != [] && c != []
    requires forall k :: 0 <= k < |pre| ==> pre[k] != []
    requires policy == StripAppend ==> Trimmed(pre[0]) && Trimmed(c)
    ensures Combine(policy, Str(Join(Separator(policy), pre)), c) == Ok(Str(Join(Separator(policy), pre + [c])))
  {
    var sep := Separator(policy);
    var j := Join(sep, pre);
    JoinEnds(sep, pre);
    JoinSnoc(sep, pre, c);
    if policy == StripAppend {
      StripJoined(j, c);
    }
  }

  lemma StripJoined(j: string, c: string)
    requires j != [] && c != [] && !IsSpace(j[0]) && !IsSpace(c[|c| - 1])
    ensures Strip(j + " " + c) == j + " " + c
  {
    var t := j + " " + c;
    assert t[0] == j[0] && t[|t| - 1] == c[|c| - 1];
  }

  /** A single value stored into a falsy attribute replaces it, whatever the
      policy. */
  lemma AccumulateOne(policy: Policy, v: Value, c: string)
    requires !Truthy(v)
    ensures Accumulate(policy, v, [c]) == Ok(Str(c))
  {
    assert [c][..0] == [];
  }

  /** Overwriting keeps the last contribution. */
  lemma {:induction false} AccumulateOverwrites(v: Value, cs: seq<string>)
    ensures Accumulate(Overwrite, v, cs) == if cs == [] then Ok(v) else Ok(Str(cs[|cs| - 1]))
  {
    if cs != [] {
      var pre := cs[..|cs| - 1];
      AccumulateOverwrites(v, pre);
    }
  }

  /** from_xml of the shared base class (and of the kinds that copy it, with
      their own separator): the folded table lookup, then the rules. */
  function FoldedFromXml(policy: Policy, tables: Tables, init: Attrs, tree: Tree, source: string, state: string): Outcome {
    match LookupFolded(tables, source, state)
    case Err(e) => Outcome(init, Some(e))
    case Ok(rules) => RunRules(policy, init, tree, rules)
  }

  /** The attributes with the source and state stamped on them. */
  function Stamped(init: Attrs, source: string, state: string): Attrs {
    init["source" := Str(source)]["state" := Str(state)]
  }

  /** Recording the source and state adds those two attributes, as strings,
      and keeps a record receptive. */
  lemma StampedReceptive(init: Attrs, source: string, state: string)
    requires Receptive(init, init.Keys)
    ensures Stamped(init, source, state).Keys == init.Keys + {"source", "state"}
    ensures Receptive(Stamped(init, source, state), Stamped(init, source, state).Keys)
  {
  }

  /** from_xml of the kinds that look their table up by exact keys and
      record the source and state before applying the rules. */
  function StampedFromXml(policy: Policy, tables: Tables, init: Attrs, tree: Tree, source: string, state: string): Outcome {
    match LookupExact(tables, source, state)
    case Err(e) => Outcome(init, Some(e))
    case Ok(rules) => RunRules(policy, Stamped(init, source, state), tree, rules)
  }

  /** An attribute only rule k names, falsy at the start (or overwritten),
      ends holding that rule's contribution, or its initial value when the
      rule contributes nothing. */
  lemma SoleTarget(policy: Policy, init: Attrs, tree: Tree, rules: seq<Rule>, k: nat, x: string)
    requires k < |rules| && rules[k].attr == x
    requires forall j :: 0 <= j < |rules| && j != k ==> rules[j].attr != x
    requires x in init && (policy == Overwrite || !Truthy(init[x]))
    requires RunRules(policy, init, tree, rules).error.None?
    ensures x in RunRules(policy, init, tree, rules).attrs
    ensures RunRules(policy, init, tree, rules).attrs[x] ==
      match Contribution(tree, rules[k])
      case Some(c) => Str(c)
      case None => init[x]
  {
    OnlyTarget(tree, rules, k, x);
    RunAccumulates(policy, init, tree, rules, x);
    if Contribution(tree, rules[k]).Some? {
      var c := Contribution(tree, rules[k]).value;
      if policy == Overwrite {
        AccumulateOverwrites(init[x], [c]);
      } else {
        AccumulateOne(policy, init[x], c);
      }
    }
  }

  /** An attribute falsy at the start ends holding the non-empty values the
      rules contribute to it joined with the policy's separator. */
  lemma JoinedTargets(policy: Policy, init: Attrs, tree: Tree, rules: seq<Rule>, x: string)
    requires policy != Overwrite && x in init && !Truthy(init[x])
    requires RunRules(policy, init, tree, rules).error.None?
    requires forall k :: 0 <= k < |Contributions(tree, rules, x)| ==> Contributions(tree, rules, x)[k] != []
    requires policy == StripAppend ==>
      forall k :: 0 <= k < |Contributions(tree, rules, x)| ==> Trimmed(Contributions(tree, rules, x)[k])
    ensures x in RunRules(policy, init, tree, rules).attrs
    ensures RunRules(policy, init, tree, rules).attrs[x] ==
      var cs := Contributions(tree, rules, x);
      if cs == [] then init[x] else Str(Join(Separator(policy), cs))
  {
    RunAccumulates(policy, init, tree, rules, x);
    if Contributions(tree, rules, x) != [] {
      AccumulateJoins(policy, init[x], Contributions(tree, rules, x));
    }
  }

  /** An overwriting extraction fails exactly when one of its transforms
      raises. */
  lemma {:induction false} OverwriteFails(init: Attrs, tree: Tree, rules: seq<Rule>)
    ensures RunRules(Overwrite, init, tree, rules).error.None? <==> NoneRaise(tree, rules)
    decreases |rules|
  {
    if rules != [] {
      var pre := rules[..|rules| - 1];
      var last := rules[|rules| - 1];
      OverwriteFails(init, tree, pre);
      if !NoneRaise(tree, pre) {
        var j :| 0 <= j < |pre| && Failure(tree, pre[j]).Some?;
        assert rules[j] == pre[j];
      } else {
        OverwriteStep(RunRules(Overwrite, init, tree, pre).attrs, tree, last);
        assert NoneRaise(tree, rules) <==> Failure(tree, last).None? by {
          forall j | 0 <= j < |pre| ensures rules[j] == pre[j] { }
        }
      }
    }
  }

  /** An overwriting step fails exactly when its transform raises. */
  lemma OverwriteStep(attrs: Attrs, tree: Tree, rule: Rule)
    ensures Step(Overwrite, attrs, tree, rule).Ok? <==> Failure(tree, rule).None?
  {
  }

  /** An overwriting extraction none of whose transforms raises completes;
      each attribute ends holding the last value contributed to it, or as it
      was when nothing was. */
  lemma {:induction false} OverwriteLast(init: Attrs, tree: Tree, rules: seq<Rule>, x: string)
    requires NoneRaise(tree, rules)
    ensures RunRules(Overwrite, init, tree, rules).error.None?
    ensures var o := RunRules(Overwrite, init, tree, rules);
      var cs := Contributions(tree, rules, x);
      (cs == [] ==> (x in o.attrs <==> x in init) && (x in init ==> o.attrs[x] == init[x])) &&
      (cs != [] ==> x in o.attrs && o.attrs[x] == Str(cs[|cs| - 1]))
    decreases |rules|
  {
    if rules != [] {
      var pre := rules[..|rules| - 1];
      assert NoneRaise(tree, pre) by {
        forall j | 0 <= j < |pre| ensures Failure(tree, pre[j]).None? {
          assert pre[j] == rules[j];
        }
      }
      OverwriteLast(init, tree, pre, x);
      assert Failure(tree, rules[|rules| - 1]).None?;
    }
  }

  /** What an overwriting extraction leaves in an attribute that one rule,
      reading loc (property prop) through transform t, names: the
      transformed value when one is read and non-empty, otherwise the
      attribute's prior value. */
  function Stored(tree: Tree, loc: Locator, prop: Option<string>, t: Transform, prior: Value): Value {
    match FirstValue(tree, loc, prop)
    case Some(v) => if v == [] then prior else Str(Apply(t, v))
    case None => prior
  }

  /** An overwriting extraction of a table in which only rule k names x. */
  lemma OverwriteSole(init: Attrs, tree: Tree, rules: seq<Rule>, k: nat, x: string)
    requires k < |rules| && rules[k].attr == x
    requires forall j :: 0 <= j < |rules| && j != k ==> rules[j].attr != x
    requires x in init && NoneRaise(tree, rules)
    ensures RunRules(Overwrite, init, tree, rules).error.None?
    ensures x in RunRules(Overwrite, init, tree, rules).attrs
    ensures RunRules(Overwrite, init, tree, rules).attrs[x] ==
      Stored(tree, rules[k].loc, rules[k].prop, rules[k].transform, init[x])
  {
    OverwriteLast(init, tree, rules, x);
    SoleTarget(Overwrite, init, tree, rules, k, x);
  }

  /** The value read from the record element's own attribute p, as the
      record keeps it. */
  function RootValue(tree: Tree, p: string, prior: Value): Value {
    Stored(tree, Root, Some(p), Identity, prior)
  }

  /** An overwriting table whose rules i, i+1 and i+2 read db, ed and rec
      from the record element, and which names none of them (nor the source
      or state) elsewhere, leaves the stamped source and state and the three
      element attributes on the record. */
  lemma RootKeysRun(init: Attrs, tree: Tree, rules: seq<Rule>, source: string, state: string, i: nat)
    requires i + 2 < |rules|
    requires rules[i] == FromRoot("db") && rules[i + 1] == FromRoot("ed") && rules[i + 2] == FromRoot("rec")
    requires forall j :: 0 <= j < |rules| && j != i ==> rules[j].attr != "db"
    requires forall j :: 0 <= j < |rules| && j != i + 1 ==> rules[j].attr != "ed"
    requires forall j :: 0 <= j < |rules| && j != i + 2 ==> rules[j].attr != "rec"
    requires forall j :: 0 <= j < |rules| ==> rules[j].attr != "source" && rules[j].attr != "state"
    requires "db" in init && "ed" in init && "rec" in init && NoneRaise(tree, rules)
    ensures var o := RunRules(Overwrite, Stamped(init, source, state), tree, rules);
      "db" in o.attrs && o.attrs["db"] == RootValue(tree, "db", init["db"]) &&
      "ed" in o.attrs && o.attrs["ed"] == RootValue(tree, "ed", init["ed"]) &&
      "rec" in o.attrs && o.attrs["rec"] == RootValue(tree, "rec", init["rec"]) &&
      "source" in o.attrs && o.attrs["source"] == Str(source) &&
      "state" in o.attrs && o.attrs["state"] == Str(state)
  {
    var s := Stamped(init, source, state);
    OverwriteSole(s, tree, rules, i, "db");
    OverwriteSole(s, tree, rules, i + 1, "ed");
    OverwriteSole(s, tree, rules, i + 2, "rec");
    OverwriteKeeps(s, tree, rules, "source");
    OverwriteKeeps(s, tree, rules, "state");
  }

  /** The storage key of a record the run above produced. */
  lemma RootKey(init: Attrs, tree: Tree, rules: seq<Rule>, source: string, state: string)
    requires var o := RunRules(Overwrite, Stamped(init, source, state), tree, rules);
      "db" in o.attrs && o.attrs["db"] == RootValue(tree, "db", Null) &&
      "ed" in o.attrs && o.attrs["ed"] == RootValue(tree, "ed", Null) &&
      "rec" in o.attrs && o.attrs["rec"] == RootValue(tree, "rec", Null) &&
      "source" in o.attrs && o.attrs["source"] == Str(source)
    ensures Key(RunRules(Overwrite, Stamped(init, source, state), tree, rules).attrs) ==
      Ok(source + ":" + Format(RootValue(tree, "db", Null)) + "." +
        Format(RootValue(tree, "ed", Null)) + "." + Format(RootValue(tree, "rec", Null)))
  {
  }

  /** An overwriting extraction keeps an attribute no rule names. */
  lemma OverwriteKeeps(init: Attrs, tree: Tree, rules: seq<Rule>, x: string)
    requires forall j :: 0 <= j < |rules| ==> rules[j].attr != x
    requires x in init && NoneRaise(tree, rules)
    ensures RunRules(Overwrite, init, tree, rules).error.None?
    ensures x in RunRules(Overwrite, init, tree, rules).attrs
    ensures RunRules(Overwrite, init, tree, rules).attrs[x] == init[x]
  {
    OverwriteLast(init, tree, rules, x);
    NotTargeted(rules, x);
    RunRulesFrame(Overwrite, init, tree, rules);
  }

  /** dict(self) as to_dict builds it: every attribute whose name does not
      start with "__". */
  function ToDict(attrs: Attrs): (d: Attrs)
    ensures forall a :: a in d <==> a in attrs && !(|a| >= 2 && a[..2] == "__")
    ensures forall a :: a in d ==> d[a] == attrs[a]
  {
    map a | a in attrs && !(|a| >= 2 && a[..2] == "__") :: attrs[a]
  }

  /** str.format of a value. */
  function Format(v: Value): string {
    match v
    case Null => "None"
    case Str(s) => s
    case Int(i) => IntToString(i)
    case Bool(b) => if b then "True" else "False"
  }

  /** The storage key "{source}:{db}.{ed}.{rec}" of a summary record. */
  function Key(attrs: Attrs): (r: Result<string>)
    ensures r.Err? <==> !("source" in attrs && "db" in attrs && "ed" in attrs && "rec" in attrs)
    ensures r.Ok? ==> r.value == Format(attrs["source"]) + ":" + Format(attrs["db"]) + "." + Format(attrs["ed"]) + "." + Format(attrs["rec"])
  {
    if "source" !in attrs then Err(AttributeError("source"))
    else if "db" !in attrs then Err(AttributeError("db"))
    else if "ed" !in attrs then Err(AttributeError("ed"))
    else if "rec" !in attrs then Err(AttributeError("rec"))
    else Ok(Format(attrs["source"]) + ":" + Format(attrs["db"]) + "." + Format(attrs["ed"]) + "." + Format(attrs["rec"]))
  }

  /** A record object: its instance attributes, changed in place. */
  class Record {
    var attrs: Attrs

    /** __init__: the kind's defaults. */
    constructor (defaults: Attrs)
      ensures attrs == defaults
    {
      attrs := defaults;
    }

    /** setattr(self, name, v). */
    method Set(name: string, v: Value)
      modifies this
      ensures attrs == old(attrs)[name := v]
    {
      attrs := attrs[name := v];
    }

    /** The mapping loop of from_xml: rules applied in order; an exception
        ends the loop and leaves the attributes the earlier rules set. */
    method Extract(policy: Policy, rules: seq<Rule>, tree: Tree) returns (err: Option<Error>)
      modifies this
      ensures Outcome(attrs, err) == RunRules(policy, old(attrs), tree, rules)
    {
      ghost var init := attrs;
      err := None;
      var i := 0;
      while i < |rules|
        invariant 0 <= i <= |rules|
        invariant RunRules(policy, init, tree, rules[..i]) == Outcome(attrs, None)
      {
        assert rules[..i + 1][..i] == rules[..i];
        var rule := rules[i];
        var found := FindAll(tree, rule.loc);
        if found != [] {
          var value := Read(found[0], rule.prop);
          if value.Some? && value.value != [] {
            var applied := ApplyAsWritten(rule.transform, value.value);
            if applied.Err? {
              err := Some(applied.error);
              ErrorPersists(policy, init, tree, rules, i + 1);
              return;
            }
            var v := applied.value;
            if policy == Overwrite {
              attrs := attrs[rule.attr := Str(v)];
            } else if rule.attr !in attrs {
              err := Some(AttributeError(rule.attr));
              ErrorPersists(policy, init, tree, rules, i + 1);
              return;
            } else {
              var combined := Combine(policy, attrs[rule.attr], v);
              if combined.Err? {
                err := Some(combined.error);
                ErrorPersists(policy, init, tree, rules, i + 1);
                return;
              }
              attrs := attrs[rule.attr := combined.value];
            }
          }
        }
        i := i + 1;
      }
      assert rules[..i] == rules;
    }

    /** from_xml with the folded table lookup. */
    method FromXmlFolded(policy: Policy, tables: Tables, tree: Tree, source: string, state: string) returns (err: Option<Error>)
      modifies this
      ensures Outcome(attrs, err) == FoldedFromXml(policy, tables, old(attrs), tree, source, state)
    {
      var lookup := LookupFolded(tables, source, state);
      if lookup.Err? {
        return Some(lookup.error);
      }
      err := Extract(policy, lookup.value, tree);
    }

    /** from_xml with the exact table lookup and the source and state
        recorded first. */
    method FromXmlStamped(policy: Policy, tables: Tables, tree: Tree, source: string, state: string) returns (err: Option<Error>)
      modifies this
      ensures Outcome(attrs, err) == StampedFromXml(policy, tables, old(attrs), tree, source, state)
    {
      var lookup := LookupExact(tables, source, state);
      if lookup.Err? {
        return Some(lookup.error);
      }
      Set("source", Str(source));
      Set("state", Str(state));
      err := Extract(policy, lookup.value, tree);
    }
  }
}

/** Real-property summaries (RpSummary). Property searches span the country,
    so the state is not taken from the caller: it is read from the record's
    attribution text ("Garland County (Arkansas) - ..."), as is the county,
    and a state's tables may hold a county-specific table beside the
    default "*" one. Values overwrite the attribute they name. */
module RpSummary {
  import opened Outcomes
  import opened Text
  import opened Xml
  import opened Transforms
  import opened Engine

  const TxRules: seq<Rule> := [
    ByPath("./disp_fld1", "owner_name", Clean),
    ByPath("./disp_fld2", "owner_address", AfterColon),
    ByPath("./disp_fld3", "property_address", AfterColon),
    ByPath("./source", "data_source", Identity),
    FromRoot("db"),
    FromRoot("ed"),
    FromRoot("rec")
  ]

  const ArRules: seq<Rule> := [
    ByPath("./disp_fld1", "owner_name", AfterColon),
    ByPath("./disp_fld2", "property_id", AfterColon),
    ByPath("./disp_fld3", "parcel_id", AfterColon),
    ByPath("./disp_fld4", "property_address", AfterColon),
    ByPath("./source", "data_source", Identity),
    FromRoot("db"),
    FromRoot("ed"),
    FromRoot("rec")
  ]

  const WashingtonRules: seq<Rule> := [
    ByPath("./disp_fld1", "owner_name", Identity),
    ByPath("./disp_fld2", "owner_address", AfterColon),
    ByPath("./disp_fld3", "property_address", AfterColon),
    ByPath("./source", "data_source", Identity),
    FromRoot("db"),
    FromRoot("ed"),
    FromRoot("rec")
  ]

  /** A state's tables, keyed by upper-case county name or "*". */
  type CountyTables = map<string, seq<Rule>>

  const Mappings: map<string, map<string, CountyTables>> := map[
    "PUBLICDATA" := map[
      "TX" := map["*" := TxRules],
      "AR" := map["*" := ArRules, "WASHINGTON" := WashingtonRules]]]

  /** The attributes __init__ sets to None. */
  const NoneNames: set<string> := {
    "owner_name", "owner_address", "property_address", "property_id", "parcel_id", "county",
    "street", "csz", "latitude", "longitude", "zestimate", "zbranding",
    "data_source", "db", "ed", "rec", "source", "state", "hash"
  }

  /** __init__: None everywhere except zillow (False) and the case status
      "N" (neither included nor excluded). */
  function Defaults(): Attrs {
    (map a | a in NoneNames :: Null)["zillow" := Bool(false)]["case_status" := Str("N")]
  }

  method New() returns (r: Record)
    ensures fresh(r) && r.attrs == Defaults()
  {
    r := new Record(Defaults());
  }

  /** re.findall(r"\(([A-Za-z\s]*)", text)[0].upper(): the letters and
      whitespace right after the first "(", upper-cased; IndexError when
      there is no "(". */
  function StateName(attribution: string): Result<string> {
    match Find(attribution, '(')
    case None => Err(IndexError)
    case Some(i) => Ok(Upper(TakeWhileLetterOrSpace(attribution[i + 1..])))
  }

  /** re.findall(r"^([A-Za-z\s]*)", text)[0].replace(" County", "").strip(). */
  function County(attribution: string): string {
    Strip(ReplaceAll(TakeWhileLetterOrSpace(attribution), " County", ""))
  }

  /** What from_xml derives before it runs a table. */
  datatype Selection = Selection(state: string, county: string, rules: seq<Rule>)

  /** The source check, the attribution read from the first ./source
      element, the state-name lookup in names (the abbreviation table), the
      state check, and the county table or else the "*" one. */
  function Select(tree: Tree, source: string, names: map<string, string>): Result<Selection> {
    if source !in Mappings then Err(ValueError("No mappings for this source: " + source))
    else
      var found := FindAll(tree, Path("./source"));
      if found == [] then Err(IndexError)
      else match found[0].text
        case None => Err(TypeError("expected string or bytes-like object"))
        case Some(attribution) =>
          match StateName(attribution)
          case Err(e) => Err(e)
          case Ok(name) =>
            if name !in names then Err(KeyError(name))
            else
              var state := names[name];
              var county := County(attribution);
              if state !in Mappings[source] then Err(ValueError("No " + source + " mappings for this state: " + state))
              else
                match TableFor(Mappings[source][state], county)
                case Err(e) => Err(e)
                case Ok(rules) => Ok(Selection(state, county, rules))
  }

  /** The table named by the upper-cased county, or else the "*" one
      (KeyError when a state has neither). */
  function TableFor(tables: CountyTables, county: string): Result<seq<Rule>> {
    if Upper(county) in tables then Ok(tables[Upper(county)])
    else if "*" in tables then Ok(tables["*"])
    else Err(KeyError("*"))
  }

  /** What from_xml records before it runs the table. */
  function Prepared(init: Attrs, source: string, sel: Selection): Attrs {
    init["source" := Str(source)]["state" := Str(sel.state)]["county" := Str(sel.county)]
  }

  /** from_xml(root, source, state): the state argument is not read. */
  function FromXmlSpec(init: Attrs, tree: Tree, source: string, state: string, names: map<string, string>): Outcome {
    match Select(tree, source, names)
    case Err(e) => Outcome(init, Some(e))
    case Ok(sel) => RunRules(Overwrite, Prepared(init, source, sel), tree, sel.rules)
  }

  method FromXml(r: Record, tree: Tree, source: string, state: string, names: map<string, string>)
    returns (err: Option<Error>)
    modifies r
    ensures Outcome(r.attrs, err) == FromXmlSpec(old(r.attrs), tree, source, state, names)
  {
    var sel := Select(tree, source, names);
    if sel.Err? {
      return Some(sel.error);
    }
    r.Set("source", Str(source));
    r.Set("state", Str(sel.value.state));
    r.Set("county", Str(sel.value.county));
    err := r.Extract(Overwrite, sel.value.rules, tree);
  }

  /** The state name is found exactly when the text has a "(": it is the
      longest run of letters and whitespace right after the first "(",
      upper-cased. */
  lemma StateNameMeaning(a: string)
    ensures StateName(a).Err? <==> '(' !in a
    ensures StateName(a).Ok? ==>
      var rest := a[Find(a, '(').value + 1..];
      var r := StateName(a).value;
      |r| <= |rest| &&
      (forall k :: 0 <= k < |r| ==> IsLetterOrSpace(rest[k]) && r[k] == UpperChar(rest[k])) &&
      (|r| < |rest| ==> !IsLetterOrSpace(rest[|r|]))
  {
    if '(' in a {
      var rest := a[Find(a, '(').value + 1..];
      var run := TakeWhileLetterOrSpace(rest);
      assert StateName(a) == Ok(Upper(run));
      assert forall k :: 0 <= k < |run| ==> run[k] == rest[k];
    }
  }

  /** The county holds only letters and whitespace, with none at either
      end. */
  lemma CountyMeaning(a: string)
    ensures forall k :: 0 <= k < |County(a)| ==> IsLetterOrSpace(County(a)[k])
    ensures County(a) != [] ==> !IsSpace(County(a)[0]) && !IsSpace(County(a)[|County(a)| - 1])
  {
    var run := TakeWhileLetterOrSpace(a);
    var replaced := ReplaceAll(run, " County", "");
    var r := Strip(replaced);
    assert r == County(a);
    ReplaceAllWithin(run, " County");
    StripWithin(replaced);
    forall k | 0 <= k < |r|
      ensures IsLetterOrSpace(r[k])
    {
      assert r[k] in replaced;
      var j :| 0 <= j < |run| && run[j] == r[k];
    }
  }

  /** Refusals, in the order the code meets them: an unknown source
      (ValueError), no ./source element (IndexError), one without text
      (TypeError), no "(" in it (IndexError), a state name the table does
      not know (KeyError), a state with no tables (ValueError). A refusal
      leaves the record as it was. */
  lemma Refusals(init: Attrs, tree: Tree, source: string, state: string, names: map<string, string>)
    ensures var o := FromXmlSpec(init, tree, source, state, names);
      o.error.Some? ==> o.attrs == init
    ensures source != "PUBLICDATA" ==>
      Select(tree, source, names).Err? && Select(tree, source, names).error.ValueError?
    ensures source == "PUBLICDATA" && FindAll(tree, Path("./source")) == [] ==>
      Select(tree, source, names) == Err(IndexError)
    ensures (source == "PUBLICDATA" && FindAll(tree, Path("./source")) != [] &&
             FindAll(tree, Path("./source"))[0].text.None?) ==>
      Select(tree, source, names).Err? && Select(tree, source, names).error.TypeError?
    ensures (source == "PUBLICDATA" && FindAll(tree, Path("./source")) != [] &&
             FindAll(tree, Path("./source"))[0].text.Some? &&
             '(' !in FindAll(tree, Path("./source"))[0].text.value) ==>
      Select(tree, source, names) == Err(IndexError)
    ensures Select(tree, source, names).Ok? ==> Select(tree, source, names).value.state in Mappings[source]
  {
    var found := FindAll(tree, Path("./source"));
    if source == "PUBLICDATA" && found != [] && found[0].text.Some? {
      StateNameMeaning(found[0].text.value);
    }
    match Select(tree, source, names)
    case Err(e) =>
    case Ok(sel) =>
      SelectedTable(tree, source, names, sel);
      TableFacts(sel.rules);
      OverwriteFails(Prepared(init, source, sel), tree, sel.rules);
  }

  /** Which table runs: TX has one table for every county; in AR a county
      whose upper-cased name is WASHINGTON gets its own table and every
      other county the "*" table. */
  lemma TableChoice(county: string)
    ensures TableFor(Mappings["PUBLICDATA"]["TX"], county) == Ok(TxRules)
    ensures Upper(county) == "WASHINGTON" ==> TableFor(Mappings["PUBLICDATA"]["AR"], county) == Ok(WashingtonRules)
    ensures Upper(county) != "WASHINGTON" ==> TableFor(Mappings["PUBLICDATA"]["AR"], county) == Ok(ArRules)
  {
  }

  /** The state argument plays no part. */
  lemma StateArgumentIgnored(init: Attrs, tree: Tree, source: string, s1: string, s2: string, names: map<string, string>)
    ensures FromXmlSpec(init, tree, source, s1, names) == FromXmlSpec(init, tree, source, s2, names)
  {
  }

  predicate KnownTable(rules: seq<Rule>) {
    rules == TxRules || rules == ArRules || rules == WashingtonRules
  }

  /** Every table reads the owner from the first display field alone, takes
      db, ed and rec from the record element as its last three rules, and
      never names the stamped attributes, the zillow flag or the case
      status. */
  lemma TableFacts(rules: seq<Rule>)
    requires KnownTable(rules)
    ensures |rules| >= 4
    ensures rules[0].loc == Path("./disp_fld1") && rules[0].prop == None && rules[0].attr == "owner_name"
    ensures forall j :: 0 < j < |rules| ==> rules[j].attr != "owner_name"
    ensures rules[|rules| - 3] == FromRoot("db") && rules[|rules| - 2] == FromRoot("ed") && rules[|rules| - 1] == FromRoot("rec")
    ensures forall j :: 0 <= j < |rules| && j != |rules| - 3 ==> rules[j].attr != "db"
    ensures forall j :: 0 <= j < |rules| && j != |rules| - 2 ==> rules[j].attr != "ed"
    ensures forall j :: 0 <= j < |rules| && j != |rules| - 1 ==> rules[j].attr != "rec"
    ensures forall j :: 0 <= j < |rules| ==>
      rules[j].attr !in {"source", "state", "county", "zillow", "case_status", "hash"}
    ensures forall j :: 0 <= j < |rules| ==> rules[j].transform != Owner
  {
  }

  /** The owner's name comes from the table's first rule alone. */
  lemma OwnerRun(init: Attrs, tree: Tree, source: string, sel: Selection)
    requires KnownTable(sel.rules) && "owner_name" in init
    ensures var o := RunRules(Overwrite, Prepared(init, source, sel), tree, sel.rules);
      o.error.None? && "owner_name" in o.attrs &&
      o.attrs["owner_name"] == Stored(tree, Path("./disp_fld1"), None, sel.rules[0].transform, init["owner_name"])
  {
    TableFacts(sel.rules);
    OverwriteSole(Prepared(init, source, sel), tree, sel.rules, 0, "owner_name");
  }

  /** The record keeps the source, the state and the county recorded before
      the table runs, and takes db, ed and rec from the record element. */
  lemma KeyRun(init: Attrs, tree: Tree, source: string, sel: Selection)
    requires KnownTable(sel.rules) && "db" in init && "ed" in init && "rec" in init
    ensures var o := RunRules(Overwrite, Prepared(init, source, sel), tree, sel.rules);
      "db" in o.attrs && o.attrs["db"] == RootValue(tree, "db", init["db"]) &&
      "ed" in o.attrs && o.attrs["ed"] == RootValue(tree, "ed", init["ed"]) &&
      "rec" in o.attrs && o.attrs["rec"] == RootValue(tree, "rec", init["rec"]) &&
      "source" in o.attrs && o.attrs["source"] == Str(source) &&
      "state" in o.attrs && o.attrs["state"] == Str(sel.state) &&
      "county" in o.attrs && o.attrs["county"] == Str(sel.county)
  {
    TableFacts(sel.rules);
    var withCounty := init["county" := Str(sel.county)];
    assert Prepared(init, source, sel) == Stamped(withCounty, source, sel.state);
    RootKeysRun(withCounty, tree, sel.rules, source, sel.state, |sel.rules| - 3);
    OverwriteKeeps(Prepared(init, source, sel), tree, sel.rules, "county");
  }

  /** The case status and the zillow flag are never written. */
  lemma KeepRun(init: Attrs, tree: Tree, source: string, sel: Selection)
    requires KnownTable(sel.rules) && "case_status" in init && "zillow" in init
    ensures var o := RunRules(Overwrite, Prepared(init, source, sel), tree, sel.rules);
      "case_status" in o.attrs && o.attrs["case_status"] == init["case_status"] &&
      "zillow" in o.attrs && o.attrs["zillow"] == init["zillow"]
  {
    TableFacts(sel.rules);
    OverwriteKeeps(Prepared(init, source, sel), tree, sel.rules, "case_status");
    OverwriteKeeps(Prepared(init, source, sel), tree, sel.rules, "zillow");
  }

  /** A selection names TX or AR and the table TableFor picks for its
      county. */
  lemma SelectParts(tree: Tree, source: string, names: map<string, string>, sel: Selection)
    requires Select(tree, source, names) == Ok(sel)
    ensures source == "PUBLICDATA" && (sel.state == "TX" || sel.state == "AR")
    ensures TableFor(Mappings[source][sel.state], sel.county) == Ok(sel.rules)
  {
  }

  lemma SelectedTable(tree: Tree, source: string, names: map<string, string>, sel: Selection)
    requires Select(tree, source, names) == Ok(sel)
    ensures KnownTable(sel.rules)
    ensures sel.rules[0].transform == OwnerTransform(sel)
  {
    SelectParts(tree, source, names, sel);
    TableChoice(sel.county);
  }

  /** The owner's transform of the table a selection names: clean_string
      under TX, none in Washington County, Arkansas, and text_after_colon
      elsewhere in Arkansas. */
  function OwnerTransform(sel: Selection): Transform {
    if sel.state == "TX" then Clean
    else if Upper(sel.county) == "WASHINGTON" then Identity
    else AfterColon
  }

  /** The owner's name as that transform leaves it. */
  function OwnerShown(sel: Selection, raw: string): string {
    if sel.state == "TX" then CleanString(raw)
    else if Upper(sel.county) == "WASHINGTON" then raw
    else TextAfterColon(raw)
  }

  lemma OwnerStored(tree: Tree, sel: Selection)
    ensures var raw := FirstValue(tree, Path("./disp_fld1"), None);
      Stored(tree, Path("./disp_fld1"), None, OwnerTransform(sel), Null) ==
        if raw.Some? && raw.value != [] then Str(OwnerShown(sel, raw.value)) else Null
  {
  }

  /** A new summary read under a known source and an attribution that names
      a state with tables: the run completes, records the source and the
      state and county read from the attribution, and stores the owner's
      name as the selected table reads it, or None when the first display
      field is missing or empty. */
  lemma NewSummary(tree: Tree, source: string, state: string, names: map<string, string>, sel: Selection)
    requires Select(tree, source, names) == Ok(sel)
    ensures var o := FromXmlSpec(Defaults(), tree, source, state, names);
      var raw := FirstValue(tree, Path("./disp_fld1"), None);
      o.error.None? &&
      "source" in o.attrs && o.attrs["source"] == Str(source) &&
      "state" in o.attrs && o.attrs["state"] == Str(sel.state) &&
      "county" in o.attrs && o.attrs["county"] == Str(sel.county) &&
      "owner_name" in o.attrs &&
      o.attrs["owner_name"] == if raw.Some? && raw.value != [] then Str(OwnerShown(sel, raw.value)) else Null
  {
    SelectedTable(tree, source, names, sel);
    OwnerRun(Defaults(), tree, source, sel);
    OwnerStored(tree, sel);
    KeyRun(Defaults(), tree, source, sel);
  }

  /** The storage key of a new summary: the source, then db.ed.rec from the
      record element, each printed as None when missing or empty. */
  lemma NewSummaryKey(tree: Tree, source: string, state: string, names: map<string, string>)
    requires Select(tree, source, names).Ok?
    ensures var o := FromXmlSpec(Defaults(), tree, source, state, names);
      Key(o.attrs) == Ok(source + ":" + Format(RootValue(tree, "db", Null)) + "." +
        Format(RootValue(tree, "ed", Null)) + "." + Format(RootValue(tree, "rec", Null)))
  {
    var sel := Select(tree, source, names).value;
    SelectedTable(tree, source, names, sel);
    KeyRun(Defaults(), tree, source, sel);
  }

  /** A new summary stays neither included nor excluded, and not looked up
      on Zillow. */
  lemma NewSummaryStatus(tree: Tree, source: string, state: string, names: map<string, string>)
    requires Select(tree, source, names).Ok?
    ensures var o := FromXmlSpec(Defaults(), tree, source, state, names);
      "case_status" in o.attrs && o.attrs["case_status"] == Str("N") &&
      "zillow" in o.attrs && o.attrs["zillow"] == Bool(false)
  {
    var sel := Select(tree, source, names).value;
    SelectedTable(tree, source, names, sel);
    KeepRun(Defaults(), tree, source, sel);
  }
}

/** Driver's licence summaries (DlSummary): exact table keys, the source and
    state recorded first, and every value overwriting the attribute it names. */
module DlSummary {
  import opened Outcomes
  import opened Xml
  import opened Transforms
  import opened Engine

  const TxRules: seq<Rule> := [
    ByPath("./disp_fld1", "driver_name", Clean),
    ByPath("./disp_fld2", "dob", Identity),
    ByPath("./source", "data_source", Identity),
    FromRoot("db"),
    FromRoot("ed"),
    FromRoot("rec")
  ]

  /** The CO table reads vehicle fields, which __init__ does not declare. */
  const CoRules: seq<Rule> := [
    ByPath("./disp_fld1", "owner_name", Identity),
    ByPath("./disp_fld2", "year_make_model", Identity),
    ByPath("./source", "data_source", Identity),
    FromRoot("db"),
    FromRoot("ed"),
    FromRoot("rec")
  ]

  const Mappings: Tables := map["PUBLICDATA" := map["TX" := TxRules, "CO" := CoRules]]

  /** The attributes __init__ sets, all to None. */
  const AttributeNames: set<string> := {"driver_name", "dob", "data_source", "db", "ed", "rec", "source", "state"}

  function Defaults(): Attrs {
    map a | a in AttributeNames :: Null
  }

  method New() returns (r: Record)
    ensures fresh(r) && r.attrs == Defaults()
  {
    r := new Record(Defaults());
  }

  function FromXmlSpec(init: Attrs, tree: Tree, source: string, state: string): Outcome {
    StampedFromXml(Overwrite, Mappings, init, tree, source, state)
  }

  method FromXml(r: Record, tree: Tree, source: string, state: string) returns (err: Option<Error>)
    modifies r
    ensures Outcome(r.attrs, err) == FromXmlSpec(old(r.attrs), tree, source, state)
  {
    err := r.FromXmlStamped(Overwrite, Mappings, tree, source, state);
  }

  /** Keys are matched exactly: anything but "PUBLICDATA" with "TX" or "CO"
      is refused with ValueError before the record is touched. */
  lemma ExactKeys(init: Attrs, tree: Tree, source: string, state: string)
    requires source != "PUBLICDATA" || (state != "TX" && state != "CO")
    ensures FromXmlSpec(init, tree, source, state).attrs == init
    ensures FromXmlSpec(init, tree, source, state).error.Some? &&
      FromXmlSpec(init, tree, source, state).error.value.ValueError?
  {
  }

  lemma TxFacts()
    ensures TxRules[0] == Rule(Path("./disp_fld1"), None, "driver_name", Clean)
    ensures forall j :: 0 <= j < |TxRules| && j != 0 ==> TxRules[j].attr != "driver_name"
    ensures TxRules[3] == FromRoot("db") && TxRules[4] == FromRoot("ed") && TxRules[5] == FromRoot("rec")
    ensures forall j :: 0 <= j < |TxRules| && j != 3 ==> TxRules[j].attr != "db"
    ensures forall j :: 0 <= j < |TxRules| && j != 4 ==> TxRules[j].attr != "ed"
    ensures forall j :: 0 <= j < |TxRules| && j != 5 ==> TxRules[j].attr != "rec"
    ensures forall j :: 0 <= j < |TxRules| ==> TxRules[j].attr != "source" && TxRules[j].attr != "state"
  {
  }

  lemma CoFacts()
    ensures forall j :: 0 <= j < |CoRules| ==> CoRules[j].attr != "driver_name"
    ensures CoRules[3] == FromRoot("db") && CoRules[4] == FromRoot("ed") && CoRules[5] == FromRoot("rec")
    ensures forall j :: 0 <= j < |CoRules| && j != 3 ==> CoRules[j].attr != "db"
    ensures forall j :: 0 <= j < |CoRules| && j != 4 ==> CoRules[j].attr != "ed"
    ensures forall j :: 0 <= j < |CoRules| && j != 5 ==> CoRules[j].attr != "rec"
    ensures forall j :: 0 <= j < |CoRules| ==> CoRules[j].attr != "source" && CoRules[j].attr != "state"
  {
  }

  /** TX: the driver's name is the first display field through clean_string,
      stored over whatever the attribute held when a non-empty value is read. */
  lemma TxDriverRun(init: Attrs, tree: Tree)
    requires "driver_name" in init
    ensures var o := RunRules(Overwrite, Stamped(init, "PUBLICDATA", "TX"), tree, TxRules);
      o.error.None? && "driver_name" in o.attrs &&
      o.attrs["driver_name"] == Stored(tree, Path("./disp_fld1"), None, Clean, init["driver_name"])
  {
    TxFacts();
    OverwriteSole(Stamped(init, "PUBLICDATA", "TX"), tree, TxRules, 0, "driver_name");
  }

  lemma DriverRead(tree: Tree)
    ensures var raw := FirstValue(tree, Path("./disp_fld1"), None);
      Stored(tree, Path("./disp_fld1"), None, Clean, Null) ==
        if raw.Some? && raw.value != [] then Str(CleanString(raw.value)) else Null
  {
  }

  /** A TX summary read into a new record names the driver as the cleaned
      first display field, or None when that field is missing or empty. */
  lemma TxDriverName(tree: Tree)
    ensures var o := FromXmlSpec(Defaults(), tree, "PUBLICDATA", "TX");
      var raw := FirstValue(tree, Path("./disp_fld1"), None);
      o.error.None? && "driver_name" in o.attrs &&
      o.attrs["driver_name"] == if raw.Some? && raw.value != [] then Str(CleanString(raw.value)) else Null
  {
    TxDriverRun(Defaults(), tree);
    DriverRead(tree);
  }

  /** The CO table never writes the driver's name. */
  lemma CoKeepsDriver(init: Attrs, tree: Tree)
    requires "driver_name" in init
    ensures var o := FromXmlSpec(init, tree, "PUBLICDATA", "CO");
      o.error.None? && "driver_name" in o.attrs && o.attrs["driver_name"] == init["driver_name"]
  {
    CoFacts();
    OverwriteKeeps(Stamped(init, "PUBLICDATA", "CO"), tree, CoRules, "driver_name");
  }

  /** Under either table, db, ed and rec come from the record element's own
      attributes, and the source and state are the arguments. */
  lemma RootKeys(init: Attrs, tree: Tree, state: string)
    requires state == "TX" || state == "CO"
    requires "db" in init && "ed" in init && "rec" in init
    ensures var o := FromXmlSpec(init, tree, "PUBLICDATA", state);
      "db" in o.attrs && o.attrs["db"] == RootValue(tree, "db", init["db"]) &&
      "ed" in o.attrs && o.attrs["ed"] == RootValue(tree, "ed", init["ed"]) &&
      "rec" in o.attrs && o.attrs["rec"] == RootValue(tree, "rec", init["rec"]) &&
      "source" in o.attrs && o.attrs["source"] == Str("PUBLICDATA") &&
      "state" in o.attrs && o.attrs["state"] == Str(state)
  {
    if state == "TX" {
      TxFacts();
      RootKeysRun(init, tree, TxRules, "PUBLICDATA", "TX", 3);
    } else {
      CoFacts();
      RootKeysRun(init, tree, CoRules, "PUBLICDATA", "CO", 3);
    }
  }
}

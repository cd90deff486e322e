/** Vehicle-registration summaries (DmvSummary): exact table keys, the
    source and state recorded first, and every value overwriting the
    attribute it names. */
module DmvSummary {
  import opened Outcomes
  import opened Xml
  import opened Transforms
  import opened Engine

  const TxRules: seq<Rule> := [
    ByPath("./disp_fld1", "owner_name", Identity),
    ByPath("./disp_fld2", "year_make_model", Segment),
    ByPath("./disp_fld3", "plate", Segment),
    ByPath("./disp_fld5", "prev_plate", Identity),
    ByPath("./source", "data_source", Identity),
    FromRoot("db"),
    FromRoot("ed"),
    FromRoot("rec")
  ]

  /** The CO owner transform raises on owner text without a colon; see
      CoOwnerAsWritten. */
  const CoRules: seq<Rule> := [
    ByPath("./disp_fld1", "owner_name", Owner),
    ByPath("./disp_fld2", "year_make_model", Segment),
    ByPath("./source", "data_source", Identity),
    FromRoot("db"),
    FromRoot("ed"),
    FromRoot("rec")
  ]

  const Mappings: Tables := map["PUBLICDATA" := map["TX" := TxRules, "CO" := CoRules]]

  /** The attributes __init__ sets to None. */
  const NoneNames: set<string> := {
    "owner_name", "vin", "year_make_model", "plate", "prev_plate", "data_source", "db", "ed", "rec", "source", "state"
  }

  /** __init__: every attribute None, the case status "N" (neither included
      nor excluded). */
  function Defaults(): (d: Attrs)
    ensures d.Keys == NoneNames + {"case_status"}
    ensures d["case_status"] == Str("N")
    ensures forall a :: a in NoneNames ==> d[a] == Null
  {
    (map a | a in NoneNames :: Null)["case_status" := Str("N")]
  }

  method New() returns (r: Record)
    ensures fresh(r) && r.attrs == Defaults()
  {
    r := new Record(Defaults());
  }

  function FromXmlSpec(init: Attrs, tree: Tree, source: string, state: string): Outcome {
    StampedFromXml(Overwrite, Mappings, init, tree, source, state)
  }

  method FromXml(r: Record, tree: Tree, source: string, state: string) returns (err: Option<Error>)
    modifies r
    ensures Outcome(r.attrs, err) == FromXmlSpec(old(r.attrs), tree, source, state)
  {
    err := r.FromXmlStamped(Overwrite, Mappings, tree, source, state);
  }

  /** Keys are matched exactly: anything but "PUBLICDATA" with "TX" or "CO"
      is refused with ValueError before the record is touched. */
  lemma ExactKeys(init: Attrs, tree: Tree, source: string, state: string)
    requires source != "PUBLICDATA" || (state != "TX" && state != "CO")
    ensures FromXmlSpec(init, tree, source, state).attrs == init
    ensures FromXmlSpec(init, tree, source, state).error.Some? &&
      FromXmlSpec(init, tree, source, state).error.value.ValueError?
  {
  }

  /** The owner text on which the CO table raises: a non-empty first
      display field without a colon. */
  predicate CoOwnerRaises(tree: Tree) {
    var raw := FirstValue(tree, Path("./disp_fld1"), None);
    raw.Some? && raw.value != [] && ':' !in raw.value
  }

  lemma CoFacts()
    ensures CoRules[0] == Rule(Path("./disp_fld1"), None, "owner_name", Owner)
    ensures forall j :: 0 < j < |CoRules| ==> CoRules[j].transform != Owner && CoRules[j].attr != "owner_name"
  {
  }

  /** Of the CO rules only the owner rule can raise, and it raises exactly
      on colon-less owner text. */
  lemma CoRaises(tree: Tree)
    ensures NoneRaise(tree, CoRules) <==> !CoOwnerRaises(tree)
  {
    CoFacts();
    if !CoOwnerRaises(tree) {
      forall j | 0 <= j < |CoRules|
        ensures Failure(tree, CoRules[j]).None?
      {
      }
    } else {
      assert Failure(tree, CoRules[0]).Some?;
    }
  }

  /** A known table runs to the end, except that the CO table raises on
      colon-less owner text; no other rule of either table can fail. */
  lemma KnownStatesComplete(init: Attrs, tree: Tree, state: string)
    requires state == "TX" || state == "CO"
    ensures FromXmlSpec(init, tree, "PUBLICDATA", state).error.None? <==> !(state == "CO" && CoOwnerRaises(tree))
  {
    OverwriteFails(Stamped(init, "PUBLICDATA", state), tree, Mappings["PUBLICDATA"][state]);
    if state == "TX" {
      assert Total(TxRules);
      TotalNeverRaises(tree, TxRules);
    } else {
      CoRaises(tree);
    }
  }

  /** On colon-less owner text a CO summary raises AttributeError at its
      first rule, leaving only the source and state recorded. */
  lemma CoOwnerWithoutColonRaises(init: Attrs, tree: Tree)
    requires CoOwnerRaises(tree)
    ensures FromXmlSpec(init, tree, "PUBLICDATA", "CO") ==
      Outcome(Stamped(init, "PUBLICDATA", "CO"), Some(AttributeError("copy")))
  {
    var s := Stamped(init, "PUBLICDATA", "CO");
    CoFacts();
    assert CoRules[..1] == [CoRules[0]];
    assert CoRules[..1][..0] == [];
    assert Failure(tree, CoRules[0]) == Some(AttributeError("copy"));
    assert RunRules(Overwrite, s, tree, CoRules[..1]) == Outcome(s, Some(AttributeError("copy")));
    ErrorPersists(Overwrite, s, tree, CoRules, 1);
  }

  lemma TxFacts()
    ensures TxRules[0] == Rule(Path("./disp_fld1"), None, "owner_name", Identity)
    ensures TxRules[2] == Rule(Path("./disp_fld3"), None, "plate", Segment)
    ensures TxRules[5] == Rule(Root, Some("db"), "db", Identity)
    ensures TxRules[6] == Rule(Root, Some("ed"), "ed", Identity)
    ensures TxRules[7] == Rule(Root, Some("rec"), "rec", Identity)
    ensures forall j :: 0 <= j < |TxRules| && j != 0 ==> TxRules[j].attr != "owner_name"
    ensures forall j :: 0 <= j < |TxRules| && j != 2 ==> TxRules[j].attr != "plate"
    ensures forall j :: 0 <= j < |TxRules| && j != 5 ==> TxRules[j].attr != "db"
    ensures forall j :: 0 <= j < |TxRules| && j != 6 ==> TxRules[j].attr != "ed"
    ensures forall j :: 0 <= j < |TxRules| && j != 7 ==> TxRules[j].attr != "rec"
    ensures forall j :: 0 <= j < |TxRules| ==>
      TxRules[j].attr !in {"vin", "case_status", "source", "state"}
  {
  }

  /** A TX summary: the owner as displayed and the plate from "label:
      plate", each overwriting the attribute when a non-empty value is read. */
  lemma TxDisplayRun(init: Attrs, tree: Tree)
    requires "owner_name" in init && "plate" in init
    ensures var o := RunRules(Overwrite, Stamped(init, "PUBLICDATA", "TX"), tree, TxRules);
      o.error.None? &&
      "owner_name" in o.attrs && o.attrs["owner_name"] == Stored(tree, Path("./disp_fld1"), None, Identity, init["owner_name"]) &&
      "plate" in o.attrs && o.attrs["plate"] == Stored(tree, Path("./disp_fld3"), None, Segment, init["plate"])
  {
    var s := Stamped(init, "PUBLICDATA", "TX");
    TxFacts();
    OverwriteSole(s, tree, TxRules, 0, "owner_name");
    OverwriteSole(s, tree, TxRules, 2, "plate");
  }

  /** A TX summary takes db, ed and rec from the record element's own
      attributes and keeps the source and state stamped before the run. */
  lemma TxKeyRun(init: Attrs, tree: Tree)
    requires "db" in init && "ed" in init && "rec" in init
    ensures var o := RunRules(Overwrite, Stamped(init, "PUBLICDATA", "TX"), tree, TxRules);
      "db" in o.attrs && o.attrs["db"] == RootValue(tree, "db", init["db"]) &&
      "ed" in o.attrs && o.attrs["ed"] == RootValue(tree, "ed", init["ed"]) &&
      "rec" in o.attrs && o.attrs["rec"] == RootValue(tree, "rec", init["rec"]) &&
      "source" in o.attrs && o.attrs["source"] == Str("PUBLICDATA") &&
      "state" in o.attrs && o.attrs["state"] == Str("TX")
  {
    TxFacts();
    RootKeysRun(init, tree, TxRules, "PUBLICDATA", "TX", 5);
  }

  /** No TX rule names the VIN or the case status. */
  lemma TxKeepRun(init: Attrs, tree: Tree)
    requires "vin" in init && "case_status" in init
    ensures var o := RunRules(Overwrite, Stamped(init, "PUBLICDATA", "TX"), tree, TxRules);
      "vin" in o.attrs && o.attrs["vin"] == init["vin"] &&
      "case_status" in o.attrs && o.attrs["case_status"] == init["case_status"]
  {
    var s := Stamped(init, "PUBLICDATA", "TX");
    TxFacts();
    OverwriteKeeps(s, tree, TxRules, "vin");
    OverwriteKeeps(s, tree, TxRules, "case_status");
  }

  /** The plate a TX summary shows: the stripped text after the first colon
      of the third display field (all of it when there is no colon); None
      when that field is missing or empty. */
  lemma TxPlate(tree: Tree)
    ensures var o := FromXmlSpec(Defaults(), tree, "PUBLICDATA", "TX");
      var raw := FirstValue(tree, Path("./disp_fld3"), None);
      o.error.None? && "plate" in o.attrs &&
      o.attrs["plate"] == if raw.Some? && raw.value != [] then Str(ColonSegment(raw.value)) else Null
  {
    TxDisplayRun(Defaults(), tree);
    PlateRead(tree);
  }

  /** The plate stored into a None attribute. */
  lemma PlateRead(tree: Tree)
    ensures var raw := FirstValue(tree, Path("./disp_fld3"), None);
      Stored(tree, Path("./disp_fld3"), None, Segment, Null) ==
        if raw.Some? && raw.value != [] then Str(ColonSegment(raw.value)) else Null
  {
  }

  /** The storage key of a TX summary read into a new record:
      "PUBLICDATA:db.ed.rec" from the record element's attributes, each
      printed as None when missing or empty. */
  lemma TxKey(tree: Tree)
    ensures var o := FromXmlSpec(Defaults(), tree, "PUBLICDATA", "TX");
      Key(o.attrs) == Ok("PUBLICDATA" + ":" + Format(RootValue(tree, "db", Null)) + "." +
        Format(RootValue(tree, "ed", Null)) + "." + Format(RootValue(tree, "rec", Null)))
  {
    TxKeyRun(Defaults(), tree);
  }

  /** A new TX summary keeps its case status "N" and has no VIN. */
  lemma TxKeepsStatus(tree: Tree)
    ensures var o := FromXmlSpec(Defaults(), tree, "PUBLICDATA", "TX");
      "case_status" in o.attrs && o.attrs["case_status"] == Str("N") &&
      "vin" in o.attrs && o.attrs["vin"] == Null
  {
    TxKeepRun(Defaults(), tree);
  }

  /** On owner text it can handle, a CO summary completes and stores the
      transformed owner text. */
  lemma CoRun(init: Attrs, tree: Tree)
    requires "owner_name" in init && !CoOwnerRaises(tree)
    ensures var o := RunRules(Overwrite, Stamped(init, "PUBLICDATA", "CO"), tree, CoRules);
      o.error.None? && "owner_name" in o.attrs &&
      o.attrs["owner_name"] == Stored(tree, Path("./disp_fld1"), None, Owner, init["owner_name"])
  {
    CoFacts();
    CoRaises(tree);
    OverwriteSole(Stamped(init, "PUBLICDATA", "CO"), tree, CoRules, 0, "owner_name");
  }

  lemma CoNewRecord(tree: Tree)
    requires !CoOwnerRaises(tree)
    ensures var o := FromXmlSpec(Defaults(), tree, "PUBLICDATA", "CO");
      o.error.None? && "owner_name" in o.attrs &&
      o.attrs["owner_name"] == Stored(tree, Path("./disp_fld1"), None, Owner, Null)
  {
    CoRun(Defaults(), tree);
  }

  /** A CO summary's owner, when its text has a colon (or is missing or
      empty): the cleaned text after the first colon, less a trailing "/". */
  lemma CoOwnerRead(tree: Tree)
    requires !CoOwnerRaises(tree)
    ensures var o := FromXmlSpec(Defaults(), tree, "PUBLICDATA", "CO");
      var raw := FirstValue(tree, Path("./disp_fld1"), None);
      o.error.None? && "owner_name" in o.attrs &&
      o.attrs["owner_name"] ==
        if raw.Some? && raw.value != [] then Str(CleanString(DropTrailingSlash(ColonSegment(raw.value)))) else Null
  {
    CoNewRecord(tree);
    OwnerRead(tree);
  }

  /** The owner stored into a None attribute. */
  lemma OwnerRead(tree: Tree)
    ensures var raw := FirstValue(tree, Path("./disp_fld1"), None);
      Stored(tree, Path("./disp_fld1"), None, Owner, Null) ==
        if raw.Some? && raw.value != [] then Str(CoOwner(raw.value)) else Null
  {
  }
}

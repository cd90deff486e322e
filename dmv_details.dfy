/** Vehicle registration details (DmvDetails): fields located by label; a
    second value for an attribute is appended after " / ". */
module DmvDetails {
  import opened Outcomes
  import opened Text
  import opened Xml
  import opened Transforms
  import opened Engine

  const TxRules: seq<Rule> := [
    ByLabel("Owner Name", "owner_name", Identity),
    ByLabel("Owner Street", "owner_street", Identity),
    ByLabel("Owner City", "owner_city", Identity),
    ByLabel("Owner State", "owner_state", Identity),
    ByLabel("Owner ZIP Code", "owner_zip", Identity),
    ByLabel("Previous Owner Name", "prev_owner_name", Identity),
    ByLabel("Previous Owner City", "prev_owner_city", Identity),
    ByLabel("Previous Owner State", "prev_owner_state", Identity),
    ByLabel("Renewal Notice Street", "notice_street", Identity),
    ByLabel("Renewal Notice City", "notice_city", Identity),
    ByLabel("Renewal Notice State", "notice_state", Identity),
    ByLabel("Renewal Notice ZIP Code", "notice_zip", Identity),
    ByLabelProp("License Plate Number", "formattedplate", "plate"),
    ByLabelProp("Previous License Plate Number", "formattedplate", "prev_plate"),
    ByLabelProp("Title Date", "formatteddate", "title_date"),
    ByLabel("Vehicle Sold Date", "sold_date", Identity),
    ByLabel("Vehicle Sales Price", "sold_price", Identity),
    ByLabel("Model Year", "year", Identity),
    ByLabel("Make", "make", Identity),
    ByLabel("Model", "model", Identity),
    ByLabel("Model Description", "model_desc", Identity),
    ByLabel("Vehicle Body Type", "body_type", Identity),
    ByLabel("Vehicle Class Code", "class_code", Identity),
    ByLabel("Vehicle Major Color[Color Group]", "main_color", Identity),
    ByLabel("Vehicle Minor Color[Color Group]", "other_color", Identity),
    ByLabelProp("VIN Number", "formattedvin", "vin")
  ]

  /** Up to three owners, each cleaned. */
  const CoOwnerRules: seq<Rule> := [
    ByLabel("Owner 1", "owner_name", Clean),
    ByLabel("Owner 2", "owner_name", Clean),
    ByLabel("Owner 3", "owner_name", Clean)
  ]

  const CoOtherRules: seq<Rule> := [
    ByLabel("Legal Address", "owner_street", Identity),
    ByLabel("Legal City", "owner_city", Identity),
    ByLabel("Legal State", "owner_state", Identity),
    ByLabel("Legal ZIP Code", "owner_zip", Identity),
    ByLabel("Mail Address", "notice_street", Identity),
    ByLabel("Mail City", "notice_city", Identity),
    ByLabel("Mail State", "notice_state", Identity),
    ByLabel("Mail ZIP Code", "notice_zip", Identity),
    ByLabelProp("Lic. Plate", "formattedplate", "plate"),
    ByLabelProp("Previous License Plate", "formattedplate", "prev_plate"),
    ByLabelProp("Tran. Date", "formatteddate", "title_date"),
    ByLabelProp("Purchase Date", "formatteddate", "sold_date"),
    ByLabel("Purchase Price", "sold_price", Identity),
    ByLabel("Vehicle Year", "year", Identity),
    ByLabel("Make", "make", Identity),
    ByLabel("Model", "model", Identity),
    ByLabel("Model Description", "model_desc", Identity),
    ByLabel("Title Vehicle Type", "body_type", Identity),
    ByLabel("Own. Tax Class", "class_code", Identity),
    ByLabel("VIN", "vin", Identity)
  ]

  const CoRules: seq<Rule> := CoOwnerRules + CoOtherRules

  const Mappings: Tables := map["PUBLICDATA" := map["TX" := TxRules, "CO" := CoRules]]

  /** The attributes __init__ creates, all None. */
  const AttributeNames: set<string> := {
    "owner_city", "owner_name", "owner_state", "owner_street", "owner_zip",
    "prev_owner_city", "prev_owner_name", "prev_owner_state", "prev_owner_street", "prev_owner_zip",
    "notice_city", "notice_name", "notice_state", "notice_street", "notice_zip",
    "plate", "prev_plate", "vin", "title_date", "sold_date", "sold_price",
    "year", "make", "model", "model_desc", "body_type", "class_code", "main_color", "other_color"
  }

  function Defaults(): (d: Attrs)
    ensures d.Keys == AttributeNames
    ensures forall a :: a in d ==> d[a] == Null
  {
    map a | a in AttributeNames :: Null
  }

  method New() returns (r: Record)
    ensures fresh(r) && r.attrs == Defaults()
  {
    r := new Record(Defaults());
  }

  /** from_xml on a record holding init. */
  function FromXmlSpec(init: Attrs, tree: Tree, source: string, state: string): Outcome {
    FoldedFromXml(SlashAppend, Mappings, init, tree, source, state)
  }

  method FromXml(r: Record, tree: Tree, source: string, state: string) returns (err: Option<Error>)
    modifies r
    ensures Outcome(r.attrs, err) == FromXmlSpec(old(r.attrs), tree, source, state)
  {
    err := r.FromXmlFolded(SlashAppend, Mappings, tree, source, state);
  }

  /** A source other than PUBLICDATA, in any case, is refused with
      ValueError and the record is left as it was. */
  lemma UnknownSourceRefused(init: Attrs, tree: Tree, source: string, state: string)
    requires Upper(source) != "PUBLICDATA"
    ensures FromXmlSpec(init, tree, source, state) == Outcome(init, Some(ValueError("No mappings for this source: " + source)))
  {
  }

  /** PUBLICDATA spelled in another case passes the first test and then
      fails with KeyError. */
  lemma MixedCaseSourceFails(init: Attrs, tree: Tree, source: string, state: string)
    requires Upper(source) == "PUBLICDATA" && source != "PUBLICDATA"
    ensures FromXmlSpec(init, tree, source, state) == Outcome(init, Some(KeyError(source)))
  {
  }

  /** A state other than TX and CO, in any case, is refused with ValueError. */
  lemma UnknownStateRefused(init: Attrs, tree: Tree, state: string)
    requires Upper(state) != "TX" && Upper(state) != "CO"
    ensures FromXmlSpec(init, tree, "PUBLICDATA", state) ==
      Outcome(init, Some(ValueError("No " + "PUBLICDATA" + " mappings for this state: " + state)))
  {
    assert Upper("PUBLICDATA") == "PUBLICDATA";
  }

  /** The state is matched without regard to case: "tx" selects the TX table. */
  lemma StateCaseIgnored(init: Attrs, tree: Tree, state: string)
    requires Upper(state) == "TX" || Upper(state) == "CO"
    ensures FromXmlSpec(init, tree, "PUBLICDATA", state) == FromXmlSpec(init, tree, "PUBLICDATA", Upper(state))
  {
    UpperIdempotent(state);
    assert Upper("PUBLICDATA") == "PUBLICDATA";
  }

  /** The rules of the table chosen for a mapped state. */
  lemma RulesOf(init: Attrs, tree: Tree, state: string)
    requires state == "TX" || state == "CO"
    ensures FromXmlSpec(init, tree, "PUBLICDATA", state) == RunRules(SlashAppend, init, tree, Mappings["PUBLICDATA"][state])
  {
    assert Upper("PUBLICDATA") == "PUBLICDATA";
    assert Upper(state) == state;
  }

  lemma TargetsDeclared()
    ensures Targets(TxRules) <= AttributeNames && Targets(CoRules) <= AttributeNames
  {
    assert forall j :: 0 <= j < |TxRules| ==> TxRules[j].attr in AttributeNames;
    assert forall j :: 0 <= j < |CoRules| ==> CoRules[j].attr in AttributeNames;
    TargetsWithin(TxRules, AttributeNames);
    TargetsWithin(CoRules, AttributeNames);
  }

  /** No table uses a transform that raises. */
  lemma TablesNeverRaise(tree: Tree)
    ensures NoneRaise(tree, TxRules) && NoneRaise(tree, CoRules)
  {
    assert forall j :: 0 <= j < |TxRules| ==> TxRules[j].transform != Owner;
    assert forall j :: 0 <= j < |CoRules| ==> CoRules[j].transform != Owner;
  }

  /** A new record takes every mapped table to the end without an exception,
      and creates no attribute beyond those of __init__. */
  lemma NewRecordCompletes(tree: Tree, state: string)
    requires state == "TX" || state == "CO"
    ensures FromXmlSpec(Defaults(), tree, "PUBLICDATA", state).error.None?
    ensures FromXmlSpec(Defaults(), tree, "PUBLICDATA", state).attrs.Keys == AttributeNames
  {
    RulesOf(Defaults(), tree, state);
    TargetsDeclared();
    TablesNeverRaise(tree);
    CompletesKeepingAttributes(SlashAppend, Defaults(), tree, Mappings["PUBLICDATA"][state]);
  }

  /** The cleaned, non-empty owner text of one CO owner field, if any. */
  function OwnerText(tree: Tree, name: string): seq<string> {
    match FirstValue(tree, FieldLabel(name), None)
    case Some(raw) => if raw == [] then [] else [CleanString(raw)]
    case None => []
  }

  /** A cleaned owner text is never empty. */
  lemma OwnerTextNonEmpty(tree: Tree, name: string)
    ensures |OwnerText(tree, name)| <= 1 && forall k :: 0 <= k < |OwnerText(tree, name)| ==> OwnerText(tree, name)[k] != []
  {
    match FirstValue(tree, FieldLabel(name), None)
    case Some(raw) => CleanStringProperties(raw);
    case None =>
  }

  lemma CoOwnerRulesFirst()
    ensures |CoRules| > 3 && CoRules[..3] == CoOwnerRules
    ensures forall j :: 3 <= j < |CoRules| ==> CoRules[j].attr != "owner_name"
  {
  }

  lemma OwnerRule(tree: Tree, name: string)
    ensures Contributions(tree, [ByLabel(name, "owner_name", Clean)], "owner_name") == OwnerText(tree, name)
  {
    ContributionsOne(tree, ByLabel(name, "owner_name", Clean), "owner_name");
  }

  lemma CoOwnerContributions(tree: Tree)
    ensures Contributions(tree, CoOwnerRules, "owner_name") ==
      OwnerText(tree, "Owner 1") + OwnerText(tree, "Owner 2") + OwnerText(tree, "Owner 3")
  {
    var r0, r1, r2 := CoOwnerRules[0], CoOwnerRules[1], CoOwnerRules[2];
    assert CoOwnerRules == [r0] + [r1] + [r2];
    ContributionsAppend(tree, [r0] + [r1], [r2], "owner_name");
    ContributionsAppend(tree, [r0], [r1], "owner_name");
    OwnerRule(tree, "Owner 1");
    OwnerRule(tree, "Owner 2");
    OwnerRule(tree, "Owner 3");
  }

  lemma CoOwnersRun(init: Attrs, tree: Tree)
    requires "owner_name" in init && init["owner_name"] == Null
    requires RunRules(SlashAppend, init, tree, CoRules).error.None?
    ensures var owners := OwnerText(tree, "Owner 1") + OwnerText(tree, "Owner 2") + OwnerText(tree, "Owner 3");
      "owner_name" in RunRules(SlashAppend, init, tree, CoRules).attrs &&
      RunRules(SlashAppend, init, tree, CoRules).attrs["owner_name"] ==
        if owners == [] then Null else Str(Join(" / ", owners))
  {
    var owners := OwnerText(tree, "Owner 1") + OwnerText(tree, "Owner 2") + OwnerText(tree, "Owner 3");
    CoOwnerRulesFirst();
    TargetsBefore(tree, CoRules, 3, "owner_name");
    CoOwnerContributions(tree);
    assert Contributions(tree, CoRules, "owner_name") == owners;
    OwnerTextNonEmpty(tree, "Owner 1");
    OwnerTextNonEmpty(tree, "Owner 2");
    OwnerTextNonEmpty(tree, "Owner 3");
    assert forall k :: 0 <= k < |owners| ==> owners[k] != [];
    JoinedTargets(SlashAppend, init, tree, CoRules, "owner_name");
  }

  /** CO lists up to three owners; the record's owner_name holds the cleaned
      owner texts present, in order, joined with " / ". */
  lemma CoOwnersJoined(tree: Tree)
    ensures var o := FromXmlSpec(Defaults(), tree, "PUBLICDATA", "CO");
      var owners := OwnerText(tree, "Owner 1") + OwnerText(tree, "Owner 2") + OwnerText(tree, "Owner 3");
      o.error.None? && "owner_name" in o.attrs &&
      o.attrs["owner_name"] == if owners == [] then Null else Str(Join(" / ", owners))
  {
    NewRecordCompletes(tree, "CO");
    RulesOf(Defaults(), tree, "CO");
    CoOwnersRun(Defaults(), tree);
  }

  lemma TxFormattedRules()
    ensures TxRules[12] == ByLabelProp("License Plate Number", "formattedplate", "plate")
    ensures forall j :: 0 <= j < |TxRules| && j != 12 ==> TxRules[j].attr != "plate"
    ensures TxRules[13] == ByLabelProp("Previous License Plate Number", "formattedplate", "prev_plate")
    ensures forall j :: 0 <= j < |TxRules| && j != 13 ==> TxRules[j].attr != "prev_plate"
    ensures TxRules[14] == ByLabelProp("Title Date", "formatteddate", "title_date")
    ensures forall j :: 0 <= j < |TxRules| && j != 14 ==> TxRules[j].attr != "title_date"
    ensures TxRules[25] == ByLabelProp("VIN Number", "formattedvin", "vin")
    ensures forall j :: 0 <= j < |TxRules| && j != 25 ==> TxRules[j].attr != "vin"
  {
  }

  /** In TX the plate, the previous plate, the title date and the VIN are
      the formatted attributes of their fields, not the fields' text. */
  lemma TxFormattedFromAttributes(tree: Tree)
    ensures var o := FromXmlSpec(Defaults(), tree, "PUBLICDATA", "TX");
      "plate" in o.attrs && "prev_plate" in o.attrs && "title_date" in o.attrs && "vin" in o.attrs &&
      o.attrs["plate"] == PropValue(tree, "License Plate Number", "formattedplate") &&
      o.attrs["prev_plate"] == PropValue(tree, "Previous License Plate Number", "formattedplate") &&
      o.attrs["title_date"] == PropValue(tree, "Title Date", "formatteddate") &&
      o.attrs["vin"] == PropValue(tree, "VIN Number", "formattedvin")
  {
    NewRecordCompletes(tree, "TX");
    RulesOf(Defaults(), tree, "TX");
    TxFormattedRules();
    SoleTarget(SlashAppend, Defaults(), tree, TxRules, 12, "plate");
    SoleTarget(SlashAppend, Defaults(), tree, TxRules, 13, "prev_plate");
    SoleTarget(SlashAppend, Defaults(), tree, TxRules, 14, "title_date");
    SoleTarget(SlashAppend, Defaults(), tree, TxRules, 25, "vin");
  }

  lemma TxUntargeted()
    ensures "prev_owner_street" !in Targets(TxRules) && "notice_name" !in Targets(TxRules)
  {
    assert forall j :: 0 <= j < |TxRules| ==> TxRules[j].attr !in {"prev_owner_street", "notice_name"};
    TargetsWithin(TxRules, AttributeNames - {"prev_owner_street", "notice_name"});
  }

  /** Attributes no TX rule names keep their initial value. */
  lemma TxLeavesUnmappedAlone(init: Attrs, tree: Tree)
    requires "prev_owner_street" in init && "notice_name" in init
    ensures var o := FromXmlSpec(init, tree, "PUBLICDATA", "TX");
      "prev_owner_street" in o.attrs && "notice_name" in o.attrs &&
      o.attrs["prev_owner_street"] == init["prev_owner_street"] && o.attrs["notice_name"] == init["notice_name"]
  {
    RulesOf(init, tree, "TX");
    TxUntargeted();
    RunRulesFrame(SlashAppend, init, tree, TxRules);
  }
}

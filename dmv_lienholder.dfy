/** A vehicle's lienholder (DmvLienHolder): elements located by explicit
    paths; a second value for an attribute is appended after " ". */
module DmvLienHolder {
  import opened Outcomes
  import opened Text
  import opened Xml
  import opened Transforms
  import opened Engine

  const Info: string := ".//dataset[@label='Lien Holder Information']/dataitem/textdata/field"

  /** The path of a field of the lienholder information. */
  function InfoField(name: string): string {
    Info + "[@label='" + name + "']"
  }

  const TxRules: seq<Rule> := [
    ByPath(".//textdata/field[@label='Lien Holder Position']", "position", Identity),
    ByPath(".//textdata/field[@label='Lien Holder Postion']", "position", Identity),
    ByPath(".//textdata/field[@label='Lien Date']", "date", Identity),
    ByPath(InfoField("Lien Holder Name"), "name", Identity),
    ByPath(InfoField("Lien Holder Number"), "number", Identity),
    ByPath(InfoField("Street"), "street", Identity),
    ByPath(InfoField("Street (cont)"), "street", Identity),
    ByPath(InfoField("City"), "city_state_zip", Identity),
    ByPath(InfoField("State"), "city_state_zip", Identity),
    ByPath(InfoField("Zip Code"), "city_state_zip", Identity),
    ByPath(InfoField("Country"), "country", Identity)
  ]

  const Mappings: Tables := map["PUBLICDATA" := map["TX" := TxRules]]

  /** The attributes __init__ creates, all None. */
  const AttributeNames: set<string> := {"position", "number", "date", "name", "street", "city_state_zip", "country"}

  function Defaults(): (d: Attrs)
    ensures d.Keys == AttributeNames
    ensures forall a :: a in d ==> d[a] == Null
  {
    map a | a in AttributeNames :: Null
  }

  method New() returns (r: Record)
    ensures fresh(r) && r.attrs == Defaults()
  {
    r := new Record(Defaults());
  }

  /** from_xml: the base class's lookup, with " " as the separator. */
  function FromXmlSpec(init: Attrs, tree: Tree, source: string, state: string): Outcome {
    FoldedFromXml(SpaceAppend, Mappings, init, tree, source, state)
  }

  method FromXml(r: Record, tree: Tree, source: string, state: string) returns (err: Option<Error>)
    modifies r
    ensures Outcome(r.attrs, err) == FromXmlSpec(old(r.attrs), tree, source, state)
  {
    err := r.FromXmlFolded(SpaceAppend, Mappings, tree, source, state);
  }

  /** Only TX has a table: any other state is refused with ValueError. */
  lemma OnlyTexas(init: Attrs, tree: Tree, state: string)
    requires Upper(state) != "TX"
    ensures FromXmlSpec(init, tree, "PUBLICDATA", state) ==
      Outcome(init, Some(ValueError("No " + "PUBLICDATA" + " mappings for this state: " + state)))
  {
    assert Upper("PUBLICDATA") == "PUBLICDATA";
  }

  lemma TexasInAnyCase(init: Attrs, tree: Tree, state: string)
    requires Upper(state) == "TX"
    ensures FromXmlSpec(init, tree, "PUBLICDATA", state) == RunRules(SpaceAppend, init, tree, TxRules)
  {
    assert Upper("PUBLICDATA") == "PUBLICDATA";
  }

  lemma TargetsDeclared()
    ensures Targets(TxRules) <= AttributeNames
  {
    assert forall j :: 0 <= j < |TxRules| ==> TxRules[j].attr in AttributeNames;
    TargetsWithin(TxRules, AttributeNames);
  }

  lemma NewRecordCompletes(tree: Tree)
    ensures RunRules(SpaceAppend, Defaults(), tree, TxRules).error.None?
    ensures RunRules(SpaceAppend, Defaults(), tree, TxRules).attrs.Keys == AttributeNames
  {
    TargetsDeclared();
    CompletesKeepingAttributes(SpaceAppend, Defaults(), tree, TxRules);
  }

  lemma BlockFacts()
    ensures PlainTextRulesFor(TxRules[0..2], "position")
    ensures forall j :: 0 <= j < |TxRules| && !(0 <= j < 2) ==> TxRules[j].attr != "position"
    ensures PlainTextRulesFor(TxRules[7..10], "city_state_zip")
    ensures forall j :: 0 <= j < |TxRules| && !(7 <= j < 10) ==> TxRules[j].attr != "city_state_zip"
    ensures TxRules[0..2] == [TxRules[0], TxRules[1]]
    ensures TxRules[7..10] == [TxRules[7], TxRules[8], TxRules[9]]
  {
  }

  /** The located text of a field of the lienholder information. */
  function InfoText(tree: Tree, name: string): seq<string> {
    FoundText(tree, Path(InfoField(name)))
  }

  function PositionTexts(tree: Tree): seq<string> {
    FoundText(tree, Path(".//textdata/field[@label='Lien Holder Position']")) +
    FoundText(tree, Path(".//textdata/field[@label='Lien Holder Postion']"))
  }

  lemma CityStateZipContributed(tree: Tree)
    ensures Contributions(tree, TxRules, "city_state_zip") ==
      InfoText(tree, "City") + InfoText(tree, "State") + InfoText(tree, "Zip Code")
  {
    BlockFacts();
    AdjacentTextRules(tree, TxRules, 7, 3, "city_state_zip");
    Texts3(tree, TxRules[7], TxRules[8], TxRules[9]);
  }

  lemma PositionContributed(tree: Tree)
    ensures Contributions(tree, TxRules, "position") == PositionTexts(tree)
  {
    BlockFacts();
    AdjacentTextRules(tree, TxRules, 0, 2, "position");
    Texts2(tree, TxRules[0], TxRules[1]);
  }

  lemma CityStateZipRun(init: Attrs, tree: Tree)
    requires "city_state_zip" in init && init["city_state_zip"] == Null
    requires RunRules(SpaceAppend, init, tree, TxRules).error.None?
    ensures var o := RunRules(SpaceAppend, init, tree, TxRules);
      var csz := InfoText(tree, "City") + InfoText(tree, "State") + InfoText(tree, "Zip Code");
      "city_state_zip" in o.attrs && o.attrs["city_state_zip"] == (if csz == [] then Null else Str(Join(" ", csz)))
  {
    CityStateZipContributed(tree);
    JoinedTargets(SpaceAppend, init, tree, TxRules, "city_state_zip");
  }

  lemma PositionRun(init: Attrs, tree: Tree)
    requires "position" in init && init["position"] == Null
    requires RunRules(SpaceAppend, init, tree, TxRules).error.None?
    ensures var o := RunRules(SpaceAppend, init, tree, TxRules);
      "position" in o.attrs &&
      o.attrs["position"] == (if PositionTexts(tree) == [] then Null else Str(Join(" ", PositionTexts(tree))))
  {
    PositionContributed(tree);
    JoinedTargets(SpaceAppend, init, tree, TxRules, "position");
  }

  /** city_state_zip is the city, state and ZIP texts present, in that order,
      joined with single spaces; position is read under either spelling of
      its label. */
  lemma CityStateZipJoined(tree: Tree)
    ensures var o := FromXmlSpec(Defaults(), tree, "PUBLICDATA", "TX");
      var csz := InfoText(tree, "City") + InfoText(tree, "State") + InfoText(tree, "Zip Code");
      o.error.None? && "city_state_zip" in o.attrs && "position" in o.attrs &&
      o.attrs["city_state_zip"] == (if csz == [] then Null else Str(Join(" ", csz))) &&
      o.attrs["position"] == (if PositionTexts(tree) == [] then Null else Str(Join(" ", PositionTexts(tree))))
  {
    TexasInAnyCase(Defaults(), tree, "TX");
    NewRecordCompletes(tree);
    CityStateZipRun(Defaults(), tree);
    PositionRun(Defaults(), tree);
  }
}

/** Real-property details (RealPropertyDetails): exact table keys, the
    source and state recorded first; a second value for an attribute is
    appended after " " and the result stripped. */
module RpDetails {
  import opened Outcomes
  import opened Text
  import opened Xml
  import opened Transforms
  import opened Engine

  /** The TX table, in the groups the source lays it out in: the situs
      address, the identifiers, the owner, the deed, the building and the
      appraisal. The street parts of the situs and owner addresses are
      written as one rule per label. */
  const SitusLabels: seq<string> := [
    "Situs Num", "Situs Street Prefx", "Situs Street Prefix", "Situs Street", "Situs Street Sufix", "Situs Street Suffix"
  ]

  const SitusStreetRules: seq<Rule> := LabelRules(SitusLabels, "property_street")

  const SitusPlaceRules: seq<Rule> := [
    ByLabel("Situs City", "property_city", Identity),
    ByLabel("Situs State", "property_state", Identity),
    ByLabel("Situs ZIP Code", "property_zip", Identity)
  ]

  const IdRules: seq<Rule> := [
    ByLabel("Prop Id", "property_id", Identity),
    ByLabel("Geo Id", "parcel_id", Identity)
  ]

  const OwnerNameRules: seq<Rule> := [ByLabel("File As Name", "owner_name", Identity)]

  const OwnerStreetLabels: seq<string> := ["Addr Line1", "Addr Line2", "Addr Line3"]

  const OwnerStreetRules: seq<Rule> := LabelRules(OwnerStreetLabels, "owner_street")

  const OwnerPlaceRules: seq<Rule> := [
    ByLabel("Addr City", "owner_city", Identity),
    ByLabel("Addr State", "owner_state", Identity),
    ByLabel("Addr ZIP Code", "owner_zip", Identity)
  ]

  const DeedRecordRules: seq<Rule> := [
    ByLabel("Legal Desc", "legal_description", Identity),
    ByLabel("Deed Type Cd", "deed_type", Identity),
    ByLabel("Deed Dt", "deed_date", Identity)
  ]

  const DeedLocationRules: seq<Rule> := [
    ByLabel("Deed Book Id", "deed_location", DeedBookId),
    ByLabel("Deed Book Page", "deed_location", BookPage),
    ByLabel("Deed Num", "deed_location", DeedNum)
  ]

  const BuildingRules: seq<Rule> := [
    ByLabel("Yr Blt", "year_built", Identity),
    ByLabel("Living Area", "living_area", Identity),
    ByLabel("Beds", "beds", Identity),
    ByLabel("Baths", "baths", Identity),
    ByLabel("Stories", "stories", Identity),
    ByLabel("Units", "units", Identity),
    ByLabel("Pool", "pool", Identity),
    ByLabel("Legal Acreage", "acres", Identity),
    ByLabel("Zoning", "zoning", Identity)
  ]

  const ValueRules: seq<Rule> := [
    ByLabel("Cert Val Yr", "cad_value_year", Identity),
    ByLabel("Cert Market", "cad_market_value", Identity),
    ByLabel("Cert Appraised Val", "cad_appraised_value", Identity)
  ]

  const TxGroups: seq<seq<Rule>> := [
    SitusStreetRules, SitusPlaceRules, IdRules, OwnerNameRules, OwnerStreetRules, OwnerPlaceRules,
    DeedRecordRules, DeedLocationRules, BuildingRules, ValueRules
  ]

  const TxRules: seq<Rule> := Flatten(TxGroups)

  /** The attributes the TX rules name. */
  const TargetNames: set<string> := {
    "property_street", "property_city", "property_state", "property_zip", "property_id", "parcel_id",
    "owner_name", "owner_street", "owner_city", "owner_state", "owner_zip",
    "legal_description", "deed_type", "deed_date", "deed_location",
    "year_built", "living_area", "beds", "baths", "stories", "units", "pool", "acres", "zoning",
    "cad_value_year", "cad_market_value", "cad_appraised_value"
  }

  const Mappings: Tables := map["PUBLICDATA" := map["TX" := TxRules]]

  /** The attributes __init__ sets to None. */
  const NoneNames: set<string> := {
    "property_street", "property_city", "property_state", "property_zip", "property_id", "parcel_id",
    "owner_name", "owner_street", "owner_city", "owner_state", "owner_zip",
    "legal_description", "deed_date", "deed_type", "deed_location", "year_built", "zoning",
    "cad_value_year", "cad_market_value", "cad_appraised_value",
    "street", "csz", "latitude", "longitude", "zestimate", "zbranding", "comps_link"
  }

  /** The counts and flags __init__ sets to 0 and False. */
  const ZeroNames: set<string> := {"living_area", "beds", "baths", "stories", "units", "acres"}
  const FalseNames: set<string> := {"pool", "zillow"}

  const AttributeNames: set<string> := NoneNames + ZeroNames + FalseNames + {"property_county"}

  /** The same value for each of the names. */
  function Fill(names: set<string>, v: Value): map<string, Value> {
    map a | a in names :: v
  }

  /** __init__(county): counts 0, flags False, the county as given and every
      other attribute None. */
  function Defaults(county: string): Attrs {
    Fill(ZeroNames, Int(0)) + Fill(FalseNames, Bool(false)) + map["property_county" := Str(county)] + Fill(NoneNames, Null)
  }

  lemma NamesDisjoint()
    ensures ZeroNames !! NoneNames && FalseNames !! NoneNames && "property_county" !in NoneNames
    ensures ZeroNames !! FalseNames && "property_county" !in FalseNames
  {
  }

  lemma DefaultKeys(county: string)
    ensures Defaults(county).Keys == AttributeNames
  {
  }

  lemma DefaultCounty(county: string)
    ensures "property_county" in Defaults(county) && Defaults(county)["property_county"] == Str(county)
  {
    NamesDisjoint();
  }

  lemma DefaultZeros(county: string)
    ensures forall a :: a in ZeroNames ==> a in Defaults(county) && Defaults(county)[a] == Int(0)
  {
    NamesDisjoint();
  }

  lemma DefaultFlags(county: string)
    ensures forall a :: a in FalseNames ==> a in Defaults(county) && Defaults(county)[a] == Bool(false)
  {
    NamesDisjoint();
  }

  lemma DefaultNones(county: string)
    ensures forall a :: a in Defaults(county) && a !in ZeroNames + FalseNames + {"property_county"} ==>
      Defaults(county)[a] == Null
  {
  }

  /** A new record holds exactly the declared attributes, and each is a
      string or falsy, so appended text can be stored into any of them. */
  lemma DefaultsReceptive(county: string)
    ensures Defaults(county).Keys == AttributeNames
    ensures Receptive(Defaults(county), Defaults(county).Keys)
  {
    DefaultKeys(county);
    FilledReceptive(ZeroNames, FalseNames, NoneNames, county);
  }

  lemma FilledReceptive(zeros: set<string>, flags: set<string>, nones: set<string>, county: string)
    ensures var m := Fill(zeros, Int(0)) + Fill(flags, Bool(false)) + map["property_county" := Str(county)] + Fill(nones, Null);
      Receptive(m, m.Keys)
  {
  }

  method New(county: string) returns (r: Record)
    ensures fresh(r) && r.attrs == Defaults(county)
  {
    r := new Record(Defaults(county));
  }

  function FromXmlSpec(init: Attrs, tree: Tree, source: string, state: string): Outcome {
    StampedFromXml(StripAppend, Mappings, init, tree, source, state)
  }

  method FromXml(r: Record, tree: Tree, source: string, state: string) returns (err: Option<Error>)
    modifies r
    ensures Outcome(r.attrs, err) == FromXmlSpec(old(r.attrs), tree, source, state)
  {
    err := r.FromXmlStamped(StripAppend, Mappings, tree, source, state);
  }

  /** Keys are matched exactly: "publicdata" or "tx" is refused with
      ValueError and the record is left as it was. */
  lemma ExactKeys(init: Attrs, tree: Tree, source: string, state: string)
    requires source != "PUBLICDATA" || state != "TX"
    ensures FromXmlSpec(init, tree, source, state).attrs == init
    ensures FromXmlSpec(init, tree, source, state).error.Some? &&
      FromXmlSpec(init, tree, source, state).error.value.ValueError?
  {
  }

  /** The attributes each group names, group by group. */
  const GroupNames: seq<set<string>> := [
    {"property_street"},
    {"property_city", "property_state", "property_zip"},
    {"property_id", "parcel_id"},
    {"owner_name"},
    {"owner_street"},
    {"owner_city", "owner_state", "owner_zip"},
    {"legal_description", "deed_type", "deed_date"},
    {"deed_location"},
    {"year_built", "living_area", "beds", "baths", "stories", "units", "pool", "acres", "zoning"},
    {"cad_value_year", "cad_market_value", "cad_appraised_value"}
  ]

  lemma GroupTargets()
    ensures |GroupNames| == |TxGroups|
    ensures forall n :: 0 <= n < |TxGroups| ==> Targets(TxGroups[n]) <= GroupNames[n]
  {
    TargetsWithin(SitusStreetRules, GroupNames[0]);
    TargetsWithin(SitusPlaceRules, GroupNames[1]);
    TargetsWithin(IdRules, GroupNames[2]);
    TargetsWithin(OwnerNameRules, GroupNames[3]);
    TargetsWithin(OwnerStreetRules, GroupNames[4]);
    TargetsWithin(OwnerPlaceRules, GroupNames[5]);
    TargetsWithin(DeedRecordRules, GroupNames[6]);
    TargetsWithin(DeedLocationRules, GroupNames[7]);
    TargetsWithin(BuildingRules, GroupNames[8]);
    TargetsWithin(ValueRules, GroupNames[9]);
  }

  lemma TargetsNamed()
    ensures Targets(TxRules) <= TargetNames
  {
    GroupTargets();
    assert forall n :: 0 <= n < |GroupNames| ==> GroupNames[n] <= TargetNames;
    FlattenTargets(TxGroups, TargetNames);
  }

  lemma TargetsDeclared()
    ensures Targets(TxRules) <= AttributeNames
  {
    TargetsNamed();
  }

  /** No TX rule uses a transform that raises. */
  lemma TxNeverRaises(tree: Tree)
    ensures NoneRaise(tree, TxRules)
  {
    assert Total(SitusStreetRules) && Total(OwnerStreetRules);
    assert Total(SitusPlaceRules) && Total(IdRules) && Total(OwnerNameRules) && Total(OwnerPlaceRules);
    assert Total(DeedRecordRules) && Total(DeedLocationRules) && Total(BuildingRules) && Total(ValueRules);
    FlattenTotal(TxGroups);
    TotalNeverRaises(tree, TxRules);
  }

  lemma StampsNotNamed()
    ensures "source" !in TargetNames && "state" !in TargetNames && "property_county" !in TargetNames
  {
  }

  /** No TX rule writes the recorded source, state or county. */
  lemma StampsUntargeted()
    ensures "source" !in Targets(TxRules) && "state" !in Targets(TxRules)
    ensures "property_county" !in Targets(TxRules)
  {
    TargetsNamed();
    StampsNotNamed();
  }

  /** With the source and state recorded, a new record runs the TX table to
      the end without an exception. */
  lemma StampedCompletes(county: string, tree: Tree)
    ensures var init := Stamped(Defaults(county), "PUBLICDATA", "TX");
      RunRules(StripAppend, init, tree, TxRules).error.None? &&
      RunRules(StripAppend, init, tree, TxRules).attrs.Keys == AttributeNames + {"source", "state"}
  {
    var init := Stamped(Defaults(county), "PUBLICDATA", "TX");
    TargetsDeclared();
    DefaultsReceptive(county);
    StampedReceptive(Defaults(county), "PUBLICDATA", "TX");
    TxNeverRaises(tree);
    CompletesKeepingAttributes(StripAppend, init, tree, TxRules);
  }

  /** Rules that write neither the source, the state nor the county leave
      the recorded values in place. */
  lemma StampsKept(init: Attrs, tree: Tree, rules: seq<Rule>, source: string, state: string)
    requires "property_county" in init
    requires "source" !in Targets(rules) && "state" !in Targets(rules) && "property_county" !in Targets(rules)
    ensures var o := RunRules(StripAppend, Stamped(init, source, state), tree, rules);
      "source" in o.attrs && o.attrs["source"] == Str(source) &&
      "state" in o.attrs && o.attrs["state"] == Str(state) &&
      "property_county" in o.attrs && o.attrs["property_county"] == init["property_county"]
  {
    RunRulesFrame(StripAppend, Stamped(init, source, state), tree, rules);
  }

  /** A new record records the source, the state and its county, and runs
      the TX table to the end. */
  lemma NewRecordStamped(county: string, tree: Tree)
    ensures var o := FromXmlSpec(Defaults(county), tree, "PUBLICDATA", "TX");
      o.error.None? && o.attrs.Keys == AttributeNames + {"source", "state"} &&
      o.attrs["source"] == Str("PUBLICDATA") && o.attrs["state"] == Str("TX") &&
      o.attrs["property_county"] == Str(county)
  {
    StampedCompletes(county, tree);
    StampsUntargeted();
    DefaultCounty(county);
    StampsKept(Defaults(county), tree, TxRules, "PUBLICDATA", "TX");
  }

  /** The joined attributes each belong to one group only. */
  lemma NamedOnlyIn(x: string, k: nat)
    requires (x, k) in {("property_street", 0), ("owner_street", 4), ("deed_location", 7)}
    ensures forall n :: 0 <= n < |GroupNames| && n != k ==> x !in GroupNames[n]
  {
  }

  /** Only the situs street group names the property street. */
  lemma StreetGroup(tree: Tree)
    ensures Contributions(tree, TxRules, "property_street") == Contributions(tree, SitusStreetRules, "property_street")
  {
    GroupTargets();
    NamedOnlyIn("property_street", 0);
    SoleNamedGroup(tree, TxGroups, GroupNames, 0, "property_street");
  }

  /** The property street receives the situs texts in label order. */
  lemma StreetContributions(tree: Tree)
    ensures Contributions(tree, TxRules, "property_street") == LabelTexts(tree, SitusLabels)
  {
    StreetGroup(tree);
    LabelRulesTexts(tree, SitusLabels, "property_street");
  }

  /** Only the owner street group names the owner street. */
  lemma OwnerStreetGroup(tree: Tree)
    ensures Contributions(tree, TxRules, "owner_street") == Contributions(tree, OwnerStreetRules, "owner_street")
  {
    GroupTargets();
    NamedOnlyIn("owner_street", 4);
    SoleNamedGroup(tree, TxGroups, GroupNames, 4, "owner_street");
  }

  /** The owner street receives the address lines in order. */
  lemma OwnerStreetContributions(tree: Tree)
    ensures Contributions(tree, TxRules, "owner_street") == LabelTexts(tree, OwnerStreetLabels)
  {
    OwnerStreetGroup(tree);
    LabelRulesTexts(tree, OwnerStreetLabels, "owner_street");
  }

  /** The situs parts present (number, prefix under either spelling, street,
      suffix under either spelling) joined with single spaces, for parts
      without surrounding whitespace; None when there are none. */
  lemma StreetRun(init: Attrs, tree: Tree)
    requires "property_street" in init && init["property_street"] == Null
    requires RunRules(StripAppend, init, tree, TxRules).error.None?
    requires AllTrimmed(LabelTexts(tree, SitusLabels))
    ensures var o := RunRules(StripAppend, init, tree, TxRules);
      var situs := LabelTexts(tree, SitusLabels);
      "property_street" in o.attrs &&
      o.attrs["property_street"] == (if situs == [] then Null else Str(Join(" ", situs)))
  {
    StreetContributions(tree);
    JoinedTargets(StripAppend, init, tree, TxRules, "property_street");
  }

  lemma OwnerStreetRun(init: Attrs, tree: Tree)
    requires "owner_street" in init && init["owner_street"] == Null
    requires RunRules(StripAppend, init, tree, TxRules).error.None?
    requires AllTrimmed(LabelTexts(tree, OwnerStreetLabels))
    ensures var o := RunRules(StripAppend, init, tree, TxRules);
      var lines := LabelTexts(tree, OwnerStreetLabels);
      "owner_street" in o.attrs &&
      o.attrs["owner_street"] == (if lines == [] then Null else Str(Join(" ", lines)))
  {
    OwnerStreetContributions(tree);
    JoinedTargets(StripAppend, init, tree, TxRules, "owner_street");
  }

  /** The deed-location parts: "Book b", "Page p" and "Instrument # n" (a
      deed number "0" is kept as it is), for the parts present. */
  function DeedParts(tree: Tree): seq<string> {
    Transformed(tree, FieldLabel("Deed Book Id"), DeedBookId) +
    Transformed(tree, FieldLabel("Deed Book Page"), BookPage) +
    Transformed(tree, FieldLabel("Deed Num"), DeedNum)
  }

  /** Only the deed group names the deed location. */
  lemma DeedGroup(tree: Tree)
    ensures Contributions(tree, TxRules, "deed_location") == Contributions(tree, DeedLocationRules, "deed_location")
  {
    var x := "deed_location";
    GroupTargets();
    NamedOnlyIn(x, 7);
    SoleNamedGroup(tree, TxGroups, GroupNames, 7, x);
  }

  lemma DeedContributions(tree: Tree)
    ensures Contributions(tree, DeedLocationRules, "deed_location") == DeedParts(tree)
  {
    ThreeTextRules(tree, FieldLabel("Deed Book Id"), DeedBookId, FieldLabel("Deed Book Page"), BookPage,
      FieldLabel("Deed Num"), DeedNum, "deed_location");
  }

  /** The book, page and instrument texts carry no surrounding whitespace. */
  predicate DeedTextsTrimmed(tree: Tree) {
    AllTrimmed(FoundText(tree, FieldLabel("Deed Book Id"))) &&
    AllTrimmed(FoundText(tree, FieldLabel("Deed Book Page"))) &&
    AllTrimmed(FoundText(tree, FieldLabel("Deed Num")))
  }

  /** Prefixing keeps a value without surrounding whitespace so. */
  lemma PartTrimmed(tree: Tree, loc: Locator, t: Transform)
    requires t == DeedBookId || t == BookPage || t == DeedNum
    requires AllTrimmed(FoundText(tree, loc))
    ensures AllTrimmed(Transformed(tree, loc, t))
  {
    var f := FoundText(tree, loc);
    if f != [] {
      match t
      case DeedBookId => PrefixedTrimmed("Book ", f[0]);
      case BookPage => PrefixedTrimmed("Page ", f[0]);
      case DeedNum => PrefixedTrimmed("Instrument # ", f[0]);
    }
  }

  lemma DeedPartsTrimmed(tree: Tree)
    requires DeedTextsTrimmed(tree)
    ensures AllTrimmed(DeedParts(tree))
  {
    var bs := Transformed(tree, FieldLabel("Deed Book Id"), DeedBookId);
    var ps := Transformed(tree, FieldLabel("Deed Book Page"), BookPage);
    var ns := Transformed(tree, FieldLabel("Deed Num"), DeedNum);
    PartTrimmed(tree, FieldLabel("Deed Book Id"), DeedBookId);
    PartTrimmed(tree, FieldLabel("Deed Book Page"), BookPage);
    PartTrimmed(tree, FieldLabel("Deed Num"), DeedNum);
    AllTrimmedAppend(bs, ps);
    AllTrimmedAppend(bs + ps, ns);
  }

  /** The deed location reads "Book b Page p Instrument # n" for the parts
      present, when the parts carry no surrounding whitespace. */
  lemma DeedRun(init: Attrs, tree: Tree)
    requires "deed_location" in init && init["deed_location"] == Null
    requires RunRules(StripAppend, init, tree, TxRules).error.None?
    requires DeedTextsTrimmed(tree)
    ensures var o := RunRules(StripAppend, init, tree, TxRules);
      "deed_location" in o.attrs &&
      o.attrs["deed_location"] == if DeedParts(tree) == [] then Null else Str(Join(" ", DeedParts(tree)))
  {
    DeedGroup(tree);
    DeedContributions(tree);
    DeedPartsTrimmed(tree);
    JoinedTargets(StripAppend, init, tree, TxRules, "deed_location");
  }

  /** The joined attributes start out None on a new record. */
  lemma JoinedStartNull(county: string)
    ensures var init := Stamped(Defaults(county), "PUBLICDATA", "TX");
      "property_street" in init && init["property_street"] == Null &&
      "owner_street" in init && init["owner_street"] == Null &&
      "deed_location" in init && init["deed_location"] == Null
  {
    DefaultNull(county, "property_street");
    DefaultNull(county, "owner_street");
    DefaultNull(county, "deed_location");
  }

  lemma DefaultNull(county: string, a: string)
    requires a in NoneNames
    ensures a in Defaults(county) && Defaults(county)[a] == Null
  {
  }

  /** On a new record, with parts that carry no surrounding whitespace: the
      property street is the situs parts joined with single spaces, the
      owner street the address lines, and the deed location "Book b Page p
      Instrument # n" for the parts present; None where no part is. */
  lemma NewRecordJoins(county: string, tree: Tree)
    requires AllTrimmed(LabelTexts(tree, SitusLabels))
    requires AllTrimmed(LabelTexts(tree, OwnerStreetLabels))
    requires DeedTextsTrimmed(tree)
    ensures var o := FromXmlSpec(Defaults(county), tree, "PUBLICDATA", "TX");
      var situs := LabelTexts(tree, SitusLabels);
      var lines := LabelTexts(tree, OwnerStreetLabels);
      o.error.None? &&
      "property_street" in o.attrs && o.attrs["property_street"] == (if situs == [] then Null else Str(Join(" ", situs))) &&
      "owner_street" in o.attrs && o.attrs["owner_street"] == (if lines == [] then Null else Str(Join(" ", lines))) &&
      "deed_location" in o.attrs &&
      o.attrs["deed_location"] == (if DeedParts(tree) == [] then Null else Str(Join(" ", DeedParts(tree))))
  {
    var init := Stamped(Defaults(county), "PUBLICDATA", "TX");
    StampedCompletes(county, tree);
    JoinedStartNull(county);
    StreetRun(init, tree);
    OwnerStreetRun(init, tree);
    DeedRun(init, tree);
  }

  /** On a new record, whatever whitespace the parts carry: each joined
      attribute ends as its parts folded into None in table order, each
      step storing the stripped "existing value" + " " + part. */
  lemma NewRecordFolds(county: string, tree: Tree)
    ensures var o := FromXmlSpec(Defaults(county), tree, "PUBLICDATA", "TX");
      o.error.None? &&
      "property_street" in o.attrs &&
      Accumulate(StripAppend, Null, LabelTexts(tree, SitusLabels)) == Ok(o.attrs["property_street"]) &&
      "owner_street" in o.attrs &&
      Accumulate(StripAppend, Null, LabelTexts(tree, OwnerStreetLabels)) == Ok(o.attrs["owner_street"]) &&
      "deed_location" in o.attrs &&
      Accumulate(StripAppend, Null, DeedParts(tree)) == Ok(o.attrs["deed_location"])
  {
    var init := Stamped(Defaults(county), "PUBLICDATA", "TX");
    StampedCompletes(county, tree);
    JoinedStartNull(county);
    StreetContributions(tree);
    OwnerStreetContributions(tree);
    DeedGroup(tree);
    DeedContributions(tree);
    RunAccumulates(StripAppend, init, tree, TxRules, "property_street");
    RunAccumulates(StripAppend, init, tree, TxRules, "owner_street");
    RunAccumulates(StripAppend, init, tree, TxRules, "deed_location");
  }
}

/** Driver's-licence details (DlDetails): the shared base class's from_xml
    over one TX table; a second value is appended after " / ". */
module DlDetails {
  import opened Outcomes
  import opened Text
  import opened Xml
  import opened Transforms
  import opened Engine

  const TxRules: seq<Rule> := [
    ByLabel("First Name", "first_name", Clean),
    ByLabel("Middle Name", "middle_name", Clean),
    ByLabel("Last Name", "last_name", Clean),
    ByLabel("Name Suffix", "suffix", Clean),
    ByLabel("Address", "address", Identity),
    ByLabel("Address", "linkable_address", StreetLink),
    ByLabel("Address(Continued)", "address", Identity),
    ByLabel("City/ZIP Code", "city", Identity),
    ByLabel("DOB", "dob", Identity),
    ByLabel("License number", "license_number", Identity),
    ByLabel("License type", "license_type", Identity),
    ByLabelProp("Issue Date", "formatteddate", "issue_date")
  ]

  const Mappings: Tables := map["PUBLICDATA" := map["TX" := TxRules]]

  /** The attributes __init__ creates, all None. */
  const AttributeNames: set<string> := {
    "first_name", "middle_name", "last_name", "suffix", "address", "linkable_address",
    "city", "state", "dob", "license_number", "license_type", "issue_date"
  }

  function Defaults(): (d: Attrs)
    ensures d.Keys == AttributeNames
    ensures forall a :: a in d ==> d[a] == Null
  {
    map a | a in AttributeNames :: Null
  }

  method New() returns (r: Record)
    ensures fresh(r) && r.attrs == Defaults()
  {
    r := new Record(Defaults());
  }

  /** from_xml, inherited from the shared base class. */
  function FromXmlSpec(init: Attrs, tree: Tree, source: string, state: string): Outcome {
    FoldedFromXml(SlashAppend, Mappings, init, tree, source, state)
  }

  method FromXml(r: Record, tree: Tree, source: string, state: string) returns (err: Option<Error>)
    modifies r
    ensures Outcome(r.attrs, err) == FromXmlSpec(old(r.attrs), tree, source, state)
  {
    err := r.FromXmlFolded(SlashAppend, Mappings, tree, source, state);
  }

  /** Only TX has a table: any other state is refused with ValueError. */
  lemma OnlyTexas(init: Attrs, tree: Tree, state: string)
    requires Upper(state) != "TX"
    ensures FromXmlSpec(init, tree, "PUBLICDATA", state) ==
      Outcome(init, Some(ValueError("No " + "PUBLICDATA" + " mappings for this state: " + state)))
  {
    assert Upper("PUBLICDATA") == "PUBLICDATA";
  }

  /** "tx" and "Tx" select the TX table. */
  lemma TexasInAnyCase(init: Attrs, tree: Tree, state: string)
    requires Upper(state) == "TX"
    ensures FromXmlSpec(init, tree, "PUBLICDATA", state) == RunRules(SlashAppend, init, tree, TxRules)
  {
    assert Upper("PUBLICDATA") == "PUBLICDATA";
  }

  lemma TargetsDeclared()
    ensures Targets(TxRules) <= AttributeNames
  {
    assert forall j :: 0 <= j < |TxRules| ==> TxRules[j].attr in AttributeNames;
    TargetsWithin(TxRules, AttributeNames);
  }

  /** A new record runs the TX table to the end without an exception and
      keeps exactly the attributes of __init__. */
  lemma NewRecordCompletes(tree: Tree)
    ensures RunRules(SlashAppend, Defaults(), tree, TxRules).error.None?
    ensures RunRules(SlashAppend, Defaults(), tree, TxRules).attrs.Keys == AttributeNames
  {
    TargetsDeclared();
    CompletesKeepingAttributes(SlashAppend, Defaults(), tree, TxRules);
  }

  lemma AddressRules()
    ensures TxRules[4] == Rule(FieldLabel("Address"), None, "address", Identity)
    ensures TxRules[5] == Rule(FieldLabel("Address"), None, "linkable_address", StreetLink)
    ensures TxRules[6] == Rule(FieldLabel("Address(Continued)"), None, "address", Identity)
    ensures forall j :: 0 <= j < |TxRules| && j != 4 && j != 6 ==> TxRules[j].attr != "address"
    ensures forall j :: 0 <= j < |TxRules| && j != 5 ==> TxRules[j].attr != "linkable_address"
    ensures forall j :: 0 <= j < |TxRules| && j != 0 ==> TxRules[j].attr != "first_name"
  {
  }

  /** The name rules read their labels' text through clean_string; the
      issue date is the formatteddate attribute of its field. */
  lemma NameAndDateRules()
    ensures TxRules[0] == ByLabel("First Name", "first_name", Clean)
    ensures TxRules[1] == ByLabel("Middle Name", "middle_name", Clean)
    ensures TxRules[2] == ByLabel("Last Name", "last_name", Clean)
    ensures TxRules[3] == ByLabel("Name Suffix", "suffix", Clean)
    ensures TxRules[11] == ByLabelProp("Issue Date", "formatteddate", "issue_date")
    ensures forall j :: 0 <= j < |TxRules| && j != 1 ==> TxRules[j].attr != "middle_name"
    ensures forall j :: 0 <= j < |TxRules| && j != 2 ==> TxRules[j].attr != "last_name"
    ensures forall j :: 0 <= j < |TxRules| && j != 3 ==> TxRules[j].attr != "suffix"
    ensures forall j :: 0 <= j < |TxRules| && j != 11 ==> TxRules[j].attr != "issue_date"
  {
  }

  /** The cleaned text of the first field labelled name: None when that
      field is missing or its text empty. */
  function CleanedText(tree: Tree, name: string): Value {
    var t := FoundText(tree, FieldLabel(name));
    if t == [] then Null else Str(CleanString(t[0]))
  }

  /** The address contributions of any table shaped like the TX table. */
  lemma AddressContributionsOf(tree: Tree, rules: seq<Rule>)
    requires |rules| >= 7
    requires rules[4] == Rule(FieldLabel("Address"), None, "address", Identity)
    requires rules[5].attr != "address"
    requires rules[6] == Rule(FieldLabel("Address(Continued)"), None, "address", Identity)
    requires forall j :: 0 <= j < |rules| && j != 4 && j != 6 ==> rules[j].attr != "address"
    ensures Contributions(tree, rules, "address") ==
      FoundText(tree, FieldLabel("Address")) + FoundText(tree, FieldLabel("Address(Continued)"))
  {
    TwoTextRules(tree, rules, 4, 6, "address");
  }

  lemma AddressContributions(tree: Tree)
    ensures Contributions(tree, TxRules, "address") ==
      FoundText(tree, FieldLabel("Address")) + FoundText(tree, FieldLabel("Address(Continued)"))
  {
    AddressRules();
    AddressContributionsOf(tree, TxRules);
  }

  lemma AddressRun(init: Attrs, tree: Tree)
    requires "address" in init && init["address"] == Null
    requires RunRules(SlashAppend, init, tree, TxRules).error.None?
    ensures var parts := FoundText(tree, FieldLabel("Address")) + FoundText(tree, FieldLabel("Address(Continued)"));
      "address" in RunRules(SlashAppend, init, tree, TxRules).attrs &&
      RunRules(SlashAppend, init, tree, TxRules).attrs["address"] ==
        if parts == [] then Null else Str(Join(" / ", parts))
  {
    AddressContributions(tree);
    JoinedTargets(SlashAppend, init, tree, TxRules, "address");
  }

  /** The address is the Address text followed by the continuation text,
      joined with " / " when both are present. */
  lemma AddressJoined(tree: Tree)
    ensures var o := FromXmlSpec(Defaults(), tree, "PUBLICDATA", "TX");
      var parts := FoundText(tree, FieldLabel("Address")) + FoundText(tree, FieldLabel("Address(Continued)"));
      o.error.None? && "address" in o.attrs &&
      o.attrs["address"] == if parts == [] then Null else Str(Join(" / ", parts))
  {
    TexasInAnyCase(Defaults(), tree, "TX");
    NewRecordCompletes(tree);
    AddressRun(Defaults(), tree);
  }

  lemma LinkRun(init: Attrs, tree: Tree)
    requires "linkable_address" in init && init["linkable_address"] == Null
    requires "first_name" in init && init["first_name"] == Null
    requires RunRules(SlashAppend, init, tree, TxRules).error.None?
    ensures var o := RunRules(SlashAppend, init, tree, TxRules);
      var addr := FoundText(tree, FieldLabel("Address"));
      "linkable_address" in o.attrs && "first_name" in o.attrs &&
      o.attrs["linkable_address"] == (if addr == [] then Null else Str(MakeStreetLink(addr[0]))) &&
      o.attrs["first_name"] == CleanedText(tree, "First Name")
  {
    AddressRules();
    SoleTarget(SlashAppend, init, tree, TxRules, 5, "linkable_address");
    SoleTarget(SlashAppend, init, tree, TxRules, 0, "first_name");
  }

  /** Starting from None, the middle name, last name and suffix end as their
      cleaned texts and the issue date as the formatteddate attribute. */
  lemma NamesAndDateRun(init: Attrs, tree: Tree)
    requires forall a :: a in {"middle_name", "last_name", "suffix", "issue_date"} ==> a in init && init[a] == Null
    requires RunRules(SlashAppend, init, tree, TxRules).error.None?
    ensures var o := RunRules(SlashAppend, init, tree, TxRules);
      "middle_name" in o.attrs && o.attrs["middle_name"] == CleanedText(tree, "Middle Name") &&
      "last_name" in o.attrs && o.attrs["last_name"] == CleanedText(tree, "Last Name") &&
      "suffix" in o.attrs && o.attrs["suffix"] == CleanedText(tree, "Name Suffix") &&
      "issue_date" in o.attrs && o.attrs["issue_date"] == PropValue(tree, "Issue Date", "formatteddate")
  {
    NameAndDateRules();
    assert "middle_name" in init && "last_name" in init && "suffix" in init && "issue_date" in init;
    SoleTarget(SlashAppend, init, tree, TxRules, 1, "middle_name");
    SoleTarget(SlashAppend, init, tree, TxRules, 2, "last_name");
    SoleTarget(SlashAppend, init, tree, TxRules, 3, "suffix");
    SoleTarget(SlashAppend, init, tree, TxRules, 11, "issue_date");
  }

  /** The first Address text also feeds linkable_address, turned into link
      text holding no whitespace; the four name parts are cleaned, and the
      issue date is the formatteddate attribute of its field. */
  lemma LinkableAddressAndNames(tree: Tree)
    ensures var o := FromXmlSpec(Defaults(), tree, "PUBLICDATA", "TX");
      var addr := FoundText(tree, FieldLabel("Address"));
      o.error.None? && "linkable_address" in o.attrs &&
      o.attrs["linkable_address"] == (if addr == [] then Null else Str(MakeStreetLink(addr[0]))) &&
      (o.attrs["linkable_address"].Str? ==> forall i :: 0 <= i < |o.attrs["linkable_address"].s| ==> !IsSpace(o.attrs["linkable_address"].s[i])) &&
      "first_name" in o.attrs && o.attrs["first_name"] == CleanedText(tree, "First Name") &&
      "middle_name" in o.attrs && o.attrs["middle_name"] == CleanedText(tree, "Middle Name") &&
      "last_name" in o.attrs && o.attrs["last_name"] == CleanedText(tree, "Last Name") &&
      "suffix" in o.attrs && o.attrs["suffix"] == CleanedText(tree, "Name Suffix") &&
      "issue_date" in o.attrs && o.attrs["issue_date"] == PropValue(tree, "Issue Date", "formatteddate")
  {
    TexasInAnyCase(Defaults(), tree, "TX");
    NewRecordCompletes(tree);
    LinkRun(Defaults(), tree);
    NamesAndDateRun(Defaults(), tree);
  }
}

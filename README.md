# publicdataws core, modelled in Dafny

A model of the logic behind a web front end to a public-records search service
(vehicle registrations, driver's licences, real property, tax records), and the
case files in which a user collects the records found. The modelled parts are:

- **Record extraction** (`engine.dfy`, `xml.dfy`, `transforms.dfy` and one module per
  record kind: `dmv_details.dfy`, `dmv_summary.dfy`, `dmv_lienholder.dfy`,
  `dl_details.dfy`, `dl_summary.dfy`, `rp_details.dfy`, `rp_summary.dfy`). A record
  is a class whose attribute map `from_xml` updates in place. A mapping table, picked
  by source database and state (and, for real-property summaries, by a county read
  from the attribution text), is a list of rules. Each rule locates an element, reads
  its text or an attribute, transforms the value and stores it. The record kinds differ
  in how a second value for an attribute is combined with the first: appended after
  " / ", appended after " ", appended after " " and stripped, or overwritten. The string
  transforms (`clean_string`, the colon segments, the deed prefixes, `make_street_link`)
  are pure functions with their properties stated as lemmas.
- **The data store** (`cache.dfy`, `documents.dfy`, `case_store.dfy`). The response
  cache with its type tags and three-day time to live. The helpers `record_from_dict`,
  `split_category` and `next_available_request_number`. The nested discovery map of a
  case, updated by `add_to_case` and `del_from_case` and read by `get_case_items`. The
  Mongo collections are maps held by a class, and the clock is a parameter.
- **Search results** (`merge.dfy`, `vehicles.dfy`, `case_routes.dfy`). `join_results`
  and the sub-search sequence of the DMV search. The in-place marking of found vehicles
  as included in or excluded from the case, and their sort. The move of an item between
  a category and its "X" exclusion category. The copy of `join_results` in
  `app/views/vehicles/vehicle_routes.py` (lines 32-66) is the same code as in
  `app/app.py` and is modelled once, by `Merge.JoinResults`.
- **Small validators** (`case.py` as `case.dfy`, `make_csv.py` as `make_csv.dfy`).
- **The web-service computations** (`webservice.dfy`). The sum-of-the-years-digits
  depreciation schedule, with exact real arithmetic. The parcels read from a tax-record
  search.

`outcomes.dfy` holds the Option and Result types and the exceptions the code raises.
`text.dfy` holds the string operations the code relies on: Python's whitespace, `strip`,
`split` with a maximum, `replace`, ASCII case mapping, and `str`/`int` of integers.

Where the description of the system and the code disagree, the model follows the code:

- A failing transform raises rather than being logged and skipped. On owner text
  without a colon, `transform_co_owner` raises AttributeError. `from_xml` lets that
  through, and the CO summary is left with only its source and state recorded
  (`DmvSummary.CoOwnerWithoutColonRaises`).
- A cached text response is not turned into a cache miss when it cannot be rebuilt.
  `check_cache` raises AttributeError (`Cache.InsertThenLookup`).
- A conjunctive DMV search whose running intersection becomes empty is reseeded by the
  next sub-search (`Merge.ConjunctiveReseeds`), whereas the description says such a
  search ends empty. The intersection the description promises is defined beside it
  (`Merge.NetIntended`) and proved to be one (`Merge.IntendedIsIntersection`). The
  model of `search_dmv` keeps the code's behaviour.

## Model

| member | source | states |
|---|---|---|
| Xml.FirstLabelled | app/util/classes/baserecord.py:52-57 | the first field carrying the label, by document order, or none when no field carries it |
| Xml.Labelled | app/util/classes/baserecord.py:52-55 | findall of .//field[@label=l] yields exactly the fields carrying the label, non-empty exactly when one exists, starting with the first |
| Engine.FoldedLookupIgnoresStateCase | app/util/classes/baserecord.py:41-47 | with upper-case table keys and the source spelled as in the tables, the lookup succeeds exactly when the upper-cased state has a table, and yields that table |
| Engine.FoldedLookupSourceCase | app/util/classes/baserecord.py:41-47 | a source in any other case passes the upper-cased membership test and then fails with KeyError, because the state test indexes the tables with the source as given |
| Engine.Contribution | app/util/classes/baserecord.py:54-65 | a rule contributes a value only when the first element found has a non-empty value |
| Engine.Failure | app/util/classes/baserecord.py:60-65 | a rule raises exactly when it uses the co-owner transform and reads a non-empty value without a colon, and then the error is AttributeError |
| Engine.ErrorPersists | app/util/classes/baserecord.py:51-72 | once a rule has raised, the later rules change nothing: the exception ends the loop |
| Engine.RunRulesFrame | app/util/classes/baserecord.py:51-72 | an extraction leaves every attribute no rule names as it was and creates no attribute beyond those the rules name |
| Engine.ContributionsUntargeted | app/util/classes/baserecord.py:51-72 | an attribute that no rule names receives nothing |
| Engine.TextRule | app/util/classes/baserecord.py:54-65 | a text rule contributes the transformed text of the first element found, only when that text is non-empty; the transform is not called otherwise |
| Engine.LabelRulesTexts | app/util/classes/baserecord.py:51-59 | one text rule per label gives the attribute the labels' non-empty texts in table order, and names nothing else |
| Engine.StepEffect | app/util/classes/baserecord.py:62-72 | one rule stores its contribution through the policy into its own attribute and leaves every other attribute as it was |
| Engine.RunAccumulates | app/util/classes/baserecord.py:51-72 | after a completed extraction, each attribute holds its contributions stored one after another in rule order |
| Engine.ReceptiveNoError | app/util/classes/baserecord.py:62-72 | an extraction none of whose transforms raises cannot fail when it overwrites, or when every attribute it names exists and holds a string or a falsy value |
| Engine.CompletesKeepingAttributes | app/util/classes/baserecord.py:51-72 | an appending extraction into such a record, none of whose transforms raises, completes and keeps exactly the record's attributes |
| Engine.AccumulateJoins | app/util/classes/baserecord.py:69-72 | non-empty values appended one after another into a falsy attribute end up joined with the policy's separator |
| Engine.AccumulateOne | app/util/classes/baserecord.py:69-72 | a single value stored into a falsy attribute replaces it, whatever the policy |
| Engine.AccumulateOverwrites | app/util/classes/dmvsummary.py:131-134 | under overwriting, the attribute ends with the last value contributed |
| Engine.StampedReceptive | app/util/classes/rpdetails.py:165-166 | recording the source and state adds exactly those two string attributes and keeps a record receptive |
| Engine.SoleTarget | app/util/classes/baserecord.py:62-72 | when only one rule names a falsy attribute, the attribute ends with that rule's value, or unchanged when the rule contributes nothing |
| Engine.JoinedTargets | app/util/classes/baserecord.py:62-72 | an attribute that is falsy at the start ends with the non-empty values contributed to it, joined with the separator, or unchanged when there are none |
| Engine.OverwriteLast | app/util/classes/dmvsummary.py:125-134 | an overwriting extraction none of whose transforms raises completes, and each attribute ends with the last value contributed to it, or as it was when nothing was contributed |
| Engine.OverwriteFails | app/util/classes/dmvsummary.py:125-134 | an overwriting extraction fails exactly when one of its transforms raises on the value it reads |
| Engine.OverwriteSole | app/util/classes/dmvsummary.py:125-134 | under overwriting with no transform raising, an attribute only one rule names ends with what that rule stores |
| Engine.RootKeysRun | app/util/classes/dmvsummary.py:58-134 | when no transform raises, db, ed and rec are read from the record element's own attributes, and source and state equal the arguments |
| Engine.RootKey | app/util/classes/dmvsummary.py:97-101 | the key of such a record is source, ":", then db, ed and rec joined by "." |
| Engine.OverwriteKeeps | app/util/classes/dmvsummary.py:125-134 | an overwriting extraction with no transform raising completes and keeps an attribute no rule names |
| Engine.ToDict | app/util/classes/baserecord.py:13-23 | to_dict has exactly the attributes whose name does not start with "__", with their current values |
| Engine.Key | app/util/classes/dmvsummary.py:97-101 | the key is "source:db.ed.rec", and reading a missing attribute fails |
| Engine.Record.constructor | app/util/classes/dmvdetails.py:82-119 | a new record holds exactly the kind's defaults |
| Engine.Record.Set | app/util/classes/baserecord.py:72 | setattr replaces one attribute and leaves the others as they were |
| Engine.Record.Extract | app/util/classes/baserecord.py:51-75 | the loop, including a transform that raises, leaves the attributes and the exception exactly as the rule-by-rule specification gives them |
| Engine.Record.FromXmlFolded | app/util/classes/baserecord.py:32-75 | from_xml: the case-folded table lookup, then the rules, as specified |
| Engine.Record.FromXmlStamped | app/util/classes/rpdetails.py:152-187 | from_xml of the exact-lookup kinds: the table lookup, source and state recorded, then the rules, as specified |
| Transforms.SolidOfBlanked | app/util/classes/dmvdetails.py:16 | blanking the punctuation keeps, apart from whitespace, exactly the characters that are not punctuation |
| Transforms.CollapseProperties | app/util/classes/dmvdetails.py:19 | collapsing runs of whitespace never lengthens the text, leaves no two adjacent whitespace characters, keeps whether the text starts with whitespace, adds nothing but spaces and keeps the non-whitespace characters in order |
| Transforms.CollapseKeepsSingleSpaced | app/util/classes/dmvdetails.py:19 | a text without adjacent whitespace is left unchanged |
| Transforms.CleanStringProperties | app/util/classes/dmvdetails.py:14-20 | clean_string never lengthens its input, keeps a non-empty input non-empty, leaves no punctuation and no two adjacent whitespace characters, and keeps the other non-whitespace characters in order; it does not trim |
| Transforms.CleanStringIdempotent | app/util/classes/dmvdetails.py:14-20 | cleaning a cleaned text changes nothing |
| Transforms.StreetLinkProperties | app/util/classes/dmv_lienholder.py:22-23 | make_street_link is as long as the cleaned text, holds no whitespace, and has '+' exactly where the cleaned text has whitespace or a '+' |
| Transforms.TxDeedBookId | app/util/classes/rpdetails.py:21-24 | an empty input is returned unchanged; any other input gets the prefix "Book " |
| Transforms.TxBookPage | app/util/classes/rpdetails.py:27-30 | an empty input is returned unchanged; any other input gets the prefix "Page " |
| Transforms.TxDeedNum | app/util/classes/rpdetails.py:33-36 | "" and "0" are returned unchanged; any other input gets the prefix "Instrument # " |
| Transforms.TextAfterColonMeaning | app/util/classes/rpsummary.py:23-31 | the text is kept unless it holds exactly one colon; then it is the stripped text after that colon |
| Transforms.SplitParts | app/util/classes/dmvsummary.py:24 | split(":") gives the whole text when there is no colon, and otherwise a second part running from the first colon to the next or to the end |
| Transforms.ColonSegmentMeaning | app/util/classes/dmvsummary.py:22-36 | without a colon the text is kept (the IndexError fallback); with one, the stripped text between the first colon and the next |
| Transforms.DropTrailingSlash | app/util/classes/dmvsummary.py:45-46 | exactly one trailing "/" is removed, and nothing else changes |
| Transforms.CoOwnerAsWritten | app/util/classes/dmvsummary.py:38-48 | as written, an input without a colon fails with AttributeError (str has no copy); with a colon, the cleaned colon segment without its trailing "/" |
| Transforms.CoOwnerCorrects | app/util/classes/dmvsummary.py:38-48 | the corrected transform agrees with the code wherever the code succeeds, cleans the whole input when there is no colon, and yields a non-empty owner from a non-empty segment |
| Transforms.CoOwnerWithoutColon | app/util/classes/dmvsummary.py:41-42 | "SMITH JOHN" makes the code as written fail, while the corrected transform returns it cleaned |
| Transforms.ApplyAsWritten | app/util/classes/dmvsummary.py:38-48 | as the code runs a transform, only the co-owner transform raises, with AttributeError, and only on text without a colon; every transform that returns gives the corrected value |
| DmvDetails.Defaults | app/util/classes/dmvdetails.py:82-119 | __init__ creates exactly the declared attributes, all None |
| DmvDetails.New | app/util/classes/dmvdetails.py:82-119 | a new record holds the defaults |
| DmvDetails.FromXml | app/util/classes/dmvdetails.py:126-169 | from_xml changes the record and raises exactly as the case-folded lookup and the " / "-appending rules specify |
| DmvDetails.UnknownSourceRefused | app/util/classes/dmvdetails.py:135-136 | a source other than PUBLICDATA, in any case, raises ValueError naming it and leaves the record as it was |
| DmvDetails.MixedCaseSourceFails | app/util/classes/dmvdetails.py:135-141 | PUBLICDATA spelled in another case passes the first test and then fails with KeyError, because MAPPINGS is indexed with the source as given |
| DmvDetails.UnknownStateRefused | app/util/classes/dmvdetails.py:138-139 | a state other than TX or CO, in any case, raises ValueError naming the source and the state |
| DmvDetails.StateCaseIgnored | app/util/classes/dmvdetails.py:138-141 | the state is upper-cased before the lookup, so "tx" behaves exactly like "TX" |
| DmvDetails.RulesOf | app/util/classes/dmvdetails.py:141-169 | a mapped state runs exactly its own table with the " / " append |
| DmvDetails.TargetsDeclared | app/util/classes/dmvdetails.py:24-119 | every attribute the TX and CO tables name is one that __init__ creates |
| DmvDetails.NewRecordCompletes | app/util/classes/dmvdetails.py:86-169 | a new record takes either table to the end without an exception and gains no attribute beyond those of __init__ |
| DmvDetails.OwnerTextNonEmpty | app/util/classes/dmvdetails.py:53-55 | a cleaned owner text, when present, is never empty |
| DmvDetails.CoOwnerContributions | app/util/classes/dmvdetails.py:53-55 | the three CO owner rules contribute the cleaned owner texts present, in table order |
| DmvDetails.CoOwnersRun | app/util/classes/dmvdetails.py:52-166 | starting from None, owner_name ends as the owner texts present joined with " / ", or None when there are none |
| DmvDetails.CoOwnersJoined | app/util/classes/dmvdetails.py:53-166 | a new CO record's owner_name is the cleaned texts of Owner 1, 2 and 3 that are present, in that order, joined with " / " |
| DmvDetails.TxFormattedFromAttributes | app/util/classes/dmvdetails.py:37-151 | in TX the plate and previous plate are the formattedplate attributes of their fields, the title date the formatteddate attribute and the VIN the formattedvin attribute, not the fields' text, each None when missing or empty |
| DmvDetails.TxLeavesUnmappedAlone | app/util/classes/dmvdetails.py:95-99 | attributes that no TX rule names, such as prev_owner_street and notice_name, keep their value |
| DmvSummary.Defaults | app/util/classes/dmvsummary.py:75-91 | __init__ sets every attribute to None except case_status, which is "N" |
| DmvSummary.New | app/util/classes/dmvsummary.py:75-91 | a new summary holds the defaults |
| DmvSummary.FromXml | app/util/classes/dmvsummary.py:103-134 | from_xml changes the record and raises exactly as the exact lookup, the stamping and the overwriting rules specify, the raising co-owner transform included |
| DmvSummary.ExactKeys | app/util/classes/dmvsummary.py:112-118 | keys are matched exactly: anything but PUBLICDATA with TX or CO raises ValueError before the record is touched |
| DmvSummary.KnownStatesComplete | app/util/classes/dmvsummary.py:118-134 | a known table runs to the end exactly unless it is the CO table and the owner text is non-empty without a colon |
| DmvSummary.CoRaises | app/util/classes/dmvsummary.py:38-68 | of the CO rules only the owner rule can raise, and it raises exactly on non-empty owner text without a colon |
| DmvSummary.CoOwnerWithoutColonRaises | app/util/classes/dmvsummary.py:38-134 | on such owner text a CO summary raises AttributeError at its first rule and keeps only the source and state it recorded |
| DmvSummary.TxDisplayRun | app/util/classes/dmvsummary.py:53-134 | a TX summary overwrites owner_name with the displayed owner and plate with the colon segment of "label: plate", when a non-empty value is read |
| DmvSummary.TxKeyRun | app/util/classes/dmvsummary.py:58-134 | a TX summary takes db, ed and rec from the record element's attributes and keeps the source and state recorded before the rules |
| DmvSummary.TxKeepRun | app/util/classes/dmvsummary.py:52-91 | no TX rule touches the VIN or the case status |
| DmvSummary.TxPlate | app/util/classes/dmvsummary.py:30-55 | a new TX summary's plate is the colon segment of the field text, or None when the field is missing or empty |
| DmvSummary.PlateRead | app/util/classes/dmvsummary.py:30-134 | the plate stored into a None attribute is the colon segment of a non-empty text, or None |
| DmvSummary.TxKey | app/util/classes/dmvsummary.py:97-101 | a new TX summary's key is "PUBLICDATA:" followed by db, ed and rec joined by "." |
| DmvSummary.TxKeepsStatus | app/util/classes/dmvsummary.py:80-91 | a new TX summary keeps case status "N" and has no VIN |
| DmvSummary.CoRun | app/util/classes/dmvsummary.py:63-134 | when the owner text has a colon or is missing or empty, a CO summary completes and overwrites owner_name through the owner transform |
| DmvSummary.CoNewRecord | app/util/classes/dmvsummary.py:63-91 | on such owner text a new CO summary completes and holds the transformed owner, or None |
| DmvSummary.CoOwnerRead | app/util/classes/dmvsummary.py:38-63 | on such owner text a new CO summary's owner_name is the cleaned text after the first colon less a trailing "/", or None |
| DmvSummary.OwnerRead | app/util/classes/dmvsummary.py:38-48 | the corrected co-owner transform stores the cleaned colon segment of a non-empty text into a None attribute, or leaves None |
| RpDetails.DefaultsReceptive | app/util/classes/rpdetails.py:91-136 | __init__(county) creates exactly the declared attributes, each a string or falsy, so any of them can be appended to |
| RpDetails.DefaultCounty | app/util/classes/rpdetails.py:98 | property_county is the county given |
| RpDetails.DefaultZeros | app/util/classes/rpdetails.py:115-122 | the counts start at 0 |
| RpDetails.DefaultFlags | app/util/classes/rpdetails.py:121-129 | pool and zillow start False |
| RpDetails.DefaultNones | app/util/classes/rpdetails.py:95-136 | every other attribute starts as None |
| RpDetails.New | app/util/classes/rpdetails.py:91-136 | a new record holds the defaults for its county |
| RpDetails.FromXml | app/util/classes/rpdetails.py:143-190 | from_xml changes the record and raises exactly as the exact lookup, the stamping and the space-append-and-strip rules specify |
| RpDetails.ExactKeys | app/util/classes/rpdetails.py:152-156 | source and state are matched case-sensitively: anything but PUBLICDATA with TX raises ValueError and leaves the record as it was |
| RpDetails.TargetsDeclared | app/util/classes/rpdetails.py:41-136 | every attribute the TX table names is one that __init__ creates |
| RpDetails.StampsUntargeted | app/util/classes/rpdetails.py:41-83 | no TX rule writes source, state or property_county |
| RpDetails.StampedCompletes | app/util/classes/rpdetails.py:165-187 | with the source and state recorded, a new record runs the TX table to the end, gaining only source and state |
| RpDetails.StampsKept | app/util/classes/rpdetails.py:165-187 | rules that name neither source, state nor county leave the recorded values in place |
| RpDetails.NewRecordStamped | app/util/classes/rpdetails.py:98-166 | after from_xml, source and state equal the arguments and property_county is the constructor's county |
| RpDetails.StreetContributions | app/util/classes/rpdetails.py:42-47 | property_street receives the Situs Num, Prefix, Street and Suffix texts in table order |
| RpDetails.OwnerStreetContributions | app/util/classes/rpdetails.py:56-58 | owner_street receives Addr Line1, Line2 and Line3 in order |
| RpDetails.StreetRun | app/util/classes/rpdetails.py:42-187 | when the situs texts carry no surrounding whitespace, property_street starts as None and ends as those texts joined by single spaces, or None when there are none |
| RpDetails.OwnerStreetRun | app/util/classes/rpdetails.py:56-187 | when the address lines carry no surrounding whitespace, owner_street starts as None and ends as those lines joined by single spaces, or None |
| RpDetails.DeedContributions | app/util/classes/rpdetails.py:66-68 | deed_location receives "Book b", "Page p" and "Instrument # n" for the parts present, in that order |
| RpDetails.DeedRun | app/util/classes/rpdetails.py:66-187 | when the deed texts carry no surrounding whitespace, deed_location starts as None and ends as the deed parts joined by single spaces, or None |
| RpDetails.NewRecordJoins | app/util/classes/rpdetails.py:42-187 | when the texts carry no surrounding whitespace, a new record completes from_xml with the property street, owner street and deed location each joined in table order |
| RpDetails.NewRecordFolds | app/util/classes/rpdetails.py:42-187 | for any texts, a new record completes, and each joined attribute is its parts folded into None in table order, each step storing the stripped "existing value" + " " + part |
| DmvLienHolder.Defaults | app/util/classes/dmv_lienholder.py:66-76 | __init__ creates exactly the seven attributes, all None |
| DmvLienHolder.New | app/util/classes/dmv_lienholder.py:66-76 | a new record holds the defaults |
| DmvLienHolder.FromXml | app/util/classes/dmv_lienholder.py:85-128 | from_xml changes the record and raises exactly as the case-folded lookup and the " "-appending path rules specify |
| DmvLienHolder.OnlyTexas | app/util/classes/dmv_lienholder.py:97-98 | any state other than TX, in any case, raises ValueError naming the source and the state |
| DmvLienHolder.TexasInAnyCase | app/util/classes/dmv_lienholder.py:97-100 | "tx" and "Tx" run the TX table with the single-space append |
| DmvLienHolder.NewRecordCompletes | app/util/classes/dmv_lienholder.py:52-125 | a new record runs the TX table to the end and keeps exactly the attributes of __init__ |
| DmvLienHolder.CityStateZipContributed | app/util/classes/dmv_lienholder.py:60-62 | city_state_zip receives the City, State and Zip Code texts present, in that order; a self-closed field contributes nothing |
| DmvLienHolder.PositionContributed | app/util/classes/dmv_lienholder.py:53-54 | position receives the texts of both spellings of its label, in table order |
| DmvLienHolder.CityStateZipRun | app/util/classes/dmv_lienholder.py:60-125 | starting from None, city_state_zip ends as the parts present joined by single spaces, or None |
| DmvLienHolder.PositionRun | app/util/classes/dmv_lienholder.py:53-125 | starting from None, position ends as the texts of both labels joined by a space, or None |
| DmvLienHolder.CityStateZipJoined | app/util/classes/dmv_lienholder.py:53-125 | a new record completes from_xml with city_state_zip and position joined by single spaces from the parts present |
| DlDetails.Defaults | app/util/classes/dldetails.py:46-63 | __init__ creates exactly the declared attributes, all None |
| DlDetails.New | app/util/classes/dldetails.py:46-63 | a new record holds the defaults |
| DlDetails.FromXml | app/util/classes/baserecord.py:32-75 | the inherited from_xml over the licence table, with the " / " append |
| DlDetails.OnlyTexas | app/util/classes/dldetails.py:29-31 | only TX is mapped: any other state, in any case, raises ValueError through the inherited lookup |
| DlDetails.TexasInAnyCase | app/util/classes/dldetails.py:29-31 | "tx" and "Tx" select the TX table |
| DlDetails.TargetsDeclared | app/util/classes/dldetails.py:31-63 | every attribute the table names is one that __init__ creates |
| DlDetails.NewRecordCompletes | app/util/classes/dldetails.py:31-63 | a new record runs the table to the end and keeps exactly the attributes of __init__ |
| DlDetails.AddressContributions | app/util/classes/dldetails.py:36-38 | address receives the Address text and then the Address(Continued) text, for those present |
| DlDetails.AddressRun | app/util/classes/dldetails.py:36-38 | starting from None, address ends as those texts joined with " / ", or None |
| DlDetails.AddressJoined | app/util/classes/dldetails.py:36-38 | a new record's address is the Address text followed by the continuation, joined with " / " when both are present |
| DlDetails.LinkRun | app/util/classes/dldetails.py:32-37 | starting from None, linkable_address is make_street_link of the Address text and first_name is the cleaned First Name |
| DlDetails.NamesAndDateRun | app/util/classes/dldetails.py:33-43 | starting from None, middle_name, last_name and suffix are the cleaned texts of their fields and issue_date is the formatteddate attribute of Issue Date, each None when missing or empty |
| DlDetails.LinkableAddressAndNames | app/util/classes/dldetails.py:32-43 | a new record completes; its linkable_address is the street link of the Address text and holds no whitespace, its first, middle and last names and suffix are the cleaned texts of their fields, and its issue date is the formatteddate attribute of Issue Date |
| DlSummary.New | app/util/classes/dlsummary.py:45-57 | a new summary holds every declared attribute as None |
| DlSummary.FromXml | app/util/classes/dlsummary.py:63-94 | from_xml changes the record and raises exactly as the exact lookup, the stamping and the overwriting rules specify |
| DlSummary.ExactKeys | app/util/classes/dlsummary.py:72-76 | anything but PUBLICDATA with TX or CO raises ValueError and leaves the record as it was |
| DlSummary.TxDriverRun | app/util/classes/dlsummary.py:25-94 | in TX the cleaned first display field overwrites driver_name when a non-empty value is read |
| DlSummary.DriverRead | app/util/classes/dlsummary.py:25 | the driver stored into a None attribute is the cleaned text, or None |
| DlSummary.TxDriverName | app/util/classes/dlsummary.py:25-94 | a new TX summary names the driver as the cleaned first display field, or None when that field is missing or empty |
| DlSummary.CoKeepsDriver | app/util/classes/dlsummary.py:32-39 | the CO table never writes driver_name |
| DlSummary.RootKeys | app/util/classes/dlsummary.py:28-81 | under either table, db, ed and rec come from the record element's own attributes, and source and state are the arguments |
| RpSummary.New | app/util/classes/rpsummary.py:73-100 | a new summary holds None everywhere except zillow (False) and case_status ("N") |
| RpSummary.FromXml | app/util/classes/rpsummary.py:112-160 | from_xml changes the record and raises exactly as the state and county derivation, the table choice and the overwriting rules specify |
| RpSummary.StateNameMeaning | app/util/classes/rpsummary.py:126-129 | without a "(" in the attribution the state cannot be read; otherwise the state name is the upper-cased longest run of letters and whitespace right after the first "(" |
| RpSummary.CountyMeaning | app/util/classes/rpsummary.py:131-133 | the county holds only letters and whitespace, with no whitespace at either end |
| RpSummary.Refusals | app/util/classes/rpsummary.py:121-136 | an unknown source raises ValueError; a missing ./source element or an attribution without "(" raises IndexError; a source element without text raises TypeError; a derived state without a table raises ValueError; any failure leaves the record as it was |
| RpSummary.TableChoice | app/util/classes/rpsummary.py:35-143 | TX always uses its "*" table; in AR, Washington county (in any case) has its own table and every other county uses "*" |
| RpSummary.StateArgumentIgnored | app/util/classes/rpsummary.py:112-129 | the state argument plays no part in the outcome |
| RpSummary.OwnerRun | app/util/classes/rpsummary.py:37-160 | the owner's name comes from the table's first rule alone |
| RpSummary.KeyRun | app/util/classes/rpsummary.py:41-147 | the record keeps the source, the derived state and the county recorded before the rules, and takes db, ed and rec from the record element |
| RpSummary.KeepRun | app/util/classes/rpsummary.py:84-160 | the rules never write case_status or zillow |
| RpSummary.SelectParts | app/util/classes/rpsummary.py:121-143 | a successful selection is for PUBLICDATA, names TX or AR, and uses the table chosen for its county |
| RpSummary.OwnerStored | app/util/classes/rpsummary.py:37-160 | the owner stored into a None attribute is the non-empty first display field through the selected table's transform, or None |
| RpSummary.NewSummary | app/util/classes/rpsummary.py:112-160 | a new summary read successfully records the source, the derived state and county, and the owner through the table's transform, or None |
| RpSummary.NewSummaryKey | app/util/classes/rpsummary.py:106-110 | a new summary's key is the source followed by db, ed and rec from the record element |
| RpSummary.NewSummaryStatus | app/util/classes/rpsummary.py:84-100 | a new summary keeps case_status "N" and zillow False |
| Cache.SerializeTags | app/util/database.py:185-199 | the tag is XML exactly for an element tree, JSON for a dict, STR for a string and PICKLE for anything else; a string is stored unchanged |
| Cache.RoundTrip | app/util/database.py:185-234 | with the STR branch corrected, every response is rebuilt exactly as it was stored |
| Cache.StrRoundTripFails | app/util/database.py:227-228 | as written, a stored string never comes back: rebuilding it raises AttributeError, while every other kind comes back as stored |
| Cache.ResponseCache.constructor | app/util/database.py:112-170 | the cache starts empty |
| Cache.ResponseCache.Insert | app/util/database.py:112-144 | insert_cache upserts the (source, query) document with ttl now + 3 days, leaves every other document alone, and reports True |
| Cache.ResponseCache.Check | app/util/database.py:146-170 | check_cache answers exactly as the lookup on the documents specifies, with reconstitute_cached_response as written |
| Cache.InsertThenLookup | app/util/database.py:128-234 | after an insert, the same (source, query) is found until three days have passed and not after; while found, a text response raises AttributeError and every other kind comes back as inserted |
| Cache.InsertThenLookupIntended | app/util/database.py:128-234 | with the STR branch corrected, every kind of response comes back as inserted until three days have passed, and nothing after |
| Cache.Live | app/util/database.py:163-168 | the document found is the (source, query) one, and only when its ttl is after now |
| Cache.InsertKeepsOthers | app/util/database.py:140-164 | an insert leaves the answer for every other (source, query) unchanged |
| Cache.ExpiredIsMissing | app/util/database.py:164-168 | once a document's ttl is not after now, check_cache returns None |
| Documents.AsDict | app/util/database.py:989 | the keys of a dict built from pairs are exactly the pairs' keys |
| Documents.ObjectIdOf | app/util/database.py:991 | ObjectId(value) succeeds exactly for an object id or 24 hexadecimal digits, and then yields an object id |
| Documents.RecordFromDict | app/util/database.py:977-995 | the loop builds exactly the record the field-by-field specification gives |
| Documents.FillPlain | app/util/database.py:988-995 | without id fields the fill never fails, and the record's own audit values win over the caller's |
| Documents.RecordFromPlain | app/util/database.py:977-995 | record_from_dict copies every caller key except time and time_str, which keep their audit values |
| Documents.FillIds | app/util/database.py:989-991 | with id fields, the fill fails exactly when one of them holds a value ObjectId refuses; otherwise every id field holds an object id |
| Documents.SplitCategoryMeaning | app/util/database.py:1010-1021 | exactly one colon splits the category into a "/"-prefixed main and sub-category; none, or two or more, leave the whole category as the main one with no sub-category |
| Documents.CategoryRoundTrip | app/util/database.py:1010-1021 | "A" gives ("/A", None) and "A:B" gives ("/A", "/B") for colon-free A and B |
| Documents.NextRequestNumber | app/util/database.py:1024-1036 | an empty list raises IndexError; otherwise the result is one more than the largest number, which is in the list |
| CaseStore.Store.constructor | app/util/database.py:439-505 | the store holds the given users and cases collections |
| CaseStore.Store.AddToCase | app/util/database.py:439-505 | the reply and the cases left are those of the add specification: unknown user or unowned case gives False with no write, a malformed id or a non-dict sub-category entry gives the exception, otherwise the item is stored and the case saved with fresh audit values; users never change |
| CaseStore.Store.DelFromCase | app/util/database.py:507-573 | the reply and the cases left are those of the delete specification: False for an unknown user or unowned case, True without a write when there is nothing to delete, otherwise the key is removed and the case saved |
| CaseStore.Store.GetCaseItems | app/util/database.py:841-906 | the reply is the get-items specification's, branch by branch: [] for a malformed id, False for an unowned case, [] without discovery map, category or sub-category, else the map, category or sub-category entry |
| CaseStore.ItemsAccess | app/util/database.py:856-889 | a malformed case id gives [] whoever asks; for a well-formed id the reply is False exactly when the caller does not own the case; an owner asking without a category gets the whole discovery map, or [] when the case has none |
| CaseStore.AddItemEffect | app/util/database.py:475-494 | the add fails exactly when the sub-category entry is a scalar; otherwise the item sits under key in the named category or sub-category and every other category and key keeps its value |
| CaseStore.AddThenGet | app/util/database.py:475-494 | after a successful add, get_case_items for the same category returns the caller's fields with the audit values under key |
| CaseStore.AddWritesOneCase | app/util/database.py:458-505 | a call that does not return True writes nothing; a successful one changes only the named case and no case appears or disappears |
| CaseStore.DelThenGet | app/util/database.py:541-562 | after a delete that returns True, get_case_items for the same category no longer holds key |
| CaseStore.AddThenRemove | app/util/database.py:490-562 | removing the key just added gives the category or sub-category as it was without that key |
| CaseStore.AddSucceeded | app/util/database.py:458-505 | an add returns True only for a case the caller owns, and then stores exactly the updated discovery map in that case |
| CaseStore.AddThenDel | app/util/database.py:439-573 | add then delete of the same key returns True and leaves the category (or sub-category) as it was before, minus that key |
| CaseStore.DelNothingToDo | app/util/database.py:536-562 | an unowned case gets False without a write; with no discovery map or no such key the delete returns True without a write |
| CaseRoutes.FormValue | app/views/cases/case_routes.py:75-78 | fields[name] is missing exactly when no posted pair has that name, and otherwise is the value of the first pair with that name |
| CaseRoutes.ItemFieldsMeaning | app/views/cases/case_routes.py:72-73 | the item holds exactly the posted names other than case_id, category, key and operation, each with its posted value; "op" is kept |
| CaseRoutes.UpdateCaseItems | app/views/cases/case_routes.py:68-92 | the reply and the cases left are those of the update specification: KeyError on a missing field, add then delete from the exclusion category, delete then add to it, or the invalid-operation reply; users never change |
| CaseRoutes.InvalidOperation | app/views/cases/case_routes.py:78-92 | an operation other than add or del, in any letter case, gets success False with "Invalid operation: " and the lower-cased name, and nothing is written |
| CaseRoutes.MissingField | app/views/cases/case_routes.py:75-78 | a form without category, key, description or op ends in KeyError with nothing written |
| CaseRoutes.ExclusionElsewhere | app/views/cases/case_routes.py:83-87 | the exclusion category "X" + c never shares its top-level name with c |
| CaseRoutes.ItemsFrame | app/util/database.py:886-906 | what get_case_items lists for a category depends only on ownership and the case's entry under that category's top-level name |
| CaseRoutes.DelKeepsOther | app/views/cases/case_routes.py:83-86 | a delete in one top-level category leaves what any other category lists unchanged |
| CaseRoutes.AddKeepsOther | app/views/cases/case_routes.py:82-87 | an add in one top-level category leaves what any other category lists unchanged |
| CaseRoutes.UnownedStaysUnowned | app/views/cases/case_routes.py:82-87 | when the first store call of a request answers False for lack of ownership, so does the second |
| CaseRoutes.AddOperation | app/views/cases/case_routes.py:80-84 | after a successful add request the category lists the item under key, stamped with the first call's audit values, and the exclusion category does not list the key |
| CaseRoutes.DelOperation | app/views/cases/case_routes.py:85-88 | after a successful delete request the exclusion category lists the item under key, stamped with the second call's audit values, and the category does not list the key |
| CaseRecord.Missing | app/util/classes/case.py:42-50 | the falsy required properties in checking order, exactly those named, set and falsy; the list is empty exactly when all are set and truthy; AttributeError at the first name never set |
| CaseRecord.Case.constructor | app/util/classes/case.py:23-35 | the case holds the None defaults overwritten by every caller field |
| CaseRecord.NewCase | app/util/classes/case.py:23-40 | a case is returned exactly when the specification accepts the fields, holding their attributes; otherwise the exception raised is the specification's |
| CaseRecord.CaseNameRequired | app/util/classes/case.py:12-31 | case_name has no default, so fields without it always fail with AttributeError on case_name |
| CaseRecord.Accepted | app/util/classes/case.py:12-40 | a case is built exactly when every required property is given a truthy value, and then holds the fields over the defaults |
| CaseRecord.RefusedNames | app/util/classes/case.py:38-40 | the exception lists at least one name, in checking order, exactly the required properties that are falsy |
| MakeCsv.GroupNeverMatches | app/make_csv.py:13-16 | the quoted type is never "group", so as written every record's state column is the key's quoted first two characters |
| MakeCsv.GroupStateDiffers | app/make_csv.py:13-19 | for a group database whose key has two characters or more, the record as written differs from the intended one |
| MakeCsv.GroupHasNoState | app/make_csv.py:15-18 | as intended, a record whose key has two characters or more has the empty state column exactly when the database is a group |
| MakeCsv.MakeRecords | app/make_csv.py:7-20 | the loop builds the records as the script writes them for every present dictionary, later ones over earlier ones |
| MakeCsv.AddRecords | app/make_csv.py:10-20 | the inner loop adds one dictionary's records, as the script writes them, over those already there |
| MakeCsv.RecordsMeaning | app/make_csv.py:7-20 | the keys are exactly those of the present dictionaries, and each key's record is the one the script writes from the last dictionary that has it |
| MakeCsv.RecordsStateColumn | app/make_csv.py:13-20 | every record in the output, a group database's included, has the key's quoted first two characters as its state column |
| MakeCsv.SkipsNone | app/make_csv.py:9 | a falsy entry contributes nothing: removing it leaves the records unchanged |
| Merge.Entries | app/app.py:98-110 | one entry per result, in order, pairing each result with its "db-ed-rec" key |
| Merge.TabulateMeaning | app/app.py:98-110 | storing results by key adds exactly their keys, each key ends holding the last result with that key, and other keys keep their values |
| Merge.JoinResults | app/app.py:78-120 | the loops build the join of the specification: the disjunctive update of the prior dict, or the conjunctive intersection or reseeding |
| Merge.TabulateResults | app/app.py:98-110 | the same last-wins fact stated over the results' own keys |
| Merge.Disjunctive | app/app.py:97-101 | a disjunctive join holds the prior keys and every new key, each new key with the last new result having it, other prior entries unchanged |
| Merge.Conjunctive | app/app.py:113-117 | after a non-empty prior dict a conjunctive join keeps exactly the keys in both, with the prior results |
| Merge.ConjunctiveSeed | app/app.py:118-119 | after an empty prior dict a conjunctive join takes the new results by key, the last of each key winning |
| Merge.SearchDmv | app/app.py:195-239 | the four field blocks give the search specification's outcome: NameError on success when no field is set, else the last sub-search's flag and the joined results |
| Merge.SubSearchStep | app/app.py:207-213 | a block runs its search only for a non-empty field and then joins its results onto the earlier ones |
| Merge.FourBlocks | app/app.py:207-237 | the four blocks leave the variables that joining the searched replies in order gives |
| Merge.SearchMeaning | app/app.py:203-239 | the outcome is NameError when no field is set, and otherwise the last sub-search's success flag with all searched results joined in order |
| Merge.NetSnoc | app/app.py:213-237 | one more sub-search joins its results onto the net of the earlier ones |
| Merge.DisjunctiveNet | app/app.py:97-101 | a disjunctive search finds the key of every result of every sub-search it ran |
| Merge.IntendedStep | app/app.py:103-117 | the intended conjunctive step after an earlier search keeps the keys in both with the earlier values, even when the earlier set is empty |
| Merge.IntendedIsIntersection | app/app.py:103-117 | as intended, a conjunctive search keeps exactly the results whose key every sub-search found, with the first values |
| Merge.IntendedSeed | app/app.py:106-119 | the first conjunctive sub-search seeds the intended intersection with its own results |
| Merge.NetThree | app/app.py:207-229 | three sub-searches join their results in order |
| Merge.ConjunctiveReseeds | app/app.py:113-119 | as written, when two conjunctive searches share no key the empty result lets a third search's results through unintersected |
| Merge.EmptyWhenDisjoint | app/app.py:103-117 | once the intended intersection meets a search with no key in common it stays empty |
| Merge.IntendedStaysEmpty | app/app.py:103-117 | the intended join of the same three searches keeps nothing |
| Vehicles.Filtered | app/views/vehicles/vehicle_routes.py:69-91 | marking keeps the number of found vehicles |
| Vehicles.StatusKeepsKey | app/views/vehicles/vehicle_routes.py:84-85 | setting case_status keeps the item's key |
| Vehicles.Pass | app/views/vehicles/vehicle_routes.py:83-85 | one pass keeps the number of items and each item's key |
| Vehicles.MarkPass | app/views/vehicles/vehicle_routes.py:83-85 | the in-place pass over the results leaves what the pass specification gives |
| Vehicles.FilterResults | app/views/vehicles/vehicle_routes.py:69-91 | the results array ends as the marking specification gives, from the store's answers for the exclusion category and the category |
| Vehicles.TwoPasses | app/views/vehicles/vehicle_routes.py:81-91 | the exclusion pass and then the inclusion pass, each skipped on a falsy answer, give every item the status the marking decides |
| Vehicles.FilterStatus | app/views/vehicles/vehicle_routes.py:81-91 | an item the included answer holds becomes "I", else one the excluded answer holds becomes "X", else it keeps its status; nothing else about it changes |
| Vehicles.FilteredListed | app/views/vehicles/vehicle_routes.py:69-91 | marking keeps every item listable by key and sort key |
| Vehicles.NothingStoredChangesNothing | app/views/vehicles/vehicle_routes.py:82-88 | when both store answers are falsy every item is left as it was |
| Vehicles.StrLeTotal | app/views/vehicles/vehicle_routes.py:125 | Python's string order is total |
| Vehicles.StrLeTrans | app/views/vehicles/vehicle_routes.py:125 | Python's string order is transitive |
| Vehicles.StrLeAntisym | app/views/vehicles/vehicle_routes.py:125 | Python's string order is antisymmetric |
| Vehicles.ValueLeOrder | app/views/vehicles/vehicle_routes.py:125 | the order on sort-key values is total, transitive and antisymmetric |
| Vehicles.BeforeTotal | app/views/vehicles/vehicle_routes.py:125 | of two vehicles one sorts before the other by (case_status, year_make_model) |
| Vehicles.BeforeTrans | app/views/vehicles/vehicle_routes.py:125 | the tuple order on the sort key is transitive |
| Vehicles.Insert | app/views/vehicles/vehicle_routes.py:125 | inserting adds only the new vehicle to those already there |
| Vehicles.SortResults | app/views/vehicles/vehicle_routes.py:125 | the sorted list holds only vehicles of the input |
| Vehicles.InsertSorted | app/views/vehicles/vehicle_routes.py:125 | inserting into a sorted list keeps it sorted and adds exactly the one vehicle |
| Vehicles.SortResultsCorrect | app/views/vehicles/vehicle_routes.py:125 | sorted(...) is sorted by the key and a permutation of the found vehicles |
| Vehicles.StatusOrder | app/views/vehicles/vehicle_routes.py:125 | among vehicles marked I, N or X, the included come first, then the unmarked, then the excluded |
| Vehicles.SearchVehicles | app/views/vehicles/vehicle_routes.py:96-140 | the view gives the search specification's outcome: KeyError for an unknown type, the marked results sorted on success, the error page otherwise |
| Vehicles.VehicleSearchMeaning | app/views/vehicles/vehicle_routes.py:104-140 | an unknown search type and only that raises KeyError; a failed search lists nothing; a successful one lists every found vehicle once, sorted, and without a case exactly the vehicles found |
| Webservice.Deps | app/webservice.py:347-350 | one depreciation per amortization year, from the useful life down to 1, each float(k / sum_of_years) * original * -1 |
| Webservice.AmortizationLoop | app/webservice.py:347-365 | the loop yields the rows for the depreciations in order from the first year, each starting at the previous end value, and adds the fair market value to the message for the row of this year |
| Webservice.FmvAppend | app/webservice.py:360-361 | appending a row adds its end value as the fair market value exactly when its year is this year, and no earlier row had it |
| Webservice.DepreciateFrom | app/webservice.py:323-365 | the adjustments of purchase year, base year and useful life give the schedule the specification gives, including the no-remaining-value and reduced-life messages |
| Webservice.AmortizationSchedule | app/webservice.py:261-365 | the whole function gives the specification's schedule and message: the model-year, price and zero-value refusals, the raised exceptions, the purchase-year fallback |
| Webservice.ScheduleMeaning | app/webservice.py:298-365 | every schedule returned starts at the sale price, chains begin to end values over consecutive years, has at most the normal useful life in rows, and depreciates the whole price: its depreciations sum to minus the price and it ends at zero |
| Webservice.RowsShape | app/webservice.py:349-363 | one row per depreciation over consecutive years, the first beginning at the start value, each ending at its begin value plus its depreciation |
| Webservice.RowsChained | app/webservice.py:351-363 | each row begins with the end value of the row before |
| Webservice.RowsTotal | app/webservice.py:349-363 | the depreciation column sums to the depreciations, and the last row ends that far from the start |
| Webservice.DepreciationAdd | app/webservice.py:350 | depreciations add by their amortization years |
| Webservice.DepsSum | app/webservice.py:347-350 | the depreciations over years k down to 1 sum to the depreciation of 1 + ... + k years |
| Webservice.FullyDepreciated | app/webservice.py:347-363 | over the full useful life the depreciations sum to minus the original value and the last row ends at zero |
| Webservice.RemainingMeaning | app/webservice.py:323-345 | the schedule starts in the purchase year and ends where the normal life from the base year ends, reduced for a used asset; there is none once the purchase or this year is past that end |
| Webservice.ParcelOfMeaning | app/webservice.py:77-90 | a record is read exactly when its address has a comma; the street is the text before it cut at any colon, stripped, the rest is the city-state-zip |
| Webservice.ReadAll | app/webservice.py:77-90 | one outcome per record, in order |
| Webservice.WithStreet | app/webservice.py:94 | exactly the parcels whose street is not empty, never more than given |
| Webservice.TaxRecords | app/webservice.py:67-96 | the function gives the specification's answer: the empty list on a failed search, else every parcel with a street or the first error |
| Webservice.CollectErr | app/webservice.py:77-90 | once a record fails, the whole loop fails with that error |
| Webservice.CollectMeaning | app/webservice.py:77-90 | the loop succeeds exactly when every record is read, giving the parcels in order |
| Webservice.TaxMeaning | app/webservice.py:72-96 | a successful search answers exactly when every record is readable, and then lists exactly the readable parcels with a non-empty street |

## Left out

- XPath evaluation: an element path is an opaque key of the record tree, and `findall` of a label is the fields carrying it in document order.
- HTTP, the public-records and Zillow clients (`publicdata.py`, `zillow.py`), `financial.py`, the Flask routes, templates, flash messages, sessions and decorators, the form classes and `app.js`: I/O and library configuration, not logic.
- The Mongo driver: collections are in-memory maps, an update is assumed to modify the document it names, and dots in keys are not interpreted.
- Wall-clock time: `now`, the audit timestamps of `base_record` and `this_year` are parameters.
- pickle, json and ElementTree internals: a stored payload is a value tagged by its kind, and serialisation never fails.
- The md5 hash that `RpSummary.from_xml` stores: hashing is a library call, so the model never sets that attribute.
- `StateNameToAbbreviation`, which is not part of this model: it is the `names` parameter of the real-property summary.
- Unicode case mapping: `upper` and `lower` map ASCII letters only, and `int()` reads ASCII digits without underscores.
- Floating point: money values are exact reals, so the depreciations sum to exactly minus the price. The "%9.2f" formatting of the fair market value is the `money` parameter.
- `print_schedule`, `property_details`, the `dmv_*` delegating wrappers, `safe_dict` and the rpsummary `__str__`: output or delegation with nothing to state.
- The record search itself in `tax_records`: the records found are an input, and `find()` returning None for a missing child element is not modelled (the texts are optional instead).
- Engine.ToDict: the attribute map holds instance attributes only, so the class-level tables (`MAPPINGS`, `required_properties`) that `dir()` also lists are not in the dict, and the exclusion of callables (the methods) has nothing to exclude.
- Merge.SearchDmv: returns the merged dict; the list of its values that the view renders depends on dict order, which is not modelled.
- Merge.JoinResults: the disjunctive branch returns the updated prior dict as a new value; that the caller's dict object is mutated (aliasing) is not modelled.
- Vehicles.SortResults: values of different kinds are ordered by kind (None, then booleans, then integers, then strings). Python raises TypeError for None or a string against another kind, and compares a boolean with an integer by value (True == 1), keeping such equal keys in input order; the model puts every boolean before every integer. Stability of `sorted` is not stated.
- Vehicles.FilterResults: items are values in an array updated in place, not shared objects; a scalar sub-category entry is treated as holding no key, where Python would test for a substring or raise TypeError.
- Documents.ObjectIdOf: ObjectId(None), which generates a fresh id, is modelled as TypeError; byte-string ids are not modelled.
- Documents.NextRequestNumber: requests are reduced to their numbers; a request without a number (KeyError) is not modelled.
- CaseRecord.NewCase: the exception raised for missing names is MissingRequired(names), not the formatted message text.
- CaseRoutes.UpdateCaseItems: the flash message of an invalid operation is not modelled.
- Cache.ResponseCache.Insert: the failure path of serialisation, which logs and returns (None, None), is not modelled.
- Webservice.AmortizationSchedule: the AttributeError branch of the year parse cannot occur for the dict values modelled; the ValueError message renders the text without Python's repr escaping.
- MakeCsv.MakeRecords: reading the JSON file and writing the CSV file are left out; the records are a map from key to line, without file order.

## Findings

| source | as written | input that shows it | evidently intended | confidence | as-written member | corrected member |
|---|---|---|---|---|---|---|
| app/util/database.py:227-228 | a STR cache entry is rebuilt with `.copy()`, which str does not have | any cached text response, such as "abc" | the stored text is returned, as serialisation stores it unchanged | not executed | Cache.StrRoundTripFails | Cache.RoundTrip |
| app/util/classes/dmvsummary.py:41-42 | without a colon the fallback calls `.copy()` on the str | the co-owner text "SMITH JOHN" | the whole text is cleaned | not executed | Transforms.CoOwnerWithoutColon | Transforms.CoOwnerCorrects |
| app/make_csv.py:13-18 | the type is quoted before it is compared with "group", so the test never matches | a database of type "group" with key "TXGROUP" | group databases get the empty state column | not executed | MakeCsv.GroupStateDiffers | MakeCsv.GroupHasNoState |

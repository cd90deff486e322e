/** The vehicle search view: marking each found vehicle as included in or
    excluded from the case (filter_results), and listing the results
    ordered by case status and then by year, make and model. */
module Vehicles {
  import opened Outcomes
  import opened Engine
  import CaseStore
  import Merge

  /** The attributes key() and the sort read from a found vehicle. */
  predicate Listed(a: Attrs) {
    "source" in a && "db" in a && "ed" in a && "rec" in a && "case_status" in a && "year_make_model" in a
  }

  predicate AllListed(s: seq<Attrs>) {
    forall a :: a in s ==> Listed(a)
  }

  /** item.key(): "source:db.ed.rec". */
  function ItemKey(a: Attrs): string
    requires Listed(a)
  {
    Key(a).value
  }

  /** Truthiness of what get_case_items returns: [] and False are falsy, a
      dict is truthy when it has an entry. */
  predicate Found(items: CaseStore.Items) {
    match items
    case Empty => false
    case Refused => false
    case AllDiscovery(d) => d != map[]
    case CategoryItems(c) => c != map[]
    case GroupItems(g) => !g.Node? || g.children != map[]
  }

  /** `key in items`: a key of the returned dict. */
  predicate Holds(items: CaseStore.Items, k: string) {
    match items
    case Empty => false
    case Refused => false
    case AllDiscovery(d) => k in d
    case CategoryItems(c) => k in c
    case GroupItems(g) => g.Node? && k in g.children
  }

  /** Whether a pass over the results marks the item with key k. */
  predicate Marks(items: CaseStore.Items, k: string) {
    Found(items) && Holds(items, k)
  }

  /** An item after both passes: "I" when the included items hold its key,
      otherwise "X" when the excluded items do, otherwise as it was. */
  function Marked(a: Attrs, excluded: CaseStore.Items, included: CaseStore.Items): Attrs
    requires Listed(a)
  {
    if Marks(included, ItemKey(a)) then a["case_status" := Str("I")]
    else if Marks(excluded, ItemKey(a)) then a["case_status" := Str("X")]
    else a
  }

  function Filtered(items: seq<Attrs>, excluded: CaseStore.Items, included: CaseStore.Items): (r: seq<Attrs>)
    requires AllListed(items)
    ensures |r| == |items|
  {
    seq(|items|, i requires 0 <= i < |items| => Marked(items[i], excluded, included))
  }

  /** Setting the case status keeps an item's key. */
  lemma StatusKeepsKey(a: Attrs, v: Value)
    requires Listed(a)
    ensures Listed(a["case_status" := v]) && ItemKey(a["case_status" := v]) == ItemKey(a)
  {
    var b := a["case_status" := v];
    assert b["source"] == a["source"] && b["db"] == a["db"] && b["ed"] == a["ed"] && b["rec"] == a["rec"];
  }

  /** One pass, `for item in results: if item.key() in items:
      item.case_status = status`, on a list of items. */
  function Pass(s: seq<Attrs>, items: CaseStore.Items, status: string): (r: seq<Attrs>)
    requires AllListed(s)
    ensures |r| == |s| && AllListed(r)
    ensures forall i :: 0 <= i < |s| ==> ItemKey(r[i]) == ItemKey(s[i])
  {
    var r := seq(|s|, i requires 0 <= i < |s| =>
      if Holds(items, ItemKey(s[i])) then s[i]["case_status" := Str(status)] else s[i]);
    assert forall i :: 0 <= i < |s| ==> Listed(r[i]) && ItemKey(r[i]) == ItemKey(s[i]) by {
      forall i | 0 <= i < |s| ensures Listed(r[i]) && ItemKey(r[i]) == ItemKey(s[i]) {
        assert s[i] in s;
        StatusKeepsKey(s[i], Str(status));
      }
    }
    r
  }

  /** The pass over the results array, in place. */
  method MarkPass(results: array<Attrs>, items: CaseStore.Items, status: string)
    requires AllListed(results[..])
    modifies results
    ensures results[..] == Pass(old(results[..]), items, status)
  {
    ghost var start := results[..];
    for i := 0 to results.Length
      invariant forall j :: 0 <= j < i ==> results[j] == Pass(start, items, status)[j]
      invariant forall j :: i <= j < results.Length ==> results[j] == start[j]
    {
      assert start[i] in start;
      if Holds(items, ItemKey(results[i])) {
        results[i] := results[i]["case_status" := Str(status)];
      }
    }
  }

  /** filter_results on the results list, changed in place: excluded keys
      are marked "X" in a first pass, included keys "I" in a second, and a
      falsy answer from the store skips its pass. */
  method FilterResults(store: CaseStore.Store, email: string, caseId: string, category: string, results: array<Attrs>)
    requires AllListed(results[..])
    modifies results
    ensures results[..] == Filtered(old(results[..]),
      CaseStore.ItemsSpec(store.users, store.cases, email, caseId, Some("X" + category)),
      CaseStore.ItemsSpec(store.users, store.cases, email, caseId, Some(category)))
  {
    ghost var start := results[..];
    var excluded := store.GetCaseItems(email, caseId, Some("X" + category));
    if Found(excluded) {
      MarkPass(results, excluded, "X");
    }
    var included := store.GetCaseItems(email, caseId, Some(category));
    if Found(included) {
      MarkPass(results, included, "I");
    }
    TwoPasses(start, excluded, included);
  }

  /** The two passes give each item the status Marked decides. */
  lemma TwoPasses(s: seq<Attrs>, excluded: CaseStore.Items, included: CaseStore.Items)
    requires AllListed(s)
    ensures var middle := if Found(excluded) then Pass(s, excluded, "X") else s;
      (if Found(included) then Pass(middle, included, "I") else middle) == Filtered(s, excluded, included)
  {
    var middle := if Found(excluded) then Pass(s, excluded, "X") else s;
    var last := if Found(included) then Pass(middle, included, "I") else middle;
    forall i | 0 <= i < |s| ensures last[i] == Filtered(s, excluded, included)[i] {
      assert ItemKey(middle[i]) == ItemKey(s[i]);
      if Marks(included, ItemKey(s[i])) && Marks(excluded, ItemKey(s[i])) {
        assert s[i]["case_status" := Str("X")]["case_status" := Str("I")] == s[i]["case_status" := Str("I")];
      }
    }
  }

  /** After filtering, an item is "I" exactly when the included items hold
      its key, "X" when only the excluded ones do, and otherwise keeps its
      status; its other attributes, and so its key, do not change. */
  lemma FilterStatus(items: seq<Attrs>, excluded: CaseStore.Items, included: CaseStore.Items, i: int)
    requires AllListed(items) && 0 <= i < |items|
    ensures var a := items[i];
      var b := Filtered(items, excluded, included)[i];
      Listed(b) && ItemKey(b) == ItemKey(a) &&
      b.Keys == a.Keys &&
      (forall n :: n in a && n != "case_status" ==> b[n] == a[n]) &&
      (Marks(included, ItemKey(a)) ==> b["case_status"] == Str("I")) &&
      (!Marks(included, ItemKey(a)) && Marks(excluded, ItemKey(a)) ==> b["case_status"] == Str("X")) &&
      (!Marks(included, ItemKey(a)) && !Marks(excluded, ItemKey(a)) ==> b["case_status"] == a["case_status"])
  {
    var a := items[i];
    assert a in items;
    StatusKeepsKey(a, Str("I"));
    StatusKeepsKey(a, Str("X"));
  }

  lemma FilteredListed(items: seq<Attrs>, excluded: CaseStore.Items, included: CaseStore.Items)
    requires AllListed(items)
    ensures AllListed(Filtered(items, excluded, included))
  {
    var r := Filtered(items, excluded, included);
    forall a | a in r ensures Listed(a) {
      var i :| 0 <= i < |r| && r[i] == a;
      FilterStatus(items, excluded, included, i);
    }
  }

  /** An empty or missing answer from the store, for both lookups, leaves
      every item as it was. */
  lemma NothingStoredChangesNothing(items: seq<Attrs>, excluded: CaseStore.Items, included: CaseStore.Items)
    requires AllListed(items)
    requires !Found(excluded) && !Found(included)
    ensures Filtered(items, excluded, included) == items
  {
  }

  /** Python's `<` on strings: code point by code point, a proper prefix
      first. */
  predicate StrLe(a: string, b: string)
    decreases |a|
  {
    a == [] || (b != [] && (a[0] < b[0] || (a[0] == b[0] && StrLe(a[1..], b[1..]))))
  }

  lemma {:induction false} StrLeTotal(a: string, b: string)
    ensures StrLe(a, b) || StrLe(b, a)
    decreases |a|
  {
    if a != [] && b != [] && a[0] == b[0] {
      StrLeTotal(a[1..], b[1..]);
    }
  }

  lemma {:induction false} StrLeTrans(a: string, b: string, c: string)
    requires StrLe(a, b) && StrLe(b, c)
    ensures StrLe(a, c)
    decreases |a|
  {
    if a != [] && a[0] == b[0] && b[0] == c[0] {
      StrLeTrans(a[1..], b[1..], c[1..]);
    }
  }

  lemma {:induction false} StrLeAntisym(a: string, b: string)
    requires StrLe(a, b) && StrLe(b, a)
    ensures a == b
    decreases |a|
  {
    if a != [] {
      StrLeAntisym(a[1..], b[1..]);
      assert a == [a[0]] + a[1..] && b == [b[0]] + b[1..];
    }
  }

  /** The rank of a value's kind in the order of the sort key. */
  function KindRank(v: Value): int {
    match v
    case Null => 0
    case Bool(_) => 1
    case Int(_) => 2
    case Str(_) => 3
  }

  /** The order on sort-key values. Within one kind: strings as Python
      orders them, integers by value, False before True. Across kinds the
      order is by KindRank, so None comes first and every boolean comes
      before every integer. */
  predicate ValueLe(x: Value, y: Value) {
    if KindRank(x) != KindRank(y) then KindRank(x) < KindRank(y)
    else match x
      case Null => true
      case Bool(b) => !b || y.b
      case Int(i) => i <= y.i
      case Str(s) => StrLe(s, y.s)
  }

  lemma ValueLeOrder(x: Value, y: Value, z: Value)
    ensures ValueLe(x, y) || ValueLe(y, x)
    ensures ValueLe(x, y) && ValueLe(y, z) ==> ValueLe(x, z)
    ensures ValueLe(x, y) && ValueLe(y, x) ==> x == y
  {
    if x.Str? && y.Str? {
      StrLeTotal(x.s, y.s);
      if StrLe(x.s, y.s) && StrLe(y.s, x.s) {
        StrLeAntisym(x.s, y.s);
      }
      if z.Str? && StrLe(x.s, y.s) && StrLe(y.s, z.s) {
        StrLeTrans(x.s, y.s, z.s);
      }
    }
  }

  /** The sort key (case_status, year_make_model), compared as a tuple. */
  predicate Before(a: Attrs, b: Attrs)
    requires Listed(a) && Listed(b)
  {
    ValueLe(a["case_status"], b["case_status"]) &&
    (a["case_status"] == b["case_status"] ==> ValueLe(a["year_make_model"], b["year_make_model"]))
  }

  lemma BeforeTotal(a: Attrs, b: Attrs)
    requires Listed(a) && Listed(b)
    ensures Before(a, b) || Before(b, a)
  {
    ValueLeOrder(a["case_status"], b["case_status"], a["case_status"]);
    ValueLeOrder(a["year_make_model"], b["year_make_model"], a["year_make_model"]);
  }

  lemma BeforeTrans(a: Attrs, b: Attrs, c: Attrs)
    requires Listed(a) && Listed(b) && Listed(c)
    requires Before(a, b) && Before(b, c)
    ensures Before(a, c)
  {
    ValueLeOrder(a["case_status"], b["case_status"], c["case_status"]);
    ValueLeOrder(b["case_status"], c["case_status"], a["case_status"]);
    ValueLeOrder(a["year_make_model"], b["year_make_model"], c["year_make_model"]);
  }

  predicate SortedBy(s: seq<Attrs>)
    requires AllListed(s)
  {
    forall i, j :: 0 <= i < j < |s| ==> Before(s[i], s[j])
  }

  /** x placed before the first item it sorts before. */
  function Insert(x: Attrs, s: seq<Attrs>): (r: seq<Attrs>)
    requires Listed(x) && AllListed(s)
    ensures forall a :: a in r ==> a == x || a in s
  {
    if s == [] then [x]
    else if Before(x, s[0]) then [x] + s
    else [s[0]] + Insert(x, s[1..])
  }

  /** sorted(results, key=lambda i: (i.case_status, i.year_make_model)),
      as an insertion sort: each item goes before the later items whose key
      is not smaller, so equal keys keep their order. */
  function SortResults(s: seq<Attrs>): (r: seq<Attrs>)
    requires AllListed(s)
    ensures forall a :: a in r ==> a in s
  {
    if s == [] then [] else Insert(s[0], SortResults(s[1..]))
  }

  lemma {:induction false} InsertSorted(x: Attrs, s: seq<Attrs>)
    requires Listed(x) && AllListed(s) && SortedBy(s)
    ensures AllListed(Insert(x, s)) && SortedBy(Insert(x, s))
    ensures multiset(Insert(x, s)) == multiset(s) + multiset{x}
    decreases |s|
  {
    if s == [] {
    } else if Before(x, s[0]) {
      forall j | 0 < j < |s| ensures Before(x, s[j]) {
        BeforeTrans(x, s[0], s[j]);
      }
    } else {
      BeforeTotal(x, s[0]);
      var rest := Insert(x, s[1..]);
      InsertSorted(x, s[1..]);
      assert s == [s[0]] + s[1..];
      forall a | a in rest ensures Before(s[0], a) {
        if a != x {
          var j :| 0 <= j < |s[1..]| && s[1..][j] == a;
          assert s[j + 1] == a;
        }
      }
    }
  }

  /** The sorted list holds the same items, ordered by the sort key. */
  lemma {:induction false} SortResultsCorrect(s: seq<Attrs>)
    requires AllListed(s)
    ensures AllListed(SortResults(s)) && SortedBy(SortResults(s))
    ensures multiset(SortResults(s)) == multiset(s)
    decreases |s|
  {
    if s != [] {
      SortResultsCorrect(s[1..]);
      InsertSorted(s[0], SortResults(s[1..]));
      assert s == [s[0]] + s[1..];
    }
  }

  /** The order of the case statuses: included, then neither, then
      excluded. */
  function StatusRank(v: Value): int {
    if v == Str("I") then 0 else if v == Str("N") then 1 else 2
  }

  /** In the sorted list, included vehicles come before the unmarked ones,
      which come before the excluded ones. */
  lemma StatusOrder(s: seq<Attrs>, i: int, j: int)
    requires AllListed(s)
    requires 0 <= i < j < |SortResults(s)|
    ensures var r := SortResults(s);
      Listed(r[i]) && Listed(r[j]) &&
      (r[i]["case_status"] in {Str("I"), Str("N"), Str("X")} && r[j]["case_status"] in {Str("I"), Str("N"), Str("X")} ==>
        StatusRank(r[i]["case_status"]) <= StatusRank(r[j]["case_status"]))
  {
    SortResultsCorrect(s);
    var r := SortResults(s);
    assert Before(r[i], r[j]);
  }

  /** The vehicle search: an unknown search type raises KeyError before
      any search; with a case in the session the results are marked
      against its "PROPERTY:VEHICLE" items; a successful search lists them
      sorted, a failed one shows the error page (None). */
  function VehicleSearchSpec(users: map<string, string>, cases: map<string, CaseStore.CaseDoc>, email: string,
                             caseId: Option<string>, searchType: string, reply: Merge.Reply): Result<Option<seq<Attrs>>>
    requires AllListed(reply.results)
  {
    if searchType !in {"name", "plate", "vin", "any"} then Err(KeyError(searchType))
    else
      var category := "PROPERTY:VEHICLE";
      var marked := if caseId.Some? && caseId.value != [] then
        Filtered(reply.results,
          CaseStore.ItemsSpec(users, cases, email, caseId.value, Some("X" + category)),
          CaseStore.ItemsSpec(users, cases, email, caseId.value, Some(category)))
        else reply.results;
      assert AllListed(marked) by {
        if caseId.Some? && caseId.value != [] {
          FilteredListed(reply.results,
            CaseStore.ItemsSpec(users, cases, email, caseId.value, Some("X" + category)),
            CaseStore.ItemsSpec(users, cases, email, caseId.value, Some(category)));
        }
      }
      if reply.success then Ok(Some(SortResults(marked))) else Ok(None)
  }

  /** A successful search of a known type lists every vehicle found, once,
      sorted by the sort key; without a case they are listed as found. A
      failed search lists nothing, and an unknown type raises KeyError. */
  lemma VehicleSearchMeaning(users: map<string, string>, cases: map<string, CaseStore.CaseDoc>, email: string,
                             caseId: Option<string>, searchType: string, reply: Merge.Reply)
    requires AllListed(reply.results)
    ensures searchType !in {"name", "plate", "vin", "any"} <==>
      VehicleSearchSpec(users, cases, email, caseId, searchType, reply) == Err(KeyError(searchType))
    ensures searchType in {"name", "plate", "vin", "any"} && !reply.success ==>
      VehicleSearchSpec(users, cases, email, caseId, searchType, reply) == Ok(None)
    ensures searchType in {"name", "plate", "vin", "any"} && reply.success ==>
      var r := VehicleSearchSpec(users, cases, email, caseId, searchType, reply);
      r.Ok? && r.value.Some? && |r.value.value| == |reply.results| &&
      AllListed(r.value.value) && SortedBy(r.value.value) &&
      ((caseId.None? || caseId.value == []) ==> multiset(r.value.value) == multiset(reply.results))
  {
    if searchType in {"name", "plate", "vin", "any"} && reply.success {
      var category := "PROPERTY:VEHICLE";
      var marked := if caseId.Some? && caseId.value != [] then
        Filtered(reply.results,
          CaseStore.ItemsSpec(users, cases, email, caseId.value, Some("X" + category)),
          CaseStore.ItemsSpec(users, cases, email, caseId.value, Some(category)))
        else reply.results;
      if caseId.Some? && caseId.value != [] {
        FilteredListed(reply.results,
          CaseStore.ItemsSpec(users, cases, email, caseId.value, Some("X" + category)),
          CaseStore.ItemsSpec(users, cases, email, caseId.value, Some(category)));
      }
      SortResultsCorrect(marked);
      assert |SortResults(marked)| == |marked| by {
        assert |multiset(SortResults(marked))| == |multiset(marked)|;
      }
    }
  }

  /** search_dmv of the vehicle view; reply is what the chosen webservice
      search returns. */
  method SearchVehicles(store: CaseStore.Store, email: string, caseId: Option<string>, searchType: string,
                        reply: Merge.Reply) returns (r: Result<Option<seq<Attrs>>>)
    requires AllListed(reply.results)
    ensures r == VehicleSearchSpec(store.users, store.cases, email, caseId, searchType, reply)
  {
    if searchType !in {"name", "plate", "vin", "any"} {
      return Err(KeyError(searchType));
    }
    var found := reply.results;
    var results := new Attrs[|found|](i requires 0 <= i < |found| => found[i]);
    assert results[..] == found;
    if caseId.Some? && caseId.value != [] {
      FilterResults(store, email, caseId.value, "PROPERTY:VEHICLE", results);
      FilteredListed(found,
        CaseStore.ItemsSpec(store.users, store.cases, email, caseId.value, Some("X" + "PROPERTY:VEHICLE")),
        CaseStore.ItemsSpec(store.users, store.cases, email, caseId.value, Some("PROPERTY:VEHICLE")));
    }
    if reply.success {
      r := Ok(Some(SortResults(results[..])));
    } else {
      r := Ok(None);
    }
  }
}

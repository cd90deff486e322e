/** The case item store: each case document keeps its discovery items in
    nested dicts, discovery[main category][key] or
    discovery[main category][sub-category][key]. */
module CaseStore {
  import opened Outcomes
  import opened Text
  import opened Documents

  /** A stored value: a scalar, or a dict (an item's fields, or a
      sub-category's items). */
  datatype Doc = Leaf(value: Field) | Node(children: map<string, Doc>)

  type Category = map<string, Doc>
  type Discovery = map<string, Category>

  /** A case document: its owner, its other fields, and its discovery map
      when it has one. */
  datatype CaseDoc = CaseDoc(userId: string, fields: map<string, Field>, discovery: Option<Discovery>)

  /** The stored form of a record. */
  function ItemOf(rec: map<string, Field>): Doc {
    Node(map k | k in rec :: Leaf(rec[k]))
  }

  function DiscoveryOf(doc: CaseDoc): Discovery {
    if doc.discovery.Some? then doc.discovery.value else map[]
  }

  /** The document as the update writes it back: its fields with fresh
      audit values, and the new discovery map. */
  function Saved(doc: CaseDoc, d: Discovery, audit: Audit): CaseDoc {
    CaseDoc(doc.userId, doc.fields + BaseRecord(audit), Some(d))
  }

  /** The nested-dict update of add_to_case: any missing category and
      sub-category map is created, and the item stored under key. A
      sub-category entry that is not a dict cannot take an item. */
  function AddItem(d: Discovery, path: CategoryPath, key: string, item: Doc): Result<Discovery> {
    var cat := if path.main in d then d[path.main] else map[];
    if !HasSub(path) then Ok(d[path.main := cat[key := item]])
    else
      var sub := path.sub.value;
      var group := if sub in cat then cat[sub] else Node(map[]);
      match group
      case Leaf(_) => Err(TypeError("object does not support item assignment"))
      case Node(items) => Ok(d[path.main := cat[sub := Node(items[key := item])]])
  }

  /** The nested-dict update of del_from_case: None when there is nothing to
      delete (a missing category, sub-category or key), which is reported
      as success without a write. */
  function RemoveItem(d: Discovery, path: CategoryPath, key: string): Result<Option<Discovery>> {
    if path.main !in d then Ok(None)
    else
      var cat := d[path.main];
      if !HasSub(path) then
        if key in cat then Ok(Some(d[path.main := cat - {key}])) else Ok(None)
      else if path.sub.value !in cat then Ok(None)
      else match cat[path.sub.value]
        case Leaf(_) => Err(TypeError("object does not support item deletion"))
        case Node(items) =>
          if key in items then Ok(Some(d[path.main := cat[path.sub.value := Node(items - {key})]]))
          else Ok(None)
  }

  /** What a store call leaves: the case documents and the reply. */
  datatype Write = Write(cases: map<string, CaseDoc>, result: Result<bool>)

  /** The case a user owns: the user is found by lower-cased email, and the
      case id must be an ObjectId text naming a case with that owner. */
  function OwnedCase(users: map<string, string>, cases: map<string, CaseDoc>, email: string, caseId: string): Result<Option<string>> {
    if Lower(email) !in users then Ok(None)
    else match ObjectIdOf(Str(caseId))
      case Err(e) => Err(e)
      case Ok(oid) =>
        if oid.hex in cases && cases[oid.hex].userId == users[Lower(email)] then Ok(Some(oid.hex)) else Ok(None)
  }

  function AddSpec(users: map<string, string>, cases: map<string, CaseDoc>, email: string, caseId: string,
                   category: string, key: string, fields: Pairs, audit: Audit): Write {
    match OwnedCase(users, cases, email, caseId)
    case Err(e) => Write(cases, Err(e))
    case Ok(None) => Write(cases, Ok(false))
    case Ok(Some(id)) =>
      match RecordFromDictSpec(audit, fields, {})
      case Err(e) => Write(cases, Err(e))
      case Ok(rec) =>
        match AddItem(DiscoveryOf(cases[id]), SplitCategory(category), key, ItemOf(rec))
        case Err(e) => Write(cases, Err(e))
        case Ok(d) => Write(cases[id := Saved(cases[id], d, audit)], Ok(true))
  }

  function DelSpec(users: map<string, string>, cases: map<string, CaseDoc>, email: string, caseId: string,
                   category: string, key: string, audit: Audit): Write {
    match OwnedCase(users, cases, email, caseId)
    case Err(e) => Write(cases, Err(e))
    case Ok(None) => Write(cases, Ok(false))
    case Ok(Some(id)) =>
      if cases[id].discovery.None? then Write(cases, Ok(true))
      else match RemoveItem(cases[id].discovery.value, SplitCategory(category), key)
        case Err(e) => Write(cases, Err(e))
        case Ok(None) => Write(cases, Ok(true))
        case Ok(Some(d)) => Write(cases[id := Saved(cases[id], d, audit)], Ok(true))
  }

  /** get_case_items' replies: [] (Empty), False (Refused), or the whole
      discovery map, a category, or a sub-category entry. */
  datatype Items = Empty | Refused | AllDiscovery(all: Discovery) | CategoryItems(cat: Category) | GroupItems(group: Doc)

  function ItemsSpec(users: map<string, string>, cases: map<string, CaseDoc>, email: string, caseId: string,
                     category: Option<string>): Items {
    match ObjectIdOf(Str(caseId))
    case Err(_) => Empty
    case Ok(oid) =>
      if Lower(email) !in users then Refused
      else if oid.hex !in cases || cases[oid.hex].userId != users[Lower(email)] then Refused
      else if cases[oid.hex].discovery.None? then Empty
      else
        var d := cases[oid.hex].discovery.value;
        if category.None? || category.value == [] then AllDiscovery(d)
        else
          var path := SplitCategory(category.value);
          if path.main !in d then Empty
          else if HasSub(path) && path.sub.value !in d[path.main] then Empty
          else if HasSub(path) then GroupItems(d[path.main][path.sub.value])
          else CategoryItems(d[path.main])
  }

  /** The users and cases collections. */
  class Store {
    var users: map<string, string>
    var cases: map<string, CaseDoc>

    constructor(users: map<string, string>, cases: map<string, CaseDoc>)
      ensures this.users == users && this.cases == cases
    {
      this.users := users;
      this.cases := cases;
    }

    method AddToCase(email: string, caseId: string, category: string, key: string, fields: Pairs, audit: Audit)
      returns (r: Result<bool>)
      modifies this
      ensures users == old(users)
      ensures Write(cases, r) == AddSpec(old(users), old(cases), email, caseId, category, key, fields, audit)
    {
      var owned := OwnedCase(users, cases, email, caseId);
      if owned.Err? {
        return Err(owned.error);
      }
      if owned.value.None? {
        return Ok(false);
      }
      var id := owned.value.value;
      var doc := cases[id];
      var discovery := DiscoveryOf(doc);
      var path := SplitCategory(category);
      if path.main !in discovery {
        discovery := discovery[path.main := map[]];
      }
      if HasSub(path) && path.sub.value !in discovery[path.main] {
        discovery := discovery[path.main := discovery[path.main][path.sub.value := Node(map[])]];
      }
      var subrecord := RecordFromDict(audit, fields, {});
      if subrecord.Err? {
        return Err(subrecord.error);
      }
      var item := ItemOf(subrecord.value);
      ghost var d0 := DiscoveryOf(doc);
      ghost var cat := if path.main in d0 then d0[path.main] else map[];
      assert discovery == d0[path.main := discovery[path.main]];
      if !HasSub(path) {
        discovery := discovery[path.main := discovery[path.main][key := item]];
        assert discovery == d0[path.main := cat[key := item]];
      } else {
        var group := discovery[path.main][path.sub.value];
        assert discovery[path.main] == if path.sub.value in cat then cat else cat[path.sub.value := Node(map[])];
        assert group == if path.sub.value in cat then cat[path.sub.value] else Node(map[]);
        if group.Leaf? {
          return Err(TypeError("object does not support item assignment"));
        }
        ghost var updated := cat[path.sub.value := Node(group.children[key := item])];
        assert discovery[path.main][path.sub.value := Node(group.children[key := item])] == updated;
        discovery := discovery[path.main := discovery[path.main][path.sub.value := Node(group.children[key := item])]];
        assert discovery == d0[path.main := cat[path.sub.value := Node(group.children[key := item])]];
      }
      assert AddItem(d0, path, key, item) == Ok(discovery);
      cases := cases[id := Saved(doc, discovery, audit)];
      r := Ok(true);
    }

    method DelFromCase(email: string, caseId: string, category: string, key: string, audit: Audit)
      returns (r: Result<bool>)
      modifies this
      ensures users == old(users)
      ensures Write(cases, r) == DelSpec(old(users), old(cases), email, caseId, category, key, audit)
    {
      var owned := OwnedCase(users, cases, email, caseId);
      if owned.Err? {
        return Err(owned.error);
      }
      if owned.value.None? {
        return Ok(false);
      }
      var id := owned.value.value;
      var doc := cases[id];
      if doc.discovery.None? {
        return Ok(true);
      }
      var discovery := doc.discovery.value;
      var path := SplitCategory(category);
      if path.main !in discovery {
        return Ok(true);
      }
      if HasSub(path) && path.sub.value !in discovery[path.main] {
        return Ok(true);
      }
      if !HasSub(path) {
        if key !in discovery[path.main] {
          return Ok(true);
        }
        discovery := discovery[path.main := discovery[path.main] - {key}];
      } else {
        var group := discovery[path.main][path.sub.value];
        if group.Leaf? {
          return Err(TypeError("object does not support item deletion"));
        }
        if key !in group.children {
          return Ok(true);
        }
        discovery := discovery[path.main := discovery[path.main][path.sub.value := Node(group.children - {key})]];
      }
      cases := cases[id := Saved(doc, discovery, audit)];
      r := Ok(true);
    }

    method GetCaseItems(email: string, caseId: string, category: Option<string>) returns (items: Items)
      ensures items == ItemsSpec(users, cases, email, caseId, category)
    {
      var oid := ObjectIdOf(Str(caseId));
      if oid.Err? {
        return Empty;
      }
      if Lower(email) !in users {
        return Refused;
      }
      var id := oid.value.hex;
      if id !in cases || cases[id].userId != users[Lower(email)] {
        return Refused;
      }
      if cases[id].discovery.None? {
        return Empty;
      }
      var discovery := cases[id].discovery.value;
      if category.None? || category.value == [] {
        return AllDiscovery(discovery);
      }
      var path := SplitCategory(category.value);
      if path.main !in discovery {
        return Empty;
      }
      if HasSub(path) && path.sub.value !in discovery[path.main] {
        return Empty;
      }
      if HasSub(path) {
        return GroupItems(discovery[path.main][path.sub.value]);
      }
      items := CategoryItems(discovery[path.main]);
    }
  }

  /** The category map a path names, empty when missing. */
  function CategoryAt(d: Discovery, path: CategoryPath): Category {
    if path.main in d then d[path.main] else map[]
  }

  /** The items a path names before an add: the category's, or the
      sub-category's (empty when missing). */
  function GroupAt(d: Discovery, path: CategoryPath): Doc
    requires HasSub(path)
  {
    var cat := CategoryAt(d, path);
    if path.sub.value in cat then cat[path.sub.value] else Node(map[])
  }

  /** add_to_case's update touches one entry: the item is stored under key
      in the category (or sub-category) the path names, and every other
      category, sub-category and key keeps its value. */
  lemma AddItemEffect(d: Discovery, path: CategoryPath, key: string, item: Doc)
    ensures AddItem(d, path, key, item).Err? <==> HasSub(path) && GroupAt(d, path).Leaf?
    ensures AddItem(d, path, key, item).Ok? ==>
      var d' := AddItem(d, path, key, item).value;
      var cat' := d'[path.main];
      d'.Keys == d.Keys + {path.main} &&
      (forall m :: m in d && m != path.main ==> d'[m] == d[m]) &&
      (!HasSub(path) ==> cat' == CategoryAt(d, path)[key := item]) &&
      (HasSub(path) ==>
        cat' == CategoryAt(d, path)[path.sub.value := Node(GroupAt(d, path).children[key := item])])
  {
  }

  /** After a successful add, get_case_items for the same category finds the
      item under key: the caller's fields with the audit values. */
  lemma AddThenGet(users: map<string, string>, cases: map<string, CaseDoc>, email: string, caseId: string,
                   category: string, key: string, fields: Pairs, audit: Audit)
    requires category != []
    requires AddSpec(users, cases, email, caseId, category, key, fields, audit).result == Ok(true)
    ensures var after := AddSpec(users, cases, email, caseId, category, key, fields, audit).cases;
      var item := ItemOf(AsDict(fields) + BaseRecord(audit));
      var items := ItemsSpec(users, after, email, caseId, Some(category));
      var path := SplitCategory(category);
      (HasSub(path) ==>
         items.GroupItems? && items.group.Node? && key in items.group.children && items.group.children[key] == item) &&
      (!HasSub(path) ==> items.CategoryItems? && key in items.cat && items.cat[key] == item)
  {
    var id := ObjectIdOf(Str(caseId)).value.hex;
    var item := ItemOf(AsDict(fields) + BaseRecord(audit));
    AddSucceeded(users, cases, email, caseId, category, key, fields, audit);
    AddItemEffect(DiscoveryOf(cases[id]), SplitCategory(category), key, item);
  }

  /** A call that does not report success writes nothing, and neither does
      any call to a case other than the one named. */
  lemma AddWritesOneCase(users: map<string, string>, cases: map<string, CaseDoc>, email: string, caseId: string,
                         category: string, key: string, fields: Pairs, audit: Audit)
    ensures var w := AddSpec(users, cases, email, caseId, category, key, fields, audit);
      (w.result != Ok(true) ==> w.cases == cases) &&
      w.cases.Keys == cases.Keys &&
      (forall c :: c in cases && (w.result != Ok(true) || c != Lower(caseId)) ==> w.cases[c] == cases[c])
  {
  }

  /** Whether a get_case_items reply lacks key. */
  predicate Lacks(items: Items, key: string) {
    items.Empty? ||
    (items.CategoryItems? && key !in items.cat) ||
    (items.GroupItems? && items.group.Node? && key !in items.group.children)
  }

  /** After del_from_case reports success, get_case_items for the same
      category no longer finds the key, whether it was deleted or never
      there. */
  lemma DelThenGet(users: map<string, string>, cases: map<string, CaseDoc>, email: string, caseId: string,
                   category: string, key: string, audit: Audit)
    requires category != []
    requires DelSpec(users, cases, email, caseId, category, key, audit).result == Ok(true)
    ensures var after := DelSpec(users, cases, email, caseId, category, key, audit).cases;
      Lacks(ItemsSpec(users, after, email, caseId, Some(category)), key)
  {
  }

  /** Deleting the key just added leaves the category, or the
      sub-category, as it was without that key. */
  lemma AddThenRemove(d: Discovery, path: CategoryPath, key: string, item: Doc)
    requires AddItem(d, path, key, item).Ok?
    ensures RemoveItem(AddItem(d, path, key, item).value, path, key) == Ok(Some(Removed(d, path, key)))
  {
    var d' := AddItem(d, path, key, item).value;
    var cat := CategoryAt(d, path);
    if HasSub(path) {
      var items := GroupAt(d, path).children;
      assert d'[path.main][path.sub.value] == Node(items[key := item]);
      assert d' == d[path.main := cat[path.sub.value := Node(items[key := item])]];
      assert items[key := item] - {key} == items - {key};
      var z := cat[path.sub.value := Node(items - {key})];
      assert d'[path.main][path.sub.value := Node(items[key := item] - {key})] == z;
      assert RemoveItem(d', path, key) == Ok(Some(d'[path.main := z]));
      assert d'[path.main := z] == d[path.main := z];
    } else {
      assert cat[key := item] - {key} == cat - {key};
      assert d'[path.main := d'[path.main] - {key}] == d[path.main := cat - {key}];
    }
  }

  /** The discovery map with the key gone from the category or sub-category
      the path names. */
  function Removed(d: Discovery, path: CategoryPath, key: string): Discovery
    requires HasSub(path) ==> GroupAt(d, path).Node?
  {
    if HasSub(path) then d[path.main := CategoryAt(d, path)[path.sub.value := Node(GroupAt(d, path).children - {key})]]
    else d[path.main := CategoryAt(d, path) - {key}]
  }

  /** A successful add names an owned case and stores its update there. */
  lemma AddSucceeded(users: map<string, string>, cases: map<string, CaseDoc>, email: string, caseId: string,
                     category: string, key: string, fields: Pairs, audit: Audit)
    requires AddSpec(users, cases, email, caseId, category, key, fields, audit).result == Ok(true)
    ensures var id := ObjectIdOf(Str(caseId)).value.hex;
      var item := ItemOf(AsDict(fields) + BaseRecord(audit));
      var before := DiscoveryOf(cases[id]);
      OwnedCase(users, cases, email, caseId) == Ok(Some(id)) &&
      AddItem(before, SplitCategory(category), key, item).Ok? &&
      AddSpec(users, cases, email, caseId, category, key, fields, audit).cases ==
        cases[id := Saved(cases[id], AddItem(before, SplitCategory(category), key, item).value, audit)]
  {
    FillPlain(BaseRecord(audit), fields);
  }

  /** del_from_case undoes add_to_case's item: an add followed by a delete of
      the same key leaves the category (or sub-category) holding what it
      held before without that key. */
  lemma AddThenDel(users: map<string, string>, cases: map<string, CaseDoc>, email: string, caseId: string,
                   category: string, key: string, fields: Pairs, audit: Audit, audit': Audit)
    requires category != []
    requires AddSpec(users, cases, email, caseId, category, key, fields, audit).result == Ok(true)
    ensures var mid := AddSpec(users, cases, email, caseId, category, key, fields, audit).cases;
      var w := DelSpec(users, mid, email, caseId, category, key, audit');
      var id := ObjectIdOf(Str(caseId)).value.hex;
      var path := SplitCategory(category);
      var before := DiscoveryOf(cases[id]);
      w.result == Ok(true) &&
      (!HasSub(path) ==>
         ItemsSpec(users, w.cases, email, caseId, Some(category)) == CategoryItems(CategoryAt(before, path) - {key})) &&
      (HasSub(path) ==>
         ItemsSpec(users, w.cases, email, caseId, Some(category)) == GroupItems(Node(GroupAt(before, path).children - {key})))
  {
    var id := ObjectIdOf(Str(caseId)).value.hex;
    var path := SplitCategory(category);
    var before := DiscoveryOf(cases[id]);
    var item := ItemOf(AsDict(fields) + BaseRecord(audit));
    AddSucceeded(users, cases, email, caseId, category, key, fields, audit);
    AddItemEffect(before, path, key, item);
    AddThenRemove(before, path, key, item);
    var mid := AddSpec(users, cases, email, caseId, category, key, fields, audit).cases;
    var gone := Removed(before, path, key);
    assert OwnedCase(users, mid, email, caseId) == Ok(Some(id));
    var w := DelSpec(users, mid, email, caseId, category, key, audit');
    assert w == Write(mid[id := Saved(mid[id], gone, audit')], Ok(true));
    assert w.cases[id].discovery == Some(gone);
  }

  /** When there is nothing to delete (no discovery map, or no such
      category, sub-category or key) del_from_case reports success and
      writes nothing; an unknown user or a case the user does not own gets
      False, also without a write. */
  lemma DelNothingToDo(users: map<string, string>, cases: map<string, CaseDoc>, email: string, caseId: string,
                       category: string, key: string, audit: Audit)
    ensures var w := DelSpec(users, cases, email, caseId, category, key, audit);
      var owned := OwnedCase(users, cases, email, caseId);
      var path := SplitCategory(category);
      (owned == Ok(None) ==> w == Write(cases, Ok(false))) &&
      (owned.Ok? && owned.value.Some? &&
       (cases[owned.value.value].discovery.None? ||
        Lacks(ItemsSpec(users, cases, email, caseId, Some(category)), key)) && category != [] ==>
         w == Write(cases, Ok(true)))
  {
  }
  /** get_case_items answers [] for a case id that is not an ObjectId text,
      whoever asks; for a well-formed id it answers False exactly when the
      caller does not own the case, and otherwise the whole discovery map
      when no category is given. */
  lemma ItemsAccess(users: map<string, string>, cases: map<string, CaseDoc>, email: string, caseId: string,
                    category: Option<string>)
    ensures ObjectIdOf(Str(caseId)).Err? ==> ItemsSpec(users, cases, email, caseId, category) == Empty
    ensures ObjectIdOf(Str(caseId)).Ok? ==>
      (ItemsSpec(users, cases, email, caseId, category) == Refused <==> OwnedCase(users, cases, email, caseId) == Ok(None))
    ensures OwnedCase(users, cases, email, caseId).Ok? && OwnedCase(users, cases, email, caseId).value.Some? &&
            (category.None? || category.value == []) ==>
      var id := OwnedCase(users, cases, email, caseId).value.value;
      ItemsSpec(users, cases, email, caseId, category) ==
        (if cases[id].discovery.None? then Empty else AllDiscovery(cases[id].discovery.value))
  {
  }
}

/** Moving a found item between a case's category and its exclusion
    category ("X" followed by the category name): update_case_items. */
module CaseRoutes {
  import opened Outcomes
  import opened Text
  import opened Documents
  import opened CaseStore

  /** A posted form: its (name, value) pairs in order. A name given twice
      reads as its first value. */
  type Form = seq<(string, string)>

  function FormValue(form: Form, name: string): (r: Option<string>)
    ensures r.None? <==> forall i :: 0 <= i < |form| ==> form[i].0 != name
    ensures r.Some? ==>
      exists i :: 0 <= i < |form| && form[i] == (name, r.value) && forall j :: 0 <= j < i ==> form[j].0 != name
  {
    if form == [] then None
    else if form[0].0 == name then Some(form[0].1)
    else
      var rest := FormValue(form[1..], name);
      assert forall i :: 1 <= i < |form| ==> form[i] == form[1..][i - 1];
      if rest.Some? then
        var k :| 0 <= k < |form[1..]| && form[1..][k] == (name, rest.value) && forall j :: 0 <= j < k ==> form[1..][j].0 != name;
        assert form[k + 1] == (name, rest.value) && forall j :: 0 <= j < k + 1 ==> form[j].0 != name;
        rest
      else rest
  }

  /** The form names that are not stored with the item. */
  const Reserved: set<string> := {"case_id", "category", "key", "operation"}

  /** The item: every other form field, in order. */
  function ItemFields(form: Form): Pairs {
    if form == [] then []
    else (if form[0].0 in Reserved then [] else [(form[0].0, Str(form[0].1))]) + ItemFields(form[1..])
  }

  /** The stored item holds exactly the form's names other than case_id,
      category, key and operation, each with its (first) value. The
      operation itself is posted as "op", which is not excluded. */
  lemma {:induction false} ItemFieldsMeaning(form: Form)
    ensures forall k :: k in AsDict(ItemFields(form)) <==> k !in Reserved && FormValue(form, k).Some?
    ensures forall k :: k in AsDict(ItemFields(form)) ==> AsDict(ItemFields(form))[k] == Str(FormValue(form, k).value)
  {
    if form != [] {
      ItemFieldsMeaning(form[1..]);
      var head: Pairs := if form[0].0 in Reserved then [] else [(form[0].0, Str(form[0].1))];
      var rest := ItemFields(form[1..]);
      assert ItemFields(form) == head + rest;
      if form[0].0 !in Reserved {
        assert (head + rest)[1..] == rest;
        assert AsDict(head + rest) == AsDict(rest)[form[0].0 := Str(form[0].1)];
      } else {
        assert head + rest == rest;
      }
    }
  }

  /** The answer sent back: {"success": ..., "message": ...}. */
  datatype Reply = Reply(success: bool, message: string)

  /** The cases collection after the request, and the reply or the
      exception that ended it. */
  datatype Update = Update(cases: map<string, CaseDoc>, reply: Result<Reply>)

  /** The four form fields the request reads, in the order it reads them. */
  datatype Request = Request(category: string, key: string, description: string, op: string)

  function Parse(form: Form): Result<Request> {
    if FormValue(form, "category").None? then Err(KeyError("category"))
    else if FormValue(form, "key").None? then Err(KeyError("key"))
    else if FormValue(form, "description").None? then Err(KeyError("description"))
    else if FormValue(form, "op").None? then Err(KeyError("op"))
    else Ok(Request(FormValue(form, "category").value, FormValue(form, "key").value,
                    FormValue(form, "description").value, FormValue(form, "op").value))
  }

  /** The two store calls of an operation: "add" stores the item under the
      category and then deletes it from the exclusion category; "del" does
      the reverse. An exception from either call ends the request; the
      reported success is the second call's. Any other operation changes
      nothing. */
  function Perform(users: map<string, string>, cases: map<string, CaseDoc>, email: string, caseId: string,
                   operation: string, category: string, key: string, description: string, item: Pairs,
                   first: Audit, second: Audit): Update
  {
    if operation == "add" then
      var w1 := AddSpec(users, cases, email, caseId, category, key, item, first);
      if w1.result.Err? then Update(w1.cases, Err(w1.result.error))
      else
        var w2 := DelSpec(users, w1.cases, email, caseId, "X" + category, key, second);
        if w2.result.Err? then Update(w2.cases, Err(w2.result.error))
        else Update(w2.cases, Ok(Reply(w2.result.value, "Item added: " + description)))
    else if operation == "del" then
      var w1 := DelSpec(users, cases, email, caseId, category, key, first);
      if w1.result.Err? then Update(w1.cases, Err(w1.result.error))
      else
        var w2 := AddSpec(users, w1.cases, email, caseId, "X" + category, key, item, second);
        if w2.result.Err? then Update(w2.cases, Err(w2.result.error))
        else Update(w2.cases, Ok(Reply(w2.result.value, "Item removed: " + description)))
    else Update(cases, Ok(Reply(false, "Invalid operation: " + operation)))
  }

  /** update_case_items; the operation name is lower-cased first. */
  function UpdateSpec(users: map<string, string>, cases: map<string, CaseDoc>, email: string, caseId: string,
                      form: Form, first: Audit, second: Audit): Update
  {
    match Parse(form)
    case Err(e) => Update(cases, Err(e))
    case Ok(req) =>
      Perform(users, cases, email, caseId, Lower(req.op), req.category, req.key, req.description,
              ItemFields(form), first, second)
  }

  /** The request against the store; first and second are the audit values
      each store call stamps. */
  method UpdateCaseItems(store: Store, email: string, caseId: string, form: Form, first: Audit, second: Audit)
    returns (reply: Result<Reply>)
    modifies store
    ensures store.users == old(store.users)
    ensures Update(store.cases, reply) == UpdateSpec(old(store.users), old(store.cases), email, caseId, form, first, second)
  {
    var item := ItemFields(form);
    var parsed := Parse(form);
    if parsed.Err? {
      return Err(parsed.error);
    }
    var req := parsed.value;
    var operation := Lower(req.op);
    if operation == "add" {
      var r1 := store.AddToCase(email, caseId, req.category, req.key, item, first);
      if r1.Err? {
        return Err(r1.error);
      }
      var r2 := store.DelFromCase(email, caseId, "X" + req.category, req.key, second);
      if r2.Err? {
        return Err(r2.error);
      }
      return Ok(Reply(r2.value, "Item added: " + req.description));
    } else if operation == "del" {
      var r1 := store.DelFromCase(email, caseId, req.category, req.key, first);
      if r1.Err? {
        return Err(r1.error);
      }
      var r2 := store.AddToCase(email, caseId, "X" + req.category, req.key, item, second);
      if r2.Err? {
        return Err(r2.error);
      }
      return Ok(Reply(r2.value, "Item removed: " + req.description));
    }
    reply := Ok(Reply(false, "Invalid operation: " + operation));
  }

  /** Any operation but "add" and "del", in any letter case, is refused
      without touching the store. */
  lemma InvalidOperation(users: map<string, string>, cases: map<string, CaseDoc>, email: string, caseId: string,
                         form: Form, first: Audit, second: Audit)
    requires Parse(form).Ok? && Lower(Parse(form).value.op) != "add" && Lower(Parse(form).value.op) != "del"
    ensures UpdateSpec(users, cases, email, caseId, form, first, second) ==
      Update(cases, Ok(Reply(false, "Invalid operation: " + Lower(Parse(form).value.op))))
  {
  }

  /** A request missing one of the fields it reads raises KeyError and
      changes nothing. */
  lemma MissingField(users: map<string, string>, cases: map<string, CaseDoc>, email: string, caseId: string,
                     form: Form, first: Audit, second: Audit)
    requires FormValue(form, "category").None? || FormValue(form, "key").None? ||
             FormValue(form, "description").None? || FormValue(form, "op").None?
    ensures UpdateSpec(users, cases, email, caseId, form, first, second).cases == cases
    ensures UpdateSpec(users, cases, email, caseId, form, first, second).reply.Err?
    ensures UpdateSpec(users, cases, email, caseId, form, first, second).reply.error.KeyError?
  {
  }

  /** The exclusion category lives in another top-level category map than
      the category it excludes from. */
  lemma ExclusionElsewhere(c: string)
    ensures SplitCategory("X" + c).main != SplitCategory(c).main
  {
    var x := "X" + c;
    assert x[1..] == c;
    assert Count(x, ':') == Count(c, ':');
    SplitCategoryMeaning(c);
    SplitCategoryMeaning(x);
    if Count(c, ':') == 1 {
      CountZero(c, ':');
      var i := Find(c, ':').value;
      assert Find(x, ':') == Some(i + 1);
      assert x[..i + 1] == "X" + c[..i];
      assert |SplitCategory(x).main| == i + 2;
    } else {
      assert |SplitCategory(x).main| == |c| + 2;
    }
  }

  /** What get_case_items returns for a category depends only on the
      case's owner and on its entry for the category's top-level name. */
  lemma ItemsFrame(users: map<string, string>, cases: map<string, CaseDoc>, email: string, caseId: string,
                   other: string, id: string, d': Discovery, audit: Audit)
    requires other != []
    requires OwnedCase(users, cases, email, caseId) == Ok(Some(id))
    requires var m := SplitCategory(other).main;
      (m in d' <==> m in DiscoveryOf(cases[id])) && (m in d' ==> d'[m] == DiscoveryOf(cases[id])[m])
    ensures ItemsSpec(users, cases[id := Saved(cases[id], d', audit)], email, caseId, Some(other)) ==
      ItemsSpec(users, cases, email, caseId, Some(other))
  {
  }

  /** A delete in one top-level category leaves what every other category
      lists as it was. */
  lemma DelKeepsOther(users: map<string, string>, cases: map<string, CaseDoc>, email: string, caseId: string,
                      c: string, other: string, key: string, audit: Audit)
    requires other != [] && SplitCategory(c).main != SplitCategory(other).main
    ensures ItemsSpec(users, DelSpec(users, cases, email, caseId, c, key, audit).cases, email, caseId, Some(other)) ==
      ItemsSpec(users, cases, email, caseId, Some(other))
  {
    var w := DelSpec(users, cases, email, caseId, c, key, audit);
    var owned := OwnedCase(users, cases, email, caseId);
    if owned.Ok? && owned.value.Some? && cases[owned.value.value].discovery.Some? {
      var id := owned.value.value;
      var d := cases[id].discovery.value;
      var removed := RemoveItem(d, SplitCategory(c), key);
      if removed.Ok? && removed.value.Some? {
        assert w.cases == cases[id := Saved(cases[id], removed.value.value, audit)];
        ItemsFrame(users, cases, email, caseId, other, id, removed.value.value, audit);
      }
    }
  }

  /** So does an add. */
  lemma AddKeepsOther(users: map<string, string>, cases: map<string, CaseDoc>, email: string, caseId: string,
                      c: string, other: string, key: string, item: Pairs, audit: Audit)
    requires other != [] && SplitCategory(c).main != SplitCategory(other).main
    ensures ItemsSpec(users, AddSpec(users, cases, email, caseId, c, key, item, audit).cases, email, caseId, Some(other)) ==
      ItemsSpec(users, cases, email, caseId, Some(other))
  {
    var w := AddSpec(users, cases, email, caseId, c, key, item, audit);
    if w.result == Ok(true) {
      var id := ObjectIdOf(Str(caseId)).value.hex;
      var doc := ItemOf(AsDict(item) + BaseRecord(audit));
      AddSucceeded(users, cases, email, caseId, c, key, item, audit);
      var before := DiscoveryOf(cases[id]);
      AddItemEffect(before, SplitCategory(c), key, doc);
      ItemsFrame(users, cases, email, caseId, other, id, AddItem(before, SplitCategory(c), key, doc).value, audit);
    } else {
      AddWritesOneCase(users, cases, email, caseId, c, key, item, audit);
    }
  }

  /** A second call can only succeed on a case the first call found owned:
      when the first reports False, so does the second. */
  lemma UnownedStaysUnowned(users: map<string, string>, cases: map<string, CaseDoc>, email: string, caseId: string,
                            c: string, c': string, key: string, item: Pairs, audit: Audit, audit': Audit)
    ensures AddSpec(users, cases, email, caseId, c, key, item, audit).result == Ok(false) ==>
      DelSpec(users, cases, email, caseId, c', key, audit').result == Ok(false)
    ensures DelSpec(users, cases, email, caseId, c, key, audit).result == Ok(false) ==>
      AddSpec(users, cases, email, caseId, c', key, item, audit').result == Ok(false)
  {
  }

  /** After "add" reports success, the category lists the item under its
      key (the item's fields stamped by the first call) and the exclusion
      category does not list the key. */
  lemma AddOperation(users: map<string, string>, cases: map<string, CaseDoc>, email: string, caseId: string,
                     category: string, key: string, description: string, item: Pairs, first: Audit, second: Audit)
    requires category != []
    requires Perform(users, cases, email, caseId, "add", category, key, description, item, first, second).reply ==
      Ok(Reply(true, "Item added: " + description))
    ensures var after := Perform(users, cases, email, caseId, "add", category, key, description, item, first, second).cases;
      var doc := ItemOf(AsDict(item) + BaseRecord(first));
      var listed := ItemsSpec(users, after, email, caseId, Some(category));
      var path := SplitCategory(category);
      (HasSub(path) ==>
         listed.GroupItems? && listed.group.Node? && key in listed.group.children && listed.group.children[key] == doc) &&
      (!HasSub(path) ==> listed.CategoryItems? && key in listed.cat && listed.cat[key] == doc) &&
      Lacks(ItemsSpec(users, after, email, caseId, Some("X" + category)), key)
  {
    var w1 := AddSpec(users, cases, email, caseId, category, key, item, first);
    UnownedStaysUnowned(users, cases, email, caseId, category, "X" + category, key, item, first, second);
    AddWritesOneCase(users, cases, email, caseId, category, key, item, first);
    assert w1.result == Ok(true);
    AddThenGet(users, cases, email, caseId, category, key, item, first);
    ExclusionElsewhere(category);
    DelKeepsOther(users, w1.cases, email, caseId, "X" + category, category, key, second);
    DelThenGet(users, w1.cases, email, caseId, "X" + category, key, second);
  }

  /** After "del" reports success, the category no longer lists the key
      and the exclusion category lists the item under it (stamped by the
      second call). */
  lemma DelOperation(users: map<string, string>, cases: map<string, CaseDoc>, email: string, caseId: string,
                     category: string, key: string, description: string, item: Pairs, first: Audit, second: Audit)
    requires category != []
    requires Perform(users, cases, email, caseId, "del", category, key, description, item, first, second).reply ==
      Ok(Reply(true, "Item removed: " + description))
    ensures var after := Perform(users, cases, email, caseId, "del", category, key, description, item, first, second).cases;
      var doc := ItemOf(AsDict(item) + BaseRecord(second));
      var listed := ItemsSpec(users, after, email, caseId, Some("X" + category));
      var path := SplitCategory("X" + category);
      (HasSub(path) ==>
         listed.GroupItems? && listed.group.Node? && key in listed.group.children && listed.group.children[key] == doc) &&
      (!HasSub(path) ==> listed.CategoryItems? && key in listed.cat && listed.cat[key] == doc) &&
      Lacks(ItemsSpec(users, after, email, caseId, Some(category)), key)
  {
    var w1 := DelSpec(users, cases, email, caseId, category, key, first);
    UnownedStaysUnowned(users, cases, email, caseId, category, "X" + category, key, item, first, second);
    assert w1.result == Ok(true);
    DelThenGet(users, cases, email, caseId, category, key, first);
    AddThenGet(users, w1.cases, email, caseId, "X" + category, key, item, second);
    ExclusionElsewhere(category);
    AddKeepsOther(users, w1.cases, email, caseId, "X" + category, category, key, item, second);
  }
}

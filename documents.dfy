/** The stored documents' field values and the pure helpers of the data
    store: record_from_dict, split_category and
    next_available_request_number. */
module Documents {
  import opened Outcomes
  import opened Text

  /** A field value of a stored document. Oid is a 12-byte object id,
      held as its 24 lower-case hexadecimal digits; Instant is a point in
      time in seconds. */
  datatype Field = Null | Str(s: string) | Int(i: int) | Bool(b: bool) | Oid(hex: string) | Instant(t: int)

  /** A dict in its insertion order. Keys of a dict are distinct; where a
      key repeats, its first occurrence counts. */
  type Pairs = seq<(string, Field)>

  function AsDict(p: Pairs): (d: map<string, Field>)
    ensures d.Keys == set i | 0 <= i < |p| :: p[i].0
  {
    if p == [] then map[]
    else
      var rest := AsDict(p[1..]);
      assert rest.Keys == set i | 1 <= i < |p| :: p[i].0 by {
        forall k | k in rest.Keys ensures k in set i | 1 <= i < |p| :: p[i].0 {
          var j :| 0 <= j < |p| - 1 && p[1..][j].0 == k;
          assert p[j + 1].0 == k;
        }
      }
      rest[p[0].0 := p[0].1]
  }

  predicate IsHexDigit(c: char) {
    ('0' <= c <= '9') || ('a' <= c <= 'f') || ('A' <= c <= 'F')
  }

  /** The text forms ObjectId accepts: 24 hexadecimal digits. */
  predicate IsObjectIdText(s: string) {
    |s| == 24 && forall i :: 0 <= i < |s| ==> IsHexDigit(s[i])
  }

  /** ObjectId(value): an object id is kept, valid text becomes one, other
      text raises InvalidId and any other value TypeError. */
  function ObjectIdOf(v: Field): (r: Result<Field>)
    ensures r.Ok? ==> r.value.Oid?
    ensures r.Ok? <==> v.Oid? || (v.Str? && IsObjectIdText(v.s))
  {
    match v
    case Oid(_) => Ok(v)
    case Str(s) => if IsObjectIdText(s) then Ok(Oid(Lower(s))) else Err(InvalidId(s))
    case _ => Err(TypeError("id must be an instance of (str, bytes, ObjectId)"))
  }

  /** The audit values base_record stamps: time.time() and the same instant
      formatted as "%Y-%m-%d %H:%M:%S". */
  datatype Audit = Audit(time: Field, timeStr: string)

  function BaseRecord(a: Audit): map<string, Field> {
    map["time" := a.time, "time_str" := Str(a.timeStr)]
  }

  /** The loop of record_from_dict from the record rec on: id fields are
      converted (the first failure raises), other keys are copied unless
      the record already has them. */
  function RecordFill(rec: map<string, Field>, fields: Pairs, ids: set<string>): Result<map<string, Field>>
    decreases |fields|
  {
    if fields == [] then Ok(rec)
    else
      var (k, v) := fields[0];
      if k in ids then
        match ObjectIdOf(v)
        case Err(e) => Err(e)
        case Ok(o) => RecordFill(rec[k := o], fields[1..], ids)
      else if k !in rec then RecordFill(rec[k := v], fields[1..], ids)
      else RecordFill(rec, fields[1..], ids)
  }

  function RecordFromDictSpec(audit: Audit, fields: Pairs, ids: set<string>): Result<map<string, Field>> {
    RecordFill(BaseRecord(audit), fields, ids)
  }

  method RecordFromDict(audit: Audit, fields: Pairs, ids: set<string>) returns (r: Result<map<string, Field>>)
    ensures r == RecordFromDictSpec(audit, fields, ids)
  {
    var rec := BaseRecord(audit);
    var i := 0;
    while i < |fields|
      invariant 0 <= i <= |fields|
      invariant RecordFill(rec, fields[i..], ids) == RecordFromDictSpec(audit, fields, ids)
    {
      assert fields[i..][1..] == fields[i + 1..];
      var (k, v) := fields[i];
      if k in ids {
        var o := ObjectIdOf(v);
        if o.Err? {
          return Err(o.error);
        }
        rec := rec[k := o.value];
      } else if k !in rec {
        rec := rec[k := v];
      }
      i := i + 1;
    }
    r := Ok(rec);
  }

  /** Without id fields the fill never fails, and the record is the fields
      over which the record's own values win. */
  lemma {:induction false} FillPlain(rec: map<string, Field>, fields: Pairs)
    ensures RecordFill(rec, fields, {}) == Ok(AsDict(fields) + rec)
    decreases |fields|
  {
    if fields != [] {
      var (k, v) := fields[0];
      var rest := AsDict(fields[1..]);
      assert AsDict(fields) == rest[k := v];
      if k !in rec {
        assert RecordFill(rec, fields, {}) == RecordFill(rec[k := v], fields[1..], {});
        FillPlain(rec[k := v], fields[1..]);
        assert rest + rec[k := v] == rest[k := v] + rec;
      } else {
        assert RecordFill(rec, fields, {}) == RecordFill(rec, fields[1..], {});
        FillPlain(rec, fields[1..]);
        assert rest + rec == rest[k := v] + rec;
      }
    } else {
      assert AsDict(fields) + rec == rec;
    }
  }

  /** record_from_dict without id fields: every caller key is copied except
      time and time_str, which keep their audit values. */
  lemma RecordFromPlain(audit: Audit, fields: Pairs)
    ensures var r := RecordFromDictSpec(audit, fields, {});
      r.Ok? && r.value.Keys == AsDict(fields).Keys + {"time", "time_str"} &&
      r.value["time"] == audit.time && r.value["time_str"] == Str(audit.timeStr) &&
      forall k :: k in AsDict(fields) && k != "time" && k != "time_str" ==> r.value[k] == AsDict(fields)[k]
  {
    var base := BaseRecord(audit);
    FillPlain(base, fields);
    assert base.Keys == {"time", "time_str"};
  }

  /** With id fields, the fill fails exactly when one of them holds a value
      ObjectId refuses; otherwise each id field named holds an object id. */
  lemma {:induction false} FillIds(rec: map<string, Field>, fields: Pairs, ids: set<string>)
    ensures RecordFill(rec, fields, ids).Err? <==>
      exists i :: 0 <= i < |fields| && fields[i].0 in ids && ObjectIdOf(fields[i].1).Err?
    ensures RecordFill(rec, fields, ids).Ok? ==>
      (forall k :: k in ids && k in rec && rec[k].Oid? ==>
         k in RecordFill(rec, fields, ids).value && RecordFill(rec, fields, ids).value[k].Oid?) &&
      (forall i :: 0 <= i < |fields| && fields[i].0 in ids ==>
         fields[i].0 in RecordFill(rec, fields, ids).value && RecordFill(rec, fields, ids).value[fields[i].0].Oid?)
    decreases |fields|
  {
    if fields != [] {
      var (k, v) := fields[0];
      var next := if k in ids && ObjectIdOf(v).Ok? then rec[k := ObjectIdOf(v).value]
        else if k !in ids && k !in rec then rec[k := v] else rec;
      FillIds(next, fields[1..], ids);
      assert forall i :: 1 <= i < |fields| ==> fields[i] == fields[1..][i - 1];
      if RecordFill(rec, fields, ids).Err? && !(k in ids && ObjectIdOf(v).Err?) {
        var j :| 0 <= j < |fields[1..]| && fields[1..][j].0 in ids && ObjectIdOf(fields[1..][j].1).Err?;
        assert fields[j + 1] == fields[1..][j];
      }
    }
  }

  /** split_category's pair: the main category and the optional
      sub-category, each "/"-prefixed when non-empty. */
  datatype CategoryPath = CategoryPath(main: string, sub: Option<string>)

  function Slashed(s: string): string {
    if s == [] then s else "/" + s
  }

  /** category.split(":", 2) unpacked into two names; any other number of
      parts (no colon, or two or more) leaves the whole category and no
      sub-category. */
  function SplitCategory(category: string): CategoryPath {
    var parts := SplitN(category, ':', 2);
    if |parts| == 2 then CategoryPath(Slashed(parts[0]), Some(Slashed(parts[1])))
    else CategoryPath(Slashed(category), None)
  }

  /** Whether the sub-category is truthy. */
  predicate HasSub(c: CategoryPath) {
    c.sub.Some? && c.sub.value != []
  }

  /** Exactly one colon splits the category there; none, or two or more,
      leave it whole. */
  lemma SplitCategoryMeaning(category: string)
    ensures Count(category, ':') != 1 ==> SplitCategory(category) == CategoryPath(Slashed(category), None)
    ensures Count(category, ':') == 1 ==> (Find(category, ':').Some? &&
      var i := Find(category, ':').value;
      SplitCategory(category) == CategoryPath(Slashed(category[..i]), Some(Slashed(category[i + 1..]))))
  {
    SplitNCount(category, ':', 2);
    CountZero(category, ':');
    if Count(category, ':') == 1 {
      var i := Find(category, ':').value;
      CountSplit(category, ':', i);
      CountZero(category[i + 1..], ':');
    }
  }

  /** The colon-free names a category is written from come back, "/"-
      prefixed. */
  lemma CategoryRoundTrip(main: string, sub: string)
    requires ':' !in main && ':' !in sub
    ensures SplitCategory(main) == CategoryPath(Slashed(main), None)
    ensures SplitCategory(main + ":" + sub) == CategoryPath(Slashed(main), Some(Slashed(sub)))
  {
    CountZero(main, ':');
    SplitCategoryMeaning(main);
    var c := main + ":" + sub;
    assert c[|main|] == ':';
    var i := Find(c, ':').value;
    assert c[..i] == main && c[i + 1..] == sub;
    CountSplit(c, ':', i);
    CountZero(sub, ':');
    SplitCategoryMeaning(c);
  }

  /** The largest of a non-empty list. */
  function Largest(xs: seq<int>): (m: int)
    requires xs != []
    ensures m in xs && forall x :: x in xs ==> x <= m
  {
    if |xs| == 1 then xs[0]
    else
      var rest := Largest(xs[1..]);
      assert forall x :: x in xs ==> x == xs[0] || x in xs[1..];
      if xs[0] >= rest then xs[0] else rest
  }

  /** next_available_request_number on the requests' numbers: the last
      number in sorted order, plus one; IndexError for no requests. */
  function NextRequestNumber(numbers: seq<int>): (r: Result<int>)
    ensures r.Err? <==> numbers == []
    ensures r.Ok? ==> r.value - 1 in numbers && forall n :: n in numbers ==> n < r.value
  {
    if numbers == [] then Err(IndexError) else Ok(Largest(numbers) + 1)
  }
}

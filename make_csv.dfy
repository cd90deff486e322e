/** The one-off script that turns the list of database descriptions into
    CSV records, one per database key (make_csv.py). */
module MakeCsv {
  import opened Outcomes
  import opened Text

  /** The description of one database: value["desc"], ["name"], ["type"]
      and ["prot"]. */
  datatype Db = Db(desc: string, name: string, dbtype: string, prot: string)

  /** One element of the loaded list: None (or any falsy value) or a
      dictionary from database key to description. */
  type Entry = Option<map<string, Db>>

  function Quote(s: string): string {
    "\"" + s + "\""
  }

  /** key[:2]. */
  function Prefix2(key: string): string {
    if |key| <= 2 then key else key[..2]
  }

  /** The state column: the key's first two characters quoted, or the
      empty quoted string when the type is the given group marker. */
  function StateColumn(key: string, isGroup: bool): string {
    if isGroup then "\"\"" else Quote(Prefix2(key))
  }

  /** ",".join of the state column, the key (unquoted) and the quoted
      description, name, type and protection. */
  function Line(state: string, key: string, v: Db): string {
    state + "," + key + "," + Quote(v.desc) + "," + Quote(v.name) + "," + Quote(v.dbtype) + "," + Quote(v.prot)
  }

  /** The record as the script writes it: the type is compared with "group"
      after it has been quoted, so the comparison never matches. */
  function RecordAsWritten(key: string, v: Db): string {
    Line(StateColumn(key, Quote(v.dbtype) == "group"), key, v)
  }

  /** The record as evidently intended: group databases have no state. */
  function Record(key: string, v: Db): string {
    Line(StateColumn(key, v.dbtype == "group"), key, v)
  }

  /** A quoted string is never "group": as written, every record, a group
      database's included, starts with the key's first two characters in
      quotes. */
  lemma GroupNeverMatches(key: string, v: Db)
    ensures Quote(v.dbtype) != "group"
    ensures RecordAsWritten(key, v) == Line(Quote(Prefix2(key)), key, v)
  {
    assert Quote(v.dbtype)[0] == '"' && "group"[0] == 'g';
  }

  /** A group database whose key has at least two characters shows the
      difference: as written its state column is that prefix, intended it
      is empty. */
  lemma GroupStateDiffers(key: string, v: Db)
    requires v.dbtype == "group" && |key| >= 2
    ensures RecordAsWritten(key, v) != Record(key, v)
  {
    GroupNeverMatches(key, v);
    assert |RecordAsWritten(key, v)| == |Record(key, v)| + 2;
  }

  /** As intended, a record whose key has at least two characters has the
      empty state column exactly when its database is a group. */
  lemma GroupHasNoState(key: string, v: Db)
    requires |key| >= 2
    ensures Record(key, v) == Line("\"\"", key, v) <==> v.dbtype == "group"
  {
    if v.dbtype != "group" {
      assert |Record(key, v)| == |Line("\"\"", key, v)| + 2;
    }
  }

  /** The records of one dictionary, as the script writes them. */
  function Layer(d: map<string, Db>): map<string, string> {
    map k | k in d :: RecordAsWritten(k, d[k])
  }

  /** dbdict after the whole list: each present dictionary's records over
      those of the entries before it. */
  function Records(dbs: seq<Entry>): map<string, string> {
    if dbs == [] then map[]
    else
      var before := Records(dbs[..|dbs| - 1]);
      match dbs[|dbs| - 1]
      case None => before
      case Some(d) => before + Layer(d)
  }

  /** The de-duplicating loop: every key of every present dictionary is
      (re)written in turn. */
  method MakeRecords(dbs: seq<Entry>) returns (dbdict: map<string, string>)
    ensures dbdict == Records(dbs)
  {
    dbdict := map[];
    for i := 0 to |dbs|
      invariant dbdict == Records(dbs[..i])
    {
      assert dbs[..i + 1][..i] == dbs[..i];
      if dbs[i].Some? {
        dbdict := AddRecords(dbdict, dbs[i].value);
      }
    }
    assert dbs[..|dbs|] == dbs;
  }

  /** The inner loop over one dictionary's items. */
  method AddRecords(start: map<string, string>, d: map<string, Db>) returns (dbdict: map<string, string>)
    ensures dbdict == start + Layer(d)
  {
    dbdict := start;
    var todo := d.Keys;
    while todo != {}
      invariant todo <= d.Keys
      invariant dbdict == start + Layer(d - todo)
      decreases todo
    {
      var key :| key in todo;
      var rec := RecordAsWritten(key, d[key]);
      dbdict := dbdict[key := rec];
      LayerStep(d, todo, key);
      UnionUpdate(start, Layer(d - todo), key, rec);
      todo := todo - {key};
    }
    assert d - todo == d;
  }

  lemma UnionUpdate(start: map<string, string>, m: map<string, string>, key: string, rec: string)
    ensures (start + m)[key := rec] == start + m[key := rec]
  {
  }

  lemma LayerStep(d: map<string, Db>, todo: set<string>, key: string)
    requires key in todo && todo <= d.Keys
    ensures Layer(d - (todo - {key})) == Layer(d - todo)[key := RecordAsWritten(key, d[key])]
  {
    var after := d - (todo - {key});
    assert after == (d - todo)[key := d[key]];
  }

  /** The last present dictionary in dbs that has key, by index. */
  predicate LastWith(dbs: seq<Entry>, key: string, i: int) {
    0 <= i < |dbs| && dbs[i].Some? && key in dbs[i].value &&
    forall j :: i < j < |dbs| ==> dbs[j].None? || key !in dbs[j].value
  }

  /** One record per key: the keys are those of the present dictionaries,
      and each key's record comes from the last dictionary holding it. */
  lemma {:induction false} RecordsMeaning(dbs: seq<Entry>)
    ensures forall k :: k in Records(dbs) <==> exists i :: 0 <= i < |dbs| && dbs[i].Some? && k in dbs[i].value
    ensures forall k, i :: LastWith(dbs, k, i) ==> k in Records(dbs) && Records(dbs)[k] == RecordAsWritten(k, dbs[i].value[k])
  {
    if dbs != [] {
      var init := dbs[..|dbs| - 1];
      var last := |dbs| - 1;
      RecordsMeaning(init);
      assert forall i :: 0 <= i < last ==> init[i] == dbs[i];
      forall k, i | LastWith(dbs, k, i)
        ensures k in Records(dbs) && Records(dbs)[k] == RecordAsWritten(k, dbs[i].value[k])
      {
        if i < last {
          assert LastWith(init, k, i);
        }
      }
    }
  }

  /** As written, every record of the output, a group database's included,
      has the key's first two characters, quoted, as its state column. */
  lemma RecordsStateColumn(dbs: seq<Entry>, k: string, i: int)
    requires LastWith(dbs, k, i)
    ensures k in Records(dbs) && Records(dbs)[k] == Line(Quote(Prefix2(k)), k, dbs[i].value[k])
  {
    RecordsMeaning(dbs);
    GroupNeverMatches(k, dbs[i].value[k]);
  }

  /** Falsy entries contribute nothing. */
  lemma {:induction false} SkipsNone(dbs: seq<Entry>, i: nat)
    requires i < |dbs| && dbs[i].None?
    ensures Records(dbs) == Records(dbs[..i] + dbs[i + 1..])
    decreases |dbs|
  {
    var rest := dbs[..i] + dbs[i + 1..];
    if i == |dbs| - 1 {
      assert rest == dbs[..|dbs| - 1];
    } else {
      var init := dbs[..|dbs| - 1];
      SkipsNone(init, i);
      assert init[..i] + init[i + 1..] == rest[..|rest| - 1];
      assert rest[|rest| - 1] == dbs[|dbs| - 1];
    }
  }
}

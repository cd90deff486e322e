/** Combining the result sets of several DMV sub-searches: join_results and
    the sub-search sequence of search_dmv. Results are keyed
    "{db}-{ed}-{rec}", unlike the storage key "source:db.ed.rec". */
module Merge {
  import opened Outcomes
  import opened Engine

  /** The attributes join_results reads from a result. */
  predicate Keyed(a: Attrs) {
    "db" in a && "ed" in a && "rec" in a
  }

  predicate AllKeyed(rs: seq<Attrs>) {
    forall i :: 0 <= i < |rs| ==> Keyed(rs[i])
  }

  /** "{}-{}-{}".format(result.db, result.ed, result.rec) */
  function MergeKey(a: Attrs): string
    requires Keyed(a)
  {
    Format(a["db"]) + "-" + Format(a["ed"]) + "-" + Format(a["rec"])
  }

  /** A result paired with its merge key. */
  type Entry = (string, Attrs)

  function Entries(rs: seq<Attrs>): (es: seq<Entry>)
    requires AllKeyed(rs)
    ensures |es| == |rs| && forall i :: 0 <= i < |rs| ==> es[i] == (MergeKey(rs[i]), rs[i])
  {
    seq(|rs|, i requires 0 <= i < |rs| => (MergeKey(rs[i]), rs[i]))
  }

  function Keys(es: seq<Entry>): set<string> {
    set i | 0 <= i < |es| :: es[i].0
  }

  function MergeKeys(rs: seq<Attrs>): set<string>
    requires AllKeyed(rs)
  {
    Keys(Entries(rs))
  }

  /** A dict of results by merge key. */
  type ResultSet = map<string, Attrs>

  /** The loop storing each result under its key, in list order. */
  function Tabulate(acc: ResultSet, es: seq<Entry>): ResultSet
    decreases |es|
  {
    if es == [] then acc else Tabulate(acc[es[0].0 := es[0].1], es[1..])
  }

  /** No later entry in the list has the same key as es[i]. */
  predicate LastWithKey(es: seq<Entry>, i: int)
    requires 0 <= i < |es|
  {
    forall j :: i < j < |es| ==> es[j].0 != es[i].0
  }

  /** Tabulating adds exactly the entries' keys; each key holds the last
      result with that key, and keys no entry has keep their values. */
  lemma {:induction false} TabulateMeaning(acc: ResultSet, es: seq<Entry>)
    ensures Tabulate(acc, es).Keys == acc.Keys + Keys(es)
    ensures forall k :: k in acc && k !in Keys(es) ==> Tabulate(acc, es)[k] == acc[k]
    ensures forall i :: 0 <= i < |es| && LastWithKey(es, i) ==> Tabulate(acc, es)[es[i].0] == es[i].1
    decreases |es|
  {
    if es != [] {
      var next := acc[es[0].0 := es[0].1];
      var tail := es[1..];
      TabulateMeaning(next, tail);
      assert Keys(es) == {es[0].0} + Keys(tail) by {
        forall k | k in Keys(es) ensures k in {es[0].0} + Keys(tail) {
          var i :| 0 <= i < |es| && es[i].0 == k;
          if i > 0 {
            assert tail[i - 1] == es[i];
          }
        }
        forall k | k in Keys(tail) ensures k in Keys(es) {
          var i :| 0 <= i < |tail| && tail[i].0 == k;
          assert es[i + 1] == tail[i];
        }
      }
      forall i | 0 <= i < |es| && LastWithKey(es, i)
        ensures Tabulate(acc, es)[es[i].0] == es[i].1
      {
        if i > 0 {
          assert tail[i - 1] == es[i];
          assert LastWithKey(tail, i - 1) by {
            forall j | i - 1 < j < |tail| ensures tail[j].0 != tail[i - 1].0 {
              assert tail[j] == es[j + 1];
            }
          }
        }
      }
    }
  }

  /** join_results: the disjunctive union, in which the newer result wins,
      or the conjunctive intersection, which keeps the prior results and
      takes the new ones as they are when the prior dict is empty. */
  function Join(searchType: string, prior: ResultSet, rs: seq<Attrs>): ResultSet
    requires AllKeyed(rs)
  {
    if searchType == "disjunctive" then Tabulate(prior, Entries(rs))
    else
      var found := Tabulate(map[], Entries(rs));
      if prior != map[] then (map k | k in prior.Keys * found.Keys :: prior[k]) else found
  }

  method JoinResults(searchType: string, prior: ResultSet, rs: seq<Attrs>) returns (merged: ResultSet)
    requires AllKeyed(rs)
    ensures merged == Join(searchType, prior, rs)
  {
    ghost var es := Entries(rs);
    if searchType == "disjunctive" {
      merged := prior;
      for i := 0 to |rs|
        invariant Tabulate(merged, es[i..]) == Tabulate(prior, es)
      {
        assert es[i..][1..] == es[i + 1..];
        merged := merged[MergeKey(rs[i]) := rs[i]];
      }
      return;
    }
    var found: ResultSet := map[];
    for i := 0 to |rs|
      invariant Tabulate(found, es[i..]) == Tabulate(map[], es)
    {
      assert es[i..][1..] == es[i + 1..];
      found := found[MergeKey(rs[i]) := rs[i]];
    }
    if prior != map[] {
      merged := map k | k in prior.Keys * found.Keys :: prior[k];
    } else {
      merged := found;
    }
  }

  /** No later result in the list has the same merge key as rs[i]. */
  predicate LastResult(rs: seq<Attrs>, i: int)
    requires AllKeyed(rs) && 0 <= i < |rs|
  {
    forall j :: i < j < |rs| ==> MergeKey(rs[j]) != MergeKey(rs[i])
  }

  /** The entries' form of the last-wins fact. */
  lemma TabulateResults(acc: ResultSet, rs: seq<Attrs>)
    requires AllKeyed(rs)
    ensures Tabulate(acc, Entries(rs)).Keys == acc.Keys + MergeKeys(rs)
    ensures forall k :: k in acc && k !in MergeKeys(rs) ==> Tabulate(acc, Entries(rs))[k] == acc[k]
    ensures forall i :: 0 <= i < |rs| && LastResult(rs, i) ==> Tabulate(acc, Entries(rs))[MergeKey(rs[i])] == rs[i]
  {
    var es := Entries(rs);
    TabulateMeaning(acc, es);
    forall i | 0 <= i < |rs| && LastResult(rs, i) ensures LastWithKey(es, i) {
    }
  }

  /** Disjunctive: every result is stored under its key, over any prior
      entry; a later duplicate replaces an earlier one. */
  lemma Disjunctive(prior: ResultSet, rs: seq<Attrs>)
    requires AllKeyed(rs)
    ensures var m := Join("disjunctive", prior, rs);
      m.Keys == prior.Keys + MergeKeys(rs) &&
      (forall i :: 0 <= i < |rs| && LastResult(rs, i) ==> m[MergeKey(rs[i])] == rs[i]) &&
      (forall k :: k in prior && k !in MergeKeys(rs) ==> m[k] == prior[k])
  {
    TabulateResults(prior, rs);
  }

  /** Conjunctive after a non-empty prior: exactly the keys in both, with
      the prior's results. */
  lemma Conjunctive(searchType: string, prior: ResultSet, rs: seq<Attrs>)
    requires AllKeyed(rs) && searchType != "disjunctive" && prior != map[]
    ensures var m := Join(searchType, prior, rs);
      m.Keys == prior.Keys * MergeKeys(rs) && forall k :: k in m ==> m[k] == prior[k]
  {
    TabulateMeaning(map[], Entries(rs));
  }

  /** Conjunctive after an empty prior: the new results by key, the last
      of each key winning. */
  lemma ConjunctiveSeed(searchType: string, rs: seq<Attrs>)
    requires AllKeyed(rs) && searchType != "disjunctive"
    ensures var m := Join(searchType, map[], rs);
      m.Keys == MergeKeys(rs) &&
      forall i :: 0 <= i < |rs| && LastResult(rs, i) ==> m[MergeKey(rs[i])] == rs[i]
  {
    TabulateResults(map[], rs);
  }

  /** What one webservice search returns: its success flag and results. */
  datatype Reply = Reply(success: bool, results: seq<Attrs>)

  predicate RepliesKeyed(replies: seq<Reply>) {
    forall i :: 0 <= i < |replies| ==> AllKeyed(replies[i].results)
  }

  /** net_results after joining each reply's results in turn. */
  function Net(searchType: string, prior: ResultSet, replies: seq<Reply>): ResultSet
    requires RepliesKeyed(replies)
    decreases |replies|
  {
    if replies == [] then prior
    else Net(searchType, Join(searchType, prior, replies[0].results), replies[1..])
  }

  /** The search form: the search type and the four search fields. */
  datatype Form = Form(searchType: string, ownerName: string, plate: string, vin: string, search: string)

  /** The webservice's answers to the name, plate, vin and any-field
      searches. */
  datatype Replies = Replies(name: Reply, plate: Reply, vin: Reply, any: Reply)

  predicate AllRepliesKeyed(r: Replies) {
    AllKeyed(r.name.results) && AllKeyed(r.plate.results) && AllKeyed(r.vin.results) && AllKeyed(r.any.results)
  }

  /** The replies of the sub-searches search_dmv runs: one per non-empty
      field, in the order owner name, plate, vin, any field. */
  function Searched(form: Form, r: Replies): seq<Reply> {
    (if form.ownerName != [] then [r.name] else []) +
    (if form.plate != [] then [r.plate] else []) +
    (if form.vin != [] then [r.vin] else []) +
    (if form.search != [] then [r.any] else [])
  }

  /** The success flag of the last sub-search, and the joined results. */
  datatype SearchOutcome = SearchOutcome(success: bool, net: ResultSet)

  /** search_dmv's variables between sub-searches: success, unassigned
      until a search runs, and net_results. */
  datatype Progress = Progress(success: Option<bool>, net: ResultSet)

  /** One `if form[field]:` block. */
  function SubSearch(searchType: string, p: Progress, term: string, reply: Reply): Progress
    requires AllKeyed(reply.results)
  {
    if term == [] then p else Progress(Some(reply.success), Join(searchType, p.net, reply.results))
  }

  function SearchSpec(form: Form, r: Replies): Result<SearchOutcome>
    requires AllRepliesKeyed(r)
  {
    var t := form.searchType;
    var p := SubSearch(t, SubSearch(t, SubSearch(t, SubSearch(t, Progress(None, map[]),
      form.ownerName, r.name), form.plate, r.plate), form.vin, r.vin), form.search, r.any);
    if p.success.None? then Err(NameError("success")) else Ok(SearchOutcome(p.success.value, p.net))
  }

  method SearchDmv(form: Form, r: Replies) returns (outcome: Result<SearchOutcome>)
    requires AllRepliesKeyed(r)
    ensures outcome == SearchSpec(form, r)
  {
    var success: Option<bool> := None;
    var net: ResultSet := map[];
    if form.ownerName != [] {
      success := Some(r.name.success);
      net := JoinResults(form.searchType, net, r.name.results);
    }
    if form.plate != [] {
      success := Some(r.plate.success);
      net := JoinResults(form.searchType, net, r.plate.results);
    }
    if form.vin != [] {
      success := Some(r.vin.success);
      net := JoinResults(form.searchType, net, r.vin.results);
    }
    if form.search != [] {
      success := Some(r.any.success);
      net := JoinResults(form.searchType, net, r.any.results);
    }
    if success.None? {
      return Err(NameError("success"));
    }
    outcome := Ok(SearchOutcome(success.value, net));
  }

  /** The variables after the searches that replied `done` have run. */
  function Ran(searchType: string, done: seq<Reply>): Progress
    requires RepliesKeyed(done)
  {
    Progress(if done == [] then None else Some(done[|done| - 1].success), Net(searchType, map[], done))
  }

  /** The replies after one more block: its reply when its field is set. */
  function Then(done: seq<Reply>, term: string, reply: Reply): seq<Reply> {
    done + (if term != [] then [reply] else [])
  }

  /** A sub-search block runs its search only for a non-empty field, and
      then joins its results onto the earlier ones. */
  lemma SubSearchStep(searchType: string, done: seq<Reply>, term: string, reply: Reply)
    requires RepliesKeyed(done) && AllKeyed(reply.results)
    ensures RepliesKeyed(Then(done, term, reply))
    ensures SubSearch(searchType, Ran(searchType, done), term, reply) == Ran(searchType, Then(done, term, reply))
  {
    if term != [] {
      NetSnoc(searchType, map[], done, reply);
    } else {
      assert Then(done, term, reply) == done;
    }
  }

  /** The four blocks leave the variables the searched replies give. */
  lemma FourBlocks(form: Form, r: Replies)
    requires AllRepliesKeyed(r)
    ensures RepliesKeyed(Searched(form, r))
    ensures var t := form.searchType;
      SubSearch(t, SubSearch(t, SubSearch(t, SubSearch(t, Progress(None, map[]),
        form.ownerName, r.name), form.plate, r.plate), form.vin, r.vin), form.search, r.any) ==
      Ran(t, Searched(form, r))
  {
    var t := form.searchType;
    assert Ran(t, []) == Progress(None, map[]);
    SubSearchStep(t, [], form.ownerName, r.name);
    var s1 := Then([], form.ownerName, r.name);
    SubSearchStep(t, s1, form.plate, r.plate);
    var s2 := Then(s1, form.plate, r.plate);
    SubSearchStep(t, s2, form.vin, r.vin);
    var s3 := Then(s2, form.vin, r.vin);
    SubSearchStep(t, s3, form.search, r.any);
    assert Then(s3, form.search, r.any) == Searched(form, r);
  }

  /** search_dmv runs one sub-search per non-empty field, in the order
      owner name, plate, vin, any field; it fails reading success when no
      field is filled, and otherwise reports the last search's flag with
      all the results joined in that order. */
  lemma SearchMeaning(form: Form, r: Replies)
    requires AllRepliesKeyed(r)
    ensures RepliesKeyed(Searched(form, r))
    ensures var s := Searched(form, r);
      SearchSpec(form, r) ==
        if s == [] then Err(NameError("success"))
        else Ok(SearchOutcome(s[|s| - 1].success, Net(form.searchType, map[], s)))
  {
    FourBlocks(form, r);
  }

  /** One more reply joins onto the net of the earlier ones. */
  lemma {:induction false} NetSnoc(searchType: string, prior: ResultSet, replies: seq<Reply>, last: Reply)
    requires RepliesKeyed(replies) && AllKeyed(last.results)
    ensures RepliesKeyed(replies + [last])
    ensures Net(searchType, prior, replies + [last]) == Join(searchType, Net(searchType, prior, replies), last.results)
    decreases |replies|
  {
    if replies != [] {
      assert (replies + [last])[1..] == replies[1..] + [last];
      NetSnoc(searchType, Join(searchType, prior, replies[0].results), replies[1..], last);
    }
  }

  /** The keys of every reply's results. */
  function UnionKeys(replies: seq<Reply>): set<string>
    requires RepliesKeyed(replies)
    decreases |replies|
  {
    if replies == [] then {} else MergeKeys(replies[0].results) + UnionKeys(replies[1..])
  }

  /** A disjunctive search finds every result of every sub-search it ran. */
  lemma {:induction false} DisjunctiveNet(prior: ResultSet, replies: seq<Reply>)
    requires RepliesKeyed(replies)
    ensures Net("disjunctive", prior, replies).Keys == prior.Keys + UnionKeys(replies)
    decreases |replies|
  {
    if replies != [] {
      Disjunctive(prior, replies[0].results);
      DisjunctiveNet(Join("disjunctive", prior, replies[0].results), replies[1..]);
    }
  }

  /** join_results with the first sub-search told apart from an earlier one
      that found nothing: None before any search, and an empty intersection
      stays empty. */
  function JoinIntended(searchType: string, prior: Option<ResultSet>, rs: seq<Attrs>): ResultSet
    requires AllKeyed(rs)
  {
    if searchType == "disjunctive" then Tabulate(if prior.Some? then prior.value else map[], Entries(rs))
    else
      var found := Tabulate(map[], Entries(rs));
      if prior.Some? then (map k | k in prior.value.Keys * found.Keys :: prior.value[k]) else found
  }

  function NetIntended(searchType: string, prior: Option<ResultSet>, replies: seq<Reply>): Option<ResultSet>
    requires RepliesKeyed(replies)
    decreases |replies|
  {
    if replies == [] then prior
    else NetIntended(searchType, Some(JoinIntended(searchType, prior, replies[0].results)), replies[1..])
  }

  /** One intended conjunctive step after an earlier search: the keys in
      both, with the earlier values, even when the earlier set is empty. */
  lemma IntendedStep(searchType: string, prior: ResultSet, rs: seq<Attrs>)
    requires AllKeyed(rs) && searchType != "disjunctive"
    ensures var m := JoinIntended(searchType, Some(prior), rs);
      m.Keys == prior.Keys * MergeKeys(rs) && forall k :: k in m ==> m[k] == prior[k]
  {
    TabulateMeaning(map[], Entries(rs));
  }

  /** Every reply's results have a result with key k. */
  predicate InAll(k: string, replies: seq<Reply>)
    requires RepliesKeyed(replies)
  {
    forall i :: 0 <= i < |replies| ==> k in MergeKeys(replies[i].results)
  }

  /** A conjunctive search keeps exactly the results whose key every
      sub-search found, with the values of the first. */
  lemma {:induction false} IntendedIsIntersection(searchType: string, prior: ResultSet, replies: seq<Reply>)
    requires RepliesKeyed(replies) && searchType != "disjunctive"
    ensures NetIntended(searchType, Some(prior), replies).Some?
    ensures var m := NetIntended(searchType, Some(prior), replies).value;
      (forall k :: k in m <==> k in prior && InAll(k, replies)) &&
      (forall k :: k in m ==> m[k] == prior[k])
    decreases |replies|
  {
    if replies != [] {
      var next := JoinIntended(searchType, Some(prior), replies[0].results);
      IntendedStep(searchType, prior, replies[0].results);
      var tail := replies[1..];
      IntendedIsIntersection(searchType, next, tail);
      forall k ensures InAll(k, replies) <==> k in MergeKeys(replies[0].results) && InAll(k, tail) {
        if k in MergeKeys(replies[0].results) && InAll(k, tail) {
          forall i | 0 <= i < |replies| ensures k in MergeKeys(replies[i].results) {
            if i > 0 {
              assert tail[i - 1] == replies[i];
            }
          }
        }
        if InAll(k, replies) {
          forall i | 0 <= i < |tail| ensures k in MergeKeys(tail[i].results) {
            assert tail[i] == replies[i + 1];
          }
        }
      }
    }
  }

  /** The first conjunctive sub-search seeds the intersection. */
  lemma IntendedSeed(searchType: string, first: Reply, rest: seq<Reply>)
    requires AllKeyed(first.results) && RepliesKeyed(rest) && searchType != "disjunctive"
    ensures RepliesKeyed([first] + rest)
    ensures NetIntended(searchType, None, [first] + rest) ==
      NetIntended(searchType, Some(Tabulate(map[], Entries(first.results))), rest)
  {
    assert ([first] + rest)[1..] == rest;
  }

  /** The as-written net of three sub-searches. */
  lemma NetThree(searchType: string, a: Reply, b: Reply, c: Reply)
    requires AllKeyed(a.results) && AllKeyed(b.results) && AllKeyed(c.results)
    ensures RepliesKeyed([a, b, c])
    ensures Net(searchType, map[], [a, b, c]) ==
      Join(searchType, Join(searchType, Join(searchType, map[], a.results), b.results), c.results)
  {
    var ab := Join(searchType, Join(searchType, map[], a.results), b.results);
    assert [a, b, c][1..] == [b, c];
    assert [b, c][1..] == [c];
    assert [c][1..] == [];
    assert Net(searchType, map[], [a, b, c]) == Net(searchType, Join(searchType, map[], a.results), [b, c]);
    assert Net(searchType, Join(searchType, map[], a.results), [b, c]) == Net(searchType, ab, [c]);
    assert Net(searchType, ab, [c]) == Net(searchType, Join(searchType, ab, c.results), []);
  }

  /** As written, once two conjunctive sub-searches (the first finding
      something) have no result in common, a third search's results are
      taken as they are instead of being intersected with nothing. */
  lemma ConjunctiveReseeds(searchType: string, a: Reply, b: Reply, c: Reply)
    requires searchType != "disjunctive"
    requires AllKeyed(a.results) && AllKeyed(b.results) && AllKeyed(c.results)
    requires a.results != [] && c.results != []
    requires MergeKeys(a.results) * MergeKeys(b.results) == {}
    ensures RepliesKeyed([a, b, c])
    ensures Net(searchType, map[], [a, b, c]).Keys == MergeKeys(c.results) != {}
  {
    NetThree(searchType, a, b, c);
    ConjunctiveSeed(searchType, a.results);
    var first := Join(searchType, map[], a.results);
    assert MergeKey(a.results[0]) in first;
    Conjunctive(searchType, first, b.results);
    ConjunctiveSeed(searchType, c.results);
    assert MergeKey(c.results[0]) in MergeKeys(c.results);
  }

  /** Once the intended intersection meets a search with no key in common,
      it stays empty. */
  lemma EmptyWhenDisjoint(searchType: string, seed: ResultSet, b: Reply, rest: seq<Reply>)
    requires searchType != "disjunctive"
    requires AllKeyed(b.results) && RepliesKeyed(rest)
    requires seed.Keys * MergeKeys(b.results) == {}
    ensures RepliesKeyed([b] + rest)
    ensures NetIntended(searchType, Some(seed), [b] + rest) == Some(map[])
  {
    var all := [b] + rest;
    IntendedIsIntersection(searchType, seed, all);
    var m := NetIntended(searchType, Some(seed), all).value;
    forall k | k in seed ensures k !in m {
      assert all[0] == b;
      assert k !in MergeKeys(all[0].results) by {
        assert k !in seed.Keys * MergeKeys(b.results);
      }
    }
    assert m.Keys == {};
  }

  /** The intended join of the same three sub-searches keeps nothing. */
  lemma IntendedStaysEmpty(searchType: string, a: Reply, b: Reply, c: Reply)
    requires searchType != "disjunctive"
    requires AllKeyed(a.results) && AllKeyed(b.results) && AllKeyed(c.results)
    requires MergeKeys(a.results) * MergeKeys(b.results) == {}
    ensures RepliesKeyed([a, b, c])
    ensures NetIntended(searchType, None, [a, b, c]) == Some(map[])
  {
    IntendedSeed(searchType, a, [b, c]);
    TabulateMeaning(map[], Entries(a.results));
    EmptyWhenDisjoint(searchType, Tabulate(map[], Entries(a.results)), b, [c]);
    assert [b] + [c] == [b, c];
  }
}

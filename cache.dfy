/** The response cache: search responses stored per (source, query) with a
    time to live of three days, tagged by kind so that they can be rebuilt. */
module Cache {
  import opened Outcomes
  import opened Documents
  import Xml

  /** A search response as the clients hand it over. */
  datatype Response =
    | XmlResponse(tree: Xml.Tree)
    | JsonResponse(d: map<string, Field>)
    | TextResponse(s: string)
    | OtherResponse(token: string)

  /** A serialised response: a pickle, a JSON text, or the text itself. */
  datatype Blob = Pickle(r: Response) | JsonText(d: map<string, Field>) | Raw(s: string)

  /** serialize_cache_entry: XML (pickled) for an element tree, JSON for a
      dict, STR for a string, passed through unchanged, PICKLE for anything
      else. */
  function Serialize(r: Response): (string, Blob) {
    match r
    case XmlResponse(_) => ("XML", Pickle(r))
    case JsonResponse(d) => ("JSON", JsonText(d))
    case TextResponse(s) => ("STR", Raw(s))
    case OtherResponse(_) => ("PICKLE", Pickle(r))
  }

  /** pickle.loads, json.loads: a blob of another kind raises. */
  function Unpickle(b: Blob): Result<Response> {
    if b.Pickle? then Ok(b.r) else Err(TypeError("a bytes-like object is required"))
  }

  function JsonLoads(b: Blob): Result<Response> {
    if b.JsonText? then Ok(JsonResponse(b.d)) else Err(TypeError("the JSON object must be str"))
  }

  /** reconstitute_cached_response as written: a STR entry, and an entry of
      unknown tag, call .copy() on a string, which has no such method. */
  function ReconstituteAsWritten(tag: string, b: Blob): Result<Response> {
    if tag == "XML" then Unpickle(b)
    else if tag == "JSON" then JsonLoads(b)
    else if tag == "STR" then Err(AttributeError("copy"))
    else if tag == "PICKLE" then Unpickle(b)
    else Err(AttributeError("copy"))
  }

  /** reconstitute_cached_response with the STR branch returning the stored
      text, as the serialisation side intends. */
  function Reconstitute(tag: string, b: Blob): Result<Response> {
    if tag == "STR" then (if b.Raw? then Ok(TextResponse(b.s)) else Err(AttributeError("copy")))
    else ReconstituteAsWritten(tag, b)
  }

  /** The tag names the kind of response, and text is stored unchanged. */
  lemma SerializeTags(r: Response)
    ensures Serialize(r).0 == "XML" <==> r.XmlResponse?
    ensures Serialize(r).0 == "JSON" <==> r.JsonResponse?
    ensures Serialize(r).0 == "STR" <==> r.TextResponse?
    ensures Serialize(r).0 == "PICKLE" <==> r.OtherResponse?
    ensures r.TextResponse? ==> Serialize(r).1 == Raw(r.s)
  {
  }

  /** Every response comes back as it was stored. */
  lemma RoundTrip(r: Response)
    ensures Reconstitute(Serialize(r).0, Serialize(r).1) == Ok(r)
  {
  }

  /** As written, a stored string never comes back: reading it raises,
      while every other kind comes back as stored. */
  lemma StrRoundTripFails(r: Response)
    ensures r.TextResponse? ==> ReconstituteAsWritten(Serialize(r).0, Serialize(r).1) == Err(AttributeError("copy"))
    ensures !r.TextResponse? ==> ReconstituteAsWritten(Serialize(r).0, Serialize(r).1) == Ok(r)
  {
  }

  /** timedelta(days=3), in seconds. */
  const TimeToLive: int := 3 * 24 * 60 * 60

  /** A cache document: the record_from_dict of the query and its
      serialised result, stamped with base_record's audit values. */
  datatype Entry = Entry(source: string, query: string, result: Blob, resultType: string, ttl: int, audit: Audit)

  function NewEntry(source: string, query: string, r: Response, now: int, audit: Audit): Entry {
    var (tag, blob) := Serialize(r);
    Entry(source, query, blob, tag, now + TimeToLive, audit)
  }

  /** The (source, query) document whose ttl is after now, if any. */
  function Live(entries: map<(string, string), Entry>, source: string, query: string, now: int): (r: Option<Entry>)
    ensures r.Some? <==> (source, query) in entries && entries[(source, query)].ttl > now
    ensures r.Some? ==> r.value == entries[(source, query)]
  {
    if (source, query) !in entries || entries[(source, query)].ttl <= now then None
    else Some(entries[(source, query)])
  }

  /** check_cache on the documents: nothing unless the (source, query)
      document's ttl is after now; otherwise the response rebuilt as the
      code rebuilds it. */
  function Lookup(entries: map<(string, string), Entry>, source: string, query: string, now: int): Result<Option<Response>> {
    match Live(entries, source, query, now)
    case None => Ok(None)
    case Some(e) =>
      match ReconstituteAsWritten(e.resultType, e.result)
      case Err(err) => Err(err)
      case Ok(r) => Ok(Some(r))
  }

  /** check_cache with the STR branch corrected. */
  function LookupIntended(entries: map<(string, string), Entry>, source: string, query: string, now: int): Result<Option<Response>> {
    match Live(entries, source, query, now)
    case None => Ok(None)
    case Some(e) =>
      match Reconstitute(e.resultType, e.result)
      case Err(err) => Err(err)
      case Ok(r) => Ok(Some(r))
  }

  /** The cache collection. Every write is an upsert on (source, query), so
      it holds one document per pair. */
  class ResponseCache {
    var entries: map<(string, string), Entry>

    constructor()
      ensures entries == map[]
    {
      entries := map[];
    }

    /** insert_cache: replace the (source, query) document, or add one. */
    method Insert(source: string, query: string, r: Response, now: int, audit: Audit) returns (ok: bool)
      modifies this
      ensures entries == old(entries)[(source, query) := NewEntry(source, query, r, now, audit)]
      ensures ok
    {
      entries := entries[(source, query) := NewEntry(source, query, r, now, audit)];
      ok := true;
    }

    /** check_cache. */
    method Check(source: string, query: string, now: int) returns (r: Result<Option<Response>>)
      ensures r == Lookup(entries, source, query, now)
    {
      if (source, query) !in entries {
        return Ok(None);
      }
      var e := entries[(source, query)];
      if e.ttl <= now {
        return Ok(None);
      }
      var rebuilt := ReconstituteAsWritten(e.resultType, e.result);
      if rebuilt.Err? {
        return Err(rebuilt.error);
      }
      r := Ok(Some(rebuilt.value));
    }
  }

  /** A response inserted at time t is found for the same source and query
      until three days have passed, and never after that (unless it is
      inserted again); while it is found, a text response raises
      AttributeError and every other kind comes back as it was inserted. */
  lemma InsertThenLookup(entries: map<(string, string), Entry>, source: string, query: string,
                         r: Response, t: int, audit: Audit, now: int)
    ensures var after := entries[(source, query) := NewEntry(source, query, r, t, audit)];
      Lookup(after, source, query, now) ==
        if now >= t + TimeToLive then Ok(None)
        else if r.TextResponse? then Err(AttributeError("copy"))
        else Ok(Some(r))
  {
    StrRoundTripFails(r);
  }

  /** With the STR branch corrected, an inserted response of every kind
      comes back as it was inserted until three days have passed. */
  lemma InsertThenLookupIntended(entries: map<(string, string), Entry>, source: string, query: string,
                                 r: Response, t: int, audit: Audit, now: int)
    ensures var after := entries[(source, query) := NewEntry(source, query, r, t, audit)];
      LookupIntended(after, source, query, now) == if now < t + TimeToLive then Ok(Some(r)) else Ok(None)
  {
    RoundTrip(r);
  }

  /** An insert leaves the answers for every other (source, query) as they
      were. */
  lemma InsertKeepsOthers(entries: map<(string, string), Entry>, source: string, query: string,
                          r: Response, t: int, audit: Audit, source': string, query': string, now: int)
    requires (source', query') != (source, query)
    ensures var after := entries[(source, query) := NewEntry(source, query, r, t, audit)];
      Lookup(after, source', query', now) == Lookup(entries, source', query', now)
  {
  }

  /** Nothing is found once the document's time to live has passed. */
  lemma ExpiredIsMissing(entries: map<(string, string), Entry>, source: string, query: string, now: int)
    requires (source, query) in entries && entries[(source, query)].ttl <= now
    ensures Lookup(entries, source, query, now) == Ok(None)
  {
  }
}

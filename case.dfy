/** A client's case (case.py): the caller's fields set over a few None
    defaults, and the check that the required properties are set. */
module CaseRecord {
  import opened Outcomes
  import opened Engine

  /** The properties a case must have, in the order they are checked. */
  const Required: seq<string> := ["cause_number", "county", "us_state", "case_name", "created_by"]

  /** The attributes the initializer sets to None before the caller's
      fields. The fourth is "name", not the required "case_name". */
  const Defaults: Attrs := map["cause_number" := Null, "county" := Null, "us_state" := Null,
                               "name" := Null, "created_by" := Null]

  /** s lists some of the elements of t, in t's order. */
  predicate Subsequence(s: seq<string>, t: seq<string>) {
    s == [] || (t != [] && (if s[0] == t[0] then Subsequence(s[1..], t[1..]) else Subsequence(s, t[1..])))
  }

  /** [prop for prop in names if not getattr(self, prop)]: the names whose
      attribute is falsy, in order; getattr of a name never set raises
      AttributeError, at the first such name. */
  function Missing(attrs: Attrs, names: seq<string>): (r: Result<seq<string>>)
    ensures r.Err? <==> exists i :: 0 <= i < |names| && names[i] !in attrs
    ensures r.Err? ==> exists i :: 0 <= i < |names| && names[i] !in attrs && r.error == AttributeError(names[i]) &&
                                 forall j :: 0 <= j < i ==> names[j] in attrs
    ensures r.Ok? ==> Subsequence(r.value, names)
    ensures r.Ok? ==> forall n :: n in r.value <==> n in names && n in attrs && !Truthy(attrs[n])
    ensures r.Ok? ==> (r.value == [] <==> forall n :: n in names ==> n in attrs && Truthy(attrs[n]))
  {
    if names == [] then Ok([])
    else if names[0] !in attrs then Err(AttributeError(names[0]))
    else
      var rest := Missing(attrs, names[1..]);
      assert forall i :: 1 <= i < |names| ==> names[i] == names[1..][i - 1];
      if rest.Err? then
        assert forall j :: 0 <= j < |names[1..]| ==> names[1..][j] == names[j + 1];
        rest
      else if !Truthy(attrs[names[0]]) then Ok([names[0]] + rest.value)
      else Ok(rest.value)
  }

  /** What constructing a case produces: its attributes, the exception
      listing the falsy required properties, or the AttributeError of
      reading a required property that was never set. */
  function CaseSpec(fields: map<string, Value>): Result<Attrs> {
    var attrs := Defaults + fields;
    match Missing(attrs, Required)
    case Err(e) => Err(e)
    case Ok(missing) => if missing != [] then Err(MissingRequired(missing)) else Ok(attrs)
  }

  class Case {
    var attrs: Attrs

    /** The attribute-setting part of the initializer: the defaults, then
        one setattr per caller field. */
    constructor (fields: map<string, Value>)
      ensures attrs == Defaults + fields
    {
      attrs := Defaults;
      new;
      var todo := fields.Keys;
      while todo != {}
        invariant todo <= fields.Keys
        invariant attrs == Defaults + map k | k in fields.Keys - todo :: fields[k]
        decreases todo
      {
        var k :| k in todo;
        attrs := attrs[k := fields[k]];
        todo := todo - {k};
        assert attrs == Defaults + map j | j in fields.Keys - todo :: fields[j];
      }
      assert fields == map k | k in fields.Keys - todo :: fields[k];
    }

    /** check_required_props. */
    function CheckRequiredProps(): Result<seq<string>>
      reads this
    {
      Missing(attrs, Required)
    }
  }

  /** Case(fields): the new case, or the exception its initializer raises. */
  method NewCase(fields: map<string, Value>) returns (r: Result<Case>)
    ensures r.Ok? <==> CaseSpec(fields).Ok?
    ensures r.Ok? ==> fresh(r.value) && r.value.attrs == CaseSpec(fields).value
    ensures r.Err? ==> r.error == CaseSpec(fields).error
  {
    var c := new Case(fields);
    var missing := c.CheckRequiredProps();
    if missing.Err? {
      return Err(missing.error);
    }
    if missing.value != [] {
      return Err(MissingRequired(missing.value));
    }
    return Ok(c);
  }

  /** case_name has no default: a case built without it fails reading it,
      whatever else is supplied. */
  lemma CaseNameRequired(fields: map<string, Value>)
    requires "case_name" !in fields
    ensures CaseSpec(fields) == Err(AttributeError("case_name"))
  {
    var attrs := Defaults + fields;
    assert Required[3] == "case_name" && Required[3] !in attrs;
    assert forall j :: 0 <= j < 3 ==> Required[j] in Defaults;
  }

  /** A case is built exactly when every required property is supplied with
      a truthy value; it then holds the caller's fields over the defaults. */
  lemma Accepted(fields: map<string, Value>)
    ensures CaseSpec(fields).Ok? <==> forall n :: n in Required ==> n in fields && Truthy(fields[n])
    ensures CaseSpec(fields).Ok? ==> CaseSpec(fields).value == Defaults + fields
  {
    var attrs := Defaults + fields;
    var m := Missing(attrs, Required);
    if forall n :: n in Required ==> n in fields && Truthy(fields[n]) {
      assert forall i :: 0 <= i < |Required| ==> Required[i] in attrs;
      assert forall n :: n in Required ==> attrs[n] == fields[n];
    } else {
      var n :| n in Required && !(n in fields && Truthy(fields[n]));
      if n in fields {
        assert n in attrs && !Truthy(attrs[n]);
      } else if n == "case_name" {
        CaseNameRequired(fields);
      } else {
        assert n in Defaults && attrs[n] == Null;
      }
    }
  }

  /** The exception names exactly the required properties that are falsy,
      in the order they are checked. */
  lemma RefusedNames(fields: map<string, Value>, names: seq<string>)
    requires CaseSpec(fields) == Err(MissingRequired(names))
    ensures names != [] && Subsequence(names, Required)
    ensures forall n :: n in names <==> n in Required && !Truthy((Defaults + fields)[n])
  {
  }
}

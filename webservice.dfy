/** The computations of the web-service facade (webservice.py): the
    sum-of-the-years-digits depreciation schedule of a vehicle and the
    parcels read from a tax-record search. */
module Webservice {
  import opened Outcomes
  import opened Text
  import opened Engine

  /** Python's int() of a detail value. */
  function IntOf(v: Value): Result<int> {
    match v
    case Null => Err(TypeError("int() argument must be a string, a bytes-like object or a real number, not 'NoneType'"))
    case Int(i) => Ok(i)
    case Bool(b) => Ok(if b then 1 else 0)
    case Str(s) =>
      match ParseInt(s)
      case None => Err(ValueError("invalid literal for int() with base 10: '" + s + "'"))
      case Some(n) => Ok(n)
  }

  /** 1 + 2 + ... + n: sum(range(1, n + 1)). */
  function Tri(n: nat): nat {
    if n == 0 then 0 else n + Tri(n - 1)
  }

  /** One row of the schedule: {"year", "begin_value", "depreciation",
      "end_value"}. */
  datatype Row = Row(year: string, begin: real, depreciation: real, end: real)

  /** The list of rows and the message returned with it. */
  datatype Schedule = Schedule(rows: seq<Row>, message: string)

  /** The depreciation of the row for amortization year k:
      float(k / total) * original * -1. */
  function Depreciation(k: nat, total: real, original: real): real
    requires total != 0.0
  {
    (k as real / total) * original * -1.0
  }

  /** The depreciations of amortization years k down to 1. */
  function Deps(k: nat, total: real, original: real): (d: seq<real>)
    requires k == 0 || total != 0.0
    ensures |d| == k && forall i :: 0 <= i < k ==> d[i] == Depreciation(k - i, total, original)
  {
    seq(k, i requires 0 <= i < k => Depreciation(k - i, total, original))
  }

  /** The rows for the depreciations deps, starting at year with
      start_value start: each row's end value is the next row's begin
      value. */
  function Rows(year: int, start: real, deps: seq<real>): seq<Row>
    decreases |deps|
  {
    if deps == [] then []
    else [Row(IntToString(year), start, deps[0], start + deps[0])] + Rows(year + 1, start + deps[0], deps[1..])
  }

  /** (message + " Current FMV = $%9.2f." % end).strip(). */
  function WithFmv(message: string, end: real, money: real -> string): string {
    Strip(message + " Current FMV = $" + money(end) + ".")
  }

  /** The end value of the row for this year, if the rows (from year on)
      have one. */
  function FmvOf(year: int, rows: seq<Row>, thisYear: int): Option<real> {
    if year <= thisYear < year + |rows| then Some(rows[thisYear - year].end) else None
  }

  /** The message, with the fair market value added when there is one. */
  function NoteAt(message: string, fmv: Option<real>, money: real -> string): string {
    match fmv
    case None => message
    case Some(end) => WithFmv(message, end, money)
  }

  /** The schedule the loop produces from year on: its rows, and the
      message carrying the fair market value at the end of this year when
      this year is one of the schedule's years. */
  function Amortize(year: int, start: real, k: nat, total: real, original: real, thisYear: int,
                    message: string, money: real -> string): Schedule
    requires k == 0 || total != 0.0
  {
    var rows := Rows(year, start, Deps(k, total, original));
    Schedule(rows, NoteAt(message, FmvOf(year, rows, thisYear), money))
  }

  /** The year the asset was bought: int(details["title_date"][:4]), or
      None where that raises (no title date, not a string, not a number). */
  function TitleYear(details: Attrs): Option<int> {
    if "title_date" in details && details["title_date"].Str? then
      var s := details["title_date"].s;
      ParseInt(if |s| <= 4 then s else s[..4])
    else None
  }

  /** The purchase year and the message so far; without a readable title
      date the model year is used, and reading sold_date for the message
      can itself raise KeyError. */
  function Purchase(details: Attrs, year: int): Result<(int, string)> {
    match TitleYear(details)
    case Some(p) => Ok((p, ""))
    case None =>
      if "sold_date" !in details then Err(KeyError("sold_date"))
      else Ok((year, "Unable to parse purchase date of '" + Format(details["sold_date"]) + "'. Used '" +
                     IntToString(year) + "' instead"))
  }

  /** The schedule's first year and number of years; reduced when the
      asset was bought used, after its base year. */
  datatype Life = Life(first: int, years: nat, reduced: bool)

  /** The remaining useful life, or None for an asset with no significant
      remaining value. A purchase year of 0 reads as the model year, and an
      earlier purchase year replaces the model year as the base year. */
  function Remaining(year: int, purchased: int, life: int, thisYear: int): Option<Life> {
    var bought := if purchased == 0 then year else purchased;
    var base := if purchased != 0 && purchased < year then purchased else year;
    if bought > base + life || thisYear > base + life then None
    else if bought > base then Some(Life(bought, life - (bought - base), true))
    else Some(Life(base, life, false))
  }

  /** The schedule once the model year, the price and the purchase year are
      known. */
  function Depreciate(year: int, purchased: int, original: int, life: int, thisYear: int, message: string,
                      money: real -> string): Schedule
  {
    match Remaining(year, purchased, life, thisYear)
    case None => Schedule([], "Asset has no significant remaining value due to its age.")
    case Some(l) =>
      var message' := if l.reduced then
                        "Normal useful life of " + IntToString(life) + " years reduced to remaining useful life of " +
                        IntToString(l.years) + " years."
                      else message;
      Amortize(l.first, original as real, l.years, Tri(l.years) as real, original as real, thisYear, message', money)
  }

  /** amortization_schedule: the schedule and message it returns, or the
      exception it lets through. */
  function AmortizationSpec(details: Attrs, life: int, thisYear: int, money: real -> string): Result<Schedule> {
    if "year" !in details then Ok(Schedule([], "Cannot depreciate an asset with no model year (1)."))
    else match IntOf(details["year"])
      case Err(e) => if e.ValueError? then Ok(Schedule([], "Invalid year: " + e.message)) else Err(e)
      case Ok(year) =>
        if "sold_price" !in details then Ok(Schedule([], "Cannot depreciate an asset with no purchase price."))
        else match IntOf(details["sold_price"])
          case Err(e) => Err(e)
          case Ok(original) =>
            if original == 0 then Ok(Schedule([], "Cannot depreciate an asset having no initial value."))
            else match Purchase(details, year)
              case Err(e) => Err(e)
              case Ok(bought) => Ok(Depreciate(year, bought.0, original, life, thisYear, bought.1, money))
  }

  /** The loop of amortization_schedule, from amortization year usefulLife
      down to 1. */
  method AmortizationLoop(first: int, original: int, usefulLife: nat, thisYear: int, message0: string,
                          money: real -> string) returns (s: Schedule)
    ensures s == Amortize(first, original as real, usefulLife, Tri(usefulLife) as real, original as real,
                          thisYear, message0, money)
  {
    var total: real := Tri(usefulLife) as real;
    assert usefulLife == 0 || total != 0.0;
    ghost var deps := Deps(usefulLife, total, original as real);
    ghost var rest := deps;
    var schedule: seq<Row> := [];
    var message := message0;
    var year := first;
    var startValue: real := original as real;
    var amortYear: nat := usefulLife;
    while amortYear > 0
      invariant rest == Deps(amortYear, total, original as real)
      invariant schedule + Rows(year, startValue, rest) == Rows(first, original as real, deps)
      invariant year == first + |schedule|
      invariant message == NoteAt(message0, FmvOf(first, schedule, thisYear), money)
      decreases amortYear
    {
      var depreciation := Depreciation(amortYear, total, original as real);
      var endValue := startValue + depreciation;
      var row := Row(IntToString(year), startValue, depreciation, endValue);
      RowsStep(schedule, year, startValue, rest);
      DepsTail(amortYear, total, original as real);
      rest := rest[1..];
      FmvAppend(first, schedule, row, thisYear);
      schedule := schedule + [row];
      if year == thisYear {
        message := WithFmv(message, endValue, money);
      }
      year := year + 1;
      startValue := endValue;
      amortYear := amortYear - 1;
    }
    s := Schedule(schedule, message);
  }

  /** One turn of the loop moves the next row from the rows to come to the
      rows produced. */
  lemma RowsStep(done: seq<Row>, year: int, start: real, deps: seq<real>)
    requires deps != []
    ensures (done + [Row(IntToString(year), start, deps[0], start + deps[0])]) + Rows(year + 1, start + deps[0], deps[1..]) ==
      done + Rows(year, start, deps)
  {
  }

  /** Appending the next year's row adds its end value when that year is
      this year. */
  lemma FmvAppend(first: int, rows: seq<Row>, row: Row, thisYear: int)
    ensures FmvOf(first, rows + [row], thisYear) ==
      if thisYear == first + |rows| then Some(row.end) else FmvOf(first, rows, thisYear)
    ensures thisYear == first + |rows| ==> FmvOf(first, rows, thisYear).None?
  {
  }

  /** The schedule once the model year, the price and the purchase year are
      known: the adjustments of the base year and the useful life. */
  method DepreciateFrom(year0: int, purchased0: int, original: int, life: int, thisYear: int, message0: string,
                        money: real -> string) returns (s: Schedule)
    ensures s == Depreciate(year0, purchased0, original, life, thisYear, message0, money)
  {
    var year, purchasedYear, message := year0, purchased0, message0;
    if purchasedYear == 0 {
      purchasedYear := year;
    } else if purchasedYear < year {
      year := purchasedYear;
    }
    if purchasedYear > year + life || thisYear > year + life {
      assert Remaining(year0, purchased0, life, thisYear).None?;
      return Schedule([], "Asset has no significant remaining value due to its age.");
    }
    var usefulLife: nat;
    if purchasedYear > year {
      usefulLife := life - (purchasedYear - year);
      message := "Normal useful life of " + IntToString(life) + " years reduced to remaining useful life of " +
                 IntToString(usefulLife) + " years.";
      year := purchasedYear;
      assert Remaining(year0, purchased0, life, thisYear) == Some(Life(year, usefulLife, true));
    } else {
      usefulLife := life;
      assert Remaining(year0, purchased0, life, thisYear) == Some(Life(year, usefulLife, false));
    }
    s := AmortizationLoop(year, original, usefulLife, thisYear, message, money);
  }

  /** amortization_schedule; this year and "%9.2f" are parameters. */
  method AmortizationSchedule(details: Attrs, life: int, thisYear: int, money: real -> string)
    returns (r: Result<Schedule>)
    ensures r == AmortizationSpec(details, life, thisYear, money)
  {
    if "year" !in details {
      return Ok(Schedule([], "Cannot depreciate an asset with no model year (1)."));
    }
    var y := IntOf(details["year"]);
    if y.Err? {
      if y.error.ValueError? {
        return Ok(Schedule([], "Invalid year: " + y.error.message));
      }
      return Err(y.error);
    }
    if "sold_price" !in details {
      return Ok(Schedule([], "Cannot depreciate an asset with no purchase price."));
    }
    var price := IntOf(details["sold_price"]);
    if price.Err? {
      return Err(price.error);
    }
    if price.value == 0 {
      return Ok(Schedule([], "Cannot depreciate an asset having no initial value."));
    }
    var bought := Purchase(details, y.value);
    if bought.Err? {
      return Err(bought.error);
    }
    var s := DepreciateFrom(y.value, bought.value.0, price.value, life, thisYear, bought.value.1, money);
    return Ok(s);
  }

  function Sum(xs: seq<real>): real {
    if xs == [] then 0.0 else xs[0] + Sum(xs[1..])
  }

  /** The sum of the depreciation column. */
  function TotalDepreciation(rows: seq<Row>): real {
    if rows == [] then 0.0 else rows[0].depreciation + TotalDepreciation(rows[1..])
  }

  /** The rows run over consecutive years, one per depreciation, each
      ending at its begin value plus its depreciation. */
  lemma {:induction false} RowsShape(year: int, start: real, deps: seq<real>)
    ensures var rows := Rows(year, start, deps);
      |rows| == |deps| &&
      (deps != [] ==> rows[0].begin == start) &&
      (forall i :: 0 <= i < |deps| ==> rows[i].year == IntToString(year + i)) &&
      (forall i :: 0 <= i < |deps| ==> rows[i].depreciation == deps[i]) &&
      (forall i :: 0 <= i < |deps| ==> rows[i].end == rows[i].begin + rows[i].depreciation)
    decreases |deps|
  {
    if deps != [] {
      var rows := Rows(year, start, deps);
      var rest := Rows(year + 1, start + deps[0], deps[1..]);
      RowsShape(year + 1, start + deps[0], deps[1..]);
      forall i | 1 <= i < |deps|
        ensures rows[i].year == IntToString(year + i) && rows[i].depreciation == deps[i] &&
                rows[i].end == rows[i].begin + rows[i].depreciation
      {
        assert rows[i] == rest[i - 1] && deps[i] == deps[1..][i - 1];
        assert year + 1 + (i - 1) == year + i;
      }
    }
  }

  /** Each row begins with the value the previous one ended with. */
  lemma {:induction false} RowsChained(year: int, start: real, deps: seq<real>)
    ensures var rows := Rows(year, start, deps);
      |rows| == |deps| && forall i :: 0 < i < |deps| ==> rows[i].begin == rows[i - 1].end
    decreases |deps|
  {
    if deps != [] {
      var rows := Rows(year, start, deps);
      var rest := Rows(year + 1, start + deps[0], deps[1..]);
      RowsChained(year + 1, start + deps[0], deps[1..]);
      RowsShape(year + 1, start + deps[0], deps[1..]);
      assert forall i :: 1 <= i < |deps| ==> rows[i] == rest[i - 1];
    }
  }

  /** The depreciation column adds up to the depreciations, and the last
      row ends that far from the start. */
  lemma {:induction false} RowsTotal(year: int, start: real, deps: seq<real>)
    ensures var rows := Rows(year, start, deps);
      |rows| == |deps| && TotalDepreciation(rows) == Sum(deps) &&
      (deps != [] ==> rows[|rows| - 1].end == start + Sum(deps))
    decreases |deps|
  {
    if deps != [] {
      var rows := Rows(year, start, deps);
      var rest := Rows(year + 1, start + deps[0], deps[1..]);
      RowsTotal(year + 1, start + deps[0], deps[1..]);
      assert rows[1..] == rest;
      if |deps| > 1 {
        assert rows[|rows| - 1] == rest[|rest| - 1];
      }
    }
  }

  /** Depreciations add up by their amortization years. */
  lemma DepreciationAdd(a: nat, b: nat, total: real, original: real)
    requires total != 0.0
    ensures Depreciation(a, total, original) + Depreciation(b, total, original) == Depreciation(a + b, total, original)
  {
    assert (a + b) as real / total == a as real / total + b as real / total;
  }

  /** After the row for amortization year k come those for k - 1 down
      to 1. */
  lemma DepsTail(k: nat, total: real, original: real)
    requires k > 0 && total != 0.0
    ensures Deps(k, total, original)[1..] == Deps(k - 1, total, original)
  {
    var d := Deps(k, total, original);
    assert forall i :: 0 <= i < k - 1 ==> d[1..][i] == d[i + 1];
  }

  /** The depreciations of amortization years k down to 1 add up to
      Tri(k) / total of the original value. */
  lemma {:induction false} DepsSum(k: nat, total: real, original: real)
    requires total != 0.0
    ensures Sum(Deps(k, total, original)) == Depreciation(Tri(k), total, original)
    decreases k
  {
    if k > 0 {
      DepsSum(k - 1, total, original);
      DepsTail(k, total, original);
      DepreciationAdd(k, Tri(k - 1), total, original);
    }
  }

  /** Over the whole useful life the asset depreciates to nothing: the
      depreciations sum to minus the original value and the last row ends
      at zero. */
  lemma FullyDepreciated(year: int, original: real, n: nat)
    requires n > 0
    ensures var rows := Rows(year, original, Deps(n, Tri(n) as real, original));
      |rows| == n && TotalDepreciation(rows) == -original && rows[n - 1].end == 0.0
  {
    assert Tri(n) > 0;
    var total := Tri(n) as real;
    assert Depreciation(Tri(n), total, original) == -original by {
      assert Tri(n) as real / total == 1.0;
    }
    DepsSum(n, total, original);
    RowsTotal(year, original, Deps(n, total, original));
  }

  /** The schedule starts in the purchase year (the base year for an
      asset bought new) and ends where the normal life from the base year
      ends, so a used asset's life is reduced by the years it was bought
      after its base year; it exists only while neither the purchase nor
      this year is past that end. */
  lemma RemainingMeaning(year: int, purchased: int, life: int, thisYear: int)
    ensures var bought := if purchased == 0 then year else purchased;
      var base := if bought < year then bought else year;
      var r := Remaining(year, purchased, life, thisYear);
      (r.None? <==> bought > base + life || thisYear > base + life) &&
      (r.Some? ==> r.value.first == bought && r.value.first + r.value.years == base + life &&
                   r.value.years == life - (bought - base) && thisYear <= r.value.first + r.value.years &&
                   (r.value.reduced <==> bought > base))
  {
  }

  /** Every schedule amortization_schedule returns starts at the sale
      price, runs over consecutive years with each row beginning where the
      previous one ended, and depreciates the whole price: its depreciations
      sum to minus the price and its last row ends at zero. It never has
      more rows than the normal useful life. */
  lemma ScheduleMeaning(details: Attrs, life: int, thisYear: int, money: real -> string)
    requires AmortizationSpec(details, life, thisYear, money).Ok?
    ensures var rows := AmortizationSpec(details, life, thisYear, money).value.rows;
      rows != [] ==>
        "sold_price" in details && IntOf(details["sold_price"]).Ok? &&
        var price := IntOf(details["sold_price"]).value as real;
        |rows| <= life && rows[0].begin == price &&
        (forall i :: 0 < i < |rows| ==> rows[i].begin == rows[i - 1].end) &&
        TotalDepreciation(rows) == -price && rows[|rows| - 1].end == 0.0
  {
    var rows := AmortizationSpec(details, life, thisYear, money).value.rows;
    if rows != [] {
      var year := IntOf(details["year"]).value;
      var original := IntOf(details["sold_price"]).value;
      var bought := Purchase(details, year).value;
      var l := Remaining(year, bought.0, life, thisYear).value;
      var deps := Deps(l.years, Tri(l.years) as real, original as real);
      assert rows == Rows(l.first, original as real, deps);
      RowsShape(l.first, original as real, deps);
      RowsChained(l.first, original as real, deps);
      FullyDepreciated(l.first, original as real, l.years);
    }
  }

  /** A tax record as the search returns it: the text of disp_fld1
      (owner), disp_fld2 (address) and source, each possibly None. */
  datatype TaxItem = TaxItem(owner: Option<string>, address: Option<string>, source: Option<string>)

  datatype Parcel = Parcel(owner: Option<string>, street: string, csz: string, source: Option<string>, zillow: bool)

  /** The parcel of one record: the address split at its first comma,
      the street cut at its first colon, both parts stripped. */
  function ParcelOf(item: TaxItem): Result<Parcel> {
    match item.address
    case None => Err(AttributeError("split"))
    case Some(address) =>
      var parts := SplitN(address, ',', 1);
      if |parts| < 2 then Err(ValueError("not enough values to unpack (expected 2, got 1)"))
      else
        var street := SplitN(parts[0], ':', 1)[0];
        Ok(Parcel(item.owner, Strip(street), Strip(parts[1]), item.source, false))
  }

  /** The first n characters of s, n being where c first occurs or |s|. */
  function Before(s: string, c: char): string {
    match Find(s, c)
    case None => s
    case Some(j) => s[..j]
  }

  /** A record yields a parcel exactly when its address has a comma; the
      street is the stripped text before the first comma and before any
      colon in it, so it has neither; the city-state-zip is the stripped
      text after the first comma. */
  lemma ParcelOfMeaning(item: TaxItem)
    ensures ParcelOf(item).Ok? <==> item.address.Some? && ',' in item.address.value
    ensures ParcelOf(item).Ok? ==>
      var a := item.address.value;
      var i := Find(a, ',').value;
      var p := ParcelOf(item).value;
      p.street == Strip(Before(a[..i], ':')) && p.csz == Strip(a[i + 1..]) &&
      ',' !in p.street && ':' !in p.street &&
      p.owner == item.owner && p.source == item.source && !p.zillow
  {
    if item.address.Some? {
      var a := item.address.value;
      match Find(a, ',')
      case None =>
      case Some(i) =>
        SplitNAt(a, ',', 1, i);
        var head := a[..i];
        assert ',' !in head;
        match Find(head, ':')
        case None =>
          StripWithin(head);
        case Some(j) =>
          SplitNAt(head, ':', 1, j);
          StripWithin(head[..j]);
          assert forall c :: c in head[..j] ==> c in head;
    }
  }

  /** The outcome of reading each record. */
  function ReadAll(items: seq<TaxItem>): (r: seq<Result<Parcel>>)
    ensures |r| == |items| && forall i :: 0 <= i < |items| ==> r[i] == ParcelOf(items[i])
  {
    seq(|items|, i requires 0 <= i < |items| => ParcelOf(items[i]))
  }

  /** The parcels of all the outcomes, in order, or the first error. */
  function Collect(rs: seq<Result<Parcel>>): Result<seq<Parcel>> {
    if rs == [] then Ok([])
    else match Collect(rs[..|rs| - 1])
      case Err(e) => Err(e)
      case Ok(ps) =>
        match rs[|rs| - 1]
        case Err(e) => Err(e)
        case Ok(p) => Ok(ps + [p])
  }

  /** [parcel for parcel in results if parcel['street'] != '']. */
  function WithStreet(ps: seq<Parcel>): (r: seq<Parcel>)
    ensures forall p :: p in r <==> p in ps && p.street != []
    ensures |r| <= |ps|
  {
    if ps == [] then []
    else
      assert forall p :: p in ps <==> p == ps[0] || p in ps[1..];
      (if ps[0].street != [] then [ps[0]] else []) + WithStreet(ps[1..])
  }

  /** tax_records once the search has answered: None for the bare empty
      list returned on failure, else the parcels with a street. */
  function TaxSpec(success: bool, items: seq<TaxItem>): Result<Option<seq<Parcel>>> {
    if !success then Ok(None)
    else match Collect(ReadAll(items))
      case Err(e) => Err(e)
      case Ok(ps) => Ok(Some(WithStreet(ps)))
  }

  /** tax_records; the search and the XPath lookup are its inputs. */
  method TaxRecords(success: bool, items: seq<TaxItem>) returns (r: Result<Option<seq<Parcel>>>)
    ensures r == TaxSpec(success, items)
  {
    if !success {
      return Ok(None);
    }
    ghost var outs := ReadAll(items);
    var results: seq<Parcel> := [];
    for i := 0 to |items|
      invariant Collect(outs[..i]) == Ok(results)
    {
      assert outs[..i + 1][..i] == outs[..i];
      var parcel := ParcelOf(items[i]);
      if parcel.Err? {
        CollectErr(outs, i + 1);
        return Err(parcel.error);
      }
      results := results + [parcel.value];
    }
    assert outs[..|items|] == outs;
    return Ok(Some(WithStreet(results)));
  }

  /** Once a prefix fails, the whole list fails the same way. */
  lemma {:induction false} CollectErr(rs: seq<Result<Parcel>>, n: nat)
    requires n <= |rs| && Collect(rs[..n]).Err?
    ensures Collect(rs) == Collect(rs[..n])
    decreases |rs| - n
  {
    if n < |rs| {
      assert rs[..n + 1][..n] == rs[..n];
      CollectErr(rs, n + 1);
    } else {
      assert rs[..n] == rs;
    }
  }

  /** The outcomes succeed together or not at all, and then give the
      values in order. */
  lemma {:induction false} CollectMeaning(rs: seq<Result<Parcel>>)
    ensures Collect(rs).Ok? <==> forall i :: 0 <= i < |rs| ==> rs[i].Ok?
    ensures Collect(rs).Ok? ==> |Collect(rs).value| == |rs| && forall i :: 0 <= i < |rs| ==> Collect(rs).value[i] == rs[i].value
  {
    if rs != [] {
      var init := rs[..|rs| - 1];
      CollectMeaning(init);
      assert forall i :: 0 <= i < |init| ==> init[i] == rs[i];
    }
  }

  /** A successful search answers one parcel per record and keeps exactly
      those with a non-empty street; it raises if any record cannot be read
      (by ParcelOfMeaning, one whose address has no comma). */
  lemma TaxMeaning(items: seq<TaxItem>)
    ensures TaxSpec(true, items).Ok? <==> forall i :: 0 <= i < |items| ==> ParcelOf(items[i]).Ok?
    ensures TaxSpec(true, items).Ok? ==>
      var answer := TaxSpec(true, items).value.value;
      forall p :: p in answer <==> p.street != [] && exists i :: 0 <= i < |items| && ParcelOf(items[i]) == Ok(p)
  {
    var outs := ReadAll(items);
    CollectMeaning(outs);
    if Collect(outs).Ok? {
      var ps := Collect(outs).value;
      assert forall p :: p in ps <==> exists i :: 0 <= i < |items| && ParcelOf(items[i]) == Ok(p) by {
        forall p | p in ps ensures exists i :: 0 <= i < |items| && ParcelOf(items[i]) == Ok(p) {
          var i :| 0 <= i < |ps| && ps[i] == p;
          assert ParcelOf(items[i]) == Ok(p);
        }
        forall p | exists i :: 0 <= i < |items| && ParcelOf(items[i]) == Ok(p) ensures p in ps {
          var i :| 0 <= i < |items| && ParcelOf(items[i]) == Ok(p);
          assert ps[i] == p;
        }
      }
    }
  }
}

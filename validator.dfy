/**
 * The record validator of the import modal (validateData, validatePOIData,
 * validateEventData): every rule runs on every row, and the errors come out in row
 * order, then in rule order within a row. No rule stops the others.
 */
module Validator {
  import opened Values
  import opened Text
  import opened Cells
  import opened Decoder

  /** One validation error; Message() is the text the modal lists. */
  datatype Issue =
    | Required(row: nat, field: string)
    | UnknownCategory(row: nat, given: string, available: seq<string>)
    | InvalidLatitude(row: nat)
    | InvalidLongitude(row: nat)
    | InvalidStartDate(row: nat)
    | InvalidEndDate(row: nat)
    | EndNotAfterStart(row: nat)
  {
    function Message(): (m: string)
      ensures var prefix := "Row " + NatText(row) + ": "; |prefix| < |m| && m[..|prefix|] == prefix
    {
      var prefix := "Row " + NatText(row) + ": ";
      match this
      case Required(_, field) => prefix + field + " is required"
      case UnknownCategory(_, given, available) =>
        prefix + "Category \"" + given + "\" not found. Available: " + Join(available, ", ")
      case InvalidLatitude(_) => prefix + "Invalid latitude. Must be between -90 and 90"
      case InvalidLongitude(_) => prefix + "Invalid longitude. Must be between -180 and 180"
      case InvalidStartDate(_) => prefix + "Invalid start date format. Use YYYY-MM-DD HH:mm:ss"
      case InvalidEndDate(_) => prefix + "Invalid end date format. Use YYYY-MM-DD HH:mm:ss"
      case EndNotAfterStart(_) => prefix + "End date must be after start date"
    }
  }

  const PoiRequired: seq<string> := ["Name*", "Description*", "Category*", "Latitude*", "Longitude*"]
  const EventRequired: seq<string> := ["Title*", "Description*", "Location*", "Start Date*", "End Date*"]

  /** `row[key]`: undefined when the file had no such header. */
  function Get(row: Row, key: string): Cell {
    if key in row.fields then row.fields[key] else Undefined
  }

  /** `!v || v.toString().trim() === ''`. */
  function IsMissing(host: Host, v: Cell): (b: bool)
    ensures b <==> !Truthy(v) || IsBlank(Show(host, v))
  {
    TrimShape(Show(host, v));
    !Truthy(v) || |Trim(Show(host, v))| == 0
  }

  /** One "is required" error per missing field, in the order the fields are listed. */
  function RequiredIssues(host: Host, row: Row, fields: seq<string>): (r: seq<Issue>)
    ensures |r| <= |fields|
    ensures forall x :: x in r ==> x.Required? && x.row == row.originalIndex && x.field in fields
    decreases |fields|
  {
    if |fields| == 0 then []
    else
      var f := fields[|fields| - 1];
      RequiredIssues(host, row, fields[..|fields| - 1])
        + (if IsMissing(host, Get(row, f)) then [Required(row.originalIndex, f)] else [])
  }

  function CategoryNames(cats: seq<Category>): (names: seq<string>)
    ensures |names| == |cats| && forall i :: 0 <= i < |cats| ==> names[i] == cats[i].name
  {
    seq(|cats|, i requires 0 <= i < |cats| => cats[i].name)
  }

  /** `categories.map(cat => cat.name.toLowerCase())`. */
  function LowerNames(cats: seq<Category>): (names: seq<string>)
    ensures |names| == |cats| && forall i :: 0 <= i < |cats| ==> names[i] == Lower(cats[i].name)
  {
    seq(|cats|, i requires 0 <= i < |cats| => Lower(cats[i].name))
  }

  /** A category cell that is set but names no category, ignoring the case of A to Z. */
  function Unresolved(host: Host, cats: seq<Category>, v: Cell): (b: bool)
    ensures b <==> Truthy(v) && Lower(Show(host, v)) !in LowerNames(cats)
  {
    Truthy(v) && forall i :: 0 <= i < |cats| ==> Lower(cats[i].name) != Lower(Show(host, v))
  }

  function CategoryIssues(host: Host, cats: seq<Category>, row: Row): (r: seq<Issue>)
    ensures |r| <= 1
    ensures forall x :: x in r ==>
      x == UnknownCategory(row.originalIndex, Show(host, Get(row, "Category*")), CategoryNames(cats))
  {
    var v := Get(row, "Category*");
    if Truthy(v) && Lower(Show(host, v)) !in LowerNames(cats)
    then [UnknownCategory(row.originalIndex, Show(host, v), CategoryNames(cats))]
    else []
  }

  /** A parsed number within [lo, hi]; NaN is in no range. */
  predicate InRange(o: Option<real>, lo: real, hi: real) {
    o.Some? && lo <= o.value <= hi
  }

  function CoordinateIssues(host: Host, row: Row): seq<Issue> {
    CoordinateChecks(ParseFloat(host, Get(row, "Latitude*")), ParseFloat(host, Get(row, "Longitude*")), row.originalIndex)
  }

  /** The coordinate rules on the parsed values. */
  function CoordinateChecks(lat: Option<real>, lng: Option<real>, n: nat): (r: seq<Issue>)
    ensures |r| <= 2
    ensures forall x :: x in r ==> x == InvalidLatitude(n) || x == InvalidLongitude(n)
  {
    (if !InRange(lat, -90.0, 90.0) then [InvalidLatitude(n)] else [])
      + (if !InRange(lng, -180.0, 180.0) then [InvalidLongitude(n)] else [])
  }

  function PoiRowIssues(host: Host, cats: seq<Category>, row: Row): (r: seq<Issue>)
    ensures |r| <= |PoiRequired| + 3
  {
    RequiredIssues(host, row, PoiRequired) + CategoryIssues(host, cats, row) + CoordinateIssues(host, row)
  }

  /** The date rules; a comparison with an Invalid Date (NaN) is false. */
  function DateIssues(host: Host, row: Row): seq<Issue> {
    DateChecks(NewDate(host, Get(row, "Start Date*")), NewDate(host, Get(row, "End Date*")), row.originalIndex)
  }

  function DateChecks(start: Option<int>, end: Option<int>, n: nat): (r: seq<Issue>)
    ensures |r| <= 3
    ensures forall x :: x in r ==> x == InvalidStartDate(n) || x == InvalidEndDate(n) || x == EndNotAfterStart(n)
  {
    (if start.None? then [InvalidStartDate(n)] else [])
      + (if end.None? then [InvalidEndDate(n)] else [])
      + (if start.Some? && end.Some? && start.value >= end.value then [EndNotAfterStart(n)] else [])
  }

  function EventRowIssues(host: Host, row: Row): (r: seq<Issue>)
    ensures |r| <= |EventRequired| + 3
  {
    RequiredIssues(host, row, EventRequired) + DateIssues(host, row)
  }

  /** The errors of consecutive rows, one after another, each row checked by `check`. */
  function Collect(check: Row -> seq<Issue>, rows: seq<Row>): seq<Issue>
    decreases |rows|
  {
    if |rows| == 0 then [] else Collect(check, rows[..|rows| - 1]) + check(rows[|rows| - 1])
  }

  function PoiIssues(host: Host, cats: seq<Category>, rows: seq<Row>): seq<Issue> {
    Collect(row => PoiRowIssues(host, cats, row), rows)
  }

  function EventIssues(host: Host, rows: seq<Row>): seq<Issue> {
    Collect(row => EventRowIssues(host, row), rows)
  }

  function ValidateData(host: Host, kind: Kind, cats: seq<Category>, rows: seq<Row>): (r: seq<Issue>)
    ensures r == [] <==> forall k :: 0 <= k < |rows| ==>
      if kind == PoiKind then PoiRowIssues(host, cats, rows[k]) == [] else EventRowIssues(host, rows[k]) == []
  {
    PoiIssuesEmptyIff(host, cats, rows);
    EventIssuesEmptyIff(host, rows);
    match kind
    case PoiKind => PoiIssues(host, cats, rows)
    case EventKind => EventIssues(host, rows)
  }

  /** `requiredFields.forEach(...)`: one "is required" error per missing field. */
  method CheckRequired(host: Host, row: Row, fields: seq<string>) returns (found: seq<Issue>)
    ensures found == RequiredIssues(host, row, fields)
  {
    found := [];
    var f := 0;
    while f < |fields|
      invariant f <= |fields|
      invariant found == RequiredIssues(host, row, fields[..f])
    {
      var field := fields[f];
      var v := Get(row, field);
      if !Truthy(v) || |Trim(Show(host, v))| == 0 {
        found := found + [Required(row.originalIndex, field)];
      }
      assert fields[..f + 1][..f] == fields[..f];
      f := f + 1;
    }
    assert fields[..f] == fields;
  }

  /** The rules validatePOIData applies to one row, pushed in the order the source
      checks them: required fields, then the category, then the two coordinates. */
  method CheckPoiRow(host: Host, cats: seq<Category>, names: seq<string>, row: Row) returns (found: seq<Issue>)
    requires names == LowerNames(cats)
    ensures found == PoiRowIssues(host, cats, row)
  {
    var n := row.originalIndex;
    var missing := CheckRequired(host, row, PoiRequired);
    var unknown: seq<Issue> := [];
    var category := Get(row, "Category*");
    if Truthy(category) {
      var name := Lower(Show(host, category));
      if name !in names {
        unknown := [UnknownCategory(n, Show(host, category), CategoryNames(cats))];
      }
    }
    var latitude: seq<Issue> := [];
    var longitude: seq<Issue> := [];
    var lat := ParseFloat(host, Get(row, "Latitude*"));
    var lng := ParseFloat(host, Get(row, "Longitude*"));
    if lat.None? || lat.value < -90.0 || lat.value > 90.0 {
      latitude := [InvalidLatitude(n)];
    }
    if lng.None? || lng.value < -180.0 || lng.value > 180.0 {
      longitude := [InvalidLongitude(n)];
    }
    found := missing + unknown + (latitude + longitude);
  }

  /** The rules validateEventData applies to one row: required fields, the two date
      formats, then the order of the dates. */
  method CheckEventRow(host: Host, row: Row) returns (found: seq<Issue>)
    ensures found == EventRowIssues(host, row)
  {
    var n := row.originalIndex;
    var missing := CheckRequired(host, row, EventRequired);
    var startFormat: seq<Issue> := [];
    var endFormat: seq<Issue> := [];
    var order: seq<Issue> := [];
    var start := NewDate(host, Get(row, "Start Date*"));
    var end := NewDate(host, Get(row, "End Date*"));
    if start.None? {
      startFormat := [InvalidStartDate(n)];
    }
    if end.None? {
      endFormat := [InvalidEndDate(n)];
    }
    if start.Some? && end.Some? && start.value >= end.value {
      order := [EndNotAfterStart(n)];
    }
    found := missing + (startFormat + endFormat + order);
  }

  /** Checking one more row appends its errors. */
  lemma CollectSnoc(check: Row -> seq<Issue>, rows: seq<Row>, k: nat)
    requires k < |rows|
    ensures Collect(check, rows[..k + 1]) == Collect(check, rows[..k]) + check(rows[k])
  {
    assert rows[..k + 1][..k] == rows[..k];
  }

  /** validatePOIData: every row is checked, onto one error list. */
  method ValidatePoiData(host: Host, cats: seq<Category>, rows: seq<Row>) returns (errors: seq<Issue>)
    ensures errors == PoiIssues(host, cats, rows)
  {
    var names := LowerNames(cats);
    errors := [];
    var k := 0;
    while k < |rows|
      invariant k <= |rows|
      invariant errors == PoiIssues(host, cats, rows[..k])
    {
      var found := CheckPoiRow(host, cats, names, rows[k]);
      CollectSnoc(row => PoiRowIssues(host, cats, row), rows, k);
      errors := errors + found;
      k := k + 1;
    }
    assert rows[..k] == rows;
  }

  /** validateEventData: the same loop shape with the event rules. */
  method ValidateEventData(host: Host, rows: seq<Row>) returns (errors: seq<Issue>)
    ensures errors == EventIssues(host, rows)
  {
    errors := [];
    var k := 0;
    while k < |rows|
      invariant k <= |rows|
      invariant errors == EventIssues(host, rows[..k])
    {
      var found := CheckEventRow(host, rows[k]);
      CollectSnoc(row => EventRowIssues(host, row), rows, k);
      errors := errors + found;
      k := k + 1;
    }
    assert rows[..k] == rows;
  }

  /** validateData: the rules of the modal's record kind, on a fresh error list. */
  method ValidateRows(host: Host, kind: Kind, cats: seq<Category>, rows: seq<Row>) returns (errors: seq<Issue>)
    ensures errors == ValidateData(host, kind, cats, rows)
  {
    if kind == PoiKind {
      errors := ValidatePoiData(host, cats, rows);
    } else {
      errors := ValidateEventData(host, rows);
    }
  }

  // ---------------------------------------------------------------------------
  // The list as a whole

  /** No rows, no errors. */
  lemma NoRowsNoIssues(host: Host, kind: Kind, cats: seq<Category>)
    ensures ValidateData(host, kind, cats, []) == []
  {
  }

  /** The list is empty exactly when no row has an error. */
  lemma {:induction false} CollectEmptyIff(check: Row -> seq<Issue>, rows: seq<Row>)
    ensures Collect(check, rows) == [] <==> forall k :: 0 <= k < |rows| ==> check(rows[k]) == []
    decreases |rows|
  {
    if |rows| > 0 {
      var init := rows[..|rows| - 1];
      CollectEmptyIff(check, init);
      assert forall k :: 0 <= k < |init| ==> init[k] == rows[k];
    }
  }

  /** An error is in the list exactly when it is an error of some row. */
  lemma {:induction false} CollectMembers(check: Row -> seq<Issue>, rows: seq<Row>, x: Issue)
    ensures x in Collect(check, rows) <==> exists k :: 0 <= k < |rows| && x in check(rows[k])
    decreases |rows|
  {
    if |rows| > 0 {
      var init := rows[..|rows| - 1];
      CollectMembers(check, init, x);
      if x in Collect(check, rows) && x !in Collect(check, init) {
        assert x in check(rows[|rows| - 1]);
      }
      if exists k :: 0 <= k < |init| && x in check(init[k]) {
        var k :| 0 <= k < |init| && x in check(init[k]);
        assert init[k] == rows[k];
      }
    }
  }

  /** When every error of a row carries that row's number and the numbers do not
      decrease, the list is ordered by row number. */
  lemma {:induction false} CollectSortedByRow(check: Row -> seq<Issue>, rows: seq<Row>)
    requires forall k, x :: 0 <= k < |rows| && x in check(rows[k]) ==> x.row == rows[k].originalIndex
    requires forall k, l :: 0 <= k < l < |rows| ==> rows[k].originalIndex <= rows[l].originalIndex
    ensures forall i, j :: 0 <= i < j < |Collect(check, rows)| ==> Collect(check, rows)[i].row <= Collect(check, rows)[j].row
    ensures |rows| > 0 ==> forall x :: x in Collect(check, rows) ==> x.row <= rows[|rows| - 1].originalIndex
    decreases |rows|
  {
    if |rows| > 0 {
      var n := |rows| - 1;
      var init := rows[..n];
      assert forall k :: 0 <= k < n ==> init[k] == rows[k];
      CollectSortedByRow(check, init);
      var c: seq<Issue>, last: seq<Issue> := Collect(check, init), check(rows[n]);
      assert Collect(check, rows) == c + last;
      forall x: Issue | x in c + last ensures x.row <= rows[n].originalIndex {
        if x in c {
          assert n > 0;
        } else {
          assert x in last;
        }
      }
      forall i, j | 0 <= i < j < |c + last| ensures (c + last)[i].row <= (c + last)[j].row {
        if j >= |c| {
          assert (c + last)[j] in last;
          if i < |c| {
            assert (c + last)[i] in c;
            assert init[n - 1] == rows[n - 1];
          } else {
            assert (c + last)[i] in last;
            assert (c + last)[i].row == rows[n].originalIndex;
          }
          assert (c + last)[j].row == rows[n].originalIndex;
        } else {
          assert (c + last)[i] == c[i] && (c + last)[j] == c[j];
          assert c[i].row <= c[j].row;
        }
      }
    }
  }

  lemma PoiIssuesEmptyIff(host: Host, cats: seq<Category>, rows: seq<Row>)
    ensures PoiIssues(host, cats, rows) == [] <==>
      forall k :: 0 <= k < |rows| ==> PoiRowIssues(host, cats, rows[k]) == []
  {
    CollectEmptyIff(row => PoiRowIssues(host, cats, row), rows);
  }

  lemma EventIssuesEmptyIff(host: Host, rows: seq<Row>)
    ensures EventIssues(host, rows) == [] <==> forall k :: 0 <= k < |rows| ==> EventRowIssues(host, rows[k]) == []
  {
    CollectEmptyIff(row => EventRowIssues(host, row), rows);
  }

  /** Every error of a row carries that row's number. */
  lemma RowIssuesCarryRow(host: Host, cats: seq<Category>, row: Row)
    ensures forall x :: x in PoiRowIssues(host, cats, row) ==> x.row == row.originalIndex
    ensures forall x :: x in EventRowIssues(host, row) ==> x.row == row.originalIndex
  {
    PoiIssuesCarryRow(host, cats, row);
    EventIssuesCarryRow(host, row);
  }

  lemma PoiIssuesCarryRow(host: Host, cats: seq<Category>, row: Row)
    ensures forall x :: x in PoiRowIssues(host, cats, row) ==> x.row == row.originalIndex
  {
    var required := RequiredIssues(host, row, PoiRequired);
    var category := CategoryIssues(host, cats, row);
    var coordinates := CoordinateIssues(host, row);
    assert forall x :: x in category ==> x.row == row.originalIndex;
    assert forall x :: x in coordinates ==> x.row == row.originalIndex;
    assert PoiRowIssues(host, cats, row) == required + category + coordinates;
  }

  lemma EventIssuesCarryRow(host: Host, row: Row)
    ensures forall x :: x in EventRowIssues(host, row) ==> x.row == row.originalIndex
  {
    var required := RequiredIssues(host, row, EventRequired);
    var dates := DateIssues(host, row);
    assert forall x :: x in dates ==> x.row == row.originalIndex;
    assert EventRowIssues(host, row) == required + dates;
  }

  /** Decoded rows have increasing numbers, so the errors of a decoded file come out
      ordered by row number, for either record kind. */
  lemma DecodedIssuesInRowOrder(host: Host, kind: Kind, cats: seq<Category>, grid: Grid)
    requires Decode(host, grid).Success?
    ensures var issues := ValidateData(host, kind, cats, Decode(host, grid).value);
      forall i, j :: 0 <= i < j < |issues| ==> issues[i].row <= issues[j].row
  {
    var rows := Decode(host, grid).value;
    assert forall k :: 0 <= k < |rows| ==> rows[k].originalIndex == k + 2;
    if kind == PoiKind {
      forall k | 0 <= k < |rows|
        ensures forall x :: x in PoiRowIssues(host, cats, rows[k]) ==> x.row == rows[k].originalIndex
      {
        PoiIssuesCarryRow(host, cats, rows[k]);
      }
      CollectSortedByRow(row => PoiRowIssues(host, cats, row), rows);
    } else {
      forall k | 0 <= k < |rows|
        ensures forall x :: x in EventRowIssues(host, rows[k]) ==> x.row == rows[k].originalIndex
      {
        EventIssuesCarryRow(host, rows[k]);
      }
      CollectSortedByRow(row => EventRowIssues(host, row), rows);
    }
  }

  // ---------------------------------------------------------------------------
  // Required fields

  /** Over a list without repeats, each field contributes exactly one error when it is
      missing and none otherwise. */
  lemma {:induction false} RequiredIssuesCount(host: Host, row: Row, fields: seq<string>, f: string)
    requires forall i, j :: 0 <= i < j < |fields| ==> fields[i] != fields[j]
    ensures multiset(RequiredIssues(host, row, fields))[Required(row.originalIndex, f)]
      == if f in fields && IsMissing(host, Get(row, f)) then 1 else 0
    decreases |fields|
  {
    if |fields| > 0 {
      var init := fields[..|fields| - 1];
      RequiredIssuesCount(host, row, init, f);
      assert f in fields <==> f in init || f == fields[|fields| - 1];
      if f == fields[|fields| - 1] {
        assert f !in init;
      }
    }
  }

  lemma RequiredFieldsDistinct()
    ensures forall i, j :: 0 <= i < j < |PoiRequired| ==> PoiRequired[i] != PoiRequired[j]
    ensures forall i, j :: 0 <= i < j < |EventRequired| ==> EventRequired[i] != EventRequired[j]
  {
    assert PoiRequired[0][0] == 'N' && PoiRequired[1][0] == 'D' && PoiRequired[2][0] == 'C';
    assert PoiRequired[3][0] == 'L' && PoiRequired[3][1] == 'a' && PoiRequired[4][1] == 'o';
    assert EventRequired[0][0] == 'T' && EventRequired[1][0] == 'D' && EventRequired[2][0] == 'L';
    assert EventRequired[3][0] == 'S' && EventRequired[4][0] == 'E';
  }

  /** Each listed field that is absent, falsy or blank after trimming yields exactly one
      "is required" error, and a present field yields none. */
  lemma PoiRequiredErrors(host: Host, cats: seq<Category>, row: Row, f: string)
    requires f in PoiRequired
    ensures multiset(PoiRowIssues(host, cats, row))[Required(row.originalIndex, f)]
      == if IsMissing(host, Get(row, f)) then 1 else 0
  {
    var y := Required(row.originalIndex, f);
    var required := RequiredIssues(host, row, PoiRequired);
    var rest := CategoryIssues(host, cats, row) + CoordinateIssues(host, row);
    calc {
      multiset(PoiRowIssues(host, cats, row))[y];
      { assert PoiRowIssues(host, cats, row) == required + rest; }
      multiset(required + rest)[y];
      { RequiredOnlyFirst(required, rest, y); }
      multiset(required)[y];
      { RequiredFieldsDistinct(); RequiredIssuesCount(host, row, PoiRequired, f); }
      if IsMissing(host, Get(row, f)) then 1 else 0;
    }
  }

  lemma EventRequiredErrors(host: Host, row: Row, f: string)
    requires f in EventRequired
    ensures multiset(EventRowIssues(host, row))[Required(row.originalIndex, f)]
      == if IsMissing(host, Get(row, f)) then 1 else 0
  {
    var y := Required(row.originalIndex, f);
    var required := RequiredIssues(host, row, EventRequired);
    var rest := DateIssues(host, row);
    calc {
      multiset(EventRowIssues(host, row))[y];
      { assert EventRowIssues(host, row) == required + rest; }
      multiset(required + rest)[y];
      { RequiredOnlyFirst(required, rest, y); }
      multiset(required)[y];
      { RequiredFieldsDistinct(); RequiredIssuesCount(host, row, EventRequired, f); }
      if IsMissing(host, Get(row, f)) then 1 else 0;
    }
  }

  /** Rules that yield no "is required" errors do not change how often one occurs. */
  lemma RequiredOnlyFirst(required: seq<Issue>, rest: seq<Issue>, y: Issue)
    requires y.Required?
    requires forall x :: x in rest ==> !x.Required?
    ensures multiset(required + rest)[y] == multiset(required)[y]
  {
    assert y !in rest;
  }

  /** A row missing two required fields gets two errors, one per field. */
  lemma NoShortCircuit(host: Host, cats: seq<Category>, row: Row)
    requires Get(row, "Name*") == Str("") && Get(row, "Description*") == Undefined
    ensures Required(row.originalIndex, "Name*") in PoiRowIssues(host, cats, row)
    ensures Required(row.originalIndex, "Description*") in PoiRowIssues(host, cats, row)
  {
    PoiRequiredErrors(host, cats, row, "Name*");
    PoiRequiredErrors(host, cats, row, "Description*");
  }

  // ---------------------------------------------------------------------------
  // Category

  /** The unknown-category error appears exactly when the category is set and matches
      no category name case-insensitively, and then exactly once. */
  lemma UnknownCategoryIff(host: Host, cats: seq<Category>, row: Row)
    ensures var v := Get(row, "Category*");
      var u := UnknownCategory(row.originalIndex, Show(host, v), CategoryNames(cats));
      && (u in PoiRowIssues(host, cats, row) <==> Unresolved(host, cats, v))
      && multiset(PoiRowIssues(host, cats, row))[u] == (if Unresolved(host, cats, v) then 1 else 0)
      && (forall x :: x in PoiRowIssues(host, cats, row) && x.UnknownCategory? ==> x == u)
  {
    var v := Get(row, "Category*");
    var u := UnknownCategory(row.originalIndex, Show(host, v), CategoryNames(cats));
    var required := RequiredIssues(host, row, PoiRequired);
    var coordinates := CoordinateIssues(host, row);
    assert forall x :: x in coordinates ==> x.InvalidLatitude? || x.InvalidLongitude?;
    CategoryIssuesShape(host, cats, row);
    OnlyInMiddle(required, CategoryIssues(host, cats, row), coordinates, u);
  }

  /** The category rule yields the unknown-category error when the cell is unresolved,
      and nothing otherwise. */
  lemma CategoryIssuesShape(host: Host, cats: seq<Category>, row: Row)
    ensures var v := Get(row, "Category*");
      CategoryIssues(host, cats, row)
      == if Unresolved(host, cats, v) then [UnknownCategory(row.originalIndex, Show(host, v), CategoryNames(cats))] else []
  {
    var v := Get(row, "Category*");
    var names := LowerNames(cats);
    if Lower(Show(host, v)) in names {
      var i :| 0 <= i < |names| && names[i] == Lower(Show(host, v));
      assert Lower(cats[i].name) == Lower(Show(host, v));
    }
  }

  /** Errors of another kind before and after a part do not change how often, or
      whether, an error of that part's kind occurs. */
  lemma OnlyInMiddle(before: seq<Issue>, middle: seq<Issue>, after: seq<Issue>, u: Issue)
    requires forall x :: x in before ==> x.Required?
    requires forall x :: x in after ==> !x.Required? && !x.UnknownCategory?
    requires u.UnknownCategory?
    ensures multiset(before + middle + after)[u] == multiset(middle)[u]
    ensures u in before + middle + after <==> u in middle
    ensures forall x :: x in before + middle + after && x.UnknownCategory? ==> x in middle
  {
    OnlyRequiredIssues(before, u);
    assert u !in after;
  }

  /** An empty category cell yields the "is required" error and no unknown-category error. */
  lemma EmptyCategoryOnlyRequired(host: Host, cats: seq<Category>, row: Row)
    requires Get(row, "Category*") == Str("")
    ensures Required(row.originalIndex, "Category*") in PoiRowIssues(host, cats, row)
    ensures forall x :: x in PoiRowIssues(host, cats, row) ==> !x.UnknownCategory?
  {
    PoiRequiredErrors(host, cats, row, "Category*");
    UnknownCategoryIff(host, cats, row);
    assert !Unresolved(host, cats, Str(""));
  }

  lemma LowerLibrary()
    ensures Lower("LIBRARY") == Lower("Library")
  {
  }

  /** "LIBRARY" names the category "Library". */
  lemma CategoryCaseInsensitive(host: Host, cats: seq<Category>, row: Row)
    requires Get(row, "Category*") == Str("LIBRARY")
    requires exists i :: 0 <= i < |cats| && cats[i].name == "Library"
    ensures forall x :: x in PoiRowIssues(host, cats, row) ==> !x.UnknownCategory?
  {
    var i :| 0 <= i < |cats| && cats[i].name == "Library";
    LowerLibrary();
    assert !Unresolved(host, cats, Str("LIBRARY"));
    UnknownCategoryIff(host, cats, row);
    var u := UnknownCategory(row.originalIndex, Show(host, Str("LIBRARY")), CategoryNames(cats));
    assert u !in PoiRowIssues(host, cats, row);
  }

  // ---------------------------------------------------------------------------
  // Coordinates

  /** The latitude error appears, once, exactly when the latitude does not parse to a
      number in [-90, 90]; the longitude error likewise for [-180, 180]. */
  lemma CoordinateErrorsIff(host: Host, cats: seq<Category>, row: Row)
    ensures var n := row.originalIndex;
      var issues := PoiRowIssues(host, cats, row);
      var lat := ParseFloat(host, Get(row, "Latitude*"));
      var lng := ParseFloat(host, Get(row, "Longitude*"));
      && multiset(issues)[InvalidLatitude(n)] == (if lat.Some? && -90.0 <= lat.value <= 90.0 then 0 else 1)
      && multiset(issues)[InvalidLongitude(n)] == (if lng.Some? && -180.0 <= lng.value <= 180.0 then 0 else 1)
  {
    var n := row.originalIndex;
    var required := RequiredIssues(host, row, PoiRequired);
    var category := CategoryIssues(host, cats, row);
    var lat := ParseFloat(host, Get(row, "Latitude*"));
    var lng := ParseFloat(host, Get(row, "Longitude*"));
    assert PoiRowIssues(host, cats, row) == required + category + CoordinateChecks(lat, lng, n);
    assert forall x :: x in category ==> x.UnknownCategory?;
    CoordinateCounts(required, category, lat, lng, n);
  }

  /** Behind the required-field and category errors, the coordinate rules contribute the
      only coordinate errors. */
  lemma CoordinateCounts(required: seq<Issue>, category: seq<Issue>, lat: Option<real>, lng: Option<real>, n: nat)
    requires forall x :: x in required ==> x.Required?
    requires forall x :: x in category ==> x.UnknownCategory?
    ensures var issues := required + category + CoordinateChecks(lat, lng, n);
      && multiset(issues)[InvalidLatitude(n)] == (if InRange(lat, -90.0, 90.0) then 0 else 1)
      && multiset(issues)[InvalidLongitude(n)] == (if InRange(lng, -180.0, 180.0) then 0 else 1)
  {
    OnlyRequiredIssues(required, InvalidLatitude(n));
    OnlyRequiredIssues(required, InvalidLongitude(n));
    assert InvalidLatitude(n) !in category && InvalidLongitude(n) !in category;
  }

  lemma OnlyRequiredIssues(xs: seq<Issue>, y: Issue)
    requires forall x :: x in xs ==> x.Required?
    requires !y.Required?
    ensures multiset(xs)[y] == 0
  {
  }

  /** A blank latitude is both required and invalid. */
  lemma BlankLatitudeBothErrors(host: Host, cats: seq<Category>, row: Row)
    requires var v := Get(row, "Latitude*"); v == Undefined || (v.Str? && IsBlank(v.s))
    ensures Required(row.originalIndex, "Latitude*") in PoiRowIssues(host, cats, row)
    ensures InvalidLatitude(row.originalIndex) in PoiRowIssues(host, cats, row)
  {
    var v := Get(row, "Latitude*");
    TrimShape(Show(host, v));
    assert IsMissing(host, v);
    PoiRequiredErrors(host, cats, row, "Latitude*");
    CoordinateErrorsIff(host, cats, row);
  }

  /** A latitude of 0 in a spreadsheet cell is falsy, so the decoder stores '' for it and
      the row gets both the required error and the latitude error. */
  lemma ZeroLatitudeRejected(host: Host, cats: seq<Category>, headers: seq<Cell>, cells: seq<Cell>, j: nat, n: nat)
    requires j < |headers| && j < |cells|
    requires headers[j] == Str("Latitude*") && cells[j] == Num(0.0)
    requires forall l :: j < l < |headers| ==> HeaderKey(host, headers[l]) != Some("Latitude*")
    ensures var row := Row(FieldsOf(host, headers, cells, |headers|), n);
      && Get(row, "Latitude*") == Str("")
      && Required(n, "Latitude*") in PoiRowIssues(host, cats, row)
      && InvalidLatitude(n) in PoiRowIssues(host, cats, row)
  {
    FieldAtColumn(host, headers, cells, |headers|, j);
    BlankLatitudeBothErrors(host, cats, Row(FieldsOf(host, headers, cells, |headers|), n));
  }

  /** Both ends of each range are accepted and what lies just past them is not. */
  lemma CoordinateBoundaries(host: Host, cats: seq<Category>, row: Row)
    ensures Get(row, "Latitude*") == Num(90.0) ==> InvalidLatitude(row.originalIndex) !in PoiRowIssues(host, cats, row)
    ensures Get(row, "Latitude*") == Num(91.0) ==> InvalidLatitude(row.originalIndex) in PoiRowIssues(host, cats, row)
    ensures Get(row, "Longitude*") == Num(-180.0) ==> InvalidLongitude(row.originalIndex) !in PoiRowIssues(host, cats, row)
    ensures Get(row, "Longitude*") == Num(-181.0) ==> InvalidLongitude(row.originalIndex) in PoiRowIssues(host, cats, row)
  {
    CoordinateErrorsIff(host, cats, row);
  }

  /** A place-of-interest row passes exactly when all five fields are present, its
      category resolves and both coordinates are in range. */
  lemma PoiRowValidIff(host: Host, cats: seq<Category>, row: Row)
    ensures |PoiRowIssues(host, cats, row)| == 0 <==>
      && (forall f :: f in PoiRequired ==> !IsMissing(host, Get(row, f)))
      && !Unresolved(host, cats, Get(row, "Category*"))
      && InRange(ParseFloat(host, Get(row, "Latitude*")), -90.0, 90.0)
      && InRange(ParseFloat(host, Get(row, "Longitude*")), -180.0, 180.0)
  {
    var required := RequiredIssues(host, row, PoiRequired);
    var category := CategoryIssues(host, cats, row);
    var lat := ParseFloat(host, Get(row, "Latitude*"));
    var lng := ParseFloat(host, Get(row, "Longitude*"));
    var coordinates := CoordinateChecks(lat, lng, row.originalIndex);
    assert PoiRowIssues(host, cats, row) == required + category + coordinates;
    if |PoiRowIssues(host, cats, row)| == 0 {
      forall f | f in PoiRequired ensures !IsMissing(host, Get(row, f)) {
        PoiRequiredErrors(host, cats, row, f);
      }
      CategoryIssuesShape(host, cats, row);
    } else if |required| > 0 {
      var x := required[0];
      PoiRequiredErrors(host, cats, row, x.field);
    } else if |category| > 0 {
      CategoryIssuesShape(host, cats, row);
    }
  }

  // ---------------------------------------------------------------------------
  // Dates

  /** Each date that does not parse yields one format error; the ordering error appears,
      once, exactly when both parse and the start is not before the end. */
  lemma DateErrorsIff(host: Host, row: Row)
    ensures var n := row.originalIndex;
      var issues := EventRowIssues(host, row);
      var start := NewDate(host, Get(row, "Start Date*"));
      var end := NewDate(host, Get(row, "End Date*"));
      && multiset(issues)[InvalidStartDate(n)] == (if start.None? then 1 else 0)
      && multiset(issues)[InvalidEndDate(n)] == (if end.None? then 1 else 0)
      && multiset(issues)[EndNotAfterStart(n)] == (if start.Some? && end.Some? && start.value >= end.value then 1 else 0)
  {
    var n := row.originalIndex;
    var required := RequiredIssues(host, row, EventRequired);
    var start := NewDate(host, Get(row, "Start Date*"));
    var end := NewDate(host, Get(row, "End Date*"));
    var dates := DateChecks(start, end, n);
    assert EventRowIssues(host, row) == required + dates;
    DateCheckCounts(start, end, n);
    OnlyRequiredIssues(required, InvalidStartDate(n));
    OnlyRequiredIssues(required, InvalidEndDate(n));
    OnlyRequiredIssues(required, EndNotAfterStart(n));
  }

  lemma DateCheckCounts(start: Option<int>, end: Option<int>, n: nat)
    ensures var issues := DateChecks(start, end, n);
      && multiset(issues)[InvalidStartDate(n)] == (if start.None? then 1 else 0)
      && multiset(issues)[InvalidEndDate(n)] == (if end.None? then 1 else 0)
      && multiset(issues)[EndNotAfterStart(n)] == (if start.Some? && end.Some? && start.value >= end.value then 1 else 0)
  {
  }

  /** Equal start and end times are rejected; an end one second later is accepted. */
  lemma EqualTimesRejected(host: Host, row: Row, t: int)
    requires NewDate(host, Get(row, "Start Date*")) == Some(t)
    ensures NewDate(host, Get(row, "End Date*")) == Some(t) ==> EndNotAfterStart(row.originalIndex) in EventRowIssues(host, row)
    ensures NewDate(host, Get(row, "End Date*")) == Some(t + 1000) ==> EndNotAfterStart(row.originalIndex) !in EventRowIssues(host, row)
  {
    DateErrorsIff(host, row);
  }

  /** An event row passes exactly when all five fields are present, both dates parse
      and the start is strictly before the end. */
  lemma EventRowValidIff(host: Host, row: Row)
    ensures |EventRowIssues(host, row)| == 0 <==>
      && (forall f :: f in EventRequired ==> !IsMissing(host, Get(row, f)))
      && NewDate(host, Get(row, "Start Date*")).Some?
      && NewDate(host, Get(row, "End Date*")).Some?
      && NewDate(host, Get(row, "Start Date*")).value < NewDate(host, Get(row, "End Date*")).value
  {
    var required := RequiredIssues(host, row, EventRequired);
    var start := NewDate(host, Get(row, "Start Date*"));
    var end := NewDate(host, Get(row, "End Date*"));
    var dates := DateChecks(start, end, row.originalIndex);
    assert EventRowIssues(host, row) == required + dates;
    if |EventRowIssues(host, row)| == 0 {
      forall f | f in EventRequired ensures !IsMissing(host, Get(row, f)) {
        EventRequiredErrors(host, row, f);
      }
    } else if |required| > 0 {
      var x := required[0];
      EventRequiredErrors(host, row, x.field);
    }
  }
}

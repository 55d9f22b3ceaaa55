/**
 * The payload mapper of the import modal (formatDataForAPI): one API payload per
 * validated row, in the same order. A place of interest gets its category resolved to
 * an id and its image-URL cell split on commas; an event passes its text fields through
 * and its dates as time values.
 *
 * The mapper runs inside a try block, and three of its expressions can throw: reading
 * `.toString()` of an absent category cell (only once `find` calls its callback, that
 * is when there is at least one category), calling `.split` on a numeric image cell,
 * and `toISOString()` of an Invalid Date. A throw anywhere aborts the whole mapping;
 * the model gives None for it.
 */
module Payload {
  import opened Values
  import opened Text
  import opened Cells
  import opened Decoder
  import opened Validator

  datatype PoiPayload = PoiPayload(
    name: Cell,
    description: Cell,
    categoryId: int,
    location: string,
    imageUrls: seq<string>)

  /** startDate and endDate are the time values whose ISO text the payload carries. */
  datatype EventPayload = EventPayload(
    title: Cell,
    description: Cell,
    location: Cell,
    startDate: int,
    endDate: int,
    imageUrl: Option<Cell>)

  datatype Payload = Poi(poi: PoiPayload) | Event(event: EventPayload)

  const ImageUrlsHeader: string := "Image URLs (comma separated)"
  const ImageUrlHeader: string := "Image URL"

  /** A category whose name, lower-cased, is key. */
  predicate NameMatches(cats: seq<Category>, i: nat, key: string)
    requires i < |cats|
  {
    Lower(cats[i].name) == key
  }

  /** `categories.find(...)`, as the position of the first match from position i on. */
  function FindFrom(cats: seq<Category>, key: string, i: nat): (r: Option<nat>)
    requires i <= |cats|
    ensures r.Some? ==> (i <= r.value < |cats| && NameMatches(cats, r.value, key)
      && forall j :: i <= j < r.value ==> !NameMatches(cats, j, key))
    ensures r.None? ==> forall j :: i <= j < |cats| ==> !NameMatches(cats, j, key)
    decreases |cats| - i
  {
    if i == |cats| then None
    else if NameMatches(cats, i, key) then Some(i)
    else FindFrom(cats, key, i + 1)
  }

  function FindCategory(cats: seq<Category>, key: string): Option<nat> {
    FindFrom(cats, key, 0)
  }

  /** `category?.id || 0`, or None when the lookup throws on an absent cell. An id of 0
      falls back to 0, which is the id itself. */
  function CategoryId(host: Host, cats: seq<Category>, v: Cell): (r: Option<int>)
    ensures r.None? <==> v == Undefined && |cats| > 0
    ensures r.Some? && r.value != 0 ==> exists i :: 0 <= i < |cats| && cats[i].id == r.value
  {
    if v == Undefined then (if |cats| == 0 then Some(0) else None)
    else
      match FindCategory(cats, Lower(Show(host, v)))
      case None => Some(0)
      case Some(i) => Some(cats[i].id)
  }

  /** A number as JSON.stringify writes it; NaN and the infinities become null. */
  function JsonNumber(host: Host, o: Option<real>): string {
    match o
    case None => "null"
    case Some(x) => host.numberText(x)
  }

  /** `JSON.stringify({ lat, lng })`. */
  function LocationJson(host: Host, lat: Option<real>, lng: Option<real>): (r: string)
    ensures |r| > 7 && r[..7] == "{\"lat\":" && r[|r| - 1] == '}'
    ensures lat.None? ==> |r| > 11 && r[7..11] == "null"
  {
    "{\"lat\":" + JsonNumber(host, lat) + ",\"lng\":" + JsonNumber(host, lng) + "}"
  }

  /** The image URLs of a place of interest: none for a falsy cell, the trimmed comma
      separated pieces of a text cell, and None for a number, which has no split. */
  function ImageUrls(v: Cell): (r: Option<seq<string>>)
    ensures r.None? <==> v.Num? && Truthy(v)
    ensures !Truthy(v) ==> r == Some([])
    ensures r.Some? && v.Str? && Truthy(v) ==> |r.value| == |Split(v.s, ',')|
  {
    if !Truthy(v) then Some([])
    else
      match v
      case Str(s) => Some(TrimAll(Split(s, ',')))
      case _ => None
  }

  function FormatPoi(host: Host, cats: seq<Category>, row: Row): (r: Option<PoiPayload>)
    ensures r.Some? <==> CategoryId(host, cats, Get(row, "Category*")).Some? && ImageUrls(Get(row, ImageUrlsHeader)).Some?
  {
    var id := CategoryId(host, cats, Get(row, "Category*"));
    var urls := ImageUrls(Get(row, ImageUrlsHeader));
    if id.None? || urls.None? then None
    else
      var location := LocationJson(host, ParseFloat(host, Get(row, "Latitude*")), ParseFloat(host, Get(row, "Longitude*")));
      Some(PoiPayload(Get(row, "Name*"), Get(row, "Description*"), id.value, location, urls.value))
  }

  function FormatEvent(host: Host, row: Row): (r: Option<EventPayload>)
    ensures r.Some? <==> NewDate(host, Get(row, "Start Date*")).Some? && NewDate(host, Get(row, "End Date*")).Some?
  {
    var start := NewDate(host, Get(row, "Start Date*"));
    var end := NewDate(host, Get(row, "End Date*"));
    if start.None? || end.None? then None
    else
      var image := Get(row, ImageUrlHeader);
      Some(EventPayload(Get(row, "Title*"), Get(row, "Description*"), Get(row, "Location*"),
        start.value, end.value, if Truthy(image) then Some(image) else None))
  }

  /** One row mapped by the modal's record kind: a place of interest or an event payload,
      never the other kind. */
  function FormatRow(host: Host, kind: Kind, cats: seq<Category>, row: Row): (r: Option<Payload>)
    ensures r.Some? ==> (r.value.Poi? <==> kind == PoiKind)
  {
    match kind
    case PoiKind => (match FormatPoi(host, cats, row) case None => None case Some(p) => Some(Poi(p)))
    case EventKind => (match FormatEvent(host, row) case None => None case Some(e) => Some(Event(e)))
  }

  /** `data.map(f)` with an f that may throw: every row mapped, one payload per row in
      the same order, or None as soon as one row throws. */
  function MapRows(f: Row -> Option<Payload>, rows: seq<Row>): (r: Option<seq<Payload>>)
    ensures r.Some? <==> forall k :: 0 <= k < |rows| ==> f(rows[k]).Some?
    ensures r.Some? ==> (|r.value| == |rows| && forall k :: 0 <= k < |rows| ==> Some(r.value[k]) == f(rows[k]))
    decreases |rows|
  {
    if |rows| == 0 then Some([])
    else
      var init := MapRows(f, rows[..|rows| - 1]);
      var last := f(rows[|rows| - 1]);
      if init.None? || last.None? then None else Some(init.value + [last.value])
  }

  /** formatDataForAPI: the rows mapped by the modal's record kind. */
  function FormatForApi(host: Host, kind: Kind, cats: seq<Category>, rows: seq<Row>): (r: Option<seq<Payload>>)
    ensures r.Some? <==> forall k :: 0 <= k < |rows| ==> FormatRow(host, kind, cats, rows[k]).Some?
    ensures r.Some? ==> (|r.value| == |rows|
      && forall k :: 0 <= k < |rows| ==> Some(r.value[k]) == FormatRow(host, kind, cats, rows[k]))
  {
    MapRows(row => FormatRow(host, kind, cats, row), rows)
  }

  // ---------------------------------------------------------------------------
  // Properties of one payload

  /** The category id is the id of the first category whose name matches the cell
      case-insensitively, and 0 when none does. */
  lemma CategoryIdIsFirstMatch(host: Host, cats: seq<Category>, row: Row)
    requires FormatPoi(host, cats, row).Some?
    ensures var key := Lower(Show(host, Get(row, "Category*")));
      var id := FormatPoi(host, cats, row).value.categoryId;
      || (exists i :: 0 <= i < |cats| && NameMatches(cats, i, key)
            && (forall j :: 0 <= j < i ==> !NameMatches(cats, j, key)) && id == cats[i].id)
      || ((forall i :: 0 <= i < |cats| ==> !NameMatches(cats, i, key)) && id == 0)
  {
    var key := Lower(Show(host, Get(row, "Category*")));
    var found := FindCategory(cats, key);
    if found.Some? && Get(row, "Category*") != Undefined {
      var i := found.value;
      assert NameMatches(cats, i, key) && (forall j :: 0 <= j < i ==> !NameMatches(cats, j, key));
    }
  }

  /** The mapper throws for a place of interest exactly when its category cell is absent
      while there are categories, or its image-URL cell is a non-zero number. */
  lemma PoiFormatFailsIff(host: Host, cats: seq<Category>, row: Row)
    ensures FormatPoi(host, cats, row).None? <==>
      (Get(row, "Category*") == Undefined && |cats| > 0)
      || (Get(row, ImageUrlsHeader).Num? && Truthy(Get(row, ImageUrlsHeader)))
  {
  }

  /** A text image cell becomes its comma separated pieces, trimmed: one more URL than there
      are commas, none containing a comma or surrounding white space, and the cell is the
      pieces joined back with commas. A falsy cell gives no URLs. */
  lemma PoiImageUrls(host: Host, cats: seq<Category>, row: Row)
    requires FormatPoi(host, cats, row).Some?
    ensures var v := Get(row, ImageUrlsHeader);
      var urls := FormatPoi(host, cats, row).value.imageUrls;
      && (!Truthy(v) ==> urls == [])
      && (Truthy(v) ==>
            && v.Str?
            && |urls| == 1 + multiset(v.s)[',']
            && Join(Split(v.s, ','), ",") == v.s
            && (forall k :: 0 <= k < |urls| ==> urls[k] == Trim(Split(v.s, ',')[k]))
            && (forall k :: 0 <= k < |urls| ==> ',' !in urls[k] && Trim(urls[k]) == urls[k]))
  {
    var v := Get(row, ImageUrlsHeader);
    if Truthy(v) {
      var pieces := Split(v.s, ',');
      JoinSplit(v.s, ',');
      forall k | 0 <= k < |pieces| ensures ',' !in Trim(pieces[k]) && Trim(Trim(pieces[k])) == Trim(pieces[k]) {
        TrimIdempotent(pieces[k]);
        TrimKeepsOut(pieces[k], ',');
      }
    }
  }

  /** Trimming never brings in a character the string lacks. */
  lemma TrimKeepsOut(s: string, c: char)
    requires c !in s
    ensures c !in Trim(s)
  {
  }

  /** The payload carries the row's name and description cells unchanged, and its location
      is the JSON of the two parsed coordinates. */
  lemma PoiPassesThrough(host: Host, cats: seq<Category>, row: Row)
    requires FormatPoi(host, cats, row).Some?
    ensures var p := FormatPoi(host, cats, row).value;
      && p.name == Get(row, "Name*") && p.description == Get(row, "Description*")
      && p.location == LocationJson(host, ParseFloat(host, Get(row, "Latitude*")), ParseFloat(host, Get(row, "Longitude*")))
  {
  }

  /** An event's image URL is the cell when it is truthy and null otherwise; its text
      fields and its two time values come from the row unchanged. */
  lemma EventPassesThrough(host: Host, row: Row)
    requires FormatEvent(host, row).Some?
    ensures var e := FormatEvent(host, row).value;
      var image := Get(row, ImageUrlHeader);
      && (e.imageUrl.Some? <==> Truthy(image))
      && (e.imageUrl.Some? ==> e.imageUrl.value == image)
      && e.title == Get(row, "Title*") && e.description == Get(row, "Description*")
      && e.location == Get(row, "Location*")
      && Some(e.startDate) == NewDate(host, Get(row, "Start Date*"))
      && Some(e.endDate) == NewDate(host, Get(row, "End Date*"))
  {
  }

  // ---------------------------------------------------------------------------
  // Validation and mapping together

  /** A place-of-interest row that passes validation maps without a throw unless its image
      cell is a number; its category resolves to a listed category and both coordinates
      are in the JSON as numbers. */
  lemma ValidPoiRowFormats(host: Host, cats: seq<Category>, row: Row)
    requires |PoiRowIssues(host, cats, row)| == 0
    requires !Get(row, ImageUrlsHeader).Num?
    ensures FormatPoi(host, cats, row).Some?
    ensures exists i :: (0 <= i < |cats| && FormatPoi(host, cats, row).value.categoryId == cats[i].id
      && Lower(cats[i].name) == Lower(Show(host, Get(row, "Category*"))))
    ensures var lat := ParseFloat(host, Get(row, "Latitude*"));
      var lng := ParseFloat(host, Get(row, "Longitude*"));
      && lat.Some? && lng.Some?
      && FormatPoi(host, cats, row).value.location == LocationJson(host, lat, lng)
  {
    var v := Get(row, "Category*");
    PoiRowValidIff(host, cats, row);
    assert PoiRequired[2] == "Category*";
    assert !IsMissing(host, v);
    ResolvedCategoryId(host, cats, v);
    var id := CategoryId(host, cats, v);
    var urls := ImageUrls(Get(row, ImageUrlsHeader));
    assert urls.Some?;
    var location := LocationJson(host, ParseFloat(host, Get(row, "Latitude*")), ParseFloat(host, Get(row, "Longitude*")));
    assert FormatPoi(host, cats, row) == Some(PoiPayload(Get(row, "Name*"), Get(row, "Description*"), id.value, location, urls.value));
  }

  /** A set category cell that names a listed category resolves to that category's id. */
  lemma ResolvedCategoryId(host: Host, cats: seq<Category>, v: Cell)
    requires Truthy(v) && !Unresolved(host, cats, v)
    ensures CategoryId(host, cats, v).Some?
    ensures exists i :: (0 <= i < |cats| && CategoryId(host, cats, v).value == cats[i].id
      && Lower(cats[i].name) == Lower(Show(host, v)))
  {
    var key := Lower(Show(host, v));
    var i :| 0 <= i < |cats| && Lower(cats[i].name) == key;
    assert NameMatches(cats, i, key);
    assert FindCategory(cats, key).Some?;
  }

  /** A file of places of interest with no validation errors and no numeric image cell
      maps without a throw, one payload per row, each with a listed category's id. */
  lemma ValidatedPoisFormat(host: Host, cats: seq<Category>, rows: seq<Row>)
    requires PoiIssues(host, cats, rows) == []
    requires forall k :: 0 <= k < |rows| ==> !Get(rows[k], ImageUrlsHeader).Num?
    ensures FormatForApi(host, PoiKind, cats, rows).Some?
    ensures var payloads := FormatForApi(host, PoiKind, cats, rows).value;
      && |payloads| == |rows|
      && forall k :: 0 <= k < |rows| ==>
           (payloads[k].Poi? && exists i :: 0 <= i < |cats| && payloads[k].poi.categoryId == cats[i].id)
  {
    PoiIssuesEmptyIff(host, cats, rows);
    forall k | 0 <= k < |rows| ensures FormatRow(host, PoiKind, cats, rows[k]).Some? {
      ValidPoiRowFormats(host, cats, rows[k]);
    }
    var payloads := FormatForApi(host, PoiKind, cats, rows).value;
    forall k | 0 <= k < |rows|
      ensures payloads[k].Poi? && exists i :: 0 <= i < |cats| && payloads[k].poi.categoryId == cats[i].id
    {
      ValidPoiRowFormats(host, cats, rows[k]);
    }
  }

  /** An event file with no validation errors maps without a throw, one payload per row,
      each starting strictly before it ends. */
  lemma ValidatedEventsFormat(host: Host, cats: seq<Category>, rows: seq<Row>)
    requires EventIssues(host, rows) == []
    ensures FormatForApi(host, EventKind, cats, rows).Some?
    ensures var payloads := FormatForApi(host, EventKind, cats, rows).value;
      && |payloads| == |rows|
      && forall k :: 0 <= k < |rows| ==> payloads[k].Event? && payloads[k].event.startDate < payloads[k].event.endDate
  {
    EventIssuesEmptyIff(host, rows);
    forall k | 0 <= k < |rows| ensures FormatRow(host, EventKind, cats, rows[k]).Some? {
      EventRowValidIff(host, rows[k]);
    }
    var payloads := FormatForApi(host, EventKind, cats, rows).value;
    forall k | 0 <= k < |rows| ensures payloads[k].Event? && payloads[k].event.startDate < payloads[k].event.endDate {
      EventRowValidIff(host, rows[k]);
    }
  }

  /** No row has a number in the image-URL column. */
  predicate NoNumericImages(rows: seq<Row>) {
    forall k :: 0 <= k < |rows| ==> !Get(rows[k], ImageUrlsHeader).Num?
  }

  /** A file with no validation errors maps without a throw, unless it is a file of places
      of interest with a numeric image cell. */
  lemma ValidatedFormats(host: Host, kind: Kind, cats: seq<Category>, rows: seq<Row>)
    requires ValidateData(host, kind, cats, rows) == []
    requires kind == PoiKind ==> NoNumericImages(rows)
    ensures FormatForApi(host, kind, cats, rows).Some?
  {
    if kind == PoiKind {
      ValidatedPoisFormat(host, cats, rows);
    } else {
      ValidatedEventsFormat(host, cats, rows);
    }
  }
}

/**
 * The import modal as a stateful component: the file it was last given, the decoded
 * preview, the validation errors of that preview, the importing flag, and what it has
 * handed to its `onImport` callback. Toasts and close requests are recorded in order.
 *
 * The modal's invariant is that the error list is always the validation of the preview.
 * Its import gate passes the mapped rows to `onImport` only when that list is empty.
 */
module ImportModal {
  import opened Values
  import opened Text
  import opened Cells
  import opened Decoder
  import opened Validator
  import opened Payload

  /** A toast notification; destructive is the red variant. */
  datatype Toast = Toast(title: string, description: string, destructive: bool)

  /** How one press of the import button ended. */
  datatype ImportOutcome =
    | Blocked           // validation errors: nothing handed over
    | MappingFailed     // formatDataForAPI threw: nothing handed over
    | HandlerFailed     // onImport rejected after receiving the rows
    | Imported(count: nat)

  /** The downloadable templates: a header row and one example row. */
  const PoiTemplate: seq<seq<string>> := [
    ["Name*", "Description*", "Category*", "Latitude*", "Longitude*", "Image URLs (comma separated)"],
    ["Example POI", "A sample place of interest", "Library", "40.7128", "-74.0060",
     "https://example.com/image1.jpg,https://example.com/image2.jpg"]]

  const EventTemplate: seq<seq<string>> := [
    ["Title*", "Description*", "Location*", "Start Date*", "End Date*", "Image URL"],
    ["Sample Event", "A sample event description", "Main Hall", "2024-01-15 10:00:00",
     "2024-01-15 12:00:00", "https://example.com/event.jpg"]]

  /** The template headers are the required fields followed by the image column the mapper
      reads, and the example row fills every column. */
  lemma TemplateHeaders()
    ensures PoiTemplate[0] == PoiRequired + [ImageUrlsHeader]
    ensures EventTemplate[0] == EventRequired + [ImageUrlHeader]
    ensures |PoiTemplate[1]| == |PoiTemplate[0]| && |EventTemplate[1]| == |EventTemplate[0]|
  {
  }

  const ParseFailedToast := Toast("Error", "Failed to parse file. Please check the format.", true)
  const BlockedToast := Toast("Validation Error", "Please fix validation errors before importing", true)
  const ImportFailedToast := Toast("Error", "Failed to import data. Please try again.", true)

  function PluralName(kind: Kind): string {
    match kind
    case PoiKind => "POIs"
    case EventKind => "events"
  }

  function SuccessToast(kind: Kind, n: nat): (t: Toast)
    ensures t.title == "Success" && !t.destructive
  {
    Toast("Success", "Successfully imported " + NatText(n) + " " + PluralName(kind), false)
  }

  class Modal {
    const kind: Kind
    const categories: seq<Category>
    const host: Host
    var fileChosen: bool
    var previewData: seq<Row>
    var validationErrors: seq<Issue>
    var importing: bool
    /** Each batch handed to onImport, in order. */
    var handedOver: seq<seq<Payload>>
    var toasts: seq<Toast>
    var closeRequests: nat

    /** The error list is the validation of the preview. */
    ghost predicate Valid()
      reads this`previewData, this`validationErrors
    {
      validationErrors == ValidateData(host, kind, categories, previewData)
    }

    /** The gate is safe: once the listed errors are the validation of the preview and
        none is listed, the mapping in handleImport cannot throw, except on a file of places
        of interest with a numeric image cell. */
    lemma CleanPreviewMaps()
      requires Valid() && |validationErrors| == 0
      requires kind == PoiKind ==> NoNumericImages(previewData)
      ensures FormatForApi(host, kind, categories, previewData).Some?
    {
      ValidatedFormats(host, kind, categories, previewData);
    }

    constructor (kind: Kind, categories: seq<Category>, host: Host)
      ensures Valid()
      ensures this.kind == kind && this.categories == categories && this.host == host
      ensures !fileChosen && previewData == [] && validationErrors == [] && !importing
      ensures handedOver == [] && toasts == [] && closeRequests == 0
    {
      this.kind := kind;
      this.categories := categories;
      this.host := host;
      fileChosen := false;
      previewData := [];
      validationErrors := [];
      importing := false;
      handedOver := [];
      toasts := [];
      closeRequests := 0;
      NoRowsNoIssues(host, kind, categories);
    }

    /** handleFileChange on an accepted file, then parseFile on its grid: a grid that
        decodes replaces the preview and its errors; one that does not leaves both as they
        were and adds the parse error toast. */
    method LoadFile(grid: Grid) returns (parsed: bool)
      requires Valid()
      modifies this`fileChosen, this`previewData, this`validationErrors, this`toasts
      ensures Valid()
      ensures fileChosen
      ensures parsed <==> |grid| >= 2
      ensures parsed ==> previewData == Decode(host, grid).value && toasts == old(toasts)
      ensures !parsed ==> (previewData == old(previewData) && validationErrors == old(validationErrors)
        && toasts == old(toasts) + [ParseFailedToast])
    {
      fileChosen := true;
      var r := ParseFile(host, grid);
      if r.Failure? {
        toasts := toasts + [ParseFailedToast];
        return false;
      }
      previewData := r.value;
      validationErrors := ValidateRows(host, kind, categories, r.value);
      return true;
    }

    /** handleImport. With errors listed it only warns. Otherwise it maps the preview,
        hands the rows to onImport once, and reports the outcome; `rejects` is whether the
        callback's promise rejects. The importing flag is clear afterwards whenever the
        gate let the import through. */
    method HandleImport(rejects: bool) returns (outcome: ImportOutcome)
      modifies this`importing, this`handedOver, this`toasts, this`closeRequests
      ensures |old(validationErrors)| > 0 ==>
        && outcome == Blocked
        && toasts == old(toasts) + [BlockedToast]
        && importing == old(importing)
        && handedOver == old(handedOver) && closeRequests == old(closeRequests)
      ensures |old(validationErrors)| == 0 ==>
        var mapped := FormatForApi(host, kind, categories, previewData);
        && !importing
        && (mapped.None? ==>
              outcome == MappingFailed && handedOver == old(handedOver)
              && toasts == old(toasts) + [ImportFailedToast] && closeRequests == old(closeRequests))
        && (mapped.Some? ==> handedOver == old(handedOver) + [mapped.value])
        && (mapped.Some? && rejects ==>
              outcome == HandlerFailed
              && toasts == old(toasts) + [ImportFailedToast] && closeRequests == old(closeRequests))
        && (mapped.Some? && !rejects ==>
              outcome == Imported(|previewData|)
              && toasts == old(toasts) + [SuccessToast(kind, |previewData|)]
              && closeRequests == old(closeRequests) + 1)
    {
      ghost var mapped := FormatForApi(host, kind, categories, previewData);
      var batch: Option<seq<Payload>>;
      batch, outcome := BeginImport();
      if batch.Some? {
        assert batch == mapped && |mapped.value| == |previewData|;
        outcome := FinishImport(|batch.value|, rejects);
      }
    }

    /** handleImport up to `await onImport(...)`: the gate, then the importing flag and
        the mapping. A blocked import or a mapping that throws ends here with its toast
        (batch None); otherwise the mapped rows are handed over and the import is still in
        progress. */
    method BeginImport() returns (batch: Option<seq<Payload>>, outcome: ImportOutcome)
      modifies this`importing, this`handedOver, this`toasts
      ensures |old(validationErrors)| > 0 ==>
        && batch.None? && outcome == Blocked
        && toasts == old(toasts) + [BlockedToast]
        && importing == old(importing) && handedOver == old(handedOver)
      ensures |old(validationErrors)| == 0 ==>
        var mapped := FormatForApi(host, kind, categories, previewData);
        && (mapped.None? ==>
              batch.None? && outcome == MappingFailed && !importing
              && handedOver == old(handedOver) && toasts == old(toasts) + [ImportFailedToast])
        && (mapped.Some? ==>
              batch == mapped && importing
              && handedOver == old(handedOver) + [mapped.value] && toasts == old(toasts))
      ensures batch == if |old(validationErrors)| == 0 then FormatForApi(host, kind, categories, previewData) else None
      ensures batch.None? ==> outcome == Blocked || outcome == MappingFailed
      ensures batch.Some? ==>
        && |batch.value| == |previewData| && handedOver == old(handedOver) + [batch.value]
        && forall k :: 0 <= k < |batch.value| ==> (batch.value[k].Poi? <==> kind == PoiKind)
    {
      if |validationErrors| > 0 {
        toasts := toasts + [BlockedToast];
        return None, Blocked;
      }
      importing := true;
      var mapped := FormatForApi(host, kind, categories, previewData);
      if mapped.None? {
        toasts := toasts + [ImportFailedToast];
        importing := false;
        return None, MappingFailed;
      }
      handedOver := handedOver + [mapped.value];
      return mapped, Blocked;
    }

    /** handleImport after onImport settled on a batch of n rows: the failure toast when
        it rejected, otherwise the success toast and a close request; importing is then
        cleared. */
    method FinishImport(n: nat, rejects: bool) returns (outcome: ImportOutcome)
      modifies this`importing, this`toasts, this`closeRequests
      ensures !importing
      ensures rejects ==>
        outcome == HandlerFailed && toasts == old(toasts) + [ImportFailedToast] && closeRequests == old(closeRequests)
      ensures !rejects ==>
        outcome == Imported(n) && toasts == old(toasts) + [SuccessToast(kind, n)]
        && closeRequests == old(closeRequests) + 1
    {
      if rejects {
        toasts := toasts + [ImportFailedToast];
        outcome := HandlerFailed;
      } else {
        toasts := toasts + [SuccessToast(kind, n)];
        closeRequests := closeRequests + 1;
        outcome := Imported(n);
      }
      importing := false;
    }

    /** handleClose: resetModal clears the file, the preview and the errors, then the modal
        asks to be closed. */
    method HandleClose()
      modifies this
      ensures Valid()
      ensures !fileChosen && previewData == [] && validationErrors == []
      ensures closeRequests == old(closeRequests) + 1
      ensures importing == old(importing) && handedOver == old(handedOver) && toasts == old(toasts)
    {
      fileChosen := false;
      previewData := [];
      validationErrors := [];
      closeRequests := closeRequests + 1;
      NoRowsNoIssues(host, kind, categories);
    }
  }

  /** A file that fails to decode after one that decoded keeps the earlier preview, so a
      following import hands over the earlier file's rows. */
  method StalePreviewAfterFailedParse(host: Host, good: Grid, bad: Grid) returns (m: Modal)
    requires |good| >= 2 && |bad| < 2
    ensures m.previewData == Decode(host, good).value
    ensures m.toasts == [ParseFailedToast]
  {
    m := new Modal(PoiKind, [], host);
    var first := m.LoadFile(good);
    var second := m.LoadFile(bad);
  }
}

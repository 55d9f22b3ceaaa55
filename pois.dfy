/**
 * The places-of-interest page: its bulk import handler, which the import modal calls
 * with the mapped payloads, and the two guards of its own form (the required fields on
 * submit, and at most two images).
 *
 * The remote service is a class that records every request it receives. Whether a
 * request succeeds is decided by the server and is not known here, so each call returns
 * an arbitrary outcome, which the service records among its answers; what the page
 * concludes from a call is then tied to the answer the server gave.
 */
module Pois {
  import opened Values
  import opened Text
  import opened Cells
  import opened Payload
  import opened ImportModal
  import opened PoiForm

  datatype Request = ListPois | CreatePoi(form: Form) | UpdatePoi(id: int, form: Form)

  /** A place of interest as the service lists it. */
  datatype PoiRecord = PoiRecord(id: int, name: string, description: string, categoryId: int, lat: real, lng: real)

  class PoiService {
    /** Every request sent, in order. */
    var log: seq<Request>
    /** The server's answer to each create or update, in order: true when it succeeded. */
    ghost var answers: seq<bool>

    constructor ()
      ensures log == [] && answers == []
    {
      log := [];
      answers := [];
    }

    /** poisApi.create; ok is false when the request is rejected. */
    method Create(form: Form) returns (ok: bool)
      modifies this
      ensures log == old(log) + [CreatePoi(form)]
      ensures answers == old(answers) + [ok]
    {
      log := log + [CreatePoi(form)];
      ok := *;
      answers := answers + [ok];
    }

    /** poisApi.update. */
    method Update(id: int, form: Form) returns (ok: bool)
      modifies this
      ensures log == old(log) + [UpdatePoi(id, form)]
      ensures answers == old(answers) + [ok]
    {
      log := log + [UpdatePoi(id, form)];
      ok := *;
      answers := answers + [ok];
    }

    /** fetchPOIs: the list is requested again. */
    method Refresh()
      modifies this
      ensures log == old(log) + [ListPois]
      ensures answers == old(answers)
    {
      log := log + [ListPois];
    }
  }

  // ---------------------------------------------------------------------------
  // The batch

  datatype ImportResult = ImportResult(success: nat, failed: nat, errors: seq<string>)

  /** The message for a failed row; i is its position in the batch, from 0. */
  function FailureMessage(host: Host, i: nat, p: PoiPayload): (m: string)
    ensures var prefix := "Row " + NatText(i + 1) + ": "; |prefix| <= |m| && m[..|prefix|] == prefix
    ensures |m| >= 16 && m[|m| - 16..] == " - Import failed"
  {
    "Row " + NatText(i + 1) + ": " + Show(host, p.name) + " - Import failed"
  }

  /** The counters after the first |oks| rows of data were sent, oks[i] telling whether
      the request for row i succeeded. */
  function Tally(host: Host, data: seq<PoiPayload>, oks: seq<bool>): (r: ImportResult)
    requires |oks| <= |data|
    ensures r.success + r.failed == |oks|
    ensures |r.errors| == r.failed
    decreases |oks|
  {
    if |oks| == 0 then ImportResult(0, 0, [])
    else
      var n := |oks| - 1;
      var t := Tally(host, data, oks[..n]);
      if oks[n] then ImportResult(t.success + 1, t.failed, t.errors)
      else ImportResult(t.success, t.failed + 1, t.errors + [FailureMessage(host, n, data[n])])
  }

  /** The number of requests that succeeded. */
  function Successes(oks: seq<bool>): nat
    decreases |oks|
  {
    if |oks| == 0 then 0 else Successes(oks[..|oks| - 1]) + (if oks[|oks| - 1] then 1 else 0)
  }

  /** The positions of the failed requests, in increasing order. */
  function FailedPositions(oks: seq<bool>): (ps: seq<nat>)
    ensures forall k :: 0 <= k < |ps| ==> ps[k] < |oks| && !oks[ps[k]]
    ensures forall k, l :: 0 <= k < l < |ps| ==> ps[k] < ps[l]
    ensures forall i :: 0 <= i < |oks| && !oks[i] ==> i in ps
    decreases |oks|
  {
    if |oks| == 0 then []
    else
      var ps := FailedPositions(oks[..|oks| - 1]);
      if oks[|oks| - 1] then ps else ps + [|oks| - 1]
  }

  /** success counts the requests that succeeded, and the errors are one message per
      failed row, in row order, numbered by batch position from 1. */
  lemma {:induction false} TallyAccounts(host: Host, data: seq<PoiPayload>, oks: seq<bool>)
    requires |oks| <= |data|
    ensures Tally(host, data, oks).success == Successes(oks)
    ensures var ps := FailedPositions(oks);
      && Tally(host, data, oks).failed == |ps|
      && forall k :: 0 <= k < |ps| ==> Tally(host, data, oks).errors[k] == FailureMessage(host, ps[k], data[ps[k]])
    decreases |oks|
  {
    if |oks| > 0 {
      TallyAccounts(host, data, oks[..|oks| - 1]);
    }
  }

  /** One more row sent: its outcome is added to the counters. */
  lemma TallySnoc(host: Host, data: seq<PoiPayload>, oks: seq<bool>, ok: bool)
    requires |oks| < |data|
    ensures var t := Tally(host, data, oks);
      Tally(host, data, oks + [ok]) ==
        if ok then ImportResult(t.success + 1, t.failed, t.errors)
        else ImportResult(t.success, t.failed + 1, t.errors + [FailureMessage(host, |oks|, data[|oks|])])
  {
    assert (oks + [ok])[..|oks|] == oks;
  }

  /** Sending row i of data with outcome ok extends both the counters and the requests
      of the rows before it. */
  lemma BatchStep(host: Host, data: seq<PoiPayload>, oks: seq<bool>, ok: bool)
    requires |oks| < |data|
    ensures var i, t := |oks|, Tally(host, data, oks);
      && Tally(host, data, oks + [ok]) ==
           (if ok then ImportResult(t.success + 1, t.failed, t.errors)
            else ImportResult(t.success, t.failed + 1, t.errors + [FailureMessage(host, i, data[i])]))
      && Requests(host, data[..i + 1]) == Requests(host, data[..i]) + [CreatePoi(ImportForm(host, data[i]))]
  {
    var i := |oks|;
    assert data[..i + 1] == data[..i] + [data[i]];
    TallySnoc(host, data, oks, ok);
    RequestsSnoc(host, data[..i], data[i]);
  }

  /** The create requests of a batch: one per payload, in order, the i-th carrying the
      form of the i-th payload. */
  function Requests(host: Host, data: seq<PoiPayload>): (rs: seq<Request>)
    ensures |rs| == |data| && forall i :: 0 <= i < |data| ==> rs[i] == CreatePoi(ImportForm(host, data[i]))
  {
    seq(|data|, i requires 0 <= i < |data| => CreatePoi(ImportForm(host, data[i])))
  }

  /** One more payload sent adds its request at the end. */
  lemma RequestsSnoc(host: Host, data: seq<PoiPayload>, p: PoiPayload)
    ensures Requests(host, data + [p]) == Requests(host, data) + [CreatePoi(ImportForm(host, p))]
  {
    var left, right := Requests(host, data + [p]), Requests(host, data) + [CreatePoi(ImportForm(host, p))];
    assert |left| == |right|;
    forall i | 0 <= i < |left| ensures left[i] == right[i] {
      if i < |data| {
        assert (data + [p])[i] == data[i];
      }
    }
  }

  /** The toast after a batch: a plain success when nothing failed, otherwise the two
      counts in the destructive variant. */
  function SummaryToast(r: ImportResult): (t: Toast)
    ensures t.destructive <==> r.failed > 0
  {
    if r.failed == 0 then Toast("Import Successful", "Successfully imported " + NatText(r.success) + " POIs", false)
    else Toast("Import Completed with Errors", NatText(r.success) + " successful, " + NatText(r.failed) + " failed", true)
  }

  /** The plain success title is shown exactly when no row failed, and the destructive
      variant exactly when one did. */
  lemma SummaryToastIff(r: ImportResult)
    ensures SummaryToast(r).title == "Import Successful" <==> r.failed == 0
    ensures SummaryToast(r).destructive <==> r.failed > 0
  {
    if r.failed > 0 {
      assert SummaryToast(r).title[7] == 'C';
    }
  }

  /** Five rows whose second and fourth requests fail: three successes, two failures,
      messages for rows 2 and 4, and the error summary. */
  lemma MixedBatchExample(host: Host, data: seq<PoiPayload>)
    requires |data| == 5
    ensures var r := Tally(host, data, [true, false, true, false, true]);
      && r.success == 3 && r.failed == 2
      && r.errors[0] == FailureMessage(host, 1, data[1]) && r.errors[1] == FailureMessage(host, 3, data[3])
      && SummaryToast(r) == Toast("Import Completed with Errors", "3 successful, 2 failed", true)
  {
    var oks := [true, false, true, false, true];
    var t1 := Tally(host, data, oks[..1]);
    var t2 := Tally(host, data, oks[..2]);
    var t3 := Tally(host, data, oks[..3]);
    var t4 := Tally(host, data, oks[..4]);
    var t5 := Tally(host, data, oks);
    assert oks[..1][..0] == [] && oks[..2][..1] == oks[..1] && oks[..3][..2] == oks[..2];
    assert oks[..4][..3] == oks[..3] && oks[..4] == oks[..|oks| - 1];
    assert t1.success == 1 && t1.failed == 0;
    assert t2.success == 1 && t2.failed == 1 && t2.errors[0] == FailureMessage(host, 1, data[1]);
    assert t3.success == 2 && t3.errors == t2.errors;
    assert t4.success == 2 && t4.failed == 2 && t4.errors == t3.errors + [FailureMessage(host, 3, data[3])];
    assert t5.success == 3 && t5.errors == t4.errors;
    ThreeTwoSummary(t5.errors);
  }

  /** The summary of three successes and two failures. */
  lemma ThreeTwoSummary(errors: seq<string>)
    ensures SummaryToast(ImportResult(3, 2, errors)) == Toast("Import Completed with Errors", "3 successful, 2 failed", true)
  {
    assert NatText(3) == "3" && NatText(2) == "2";
  }

  // ---------------------------------------------------------------------------
  // The page

  const MissingFieldsToast := Toast("Error", "Please fill in all required fields", true)
  const TooManyImagesToast := Toast("Error", "Maximum 2 images allowed", true)

  /** The form handleSubmit sends: the text fields, the category id, the coordinates as
      JSON, and one `images[]` entry per chosen file. */
  function SubmitForm(host: Host, name: string, description: string, categoryId: int,
                      lat: string, lng: string, images: seq<UploadedFile>): (form: Form)
    ensures |form| == 4 + |images|
    ensures forall i :: 0 <= i < |images| ==> form[4 + i] == ("images[]", Attachment(images[i]))
  {
    [("name", Field(name)),
     ("description", Field(description)),
     ("category_id", Field(IntText(categoryId))),
     ("location", Field(LocationJson(host, ParseFloatText(host, lat), ParseFloatText(host, lng))))]
      + seq(|images|, i requires 0 <= i < |images| => ("images[]", Attachment(images[i])))
  }

  /** The required-field guard of handleSubmit: an empty text field or a category id of 0.
      Text is not trimmed, so white space passes. */
  predicate FormIncomplete(name: string, description: string, categoryId: int, lat: string, lng: string) {
    |name| == 0 || |description| == 0 || categoryId == 0 || |lat| == 0 || |lng| == 0
  }

  class PoiPage {
    const host: Host
    const api: PoiService
    var name: string
    var description: string
    var categoryId: int
    var lat: string
    var lng: string
    var images: seq<UploadedFile>
    /** The id of the place being edited, if any. */
    var editing: Option<int>
    var showForm: bool
    var toasts: seq<Toast>

    /** The form never holds more than two images. */
    ghost predicate Valid()
      reads this`images
    {
      |images| <= 2
    }

    constructor (host: Host, api: PoiService)
      ensures Valid()
      ensures this.host == host && this.api == api
      ensures name == "" && description == "" && categoryId == 0 && lat == "" && lng == ""
      ensures images == [] && editing == None && !showForm && toasts == []
    {
      this.host := host;
      this.api := api;
      name, description, categoryId, lat, lng := "", "", 0, "", "";
      images, editing, showForm, toasts := [], None, false, [];
    }

    /** handleBulkImport: every payload is sent once, in order, whatever happened to the
        ones before; the list is refreshed when at least one was created, and one summary
        toast is shown. outcomes[i] is whether the i-th request succeeded. */
    method BulkImport(data: seq<PoiPayload>) returns (r: ImportResult, outcomes: seq<bool>)
      modifies api, this`toasts
      ensures |outcomes| == |data|
      ensures r == Tally(host, data, outcomes)
      ensures api.log == old(api.log) + Requests(host, data) + (if r.success > 0 then [ListPois] else [])
      ensures api.answers == old(api.answers) + outcomes
      ensures toasts == old(toasts) + [SummaryToast(r)]
    {
      r, outcomes := SendBatch(data);
      if r.success > 0 {
        api.Refresh();
      }
      toasts := toasts + [SummaryToast(r)];
    }

    /** The loop of handleBulkImport: each payload is sent in turn and its outcome
        counted, a failure adding its message. */
    method SendBatch(data: seq<PoiPayload>) returns (r: ImportResult, outcomes: seq<bool>)
      modifies api
      ensures |outcomes| == |data|
      ensures r == Tally(host, data, outcomes)
      ensures api.log == old(api.log) + Requests(host, data)
      ensures api.answers == old(api.answers) + outcomes
    {
      r := ImportResult(0, 0, []);
      outcomes := [];
      var i := 0;
      while i < |data|
        invariant i <= |data| && |outcomes| == i
        invariant r == Tally(host, data, outcomes)
        invariant api.log == old(api.log) + Requests(host, data[..i])
        invariant api.answers == old(api.answers) + outcomes
      {
        var ok := SendRow(data[i]);
        BatchStep(host, data, outcomes, ok);
        if ok {
          r := ImportResult(r.success + 1, r.failed, r.errors);
        } else {
          r := ImportResult(r.success, r.failed + 1, r.errors + [FailureMessage(host, i, data[i])]);
        }
        outcomes := outcomes + [ok];
        i := i + 1;
      }
      assert data[..i] == data;
    }

    /** One iteration of handleBulkImport's request: the payload's form is built and sent. */
    method SendRow(p: PoiPayload) returns (ok: bool)
      modifies api
      ensures api.log == old(api.log) + [CreatePoi(ImportForm(host, p))]
      ensures api.answers == old(api.answers) + [ok]
    {
      var form := BuildImportForm(host, p);
      ok := api.Create(form);
    }

    /** handleImageChange: more than two files are refused with a toast, and the images
        already chosen stay; otherwise the chosen files replace them. */
    method HandleImageChange(files: seq<UploadedFile>)
      requires Valid()
      modifies this`images, this`toasts
      ensures Valid()
      ensures |files| > 2 ==> images == old(images) && toasts == old(toasts) + [TooManyImagesToast]
      ensures |files| <= 2 ==> images == files && toasts == old(toasts)
    {
      if |files| > 2 {
        toasts := toasts + [TooManyImagesToast];
        return;
      }
      images := files;
    }

    /** handleSubmit. An incomplete form sends nothing and only warns. Otherwise the form
        is sent as an update of the place being edited or as a new place. On success the
        form is reset and closed and the list refreshed; on failure everything stays. */
    method HandleSubmit() returns (sent: bool, ok: bool)
      requires Valid()
      modifies this, api
      ensures Valid()
      ensures sent <==> !FormIncomplete(old(name), old(description), old(categoryId), old(lat), old(lng))
      ensures !sent ==>
        && api.log == old(api.log) && api.answers == old(api.answers) && toasts == old(toasts) + [MissingFieldsToast]
        && name == old(name) && description == old(description) && categoryId == old(categoryId)
        && lat == old(lat) && lng == old(lng) && images == old(images)
        && editing == old(editing) && showForm == old(showForm)
      ensures sent ==>
        var form := SubmitForm(host, old(name), old(description), old(categoryId), old(lat), old(lng), old(images));
        var request := if old(editing).Some? then UpdatePoi(old(editing).value, form) else CreatePoi(form);
        && api.answers == old(api.answers) + [ok]
        && (ok ==>
              && api.log == old(api.log) + [request, ListPois]
              && toasts == old(toasts) + [SubmittedToast(old(editing).Some?)]
              && name == "" && description == "" && categoryId == 0 && lat == "" && lng == ""
              && images == [] && editing == None && !showForm)
        && (!ok ==>
              && api.log == old(api.log) + [request]
              && toasts == old(toasts) + [SubmitFailedToast(old(editing).Some?)]
              && name == old(name) && description == old(description) && categoryId == old(categoryId)
              && lat == old(lat) && lng == old(lng) && images == old(images)
              && editing == old(editing) && showForm == old(showForm))
    {
      if FormIncomplete(name, description, categoryId, lat, lng) {
        toasts := toasts + [MissingFieldsToast];
        return false, false;
      }
      var form := SubmitForm(host, name, description, categoryId, lat, lng, images);
      var updating := editing.Some?;
      if updating {
        ok := api.Update(editing.value, form);
      } else {
        ok := api.Create(form);
      }
      sent := true;
      if !ok {
        toasts := toasts + [SubmitFailedToast(updating)];
        return;
      }
      toasts := toasts + [SubmittedToast(updating)];
      ResetForm();
      api.Refresh();
    }

    /** resetForm: the form empty and closed, nothing being edited. */
    method ResetForm()
      modifies this`name, this`description, this`categoryId, this`lat, this`lng, this`images,
        this`editing, this`showForm
      ensures Valid()
      ensures name == "" && description == "" && categoryId == 0 && lat == "" && lng == ""
      ensures images == [] && editing == None && !showForm
    {
      name, description, categoryId, lat, lng := "", "", 0, "", "";
      images, editing, showForm := [], None, false;
    }

    /** startEdit: the form holds the place's fields and coordinates as text, no images,
        and is shown for that place. */
    method StartEdit(poi: PoiRecord)
      modifies this`name, this`description, this`categoryId, this`lat, this`lng, this`images,
        this`editing, this`showForm
      ensures Valid()
      ensures name == poi.name && description == poi.description && categoryId == poi.categoryId
      ensures lat == host.numberText(poi.lat) && lng == host.numberText(poi.lng)
      ensures images == [] && editing == Some(poi.id) && showForm
    {
      name, description, categoryId := poi.name, poi.description, poi.categoryId;
      lat, lng := host.numberText(poi.lat), host.numberText(poi.lng);
      images, editing, showForm := [], Some(poi.id), true;
    }
  }

  /** The place-of-interest payloads of a batch the modal mapped for places of interest. */
  function PoiBatch(batch: seq<Payload>): (data: seq<PoiPayload>)
    requires forall k :: 0 <= k < |batch| ==> batch[k].Poi?
    ensures |data| == |batch| && forall k :: 0 <= k < |batch| ==> batch[k] == Poi(data[k])
  {
    seq(|batch|, k requires 0 <= k < |batch| => batch[k].poi)
  }

  /** The import modal of the places-of-interest page, with handleBulkImport as its
      onImport. The handler always returns normally, whatever the server answered, so once
      the gate lets a batch through the modal reports every row as imported and asks to be
      closed, next to the page's own summary, even when some rows failed. */
  method ImportThroughPage(m: Modal, page: PoiPage)
      returns (batch: Option<seq<Payload>>, outcome: ImportOutcome, r: ImportResult, outcomes: seq<bool>)
    requires m.kind == PoiKind
    modifies m`importing, m`handedOver, m`toasts, m`closeRequests, page`toasts, page.api
    ensures |old(m.validationErrors)| > 0 ==> batch.None?
    ensures batch.Some? ==>
      && |batch.value| == |m.previewData|
      && (forall k :: 0 <= k < |batch.value| ==> batch.value[k].Poi?)
      && m.handedOver == old(m.handedOver) + [batch.value]
      && |outcomes| == |batch.value|
      && r == Tally(page.host, PoiBatch(batch.value), outcomes)
      && page.api.answers == old(page.api.answers) + outcomes
      && page.api.log == old(page.api.log) + Requests(page.host, PoiBatch(batch.value))
           + (if r.success > 0 then [ListPois] else [])
      && page.toasts == old(page.toasts) + [SummaryToast(r)]
      && outcome == Imported(|batch.value|)
      && m.toasts == old(m.toasts) + [SuccessToast(PoiKind, |batch.value|)]
      && m.closeRequests == old(m.closeRequests) + 1 && !m.importing
    ensures batch.None? ==>
      && outcome == (if |old(m.validationErrors)| > 0 then Blocked else MappingFailed)
      && m.closeRequests == old(m.closeRequests)
      && page.api.log == old(page.api.log) && page.api.answers == old(page.api.answers)
      && page.toasts == old(page.toasts)
  {
    batch, outcome := m.BeginImport();
    r, outcomes := ImportResult(0, 0, []), [];
    if batch.Some? {
      outcome, r, outcomes := HandOver(m, page, batch.value);
    }
  }

  /** `await onImport(formattedData)` with handleBulkImport as onImport, and the rest of
      handleImport: the page sends the batch, and the modal, seeing no rejection, reports
      the whole batch as imported and asks to be closed. */
  method HandOver(m: Modal, page: PoiPage, data: seq<Payload>) returns (outcome: ImportOutcome, r: ImportResult, outcomes: seq<bool>)
    requires m.kind == PoiKind
    requires forall k :: 0 <= k < |data| ==> data[k].Poi?
    modifies m`importing, m`toasts, m`closeRequests, page`toasts, page.api
    ensures |outcomes| == |data|
    ensures r == Tally(page.host, PoiBatch(data), outcomes)
    ensures page.api.answers == old(page.api.answers) + outcomes
    ensures page.api.log == old(page.api.log) + Requests(page.host, PoiBatch(data))
      + (if r.success > 0 then [ListPois] else [])
    ensures page.toasts == old(page.toasts) + [SummaryToast(r)]
    ensures outcome == Imported(|data|)
    ensures m.toasts == old(m.toasts) + [SuccessToast(PoiKind, |data|)]
    ensures m.closeRequests == old(m.closeRequests) + 1 && !m.importing
  {
    r, outcomes := page.BulkImport(PoiBatch(data));
    outcome := m.FinishImport(|data|, false);
  }

  function SubmittedToast(updating: bool): Toast {
    Toast("Success", if updating then "POI updated successfully" else "POI created successfully", false)
  }

  function SubmitFailedToast(updating: bool): Toast {
    Toast("Error", "Failed to " + (if updating then "update" else "create") + " POI", true)
  }
}

# Bulk import of places of interest and events

This project models the spreadsheet bulk import of the vista-explorer-portal admin
interface and proves properties of that model. An administrator opens the import modal
for places of interest (POIs) or for events and picks an Excel or CSV file. The modal
decodes the first sheet into row records keyed by header and validates the rows. It
shows the errors and lets the import go ahead only when there are none. The rows are
then mapped to API payloads and handed to the page's import handler. The POI page's
handler sends one create request per payload, keeps going after failures, counts
successes and failures, refreshes the list when anything was created and shows one
summary toast. The POI page's own form is modelled as well: its required-field check
on submit, its two-image limit, and resetting and starting an edit.

Modules, in dependency order:

- `Values`: `Option` and `Result`.
- `Text`: the JavaScript string operations the code uses: `trim`, `toLowerCase`,
  `split` on one character, `join`, and decimal rendering of integers.
- `Cells`: the cell values a sheet yields (nothing, text or a number), their
  truthiness and rendering, and the conversions the host supplies (`parseFloat`,
  `Date.parse`, `Number#toString`).
- `Decoder`: `parseFile` from the grid of cells to numbered row records.
- `Validator`: `validateData`, `validatePOIData` and `validateEventData`. Its
  functions compute the error list; its methods reproduce the loops that push to it.
- `Payload`: `formatDataForAPI`. It returns `None` where the JavaScript mapper throws.
- `ImportModal`: the modal as a class, with its preview, its error list, its import
  gate and the templates.
- `PoiForm`: the `FormData` the POI page builds for one imported payload.
- `Pois`: the POI page as a class. It holds the bulk import handler, the form guards and
  the request log of the POI service.

Four behaviours of the code that a reader might not expect are modelled as written:

- Row numbers in validation messages come from the position after blank rows are
  dropped, plus 2. A row that follows a blank row is therefore not numbered by its line
  in the file (`Decoder.NumberingSkipsDroppedRows`).
- `handleBulkImport` never rejects. The modal therefore always reports "Successfully
  imported N POIs" and closes, next to the page's own summary toast, even when some
  rows failed (`Pois.ImportThroughPage`).
- The mapper keeps empty URL pieces (`"a,,b"` gives three URLs). Blank ones are dropped
  only when the page builds the form, which keeps each URL's index in the cell
  (`PoiForm.ImageFieldsAtPositions`).
- A file that fails to decode keeps the previous preview and its errors, so the import
  button can then send the earlier file's rows (`ImportModal.StalePreviewAfterFailedParse`).

## Model

| member | source | states |
|---|---|---|
| Text.TrimShape | src/components/ImportModal.tsx:132 | `trim` gives the empty string exactly when the text is all white space; otherwise the result starts and ends with a character that is not white |
| Text.TrimContent | src/components/ImportModal.tsx:199 | `trim` of blank text is the empty string; otherwise the text is a white space prefix, the trimmed text and a white space suffix, in that order |
| Text.TrimIdempotent | src/components/POIs.tsx:194-195 | trimming a trimmed URL again changes nothing |
| Text.Lower | src/components/ImportModal.tsx:139 | `toLowerCase` keeps the length and maps A-Z to a-z, leaving every other character alone |
| Text.Split | src/components/ImportModal.tsx:199 | `split(',')` gives one piece more than there are commas, and no piece contains a comma |
| Text.JoinSplit | src/components/ImportModal.tsx:199 | joining the pieces of `split(',')` with commas gives back the cell text |
| Text.TrimAll | src/components/ImportModal.tsx:199 | `.map(url => url.trim())` keeps the number of pieces and trims each one in place |
| Text.NatTextInjective | src/components/POIs.tsx:205 | distinct row numbers render as distinct decimal texts |
| Text.NatTextDigits | src/components/ImportModal.tsx:133 | a rendered row number is all digits with no leading zero |
| Cells.Truthy | src/components/ImportModal.tsx:93 | the falsy cells are exactly an absent cell, the empty string and the number 0 |
| Cells.Show | src/components/ImportModal.tsx:132 | `toString` gives a text cell's own text, the host's rendering of a number, and "undefined" for an absent cell |
| Cells.ParseFloat | src/components/ImportModal.tsx:146-147 | a number cell parses to itself; an absent or blank cell is NaN |
| Cells.NewDate | src/components/ImportModal.tsx:168-169 | an absent or empty cell is an Invalid Date; a number cell is a valid date exactly when it is within 8.64e15 ms of the epoch |
| Decoder.CellAt | src/components/ImportModal.tsx:93 | `row[colIndex] \|\| ''`: a cell that is missing or falsy reads as the empty string, and a truthy one is kept |
| Decoder.HeaderKey | src/components/ImportModal.tsx:92-93 | a header cell gives the property key its text names; an absent header cell gives none |
| Decoder.FieldsOf | src/components/ImportModal.tsx:91-94 | every value a row record holds is a truthy cell or the empty string |
| Decoder.KeepWithContent | src/components/ImportModal.tsx:88-89 | the filter keeps no more rows than it is given, and each row it keeps has content |
| Decoder.ContentPositions | src/components/ImportModal.tsx:89 | the kept positions increase strictly, and a row position is listed exactly when one of its cells is neither undefined nor the empty string |
| Decoder.KeptRowsAreContentRows | src/components/ImportModal.tsx:88-89 | the filter keeps exactly the rows with content, in their order |
| Decoder.FieldKeys | src/components/ImportModal.tsx:92-94 | a row record has a key exactly when some header cell names it |
| Decoder.FieldAtColumn | src/components/ImportModal.tsx:92-94 | each key holds the cell under the last header with that name |
| Decoder.BuildRow | src/components/ImportModal.tsx:91-94 | the `headers.forEach` loop builds the row record header by header |
| Decoder.NumberRows | src/components/ImportModal.tsx:90-97 | one record per kept row, numbered by its position after filtering plus 2 |
| Decoder.Decode | src/components/ImportModal.tsx:81-97 | decoding fails exactly when the sheet has fewer than two rows; otherwise there are fewer records than rows, and the k-th is numbered k + 2 |
| Decoder.DecodeSpec | src/components/ImportModal.tsx:81-97 | decoding fails exactly when there are fewer than two rows. Otherwise there is one record per data row with content, in order, with that row's cells under the headers, numbered consecutively from 2 and never above the row's line in the file |
| Decoder.ParseFile | src/components/ImportModal.tsx:71-112 | the filter-and-build loop returns what `Decode` specifies, including the error for short grids |
| Decoder.NumberingSkipsDroppedRows | src/components/ImportModal.tsx:88-96 | a data row on the third line of the file, after a blank row, is reported as row 2 |
| Validator.RequiredIssues | src/components/ImportModal.tsx:131-135 | every required-field error names the row's number and one of the listed fields |
| Validator.Issue.Message | src/components/ImportModal.tsx:133-178 | every error message starts with "Row {n}: " for the row's number n |
| Validator.IsMissing | src/components/ImportModal.tsx:132 | a field is missing exactly when its cell is falsy or its text is all white space |
| Validator.Unresolved | src/components/ImportModal.tsx:138-140 | a category cell is unresolved exactly when it is truthy and its lower-cased text is none of the lower-cased category names |
| Validator.CategoryIssues | src/components/ImportModal.tsx:137-143 | the category rule gives at most one error, the unknown-category error for the cell's text with the category names listed |
| Validator.CoordinateChecks | src/components/ImportModal.tsx:145-153 | the coordinate rules give at most two errors, each a latitude or longitude error for the row |
| Validator.PoiRowIssues | src/components/ImportModal.tsx:130-154 | a POI row gives at most eight errors: one per required field, one for the category and one per coordinate |
| Validator.DateChecks | src/components/ImportModal.tsx:167-179 | the date rules give at most three errors, each a start, end or ordering error for the row |
| Validator.EventRowIssues | src/components/ImportModal.tsx:160-180 | an event row gives at most eight errors: one per required field and three date errors |
| Validator.ValidateData | src/components/ImportModal.tsx:114-124 | the error list is empty exactly when every row passes the rules of the modal's kind |
| Validator.LowerNames | src/components/ImportModal.tsx:128 | the lower-cased category names, one per category, in order |
| Validator.CategoryNames | src/components/ImportModal.tsx:141 | the listed names in an unknown-category message are the category names in order |
| Validator.CheckRequired | src/components/ImportModal.tsx:131-135 | the `requiredFields.forEach` loop pushes exactly the required-field errors |
| Validator.CheckPoiRow | src/components/ImportModal.tsx:130-154 | one iteration over a POI row pushes exactly that row's errors: required fields, then category, then coordinates |
| Validator.CheckEventRow | src/components/ImportModal.tsx:160-180 | one iteration over an event row pushes exactly that row's errors: required fields, then the dates |
| Validator.ValidatePoiData | src/components/ImportModal.tsx:126-155 | the loop over POI rows yields every row's errors, concatenated in row order |
| Validator.ValidateEventData | src/components/ImportModal.tsx:157-181 | the loop over event rows yields every row's errors, concatenated in row order |
| Validator.ValidateRows | src/components/ImportModal.tsx:114-124 | validation follows the modal's kind: the POI rules or the event rules |
| Validator.NoRowsNoIssues | src/components/ImportModal.tsx:246-250 | an empty preview has no validation errors, so resetting keeps the error list consistent |
| Validator.CollectEmptyIff | src/components/ImportModal.tsx:130 | a file has no errors exactly when each of its rows has none |
| Validator.CollectMembers | src/components/ImportModal.tsx:130 | an error is in the file's list exactly when some row produces it |
| Validator.CollectSortedByRow | src/components/ImportModal.tsx:130 | when each row's errors carry its number and the numbers do not decrease, the file's errors are sorted by row number |
| Validator.PoiIssuesEmptyIff | src/components/ImportModal.tsx:126-155 | a POI file passes exactly when every row passes |
| Validator.EventIssuesEmptyIff | src/components/ImportModal.tsx:157-181 | an event file passes exactly when every row passes |
| Validator.PoiIssuesCarryRow | src/components/ImportModal.tsx:133-152 | every error of a POI row carries that row's number |
| Validator.EventIssuesCarryRow | src/components/ImportModal.tsx:163-178 | every error of an event row carries that row's number |
| Validator.RowIssuesCarryRow | src/components/ImportModal.tsx:133-178 | both rule sets label each error with the row's number |
| Validator.DecodedIssuesInRowOrder | src/components/ImportModal.tsx:95-181 | the errors of a decoded file, of either kind, come out in non-decreasing row-number order |
| Validator.RequiredIssuesCount | src/components/ImportModal.tsx:131-135 | with distinct field names, each field's required error appears once if the field is missing and not at all otherwise |
| Validator.RequiredFieldsDistinct | src/components/ImportModal.tsx:127 | the five required POI fields are distinct, and so are the five event fields |
| Validator.PoiRequiredErrors | src/components/ImportModal.tsx:131-135 | in a POI row's errors, each required field's error occurs once when the cell is falsy or blank after trim, and never otherwise |
| Validator.EventRequiredErrors | src/components/ImportModal.tsx:161-165 | likewise for the five event fields |
| Validator.NoShortCircuit | src/components/ImportModal.tsx:131-135 | an empty name and a missing description are both reported: the check does not stop at the first missing field |
| Validator.UnknownCategoryIff | src/components/ImportModal.tsx:137-143 | the unknown-category error appears, once, exactly when the category cell is truthy and its lower-cased text is no lower-cased category name; it is the only such error |
| Validator.CategoryIssuesShape | src/components/ImportModal.tsx:138-143 | the category rule gives the one unknown-category error when the cell is unresolved and nothing otherwise |
| Validator.EmptyCategoryOnlyRequired | src/components/ImportModal.tsx:132-143 | an empty category cell gives the required error and no unknown-category error |
| Validator.CategoryCaseInsensitive | src/components/ImportModal.tsx:139-140 | "LIBRARY" matches a category named "Library" |
| Validator.CoordinateErrorsIff | src/components/ImportModal.tsx:146-153 | the latitude error occurs once exactly when the latitude is NaN or outside [-90, 90], and never otherwise; likewise the longitude error and [-180, 180] |
| Validator.BlankLatitudeBothErrors | src/components/ImportModal.tsx:132-149 | a missing or blank latitude is reported both as required and as invalid |
| Validator.ZeroLatitudeRejected | src/components/ImportModal.tsx:93 | a latitude of 0 in the sheet is stored as the empty string, so the row is reported both as missing its latitude and as having an invalid one |
| Validator.CoordinateBoundaries | src/components/ImportModal.tsx:148-152 | the bounds are inclusive: 90 and -180 pass, 91 and -181 fail |
| Validator.PoiRowValidIff | src/components/ImportModal.tsx:126-155 | a POI row passes exactly when all five required fields are present, its category resolves and both coordinates are in range |
| Validator.DateErrorsIff | src/components/ImportModal.tsx:168-179 | each unparsable date gives one format error; the ordering error occurs once exactly when both dates parse and the start is not before the end |
| Validator.EqualTimesRejected | src/components/ImportModal.tsx:177-179 | equal start and end times are rejected; an end one second later passes the ordering check |
| Validator.EventRowValidIff | src/components/ImportModal.tsx:157-181 | an event row passes exactly when all five fields are present, both dates parse and the start is strictly before the end |
| Payload.FindFrom | src/components/ImportModal.tsx:186-188 | `categories.find` returns the first category whose lower-cased name matches, or nothing when none does |
| Payload.CategoryIdIsFirstMatch | src/components/ImportModal.tsx:186-193 | `category_id` is the id of the first case-insensitive name match, and 0 when no name matches |
| Payload.CategoryId | src/components/ImportModal.tsx:186-193 | the lookup throws exactly when the cell is absent and categories exist; a non-zero id is the id of a listed category |
| Payload.LocationJson | src/components/ImportModal.tsx:194-197 | the location is JSON text of the form `{"lat":...}`, with `null` for a latitude that is NaN |
| Payload.ImageUrls | src/components/ImportModal.tsx:198-200 | a falsy image cell gives no URLs, a truthy number cannot be split, and a text cell gives one URL per comma piece |
| Payload.FormatPoi | src/components/ImportModal.tsx:185-201 | POI mapping succeeds exactly when the category resolves without a throw and the image cell can be split |
| Payload.PoiFormatFailsIff | src/components/ImportModal.tsx:185-201 | POI mapping throws exactly when the category cell is undefined while categories exist, or the image cell is a non-zero number |
| Payload.PoiImageUrls | src/components/ImportModal.tsx:198-200 | a falsy image cell gives `[]`. Otherwise the URLs are the comma pieces trimmed, one more than the commas, none holding a comma or surrounding white space, and the cell is the pieces joined back |
| Payload.PoiPassesThrough | src/components/ImportModal.tsx:190-197 | name and description pass through unchanged, and location is the JSON of the two parsed coordinates |
| Payload.FormatEvent | src/components/ImportModal.tsx:204-211 | event mapping succeeds exactly when both dates are valid (`toISOString` throws otherwise) |
| Payload.EventPassesThrough | src/components/ImportModal.tsx:204-211 | `image_url` is the cell when truthy and null otherwise; title, description and location pass through; the two times are the parsed dates |
| Payload.FormatRow | src/components/ImportModal.tsx:184-212 | a mapped row is a POI payload for the POI modal and an event payload for the event modal |
| Payload.MapRows | src/components/ImportModal.tsx:185 | `data.map` succeeds exactly when every row maps, keeping the length and mapping the k-th row to the k-th payload |
| Payload.FormatForApi | src/components/ImportModal.tsx:183-213 | the mapper follows the modal's kind; it succeeds exactly when every row maps, one payload per row in order |
| Payload.ResolvedCategoryId | src/components/ImportModal.tsx:186-193 | a set category that validation accepted resolves to the id of a category with that name |
| Payload.ValidPoiRowFormats | src/components/ImportModal.tsx:126-201 | a POI row with no errors and a non-numeric image cell maps; its id is a listed category's whose name matches, and both coordinates are numbers in its location |
| Payload.ValidatedPoisFormat | src/components/ImportModal.tsx:183-202 | a POI file with no errors and no numeric image cells maps to one payload per row, each with a listed category's id |
| Payload.ValidatedEventsFormat | src/components/ImportModal.tsx:203-211 | an event file with no errors maps to one payload per row, each starting strictly before it ends |
| Payload.ValidatedFormats | src/components/ImportModal.tsx:183-228 | once the gate lets an import through, the mapper does not throw, apart from a POI file with a numeric image cell |
| ImportModal.TemplateHeaders | src/components/ImportModal.tsx:30-38 | each template's headers are its required fields followed by the image column the mapper reads, and its example row fills every column |
| ImportModal.SuccessToast | src/components/ImportModal.tsx:229-232 | the toast after an import is titled "Success" and is not destructive |
| ImportModal.Modal.constructor | src/components/ImportModal.tsx:22-25 | the modal opens with no file, no preview, no errors and no import in progress |
| ImportModal.Modal.CleanPreviewMaps | src/components/ImportModal.tsx:215-228 | when the listed errors are the preview's validation and there are none, the mapping does not throw, apart from a POI file with a numeric image cell |
| ImportModal.Modal.LoadFile | src/components/ImportModal.tsx:71-112 | a grid that decodes replaces the preview with its records and the errors with their validation. One that does not leaves both as they were and adds the parse error toast |
| ImportModal.Modal.HandleImport | src/components/ImportModal.tsx:215-244 | with errors listed, it only warns and hands nothing over. Otherwise it hands the mapped rows over once; a throw or rejection gives the failure toast, and success gives the count toast and one close request. The importing flag is clear afterwards |
| ImportModal.Modal.BeginImport | src/components/ImportModal.tsx:215-228 | with errors listed, it warns and hands nothing over. Otherwise it sets the importing flag and maps the preview; a throw clears the flag with the failure toast, and a mapping is handed over once as the batch: one payload per preview row, each of the modal's kind |
| ImportModal.Modal.FinishImport | src/components/ImportModal.tsx:228-243 | after the hand-over, a rejection gives the failure toast; otherwise the success toast counts the batch and one close is requested. The importing flag is clear either way |
| ImportModal.Modal.HandleClose | src/components/ImportModal.tsx:246-255 | closing clears the file, the preview and the errors and asks to be closed |
| ImportModal.StalePreviewAfterFailedParse | src/components/ImportModal.tsx:99-108 | after a file that decodes and then one that does not, the preview is still the first file's, with one parse error toast |
| PoiForm.BuildImportForm | src/components/POIs.tsx:185-198 | the form is built entry by entry as `ImportForm` describes |
| PoiForm.ImageFields | src/components/POIs.tsx:193-197 | the first n URLs give at most n image entries, each a text entry that is not empty |
| PoiForm.ImportForm | src/components/POIs.tsx:185-198 | a payload's form has the four fixed entries and at most one more per URL, all of them text |
| PoiForm.AppendImageFields | src/components/POIs.tsx:192-198 | the `forEach` over the URLs appends, in order, each one that is not empty once trimmed, trimmed and keyed by its position |
| PoiForm.NonBlankPositionsFacts | src/components/POIs.tsx:193-196 | the positions sent are exactly those of the URLs that are not empty after trim, in increasing order |
| PoiForm.ImageFieldsAtPositions | src/components/POIs.tsx:193-197 | the image entries are one per URL that is not blank, in order, each the trimmed URL under `image_urls[i]` for its position i among all URLs |
| PoiForm.ImportFormShape | src/components/POIs.tsx:185-198 | any payload's form is name, description, category id and location, then one image entry per URL that is not blank after trim, under its position |
| PoiForm.ImageKeysDistinct | src/components/POIs.tsx:195 | distinct URL positions give distinct form keys |
| PoiForm.ImportFormCarriesUrls | src/components/POIs.tsx:192-198 | URLs from the mapper are already trimmed, so each non-empty one is sent exactly as the payload holds it, under its original index |
| Pois.PoiService.Create | src/services/api.ts:25 | `poisApi.create` sends the form as a new POI; the outcome returned is the server's answer, which is recorded |
| Pois.PoiService.Update | src/services/api.ts:28 | `poisApi.update` sends the form for the given id; the outcome returned is the server's answer, which is recorded |
| Pois.PoiService.Refresh | src/components/POIs.tsx:30-33 | `fetchPOIs` requests the list again and records no create or update answer |
| Pois.Tally | src/components/POIs.tsx:181-207 | after n rows the success and failure counts add up to n, with one message per failure |
| Pois.FailureMessage | src/components/POIs.tsx:205 | a failure message starts with "Row {i+1}: " and ends with " - Import failed" |
| Pois.Requests | src/components/POIs.tsx:183-200 | one create request per payload, the i-th carrying the i-th payload's form |
| Pois.SummaryToast | src/components/POIs.tsx:214-225 | the summary toast is destructive exactly when some row failed |
| Pois.FailedPositions | src/components/POIs.tsx:202-205 | the failed rows' positions, increasing, listing exactly the rows whose request failed |
| Pois.TallyAccounts | src/components/POIs.tsx:200-205 | success counts the succeeded requests; the messages are one per failed row in row order, "Row {i+1}: {name} - Import failed" for batch position i |
| Pois.SummaryToastIff | src/components/POIs.tsx:214-225 | the title is "Import Successful" exactly when nothing failed, and the toast is destructive exactly when something did |
| Pois.MixedBatchExample | src/components/POIs.tsx:183-225 | five rows whose second and fourth requests fail give 3 successes, 2 failures, messages for rows 2 and 4, and "3 successful, 2 failed" |
| Pois.SubmitForm | src/components/POIs.tsx:92-103 | the submitted form has four entries plus one `images[]` entry per chosen file, in order |
| Pois.PoiPage.constructor | src/components/POIs.tsx:12-22 | the page starts with an empty, closed form, nothing being edited and no images |
| Pois.PoiPage.BulkImport | src/components/POIs.tsx:180-226 | every payload is sent once, in order, whatever happened before. The outcomes are the server's answers to those requests, and the counts are their tally; the list is refreshed exactly when something succeeded; one summary toast follows |
| Pois.PoiPage.SendBatch | src/components/POIs.tsx:183-207 | the loop sends the i-th payload's form as the i-th request, its outcome is the server's i-th answer, and the counters equal the tally of the outcomes so far |
| Pois.PoiPage.SendRow | src/components/POIs.tsx:185-200 | one iteration builds the payload's form and sends it as a create request; its outcome is the server's answer |
| Pois.PoiPage.HandleImageChange | src/components/POIs.tsx:167-178 | more than two files are refused with a toast, keeping the images already chosen; otherwise the files replace them. The form never holds more than two images |
| Pois.PoiPage.HandleSubmit | src/components/POIs.tsx:80-129 | a form with an empty name, description, latitude or longitude, or category 0, sends nothing and only warns. Otherwise it sends an update or a create, and the outcome is the server's answer. On success the form is reset and the list refreshed; on failure everything stays |
| Pois.PoiPage.ResetForm | src/components/POIs.tsx:67-78 | the form is emptied and closed and nothing is being edited |
| Pois.PoiPage.StartEdit | src/components/POIs.tsx:151-165 | the form holds the place's fields with its coordinates as text, no images, and is shown for that place |
| Pois.PoiBatch | src/components/POIs.tsx:261 | the modal's POI payloads, passed to `handleBulkImport` unchanged and in order |
| Pois.ImportThroughPage | src/components/ImportModal.tsx:215-244 | the POI modal wired to the page's handler (POIs.tsx:258-263). With errors listed, or a mapping that throws, nothing is sent or closed and the outcome says which. Otherwise the whole preview is handed over once, the page sends one create per row and shows its summary, and the modal shows "Successfully imported N POIs" for all N rows and closes, even when rows failed |
| Pois.HandOver | src/components/ImportModal.tsx:228-233 | `await onImport(...)` with `handleBulkImport` never rejects: the page sends and tallies the batch, and the modal reports every row as imported and asks to close |

## Left out

- Reading the file (FileReader, the XLSX workbook, `sheet_to_json`) is foreign. The model starts from the grid of cells that `sheet_to_json` yields.
- The MIME type check of `handleFileChange` and the template download (`XLSX.writeFile`) are file and browser I/O. Only the template contents are modelled.
- Boolean and date cells, which the reader can also yield, are not modelled; cells are absent, text or numbers.
- A header named `_originalIndex` would be overwritten by the row number; the model keeps the row number apart from the fields.
- `parseFloat`, `Date.parse` and `Number#toString` depend on floating point and host-specific parsing. They are parameters (`Cells.Host`); NaN and the infinities are `None`. Only what the language fixes independently of the host is modelled.
- `Text.Lower`: maps only the letters A to Z; the Unicode case mappings of `toLowerCase` beyond ASCII are not modelled.
- `Payload.FormatEvent`: keeps the start and end as time values instead of their ISO text, because `toISOString` formatting is a rendering of the same value.
- `Text.Trim`: its own ensures only bounds the length; what trimming promises is stated in `Text.TrimShape` and `Text.TrimContent`.
- React rendering, the preview table, the toast UI and loading states are not modelled. Toasts are recorded as values in order.
- Awaiting is sequential in the model. The component's requests are awaited one by one, so no interleaving is lost, but events from the browser during an await are not modelled.
- The network and the server are not modelled. Whether each create or update succeeds is an arbitrary outcome.
- `fetchPOIs` is modelled as the list request only; storing its result and its error toast are not.
- `fetchCategories` is not modelled; the categories are a parameter of the modal.
- `ImportModal.Modal`: the categories are fixed for the modal's lifetime. The component re-renders with new categories when `fetchCategories` returns (POIs.tsx:25-28, 52-65, 263) but keeps errors computed against the old ones. That case is not modelled, so `Valid()` does not describe it.
- `handleDelete` is not modelled (it is outside the import path and the form guards).
- `FormData` is a sequence of key and value pairs in append order; the multipart encoding is not modelled.
- Events.tsx and Categories.tsx are not part of this model. The event payloads are modelled up to the hand-over to `onImport`.

/**
 * The FormData the places-of-interest page sends for one imported place: the four text
 * fields, then one `image_urls[i]` entry per image URL that is not blank once trimmed,
 * keyed by the URL's position in the cell.
 */
module PoiForm {
  import opened Text
  import opened Cells
  import opened Decoder
  import opened Payload

  /** A browser File picked in the form; its contents play no part here. */
  datatype UploadedFile = UploadedFile(fileName: string)

  /** One FormData entry: text, or an attached file. */
  datatype FormValue = Field(text: string) | Attachment(file: UploadedFile)

  type Form = seq<(string, FormValue)>

  /** The FormData key of the image URL at position i of the split cell. */
  function ImageKey(i: nat): string {
    "image_urls[" + NatText(i) + "]"
  }

  /** The entries for the first n of the trimmed image URLs that are not empty, each keyed
      by its position among all the URLs. */
  function ImageFields(trimmed: seq<string>, n: nat): (f: Form)
    requires n <= |trimmed|
    ensures |f| <= n
    ensures forall k :: 0 <= k < |f| ==> f[k].1.Field? && |f[k].1.text| > 0
    decreases n
  {
    if n == 0 then []
    else
      var url := trimmed[n - 1];
      ImageFields(trimmed, n - 1) + (if |url| > 0 then [(ImageKey(n - 1), Field(url))] else [])
  }

  /** The form handleBulkImport builds for one payload; each value is rendered as String
      renders it, and each image URL is trimmed again. */
  function ImportForm(host: Host, p: PoiPayload): (form: Form)
    ensures 4 <= |form| <= 4 + |p.imageUrls|
    ensures forall k :: 0 <= k < |form| ==> form[k].1.Field?
  {
    [("name", Field(Show(host, p.name))),
     ("description", Field(Show(host, p.description))),
     ("category_id", Field(IntText(p.categoryId))),
     ("location", Field(p.location))]
      + ImageFields(TrimAll(p.imageUrls), |p.imageUrls|)
  }

  /** Builds the form entry by entry. */
  method BuildImportForm(host: Host, p: PoiPayload) returns (form: Form)
    ensures form == ImportForm(host, p)
  {
    form := [("name", Field(Show(host, p.name))),
             ("description", Field(Show(host, p.description))),
             ("category_id", Field(IntText(p.categoryId))),
             ("location", Field(p.location))];
    form := AppendImageFields(form, p.imageUrls);
  }

  /** The forEach over the image URLs: each one, trimmed, is appended unless it is empty. */
  method AppendImageFields(start: Form, urls: seq<string>) returns (form: Form)
    ensures form == start + ImageFields(TrimAll(urls), |urls|)
  {
    var fields: Form := [];
    var index := 0;
    while index < |urls|
      invariant index <= |urls|
      invariant fields == ImageFields(TrimAll(urls), index)
    {
      var url := Trim(urls[index]);
      TrimmedFieldsStep(urls, index + 1);
      if |url| > 0 {
        fields := fields + [(ImageKey(index), Field(url))];
      }
      index := index + 1;
    }
    form := start + fields;
  }

  /** One more URL adds its entry when it is not empty. */
  lemma FieldsStep(trimmed: seq<string>, n: nat)
    requires 0 < n <= |trimmed|
    ensures var fs, url := ImageFields(trimmed, n - 1), trimmed[n - 1];
      ImageFields(trimmed, n) == if |url| > 0 then fs + [(ImageKey(n - 1), Field(url))] else fs
  {
  }

  /** One more URL, trimmed, adds its entry when it is not empty. */
  lemma TrimmedFieldsStep(urls: seq<string>, n: nat)
    requires 0 < n <= |urls|
    ensures var fs, url := ImageFields(TrimAll(urls), n - 1), Trim(urls[n - 1]);
      ImageFields(TrimAll(urls), n) == if |url| > 0 then fs + [(ImageKey(n - 1), Field(url))] else fs
  {
    FieldsStep(TrimAll(urls), n);
  }

  /** The positions among the first n trimmed URLs of those that are not empty. */
  function NonBlankPositions(trimmed: seq<string>, n: nat): (ps: seq<nat>)
    requires n <= |trimmed|
    ensures forall k :: 0 <= k < |ps| ==> ps[k] < n
    decreases n
  {
    if n == 0 then []
    else
      var ps := NonBlankPositions(trimmed, n - 1);
      if |trimmed[n - 1]| > 0 then ps + [n - 1] else ps
  }

  /** One more URL adds its position when it is not empty. */
  lemma PositionsStep(trimmed: seq<string>, n: nat)
    requires 0 < n <= |trimmed|
    ensures var ps := NonBlankPositions(trimmed, n - 1);
      NonBlankPositions(trimmed, n) == if |trimmed[n - 1]| > 0 then ps + [n - 1] else ps
  {
  }

  /** The positions are exactly those of the URLs that are not empty, in increasing order. */
  lemma {:induction false} NonBlankPositionsFacts(trimmed: seq<string>, n: nat)
    requires n <= |trimmed|
    ensures var ps := NonBlankPositions(trimmed, n);
      && (forall k :: 0 <= k < |ps| ==> |trimmed[ps[k]]| > 0)
      && (forall k, l :: 0 <= k < l < |ps| ==> ps[k] < ps[l])
      && (forall i :: 0 <= i < n && |trimmed[i]| > 0 ==> i in ps)
    decreases n
  {
    if n > 0 {
      NonBlankPositionsFacts(trimmed, n - 1);
      PositionsStep(trimmed, n);
    }
  }

  /** Only the URLs that are not empty are sent, each under its own position. */
  lemma {:induction false} ImageFieldsAtPositions(trimmed: seq<string>, n: nat)
    requires n <= |trimmed|
    ensures var ps := NonBlankPositions(trimmed, n);
      && |ImageFields(trimmed, n)| == |ps|
      && forall k :: 0 <= k < |ps| ==> ImageFields(trimmed, n)[k] == (ImageKey(ps[k]), Field(trimmed[ps[k]]))
    decreases n
  {
    if n > 0 {
      ImageFieldsAtPositions(trimmed, n - 1);
      PositionsStep(trimmed, n);
    }
  }

  /** The form of any payload: the four fixed entries, then one entry per URL that is
      not empty once trimmed, in cell order, holding the trimmed URL under its position. */
  lemma ImportFormShape(host: Host, p: PoiPayload)
    ensures var trimmed := TrimAll(p.imageUrls);
      var ps := NonBlankPositions(trimmed, |trimmed|);
      var form := ImportForm(host, p);
      && |form| == 4 + |ps|
      && form[0] == ("name", Field(Show(host, p.name)))
      && form[1] == ("description", Field(Show(host, p.description)))
      && form[2] == ("category_id", Field(IntText(p.categoryId)))
      && form[3] == ("location", Field(p.location))
      && forall k :: 0 <= k < |ps| ==> form[4 + k] == (ImageKey(ps[k]), Field(trimmed[ps[k]])) && |trimmed[ps[k]]| > 0
  {
    var trimmed := TrimAll(p.imageUrls);
    ImageFieldsAtPositions(trimmed, |trimmed|);
    NonBlankPositionsFacts(trimmed, |trimmed|);
  }

  /** Distinct positions give distinct keys. */
  lemma ImageKeysDistinct(i: nat, j: nat)
    requires i != j
    ensures ImageKey(i) != ImageKey(j)
  {
    var prefix := "image_urls[";
    if ImageKey(i) == ImageKey(j) {
      var a, b := NatText(i), NatText(j);
      assert |a| == |b|;
      assert a == ImageKey(i)[|prefix|..|prefix| + |a|];
      assert b == ImageKey(j)[|prefix|..|prefix| + |b|];
      NatTextInjective(i, j);
    }
  }

  /** The URLs the mapper produced are already trimmed, so trimming them again changes
      nothing: each URL that is not blank is sent exactly as the payload holds it, under
      its position in the cell. */
  lemma ImportFormCarriesUrls(host: Host, cats: seq<Category>, row: Row)
    requires FormatPoi(host, cats, row).Some?
    ensures var urls := FormatPoi(host, cats, row).value.imageUrls;
      var ps := NonBlankPositions(urls, |urls|);
      && TrimAll(urls) == urls
      && |ImageFields(urls, |urls|)| == |ps|
      && forall k :: 0 <= k < |ps| ==> ImageFields(urls, |urls|)[k] == (ImageKey(ps[k]), Field(urls[ps[k]]))
  {
    var urls := FormatPoi(host, cats, row).value.imageUrls;
    PoiImageUrls(host, cats, row);
    assert TrimAll(urls) == urls;
    ImageFieldsAtPositions(urls, |urls|);
  }
}

/** generatePDF of pdfExporter.js: the guard on the stored value, the button
    lifecycle, the file name, the image scaling and the page-splitting loop.
    html2canvas and jsPDF are reduced to what the loop consumes: the canvas
    size the rasteriser produced for the markup, and the page size jsPDF
    reports; either call may throw. */
module PdfExporter {
  import opened Wrappers
  import opened JsonValue
  import opened TableGenerator
  import opened App

  const Margin: real := 10.0
  const DefaultFileName := "json-table-export"
  const ExportLabel := "Export as PDF"
  const LoadingLabel := "<span class=\"loading\"></span> Generating PDF..."

  type Pixels = n: nat | 0 < n witness 1

  /** The rasterised off-screen container, in pixels. */
  datatype Canvas = Canvas(width: Pixels, height: nat)

  /** The page size jsPDF reports for the chosen format and orientation, in mm. */
  datatype Page = Page(width: real, height: real)

  /** Every jsPDF page format leaves room inside the two margins. */
  predicate RoomInsideMargins(p: Page)
  {
    p.width > 2.0 * Margin && p.height > 2.0 * Margin
  }

  /** The rasteriser (html2canvas at the chosen scale) applied to markup. */
  type Rasterizer = string -> Outcome<Canvas>

  datatype Alert = GenerateFirst | ExportFailed(message: string)

  function AlertText(a: Alert): string
  {
    match a
    case GenerateFirst => "Please generate a table first!"
    case ExportFailed(m) => "Error generating PDF: " + m
  }

  /** What `pdf.save` receives: the markup that was rasterised, the image size
      on the page, and the y position of the image on each page in turn. */
  datatype SavedPdf = SavedPdf(name: string, markup: string, imageWidth: real, imageHeight: real, offsets: seq<real>)

  datatype Export = Export(state: AppState, alert: Option<Alert>, saved: Option<SavedPdf>)

  /** `fileName.value || 'json-table-export'`, then the `.pdf` extension. */
  function PdfFileName(field: string): (r: string)
    ensures |r| > 4 && r[|r| - 4..] == ".pdf"
    ensures field != "" ==> r[..|r| - 4] == field
    ensures field == "" ==> r[..|r| - 4] == DefaultFileName
  {
    var stem := if field == "" then DefaultFileName else field;
    stem + ".pdf"
  }

  /** The image fills the page between the left and the right margin. */
  function ImageWidth(p: Page): (w: real)
    ensures Margin + w + Margin == p.width
    ensures RoomInsideMargins(p) ==> w > 0.0
  {
    p.width - 2.0 * Margin
  }

  /** The image keeps the canvas's aspect ratio at the page's inner width. */
  function ImageHeight(c: Canvas, p: Page): (h: real)
    requires RoomInsideMargins(p)
    ensures h * (c.width as real) == (c.height as real) * ImageWidth(p)
    ensures h >= 0.0
  {
    ((c.height as real) * ImageWidth(p)) / (c.width as real)
  }

  /** Page k shows the image shifted up by k usable heights. */
  ghost predicate ShiftedByPage(offsets: seq<real>, usable: real)
  {
    forall k :: 0 <= k < |offsets| ==> offsets[k] == Margin - (k as real) * usable
  }

  /** The page-splitting loop of generatePDF: the image on the first page at
      the top margin, then, while some of its height is left over, a new page
      with the image placed one usable height higher. */
  method Paginate(imgHeight: real, pageHeight: real) returns (offsets: seq<real>)
    requires pageHeight > 2.0 * Margin
    ensures |offsets| >= 1
    ensures ShiftedByPage(offsets, pageHeight - 2.0 * Margin)
    ensures imgHeight <= (|offsets| as real) * (pageHeight - 2.0 * Margin)
    ensures |offsets| == 1 || ((|offsets| - 1) as real) * (pageHeight - 2.0 * Margin) < imgHeight
    ensures |offsets| == 1 <==> imgHeight <= pageHeight - 2.0 * Margin
  {
    var usable := pageHeight - 2.0 * Margin;
    if imgHeight <= usable {
      offsets := [Margin];
    } else {
      var heightLeft := imgHeight;
      var position := 0.0;
      offsets := [Margin];
      heightLeft := heightLeft - usable;
      ghost var bound := (imgHeight / usable).Floor + 1;
      BelowQuotient(1, usable, imgHeight);
      while heightLeft > 0.0
        invariant |offsets| >= 1
        invariant heightLeft == imgHeight - (|offsets| as real) * usable
        invariant ShiftedByPage(offsets, usable)
        invariant ((|offsets| - 1) as real) * usable < imgHeight
        invariant |offsets| <= bound
        decreases bound - |offsets|
      {
        position := heightLeft - imgHeight;
        offsets := offsets + [position + Margin];
        heightLeft := heightLeft - usable;
        BelowQuotient(|offsets| - 1, usable, imgHeight);
      }
    }
  }

  /** An integer count of usable heights that stays below the image height is
      at most the floor of their quotient. */
  lemma BelowQuotient(n: int, usable: real, imgHeight: real)
    requires usable > 0.0
    requires (n as real) * usable < imgHeight
    ensures n <= (imgHeight / usable).Floor
  {
    var q := imgHeight / usable;
    assert q * usable == imgHeight;
    assert (n as real) < q;
  }

  /** The guard at the top of generatePDF as written: `!currentJsonData` also turns away
      the stored values false, 0, "" and null. */
  predicate PassesGuardAsWritten(current: Option<Json>)
  {
    current.Some? && Truthy(current.value)
  }

  /** The guard as intended: some value has been stored. */
  predicate PassesGuard(current: Option<Json>)
  {
    current.Some?
  }

  /** What an export that got past the guard leaves behind: the button
      re-enabled with its label reset (the `finally` block); the PDF saved
      exactly when rasterising and page setup both succeed, under the chosen
      file name, with the export table of the stored value as its markup and
      the offsets of the page-splitting loop; otherwise the thrown message in
      the alert. */
  ghost predicate Exported(st: AppState, fileField: string, rasterize: Rasterizer, page: Outcome<Page>, e: Export)
    requires st.current.Some?
  {
    var shot := rasterize(MinimalPdfTable(st.current.value));
    && e.state == st.(pdfDisabled := false, pdfLabel := ExportLabel)
    && (e.saved.Some? <==> shot.Ok? && page.Ok?)
    && (e.saved.Some? ==> e.alert.None?)
    && (shot.Thrown? ==> e.alert == Some(ExportFailed(shot.message)))
    && (shot.Ok? && page.Thrown? ==> e.alert == Some(ExportFailed(page.message)))
    && (e.saved.Some? ==>
          var s := e.saved.value;
          var usable := page.value.height - 2.0 * Margin;
          && s.name == PdfFileName(fileField)
          && s.markup == MinimalPdfTable(st.current.value)
          && s.imageWidth == ImageWidth(page.value)
          && s.imageHeight * (shot.value.width as real) == (shot.value.height as real) * s.imageWidth
          && |s.offsets| >= 1
          && ShiftedByPage(s.offsets, usable)
          && s.imageHeight <= (|s.offsets| as real) * usable
          && (|s.offsets| == 1 || ((|s.offsets| - 1) as real) * usable < s.imageHeight))
  }

  /** The body of generatePDF once the guard has passed: the button is
      disabled while the export runs and re-enabled, with its label reset, on
      every exit. */
  method ExportStored(st: AppState, fileField: string, rasterize: Rasterizer, page: Outcome<Page>)
    returns (e: Export)
    requires st.current.Some?
    requires page.Ok? ==> RoomInsideMargins(page.value)
    ensures Exported(st, fileField, rasterize, page, e)
  {
    var busy := st.(pdfDisabled := true, pdfLabel := LoadingLabel);
    var alert: Option<Alert> := None;
    var saved: Option<SavedPdf> := None;
    var fileName := PdfFileName(fileField);
    var markup := MinimalPdfTable(st.current.value);
    match rasterize(markup) {
      case Thrown(m) =>
        alert := Some(ExportFailed(m));
      case Ok(canvas) =>
        match page {
          case Thrown(m) =>
            alert := Some(ExportFailed(m));
          case Ok(p) =>
            var imgWidth := ImageWidth(p);
            var imgHeight := ImageHeight(canvas, p);
            var offsets := Paginate(imgHeight, p.height);
            saved := Some(SavedPdf(fileName, markup, imgWidth, imgHeight, offsets));
        }
    }
    // finally
    e := Export(busy.(pdfDisabled := false, pdfLabel := ExportLabel), alert, saved);
  }

  /** generatePDF as written: the guard, then the export. */
  method GeneratePdfAsWritten(st: AppState, fileField: string, rasterize: Rasterizer, page: Outcome<Page>)
    returns (e: Export)
    requires page.Ok? ==> RoomInsideMargins(page.value)
    ensures !PassesGuardAsWritten(st.current) ==> e == Export(st, Some(GenerateFirst), None)
    ensures !PassesGuardAsWritten(st.current) ==> AlertText(e.alert.value) == "Please generate a table first!"
    ensures PassesGuardAsWritten(st.current) ==> Exported(st, fileField, rasterize, page, e)
    ensures PassesGuardAsWritten(st.current) ==> e.alert != Some(GenerateFirst)
    ensures EnabledOnlyWithValue(st) ==> EnabledOnlyWithValue(e.state)
  {
    if !PassesGuardAsWritten(st.current) {
      e := Export(st, Some(GenerateFirst), None);
    } else {
      e := ExportStored(st, fileField, rasterize, page);
    }
  }

  /** generatePDF with the guard testing whether a value was stored. */
  method GeneratePdf(st: AppState, fileField: string, rasterize: Rasterizer, page: Outcome<Page>)
    returns (e: Export)
    requires page.Ok? ==> RoomInsideMargins(page.value)
    ensures !PassesGuard(st.current) ==> e == Export(st, Some(GenerateFirst), None)
    ensures !PassesGuard(st.current) ==> AlertText(e.alert.value) == "Please generate a table first!"
    ensures PassesGuard(st.current) ==> Exported(st, fileField, rasterize, page, e)
    ensures PassesGuard(st.current) ==> e.alert != Some(GenerateFirst)
    ensures EnabledOnlyWithValue(st) && !st.pdfDisabled ==> e.alert != Some(GenerateFirst)
    ensures EnabledOnlyWithValue(st) ==> EnabledOnlyWithValue(e.state)
  {
    if !PassesGuard(st.current) {
      e := Export(st, Some(GenerateFirst), None);
    } else {
      e := ExportStored(st, fileField, rasterize, page);
    }
  }
}

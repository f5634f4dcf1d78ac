# JSONtoTable in Dafny

A model of the core of JSONtoTable, a browser utility that renders JSON as
HTML tables and exports the rendering to PDF. It covers three parts.

- **The renderers of `tableGenerator.js`.** These are pure functions from a
  parsed JSON value to a markup string:
  - `formatPrimitiveValue` renders primitives;
  - `createNestedTable` and `createMainTable` render objects;
  - `createArrayDisplay` renders arrays;
  - `createMinimalPDFTable` is the unstyled variant used for export.

  They are mutually recursive Dafny functions over a `Json` datatype. Each one
  is related to a reference shape: one row per entry and one item per element,
  in order. A formatted primitive can also be read back.
- **The two entry points of `app.js`.** `generateTable` and
  `generateHierarchicalTable` are transitions of a state record. The record
  holds the stored value (`currentJsonData`), the export button's disabled flag
  and label, and the markup of the output area. `JSON.parse` and
  `createHierarchicalTable` are parameters that may throw.
- **`generatePDF` of `pdfExporter.js`.** The model covers:
  - the guard on the stored value;
  - the button lifecycle, including the `finally` reset;
  - the file name;
  - the image scaling;
  - the page-splitting loop, as a method with loop invariants that returns the
    y position of the image on every page.

Modules: `Wrappers` (Option, Outcome), `JsStrings` (concatenation, decimal
text of an index, `trim`), `JsonValue`, `TableGenerator` and
`TableProperties`, `App` and `AppProperties`, `PdfExporter` and
`PdfProperties`.

## Model

| member | source | states |
|---|---|---|
| TableGenerator.FormatPrimitive | tableGenerator.js:14-26 | Renders a primitive as a span whose class names its kind, with its text verbatim. It has no contract of its own: the read-back is `TableProperties.ReadSpanFormat` and injectivity is `TableProperties.FormatPrimitiveInjective`. |
| TableGenerator.ValueCell | tableGenerator.js:43-49 | The value dispatch shared by the nested table, the main table and the general array loop: a primitive gets its span, an array the array display, an object a nested table. The views below state it row by row. |
| TableGenerator.NestedTable | tableGenerator.js:35-57 | Renders an object as a `nested-table`. Its shape is stated by `TableProperties.ObjectTablesShareShape`. |
| TableGenerator.NestedRows | tableGenerator.js:38-53 | The rows of a nested table. The row-per-entry view is `TableProperties.NestedRowsView`. |
| TableGenerator.ArrayDisplay | tableGenerator.js:64-98 | Renders an array. The marker-or-container shape is `TableProperties.ArrayDisplayView` and `TableProperties.EmptyMarkerOnlyForEmpty`. |
| TableGenerator.PrimitiveItems | tableGenerator.js:73-80 | The all-primitive loop. `TableProperties.FastPathAgrees` shows it builds what the general loop builds. |
| TableGenerator.ArrayItems | tableGenerator.js:82-97 | The general loop over array elements. The item-per-element view is `TableProperties.ArrayItemsView`. |
| TableGenerator.MainTable | tableGenerator.js:105-127 | Renders a top-level object as the `main-table`. Its shape is stated by `TableProperties.ObjectTablesShareShape`. |
| TableGenerator.MainRows | tableGenerator.js:108-123 | The rows of the main table. The row-per-entry view is `TableProperties.MainRowsView`. |
| TableGenerator.MinimalPdfTable | tableGenerator.js:134-197 | The export table of a value. Its cases are stated by `TableProperties.MinimalPdfLeaves`, `TableProperties.MinimalPdfArray` and `TableProperties.MinimalPdfObject`. |
| TableGenerator.PdfCell | tableGenerator.js:159-165 | A nested value in the export table: `null` as plain text, another primitive as its text, a container as a whole export table. `TableProperties.MinimalPdfLeaves` relates it to the top-level case. |
| TableGenerator.PdfIndexRows | tableGenerator.js:154-169 | The indexed rows of an exported array. The row-per-element view is `TableProperties.PdfIndexRowsView`. |
| TableGenerator.PdfKeyRows | tableGenerator.js:178-193 | The keyed rows of an exported object. The row-per-entry view is `TableProperties.PdfKeyRowsView`. |
| TableProperties.ReadSpanFormat | tableGenerator.js:14-26 | A primitive's span can be read back to the same value. The class names its kind (null, string, number, boolean) and the text sits between the tags verbatim, unescaped. |
| TableProperties.FormatPrimitiveInjective | tableGenerator.js:14-26 | Two primitives that format to the same span are the same value. The kind tag tells `"1"` from `1` and `"null"` from `null`. |
| TableProperties.NestedRowsView | tableGenerator.js:38-53 | The nested table's rows are one `<tr>` per entry, in entry order. Each row holds the key verbatim in a `nested-key` cell and that entry's rendered value in a `nested-value` cell. |
| TableProperties.MainRowsView | tableGenerator.js:108-123 | The main table's rows are one `<tr>` per entry, in entry order, with `key-column` and `value-column` cells. |
| TableProperties.ObjectTablesShareShape | tableGenerator.js:105-127 | `createMainTable` and `createNestedTable` are the same parameterised table. Both have the same rows and the same value dispatch; only the table, key and value class names differ. |
| TableProperties.ArrayItemsView | tableGenerator.js:82-97 | The general array loop gives one `array-item` div per element, in element order. Each element is dispatched by shape. |
| TableProperties.FastPathAgrees | tableGenerator.js:73-80 | On an all-primitive array, the fast loop builds exactly the string the general loop builds. |
| TableProperties.ArrayDisplayView | tableGenerator.js:64-98 | An empty array gives the fixed `empty array` marker. Any other array gives one `array-container` holding one item per element, in order, whichever loop ran. |
| TableProperties.EmptyMarkerOnlyForEmpty | tableGenerator.js:65-67 | The result is the `empty array` marker if and only if the array is empty. A non-empty array never renders as an empty container. |
| TableProperties.PdfIndexRowsView | tableGenerator.js:154-169 | The export table of an array has one row per element, in order. The row for element i shows the index `i` and that element's cell. |
| TableProperties.MinimalPdfArray | tableGenerator.js:150-173 | An exported array is the Index/Value header followed by rows indexed 0..n-1. An empty array gives the header row alone, with no `empty array` marker. |
| TableProperties.IndexCellsDistinct | tableGenerator.js:156 | Rows with different indices show different index text. |
| JsStrings.NatToDecimal | tableGenerator.js:156 | An index prints as a non-empty string of decimal digits. It has a leading `0` only when the index is 0. |
| JsStrings.DecimalRoundTrip | tableGenerator.js:156 | Reading an index's printed digits back gives the index. |
| TableProperties.PdfKeyRowsView | tableGenerator.js:178-193 | The export table of an object has one row per entry, in order. Each row shows the key in the bold cell and that entry's cell beside it. |
| TableProperties.MinimalPdfObject | tableGenerator.js:175-196 | An exported object is one bordered table whose rows are exactly those entry rows. |
| TableProperties.MinimalPdfLeaves | tableGenerator.js:135-147 | A top-level primitive other than null gives a one-row `Value` table showing the text it would show nested. A top-level null gives `No data`, where a nested null shows `null`. |
| JsStrings.Trim | app.js:10 | `trim` keeps the infix of the input that lies between a blank prefix and a blank suffix. The result neither starts nor ends with a space, and it is empty exactly when the input is blank. |
| App.PrimitiveMainTable | app.js:40-45 | The one-row `main-table` a top-level primitive gets, with key `Value`. Its value cell reads back to the primitive, so different primitives give different tables. |
| App.RenderBody | app.js:27-46 | A non-null object with both a `name` and a `children` key goes to the tree renderer ahead of every other branch. An array goes to the array display in a `value-column` div, another object to the main table, and a primitive to a one-row `Value` main table. Only the tree renderer can throw. |
| App.GenerateTable | app.js:9-58 | Blank input shows `Please enter JSON data`, disables the button and keeps the stored value. A parse error shows `Invalid JSON: <message>`, disables the button and keeps the stored value. A parsed value is stored before rendering. The button ends enabled exactly when parsing and rendering both succeed, and the output is then the rendering inside `tableContent`. When the tree renderer throws on a valid value, the output is `Invalid JSON: <message>` and the value stays stored. An enabled button always has a stored value. |
| App.GenerateHierarchicalTable | app.js:64-102 | Blank input and parse errors behave as in `generateTable`. A parsed value is stored even when it is not a tree node; it then gets the shape message and a disabled button. The button is enabled exactly for a tree node whose rendering succeeded. A tree node whose rendering throws shows `Invalid JSON: <message>`. |
| AppProperties.EntryPointsAgree | app.js:75-96 | The two entry points leave the same state unless the input parses to a value that is not a tree node. |
| AppProperties.GenerateTableIdempotent | app.js:9-58 | Generating again from the same input leaves the state unchanged. |
| AppProperties.GenerateTableForgetsOutput | app.js:14-57 | The output area and the button state after `generateTable` depend only on the input, never on the state before. |
| PdfExporter.PdfFileName | pdfExporter.js:27 | The saved name is the file-name field plus `.pdf`, or `json-table-export.pdf` when the field is empty. It is never just `.pdf`. |
| PdfExporter.ImageWidth | pdfExporter.js:85 | The image spans the page from the left margin to the right margin, and its width is positive on every page that has room inside the margins. |
| PdfExporter.ImageHeight | pdfExporter.js:85-86 | The image keeps the canvas's aspect ratio at the page's inner width: `imgHeight * canvas.width == canvas.height * imgWidth`. |
| PdfExporter.Paginate | pdfExporter.js:91-110 | The loop terminates. There is one page exactly when the image fits the usable height, and then the image sits at `margin`. Page k shows the image at y = `margin - k*usable`. The page count n is the least n ≥ 1 with `imgHeight <= n*usable`, which is ceil(`imgHeight / usable`) when `imgHeight > 0`. An image of height 0 still gets one page. |
| PdfProperties.EveryRowShownOnce | pdfExporter.js:96-109 | Every row of the image falls between the margins of exactly one page. |
| PdfExporter.ExportStored | pdfExporter.js:20-136 | The markup that is rasterised is the export table of the stored value. The PDF is saved exactly when rasterising and page setup both succeed, under the file name above, with the computed offsets. On any failure the alert carries the thrown message. In every case the button ends enabled and labelled `Export as PDF`. The outcome is stated as one predicate, `PdfExporter.Exported`. |
| PdfExporter.GeneratePdfAsWritten | pdfExporter.js:14-17 | A missing or falsy stored value (`null`, `false`, `0`, `""`) raises the alert `Please generate a table first!` and changes no state. Otherwise the outcome is the export's outcome in full (`PdfExporter.Exported`): the PDF is saved exactly when rasterising and page setup succeed, or the alert carries the thrown message, and the button is reset. |
| PdfExporter.GeneratePdf | pdfExporter.js:10-137 | `generatePDF` with the guard from Findings. Whenever a value is stored, the outcome is the export's outcome in full (`PdfExporter.Exported`). An enabled button, reached through either entry point, never meets the `generate a table first` alert. An export keeps the rule that an enabled button has a stored value. |
| PdfProperties.FalsyValueRefusedAsWritten | pdfExporter.js:14-17 | After `generateTable` stores a falsy value, the button is enabled but the guard as written refuses the export. |
| PdfProperties.FalsyValueExported | pdfExporter.js:14-17 | With the guard from Findings, the same stored falsy value passes the guard. |

## Left out

- Numbers are held as their Number::toString text (section 6.1.6.1.20 of ECMAScript 2023). IEEE-754 parsing and formatting are not modelled. A number counts as falsy when its text is `0`, which covers both +0 and -0.
- PdfExporter.ImageHeight: the height is computed over exact reals. The program uses IEEE-754 doubles, so its rounding is not modelled.
- PdfExporter.Paginate: `heightLeft` is tracked over exact reals. With doubles, rounding can add or drop a page when `imgHeight` is at or very near a multiple of the usable height, so the page count stated here is the exact-arithmetic count.
- Strings and object keys are Dafny strings of Unicode scalar values. They cannot hold the lone UTF-16 surrogates that `JSON.parse` accepts (for example `"\ud800"`). No contract depends on this.
- `Object.entries` order (section 10.1.11.1 of ECMAScript 2023) is taken as given: an object's entries are the sequence that call yields.
- `JSON.parse` (section 25.5.1 of ECMAScript 2023) is an abstract parser parameter that returns a value or a thrown message.
- `createHierarchicalTable` is not part of this model. It is a parameter that returns markup or a thrown message.
- The `typeof` fallback span of `formatPrimitiveValue` (tableGenerator.js:27) is left out. A parsed JSON value never reaches it.
- The `undefined` test of `createMinimalPDFTable` (tableGenerator.js:135) is left out. A parsed JSON value is never `undefined`.
- A stack overflow on deeply nested input is not modelled. In `generateTable` and `generateHierarchicalTable` the catch would show `Invalid JSON: <message>`. In `generatePDF` it would alert `Error generating PDF: <message>`, where the model saves the PDF.
- The DOM is reduced to a state record. This leaves out `innerHTML` assignment, `alert` (kept as an alert value), `console.error`, and the success message with its three-second removal (pdfExporter.js:115-127).
- `html2canvas` is reduced to a function from markup to a canvas size or a thrown message. The page header with the current date is not part of the markup handed to it. The canvas width is taken as positive.
- `jsPDF` construction is reduced to the page size it reports, or a thrown message. The page is assumed to be wider and taller than the two margins, which every jsPDF format is. `addImage`, `addPage`, `save` and `toDataURL` are reduced to the recorded offsets and name; a throw from them is not modelled separately.
- The quality setting, page format and orientation reach the model only through the rasteriser and the page-size parameters.
- The `async`/`await` structure is modelled as one sequential run. The unused `page` counter (pdfExporter.js:98) is not modelled.
- Whether the emitted HTML is well formed is not claimed. Keys and strings are inserted unescaped.
- Theme handling, resize glue and `window.onload` are outside the core.

## Findings

| source | as written | input that shows it | evidently intended | confidence | as-written member | corrected member |
|---|---|---|---|---|---|---|
| pdfExporter.js:14-17 | `if (!currentJsonData)` refuses every falsy stored value, yet `generateTable` has just rendered that value and enabled the export button | enter `0` (or `false`, `""`, `null`), press Generate, then Export: the table and enabled button show, but the alert says "Please generate a table first!" | refuse only when no value has been stored. Only under this reading does a top-level `null` reach the `null` branch of `createMinimalPDFTable` (tableGenerator.js:135-137), and only under it do `0`, `false` and `""` reach its primitive branch. Truthy primitives reach that branch under either guard. | medium, not executed | PdfProperties.FalsyValueRefusedAsWritten | PdfExporter.GeneratePdf |

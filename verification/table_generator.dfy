/** The JSON-to-markup renderers of tableGenerator.js: a closed family of
    mutually recursive functions from a parsed value to an HTML string. Keys
    and strings are inserted verbatim, never escaped. */
module TableGenerator {
  import opened Wrappers
  import opened JsStrings
  import opened JsonValue

  // ----- formatPrimitiveValue -----

  const SpanOpen := "<span class=\"primitive-value "
  const SpanClose := "</span>"

  const NullKind := "null-value"
  const BooleanKind := "boolean-value"
  const NumberKind := "number-value"
  const StringKind := "string-value"

  /** The class that tags a primitive's span with its runtime type. */
  function KindClass(v: Json): string
    requires v.IsPrimitive()
  {
    match v
    case JNull => NullKind
    case JBool(_) => BooleanKind
    case JNum(_) => NumberKind
    case JStr(_) => StringKind
  }

  /** A primitive as a span tagged with its kind, holding its text verbatim.
      `formatPrimitiveValue` spells out one literal per kind; each is this concatenation. */
  function FormatPrimitive(v: Json): string
    requires v.IsPrimitive()
  {
    SpanOpen + KindClass(v) + "\">" + Text(v) + SpanClose
  }

  predicate HasPrefix(s: string, p: string)
  {
    |p| <= |s| && s[..|p|] == p
  }

  /** Reads a formatted span back: the kind class gives the type and the text
      between the tags is the value itself. */
  function ReadSpan(r: string): Option<Json>
  {
    var n := |SpanOpen|;
    if |r| < n + |SpanClose| || r[..n] != SpanOpen || r[|r| - |SpanClose|..] != SpanClose then None
    else ReadKind(r[n..|r| - |SpanClose|])
  }

  function ReadKind(inner: string): Option<Json>
  {
    if HasPrefix(inner, NullKind + "\">") then
      (if inner[|NullKind + "\">"|..] == "null" then Some(JNull) else None)
    else if HasPrefix(inner, BooleanKind + "\">") then
      (var text := inner[|BooleanKind + "\">"|..];
       if text == "true" then Some(JBool(true))
       else if text == "false" then Some(JBool(false))
       else None)
    else if HasPrefix(inner, NumberKind + "\">") then Some(JNum(inner[|NumberKind + "\">"|..]))
    else if HasPrefix(inner, StringKind + "\">") then Some(JStr(inner[|StringKind + "\">"|..]))
    else None
  }

  // ----- createNestedTable, createArrayDisplay, createMainTable -----

  /** One `<tr>` of a two-column table: the key verbatim in the key cell, then
      the rendered value in the value cell. */
  function Row(keyClass: string, valueClass: string, key: string, cell: string): string
  {
    "<tr>" + "<td class=\"" + keyClass + "\">" + key + "</td>"
    + "<td class=\"" + valueClass + "\">" + cell + "</td>" + "</tr>"
  }

  /** The value dispatch every renderer shares: primitive to its span, array to
      the array display, object to a nested table. */
  function ValueCell(v: Json): string
    decreases v
  {
    match v
    case JArr(xs) => ArrayDisplay(xs)
    case JObj(es) => NestedTable(es)
    case _ => FormatPrimitive(v)
  }

  function TableOpen(tableClass: string): string
  {
    "<table class=\"" + tableClass + "\">"
  }

  function NestedTable(es: seq<(string, Json)>): string
    decreases es, 1
  {
    TableOpen("nested-table") + NestedRows(es) + "</table>"
  }

  function NestedRows(es: seq<(string, Json)>): string
    decreases es, 0
  {
    if es == [] then ""
    else
      var (key, value) := es[0];
      assert value < es[0];
      Row("nested-key", "nested-value", key, ValueCell(value)) + NestedRows(es[1..])
  }

  const EmptyArrayMarker := "<span class=\"primitive-value null-value\">empty array</span>"
  const ContainerOpen := "<div class=\"array-container\">"

  function ArrayItem(cell: string): string
  {
    "<div class=\"array-item\">" + cell + "</div>"
  }

  /** An empty array is a fixed marker; otherwise one container of items, built
      by a separate loop when every element is primitive. */
  function ArrayDisplay(xs: seq<Json>): string
    decreases xs, 1
  {
    if |xs| == 0 then EmptyArrayMarker
    else if AllPrimitive(xs) then ContainerOpen + PrimitiveItems(xs) + "</div>"
    else ContainerOpen + ArrayItems(xs) + "</div>"
  }

  /** The all-primitive loop: each element's span in an item div. */
  function PrimitiveItems(xs: seq<Json>): string
    requires AllPrimitive(xs)
  {
    if xs == [] then "" else ArrayItem(FormatPrimitive(xs[0])) + PrimitiveItems(xs[1..])
  }

  /** The general loop: each element dispatched by shape, in an item div. */
  function ArrayItems(xs: seq<Json>): string
    decreases xs, 0
  {
    if xs == [] then "" else ArrayItem(ValueCell(xs[0])) + ArrayItems(xs[1..])
  }

  function MainTable(es: seq<(string, Json)>): string
  {
    TableOpen("main-table") + MainRows(es) + "</table>"
  }

  function MainRows(es: seq<(string, Json)>): string
  {
    if es == [] then ""
    else Row("key-column", "value-column", es[0].0, ValueCell(es[0].1)) + MainRows(es[1..])
  }

  // ----- createMinimalPDFTable -----

  const PdfTableOpen := "<table style=\"width:100%; border-collapse:collapse; border:1px solid #000;\">"
  const PdfCellStyle := "border:1px solid #000; padding:8px;"
  const PdfKeyStyle := "border:1px solid #000; padding:8px; width:30%; font-weight:bold;"
  const PdfIndexHeader :=
    "<tr><th style=\"border:1px solid #000; padding:8px;\">Index</th>"
    + "<th style=\"border:1px solid #000; padding:8px;\">Value</th></tr>"
  const NoData := "<div>No data</div>"

  /** The single-row table a top-level primitive gets, left cell `Value`. */
  function PdfValueTable(text: string): string
  {
    PdfTableOpen + "\n            <tr>\n"
    + "                <td style=\"border:1px solid #000; padding:8px; width:30%;\">Value</td>\n"
    + "                <td style=\"border:1px solid #000; padding:8px;\">" + text + "</td>\n"
    + "            </tr>\n        </table>"
  }

  function PdfRow(leftStyle: string, left: string, right: string): string
  {
    "<tr>" + "<td style=\"" + leftStyle + "\">" + left + "</td>"
    + "<td style=\"" + PdfCellStyle + "\">" + right + "</td>" + "</tr>"
  }

  /** The unstyled variant rendered off-screen for export. */
  function MinimalPdfTable(v: Json): string
    decreases v, 0
  {
    match v
    case JNull => NoData
    case JArr(xs) => PdfTableOpen + PdfIndexHeader + PdfIndexRows(xs, 0) + "</table>"
    case JObj(es) => PdfTableOpen + PdfKeyRows(es) + "</table>"
    case _ => PdfValueTable(Text(v))
  }

  /** A nested value: `null` as plain text, other primitives as their text,
      containers as a whole minimal table. */
  function PdfCell(v: Json): string
    decreases v, 1
  {
    if v.JNull? then "null"
    else if v.IsPrimitive() then Text(v)
    else MinimalPdfTable(v)
  }

  /** Rows of an array, the first of them numbered `index`. */
  function PdfIndexRows(xs: seq<Json>, index: nat): string
    decreases xs
  {
    if xs == [] then ""
    else PdfRow(PdfCellStyle, NatToDecimal(index), PdfCell(xs[0])) + PdfIndexRows(xs[1..], index + 1)
  }

  function PdfKeyRows(es: seq<(string, Json)>): string
    decreases es
  {
    if es == [] then ""
    else
      var (key, value) := es[0];
      assert value < es[0];
      PdfRow(PdfKeyStyle, key, PdfCell(value)) + PdfKeyRows(es[1..])
  }
}

/** The two entry points of app.js: read the input box, parse it, pick a
    renderer by the value's shape, and update the output area, the stored
    value and the export button. The DOM is reduced to a state record;
    JSON.parse and the tree renderer (createHierarchicalTable, not part of
    this model) are parameters that may throw. */
module App {
  import opened Wrappers
  import opened JsStrings
  import opened JsonValue
  import opened TableGenerator
  import opened TableProperties

  /** `current` is the shared currentJsonData (None before any parse),
      `pdfDisabled` and `pdfLabel` the export button, `output` the markup of the
      output area. */
  datatype AppState = AppState(current: Option<Json>, pdfDisabled: bool, pdfLabel: string, output: string)

  /** JSON.parse (section 25.5.1 of ECMAScript 2023): a value or a SyntaxError message. */
  type Parser = string -> Outcome<Json>

  /** createHierarchicalTable: markup for a tree-shaped value, or a thrown message. */
  type TreeRenderer = Json -> Outcome<string>

  const PleaseEnter := "<div class=\"error\">Please enter JSON data</div>"

  function InvalidJson(message: string): string
  {
    "<div class=\"error\">Invalid JSON: " + message + "</div>"
  }

  const ShapeError :=
    "<div class=\"error\">\n"
    + "                Input data is not in the expected hierarchical format. \n"
    + "                Expected a JSON object with 'name' and 'children' properties.\n"
    + "                <pre>{\n"
    + "  \"name\": \"Root\",\n"
    + "  \"children\": [\n"
    + "    { \"name\": \"Child1\", \"children\": [...] },\n"
    + "    { \"name\": \"Child2\", \"children\": [...] }\n"
    + "  ]\n"
    + "}</pre>\n"
    + "            </div>"

  function TableContent(body: string): string
  {
    "<div id=\"tableContent\">" + body + "</div>"
  }

  /** The markup around the value cell of the one-row table a top-level
      primitive gets: the `main-table` opening and the `Value` key cell before
      it, the closing tags after it. */
  const PrimitiveRowOpen :=
    TableOpen("main-table") + "\n                <tr>\n"
    + "                    <td class=\"key-column\">Value</td>\n"
    + "                    <td class=\"value-column\">"
  const PrimitiveRowClose := "</td>\n                </tr>\n            </table>"

  /** The one-row main table a top-level primitive gets, key `Value`. Its
      value cell reads back to the primitive. */
  function PrimitiveMainTable(v: Json): (r: string)
    requires v.IsPrimitive()
    ensures ReadPrimitiveTable(r) == Some(v)
  {
    ReadSpanFormat(v);
    FrameSlice(PrimitiveRowOpen, FormatPrimitive(v), PrimitiveRowClose);
    PrimitiveRowOpen + FormatPrimitive(v) + PrimitiveRowClose
  }

  /** Reads a one-row primitive table back: the frame must match and the value
      cell must hold a formatted primitive. */
  function ReadPrimitiveTable(r: string): Option<Json>
  {
    var n := |PrimitiveRowOpen|;
    var m := |PrimitiveRowClose|;
    if |r| < n + m || r[..n] != PrimitiveRowOpen || r[|r| - m..] != PrimitiveRowClose then None
    else ReadSpan(r[n..|r| - m])
  }

  /** The shape dispatch of generateTable: a tree node goes to the tree
      renderer ahead of every other branch; only that renderer can throw. */
  function RenderBody(v: Json, tree: TreeRenderer): (r: Outcome<string>)
    ensures IsHierarchical(v) ==> r == tree(v)
    ensures !IsHierarchical(v) ==> r.Ok?
    ensures v.JArr? ==> r == Ok("<div class=\"value-column\">" + ArrayDisplay(v.items) + "</div>")
    ensures v.JObj? && !(HasKey(v.entries, "name") && HasKey(v.entries, "children")) ==>
              r == Ok(MainTable(v.entries))
    ensures v.IsPrimitive() ==> r == Ok(PrimitiveMainTable(v))
  {
    if IsHierarchical(v) then tree(v)
    else if v.JArr? then Ok("<div class=\"value-column\">" + ArrayDisplay(v.items) + "</div>")
    else if v.JObj? then Ok(MainTable(v.entries))
    else Ok(PrimitiveMainTable(v))
  }

  /** Whether the export button is only ever enabled while a value is stored. */
  predicate EnabledOnlyWithValue(st: AppState)
  {
    !st.pdfDisabled ==> st.current.Some?
  }

  /** generateTable. */
  function GenerateTable(st: AppState, input: string, parse: Parser, tree: TreeRenderer): (r: AppState)
    ensures r.pdfLabel == st.pdfLabel
    ensures IsBlank(input) ==> r.output == PleaseEnter && r.pdfDisabled && r.current == st.current
    ensures !IsBlank(input) && parse(Trim(input)).Thrown? ==>
              r.output == InvalidJson(parse(Trim(input)).message) && r.pdfDisabled && r.current == st.current
    ensures !IsBlank(input) && parse(Trim(input)).Ok? ==> r.current == Some(parse(Trim(input)).value)
    ensures !r.pdfDisabled <==>
              !IsBlank(input) && parse(Trim(input)).Ok? && RenderBody(parse(Trim(input)).value, tree).Ok?
    ensures !r.pdfDisabled ==> r.output == TableContent(RenderBody(parse(Trim(input)).value, tree).value)
    ensures !IsBlank(input) && parse(Trim(input)).Ok? ==>
              var v := parse(Trim(input)).value;
              IsHierarchical(v) && tree(v).Thrown? ==> r.output == InvalidJson(tree(v).message)
    ensures EnabledOnlyWithValue(r)
  {
    var text := Trim(input);
    if text == "" then st.(output := PleaseEnter, pdfDisabled := true)
    else
      match parse(text)
      case Thrown(m) => st.(output := InvalidJson(m), pdfDisabled := true)
      case Ok(v) =>
        var stored := st.(current := Some(v));
        match RenderBody(v, tree)
        case Thrown(m) => stored.(output := InvalidJson(m), pdfDisabled := true)
        case Ok(body) => stored.(output := TableContent(body), pdfDisabled := false)
  }

  /** generateHierarchicalTable: like generateTable, but any value that is not
      a tree node is refused with the shape message — after it was stored. */
  function GenerateHierarchicalTable(st: AppState, input: string, parse: Parser, tree: TreeRenderer): (r: AppState)
    ensures r.pdfLabel == st.pdfLabel
    ensures IsBlank(input) ==> r.output == PleaseEnter && r.pdfDisabled && r.current == st.current
    ensures !IsBlank(input) && parse(Trim(input)).Thrown? ==>
              r.output == InvalidJson(parse(Trim(input)).message) && r.pdfDisabled && r.current == st.current
    ensures !IsBlank(input) && parse(Trim(input)).Ok? ==> r.current == Some(parse(Trim(input)).value)
    ensures !IsBlank(input) && parse(Trim(input)).Ok? && !IsHierarchical(parse(Trim(input)).value) ==>
              r.output == ShapeError && r.pdfDisabled
    ensures !r.pdfDisabled <==>
              !IsBlank(input) && parse(Trim(input)).Ok?
              && IsHierarchical(parse(Trim(input)).value) && tree(parse(Trim(input)).value).Ok?
    ensures !r.pdfDisabled ==> r.output == TableContent(tree(parse(Trim(input)).value).value)
    ensures !IsBlank(input) && parse(Trim(input)).Ok? ==>
              var v := parse(Trim(input)).value;
              IsHierarchical(v) && tree(v).Thrown? ==> r.output == InvalidJson(tree(v).message)
    ensures EnabledOnlyWithValue(r)
  {
    var text := Trim(input);
    if text == "" then st.(output := PleaseEnter, pdfDisabled := true)
    else
      match parse(text)
      case Thrown(m) => st.(output := InvalidJson(m), pdfDisabled := true)
      case Ok(v) =>
        var stored := st.(current := Some(v));
        if IsHierarchical(v) then
          match tree(v)
          case Thrown(m) => stored.(output := InvalidJson(m), pdfDisabled := true)
          case Ok(body) => stored.(output := TableContent(body), pdfDisabled := false)
        else stored.(output := ShapeError, pdfDisabled := true)
  }
}

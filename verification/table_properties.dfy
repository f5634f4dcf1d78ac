/** What the renderers of tableGenerator.js promise, stated against reference
    shapes: a row per entry and an item per element, in order. */
module TableProperties {
  import opened Wrappers
  import opened JsStrings
  import opened JsonValue
  import opened TableGenerator

  // ----- primitives -----

  /** A formatted primitive can be read back: the kind class names its type and
      its text is inserted unescaped, so no two primitives look alike. */
  lemma ReadSpanFormat(v: Json)
    requires v.IsPrimitive()
    ensures ReadSpan(FormatPrimitive(v)) == Some(v)
  {
    var inner := KindClass(v) + "\">" + Text(v);
    assert FormatPrimitive(v) == SpanOpen + inner + SpanClose;
    ReadSpanUnwraps(inner);
    ReadKindTag(v);
  }

  lemma ReadSpanUnwraps(inner: string)
    ensures ReadSpan(SpanOpen + inner + SpanClose) == ReadKind(inner)
  {
    var r := SpanOpen + inner + SpanClose;
    var n := |SpanOpen|;
    assert r[..n] == SpanOpen;
    assert r[|r| - |SpanClose|..] == SpanClose;
    assert r[n..|r| - |SpanClose|] == inner;
  }

  lemma ReadKindTag(v: Json)
    requires v.IsPrimitive()
    ensures ReadKind(KindClass(v) + "\">" + Text(v)) == Some(v)
  {
    var tag := KindClass(v) + "\">";
    var inner := tag + Text(v);
    assert inner[..|tag|] == tag;
    assert inner[|tag|..] == Text(v);
    // Tags are told apart by a character near their end: the quote that
    // closes a shorter tag, or the last letter of "number" against "string".
    match v
    case JNull =>
    case JBool(b) =>
      assert inner[10] == 'l';
    case JNum(t) =>
      assert inner[10] == 'u' && inner[12] == '"';
      assert (BooleanKind + "\">")[12] == 'e';
    case JStr(s) =>
      assert inner[10] == 'u' && inner[12] == '"' && inner[5] == 'g';
      assert (BooleanKind + "\">")[12] == 'e' && (NumberKind + "\">")[5] == 'r';
  }

  lemma FormatPrimitiveInjective(v: Json, w: Json)
    requires v.IsPrimitive() && w.IsPrimitive()
    requires FormatPrimitive(v) == FormatPrimitive(w)
    ensures v == w
  {
    ReadSpanFormat(v);
    ReadSpanFormat(w);
  }

  // ----- object tables -----

  datatype TableClasses = TableClasses(table: string, key: string, value: string)

  const NestedClasses := TableClasses("nested-table", "nested-key", "nested-value")
  const MainClasses := TableClasses("main-table", "key-column", "value-column")

  /** One row per entry, in entry order, each built from that entry alone. */
  function RowList(c: TableClasses, es: seq<(string, Json)>): seq<string>
  {
    seq(|es|, i requires 0 <= i < |es| => Row(c.key, c.value, es[i].0, ValueCell(es[i].1)))
  }

  /** The reference shape of an object table, parameterised by class names. */
  function TableView(c: TableClasses, es: seq<(string, Json)>): string
  {
    TableOpen(c.table) + Concat(RowList(c, es)) + "</table>"
  }

  lemma {:induction false} NestedRowsView(es: seq<(string, Json)>)
    ensures NestedRows(es) == Concat(RowList(NestedClasses, es))
  {
    if es != [] {
      NestedRowsView(es[1..]);
      assert RowList(NestedClasses, es)[1..] == RowList(NestedClasses, es[1..]);
    }
  }

  lemma {:induction false} MainRowsView(es: seq<(string, Json)>)
    ensures MainRows(es) == Concat(RowList(MainClasses, es))
  {
    if es != [] {
      MainRowsView(es[1..]);
      assert RowList(MainClasses, es)[1..] == RowList(MainClasses, es[1..]);
    }
  }

  /** The main table and the nested table are the same table — one row per
      entry, in order, the same value dispatch — under different class names. */
  lemma ObjectTablesShareShape(es: seq<(string, Json)>)
    ensures NestedTable(es) == TableView(NestedClasses, es)
    ensures MainTable(es) == TableView(MainClasses, es)
  {
    NestedRowsView(es);
    MainRowsView(es);
  }

  // ----- array display -----

  /** One item div per element, in element order. */
  function ItemList(xs: seq<Json>): seq<string>
  {
    seq(|xs|, i requires 0 <= i < |xs| => ArrayItem(ValueCell(xs[i])))
  }

  lemma {:induction false} ArrayItemsView(xs: seq<Json>)
    ensures ArrayItems(xs) == Concat(ItemList(xs))
  {
    if xs != [] {
      ArrayItemsView(xs[1..]);
      assert ItemList(xs)[1..] == ItemList(xs[1..]);
    }
  }

  /** The all-primitive loop builds exactly what the general loop would. */
  lemma {:induction false} FastPathAgrees(xs: seq<Json>)
    requires AllPrimitive(xs)
    ensures PrimitiveItems(xs) == ArrayItems(xs)
  {
    if xs != [] {
      assert AllPrimitive(xs[1..]);
      FastPathAgrees(xs[1..]);
    }
  }

  /** An empty array is the fixed marker; any other array is one container
      holding one item per element, in order, whichever loop built it. */
  lemma {:induction false} ArrayDisplayView(xs: seq<Json>)
    ensures |xs| == 0 ==> ArrayDisplay(xs) == EmptyArrayMarker
    ensures |xs| > 0 ==> ArrayDisplay(xs) == ContainerOpen + Concat(ItemList(xs)) + "</div>"
  {
    ArrayItemsView(xs);
    if |xs| > 0 && AllPrimitive(xs) {
      FastPathAgrees(xs);
    }
  }

  /** The marker stands for the empty array only, and a non-empty array never
      renders as an empty container. */
  lemma EmptyMarkerOnlyForEmpty(xs: seq<Json>)
    ensures ArrayDisplay(xs) == EmptyArrayMarker <==> |xs| == 0
    ensures ArrayDisplay(xs) != ContainerOpen + "</div>"
  {
  }

  // ----- the export variant -----

  /** Rows of an array numbered from `from`: row i holds index from+i. */
  function IndexRowList(xs: seq<Json>, from: nat): seq<string>
  {
    seq(|xs|, i requires 0 <= i < |xs| => PdfRow(PdfCellStyle, NatToDecimal(from + i), PdfCell(xs[i])))
  }

  function KeyRowList(es: seq<(string, Json)>): seq<string>
  {
    seq(|es|, i requires 0 <= i < |es| => PdfRow(PdfKeyStyle, es[i].0, PdfCell(es[i].1)))
  }

  lemma {:induction false} PdfIndexRowsView(xs: seq<Json>, from: nat)
    ensures PdfIndexRows(xs, from) == Concat(IndexRowList(xs, from))
  {
    if xs != [] {
      PdfIndexRowsView(xs[1..], from + 1);
      assert IndexRowList(xs, from)[1..] == IndexRowList(xs[1..], from + 1);
    }
  }

  lemma {:induction false} PdfKeyRowsView(es: seq<(string, Json)>)
    ensures PdfKeyRows(es) == Concat(KeyRowList(es))
  {
    if es != [] {
      PdfKeyRowsView(es[1..]);
      assert KeyRowList(es)[1..] == KeyRowList(es[1..]);
    }
  }

  /** An exported array is the Index/Value header followed by one row per
      element, the index cells reading 0, 1, …, n-1; an empty array leaves the
      header alone, with no empty-array marker. */
  lemma MinimalPdfArray(xs: seq<Json>)
    ensures MinimalPdfTable(JArr(xs)) == PdfTableOpen + PdfIndexHeader + Concat(IndexRowList(xs, 0)) + "</table>"
    ensures xs == [] ==> MinimalPdfTable(JArr(xs)) == PdfTableOpen + PdfIndexHeader + "</table>"
  {
    PdfIndexRowsView(xs, 0);
  }

  /** The index cells of distinct rows differ. */
  lemma IndexCellsDistinct(i: nat, j: nat)
    requires i != j
    ensures NatToDecimal(i) != NatToDecimal(j)
  {
    if NatToDecimal(i) == NatToDecimal(j) {
      NatToDecimalInjective(i, j);
    }
  }

  /** An exported object is one row per entry, in order, key in the bold cell. */
  lemma MinimalPdfObject(es: seq<(string, Json)>)
    ensures MinimalPdfTable(JObj(es)) == PdfTableOpen + Concat(KeyRowList(es)) + "</table>"
  {
    PdfKeyRowsView(es);
  }

  /** A top-level primitive other than null shows, beside `Value`, exactly the
      text it would show nested; a top-level null is "No data" instead of the
      nested "null". */
  lemma MinimalPdfLeaves(v: Json)
    requires v.IsPrimitive()
    ensures !v.JNull? ==> MinimalPdfTable(v) == PdfValueTable(PdfCell(v))
    ensures v.JNull? ==> MinimalPdfTable(v) == NoData && PdfCell(v) == "null"
  {
  }
}

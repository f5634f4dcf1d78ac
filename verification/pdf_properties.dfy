/** What the export path promises: every row of the image lands inside the
    margins of exactly one page, and the guard on the stored value. */
module PdfProperties {
  import opened JsStrings
  import opened JsonValue
  import opened App
  import opened PdfExporter

  /** Image row `row` (measured from the image top) falls between the margins
      of page `k`. */
  predicate ShowsRow(offsets: seq<real>, usable: real, k: int, row: real)
  {
    0 <= k < |offsets| && Margin <= offsets[k] + row < Margin + usable
  }

  /** With the offsets the loop produces, no row of the image is lost between
      pages and none is shown inside the margins of two pages. */
  lemma EveryRowShownOnce(offsets: seq<real>, imgHeight: real, usable: real, row: real)
    requires usable > 0.0
    requires ShiftedByPage(offsets, usable)
    requires imgHeight <= (|offsets| as real) * usable
    requires 0.0 <= row < imgHeight
    ensures exists k :: ShowsRow(offsets, usable, k, row)
    ensures forall j, k :: ShowsRow(offsets, usable, j, row) && ShowsRow(offsets, usable, k, row) ==> j == k
  {
    var q := row / usable;
    var k := q.Floor;
    assert q * usable == row;
    assert 0 <= k && (k as real) <= q < (k + 1) as real;
    assert (k as real) * usable <= row by {
      MulLeq(k as real, q, usable);
      assert q * usable == row;
    }
    assert row < ((k + 1) as real) * usable by {
      MulLt(q, (k + 1) as real, usable);
    }
    assert k < |offsets| by {
      LtOfMulLt(q, |offsets| as real, usable);
    }
    assert ShowsRow(offsets, usable, k, row);
    forall i, j | ShowsRow(offsets, usable, i, row) && ShowsRow(offsets, usable, j, row)
      ensures i == j
    {
      BandsDisjoint(i, j, usable, row);
    }
  }

  lemma MulLeq(a: real, b: real, c: real)
    requires a <= b && c > 0.0
    ensures a * c <= b * c
  {
  }

  lemma LtOfMulLt(a: real, b: real, c: real)
    requires a * c < b * c && c > 0.0
    ensures a < b
  {
  }

  lemma MulLt(a: real, b: real, c: real)
    requires a < b && c > 0.0
    ensures a * c < b * c
  {
  }

  /** The bands [k·usable, (k+1)·usable) of distinct pages do not overlap:
      the band holding a row is the floor of row / usable. */
  lemma BandsDisjoint(i: int, j: int, usable: real, row: real)
    requires usable > 0.0
    requires (i as real) * usable <= row < ((i + 1) as real) * usable
    requires (j as real) * usable <= row < ((j + 1) as real) * usable
    ensures i == j
  {
    BandIsFloor(i, usable, row);
    BandIsFloor(j, usable, row);
  }

  lemma BandIsFloor(k: int, usable: real, row: real)
    requires usable > 0.0
    requires (k as real) * usable <= row < ((k + 1) as real) * usable
    ensures k == (row / usable).Floor
  {
    var q := row / usable;
    assert q * usable == row;
    LtOfMulLt(q, (k + 1) as real, usable);
    LeqOfMulLeq(k as real, q, usable);
  }

  lemma LeqOfMulLeq(a: real, b: real, c: real)
    requires a * c <= b * c && c > 0.0
    ensures a <= b
  {
  }

  /** As written, a stored value that is falsy — the inputs `0`, `false`, `""`
      and `null` — leaves the export button enabled after generateTable, yet
      the guard of generatePDF turns the export away. */
  lemma FalsyValueRefusedAsWritten(st: AppState, input: string, parse: Parser, tree: TreeRenderer)
    requires !IsBlank(input) && parse(Trim(input)).Ok? && !Truthy(parse(Trim(input)).value)
    ensures !GenerateTable(st, input, parse, tree).pdfDisabled
    ensures !PassesGuardAsWritten(GenerateTable(st, input, parse, tree).current)
  {
    var v := parse(Trim(input)).value;
    assert v.IsPrimitive();
  }

  /** The same input with the guard as intended: the export goes ahead. */
  lemma FalsyValueExported(st: AppState, input: string, parse: Parser, tree: TreeRenderer)
    requires !IsBlank(input) && parse(Trim(input)).Ok? && !Truthy(parse(Trim(input)).value)
    ensures !GenerateTable(st, input, parse, tree).pdfDisabled
    ensures PassesGuard(GenerateTable(st, input, parse, tree).current)
  {
    FalsyValueRefusedAsWritten(st, input, parse, tree);
  }
}

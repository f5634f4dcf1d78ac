/** Relations between the two entry points of app.js. */
module AppProperties {
  import opened JsStrings
  import opened JsonValue
  import opened App

  /** The entry points differ only on a parsed value that is not a tree node. */
  lemma EntryPointsAgree(st: AppState, input: string, parse: Parser, tree: TreeRenderer)
    requires IsBlank(input) || parse(Trim(input)).Thrown? || IsHierarchical(parse(Trim(input)).value)
    ensures GenerateTable(st, input, parse, tree) == GenerateHierarchicalTable(st, input, parse, tree)
  {
  }

  /** Generating again from the same input changes nothing. */
  lemma GenerateTableIdempotent(st: AppState, input: string, parse: Parser, tree: TreeRenderer)
    ensures var once := GenerateTable(st, input, parse, tree);
            GenerateTable(once, input, parse, tree) == once
  {
  }

  /** Only the stored value and the button label carry over from the state
      before: the output and the button depend on the input alone. */
  lemma GenerateTableForgetsOutput(st: AppState, st': AppState, input: string, parse: Parser, tree: TreeRenderer)
    ensures GenerateTable(st, input, parse, tree).output == GenerateTable(st', input, parse, tree).output
    ensures GenerateTable(st, input, parse, tree).pdfDisabled == GenerateTable(st', input, parse, tree).pdfDisabled
  {
  }
}

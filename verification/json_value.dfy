/** A parsed JSON value, as JSON.parse hands it to the renderers. */
module JsonValue {

  /** Objects keep the entry sequence `Object.entries` yields for them (integer-like
      keys first, then the others in insertion order: section 10.1.11.1 of
      ECMAScript 2023); the model takes that sequence as given. A number is held
      by the text Number::toString prints for it, which is all the renderers use. */
  datatype Json =
    | JNull
    | JBool(b: bool)
    | JNum(text: string)
    | JStr(s: string)
    | JArr(items: seq<Json>)
    | JObj(entries: seq<(string, Json)>)
  {
    /** `value === null || typeof value !== 'object'`: the renderers' test for a leaf. */
    predicate IsPrimitive()
    {
      !JArr? && !JObj?
    }
  }

  predicate AllPrimitive(xs: seq<Json>)
  {
    forall i :: 0 <= i < |xs| ==> xs[i].IsPrimitive()
  }

  /** What a template literal `${v}` or `html += v` prints for a primitive. */
  function Text(v: Json): string
    requires v.IsPrimitive()
  {
    match v
    case JNull => "null"
    case JBool(b) => if b then "true" else "false"
    case JNum(t) => t
    case JStr(s) => s
  }

  /** ToBoolean (section 7.1.2 of ECMAScript 2023). A number is falsy when it
      is +0 or -0, both of which print as "0"; JSON cannot produce NaN. */
  predicate Truthy(v: Json)
  {
    match v
    case JNull => false
    case JBool(b) => b
    case JNum(t) => t != "0"
    case JStr(s) => s != ""
    case JArr(_) => true
    case JObj(_) => true
  }

  /** `key in obj` for a parsed object: one of its own entries has that key. */
  predicate HasKey(entries: seq<(string, Json)>, key: string)
  {
    exists i :: 0 <= i < |entries| && entries[i].0 == key
  }

  /** The shape both entry points treat as a tree node: a non-null object with
      both a `name` and a `children` key (arrays have neither property). */
  predicate IsHierarchical(v: Json)
  {
    v.JObj? && HasKey(v.entries, "name") && HasKey(v.entries, "children")
  }
}

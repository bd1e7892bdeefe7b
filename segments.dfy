/**
 * The transcript data every stage exchanges: JSON values as loaded by
 * `json.load`, the validated segment record, and the loosely-typed segment
 * and word dictionaries that are read with `dict.get` defaults.
 */
module Segments {
  import opened Base

  /** A JSON value (`json.load` result); Python's `bool` is a number too. */
  datatype Json =
    | JNull
    | JBool(b: bool)
    | JNum(n: real)
    | JStr(s: string)
    | JList(items: seq<Json>)
    | JObj(fields: map<string, Json>)

  /** Python truthiness of a JSON value (`if value:`). */
  predicate Truthy(j: Json) {
    match j
    case JNull => false
    case JBool(b) => b
    case JNum(n) => n != 0.0
    case JStr(s) => s != []
    case JList(items) => items != []
    case JObj(fields) => fields != map[]
  }

  /** `isinstance(v, (int, float))`, which admits `True` and `False`. */
  predicate IsNumeric(j: Json) { j.JNum? || j.JBool? }

  function NumValue(j: Json): real
    requires IsNumeric(j)
  {
    if j.JNum? then j.n else if j.b then 1.0 else 0.0
  }

  /**
   * A transcript segment: times in seconds, the text, and the optional
   * `speaker` label and `words` list of word-level entries.
   */
  datatype Segment = Segment(
    start: real,
    end: real,
    text: string,
    speaker: Option<string>,
    words: Option<seq<Json>>)
  {
    function Duration(): real { end - start }
  }

  /** A word-level entry read with `.get` defaults. */
  datatype RawWord = RawWord(
    start: Option<real>,
    end: Option<real>,
    word: Option<string>,
    speaker: Option<string>)

  /** A segment dictionary whose keys may be missing, read with `.get`. */
  datatype RawSegment = RawSegment(
    start: Option<real>,
    end: Option<real>,
    text: Option<string>,
    speaker: Option<string>,
    words: Option<seq<RawWord>>)
}

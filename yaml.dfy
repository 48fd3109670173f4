/**
 * The values that the YAML loader hands back for a front-matter block,
 * and the three things the scripts do with them: look a key up with a
 * default (`dict.get`), test truthiness (`if value:`) and render them
 * with `str()` inside f-strings.
 */
module Yaml {
  import opened Text
  import opened Dates

  /**
   * A scalar as the loader produces it. `Day` is a YAML date, `Moment` a
   * YAML timestamp (its time of day kept as the text `str()` prints).
   * Floats, lists, nested mappings and the rest are `Opaque`: only their
   * `str()` text and their truthiness matter to the scripts.
   */
  datatype Value =
    | Null
    | Boolean(b: bool)
    | Integer(i: int)
    | Text(s: string)
    | Day(date: CalDate)
    | Moment(date: CalDate, clock: string)
    | Opaque(text: string, truthy: bool)

  /** A loaded front-matter mapping (the `metadata` dict). */
  type Meta = map<string, Value>

  /** Python truthiness of a loaded value. */
  predicate Truthy(v: Value) {
    match v
    case Null => false
    case Boolean(b) => b
    case Integer(i) => i != 0
    case Text(s) => s != ""
    case Day(_) => true
    case Moment(_, _) => true
    case Opaque(_, t) => t
  }

  /** `str(v)`, which is what an f-string prints. */
  function Show(v: Value): string {
    match v
    case Null => "None"
    case Boolean(b) => if b then "True" else "False"
    case Integer(i) => IntToString(i)
    case Text(s) => s
    case Day(d) => FormatIso(d)
    case Moment(d, clock) => FormatIso(d) + " " + clock
    case Opaque(t, _) => t
  }

  /** `m.get(key, default)`. */
  function Get(m: Meta, key: string, default: Value): Value {
    if key in m then m[key] else default
  }

  /** Only a `str` compares equal to a `str` literal (`m.get(key) == "done"`). */
  predicate Is(m: Meta, key: string, literal: string) {
    Get(m, key, Null) == Text(literal)
  }
}

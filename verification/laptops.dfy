/**
 The records of the laptop data set as the page sees them after the CSV
 parser has typed each cell: open string-keyed objects whose values are
 text, numbers, booleans or `null`. Reading a key the record does not have
 yields `undefined`, as property access on a JavaScript object does.
 */
module Laptops {

  /** A field value. Numbers are modelled as reals (no NaN can be stored). */
  datatype Value = Undefined | Null | Str(text: string) | Num(n: real) | Bool(b: bool)

  /** One laptop: field name to value. */
  type Record = map<string, Value>

  /** `laptop[key]`: the stored value, or `undefined` for an absent key. */
  function Field(laptop: Record, key: string): Value
  {
    if key in laptop then laptop[key] else Undefined
  }

  /** A JavaScript number as far as comparisons need it: NaN, or a real. */
  datatype Number = NaN | Real(x: real)

  /** The numeric conversion a relational operator applies to a field value
      before comparing it with a number: `null` is 0, booleans are 1 and 0,
      `undefined` is NaN. Text is taken as NaN (see README, Left out). */
  function ToNumber(v: Value): Number
  {
    match v
    case Undefined => NaN
    case Null => Real(0.0)
    case Str(_) => NaN
    case Num(n) => Real(n)
    case Bool(b) => Real(if b then 1.0 else 0.0)
  }

  /** `parseFloat(v)`: numbers parse to themselves; `null`, `undefined` and
      booleans print as words, which parse to NaN. Text is taken as NaN. */
  function ParseFloat(v: Value): Number
  {
    if v.Num? then Real(v.n) else NaN
  }

  /** `a < c`, false when `a` is NaN. */
  predicate Below(a: Number, c: real) {
    a.Real? && a.x < c
  }

  /** `a >= c`, false when `a` is NaN. */
  predicate AtLeast(a: Number, c: real) {
    a.Real? && a.x >= c
  }

  /** `lo <= a && a <= hi`, false when any of them is NaN. */
  predicate Between(a: Number, lo: Number, hi: Number) {
    a.Real? && lo.Real? && hi.Real? && lo.x <= a.x && a.x <= hi.x
  }
}

/** The values the generator reads from its YAML data and layout files:
    scalars, mappings of scalars, content entries and question/answer
    pairs. */
module Yaml {
  import opened Wrappers
  import opened Text

  /** A YAML scalar as Python sees it after loading; `Real` is a finite
      float. */
  datatype Scalar = Str(s: string) | Int(i: int) | Bool(b: bool) | Real(r: real) | Null

  /** A YAML mapping, i.e. a Python dict with string keys. */
  type Dict = map<string, Scalar>

  /** A content entry: a plain string, a mapping with keys such as
      `text`, `puzzletext`, `solutiontext`, `size`, `hidden`, `label`, or
      some other scalar (a number, a boolean, null) written where an entry
      belongs. */
  datatype Entry = Plain(text: string) | Record(fields: Dict) | Bare(value: Scalar)

  /** A question/answer pair, written `[question, answer]` in the data. */
  datatype Pair = Pair(question: Entry, answer: Entry)

  /** Python truthiness of a scalar. */
  predicate Truthy(v: Scalar) {
    match v
    case Str(s) => s != []
    case Int(i) => i != 0
    case Bool(b) => b
    case Real(r) => r != 0.0
    case Null => false
  }

  /** `int(v)`; `None` where Python raises.  A float is truncated toward
      zero. */
  function AsInt(v: Scalar): (r: Option<int>)
    ensures v.Int? ==> r == Some(v.i)
    ensures v.Bool? ==> r == Some(if v.b then 1 else 0)
    ensures v.Real? && 0.0 <= v.r ==> r.Some? && 0.0 <= v.r - r.value as real < 1.0
    ensures v.Real? && v.r < 0.0 ==> r.Some? && -1.0 < v.r - r.value as real <= 0.0
    ensures v.Str? ==> r == ParseInt(v.s)
    ensures v.Null? ==> r.None?
  {
    match v
    case Str(s) => ParseInt(s)
    case Int(i) => Some(i)
    case Bool(b) => Some(if b then 1 else 0)
    case Real(x) => Some(if x >= 0.0 then x.Floor else -((-x).Floor))
    case Null => None
  }
}

/** The JavaScript values that form fields and stored records hold, as far
    as the application's rules inspect them: truthiness, the blank-text test
    and the numeric conversions. */
module JsValue {
  import opened Wrappers
  import opened Text
  import opened Numbers

  datatype Value =
    | Missing              // `null` or `undefined`
    | Text(s: string)      // a string, typically what an input field holds
    | Number(n: real)      // a number (never NaN)
    | NumberText(n: real)  // the string `n.toString()`, as an edit form puts a stored number back into a field

  /** JavaScript truthiness: `null`, `undefined`, `''` and `0` are falsy. */
  predicate Truthy(v: Value) {
    match v
    case Missing => false
    case Text(s) => s != []
    case Number(n) => n != 0.0
    case NumberText(_) => true
  }

  /** `v.toString().trim() === ''`. A number's spelling always holds a
      digit, so only text can be blank. */
  predicate BlankText(v: Value) {
    v.Text? && Blank(v.s)
  }

  /** The number a relational comparison such as `v < 13` sees (`None` is
      NaN). Missing values are read as `undefined`. */
  function ToNumber(v: Value): Option<real> {
    match v
    case Missing => None
    case Text(s) => StringToNumber(s)
    case Number(n) => Some(n)
    case NumberText(n) => Some(n)
  }

  /** `parseInt(v)`. A number is read through its decimal spelling, so its
      fractional part is cut off. */
  function ParseIntOf(v: Value): Option<int> {
    match v
    case Missing => None
    case Text(s) => ParseInt(s)
    case Number(n) => Some(Trunc(n))
    case NumberText(n) => Some(Trunc(n))
  }

  /** `parseFloat(v)`. */
  function ParseFloatOf(v: Value): Option<real> {
    match v
    case Missing => None
    case Text(s) => ParseFloat(s)
    case Number(n) => Some(n)
    case NumberText(n) => Some(n)
  }

  /** `x || fallback` for a parsed number: NaN and 0 both fall back. */
  function OrElse(x: Option<real>, fallback: real): real {
    match x
    case Some(v) => if v != 0.0 then v else fallback
    case None => fallback
  }
}

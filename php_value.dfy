/** The PHP values the cache stores and passes around, and the conversions PHP applies to them. */
module PhpValue {
  import opened Decimal

  /** An array key: PHP arrays are indexed by ints or strings. */
  datatype ArrayKey = IntKey(i: int) | StrKey(s: string)

  /** A PHP value: the scalars, and ordered arrays (floats and objects are not modelled). */
  datatype Value =
    | Null
    | Bool(b: bool)
    | Int(i: int)
    | Str(s: string)
    | Arr(entries: seq<(ArrayKey, Value)>)

  /** PHP's conversion to boolean: `if ($v)`, `!$v`, `empty($v)` negated. */
  predicate Truthy(v: Value)
  {
    match v
    case Null => false
    case Bool(b) => b
    case Int(i) => i != 0
    case Str(s) => s != "" && s != "0"
    case Arr(es) => |es| > 0
  }

  /** PHP's conversion to string, as done by the `.` operator and by functions taking a string. */
  function ToPhpString(v: Value): string
  {
    match v
    case Null => ""
    case Bool(b) => if b then "1" else ""
    case Int(i) => IntToString(i)
    case Str(s) => s
    case Arr(_) => "Array"
  }

  /** is_numeric, for the values modelled here: ints and integer numeric strings. */
  predicate IsNumeric(v: Value)
  {
    v.Int? || (v.Str? && IsNumericString(v.s))
  }

  /** The number a numeric value stands for in a comparison with an int. */
  function NumericValue(v: Value): int
    requires IsNumeric(v)
  {
    if v.Int? then v.i else LeadingInt(v.s)
  }

  /** `$v < $t` for an int `$t`, under PHP 5/7 comparison rules: a string compares by its leading
      integer; `true` is never below an int; an array is greater than any int; null and false are
      only below a non-zero int. */
  predicate LessThanInt(v: Value, t: int)
  {
    match v
    case Null => t != 0
    case Bool(b) => !b && t != 0
    case Int(i) => i < t
    case Str(s) => LeadingInt(s) < t
    case Arr(_) => false
  }

  /** The (int) cast, which the database layer applies to a `%d` parameter: a string gives its
      leading integer, an array 1 or 0 as it is empty or not. */
  function IntCast(v: Value): int
  {
    match v
    case Null => 0
    case Bool(b) => if b then 1 else 0
    case Int(i) => i
    case Str(s) => LeadingInt(s)
    case Arr(es) => if |es| > 0 then 1 else 0
  }
}

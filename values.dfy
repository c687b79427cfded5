/**
  Values as the integration handles them: the JSON values of a cloud response
  after parsing, Python's truthiness on them, and Python's str() rendering.
 */
module Values {
  import Text

  datatype Option<+T> = None | Some(value: T)

  /** A parsed JSON value. Lists and objects nested inside a result are opaque. */
  datatype Value =
    | Null
    | Bool(b: bool)
    | Int(i: int)
    | Real(x: real)
    | Str(s: string)
    | Composite

  /** Python truthiness: None, False, 0, 0.0 and "" are false. */
  predicate Truthy(v: Value) {
    match v
    case Null => false
    case Bool(b) => b
    case Int(i) => i != 0
    case Real(x) => x != 0.0
    case Str(s) => s != ""
    case Composite => true
  }

  function OfInt(o: Option<int>): (v: Value)
    ensures v == Null <==> o.None?
  {
    match o
    case None => Null
    case Some(i) => Int(i)
  }

  function OfStr(o: Option<string>): (v: Value)
    ensures v == Null <==> o.None?
  {
    match o
    case None => Null
    case Some(s) => Str(s)
  }

  /** The value `x` takes in Python's `total += x`, or None when Python raises TypeError. */
  function Numeric(v: Value): Option<real> {
    match v
    case Bool(b) => Some(if b then 1.0 else 0.0)
    case Int(i) => Some(i as real)
    case Real(x) => Some(x)
    case _ => None
  }

  /** Python's str() of a value (floats: see README, "Left out"). */
  function Show(v: Value): string {
    match v
    case Null => "None"
    case Bool(b) => if b then "True" else "False"
    case Int(i) => Text.IntText(i)
    case Real(x) => RealText(x)
    case Str(s) => s
    case Composite => "<object>"
  }

  function RealText(x: real): string
    decreases if x < 0.0 then 1 else 0
  {
    if x < 0.0 then "-" + RealText(-x)
    else
      var whole := x.Floor;
      var frac := x - whole as real;
      Text.IntText(whole) + "." + (if frac == 0.0 then "0" else FractionDigits(frac, 17))
  }

  /** Up to `n` decimal digits of a fraction in [0, 1), without trailing zeros. */
  function FractionDigits(f: real, n: nat): string
    requires 0.0 <= f < 1.0
    decreases n
  {
    if n == 0 || f == 0.0 then ""
    else
      var scaled := f * 10.0;
      var d := scaled.Floor;
      assert 0 <= d < 10;
      [Text.DigitChar(d)] + FractionDigits(scaled - d as real, n - 1)
  }
}

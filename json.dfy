/**
 * JSON values as the Python server and the browser scripts see them, with
 * each language's truthiness, JavaScript's `String(v)` and `Number(s)`, and
 * Python's `int(v)`.
 */
module Json {
  import opened Wrappers
  import opened Text

  /** Numbers are integers; NaN is the only non-integer number modelled.
      Undefined stands for an absent property. */
  datatype Value = Undefined | Null | Bool(b: bool) | Num(n: int) | NaN | Str(s: string)

  /** JavaScript truthiness (`Boolean(v)`): NaN is falsy. */
  predicate Truthy(v: Value)
  {
    match v
    case Undefined => false
    case Null => false
    case Bool(b) => b
    case Num(n) => n != 0
    case NaN => false
    case Str(s) => s != ""
  }

  /** JavaScript `a || b`. */
  function Or(a: Value, b: Value): (r: Value)
    ensures Truthy(a) ==> r == a
    ensures !Truthy(a) ==> r == b
  {
    if Truthy(a) then a else b
  }

  /** Python truthiness (`bool(v)`) of a decoded JSON value. Python's `json` reads the
      literal `NaN` as a float, and `bool(nan)` is true; on every other value the two
      languages agree. */
  predicate PyTruthy(v: Value)
  {
    match v
    case Undefined => false
    case Null => false
    case Bool(b) => b
    case Num(n) => n != 0
    case NaN => true
    case Str(s) => s != ""
  }

  /** The two truthiness rules part only on NaN. */
  lemma TruthinessDiffersOnNaN(v: Value)
    ensures PyTruthy(v) != Truthy(v) <==> v.NaN?
  {
  }

  /** Python `a or b`. */
  function PyOr(a: Value, b: Value): (r: Value)
    ensures PyTruthy(a) ==> r == a
    ensures !PyTruthy(a) ==> r == b
  {
    if PyTruthy(a) then a else b
  }

  /** JavaScript `a === b`: NaN equals nothing, not even itself. */
  predicate StrictEquals(a: Value, b: Value)
  {
    a == b && !a.NaN?
  }

  /** JavaScript `String(v)`, also what a template literal interpolates. */
  function ToText(v: Value): string
  {
    match v
    case Undefined => "undefined"
    case Null => "null"
    case Bool(b) => if b then "true" else "false"
    case Num(n) => IntToString(n)
    case NaN => "NaN"
    case Str(s) => s
  }

  /** What `element.textContent = v` leaves as text: the property is a nullable
      string, so null and undefined both clear the element. */
  function TextContent(v: Value): (t: string)
    ensures v.Null? || v.Undefined? ==> t == ""
    ensures !v.Null? && !v.Undefined? ==> t == ToText(v)
  {
    if v.Null? || v.Undefined? then "" else ToText(v)
  }

  /** JavaScript `Number(s)` on a string: surrounding whitespace is ignored and
      the empty string is 0. */
  function NumberOf(s: string): (v: Value)
    ensures v.Num? || v.NaN?
  {
    var t := Trim(s);
    if t == "" then Num(0)
    else match ParseInt(t)
      case Some(i) => Num(i)
      case None => NaN
  }

  /** Python `int(v)` on a JSON value; None where `int` raises. */
  function PyInt(v: Value): Option<int>
  {
    match v
    case Num(n) => Some(n)
    case Bool(b) => Some(if b then 1 else 0)
    case Str(s) => PyParseInt(Trim(s))
    case _ => None
  }

  /** On a string without surrounding whitespace, `int` is `PyParseInt` itself. */
  lemma PyIntUnspaced(s: string)
    requires s != [] ==> !IsSpace(s[0]) && !IsSpace(s[|s| - 1])
    ensures PyInt(Str(s)) == PyParseInt(s)
  {
    TrimUnspaced(s);
  }

  lemma TrimDecimal(i: int)
    ensures Trim(IntToString(i)) == IntToString(i)
  {
    var d := IntToString(i);
    var n := if i < 0 then -i else i;
    assert NatToString(n) == d[|d| - |NatToString(n)|..];
    assert IsDigit(d[|d| - 1]);
    assert !IsSpace(d[0]) by {
      if i >= 0 { assert IsDigit(d[0]); }
    }
    TrimUnspaced(d);
  }

  /** A number rendered by `String` reads back to itself with `Number` and with `int`. */
  lemma NumberOfRoundTrip(i: int)
    ensures NumberOf(IntToString(i)) == Num(i)
    ensures PyInt(Str(IntToString(i))) == Some(i)
  {
    TrimDecimal(i);
    ParseIntRoundTrip(i);
  }
}

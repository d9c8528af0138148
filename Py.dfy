/** The Python values and built-ins that the driver and the device apply to
    numbers: ints, floats and nan; str(), int(), float(), abs() and <=.

    Floats are whole numbers of thousandths. This restricts the model: the
    driver rounds positions and the speeds of its speed frames with
    round(x, 3), but move_abs's speed (driver.py:783), the backlash and the
    device's cmd_position are not rounded by the source. */
module Py {
  import opened Text

  /** The exceptions the core can raise on its own. */
  datatype PyError = IndexError | ValueError | UnboundLocalError | AttributeError

  /** A value, or the exception that ends the call. */
  datatype Result<+T> = Ok(value: T) | Err(error: PyError) {
    predicate IsFailure() { Err? }

    function PropagateFailure<U>(): Result<U>
      requires Err?
    {
      Err(error)
    }

    function Extract(): T
      requires Ok?
    {
      value
    }
  }

  /** A Python number: an int, a float given in thousandths, or nan. */
  datatype Num = Int(i: int) | Float(milli: int) | NaN

  /** str(x). */
  function Str(x: Num): Bytes
  {
    match x
    case Int(i) => RenderInt(i)
    case Float(m) => RenderMilli(m)
    case NaN => "nan"
  }

  /** Reads the text of str(x) back as a number of the same kind. */
  function ParseNum(s: Bytes): Option<Num>
  {
    if s == "nan" then Some(NaN)
    else if Contains(s, ".") then
      match ParseMilli(s)
      case Some(m) => Some(Float(m))
      case None => None
    else
      match ParseInt(s)
      case Some(i) => Some(Int(i))
      case None => None
  }

  /** The characters str() can produce for a number. */
  predicate IsNumeral(c: char)
  {
    IsDigit(c) || c == '-' || c == '.' || c == 'n' || c == 'a'
  }

  predicate AllNumerals(s: Bytes)
  {
    forall k :: 0 <= k < |s| ==> IsNumeral(s[k])
  }

  lemma NumeralsJoin(s: Bytes, t: Bytes)
    requires AllNumerals(s) && AllNumerals(t)
    ensures AllNumerals(s + t)
  {
    forall k | 0 <= k < |s + t| ensures IsNumeral((s + t)[k]) {
      if k >= |s| { assert (s + t)[k] == t[k - |s|]; }
    }
  }

  lemma IntNumerals(i: int)
    ensures AllNumerals(RenderInt(i))
    ensures forall k :: 0 <= k < |RenderInt(i)| ==> RenderInt(i)[k] != '.'
  {
    if i < 0 { assert forall k :: 1 <= k < |RenderInt(i)| ==> RenderInt(i)[k] == NatDigits(-i)[k - 1]; }
  }

  lemma MilliNumerals(m: int)
    ensures AllNumerals(RenderMilli(m))
  {
    var a := if m < 0 then -m else m;
    var sign: Bytes := if m < 0 then "-" else "";
    var w, f := NatDigits(a / 1000), FracDigits(a % 1000);
    assert AllNumerals(sign) && AllNumerals(w) && AllNumerals(".") && AllNumerals(f);
    NumeralsJoin(sign, w);
    NumeralsJoin(sign + w, ".");
    NumeralsJoin(sign + w + ".", f);
    assert RenderMilli(m) == sign + w + "." + f;
  }

  lemma StrNumerals(x: Num)
    ensures forall k :: 0 <= k < |Str(x)| ==> IsNumeral(Str(x)[k])
    ensures x.Int? ==> forall k :: 0 <= k < |Str(x)| ==> Str(x)[k] != '.'
  {
    match x
    case Int(i) => IntNumerals(i);
    case Float(m) => MilliNumerals(m);
    case NaN =>
  }

  lemma NoPoint(s: Bytes)
    requires forall k :: 0 <= k < |s| ==> s[k] != '.'
    ensures !Contains(s, ".")
  {
    forall j: nat ensures !OccursAt(s, ".", j) {
      if j < |s| { assert s[j..j + 1][0] == s[j]; }
    }
    IndexOfAbsent(s, ".");
  }

  lemma PointFound(s: Bytes, k: nat)
    requires k < |s| && s[k] == '.'
    ensures Contains(s, ".")
  {
    assert s[k..k + 1] == ".";
    assert OccursAt(s, ".", k);
  }

  /** str() on an int or on nan never prints a point; on a float it always does. */
  lemma PointMarksFloat(x: Num)
    ensures Contains(Str(x), ".") <==> x.Float?
  {
    match x
    case Float(m) =>
      var a := if m < 0 then -m else m;
      var sign: Bytes := if m < 0 then "-" else "";
      var w, f := NatDigits(a / 1000), FracDigits(a % 1000);
      assert Str(x) == sign + w + "." + f;
      PointFound(Str(x), |sign| + |w|);
    case Int(_) =>
      StrNumerals(x);
      NoPoint(Str(x));
    case NaN =>
      NoPoint(Str(x));
  }

  /** The partner of str(): reading its text back gives the number. */
  lemma ParseStr(x: Num)
    ensures ParseNum(Str(x)) == Some(x)
  {
    PointMarksFloat(x);
    match x
    case Int(i) =>
      ParseRenderInt(i);
      assert Str(x) != "nan" by { StrNumerals(x); }
    case Float(m) =>
      ParseRenderMilli(m);
      assert Str(x) != "nan" by { StrNumerals(x); }
    case NaN =>
  }

  /** Different numbers print differently, so a frame determines its
      numeric arguments. */
  lemma StrInjective(x: Num, y: Num)
    requires Str(x) == Str(y)
    ensures x == y
  {
    ParseStr(x);
    ParseStr(y);
  }

  /** The value in thousandths; None for nan. */
  function Milli(x: Num): Option<int>
  {
    match x
    case Int(i) => Some(i * 1000)
    case Float(m) => Some(m)
    case NaN => None
  }

  /** x - y: an int when both are ints, nan when either is nan. */
  function Sub(x: Num, y: Num): (r: Num)
    ensures Milli(x).Some? && Milli(y).Some? ==> Milli(r) == Some(Milli(x).value - Milli(y).value)
    ensures Milli(x).None? || Milli(y).None? ==> r == NaN
    ensures x.Int? && y.Int? <==> r.Int?
  {
    match (x, y)
    case (Int(a), Int(b)) => Int(a - b)
    case (NaN, _) => NaN
    case (_, NaN) => NaN
    case _ => Float(Milli(x).value - Milli(y).value)
  }

  /** x <= y, which is False whenever either side is nan. */
  predicate LessEq(x: Num, y: Num)
  {
    Milli(x).Some? && Milli(y).Some? && Milli(x).value <= Milli(y).value
  }

  /** x < 0. */
  predicate IsNegative(x: Num)
  {
    Milli(x).Some? && Milli(x).value < 0
  }

  /** abs(x). */
  function Abs(x: Num): (r: Num)
    ensures Milli(x).None? <==> Milli(r).None?
    ensures Milli(x).Some? ==> Milli(r).value >= 0 && (Milli(r).value == Milli(x).value || Milli(r).value == -Milli(x).value)
    ensures x.Int? == r.Int?
  {
    match x
    case Int(i) => Int(if i < 0 then -i else i)
    case Float(m) => Float(if m < 0 then -m else m)
    case NaN => NaN
  }

  /** int(x): truncation toward zero, ValueError for nan. */
  function Trunc(x: Num): (r: Result<int>)
    ensures r.Ok? <==> !x.NaN?
    ensures x.Int? ==> r == Ok(x.i)
    ensures x.Float? && x.milli >= 0 ==> 0 <= x.milli - r.value * 1000 < 1000
    ensures x.Float? && x.milli < 0 ==> -1000 < x.milli - r.value * 1000 <= 0
  {
    match x
    case Int(i) => Ok(i)
    case Float(m) => Ok(if m >= 0 then m / 1000 else -((-m) / 1000))
    case NaN => Err(ValueError)
  }

  /** int(b) for a bytes value b. */
  function IntOf(s: Bytes): Result<int>
  {
    match ParseInt(s)
    case Some(i) => Ok(i)
    case None => Err(ValueError)
  }

  /** round(float(b), 3) for a bytes value b holding a plain decimal. */
  function FloatOf(s: Bytes): Result<Num>
  {
    match ParseMilli(s)
    case Some(m) => Ok(Float(m))
    case None => Err(ValueError)
  }

  /** What str(int) writes, int() reads back. */
  lemma IntOfStr(i: int)
    ensures IntOf(Str(Int(i))) == Ok(i)
  {
    ParseRenderInt(i);
  }

  /** What str(float) writes, float() reads back. */
  lemma FloatOfStr(m: int)
    ensures FloatOf(Str(Float(m))) == Ok(Float(m))
  {
    ParseRenderMilli(m);
  }
}

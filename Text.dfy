/** Byte strings as the driver handles them, and the decimal rendering and
    parsing that Python's str(), int() and float() perform on them.

    Every byte string of the driver is encoded or decoded with Latin-1, so a
    byte is modelled by the char of the same code (0 to 255). */
module Text {

  /** A Python `bytes` value (or a Latin-1 `str`): one char per byte. */
  type Bytes = seq<char>

  datatype Option<+T> = None | Some(value: T)

  /* ---------------------------------------------------------------------- */
  /* Decimal digits                                                          */
  /* ---------------------------------------------------------------------- */

  predicate IsDigit(c: char) { '0' <= c <= '9' }

  predicate AllDigits(s: Bytes) { forall i :: 0 <= i < |s| ==> IsDigit(s[i]) }

  function DigitValue(c: char): (d: nat)
    requires IsDigit(c)
    ensures d < 10
  {
    c as int - '0' as int
  }

  function DigitChar(d: nat): (c: char)
    requires d < 10
    ensures IsDigit(c) && DigitValue(c) == d
  {
    (d + '0' as int) as char
  }

  /** The decimal digits of `n`, most significant first, without leading
      zeros: the text of Python's str() on a non-negative int. */
  function NatDigits(n: nat): (s: Bytes)
    ensures |s| > 0 && AllDigits(s)
    ensures s[0] == '0' ==> n == 0
    decreases n
  {
    if n < 10 then [DigitChar(n)] else NatDigits(n / 10) + [DigitChar(n % 10)]
  }

  /** The number a run of decimal digits denotes (leading zeros allowed). */
  function DigitsValue(s: Bytes): nat
    requires AllDigits(s)
  {
    if s == [] then 0 else DigitsValue(s[..|s| - 1]) * 10 + DigitValue(s[|s| - 1])
  }

  lemma {:induction false} DigitsValueOfNatDigits(n: nat)
    ensures DigitsValue(NatDigits(n)) == n
    decreases n
  {
    if n >= 10 {
      var s := NatDigits(n);
      assert s[..|s| - 1] == NatDigits(n / 10);
      DigitsValueOfNatDigits(n / 10);
    }
  }

  /* ---------------------------------------------------------------------- */
  /* Python's str(int) and int(str)                                          */
  /* ---------------------------------------------------------------------- */

  /** str(i) for a Python int. */
  function RenderInt(i: int): Bytes
  {
    if i < 0 then "-" + NatDigits(-i) else NatDigits(i)
  }

  /** int(s) for a str or bytes value: an optional sign and one or more
      decimal digits; anything else is a ValueError (None). */
  function ParseInt(s: Bytes): Option<int>
  {
    if |s| > 1 && (s[0] == '-' || s[0] == '+') && AllDigits(s[1..]) then
      var v: int := DigitsValue(s[1..]);
      Some(if s[0] == '-' then -v else v)
    else if |s| > 0 && AllDigits(s) then
      Some(DigitsValue(s))
    else
      None
  }

  /** int() reads back what str() wrote, so str() is injective on ints. */
  lemma ParseRenderInt(i: int)
    ensures ParseInt(RenderInt(i)) == Some(i)
  {
    var s := RenderInt(i);
    if i < 0 {
      assert s[1..] == NatDigits(-i);
      DigitsValueOfNatDigits(-i);
    } else {
      assert s == NatDigits(i) && IsDigit(s[0]);
      DigitsValueOfNatDigits(i);
    }
  }

  /* ---------------------------------------------------------------------- */
  /* Python's str(float) for values with at most three decimals              */
  /* ---------------------------------------------------------------------- */

  /** The fractional digits Python prints for `f` thousandths: trailing zeros
      dropped, but at least one digit ("5.0", "5.25", "5.125"). */
  function FracDigits(f: nat): (s: Bytes)
    requires f < 1000
    ensures 1 <= |s| <= 3 && AllDigits(s)
  {
    if f % 100 == 0 then [DigitChar(f / 100)]
    else if f % 10 == 0 then [DigitChar(f / 100), DigitChar(f / 10 % 10)]
    else [DigitChar(f / 100), DigitChar(f / 10 % 10), DigitChar(f % 10)]
  }

  /** Weight of the last digit of a fraction of `k` digits, in thousandths. */
  function FracScale(k: nat): nat
  {
    if k == 1 then 100 else if k == 2 then 10 else 1
  }

  lemma ShortDigitsValue(x: char, y: char, z: char)
    requires IsDigit(x) && IsDigit(y) && IsDigit(z)
    ensures DigitsValue([x]) == DigitValue(x)
    ensures DigitsValue([x, y]) == DigitValue(x) * 10 + DigitValue(y)
    ensures DigitsValue([x, y, z]) == (DigitValue(x) * 10 + DigitValue(y)) * 10 + DigitValue(z)
  {
    assert [x, y, z][..2] == [x, y];
    assert [x, y][..1] == [x];
    assert [x][..0] == [];
  }

  lemma FracDigitsValue(f: nat)
    requires f < 1000
    ensures DigitsValue(FracDigits(f)) * FracScale(|FracDigits(f)|) == f
  {
    var d1, d2, d3 := f / 100, f / 10 % 10, f % 10;
    assert f == d1 * 100 + d2 * 10 + d3;
    ShortDigitsValue(DigitChar(d1), DigitChar(d2), DigitChar(d3));
  }

  /** str(x) for a float x that is a whole number `m` of thousandths, as
      Python prints it (for magnitudes below 10**12 the shortest repr is the
      exact decimal): "0.0", "250.0", "0.002", "-1.25". */
  function RenderMilli(m: int): Bytes
  {
    var a := if m < 0 then -m else m;
    (if m < 0 then "-" else "") + NatDigits(a / 1000) + "." + FracDigits(a % 1000)
  }

  /** The value in thousandths of a decimal with `whole` before the point
      and `frac`, of `k` digits, after it. */
  function DecimalValue(whole: nat, frac: nat, k: nat): nat
  {
    whole * 1000 + frac * FracScale(k)
  }

  /** A decimal without sign: digits, optionally a point and at most three
      fractional digits, at least one digit in all; the value in thousandths. */
  function ParseUnsignedMilli(s: Bytes): Option<nat>
  {
    match IndexOf(s, ".")
    case None =>
      if |s| > 0 && AllDigits(s) then Some(DigitsValue(s) * 1000) else None
    case Some(k) =>
      var whole, frac := s[..k], s[k + 1..];
      if AllDigits(whole) && AllDigits(frac) && |frac| <= 3 && |whole| + |frac| > 0 then
        Some(DecimalValue(DigitsValue(whole), DigitsValue(frac), |frac|))
      else
        None
  }

  /** round(float(s), 3) in thousandths, for the decimals the pump replies
      with ("0.000", "25.000"); None where this model gives a ValueError. */
  function ParseMilli(s: Bytes): Option<int>
  {
    if |s| > 0 && (s[0] == '-' || s[0] == '+') then
      match ParseUnsignedMilli(s[1..])
      case Some(v) => var w: int := v; Some(if s[0] == '-' then -w else w)
      case None => None
    else
      ParseUnsignedMilli(s)
  }

  /** In digits, a point and anything else, the first point follows the digits. */
  lemma PointAfterDigits(w: Bytes, f: Bytes)
    requires AllDigits(w)
    ensures IndexOf(w + "." + f, ".") == Some(|w|)
  {
    var s := w + "." + f;
    assert OccursAt(s, ".", |w|) by { assert s[|w|..|w| + 1] == "."; }
    forall j: nat | j < |w| ensures !OccursAt(s, ".", j) {
      assert s[j..j + 1][0] == s[j] == w[j] && IsDigit(w[j]);
    }
    IndexOfIs(s, ".", |w|);
  }

  /** Digits, a point and one to three digits read as their value. */
  lemma ParseDecimal(w: Bytes, f: Bytes)
    requires |w| > 0 && AllDigits(w) && AllDigits(f) && 1 <= |f| <= 3
    ensures ParseUnsignedMilli(w + "." + f) == Some(DecimalValue(DigitsValue(w), DigitsValue(f), |f|))
  {
    var s := w + "." + f;
    PointAfterDigits(w, f);
    var whole, frac := s[..|w|], s[|w| + 1..];
    assert whole == w && frac == f;
    assert AllDigits(whole) && AllDigits(frac) && |frac| <= 3 && |whole| + |frac| > 0;
  }

  lemma ParseRenderUnsignedMilli(a: nat)
    ensures ParseUnsignedMilli(NatDigits(a / 1000) + "." + FracDigits(a % 1000)) == Some(a)
  {
    ParseDecimal(NatDigits(a / 1000), FracDigits(a % 1000));
    DigitsValueOfNatDigits(a / 1000);
    FracDigitsValue(a % 1000);
  }

  /** A sign in front of an unsigned decimal negates it; without the sign,
      a leading digit leaves it as it is. */
  lemma ParseSigned(body: Bytes, v: nat)
    requires ParseUnsignedMilli(body) == Some(v) && |body| > 0 && IsDigit(body[0])
    ensures ParseMilli(body) == Some(v) && ParseMilli("-" + body) == Some(-(v as int))
  {
    assert ("-" + body)[1..] == body;
  }

  /** float() reads back what str() wrote, so str() is injective on floats
      with three decimals. */
  lemma ParseRenderMilli(m: int)
    ensures ParseMilli(RenderMilli(m)) == Some(m)
  {
    var a := if m < 0 then -m else m;
    var w := NatDigits(a / 1000);
    var body := w + "." + FracDigits(a % 1000);
    ParseRenderUnsignedMilli(a);
    assert body[0] == w[0];
    ParseSigned(body, a);
    var sign: Bytes := if m < 0 then "-" else "";
    assert RenderMilli(m) == sign + w + "." + FracDigits(a % 1000);
    Regroup(sign, w, ".", FracDigits(a % 1000));
    assert sign == "" ==> sign + body == body;
  }

  lemma Regroup(x: Bytes, y: Bytes, z: Bytes, u: Bytes)
    ensures x + y + z + u == x + (y + z + u)
  {
  }

  /* ---------------------------------------------------------------------- */
  /* Case and search                                                         */
  /* ---------------------------------------------------------------------- */

  predicate IsLowerLetter(c: char) { 'a' <= c <= 'z' }

  predicate IsUpperLetter(c: char) { 'A' <= c <= 'Z' }

  /** bytes.upper(): ASCII letters only, every other byte is kept. */
  function Upper(s: Bytes): (r: Bytes)
    ensures |r| == |s|
    ensures forall i :: 0 <= i < |s| ==>
      if IsLowerLetter(s[i]) then IsUpperLetter(r[i]) && r[i] as int == s[i] as int - 32
      else r[i] == s[i]
  {
    seq(|s|, i requires 0 <= i < |s| =>
      if IsLowerLetter(s[i]) then (s[i] as int - 32) as char else s[i])
  }

  predicate OccursAt(s: Bytes, pat: Bytes, i: nat)
  {
    i + |pat| <= |s| && s[i..i + |pat|] == pat
  }

  /** The first occurrence of `pat` in `s` at or after `i`. */
  function IndexFrom(s: Bytes, pat: Bytes, i: nat): (r: Option<nat>)
    requires i <= |s|
    ensures r.Some? ==> i <= r.value && OccursAt(s, pat, r.value)
    ensures forall j: nat :: i <= j && (r.None? || j < r.value) ==> !OccursAt(s, pat, j)
    decreases |s| - i
  {
    if OccursAt(s, pat, i) then Some(i)
    else if i == |s| then None
    else IndexFrom(s, pat, i + 1)
  }

  /** The first occurrence of `pat` in `s`, as bytes.find reports it. */
  function IndexOf(s: Bytes, pat: Bytes): Option<nat>
  {
    IndexFrom(s, pat, 0)
  }

  predicate Contains(s: Bytes, pat: Bytes)
  {
    IndexOf(s, pat).Some?
  }

  /** s.split(sep)[0] for a non-empty separator. */
  function SplitFirst(s: Bytes, sep: Bytes): Bytes
  {
    match IndexOf(s, sep)
    case None => s
    case Some(k) => s[..k]
  }

  /** s.split(sep)[1] for a non-empty separator; None where Python raises
      IndexError because `sep` does not occur. */
  function SplitSecond(s: Bytes, sep: Bytes): Option<Bytes>
  {
    match IndexOf(s, sep)
    case None => None
    case Some(k) => Some(SplitFirst(s[k + |sep|..], sep))
  }

  /** Where a pattern provably occurs first, IndexOf finds it there. */
  lemma IndexOfIs(s: Bytes, pat: Bytes, k: nat)
    requires OccursAt(s, pat, k)
    requires forall j: nat :: j < k ==> !OccursAt(s, pat, j)
    ensures IndexOf(s, pat) == Some(k)
  {
  }

  lemma IndexOfAbsent(s: Bytes, pat: Bytes)
    requires forall j: nat :: !OccursAt(s, pat, j)
    ensures IndexOf(s, pat) == None
  {
  }
}

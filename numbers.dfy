/** The two JavaScript conversions the components apply to the quantity field:
    Number(text), used for checking (and stored by BevLista), and parseFloat(text),
    stored by App. Both are modelled on decimal notation: an optional sign, digits,
    and an optional '.' with fraction digits. NaN is None. */
module Numbers {
  import opened Wrappers
  import Text

  predicate IsDigit(c: char) {
    '0' <= c <= '9'
  }

  function Pow10(n: nat): (p: nat)
    ensures p >= 1
  {
    if n == 0 then 1 else 10 * Pow10(n - 1)
  }

  /** The number of decimal digits in s from index i on. */
  function DigitsFrom(s: string, i: nat): (n: nat)
    requires i <= |s|
    ensures i + n <= |s|
    ensures forall j :: i <= j < i + n ==> IsDigit(s[j])
    ensures i + n < |s| ==> !IsDigit(s[i + n])
    decreases |s| - i
  {
    if i < |s| && IsDigit(s[i]) then 1 + DigitsFrom(s, i + 1) else 0
  }

  /** The value of the digit string s[i..j]. */
  function DigitsValue(s: string, i: nat, j: nat): (v: nat)
    requires i <= j <= |s|
    requires forall k :: i <= k < j ==> IsDigit(s[k])
    ensures v < Pow10(j - i)
    decreases j - i
  {
    if i == j then 0
    else
      var d := s[j - 1] as int - '0' as int;
      assert IsDigit(s[j - 1]) && 0 <= d <= 9;
      10 * DigitsValue(s, i, j - 1) + d
  }

  /** A numeral found at the start of a string: its value and where it ends. */
  datatype Scan = Scan(value: real, end: nat)

  /** The layout of the longest numeral at the start of s: a sign of length 0 or 1, the
      number of integer digits, whether a '.' follows them, and the number of fraction digits. */
  datatype Layout = Layout(sign: nat, whole: nat, dot: bool, fraction: nat)

  function LayoutOf(s: string): (l: Layout)
    ensures l.sign + l.whole + (if l.dot then 1 + l.fraction else 0) <= |s|
    ensures l.dot || l.fraction == 0
  {
    var p := if s != [] && (s[0] == '+' || s[0] == '-') then 1 else 0;
    var w := DigitsFrom(s, p);
    var dot := p + w < |s| && s[p + w] == '.';
    Layout(p, w, dot, if dot then DigitsFrom(s, p + w + 1) else 0)
  }

  /** The value of the numeral laid out as l at the start of s. */
  function NumeralValue(s: string, l: Layout): real
    requires l == LayoutOf(s)
  {
    var start := l.sign + l.whole + 1;
    var fraction := if l.dot then DigitsValue(s, start, start + l.fraction) as real / Pow10(l.fraction) as real else 0.0;
    var magnitude := DigitsValue(s, l.sign, l.sign + l.whole) as real + fraction;
    if l.sign == 1 && s[0] == '-' then -magnitude else magnitude
  }

  /** The longest prefix of s that is a decimal numeral, or None when s does not start with one.
      A numeral needs at least one digit, before or after the '.'. */
  function ScanNumeral(s: string): (r: Option<Scan>)
    ensures r.Some? ==> 0 < r.value.end <= |s|
  {
    var l := LayoutOf(s);
    if l.whole + l.fraction == 0 then None
    else Some(Scan(NumeralValue(s, l), l.sign + l.whole + (if l.dot then 1 + l.fraction else 0)))
  }

  /** Number(s): the whole string, less surrounding whitespace, must be one numeral;
      a blank string is 0. */
  function ToNumber(s: string): (r: Option<real>)
    ensures Text.IsBlank(s) ==> r == Some(0.0)
  {
    var t := Text.Trim(s);
    if t == [] then Some(0.0)
    else match ScanNumeral(t)
      case Some(Scan(v, end)) => if end == |t| then Some(v) else None
      case None => None
  }

  /** parseFloat(s): the longest numeral after the leading whitespace; whatever follows it is ignored. */
  function ParseFloat(s: string): (r: Option<real>)
    ensures Text.IsBlank(s) ==> r == None
  {
    match ScanNumeral(Text.TrimStart(s))
    case Some(Scan(v, _)) => Some(v)
    case None => None
  }

  /** Appending text that does not start with a digit leaves a maximal digit run unchanged. */
  lemma {:induction false} DigitsFromAppend(t: string, w: string, i: nat)
    requires i <= |t|
    requires i + DigitsFrom(t, i) < |t| || w == [] || !IsDigit(w[0])
    ensures DigitsFrom(t + w, i) == DigitsFrom(t, i)
    decreases |t| - i
  {
    if i < |t| {
      assert (t + w)[i] == t[i];
      if IsDigit(t[i]) {
        DigitsFromAppend(t, w, i + 1);
      }
    } else if w != [] {
      assert (t + w)[i] == w[0];
    }
  }

  /** The value of a digit string does not depend on what follows it. */
  lemma {:induction false} DigitsValueAppend(t: string, w: string, i: nat, j: nat)
    requires i <= j <= |t|
    requires forall k :: i <= k < j ==> IsDigit(t[k])
    ensures DigitsValue(t + w, i, j) == DigitsValue(t, i, j)
    decreases j - i
  {
    if i < j {
      assert (t + w)[j - 1] == t[j - 1];
      DigitsValueAppend(t, w, i, j - 1);
    }
  }

  /** A numeral that fills t has the same layout at the start of t + w
      when w starts with neither a digit nor a '.'. */
  lemma LayoutAppend(t: string, w: string)
    requires t != []
    requires var l := LayoutOf(t); l.whole + l.fraction > 0 && l.sign + l.whole + (if l.dot then 1 + l.fraction else 0) == |t|
    requires w == [] || (!IsDigit(w[0]) && w[0] != '.')
    ensures LayoutOf(t + w) == LayoutOf(t)
  {
    var s := t + w;
    assert s[0] == t[0];
    var l := LayoutOf(t);
    DigitsFromAppend(t, w, l.sign);
    if l.sign + l.whole < |t| {
      assert s[l.sign + l.whole] == t[l.sign + l.whole];
      if l.dot {
        DigitsFromAppend(t, w, l.sign + l.whole + 1);
      }
    } else if w != [] {
      assert s[l.sign + l.whole] == w[0];
    }
  }

  /** The value of such a numeral does not change either. */
  lemma NumeralValueAppend(t: string, w: string)
    requires t != [] && LayoutOf(t + w) == LayoutOf(t)
    ensures NumeralValue(t + w, LayoutOf(t)) == NumeralValue(t, LayoutOf(t))
  {
    var l := LayoutOf(t);
    assert (t + w)[0] == t[0];
    DigitsValueAppend(t, w, l.sign, l.sign + l.whole);
    if l.dot {
      DigitsValueAppend(t, w, l.sign + l.whole + 1, l.sign + l.whole + 1 + l.fraction);
    }
  }

  /** A numeral that fills t is still the longest numeral at the start of t + w
      when w starts with neither a digit nor a '.'. */
  lemma ScanNumeralAppend(t: string, w: string)
    requires ScanNumeral(t).Some? && ScanNumeral(t).value.end == |t|
    requires w == [] || (!IsDigit(w[0]) && w[0] != '.')
    ensures ScanNumeral(t + w) == ScanNumeral(t)
  {
    LayoutAppend(t, w);
    NumeralValueAppend(t, w);
  }

  /** Whenever Number(s) is a number and s is not blank, parseFloat(s) is that same number:
      App checks the quantity with Number and stores it with parseFloat. */
  lemma ParseFloatAgreesWithNumber(s: string)
    requires !Text.IsBlank(s) && ToNumber(s).Some?
    ensures ParseFloat(s) == ToNumber(s)
  {
    var u := Text.TrimStart(s);
    var t := Text.Trim(s);
    var w := u[|u| - Text.TrailingSpaces(u)..];
    assert u == t + w;
    assert w != [] ==> Text.IsSpace(w[0]);
    ScanNumeralAppend(t, w);
  }

  /** A lone digit is that digit's value. */
  lemma SingleDigit(d: char)
    requires IsDigit(d)
    ensures ToNumber([d]) == Some((d as int - '0' as int) as real)
  {
    assert Text.LeadingSpaces([d]) == 0 && Text.TrailingSpaces([d]) == 0;
    assert Text.Trim([d]) == [d];
    assert LayoutOf([d]) == Layout(0, 1, false, 0);
  }

  /** A minus sign before a digit negates it. */
  lemma NegatedDigit(d: char)
    requires IsDigit(d)
    ensures ToNumber(['-', d]) == Some(-((d as int - '0' as int) as real))
  {
    var s := ['-', d];
    assert Text.LeadingSpaces(s) == 0 && Text.TrailingSpaces(s) == 0;
    assert Text.Trim(s) == s;
    assert DigitsFrom(s, 2) == 0;
    assert LayoutOf(s) == Layout(1, 1, false, 0);
  }

  /** A string that starts with anything but whitespace, a sign, a digit or '.' is NaN,
      for Number and parseFloat alike. */
  lemma NotANumeral(s: string)
    requires s != [] && !Text.IsSpace(s[0]) && !IsDigit(s[0]) && s[0] != '+' && s[0] != '-' && s[0] != '.'
    ensures ToNumber(s) == None && ParseFloat(s) == None
  {
    assert Text.LeadingSpaces(s) == 0;
    assert Text.TrimStart(s) == s;
    var t := Text.Trim(s);
    assert t != [] && t[0] == s[0];
    assert LayoutOf(t) == Layout(0, 0, false, 0);
    assert LayoutOf(s) == Layout(0, 0, false, 0);
  }
}

/** JavaScript's conversions from text to numbers, for plain decimal
    spellings: `parseInt(s)` (radix 10), `parseFloat(s)` and `Number(s)`.
    A result of `None` stands for `NaN`. */
module Numbers {
  import opened Wrappers
  import opened Text

  /** The length of the run of decimal digits that starts `s`. */
  function DigitRun(s: string): (k: nat)
    ensures k <= |s|
    ensures k == |s| || !IsDigit(s[k])
  {
    if s == [] || !IsDigit(s[0]) then 0 else 1 + DigitRun(s[1..])
  }

  /** The run `DigitRun` measures is made of digits. */
  lemma {:induction false} DigitRunDigits(s: string)
    ensures AllDigits(s[..DigitRun(s)])
  {
    if s != [] && IsDigit(s[0]) {
      DigitRunDigits(s[1..]);
      var k := DigitRun(s);
      assert s[..k] == [s[0]] + s[1..][..k - 1];
    }
  }

  /** The digit run of `d + rest` is `d` when `rest` does not start with a
      digit. */
  lemma {:induction false} DigitRunOfPrefix(d: string, rest: string)
    requires AllDigits(d)
    requires rest == [] || !IsDigit(rest[0])
    ensures DigitRun(d + rest) == |d|
    ensures (d + rest)[..|d|] == d
  {
    if d != [] {
      assert (d + rest)[1..] == d[1..] + rest;
      DigitRunOfPrefix(d[1..], rest);
    }
  }

  /** Ten to the power `n`. */
  function Pow10(n: nat): (p: nat)
    ensures p >= 1
  {
    if n == 0 then 1 else 10 * Pow10(n - 1)
  }

  /** The value of the digits after a decimal point. */
  function Fraction(d: string): real
    requires AllDigits(d)
  {
    DecimalValue(d) as real / Pow10(|d|) as real
  }

  /** An optional leading sign: whether it is a minus, and the text after
      it. */
  function SplitSign(s: string): (bool, string) {
    if s != [] && s[0] == '-' then (true, s[1..])
    else if s != [] && s[0] == '+' then (false, s[1..])
    else (false, s)
  }

  /** `v` with the sign applied. */
  function Signed(negative: bool, v: real): real {
    if negative then -v else v
  }

  /** `parseInt(s)`: leading white space and one sign are skipped, then the
      longest run of digits is read; no digit at all gives `NaN`. */
  function ParseInt(s: string): (r: Option<int>)
    ensures r.Some? ==> ParseFloat(s).Some? && Trunc(ParseFloat(s).value) == r.value
  {
    var (negative, body) := SplitSign(TrimStart(s));
    var k := DigitRun(body);
    DigitRunDigits(body);
    if k == 0 then None
    else
      WholePartOfPrefix(body);
      var n := DecimalValue(body[..k]);
      assert ParseFloat(s) == Some(Signed(negative, DecimalPrefix(body).value));
      TruncOfSigned(negative, DecimalPrefix(body).value, n);
      if negative then Some(0 - n) else Some(n)
  }

  /** Truncating a signed value whose magnitude lies in `[n, n + 1)` gives
      `n` with the sign. */
  lemma TruncOfSigned(negative: bool, v: real, n: nat)
    requires n as real <= v < n as real + 1.0
    ensures Trunc(Signed(negative, v)) == if negative then 0 - n else n
  {
    var x := Signed(negative, v);
    var r := Trunc(x);
    if negative && x < 0.0 {
      assert r as real - 1.0 < x <= r as real;
      assert -(n as real) - 1.0 < x <= -(n as real);
    } else {
      assert r as real <= x < r as real + 1.0;
    }
  }

  /** The unsigned decimal number that `body` starts with:
      digits, optionally followed by a point and more digits. */
  function DecimalPrefix(body: string): Option<real> {
    var k := DigitRun(body);
    DigitRunDigits(body);
    AfterDigits(k > 0, DecimalValue(body[..k]), body[k..])
  }

  /** The rest of a decimal prefix after its leading digits, which were
      present or not and are worth `n`: a point and the digits after it,
      or nothing more. */
  function AfterDigits(present: bool, n: nat, rest: string): Option<real> {
    if rest != [] && rest[0] == '.' then
      var m := DigitRun(rest[1..]);
      DigitRunDigits(rest[1..]);
      if !present && m == 0 then None
      else Some(n as real + Fraction(rest[1..][..m]))
    else if !present then None
    else Some(n as real)
  }

  /** One optional sign, then the longest decimal prefix. */
  function ReadFloat(x: string): Option<real> {
    var (negative, body) := SplitSign(x);
    match DecimalPrefix(body)
    case None => None
    case Some(v) => Some(Signed(negative, v))
  }

  /** `parseFloat(s)`: leading white space is skipped, then one sign and
      the longest decimal prefix are read. A number is read only from a
      text that holds a digit, so blank text is `NaN`. */
  function ParseFloat(s: string): (r: Option<real>)
    ensures Blank(s) ==> r.None?
    ensures r.Some? ==> exists i :: 0 <= i < |s| && IsDigit(s[i])
  {
    var t := TrimStart(s);
    var r := ReadFloat(t);
    if r.Some? then
      ReadFloatHasDigit(t);
      var i :| 0 <= i < |t| && IsDigit(t[i]);
      assert s[|s| - |t| + i] == t[i];
      r
    else r
  }

  /** The number a whole trimmed, non-empty text spells: one sign, then an
      unsigned decimal. */
  function SignedDecimal(t: string): Option<real> {
    var (negative, body) := SplitSign(t);
    match WholeDecimal(body)
    case None => None
    case Some(v) => Some(Signed(negative, v))
  }

  /** The number `body` spells as a whole: digits with an optional point
      and more digits, with at least one digit in all. */
  function WholeDecimal(body: string): Option<real> {
    var k := DigitRun(body);
    DigitRunDigits(body);
    var rest := body[k..];
    if rest == [] then
      if k == 0 then None else Some(DecimalValue(body) as real)
    else if rest[0] == '.' && AllDigits(rest[1..]) && (k > 0 || |rest| > 1) then
      Some(DecimalValue(body[..k]) as real + Fraction(rest[1..]))
    else None
  }

  /** `Number(s)`: white space around the text is ignored, the empty text is
      0, and otherwise the whole text must be one signed decimal number. */
  function StringToNumber(s: string): (r: Option<real>)
    ensures Blank(s) ==> r == Some(0.0)
    ensures !Blank(s) && r.Some? ==> ParseFloat(s) == r
  {
    var t := Trim(s);
    TrimEmptyIffBlank(s);
    if t == [] then Some(0.0)
    else
      var r := SignedDecimal(t);
      if r.Some? then
        TrimStartIsTrimThenBlank(s);
        ReadFloatOfDecimal(t, TrimStart(s)[|t|..]);
        r
      else r
  }

  /** The whole-number part of a decimal prefix: the value lies between the
      leading digits' value and the next whole number. */
  lemma WholePartOfPrefix(body: string)
    requires DigitRun(body) > 0
    ensures AllDigits(body[..DigitRun(body)])
    ensures DecimalPrefix(body).Some?
    ensures var n := DecimalValue(body[..DigitRun(body)]) as real;
      n <= DecimalPrefix(body).value < n + 1.0
  {
    DigitRunDigits(body);
    var k := DigitRun(body);
    var rest := body[k..];
    if rest != [] && rest[0] == '.' {
      DigitRunDigits(rest[1..]);
      FractionBelowOne(rest[1..][..DigitRun(rest[1..])]);
    }
  }

  /** Digits spell a number below ten to the power of their count. */
  lemma {:induction false} DecimalBelowPow10(d: string)
    requires AllDigits(d)
    ensures DecimalValue(d) < Pow10(|d|)
  {
    if d != [] {
      var p := d[..|d| - 1];
      DecimalBelowPow10(p);
      assert DecimalValue(p) * 10 <= Pow10(|p|) * 10 - 10;
    }
  }

  /** The digits after a decimal point are worth less than one. */
  lemma FractionBelowOne(d: string)
    requires AllDigits(d)
    ensures 0.0 <= Fraction(d) < 1.0
  {
    DecimalBelowPow10(d);
    QuotientBelowOne(DecimalValue(d) as real, Pow10(|d|) as real);
  }

  /** A non-negative number below a positive one divides it to less than
      one. */
  lemma QuotientBelowOne(n: real, p: real)
    requires 0.0 <= n < p
    ensures 0.0 <= n / p < 1.0
  {
  }

  /** A sign leaves a suffix of the text. */
  lemma SplitSignSuffix(x: string)
    ensures var body := SplitSign(x).1;
      |body| <= |x| && body == x[|x| - |body|..]
  {
    if x != [] && (x[0] == '-' || x[0] == '+') {
      assert SplitSign(x).1 == x[1..];
    } else {
      assert SplitSign(x).1 == x && x[0..] == x;
    }
  }

  /** A text from which a number is read holds a digit. */
  lemma ReadFloatHasDigit(x: string)
    requires ReadFloat(x).Some?
    ensures exists i :: 0 <= i < |x| && IsDigit(x[i])
  {
    var body := SplitSign(x).1;
    SplitSignSuffix(x);
    var o := |x| - |body|;
    var k := DigitRun(body);
    if k > 0 {
      assert IsDigit(x[o]);
    } else {
      var rest := body[k..];
      assert rest != [] && rest[0] == '.' && DigitRun(rest[1..]) > 0;
      assert IsDigit(x[o + 1]);
    }
  }

  /** Skipping leading white space leaves the trimmed text followed by
      white space. */
  lemma TrimStartIsTrimThenBlank(s: string)
    ensures var ts := TrimStart(s);
      |Trim(s)| <= |ts| && ts == Trim(s) + ts[|Trim(s)|..] && Blank(ts[|Trim(s)|..])
  {
    TrimEndThenBlank(TrimStart(s));
  }

  /** White space is neither a digit nor a point. */
  lemma BlankStartsWithNoNumber(w: string)
    requires Blank(w)
    ensures w == [] || (!IsDigit(w[0]) && w[0] != '.')
  {
    if w != [] && IsDigit(w[0]) {
      DigitIsNotSpace(w[0]);
    }
  }

  /** Digits followed by white space: the decimal prefix is the digits. */
  lemma DecimalPrefixOfDigits(d: string, w: string)
    requires AllDigits(d) && d != [] && Blank(w)
    ensures DecimalPrefix(d + w) == Some(DecimalValue(d) as real)
  {
    BlankStartsWithNoNumber(w);
    DecimalPrefixSplit(d, w);
  }

  /** The leading digits of `d + rest` are `d` when `rest` does not start
      with a digit. */
  lemma DecimalPrefixSplit(d: string, rest: string)
    requires AllDigits(d) && (rest == [] || !IsDigit(rest[0]))
    ensures DecimalPrefix(d + rest) == AfterDigits(d != [], DecimalValue(d), rest)
  {
    DigitRunOfPrefix(d, rest);
    assert (d + rest)[|d|..] == rest;
  }

  /** Digits, a point and digits, followed by white space: the decimal
      prefix is the whole number with its fraction. */
  lemma DecimalPrefixOfPoint(a: string, f: string, w: string)
    requires AllDigits(a) && AllDigits(f) && (a != [] || f != []) && Blank(w)
    ensures DecimalPrefix(a + ("." + (f + w))) == Some(DecimalValue(a) as real + Fraction(f))
  {
    DigitsThenPoint(a, f, w);
    PointAfterDigits(a, f, w);
  }

  /** What follows digits `a` when it is a point, digits `f` and white
      space. */
  lemma PointAfterDigits(a: string, f: string, w: string)
    requires AllDigits(a) && AllDigits(f) && (a != [] || f != []) && Blank(w)
    ensures AfterDigits(a != [], DecimalValue(a), "." + (f + w)) == Some(DecimalValue(a) as real + Fraction(f))
  {
    AfterPoint(a != [], DecimalValue(a), f, w);
  }

  /** The leading digits of digits followed by a point are those digits. */
  lemma DigitsThenPoint(a: string, f: string, w: string)
    requires AllDigits(a)
    ensures DecimalPrefix(a + ("." + (f + w))) == AfterDigits(a != [], DecimalValue(a), "." + (f + w))
  {
    var rest := "." + (f + w);
    assert rest[0] == '.';
    DecimalPrefixSplit(a, rest);
  }

  /** A point, digits and white space after the leading digits: the
      fraction is those digits. */
  lemma AfterPoint(present: bool, n: nat, f: string, w: string)
    requires AllDigits(f) && (present || f != []) && Blank(w)
    ensures AfterDigits(present, n, "." + (f + w)) == Some(n as real + Fraction(f))
  {
    BlankStartsWithNoNumber(w);
    var rest := "." + (f + w);
    assert rest[1..] == f + w;
    DigitRunOfPrefix(f, w);
  }

  /** The sign of a non-empty text is read the same with text after it. */
  lemma SplitSignAppend(t: string, w: string)
    requires t != []
    ensures SplitSign(t + w) == (SplitSign(t).0, SplitSign(t).1 + w)
  {
    if t[0] == '-' || t[0] == '+' {
      assert (t + w)[1..] == t[1..] + w;
    }
  }

  /** After a whole signed decimal, `parseFloat` stops at the white space
      that follows, so it reads the number `Number` reads. */
  lemma ReadFloatOfDecimal(t: string, w: string)
    requires t != [] && Blank(w) && SignedDecimal(t).Some?
    ensures ReadFloat(t + w) == SignedDecimal(t)
  {
    SplitSignAppend(t, w);
    DecimalPrefixOfWhole(SplitSign(t).1, w);
  }

  /** After a whole unsigned decimal, the decimal prefix stops at the white
      space that follows. */
  lemma DecimalPrefixOfWhole(body: string, w: string)
    requires Blank(w) && WholeDecimal(body).Some?
    ensures DecimalPrefix(body + w) == WholeDecimal(body)
  {
    var k := DigitRun(body);
    DigitRunDigits(body);
    var rest := body[k..];
    if rest == [] {
      assert body[..k] == body;
      WholeDigitsThenBlank(body, w);
    } else {
      var a, f := body[..k], rest[1..];
      assert body == a + ("." + f);
      WholePointThenBlank(body, a, f, w);
    }
  }

  /** Digits followed by white space: both readings give the digits. */
  lemma WholeDigitsThenBlank(body: string, w: string)
    requires AllDigits(body) && body != [] && Blank(w)
    ensures DecimalPrefix(body + w) == WholeDecimal(body)
  {
    WholeDecimalOfDigits(body);
    DecimalPrefixOfDigits(body, w);
  }

  /** Digits, a point and digits, followed by white space: both readings
      give the whole number with its fraction. */
  lemma WholePointThenBlank(body: string, a: string, f: string, w: string)
    requires AllDigits(a) && AllDigits(f) && (a != [] || f != []) && Blank(w)
    requires body == a + ("." + f)
    ensures DecimalPrefix(body + w) == WholeDecimal(body)
  {
    WholeDecimalOfPoint(body, a, f);
    DecimalPrefixOfSplitPoint(body, a, f, w);
  }

  /** Digits, a point and digits read as a whole decimal. */
  lemma WholeDecimalOfPoint(body: string, a: string, f: string)
    requires AllDigits(a) && AllDigits(f) && (a != [] || f != [])
    requires body == a + ("." + f)
    ensures WholeDecimal(body) == Some(DecimalValue(a) as real + Fraction(f))
  {
    var rest := "." + f;
    assert rest[0] == '.' && rest[1..] == f;
    DigitRunOfPrefix(a, rest);
    assert body[|a|..] == rest;
  }

  /** The decimal prefix of digits, a point and digits, followed by white
      space, is the whole number with its fraction. */
  lemma DecimalPrefixOfSplitPoint(body: string, a: string, f: string, w: string)
    requires AllDigits(a) && AllDigits(f) && (a != [] || f != []) && Blank(w)
    requires body == a + ("." + f)
    ensures DecimalPrefix(body + w) == Some(DecimalValue(a) as real + Fraction(f))
  {
    assert body + w == a + ("." + (f + w));
    DecimalPrefixOfPoint(a, f, w);
  }

  /** `String(i)` for an integer. */
  function IntToDecimal(i: int): (r: string)
    ensures |r| > 0
  {
    if i < 0 then "-" + NatToDecimal(-i) else NatToDecimal(i)
  }

  /** A digit string is one run of digits. */
  lemma DigitRunOfDigits(s: string)
    requires AllDigits(s)
    ensures DigitRun(s) == |s|
  {
  }

  /** A text that starts with a digit or a sign has no leading white space
      to skip, and one that also ends with a digit none to trim. */
  lemma NoSpaceAround(t: string)
    requires |t| > 0 && (IsDigit(t[0]) || t[0] == '-') && IsDigit(t[|t| - 1])
    ensures TrimStart(t) == t && Trim(t) == t
  {
    DigitIsNotSpace(t[|t| - 1]);
    if IsDigit(t[0]) {
      DigitIsNotSpace(t[0]);
    } else {
      assert !IsSpace('-');
    }
    assert TrimStart(t) == t;
    assert TrimEnd(t) == t;
  }

  /** The sign of `String(i)` and the digits after it. */
  lemma SplitSignOfDecimal(i: int)
    ensures var n: nat := if i < 0 then -i else i;
            SplitSign(IntToDecimal(i)) == (i < 0, NatToDecimal(n))
  {
    var n: nat := if i < 0 then -i else i;
    var d := NatToDecimal(n);
    if i < 0 {
      assert IntToDecimal(i)[1..] == d;
    } else {
      assert d[0] != '-' && d[0] != '+' by {
        assert IsDigit(d[0]);
      }
    }
  }

  /** `String(i)` has no white space around it. */
  lemma DecimalHasNoSpaceAround(i: int)
    ensures TrimStart(IntToDecimal(i)) == IntToDecimal(i)
    ensures Trim(IntToDecimal(i)) == IntToDecimal(i)
  {
    var n: nat := if i < 0 then -i else i;
    var d := NatToDecimal(n);
    var t := IntToDecimal(i);
    if i < 0 {
      assert t == "-" + d;
      assert t[|t| - 1] == d[|d| - 1];
    }
    NoSpaceAround(t);
  }

  /** `parseInt` reads back what `String` wrote. */
  lemma ParseIntRoundTrip(i: int)
    ensures ParseInt(IntToDecimal(i)) == Some(i)
  {
    var n: nat := if i < 0 then -i else i;
    var d := NatToDecimal(n);
    DecimalHasNoSpaceAround(i);
    SplitSignOfDecimal(i);
    DecimalRoundTrip(n);
    DigitRunOfDigits(d);
    assert d[..|d|] == d;
  }

  /** `Number` reads back what `String` wrote. */
  lemma StringToNumberRoundTrip(i: int)
    ensures StringToNumber(IntToDecimal(i)) == Some(i as real)
  {
    var n: nat := if i < 0 then -i else i;
    var d := NatToDecimal(n);
    DecimalHasNoSpaceAround(i);
    SplitSignOfDecimal(i);
    DecimalRoundTrip(n);
    WholeDecimalOfDigits(d);
    assert SignedDecimal(IntToDecimal(i)) == Some(Signed(i < 0, DecimalValue(d) as real));
  }

  /** A run of digits is a whole decimal worth its digits. */
  lemma WholeDecimalOfDigits(d: string)
    requires AllDigits(d) && d != []
    ensures WholeDecimal(d) == Some(DecimalValue(d) as real)
  {
    DigitRunOfDigits(d);
    assert d[|d|..] == [];
  }

  /** `parseFloat` reads back what `String` wrote for a whole number. */
  lemma ParseFloatRoundTrip(i: int)
    ensures ParseFloat(IntToDecimal(i)) == Some(i as real)
  {
    var n: nat := if i < 0 then -i else i;
    var d := NatToDecimal(n);
    DecimalHasNoSpaceAround(i);
    SplitSignOfDecimal(i);
    DecimalRoundTrip(n);
    DigitRunOfDigits(d);
    assert d[..|d|] == d;
    assert d[|d|..] == [];
  }

  /** An empty field reads as NaN under `parseInt` and `parseFloat`. */
  lemma ParseIntOfEmpty()
    ensures ParseInt("") == None
    ensures ParseFloat("") == None
  {
    assert TrimStart("") == "";
    assert SplitSign("") == (false, "");
  }

  /** Truncation toward zero: what `parseInt` keeps of a number's
      integer-valued spelling. */
  function Trunc(x: real): (r: int)
    ensures 0.0 <= x ==> r as real <= x < r as real + 1.0
    ensures x < 0.0 ==> r as real - 1.0 < x <= r as real
  {
    if x >= 0.0 then x.Floor else -((-x).Floor)
  }
}

/**
  BacktestController: the CSV bar format of the backtest upload. A file is a
  header line followed by one bar per line; a line that does not parse is
  dropped. Reading the file into lines is not part of this model: the lines are
  given. Timestamps stay epoch milliseconds; the conversion to the server's
  local time zone is not modelled.
 */
module BacktestController {
  import opened Wrappers
  import opened Decimal
  import opened Domain
  import SignalSelection
  import Backtesting

  // ---------------------------------------------------------------- String.split(",")

  /** The pieces between the commas of `s`, empty ones included: one more than the commas. */
  function Fields(s: string): (r: seq<string>)
    ensures |r| >= 1
    ensures forall i :: 0 <= i < |r| ==> ',' !in r[i]
  {
    if |s| == 0 then [""]
    else
      var rest := Fields(s[1..]);
      if s[0] == ',' then [""] + rest
      else [[s[0]] + rest[0]] + rest[1..]
  }

  /** The pieces joined with commas between them. */
  function Join(parts: seq<string>): string
    requires |parts| >= 1
  {
    if |parts| == 1 then parts[0] else parts[0] + "," + Join(parts[1..])
  }

  /** The empty pieces at the end removed. */
  function DropTrailingEmpty(parts: seq<string>): (r: seq<string>)
    ensures |r| <= |parts| && r == parts[..|r|]
    ensures |r| > 0 ==> r[|r| - 1] != ""
    ensures forall i :: |r| <= i < |parts| ==> parts[i] == ""
  {
    if |parts| == 0 then []
    else if parts[|parts| - 1] == "" then DropTrailingEmpty(parts[..|parts| - 1])
    else parts
  }

  /**
    Java's `split(",")`: the whole line when it has no comma, otherwise the
    pieces between the commas without the empty ones at the end.
   */
  function Split(line: string): (r: seq<string>)
    ensures forall i :: 0 <= i < |r| ==> ',' !in r[i]
  {
    if ',' !in line then [line] else DropTrailingEmpty(Fields(line))
  }

  lemma JoinOne(a: string, rest: seq<string>)
    requires |rest| >= 1
    ensures Join([a] + rest) == a + "," + Join(rest)
  {
    assert ([a] + rest)[1..] == rest;
  }

  /** Joining the pieces gives the line back. */
  lemma {:induction false} JoinFields(s: string)
    ensures Join(Fields(s)) == s
  {
    if |s| > 0 {
      var rest := Fields(s[1..]);
      JoinFields(s[1..]);
      if s[0] == ',' {
        JoinOne("", rest);
        assert s == [s[0]] + s[1..];
      } else if |rest| == 1 {
        assert s == [s[0]] + rest[0];
      } else {
        JoinOne([s[0]] + rest[0], rest[1..]);
        JoinOne(rest[0], rest[1..]);
        assert rest == [rest[0]] + rest[1..];
        assert s == [s[0]] + s[1..];
      }
    }
  }

  lemma {:induction false} FieldsNoComma(a: string)
    requires ',' !in a
    ensures Fields(a) == [a]
  {
    if |a| > 0 {
      assert ',' !in a[1..] by {
        forall i | 0 <= i < |a[1..]|
          ensures a[1..][i] != ','
        {
          assert a[1..][i] == a[i + 1];
        }
      }
      FieldsNoComma(a[1..]);
      assert a == [a[0]] + a[1..];
    }
  }

  lemma {:induction false} FieldsOfPrefix(a: string, s: string)
    requires ',' !in a
    ensures Fields(a + "," + s) == [a] + Fields(s)
  {
    if |a| == 0 {
      assert (a + "," + s)[1..] == s;
    } else {
      assert ',' !in a[1..] by {
        forall i | 0 <= i < |a[1..]|
          ensures a[1..][i] != ','
        {
          assert a[1..][i] == a[i + 1];
        }
      }
      FieldsOfPrefix(a[1..], s);
      assert (a + "," + s)[1..] == a[1..] + "," + s;
      assert [a[0]] + a[1..] == a;
    }
  }

  /** Splitting at every comma undoes joining pieces that hold no comma. */
  lemma {:induction false} FieldsJoin(parts: seq<string>)
    requires |parts| >= 1
    requires forall i :: 0 <= i < |parts| ==> ',' !in parts[i]
    ensures Fields(Join(parts)) == parts
  {
    if |parts| == 1 {
      FieldsNoComma(parts[0]);
    } else {
      FieldsJoin(parts[1..]);
      FieldsOfPrefix(parts[0], Join(parts[1..]));
      assert parts == [parts[0]] + parts[1..];
    }
  }

  /**
    Java's split undoes a join when the last piece is not empty, or when there
    is a single piece.
   */
  lemma SplitJoin(parts: seq<string>)
    requires |parts| >= 1
    requires forall i :: 0 <= i < |parts| ==> ',' !in parts[i]
    requires |parts| == 1 || parts[|parts| - 1] != ""
    ensures Split(Join(parts)) == parts
  {
    FieldsJoin(parts);
    if |parts| == 1 {
      FieldsNoComma(parts[0]);
    } else {
      JoinOne(parts[0], parts[1..]);
      assert parts == [parts[0]] + parts[1..];
      assert Join(parts)[|parts[0]|] == ',';
      assert parts[..|parts|] == parts;
    }
  }

  // ---------------------------------------------------------------- numbers

  predicate IsDigit(c: char) {
    '0' <= c <= '9'
  }

  predicate AllDigits(s: string) {
    forall i :: 0 <= i < |s| ==> IsDigit(s[i])
  }

  /** The number an ASCII digit string spells, most significant digit first. */
  function DigitsValue(s: string): nat
    requires AllDigits(s)
  {
    if |s| == 0 then 0 else DigitsValue(s[..|s| - 1]) * 10 + (s[|s| - 1] as int - '0' as int)
  }

  /** An optional sign, then at least one digit. */
  function SignedDigits(s: string): (r: Option<int>)
    ensures r.Some? ==> |s| > 0
  {
    var signed := |s| > 0 && (s[0] == '-' || s[0] == '+');
    var digits := if signed then s[1..] else s;
    if |digits| == 0 || !AllDigits(digits) then None
    else
      var magnitude: int := DigitsValue(digits);
      Some(if s[0] == '-' then -magnitude else magnitude)
  }

  const LongMin: int := -0x8000_0000_0000_0000
  const LongMax: int := 0x7fff_ffff_ffff_ffff

  /** Long.parseLong: a signed decimal that fits in 64 bits, otherwise a format error. */
  function ParseLong(s: string): (r: Option<int>)
    ensures r.Some? ==> LongMin <= r.value <= LongMax
  {
    var v := SignedDigits(s);
    if v.Some? && LongMin <= v.value <= LongMax then v else None
  }

  /** The first index of `s` holding one of `marks`, or `|s|`. */
  function FirstOf(s: string, marks: set<char>): (r: nat)
    ensures r <= |s|
    ensures forall i :: 0 <= i < r ==> s[i] !in marks
    ensures r < |s| ==> s[r] in marks
  {
    if |s| == 0 then 0
    else if s[0] in marks then 0
    else 1 + FirstOf(s[1..], marks)
  }

  /** `x` times ten to the power `e`. */
  function Shift(x: real, e: int): real
    decreases if e >= 0 then e else -e
  {
    if e == 0 then x
    else if e > 0 then Shift(x * 10.0, e - 1)
    else Shift(x / 10.0, e + 1)
  }

  /** A decimal as BigDecimal holds it: the digits as one integer, and how many of them follow the point. */
  datatype Unscaled = Unscaled(digits: nat, scale: nat)

  /** Digits with at most one decimal point and at least one digit. */
  function ParseMantissa(m: string): Option<Unscaled> {
    var point := FirstOf(m, {'.'});
    var whole := m[..point];
    var fraction := if point < |m| then m[point + 1..] else "";
    if !AllDigits(whole) || !AllDigits(fraction) || |whole| + |fraction| == 0 then None
    else Some(Unscaled(DigitsValue(whole + fraction), |fraction|))
  }

  /** The unscaled digits shifted by the exponent less the scale; None when either part is malformed. */
  function Scientific(mantissa: Option<Unscaled>, exponent: Option<int>): Option<real> {
    if mantissa.None? || exponent.None? then None
    else Some(Shift(mantissa.value.digits as real, exponent.value - mantissa.value.scale))
  }

  /** The mantissa, then optionally `e` or `E` and a signed exponent. */
  function ParseUnsigned(body: string): Option<real> {
    var e := FirstOf(body, {'e', 'E'});
    Scientific(ParseMantissa(body[..e]), if e < |body| then SignedDigits(body[e + 1..]) else Some(0))
  }

  lemma ScientificOf(digits: nat, scale: nat, x: int)
    ensures Scientific(Some(Unscaled(digits, scale)), Some(x)) == Some(Shift(digits as real, x - scale))
  {
  }

  /** new BigDecimal(String): an optional sign, then the unsigned decimal; anything else is a format error. */
  function ParseDecimal(s: string): (r: Option<real>)
    ensures r.Some? ==> |s| > 0
  {
    if |s| > 0 && s[0] == '-' then
      var magnitude := ParseUnsigned(s[1..]);
      if magnitude.Some? then Some(-magnitude.value) else None
    else if |s| > 0 && s[0] == '+' then ParseUnsigned(s[1..])
    else if |s| == 0 then None
    else ParseUnsigned(s)
  }

  /** The decimal digits of `n`, without leading zeros. */
  function ShowNat(n: nat): (r: string)
    ensures |r| >= 1 && AllDigits(r)
  {
    if n < 10 then [('0' as int + n) as char]
    else ShowNat(n / 10) + [('0' as int + n % 10) as char]
  }

  /** The decimal rendering of `n`, with a minus sign when negative. */
  function ShowInt(n: int): string {
    if n < 0 then "-" + ShowNat(-n) else ShowNat(n)
  }

  lemma {:induction false} DigitsOfShowNat(n: nat)
    ensures DigitsValue(ShowNat(n)) == n
  {
    if n >= 10 {
      DigitsOfShowNat(n / 10);
      var s := ShowNat(n);
      assert s[..|s| - 1] == ShowNat(n / 10);
    }
  }

  lemma SignedDigitsOfDigits(d: string)
    requires |d| >= 1 && AllDigits(d)
    ensures SignedDigits(d) == Some(DigitsValue(d) as int)
    ensures SignedDigits("-" + d) == Some(-(DigitsValue(d) as int))
  {
    UnsignedDigits(d);
    NegatedDigits(d);
  }

  lemma UnsignedDigits(d: string)
    requires |d| >= 1 && AllDigits(d)
    ensures SignedDigits(d) == Some(DigitsValue(d) as int)
  {
    assert IsDigit(d[0]);
  }

  lemma NegatedDigits(d: string)
    requires |d| >= 1 && AllDigits(d)
    ensures SignedDigits("-" + d) == Some(-(DigitsValue(d) as int))
  {
    assert ("-" + d)[0] == '-';
    assert ("-" + d)[1..] == d;
  }

  lemma SignedDigitsOfShowInt(n: int)
    ensures SignedDigits(ShowInt(n)) == Some(n)
  {
    var m := if n < 0 then -n else n;
    DigitsOfShowNat(m);
    SignedDigitsOfDigits(ShowNat(m));
  }

  /** Long.parseLong reads back the rendering of every 64-bit integer. */
  lemma ParseLongShowInt(n: int)
    requires LongMin <= n <= LongMax
    ensures ParseLong(ShowInt(n)) == Some(n)
  {
    SignedDigitsOfShowInt(n);
  }

  /** Numbers outside 64 bits do not parse as a long. */
  lemma ParseLongOverflow(n: int)
    requires n < LongMin || LongMax < n
    ensures ParseLong(ShowInt(n)) == None
  {
    SignedDigitsOfShowInt(n);
  }

  lemma FirstOfAbsent(s: string, marks: set<char>)
    requires forall i :: 0 <= i < |s| ==> s[i] !in marks
    ensures FirstOf(s, marks) == |s|
  {
    if |s| > 0 {
      FirstOfAbsent(s[1..], marks);
    }
  }

  lemma MantissaOfDigits(d: string)
    requires AllDigits(d) && |d| >= 1
    ensures ParseMantissa(d) == Some(Unscaled(DigitsValue(d), 0))
  {
    DigitsHaveNoMarks(d);
    assert d[..|d|] == d;
    assert d + "" == d;
  }

  /** A digit string is its own mantissa, with no exponent. */
  lemma UnsignedOfDigits(d: string)
    requires |d| >= 1 && AllDigits(d)
    ensures ParseUnsigned(d) == Some(DigitsValue(d) as real)
  {
    DigitsHaveNoMarks(d);
    assert d[..|d|] == d;
    MantissaOfDigits(d);
  }

  lemma DigitsHaveNoMarks(d: string)
    requires AllDigits(d)
    ensures FirstOf(d, {'e', 'E'}) == |d| && FirstOf(d, {'.'}) == |d|
  {
    FirstOfAbsent(d, {'e', 'E'});
    FirstOfAbsent(d, {'.'});
  }

  lemma ParseDecimalOfDigits(d: string)
    requires |d| >= 1 && AllDigits(d)
    ensures ParseDecimal(d) == Some(DigitsValue(d) as real)
  {
    UnsignedOfDigits(d);
    assert IsDigit(d[0]);
  }

  /** A leading minus negates the number that follows it. */
  lemma MinusNegates(t: string)
    requires |t| > 0 && t[0] != '-' && t[0] != '+'
    ensures ParseDecimal("-" + t) == if ParseDecimal(t).Some? then Some(-ParseDecimal(t).value) else None
  {
    assert ("-" + t)[1..] == t;
  }

  /** The decimal parser reads back the rendering of every integer. */
  lemma ParseDecimalShowInt(n: int)
    ensures ParseDecimal(ShowInt(n)) == Some(n as real)
  {
    var m := if n < 0 then -n else n;
    DigitsOfShowNat(m);
    ParseDecimalOfDigits(ShowNat(m));
    assert IsDigit(ShowNat(m)[0]);
    MinusNegates(ShowNat(m));
  }

  /** `Shift` multiplies by a power of ten. */
  lemma {:induction false} ShiftIsPower(x: real, e: int)
    ensures Shift(x, e) == if e >= 0 then x * Pow10(e) else x / Pow10(-e)
    decreases if e >= 0 then e else -e
  {
    if e > 0 {
      ShiftIsPower(x * 10.0, e - 1);
      assert Pow10(e) == 10.0 * Pow10(e - 1);
    } else if e < 0 {
      ShiftIsPower(x / 10.0, e + 1);
      assert Pow10(-e) == 10.0 * Pow10(-e - 1);
      DivTwice(x, 10.0, Pow10(-e - 1));
    }
  }

  lemma DivTwice(x: real, a: real, b: real)
    requires a > 0.0 && b > 0.0
    ensures x / a / b == x / (a * b)
  {
  }

  lemma Pow10Add(a: nat, b: nat)
    ensures Pow10(a + b) == Pow10(a) * Pow10(b)
  {
    if a > 0 {
      Pow10Add(a - 1, b);
    }
  }

  /** The first mark of `s` is at `k` when `s[k]` is one and nothing before it is. */
  lemma {:induction false} FirstOfAt(s: string, marks: set<char>, k: nat)
    requires k < |s| && s[k] in marks
    requires forall i :: 0 <= i < k ==> s[i] !in marks
    ensures FirstOf(s, marks) == k
  {
    if k > 0 {
      FirstOfAt(s[1..], marks, k - 1);
    }
  }

  /** `w.f` is the unscaled number `wf` with |f| digits after the point. */
  lemma MantissaOfPoint(w: string, f: string)
    requires AllDigits(w) && AllDigits(f) && |w| + |f| >= 1
    ensures ParseMantissa(w + "." + f) == Some(Unscaled(DigitsValue(w + f), |f|))
  {
    var m := w + "." + f;
    FirstOfAt(m, {'.'}, |w|);
    assert m[..|w|] == w;
    assert m[|w| + 1..] == f;
  }

  /** A digit string, a point and a digit string: no exponent mark anywhere. */
  lemma PointHasNoExponent(w: string, f: string)
    requires AllDigits(w) && AllDigits(f)
    ensures FirstOf(w + "." + f, {'e', 'E'}) == |w + "." + f|
  {
    var m := w + "." + f;
    forall i | 0 <= i < |m|
      ensures m[i] !in {'e', 'E'}
    {
      if i < |w| {
        assert m[i] == w[i] && IsDigit(w[i]);
      } else if i > |w| {
        assert m[i] == f[i - |w| - 1] && IsDigit(f[i - |w| - 1]);
      }
    }
    FirstOfAbsent(m, {'e', 'E'});
  }

  /** ParseUnsigned when the text has no exponent mark. */
  lemma UnsignedNoExponent(body: string, digits: nat, scale: nat)
    requires FirstOf(body, {'e', 'E'}) == |body| && ParseMantissa(body) == Some(Unscaled(digits, scale))
    ensures ParseUnsigned(body) == Some(Shift(digits as real, 0 - scale))
  {
    assert body[..|body|] == body;
    ScientificOf(digits, scale, 0);
  }

  /** ParseUnsigned when the first exponent mark is at `e`. */
  lemma UnsignedAtExponent(body: string, e: nat, digits: nat, scale: nat, x: int)
    requires e < |body| && FirstOf(body, {'e', 'E'}) == e
    requires ParseMantissa(body[..e]) == Some(Unscaled(digits, scale)) && SignedDigits(body[e + 1..]) == Some(x)
    ensures ParseUnsigned(body) == Some(Shift(digits as real, x - scale))
  {
    ScientificOf(digits, scale, x);
  }


  /** A text that starts with neither sign is read as an unsigned decimal. */
  lemma UnsignedWithoutSign(t: string)
    requires |t| > 0 && t[0] != '-' && t[0] != '+'
    ensures ParseDecimal(t) == ParseUnsigned(t)
  {
  }

  /** `w.f` starts with a digit or the point. */
  lemma PointStartsUnsigned(w: string, f: string, rest: string)
    requires AllDigits(w)
    ensures var t := w + "." + f + rest; |t| > 0 && t[0] != '-' && t[0] != '+'
  {
    var t := w + "." + f + rest;
    if |w| > 0 {
      assert t[0] == w[0] && IsDigit(w[0]);
    } else {
      assert t[0] == '.';
    }
  }

  /**
    new BigDecimal reads a plain decimal `w.f` (either side of the point may be
    empty, not both) as the digits `wf` divided by ten to the number of digits
    after the point.
   */
  lemma ParseDecimalOfPoint(w: string, f: string)
    requires AllDigits(w) && AllDigits(f) && |w| + |f| >= 1
    ensures ParseDecimal(w + "." + f) == Some(DigitsValue(w + f) as real / Pow10(|f|))
  {
    PointHasNoExponent(w, f);
    MantissaOfPoint(w, f);
    PointStartsUnsigned(w, f, "");
    assert w + "." + f + "" == w + "." + f;
    DecimalNoExponentOf(w + "." + f, DigitsValue(w + f), |f|, DigitsValue(w + f) as real / Pow10(|f|));
  }

  /** A mark-free mantissa that starts with neither sign reads as its digits scaled down by its scale. */
  lemma DecimalNoExponentOf(m: string, digits: nat, scale: nat, v: real)
    requires FirstOf(m, {'e', 'E'}) == |m| && ParseMantissa(m) == Some(Unscaled(digits, scale))
    requires |m| > 0 && m[0] != '-' && m[0] != '+'
    requires v == digits as real / Pow10(scale)
    ensures ParseDecimal(m) == Some(v)
  {
    UnsignedNoExponent(m, digits, scale);
    UnsignedWithoutSign(m);
    ShiftIsPower(digits as real, 0 - scale);
  }

  /** The pieces of `m` + "e" + `x`. */
  lemma ExponentSplit(m: string, x: string)
    ensures var body := m + "e" + x;
      |m| < |body| && body[..|m|] == m && body[|m|] == 'e' && body[|m| + 1..] == x
  {
  }

  /** Appending "e" and an exponent to a text without a mark puts the first mark at its end. */
  lemma MarkAfterPrefix(m: string, x: string)
    requires FirstOf(m, {'e', 'E'}) == |m|
    ensures FirstOf(m + "e" + x, {'e', 'E'}) == |m|
  {
    var body := m + "e" + x;
    ExponentSplit(m, x);
    FirstOfAbsentPrefix(m, body, {'e', 'E'});
    FirstOfAt(body, {'e', 'E'}, |m|);
  }

  /** An exponent text `x` reading as k, after a mark-free mantissa, shifts the mantissa by k. */
  lemma UnsignedWithExponentOf(m: string, x: string, digits: nat, scale: nat, k: int)
    requires FirstOf(m, {'e', 'E'}) == |m| && ParseMantissa(m) == Some(Unscaled(digits, scale))
    requires SignedDigits(x) == Some(k)
    ensures ParseUnsigned(m + "e" + x) == Some(Shift(digits as real, k - scale))
  {
    MarkAfterPrefix(m, x);
    ExponentSplit(m, x);
    UnsignedAtExponent(m + "e" + x, |m|, digits, scale, k);
  }

  /** Shifting the digits by k less the scale is shifting their scaled value by k. */
  lemma ShiftOfScaled(d: real, scale: nat, k: int, v: real)
    requires v == d / Pow10(scale)
    ensures Shift(d, k - scale) == (if k >= 0 then v * Pow10(k) else v / Pow10(-k))
  {
    ShiftIsPower(d, k - scale);
    ScaledMantissa(d, scale, k, v);
  }

  /**
    The whole decimal `m` + "e" + `x`, when the mark-free mantissa `m` starts with
    neither sign: its value `v` times ten to the power k.
   */
  lemma DecimalWithExponentOf(m: string, x: string, digits: nat, scale: nat, k: int, v: real)
    requires FirstOf(m, {'e', 'E'}) == |m| && ParseMantissa(m) == Some(Unscaled(digits, scale))
    requires SignedDigits(x) == Some(k)
    requires |m| > 0 && m[0] != '-' && m[0] != '+'
    requires v == digits as real / Pow10(scale)
    ensures ParseDecimal(m + "e" + x) == Some(if k >= 0 then v * Pow10(k) else v / Pow10(-k))
  {
    UnsignedWithExponentOf(m, x, digits, scale, k);
    assert (m + "e" + x)[0] == m[0];
    UnsignedWithoutSign(m + "e" + x);
    ShiftOfScaled(digits as real, scale, k, v);
  }

  /** What the exponent lemmas need to know of `w.f`: its unscaled digits and scale. */
  lemma PointMantissa(w: string, f: string) returns (digits: nat, scale: nat)
    requires AllDigits(w) && AllDigits(f) && |w| + |f| >= 1
    ensures var m := w + "." + f;
      && FirstOf(m, {'e', 'E'}) == |m| && ParseMantissa(m) == Some(Unscaled(digits, scale))
      && |m| > 0 && m[0] != '-' && m[0] != '+'
      && ParseDecimal(m) == Some(digits as real / Pow10(scale))
  {
    digits, scale := DigitsValue(w + f), |f|;
    ParseDecimalOfPoint(w, f);
    PointHasNoExponent(w, f);
    MantissaOfPoint(w, f);
    PointStartsUnsigned(w, f, "");
    assert w + "." + f + "" == w + "." + f;
  }

  /**
    An exponent `e<k>` after a plain decimal `text`, written `w.f`, scales the
    value `v` it reads as by ten to the power k (a negative k divides).
   */
  lemma ParseDecimalWithExponent(w: string, f: string, text: string, v: real, k: int)
    requires AllDigits(w) && AllDigits(f) && |w| + |f| >= 1 && text == w + "." + f
    requires ParseDecimal(text) == Some(v)
    ensures ParseDecimal(text + "e" + ShowInt(k)) == Some(if k >= 0 then v * Pow10(k) else v / Pow10(-k))
  {
    var digits, scale := PointMantissa(w, f);
    SignedDigitsOfShowInt(k);
    DecimalWithExponentOf(text, ShowInt(k), digits, scale, k, v);
  }

  /** No mark in the prefix `m` of `body`. */
  lemma FirstOfAbsentPrefix(m: string, body: string, marks: set<char>)
    requires FirstOf(m, marks) == |m| && |m| <= |body| && body[..|m|] == m
    ensures forall i :: 0 <= i < |m| ==> body[i] !in marks
  {
    forall i | 0 <= i < |m|
      ensures body[i] !in marks
    {
      assert body[i] == m[i];
      FirstOfBefore(m, marks, i);
    }
  }

  lemma {:induction false} FirstOfBefore(s: string, marks: set<char>, i: nat)
    requires i < FirstOf(s, marks)
    ensures s[i] !in marks
  {
    if i > 0 {
      FirstOfBefore(s[1..], marks, i - 1);
    }
  }

  /** d × 10^(k − f) is d / 10^f scaled by 10^k. */
  lemma ScaledMantissa(d: real, f: nat, k: int, v: real)
    requires v == d / Pow10(f)
    ensures (if k - f >= 0 then d * Pow10(k - f) else d / Pow10(-(k - f)))
      == (if k >= 0 then v * Pow10(k) else v / Pow10(-k))
  {
    assert -(k - f) == f - k;
    if k < 0 {
      ScaledDown(d, f, -k, v);
    } else if k >= f {
      ScaledUp(d, f, k, v);
    } else {
      ScaledPartly(d, f, k, v);
    }
  }

  lemma ScaledDown(d: real, f: nat, n: nat, v: real)
    requires v == d / Pow10(f)
    ensures d / Pow10(f + n) == v / Pow10(n)
  {
    Pow10Add(f, n);
    DivTwice(d, Pow10(f), Pow10(n));
  }

  lemma ScaledUp(d: real, f: nat, k: nat, v: real)
    requires k >= f && v == d / Pow10(f)
    ensures d * Pow10(k - f) == v * Pow10(k)
  {
    Pow10Add(k - f, f);
    assert k - f + f == k;
    DivThenMul(d, Pow10(f), Pow10(k - f));
  }

  lemma ScaledPartly(d: real, f: nat, k: nat, v: real)
    requires k < f && v == d / Pow10(f)
    ensures d / Pow10(f - k) == v * Pow10(k)
  {
    Pow10Add(f - k, k);
    assert f - k + k == f;
    MulCancelsDiv(d, Pow10(f - k), Pow10(k));
  }

  lemma DivThenMul(d: real, p: real, q: real)
    requires p > 0.0
    ensures (d / p) * (q * p) == d * q
  {
    assert (d / p) * p == d;
  }

  lemma MulCancelsDiv(d: real, r: real, q: real)
    requires r > 0.0 && q > 0.0
    ensures (d / (r * q)) * q == d / r
  {
    assert (d / (r * q)) * (r * q) == d;
  }

  // ---------------------------------------------------------------- lines

  /**
    The field mapping of parseLine: 0 the epoch milliseconds, 1 the date
    (ignored), 2 the symbol, 3 to 6 open, high, low and close, 7 the volume,
    8 the quote volume and 9 the trade count; fields after the tenth are
    ignored. A number that does not parse makes the whole line null.
   */
  function ParseFields(parts: seq<string>): (r: Option<Bar>)
    requires |parts| >= 10
    ensures r.Some? <==>
      && ParseLong(parts[0]).Some? && ParseDecimal(parts[3]).Some? && ParseDecimal(parts[4]).Some?
      && ParseDecimal(parts[5]).Some? && ParseDecimal(parts[6]).Some? && ParseDecimal(parts[7]).Some?
      && ParseDecimal(parts[8]).Some? && ParseLong(parts[9]).Some?
    ensures r.Some? ==>
      && Some(r.value.timestamp) == ParseLong(parts[0]) && r.value.symbol == parts[2]
      && Some(r.value.open) == ParseDecimal(parts[3]) && Some(r.value.high) == ParseDecimal(parts[4])
      && Some(r.value.low) == ParseDecimal(parts[5]) && Some(r.value.close) == ParseDecimal(parts[6])
      && Some(r.value.volume) == ParseDecimal(parts[7]) && Some(r.value.volumeUsdt) == ParseDecimal(parts[8])
      && Some(r.value.tradeCount) == ParseLong(parts[9])
  {
    var timestamp := ParseLong(parts[0]);
    var open := ParseDecimal(parts[3]);
    var high := ParseDecimal(parts[4]);
    var low := ParseDecimal(parts[5]);
    var close := ParseDecimal(parts[6]);
    var volume := ParseDecimal(parts[7]);
    var volumeUsdt := ParseDecimal(parts[8]);
    var tradeCount := ParseLong(parts[9]);
    if timestamp.None? || open.None? || high.None? || low.None? || close.None?
      || volume.None? || volumeUsdt.None? || tradeCount.None?
    then None
    else Some(Bar(parts[2], timestamp.value, open.value, high.value, low.value, close.value,
      volume.value, volumeUsdt.value, tradeCount.value))
  }

  /** parseLine: null with fewer than ten fields, otherwise the field mapping. */
  function ParseLine(line: string): (r: Option<Bar>)
    ensures |Split(line)| < 10 ==> r == None
  {
    var parts := Split(line);
    if |parts| < 10 then None else ParseFields(parts)
  }

  /** A line written from ten or more comma-free fields, the last not empty, reads back field by field. */
  lemma ParseLineOfJoin(parts: seq<string>)
    requires |parts| >= 10
    requires forall i :: 0 <= i < |parts| ==> ',' !in parts[i]
    requires parts[|parts| - 1] != ""
    ensures ParseLine(Join(parts)) == ParseFields(parts)
  {
    SplitJoin(parts);
  }

  /** Java's split drops empty trailing fields, so a line whose tenth and last field is empty is null. */
  lemma EmptyLastFieldIsNull(parts: seq<string>)
    requires |parts| == 10
    requires forall i :: 0 <= i < |parts| ==> ',' !in parts[i]
    requires parts[9] == ""
    ensures ParseLine(Join(parts)) == None
  {
    FieldsJoin(parts);
    JoinOne(parts[0], parts[1..]);
    assert parts == [parts[0]] + parts[1..];
    assert Join(parts)[|parts[0]|] == ',';
    assert |DropTrailingEmpty(parts)| < 10;
  }

  // ---------------------------------------------------------------- files

  /** The present values, in order. */
  function Somes<T>(xs: seq<Option<T>>): (r: seq<T>)
    ensures |r| <= |xs|
  {
    if |xs| == 0 then []
    else
      var last := xs[|xs| - 1];
      Somes(xs[..|xs| - 1]) + (if last.Some? then [last.value] else [])
  }

  /** Each line parsed. */
  function Parsed(lines: seq<string>): (r: seq<Option<Bar>>)
    ensures |r| == |lines|
    ensures forall i :: 0 <= i < |lines| ==> r[i] == ParseLine(lines[i])
  {
    seq(|lines|, i requires 0 <= i < |lines| => ParseLine(lines[i]))
  }

  /** parseFileData and parseFileFromPath: the first line is a header; the bars of the others that parse follow in order. */
  function ParseFile(lines: seq<string>): (r: seq<Bar>)
    ensures |lines| > 0 ==> |r| <= |lines| - 1
    ensures |lines| <= 1 ==> r == []
  {
    if |lines| == 0 then [] else Somes(Parsed(lines[1..]))
  }

  /** Appending a line appends its bar, if it parses: the order of the file is kept. */
  lemma ParseFileAppend(lines: seq<string>, line: string)
    requires |lines| > 0
    ensures ParseFile(lines + [line]) ==
      ParseFile(lines) + (if ParseLine(line).Some? then [ParseLine(line).value] else [])
  {
    var xs := Parsed((lines + [line])[1..]);
    assert xs[..|xs| - 1] == Parsed(lines[1..]);
    assert xs[|xs| - 1] == ParseLine(line);
  }

  lemma SomesStep<T>(xs: seq<Option<T>>, k: nat)
    requires k < |xs|
    ensures Somes(xs[..k + 1]) == Somes(xs[..k]) + (if xs[k].Some? then [xs[k].value] else [])
  {
    assert xs[..k + 1][..k] == xs[..k];
  }

  /** When every value is present, none is dropped. */
  lemma {:induction false} SomesAll<T>(xs: seq<Option<T>>)
    requires forall i :: 0 <= i < |xs| ==> xs[i].Some?
    ensures |Somes(xs)| == |xs|
    ensures forall i :: 0 <= i < |xs| ==> Somes(xs)[i] == xs[i].value
  {
    if |xs| > 0 {
      SomesAll(xs[..|xs| - 1]);
    }
  }

  /** Each kept value is present in the input. */
  lemma {:induction false} SomesFrom<T>(xs: seq<Option<T>>, k: nat)
    requires k < |Somes(xs)|
    ensures exists i :: 0 <= i < |xs| && xs[i] == Some(Somes(xs)[k])
  {
    var n := |xs|;
    var prefix := xs[..n - 1];
    if k < |Somes(prefix)| {
      SomesFrom(prefix, k);
      var i :| 0 <= i < |prefix| && prefix[i] == Some(Somes(prefix)[k]);
      assert xs[i] == prefix[i];
    }
  }

  /** When every line after the header parses, there is one bar per line, in order. */
  lemma AllLinesParse(lines: seq<string>)
    requires |lines| > 0
    requires forall i :: 1 <= i < |lines| ==> ParseLine(lines[i]).Some?
    ensures |ParseFile(lines)| == |lines| - 1
    ensures forall i :: 1 <= i < |lines| ==> ParseFile(lines)[i - 1] == ParseLine(lines[i]).value
  {
    SomesAll(Parsed(lines[1..]));
  }

  /** Every bar comes from some line after the header. */
  lemma BarsFromLines(lines: seq<string>, k: nat)
    requires k < |ParseFile(lines)|
    ensures exists i :: 1 <= i < |lines| && ParseLine(lines[i]) == Some(ParseFile(lines)[k])
  {
    SomesFrom(Parsed(lines[1..]), k);
    var i :| 0 <= i < |lines| - 1 && Parsed(lines[1..])[i] == Some(ParseFile(lines)[k]);
    assert lines[1..][i] == lines[i + 1];
  }

  /** Reading line i (past the header) extends the bars of the lines before it by its own bar, if any. */
  lemma ReadStep(lines: seq<string>, i: nat)
    requires 1 <= i < |lines|
    ensures var parsed := Parsed(lines[1..]); var bar := ParseLine(lines[i]);
      Somes(parsed[..i]) == Somes(parsed[..i - 1]) + (if bar.Some? then [bar.value] else [])
  {
    var parsed := Parsed(lines[1..]);
    assert parsed[i - 1] == ParseLine(lines[i]);
    SomesStep(parsed, i - 1);
  }

  /** The reading loop: skip the header, keep each line that parses. */
  method ReadBars(lines: seq<string>) returns (data: seq<Bar>)
    ensures data == ParseFile(lines)
  {
    data := [];
    if |lines| == 0 {
      return;
    }
    ghost var parsed := Parsed(lines[1..]);
    var i := 1;
    while i < |lines|
      invariant 1 <= i <= |lines|
      invariant data == Somes(parsed[..i - 1])
    {
      var bar := ParseLine(lines[i]);
      ReadStep(lines, i);
      if bar.Some? {
        data := data + [bar.value];
      }
      i := i + 1;
    }
    assert parsed[..i - 1] == parsed;
  }

  // ---------------------------------------------------------------- requests

  /** A request's config: the risk per trade and the position cap; everything else keeps its default. */
  function RequestConfig(riskPerTrade: real, maxPositions: int): (c: BacktestConfig)
    ensures c.riskPerTrade == riskPerTrade && c.maxPositions == maxPositions
    ensures c.(riskPerTrade := DefaultBacktestConfig.riskPerTrade, maxPositions := DefaultBacktestConfig.maxPositions)
      == DefaultBacktestConfig
  {
    DefaultBacktestConfig.(riskPerTrade := riskPerTrade, maxPositions := maxPositions)
  }

  /**
    runBacktestFromFile and runBacktestFromFilePath: the backtest of the
    file's bars under the request's config. A file without a bar that parses
    fails with the out-of-bounds access on the last bar.
   */
  function RunBacktestFromLines(lines: seq<string>, initialCapital: real, riskPerTrade: real, maxPositions: int,
                                params: SignalSelection.StrategyParams): (r: Result<BacktestResult, Fault>)
    ensures |ParseFile(lines)| == 0 ==> r == Failure(IndexOutOfBounds)
    ensures r.Success? ==> r.value.initialCapital == initialCapital
  {
    Backtesting.Backtest(ParseFile(lines), initialCapital, RequestConfig(riskPerTrade, maxPositions), params)
  }
}

/** `app/util/converters.py`: turning a user's text into a number of coins or items.
    `get_number` reads a number with an optional `k`/`m`/`b` suffix or a short
    scientific form; `get_amount` adds the words `all`/`half`, percentages and fractions
    and then checks the amount against a total and clamps it into `[minimum, maximum]`;
    the converters for bank transfers, drops, bets, investments and item quantities
    instantiate those bounds from the caller's account.  Floats are exact reals and
    Python's `float()` is modelled on its decimal forms (`ParseFloat`). */
module Converters {

  import opened Results
  import opened Numeric
  import opened Text
  import opened Common
  import opened Items

  // ---- float() ----

  /** Python's `float(s)` on the numerals this model reads: surrounding whitespace, an
      optional sign and a run of decimal digits, that is, the integral numerals, whose
      float value is exact.  `None` stands for the ValueError. */
  function ParseFloat(s: string): Option<int>
  {
    ParseInt(Strip(s))
  }

  /** `str(n)` is digits, possibly after a leading minus sign. */
  lemma DecimalStringShape(n: int)
    ensures var d := DecimalString(n);
      IsDigit(d[|d| - 1]) && (IsDigit(d[0]) || d[0] == '-')
      && (forall i :: 0 < i < |d| ==> IsDigit(d[i]))
  {
    var u := NatString(if n < 0 then -n else n);
    assert forall i :: 0 <= i < |u| ==> IsDigit(u[i]);
  }

  /** `float(str(n))` is `n`. */
  lemma ParseFloatInt(n: int)
    ensures ParseFloat(DecimalString(n)) == Some(n)
  {
    DecimalStringShape(n);
    StripUnpadded(DecimalString(n));
    DecimalStringRoundTrip(n);
  }

  /** A run of digits (leading zeros allowed) reads as its value. */
  lemma ParseFloatDigits(u: string)
    requires u != [] && AllDigits(u)
    ensures ParseFloat(u) == Some(DigitsValue(u))
  {
    assert IsDigit(u[0]) && IsDigit(u[|u| - 1]);
    StripUnpadded(u);
  }

  /** No numeral ends in the letter `b` (after whitespace is stripped). */
  lemma ParseFloatNotB(s: string)
    requires s != [] && s[|s| - 1] == 'b'
    ensures ParseFloat(s) == None
  {
    var t := Strip(s);
    assert !IsSpace(s[|s| - 1]);
    StripKeepsLast(s);
    assert !IsDigit(t[|t| - 1]);
    if |t| > 1 {
      assert t[1..][|t| - 2] == t[|t| - 1];
    }
  }

  /** A string ending in a non-space character keeps that character last when stripped. */
  lemma StripKeepsLast(s: string)
    requires s != [] && !IsSpace(s[|s| - 1])
    ensures Strip(s) != [] && Strip(s)[|Strip(s)| - 1] == s[|s| - 1]
  {
    var l := LStrip(s);
    assert l != [] && l[|l| - 1] == s[|s| - 1];
    assert RStrip(l) == l;
  }

  // ---- get_number ----

  datatype NumberError = ValueError

  /** The normalisation at the top of `get_number`: lower case, no `,` or `+`, stripped. */
  function Clean(argument: string): string
  {
    Strip(Replace(Replace(Lower(argument), ",", ""), "+", ""))
  }

  /** `re.match(r"\de\d+", a)`: a digit, an `e` and a digit at the start. */
  predicate ScientificPrefix(a: string)
  {
    |a| >= 3 && IsDigit(a[0]) && a[1] == 'e' && IsDigit(a[2])
  }

  /** `m * 10 ** e`, one decimal place at a time. */
  function Shift(m: int, e: nat): int
  {
    if e == 0 then m else Shift(m, e - 1) * 10
  }

  /** The shift is multiplication by a power of ten. */
  lemma {:induction false} ShiftIsPow(m: int, e: nat)
    ensures Shift(m, e) == m * Pow10(e)
  {
    if e > 0 {
      ShiftIsPow(m, e - 1);
      assert m * Pow10(e) == (m * Pow10(e - 1)) * 10;
    }
  }

  lemma {:induction false} ShiftMonotone(m: int, n: int, d: nat, e: nat)
    requires 0 <= m <= n && d <= e
    ensures 0 <= Shift(m, d) <= Shift(n, e)
  {
    if e > d {
      ShiftMonotone(m, n, d, e - 1);
    } else if e > 0 {
      ShiftMonotone(m, n, d - 1, e - 1);
    }
  }

  lemma {:induction false} ShiftSucc(m: int, e: nat)
    ensures Shift(m, e + 1) == Shift(10 * m, e)
  {
    if e > 0 {
      ShiftSucc(m, e - 1);
    }
  }

  /** `1e24`, the cap of the scientific form. */
  const ScientificCap := Pow10(24)

  /** `float(a.rstrip(c)) * factor`. */
  function Scaled(a: string, c: char, factor: int): Result<int, NumberError>
  {
    var x := ParseFloat(RStripChar(a, c));
    if x.Some? then Ok(x.value * factor) else Err(ValueError)
  }

  /** The `\de\d+` branch: exactly one `e`, the parts read as a float and an int, and
      the result `num * 10 ** exp`, or `1e24` once the exponent reaches 24.  The exponent
      part starts with a digit, so `int()` reads it as an unsigned numeral
      (`ScientificExponentUnsigned`). */
  function Scientific(a: string): Result<int, NumberError>
  {
    var parts := SplitOn(a, 'e');
    if |parts| != 2 then Err(ValueError)
    else
      var num, exp := ParseFloat(parts[0]), ParseNat(Strip(parts[1]));
      if num.None? || exp.None? then Err(ValueError)
      else Ok(if exp.value < 24 then Shift(num.value, exp.value) else ScientificCap)
  }

  /** The final `float(a)`. */
  function Plain(a: string): Result<int, NumberError>
  {
    var x := ParseFloat(a);
    if x.Some? then Ok(x.value) else Err(ValueError)
  }

  /** The value of a cleaned, non-empty argument, chosen by its last character; the
      billions branch strips `billionsStrip`.  The values read are integers, so the
      closing `round` of `get_number` changes nothing. */
  function ReadNumber(a: string, billionsStrip: char): Result<int, NumberError>
    requires a != []
  {
    var last := a[|a| - 1];
    if last == 'k' then Scaled(a, 'k', 1000)
    else if last == 'm' then Scaled(a, 'm', 1000000)
    else if last == 'b' then Scaled(a, billionsStrip, 1000000000)
    else if ScientificPrefix(a) then Scientific(a)
    else Plain(a)
  }

  /** The body of `get_number`, with the character the billions branch strips as a
      parameter: the source strips `k` there (`GetNumberAsWritten`), where `b` is meant
      (`GetNumber`). */
  function GetNumberStripping(argument: string, billionsStrip: char): Result<int, NumberError>
  {
    var a := Clean(argument);
    if a == [] then Err(ValueError) else ReadNumber(a, billionsStrip)
  }

  /** `get_number` exactly as the source has it. */
  function GetNumberAsWritten(argument: string): Result<int, NumberError>
  {
    GetNumberStripping(argument, 'k')
  }

  /** `get_number` with the billions branch stripping its own suffix. */
  function GetNumber(argument: string): Result<int, NumberError>
  {
    GetNumberStripping(argument, 'b')
  }

  /** Nothing but whitespace, commas and plus signs is rejected. */
  lemma GetNumberEmpty(argument: string, c: char)
    requires Clean(argument) == []
    ensures GetNumberStripping(argument, c) == Err(ValueError)
  {
  }

  /** The characters a plain numeral with a suffix is made of. */
  predicate PlainChars(s: string)
  {
    forall i :: 0 <= i < |s| ==> IsDigit(s[i]) || s[i] in "-kmbe."
  }

  lemma CleanPlain(s: string)
    requires PlainChars(s) && (s == [] || (!IsSpace(s[0]) && !IsSpace(s[|s| - 1])))
    ensures Clean(s) == s
  {
    forall i | 0 <= i < |s|
      ensures s[i] != ',' && s[i] != '+' && !('A' <= s[i] <= 'Z')
    {
      assert IsDigit(s[i]) || s[i] in "-kmbe.";
    }
    LowerNoUpper(s);
    assert ',' !in s && '+' !in s;
    ReplaceAbsentChar(s, ',');
    assert Replace(Lower(s), ",", "") == s;
    ReplaceAbsentChar(s, '+');
    assert Replace(s, "+", "") == s;
    StripUnpadded(s);
  }

  lemma {:induction false} GroupedNatChars(n: nat)
    ensures forall i :: 0 <= i < |GroupedNat(n)| ==> IsDigit(GroupedNat(n)[i]) || GroupedNat(n)[i] == ','
  {
    if n >= 1000 {
      GroupedNatChars(n / 1000);
    }
  }

  /** Cleaning a `{:,}`-formatted integer gives its plain numeral. */
  lemma CleanGrouped(n: int)
    ensures Clean(Grouped(n)) == DecimalString(n)
  {
    var g := Grouped(n);
    var d := DecimalString(n);
    GroupedNatChars(if n < 0 then -n else n);
    assert forall i :: 0 <= i < |g| ==> IsDigit(g[i]) || g[i] == ',' || g[i] == '-';
    LowerNoUpper(g);
    RemoveIsReplace(g, ',');
    GroupedUngroupsInt(n);
    assert Replace(Lower(g), ",", "") == d;
    DecimalStringShape(n);
    assert '+' !in d;
    ReplaceAbsentChar(d, '+');
    assert Replace(d, "+", "") == d;
    StripUnpadded(d);
  }

  /** A numeral ends in a digit and has no `e` after its first character, so it is
      read by the final `float(a)`. */
  lemma ReadDecimal(n: int, c: char)
    ensures ReadNumber(DecimalString(n), c) == Ok(n)
  {
    var d := DecimalString(n);
    DecimalStringShape(n);
    assert !ScientificPrefix(d);
    ParseFloatInt(n);
  }

  lemma CleanDecimal(n: int)
    ensures Clean(DecimalString(n)) == DecimalString(n)
  {
    var d := DecimalString(n);
    DecimalStringShape(n);
    assert PlainChars(d);
    CleanPlain(d);
  }

  /** A plain or digit-grouped integer reads back as itself, whichever way the billions
      branch is written (it is never reached). */
  lemma GetNumberGrouped(n: int, c: char)
    ensures GetNumberStripping(Grouped(n), c) == Ok(n)
  {
    CleanGrouped(n);
    ReadDecimal(n, c);
  }

  lemma GetNumberDecimal(n: int, c: char)
    ensures GetNumberStripping(DecimalString(n), c) == Ok(n)
  {
    CleanDecimal(n);
    ReadDecimal(n, c);
  }

  /** Digits followed by a suffix letter read as the digits once the letter is stripped. */
  lemma StripSuffixDigits(u: string, suffix: char)
    requires u != [] && AllDigits(u) && !IsDigit(suffix)
    ensures ParseFloat(RStripChar(u + [suffix], suffix)) == Some(DigitsValue(u))
  {
    var s := u + [suffix];
    assert IsDigit(u[|u| - 1]);
    assert RStripChar(s, suffix) == u by {
      assert s[..|s| - 1] == u;
      assert RStripChar(u, suffix) == u;
    }
    ParseFloatDigits(u);
  }

  /** Digits followed by one of the letters a number may end in are already clean. */
  lemma SuffixedClean(u: string, suffix: char)
    requires AllDigits(u) && suffix in "kmb"
    ensures Clean(u + [suffix]) == u + [suffix]
  {
    var s := u + [suffix];
    assert PlainChars(s) by {
      forall i | 0 <= i < |s|
        ensures IsDigit(s[i]) || s[i] in "-kmbe."
      {
        if i < |u| { assert s[i] == u[i]; }
      }
    }
    CleanPlain(s);
  }

  /** The suffix branches of the reading step on digits followed by a suffix letter. */
  lemma ReadSuffixed(u: string, suffix: char, c: char)
    requires u != [] && AllDigits(u) && suffix in "kmb"
    ensures suffix == 'k' ==> ReadNumber(u + [suffix], c) == Ok(DigitsValue(u) * 1000)
    ensures suffix == 'm' ==> ReadNumber(u + [suffix], c) == Ok(DigitsValue(u) * 1000000)
    ensures suffix == 'b' ==> ReadNumber(u + [suffix], 'b') == Ok(DigitsValue(u) * 1000000000)
  {
    StripSuffixDigits(u, suffix);
  }

  /** Digits followed by `k` are that many thousands, by `m` that many millions. */
  lemma GetNumberSuffix(u: string, suffix: char, c: char)
    requires u != [] && AllDigits(u) && (suffix == 'k' || suffix == 'm')
    ensures suffix == 'k' ==> GetNumberStripping(u + [suffix], c) == Ok(DigitsValue(u) * 1000)
    ensures suffix == 'm' ==> GetNumberStripping(u + [suffix], c) == Ok(DigitsValue(u) * 1000000)
  {
    SuffixedClean(u, suffix);
    ReadSuffixed(u, suffix, c);
  }

  /** The corrected billions branch: digits followed by `b` are that many billions. */
  lemma GetNumberBillions(u: string)
    requires u != [] && AllDigits(u)
    ensures GetNumber(u + "b") == Ok(DigitsValue(u) * 1000000000)
  {
    assert u + ['b'] == u + "b";
    SuffixedClean(u, 'b');
    ReadSuffixed(u, 'b', 'b');
  }

  /** As written, every amount whose cleaned form ends in `b` fails to parse: stripping
      `k` leaves the `b` in place and no numeral ends with one. */
  lemma GetNumberAsWrittenRejectsBillions(argument: string)
    requires Clean(argument) != [] && Clean(argument)[|Clean(argument)| - 1] == 'b'
    ensures GetNumberAsWritten(argument) == Err(ValueError)
  {
    ReadAsWrittenB(Clean(argument));
  }

  lemma ReadAsWrittenB(a: string)
    requires a != [] && a[|a| - 1] == 'b'
    ensures ReadNumber(a, 'k') == Err(ValueError)
  {
    assert RStripChar(a, 'k') == a;
    ParseFloatNotB(a);
  }

  /** The concrete case: `"5b"` is rejected as written and is five billion as intended. */
  lemma FiveBillion()
    ensures GetNumberAsWritten("5b") == Err(ValueError)
    ensures GetNumber("5b") == Ok(5000000000)
  {
    assert "5" + "b" == "5b";
    assert DigitsValue("5") == 5;
    GetNumberBillions("5");
    SuffixedClean("5", 'b');
    assert ['5'] + ['b'] == "5b";
    GetNumberAsWrittenRejectsBillions("5b");
  }

  /** The mantissa of the short scientific form is its first digit. */
  lemma ScientificMantissa(a: string)
    requires ScientificPrefix(a)
    ensures SplitOn(a, 'e')[0] == a[..1]
    ensures ParseFloat(a[..1]) == Some(DigitValue(a[0]))
  {
    SplitOnPrefix(a[..1], a[1..], 'e');
    assert a[..1] + a[1..] == a;
    var d := a[..1];
    assert AllDigits(d);
    ParseFloatDigits(d);
    assert d[..0] == [];
  }

  /** The short scientific form never yields more than `10 ** 24`: its mantissa is a
      single digit, its exponent has no minus sign, and from an exponent of 24 on the
      value is capped. */
  lemma ScientificCapped(a: string)
    requires ScientificPrefix(a) && Scientific(a).Ok?
    ensures 0 <= Scientific(a).value <= ScientificCap
  {
    var parts := SplitOn(a, 'e');
    ScientificMantissa(a);
    var m := DigitValue(a[0]);
    var e := ParseNat(Strip(parts[1])).value;
    if e < 24 {
      assert Scientific(a).value == Shift(m, e);
      ShiftMonotone(m, 10, e, 23);
      ShiftSucc(1, 23);
      ShiftIsPow(1, 24);
    }
  }

  /** The exponent part of a short scientific form starts with a digit, so `int()` reads
      it as an unsigned numeral. */
  lemma ScientificExponentUnsigned(a: string)
    requires ScientificPrefix(a) && |SplitOn(a, 'e')| == 2
    ensures var t := Strip(SplitOn(a, 'e')[1]);
      t != [] && IsDigit(t[0])
      && ParseInt(t) == match ParseNat(t) case Some(v) => Some(v as int) case None => None
  {
    var parts := SplitOn(a, 'e');
    SplitOnPrefix(a[..1], a[1..], 'e');
    assert a[..1] + a[1..] == a;
    var r := a[2..];
    assert a[1..][1..] == r;
    var rp := SplitOn(r, 'e');
    assert parts[1] == rp[0];
    SplitOnHead(r, 'e');
    assert IsDigit(r[0]);
    LStripNoSpaceStart(parts[1]);
  }

  lemma SplitOnHead(s: string, c: char)
    requires s != [] && s[0] != c
    ensures SplitOn(s, c)[0] != [] && SplitOn(s, c)[0][0] == s[0]
  {
  }

  lemma LStripNoSpaceStart(s: string)
    requires s != [] && IsDigit(s[0])
    ensures Strip(s) != [] && Strip(s)[0] == s[0]
  {
  }

  // ---- get_amount ----

  datatype AmountError = NotAnInteger | NotEnough | PastMinimum | ZeroDivision

  predicate IsFractionChar(c: char) { IsDigit(c) || c == '.' }

  function TakeFraction(s: string): (r: string)
    ensures |r| <= |s| && r == s[..|r|]
    ensures forall i :: 0 <= i < |r| ==> IsFractionChar(r[i])
    ensures |r| == |s| || !IsFractionChar(s[|r|])
  {
    if s == [] || !IsFractionChar(s[0]) then [] else [s[0]] + TakeFraction(s[1..])
  }

  /** `re.match(r"[0-9.]+/[0-9.]+", a)`: the leading run of digits and points is
      followed by `/` and one more digit or point (the run cannot contain `/`, so
      backtracking into it cannot help). */
  predicate FractionPrefix(a: string)
  {
    var r := TakeFraction(a);
    |r| >= 1 && |r| + 1 < |a| && a[|r|] == '/' && IsFractionChar(a[|r| + 1])
  }

  predicate IsAllWord(a: string) { a == "all" || a == "max" || a == "a" || a == "m" }
  predicate IsHalfWord(a: string) { a == "half" || a == "h" }

  /** The first half of `get_amount`: from the argument to a raw amount.  The total is
      a whole number of coins, so `round(total)` is the total itself; percentages and
      fractions are rounded from the exact quotient. */
  function ParseAmount(total: int, arg: string): (r: Result<int, AmountError>)
    ensures r.Err? ==> r.error == NotAnInteger || r.error == ZeroDivision
  {
    ReadAmount(total, Strip(Lower(arg)))
  }

  /** The dispatch of `get_amount` on the lower-cased, stripped argument `a`, with the
      character that `get_number`'s billions branch strips as a parameter. */
  function ReadAmountStripping(total: int, a: string, billionsStrip: char): (r: Result<int, AmountError>)
    ensures r.Err? ==> r.error == NotAnInteger || r.error == ZeroDivision
  {
    if IsAllWord(a) then Ok(total)
    else if IsHalfWord(a) then Ok(RoundRatio(total, 2))
    else if EndsWith(a, "%") then ReadPercent(total, a)
    else if FractionPrefix(a) then ReadFraction(total, a)
    else
      var n := GetNumberStripping(a, billionsStrip);
      if n.Ok? then Ok(n.value) else Err(NotAnInteger)
  }

  /** `get_amount`'s dispatch over the corrected `get_number`. */
  function ReadAmount(total: int, a: string): (r: Result<int, AmountError>)
    ensures r.Err? ==> r.error == NotAnInteger || r.error == ZeroDivision
  {
    ReadAmountStripping(total, a, 'b')
  }

  /** `get_amount`'s dispatch exactly as the source has it, over `get_number` as written. */
  function ReadAmountAsWritten(total: int, a: string): (r: Result<int, AmountError>)
    ensures r.Err? ==> r.error == NotAnInteger || r.error == ZeroDivision
  {
    ReadAmountStripping(total, a, 'k')
  }

  /** The two readings differ only on arguments whose cleaned form ends in `b`. */
  lemma AmountAsWrittenAgrees(total: int, a: string)
    requires Clean(a) == [] || Clean(a)[|Clean(a)| - 1] != 'b'
    ensures ReadAmountAsWritten(total, a) == ReadAmount(total, a)
  {
    GetNumberAgrees(a);
    SameNumberSameAmount(total, a, 'k', 'b');
  }

  lemma SameNumberSameAmount(total: int, a: string, c: char, d: char)
    requires GetNumberStripping(a, c) == GetNumberStripping(a, d)
    ensures ReadAmountStripping(total, a, c) == ReadAmountStripping(total, a, d)
  {
    if !IsAllWord(a) && !IsHalfWord(a) && !EndsWith(a, "%") && !FractionPrefix(a) {
      var n := GetNumberStripping(a, c);
      assert ReadAmountStripping(total, a, c) == if n.Ok? then Ok(n.value) else Err(NotAnInteger);
    }
  }

  lemma GetNumberAgrees(argument: string)
    requires Clean(argument) == [] || Clean(argument)[|Clean(argument)| - 1] != 'b'
    ensures GetNumberAsWritten(argument) == GetNumber(argument)
  {
    var a := Clean(argument);
    if a != [] {
      assert ReadNumber(a, 'k') == ReadNumber(a, 'b');
    }
  }

  /** As written, an amount that reaches `get_number` and ends in `b` is `NotAnInteger`. */
  lemma AmountAsWrittenRejectsBillions(total: int, a: string)
    requires !IsAllWord(a) && !IsHalfWord(a) && !EndsWith(a, "%") && !FractionPrefix(a)
    requires Clean(a) != [] && Clean(a)[|Clean(a)| - 1] == 'b'
    ensures ReadAmountAsWritten(total, a) == Err(NotAnInteger)
  {
    GetNumberAsWrittenRejectsBillions(a);
  }

  /** The concrete case: `"5b"` of a large enough balance is rejected as written and is
      five billion as intended. */
  lemma FiveBillionAmount(total: int)
    ensures ReadAmountAsWritten(total, "5b") == Err(NotAnInteger)
    ensures ReadAmount(total, "5b") == Ok(5000000000)
  {
    var a := "5b";
    assert a[1] == 'b' && a[0] == '5';
    assert !IsAllWord(a) && !IsHalfWord(a) by { assert |a| == 2; }
    assert !EndsWith(a, "%");
    assert TakeFraction(a) == "5";
    assert !FractionPrefix(a);
    FiveBillion();
  }

  /** `p%` of the total: `round(total * float(p) / 100)`. */
  function ReadPercent(total: int, a: string): (r: Result<int, AmountError>)
    ensures r.Err? ==> r.error == NotAnInteger
  {
    var p := ParseFloat(RStripChar(a, '%'));
    if p.Some? then Ok(RoundRatio(total * p.value, 100)) else Err(NotAnInteger)
  }

  /** `num/de` of the total: `round(total * float(num) / float(de))`. */
  function ReadFraction(total: int, a: string): (r: Result<int, AmountError>)
    ensures r.Err? ==> r.error == NotAnInteger || r.error == ZeroDivision
  {
    var parts := SplitOn(a, '/');
    if |parts| != 2 then Err(NotAnInteger)
    else
      var num, de := ParseFloat(parts[0]), ParseFloat(parts[1]);
      if num.None? || de.None? then Err(NotAnInteger)
      else if de.value == 0 then Err(ZeroDivision)
      else Ok(RoundRatio(total * num.value, de.value))
  }

  /** The second half of `get_amount`: the ordered checks on the raw amount. */
  function CheckAmount(total: int, minimum: int, maximum: int, amount: int): Result<int, AmountError>
  {
    if amount > total then Err(NotEnough)
    else if amount <= 0 then Err(NotAnInteger)
    else if minimum <= amount <= maximum then Ok(amount)
    else if amount > maximum then Ok(maximum)
    else Err(PastMinimum)
  }

  /** `get_amount(total, minimum, maximum, arg)`. */
  function GetAmount(total: int, minimum: int, maximum: int, arg: string): Result<int, AmountError>
  {
    var p := ParseAmount(total, arg);
    if p.Ok? then CheckAmount(total, minimum, maximum, p.value) else Err(p.error)
  }

  /** What the checks promise, as an independent description: an error exactly when the
      raw amount is over the total, not positive, or under the minimum while within the
      maximum; otherwise the amount capped at the maximum. */
  lemma CheckAmountSpec(total: int, minimum: int, maximum: int, amount: int)
    ensures CheckAmount(total, minimum, maximum, amount) == Err(NotEnough) <==> amount > total
    ensures CheckAmount(total, minimum, maximum, amount) == Err(NotAnInteger) <==> amount <= 0 && amount <= total
    ensures CheckAmount(total, minimum, maximum, amount) == Err(PastMinimum)
      <==> 0 < amount <= total && amount < minimum && amount <= maximum
    ensures CheckAmount(total, minimum, maximum, amount).Ok? ==>
      CheckAmount(total, minimum, maximum, amount).value == if amount > maximum then maximum else amount
  {
  }

  /** Any amount `get_amount` returns is at most the maximum and at most the total, and
      it is either the maximum itself or a positive amount no smaller than the minimum;
      nothing is returned when the total is not positive. */
  lemma GetAmountBounds(total: int, minimum: int, maximum: int, arg: string)
    requires GetAmount(total, minimum, maximum, arg).Ok?
    ensures var v := GetAmount(total, minimum, maximum, arg).value;
      total >= 1 && v <= maximum && v <= total && (v == maximum || (minimum <= v && v > 0))
  {
    var p := ParseAmount(total, arg);
    assert p.Ok?;
    CheckAmountSpec(total, minimum, maximum, p.value);
  }

  /** With a positive maximum no smaller than the minimum, a returned amount lies inside
      `[max(minimum, 1), maximum]`. */
  lemma GetAmountInRange(total: int, minimum: int, maximum: int, arg: string)
    requires 0 < maximum && minimum <= maximum
    requires GetAmount(total, minimum, maximum, arg).Ok?
    ensures var v := GetAmount(total, minimum, maximum, arg).value;
      minimum <= v <= maximum && 1 <= v <= total
  {
    GetAmountBounds(total, minimum, maximum, arg);
  }

  /** `all`, `max`, `a` and `m` (any case, any surrounding whitespace) mean the whole total. */
  lemma ParseAll(total: int, arg: string)
    requires IsAllWord(Strip(Lower(arg)))
    ensures ParseAmount(total, arg) == Ok(total)
  {
  }

  /** `half` and `h` mean half the total, rounded to even: never more than the total when
      there is something to halve, and exactly half of an even total. */
  lemma ParseHalf(total: int, arg: string)
    requires IsHalfWord(Strip(Lower(arg)))
    ensures ParseAmount(total, arg) == Ok(RoundRatio(total, 2))
    ensures total >= 0 ==> 0 <= ParseAmount(total, arg).value <= total
    ensures total % 2 == 0 ==> ParseAmount(total, arg).value == total / 2
  {
    RoundRatioSpec(total, 2);
  }

  lemma SplitOnTwo(u: string, w: string, c: char)
    requires c !in u && c !in w
    ensures SplitOn(u + [c] + w, c) == [u, w]
  {
    SplitOnNone(w, c);
    SplitOnPrefix(u, [c] + w, c);
    assert u + [c] + w == u + ([c] + w);
    assert ([c] + w)[1..] == w;
  }

  lemma {:induction false} SplitOnNone(w: string, c: char)
    requires c !in w
    ensures SplitOn(w, c) == [w]
  {
    if w != [] {
      SplitOnNone(w[1..], c);
      assert [w[0]] + w[1..] == w;
    }
  }

  lemma {:induction false} SplitOnPrefix(u: string, rest: string, c: char)
    requires c !in u && rest != [] && rest[0] == c
    ensures SplitOn(u + rest, c) == [u] + SplitOn(rest[1..], c)
  {
    if u == [] {
      assert u + rest == rest;
    } else {
      assert (u + rest)[1..] == u[1..] + rest;
      SplitOnPrefix(u[1..], rest, c);
      assert [u[0]] + u[1..] == u;
    }
  }

  /** A fraction over zero, such as `3/0`, raises ZeroDivisionError. */
  lemma FractionOverZero(total: int, n: nat)
    ensures ParseAmount(total, NatString(n) + "/0") == Err(ZeroDivision)
  {
    var a := NatString(n) + "/0";
    NumeralClean(NatString(n), "/0");
    ReadFractionOverZero(total, n);
  }

  /** A string of digits, slashes and points is left alone by lower-casing and stripping. */
  lemma NumeralClean(u: string, rest: string)
    requires forall i :: 0 <= i < |u| ==> IsDigit(u[i])
    requires forall i :: 0 <= i < |rest| ==> IsFractionChar(rest[i]) || rest[i] == '/'
    ensures Strip(Lower(u + rest)) == u + rest
  {
    var a := u + rest;
    forall i | 0 <= i < |a|
      ensures IsFractionChar(a[i]) || a[i] == '/'
    {
      if i < |u| {
        assert a[i] == u[i];
      } else {
        assert a[i] == rest[i - |u|];
      }
    }
    NumeralCharsClean(a);
  }

  lemma NumeralCharsClean(a: string)
    requires forall i :: 0 <= i < |a| ==> IsFractionChar(a[i]) || a[i] == '/'
    ensures Strip(Lower(a)) == a
  {
    calc {
      Strip(Lower(a));
      { NoUpper(a); LowerNoUpper(a); }
      Strip(a);
      { NoSpaceEnds(a); StripUnpadded(a); }
      a;
    }
  }

  lemma NoUpper(a: string)
    requires forall i :: 0 <= i < |a| ==> IsFractionChar(a[i]) || a[i] == '/'
    ensures forall i :: 0 <= i < |a| ==> !('A' <= a[i] <= 'Z')
  {
  }

  lemma NoSpaceEnds(a: string)
    requires forall i :: 0 <= i < |a| ==> IsFractionChar(a[i]) || a[i] == '/'
    ensures a == [] || (!IsSpace(a[0]) && !IsSpace(a[|a| - 1]))
  {
  }

  lemma ReadFractionOverZero(total: int, n: nat)
    ensures ReadAmount(total, NatString(n) + "/0") == Err(ZeroDivision)
  {
    var a := NatString(n) + "/0";
    DigitsOverZeroPrefix(NatString(n));
    FractionDispatch(total, a);
    ReadFractionZero(total, n);
  }

  /** Digits followed by `/0` start with a fraction. */
  lemma DigitsOverZeroPrefix(u: string)
    requires |u| >= 1 && forall i :: 0 <= i < |u| ==> IsDigit(u[i])
    ensures var a := u + "/0"; |a| >= 3 && a[|a| - 2] == '/' && IsDigit(a[|a| - 1]) && FractionPrefix(a)
  {
    var a := u + "/0";
    assert TakeFraction(a) == u by {
      assert a == u + ("/" + "0");
      TakeFractionExact(u, "/" + "0");
    }
  }

  /** Splitting a numeral over zero finds the zero denominator. */
  lemma ReadFractionZero(total: int, n: nat)
    ensures ReadFraction(total, NatString(n) + "/0") == Err(ZeroDivision)
  {
    var u := NatString(n);
    var a := u + "/0";
    assert a == u + ['/'] + "0";
    SplitOnTwo(u, "0", '/');
    ParseFloatInt(n);
    ParseFloatInt(0);
  }

  /** An argument ending in a slash and a digit is neither a word nor a percentage, so a
      fraction prefix sends it to the fraction reading. */
  lemma FractionDispatch(total: int, a: string)
    requires |a| >= 3 && a[|a| - 2] == '/' && IsDigit(a[|a| - 1]) && FractionPrefix(a)
    ensures ReadAmount(total, a) == ReadFraction(total, a)
  {
    assert !IsAllWord(a) by {
      if |a| == 3 { assert a[1] == '/'; }
    }
    assert !IsHalfWord(a) by {
      if |a| == 4 { assert a[2] == '/'; }
    }
    assert !EndsWith(a, "%") by {
      assert a[|a| - 1..][0] == a[|a| - 1];
    }
  }

  lemma {:induction false} TakeFractionExact(w: string, rest: string)
    requires forall i :: 0 <= i < |w| ==> IsFractionChar(w[i])
    requires rest == [] || !IsFractionChar(rest[0])
    ensures TakeFraction(w + rest) == w
  {
    if w != [] {
      assert (w + rest)[1..] == w[1..] + rest;
      TakeFractionExact(w[1..], rest);
    } else {
      assert w + rest == rest;
    }
  }

  /** Typing a number within the bounds gives exactly that number. */
  lemma GetAmountOfNumeral(total: int, minimum: int, maximum: int, v: nat)
    requires 1 <= v <= total && minimum <= v <= maximum
    ensures GetAmount(total, minimum, maximum, NatString(v)) == Ok(v)
  {
    ParseNumeral(total, v);
  }

  lemma ParseNumeral(total: int, v: nat)
    ensures ParseAmount(total, NatString(v)) == Ok(v)
  {
    var a := NatString(v);
    assert Strip(Lower(a)) == a by {
      assert a + "" == a;
      NumeralClean(a, "");
    }
    ReadNumeral(total, v);
  }

  lemma ReadNumeral(total: int, v: nat)
    ensures ReadAmount(total, NatString(v)) == Ok(v)
  {
    var a := NatString(v);
    assert forall i :: 0 <= i < |a| ==> IsDigit(a[i]);
    assert !IsAllWord(a) && !IsHalfWord(a);
    assert !EndsWith(a, "%");
    TakeFractionExact(a, "");
    assert a + "" == a;
    assert !FractionPrefix(a);
    assert DecimalString(v) == a;
    GetNumberDecimal(v, 'b');
  }

  // ---- the converters ----

  /** A `BadArgument` carries the message shown to the user; an exception the converter
      does not catch is named by `Unhandled`. */
  datatype ConversionError = BadArgument(message: string) | Unhandled(exception: string)

  datatype BankMethod = Withdraw | Deposit

  /** `BankTransaction(kind)`: deposit from the wallet into the bank's free space,
      withdraw from the bank.  With a minimum of zero, the PastMinimum the converter
      does not catch can never escape it; a deposit is positive, never takes more than
      the wallet holds and never overfills the bank; a withdrawal is positive and never
      takes more than the bank holds. */
  function BankTransaction(kind: BankMethod, wallet: int, bank: int, maxBank: int, arg: string): (r: Result<int, ConversionError>)
    ensures r != Err(Unhandled("PastMinimum"))
    ensures kind == Deposit && r.Ok? ==> 0 < r.value <= wallet && bank + r.value <= maxBank
    ensures kind == Withdraw && r.Ok? ==> 0 < r.value <= bank
    ensures kind == Deposit && maxBank - bank <= 0 ==> r.Err?
  {
    var all := if kind == Deposit then wallet else bank;
    var maximum := if kind == Deposit then maxBank - bank else bank;
    if maximum <= 0 then
      Err(BadArgument(if kind == Deposit then "You have no more space in your bank. Consider expanding it."
                      else "You don't have any coins to withdraw."))
    else
      BankResult(kind, all, maximum, arg)
  }

  function BankResult(kind: BankMethod, all: int, maximum: int, arg: string): (r: Result<int, ConversionError>)
    requires maximum > 0
    ensures r != Err(Unhandled("PastMinimum"))
    ensures r.Ok? ==> 0 < r.value <= all && r.value <= maximum
  {
    var g := GetAmount(all, 0, maximum, arg);
    GetAmountNoMinimum(all, maximum, arg);
    if g.Ok? then
      GetAmountInRange(all, 0, maximum, arg);
      Ok(g.value)
    else if g.error == PastMinimum then Err(Unhandled("PastMinimum"))
    else Err(BadArgument(BankMessage(kind, g.error)))
  }

  /** The messages `BankTransaction` turns the caught errors into. */
  function BankMessage(kind: BankMethod, e: AmountError): string
  {
    match e
    case NotAnInteger => (if kind == Withdraw then "Withdraw" else "Deposit") + " amount must be a positive integer."
    case NotEnough =>
      if kind == Deposit then "You don't have that many coins in your wallet, get better."
      else "You can't withdraw more than what you actually have."
    case ZeroDivision => "Very funny. Division by 0."
    case PastMinimum => ""  // not caught: `BankTransaction` lets it propagate
  }

  /** With a minimum of zero, PastMinimum cannot be raised. */
  lemma GetAmountNoMinimum(total: int, maximum: int, arg: string)
    ensures GetAmount(total, 0, maximum, arg) != Err(PastMinimum)
  {
    var p := ParseAmount(total, arg);
    if p.Ok? {
      CheckAmountSpec(total, 0, maximum, p.value);
    }
  }

  /** `Investment(minimum, maximum)` against the wallet. */
  function Investment(wallet: int, arg: string, minimum: int, maximum: int, coin: string): Result<int, ConversionError>
  {
    var g := GetAmount(wallet, minimum, maximum, arg);
    if g.Ok? then Ok(g.value) else Err(BadArgument(InvestmentMessage(g.error, minimum, coin)))
  }

  function InvestmentMessage(e: AmountError, minimum: int, coin: string): string
  {
    match e
    case NotAnInteger => "Investment amount must be a positive integer."
    case NotEnough => "You don't have that many coins."
    case PastMinimum => "The minimum investment is " + coin + " **" + Grouped(minimum) + "**."
    case ZeroDivision => "very funny, division by zero."
  }

  const InvestmentMinimum := 500
  const InvestmentMaximum := 50000000

  /** With the default bounds an investment is between 500 and 50,000,000 coins and never
      more than the wallet. */
  lemma InvestmentBounds(wallet: int, arg: string, coin: string)
    ensures Investment(wallet, arg, InvestmentMinimum, InvestmentMaximum, coin).Ok? ==>
      var v := Investment(wallet, arg, InvestmentMinimum, InvestmentMaximum, coin).value;
      InvestmentMinimum <= v <= InvestmentMaximum && v <= wallet
  {
    var g := GetAmount(wallet, InvestmentMinimum, InvestmentMaximum, arg);
    if g.Ok? {
      GetAmountInRange(wallet, InvestmentMinimum, InvestmentMaximum, arg);
    }
  }

  /** `DropAmount`: between one coin and the whole wallet. */
  function DropAmount(wallet: int, arg: string): Result<int, ConversionError>
  {
    var g := GetAmount(wallet, 1, wallet, arg);
    if g.Ok? then Ok(g.value) else Err(BadArgument(DropMessage(g.error)))
  }

  function DropMessage(e: AmountError): string
  {
    match e
    case NotAnInteger => "Drop amount must be a positive integer."
    case NotEnough => "You don't have that many coins."
    case PastMinimum => "Drop amount must be positive."
    case ZeroDivision => "very funny, division by zero."
  }

  lemma DropAmountBounds(wallet: int, arg: string)
    ensures DropAmount(wallet, arg).Ok? ==> 1 <= DropAmount(wallet, arg).value <= wallet
  {
    var g := GetAmount(wallet, 1, wallet, arg);
    if g.Ok? {
      GetAmountBounds(wallet, 1, wallet, arg);
    }
  }

  const BetMinimum := 200
  const BetMaximum := 500000

  /** `CasinoBet(minimum, maximum)` against the wallet; `command` is the command's
      qualified name, used in the minimum-bet message. */
  function CasinoBet(wallet: int, arg: string, minimum: int, maximum: int, coin: string, command: string): Result<int, ConversionError>
  {
    var g := GetAmount(wallet, minimum, maximum, arg);
    if g.Ok? then Ok(g.value) else Err(BadArgument(BetMessage(g.error, minimum, coin, command)))
  }

  function BetMessage(e: AmountError, minimum: int, coin: string, command: string): string
  {
    match e
    case NotAnInteger => "Bet amount must be a positive integer."
    case NotEnough => "You don't have that many coins."
    case PastMinimum => "The minimum bet for `" + command + "` is " + coin + " **" + Grouped(minimum) + "**."
    case ZeroDivision => "very funny, division by zero."
  }

  /** With the default bounds a bet is between 200 and 500,000 coins and never more than
      the wallet. */
  lemma CasinoBetBounds(wallet: int, arg: string, coin: string, command: string)
    ensures CasinoBet(wallet, arg, BetMinimum, BetMaximum, coin, command).Ok? ==>
      var v := CasinoBet(wallet, arg, BetMinimum, BetMaximum, coin, command).value;
      BetMinimum <= v <= BetMaximum && v <= wallet
  {
    var g := GetAmount(wallet, BetMinimum, BetMaximum, arg);
    if g.Ok? {
      GetAmountInRange(wallet, BetMinimum, BetMaximum, arg);
    }
  }

  // ---- item and quantity ----

  datatype ItemMethod = Buy | Sell | Use | Drop

  function MethodName(m: ItemMethod): string
  {
    match m
    case Buy => "buy"
    case Sell => "sell"
    case Use => "use"
    case Drop => "drop"
  }

  datatype ItemAndQuantity = ItemAndQuantity(item: Item, quantity: int)

  function ItemName(item: Item): string { item.name }
  function AnyItem(item: Item): bool { true }

  /** `try_query_item`: `query_collection(Items, Item, query)`; `similar` stands for the
      similarity-ratio test. */
  function TryQueryItem(catalog: Collection<Item>, similar: (string, string) -> bool, query: string): Option<Item>
  {
    QueryResult(WalkCollection(catalog, AnyItem), ItemName, query, similar)
  }

  /** The resolution step of the item converter: the whole argument names the item (the
      quantity defaulting to `1`); else, with two or more words, all but the last word
      with the last as the quantity; else all but the first with the first as the quantity. */
  function ResolveItem(catalog: Collection<Item>, similar: (string, string) -> bool, argument: string): (Option<Item>, string)
  {
    match TryQueryItem(catalog, similar, argument)
    case Some(item) => (Some(item), "1")
    case None =>
      var words := Split(argument);
      if |words| > 1 then
        match TryQueryItem(catalog, similar, Join(words[..|words| - 1], " "))
        case Some(item) => (Some(item), words[|words| - 1])
        case None => (TryQueryItem(catalog, similar, Join(words[1..], " ")), words[0])
      else (None, "1")
  }

  /** The permission flag each kind needs, and the refusal when it is missing. */
  predicate Allowed(kind: ItemMethod, item: Item)
  {
    match kind
    case Buy => item.buyable
    case Sell => item.sellable
    case Use => Usable(item)
    case Drop => item.giftable
  }

  function RefusedMessage(kind: ItemMethod): string
  {
    match kind
    case Buy => "This item is currently not buyable."
    case Sell => "This item is not sellable."
    case Use => "This item is not usable."
    case Drop => "This item is not giftable."
  }

  /** How many are quantity_of'd from the cached inventory (by item key), 0 when absent. */
  function Held(cached: map<string, int>, item: Item): int
  {
    if item.key in cached then cached[item.key] else 0
  }

  /** `ItemAndQuantityConverter(kind)` for the author whose wallet and cached
      inventory are given. */
  function ItemAndQuantityConvert(kind: ItemMethod, catalog: Collection<Item>, similar: (string, string) -> bool,
                                  wallet: int, cached: map<string, int>, argument: string): Result<ItemAndQuantity, ConversionError>
  {
    var (found, quantity) := ResolveItem(catalog, similar, argument);
    match found
    case None => Err(BadArgument("Item \"" + argument + "\" not found."))
    case Some(item) =>
      if !Allowed(kind, item) then Err(BadArgument(RefusedMessage(kind)))
      else if kind == Buy && item.price == 0 then Err(Unhandled("ZeroDivisionError"))
      else
        var maximum := if kind == Buy then FloorDiv(wallet, item.price) else Held(cached, item);
        var g := GetAmount(maximum, 1, maximum, quantity);
        if g.Ok? then Ok(ItemAndQuantity(item, g.value))
        else Err(BadArgument(QuantityMessage(kind, quantity, g.error)))
  }

  function QuantityMessage(kind: ItemMethod, quantity: string, e: AmountError): string
  {
    match e
    case PastMinimum => "You must " + MethodName(kind) + " at least one of that item."
    case NotAnInteger => "Invalid quantity " + quantity + " - either what you specified yields 0, or it is not an integer."
    case NotEnough =>
      if kind == Buy then "Insufficient funds - you do not have enough coins to make this purchase."
      else "You do not have that many of that item."
    case ZeroDivision => "Very funny, division by 0."
  }

  /** A converted item carries the flag its kind needs and a quantity of at least one:
      for a purchase at a positive price the quantity is affordable, otherwise it is no
      more than the author holds. */
  lemma ItemAndQuantityBounds(kind: ItemMethod, catalog: Collection<Item>, similar: (string, string) -> bool,
                              wallet: int, cached: map<string, int>, argument: string)
    requires ItemAndQuantityConvert(kind, catalog, similar, wallet, cached, argument).Ok?
    ensures var r := ItemAndQuantityConvert(kind, catalog, similar, wallet, cached, argument).value;
      Allowed(kind, r.item) && r.quantity >= 1
      && (kind == Buy && r.item.price > 0 ==> r.item.price * r.quantity <= wallet)
      && (kind != Buy ==> r.quantity <= Held(cached, r.item))
  {
    var (found, quantity) := ResolveItem(catalog, similar, argument);
    var item := found.value;
    var maximum := if kind == Buy then FloorDiv(wallet, item.price) else Held(cached, item);
    var g := GetAmount(maximum, 1, maximum, quantity);
    assert ItemAndQuantityConvert(kind, catalog, similar, wallet, cached, argument) == Ok(ItemAndQuantity(item, g.value));
    GetAmountBounds(maximum, 1, maximum, quantity);
    if kind == Buy && item.price > 0 {
      FloorDivBound(wallet, item.price, g.value);
    }
  }

  /** The flag is checked before the quantity is even read: a resolved item without the
      kind's flag is refused whatever quantity was typed. */
  lemma ItemFlagCheckedFirst(kind: ItemMethod, catalog: Collection<Item>, similar: (string, string) -> bool,
                             wallet: int, cached: map<string, int>, argument: string)
    requires ResolveItem(catalog, similar, argument).0.Some?
    requires !Allowed(kind, ResolveItem(catalog, similar, argument).0.value)
    ensures ItemAndQuantityConvert(kind, catalog, similar, wallet, cached, argument)
      == Err(BadArgument(RefusedMessage(kind)))
  {
  }

  /** The minimum of one is never the reason for a refusal, because the total and the
      maximum coincide. */
  lemma ItemNeverPastMinimum(total: int, arg: string)
    ensures GetAmount(total, 1, total, arg) != Err(PastMinimum)
  {
    var p := ParseAmount(total, arg);
    if p.Ok? {
      CheckAmountSpec(total, 1, total, p.value);
    }
  }

  /** When the whole argument names an item, that item is used and one is the quantity. */
  lemma ResolveWholeArgument(catalog: Collection<Item>, similar: (string, string) -> bool, argument: string)
    requires TryQueryItem(catalog, similar, argument).Some?
    ensures ResolveItem(catalog, similar, argument) == (TryQueryItem(catalog, similar, argument), "1")
  {
  }

  /** Otherwise the last word is tried as the quantity before the first word. */
  lemma ResolveLastThenFirst(catalog: Collection<Item>, similar: (string, string) -> bool, argument: string)
    requires TryQueryItem(catalog, similar, argument).None? && |Split(argument)| > 1
    ensures var words := Split(argument);
      var last := TryQueryItem(catalog, similar, Join(words[..|words| - 1], " "));
      ResolveItem(catalog, similar, argument)
      == if last.Some? then (last, words[|words| - 1])
         else (TryQueryItem(catalog, similar, Join(words[1..], " ")), words[0])
  {
    var words := Split(argument);
    var last := TryQueryItem(catalog, similar, Join(words[..|words| - 1], " "));
    if last.Some? {
      assert ResolveItem(catalog, similar, argument) == (last, words[|words| - 1]);
    } else {
      assert ResolveItem(catalog, similar, argument)
        == (TryQueryItem(catalog, similar, Join(words[1..], " ")), words[0]);
    }
  }
}

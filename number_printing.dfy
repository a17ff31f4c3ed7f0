/** `latex_float` (jpm_number_printing.py): turns the `.2g` text of a float
    into LaTeX scientific notation. The `.2g` formatting itself is a library
    call, so the model starts from the formatted text. */
module NumberPrinting {
  import opened Common

  /** Python raises ValueError in both cases: unpacking a split with more
      than two parts, and `int()` of a text that is not an integer. */
  datatype PrintError = TooManyParts | NotAnInteger

  function CountChar(s: string, c: char): nat
  {
    if |s| == 0 then 0 else (if s[0] == c then 1 else 0) + CountChar(s[1..], c)
  }

  lemma {:induction false} CountCharConcat(a: string, b: string, c: char)
    ensures CountChar(a + b, c) == CountChar(a, c) + CountChar(b, c)
  {
    if |a| > 0 {
      assert (a + b)[1..] == a[1..] + b;
      CountCharConcat(a[1..], b, c);
    } else {
      assert a + b == b;
    }
  }

  lemma {:induction false} CountCharZero(s: string, c: char)
    ensures CountChar(s, c) == 0 <==> c !in s
  {
    if |s| > 0 {
      CountCharZero(s[1..], c);
      assert s == [s[0]] + s[1..];
    }
  }

  /** Joins parts back together with the separator between them. */
  function Join(parts: seq<string>, sep: char): string
    requires |parts| >= 1
  {
    if |parts| == 1 then parts[0] else parts[0] + [sep] + Join(parts[1..], sep)
  }

  /** Python's `str.split(sep)` for a one-character separator. */
  function Split(s: string, sep: char): (parts: seq<string>)
    ensures |parts| == CountChar(s, sep) + 1
    ensures forall i :: 0 <= i < |parts| ==> sep !in parts[i]
    ensures Join(parts, sep) == s
  {
    if |s| == 0 then [""]
    else
      var rest := Split(s[1..], sep);
      if s[0] == sep then
        assert ([""] + rest)[1..] == rest;
        [""] + rest
      else
        var parts := [[s[0]] + rest[0]] + rest[1..];
        assert parts[1..] == rest[1..];
        assert s == [s[0]] + s[1..];
        parts
  }

  /** Splitting text with exactly one separator gives the text before and after it. */
  lemma {:induction false} SplitAtSingle(a: string, b: string, sep: char)
    requires sep !in a && sep !in b
    ensures Split(a + [sep] + b, sep) == [a, b]
  {
    var s := a + [sep] + b;
    if |a| == 0 {
      assert s == [sep] + b;
      assert s[1..] == b;
      SplitNoSep(b, sep);
    } else {
      assert s[1..] == a[1..] + [sep] + b;
      SplitAtSingle(a[1..], b, sep);
      assert [a[0]] + a[1..] == a;
    }
  }

  lemma SplitNoSep(s: string, sep: char)
    requires sep !in s
    ensures Split(s, sep) == [s]
  {
    CountCharZero(s, sep);
  }

  predicate IsDigit(c: char) { '0' <= c <= '9' }

  predicate AllDigits(s: string) { forall i :: 0 <= i < |s| ==> IsDigit(s[i]) }

  function DigitValue(c: char): (d: nat)
    requires IsDigit(c)
    ensures d < 10
  {
    (c as int - '0' as int) as nat
  }

  function DigitChar(d: nat): (c: char)
    requires d < 10
    ensures IsDigit(c) && DigitValue(c) == d
  {
    ('0' as int + d) as char
  }

  /** The value of a run of decimal digits, leading zeros allowed. */
  function DigitsValue(s: string): nat
    requires AllDigits(s)
  {
    if |s| == 0 then 0 else DigitsValue(s[..|s| - 1]) * 10 + DigitValue(s[|s| - 1])
  }

  /** Decimal digits with no leading zero, except "0" itself. */
  predicate CanonicalNat(s: string)
  {
    |s| >= 1 && AllDigits(s) && (s[0] == '0' ==> |s| == 1)
  }

  /** What Python's `str()` prints for an int: no '+', no leading zero, no "-0". */
  predicate CanonicalInt(s: string)
  {
    CanonicalNat(s) || (|s| >= 2 && s[0] == '-' && CanonicalNat(s[1..]) && s[1..] != "0")
  }

  /** Decimal text of a natural number. */
  function NatToString(n: nat): (s: string)
    ensures CanonicalNat(s)
    ensures s == "0" <==> n == 0
  {
    if n < 10 then [DigitChar(n)] else NatToString(n / 10) + [DigitChar(n % 10)]
  }

  lemma {:induction false} NatToStringValue(n: nat)
    ensures DigitsValue(NatToString(n)) == n
  {
    if n >= 10 {
      var s := NatToString(n);
      assert s[..|s| - 1] == NatToString(n / 10);
      NatToStringValue(n / 10);
    }
  }

  /** Python's `str(i)` for an int. */
  function IntToString(i: int): (s: string)
    ensures CanonicalInt(s)
  {
    if i < 0 then "-" + NatToString(-i) else NatToString(i)
  }

  /** Python's `int(text)` for a sign and a run of digits; anything else is
      a ValueError. */
  function ParseInt(s: string): (r: Result<int, PrintError>)
    ensures r.Ok? <==> (|s| >= 1 && AllDigits(s)) ||
                       (|s| >= 2 && (s[0] == '+' || s[0] == '-') && AllDigits(s[1..]))
  {
    var signed := |s| >= 1 && (s[0] == '+' || s[0] == '-');
    var digits := if signed then s[1..] else s;
    if |digits| == 0 || !AllDigits(digits) then Err(NotAnInteger)
    else if signed && s[0] == '-' then Ok(-(DigitsValue(digits) as int))
    else Ok(DigitsValue(digits))
  }

  /** Printing an int and reading it back gives the same int. */
  lemma IntToStringRoundTrip(i: int)
    ensures ParseInt(IntToString(i)) == Ok(i)
  {
    if i < 0 {
      var d := NatToString(-i);
      var s := "-" + d;
      assert s == IntToString(i) && s[0] == '-' && s[1..] == d;
      NatToStringValue(-i);
      assert ParseInt(s) == Ok(-(DigitsValue(d) as int));
    } else {
      var s := NatToString(i);
      assert IsDigit(s[0]);
      NatToStringValue(i);
      assert ParseInt(s) == Ok(DigitsValue(s));
    }
  }

  /** The exponent is canonicalised: a sign and digits read by `int()` and
      printed by `str()` lose a '+' and any leading zeros, keep a '-' for a
      non-zero value, and keep the value. */
  lemma CanonicalExponent(sign: string, digits: string)
    requires sign == "" || sign == "+" || sign == "-"
    requires |digits| >= 1 && AllDigits(digits)
    ensures ParseInt(sign + digits).Ok?
    ensures var n := ParseInt(sign + digits).value;
            && CanonicalInt(IntToString(n))
            && (if sign == "-" then n == -(DigitsValue(digits) as int) else n == DigitsValue(digits))
  {
    var s := sign + digits;
    if sign != "" {
      assert s[1..] == digits;
    } else {
      assert s == digits;
    }
  }

  /** The LaTeX text for a mantissa and an exponent value. */
  function Render(base: string, exponent: int): string
  {
    "$" + base + " \\times 10^{" + IntToString(exponent) + "}$"
  }

  /** `latex_float` applied to the `.2g` text `s` of a float. */
  function LatexFloat(s: string): (r: Result<string, PrintError>)
    ensures 'e' !in s ==> r == Ok(s)
    ensures r.Ok? && 'e' in s ==> |r.value| >= 3 && r.value[0] == '$' && r.value[|r.value| - 2..] == "}$"
  {
    if 'e' in s then
      var parts := Split(s, 'e');
      if |parts| != 2 then Err(TooManyParts)
      else
        match ParseInt(parts[1])
        case Err(e) => Err(e)
        case Ok(n) => Ok(Render(parts[0], n))
    else Ok(s)
  }

  /** With exactly one 'e', the text before it is kept verbatim as the base
      and the text after it is read as the exponent. */
  lemma LatexFloatScientific(s: string, k: nat)
    requires k < |s| && s[k] == 'e' && 'e' !in s[..k] && 'e' !in s[k + 1..]
    ensures LatexFloat(s) == match ParseInt(s[k + 1..])
                             case Err(e) => Err(e)
                             case Ok(n) => Ok(Render(s[..k], n))
  {
    assert s == s[..k] + ['e'] + s[k + 1..];
    SplitAtSingle(s[..k], s[k + 1..], 'e');
  }

  /** Two or more 'e's make the two-name unpacking fail. */
  lemma LatexFloatTooManyParts(s: string)
    requires CountChar(s, 'e') >= 2
    ensures LatexFloat(s) == Err(TooManyParts)
  {
    CountCharZero(s, 'e');
  }

  /** "+09" reads as 9: the '+' and the leading zero are dropped. */
  lemma PositiveExponentExample()
    ensures ParseInt("+09") == Ok(9) && IntToString(9) == "9"
  {
    var t := "+09";
    assert t[1..] == "09";
    assert "09"[..1] == "0" && "0"[..0] == "";
    assert DigitsValue("0") == 0;
    assert DigitsValue("09") == 9;
    assert DigitChar(9) == '9';
  }

  /** "-05" reads as -5: the sign is kept and the leading zero dropped. */
  lemma NegativeExponentExample()
    ensures ParseInt("-05") == Ok(-5) && IntToString(-5) == "-5"
  {
    var t := "-05";
    assert t[1..] == "05";
    assert "05"[..1] == "0" && "0"[..0] == "";
    assert DigitsValue("0") == 0;
    assert DigitsValue("05") == 5;
    assert DigitChar(5) == '5';
    assert NatToString(5) == "5";
  }

  lemma RenderExample()
    ensures Render("1.4", 9) == "$1.4 \\times 10^{9}$"
  {
    PositiveExponentExample();
  }

  /** The example of the source's docstring: 1.39873934e9 formats to "1.4e+09". */
  lemma LatexFloatExample(s: string)
    requires s == "1.4e+09"
    ensures LatexFloat(s) == Ok("$1.4 \\times 10^{9}$")
  {
    assert s == s[..3] + ['e'] + s[4..];
    assert s[..3] == "1.4" && s[4..] == "+09";
    LatexFloatScientific(s, 3);
    PositiveExponentExample();
    RenderExample();
  }
}

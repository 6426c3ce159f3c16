/**
 * Decimal text for integers and reals: the `"{}".format(i)` rendering of an
 * integer id, Python's `int(s)` on such a rendering, and `float(s)` on the
 * plain decimal forms a position string is made of.
 */
module Text {
  import opened Wrappers

  predicate IsDigit(c: char) { '0' <= c <= '9' }

  function DigitValue(c: char): (d: nat)
    requires IsDigit(c)
    ensures d < 10
  {
    c as int - '0' as int
  }

  function DigitChar(d: nat): (c: char)
    requires d < 10
    ensures IsDigit(c) && DigitValue(c) == d
  {
    ('0' as int + d) as char
  }

  predicate AllDigits(s: string) { forall i :: 0 <= i < |s| ==> IsDigit(s[i]) }

  /** The decimal digits of `n`, most significant first, without leading zeros. */
  function Digits(n: nat): (s: string)
    ensures |s| > 0 && AllDigits(s)
  {
    if n < 10 then [DigitChar(n)] else Digits(n / 10) + [DigitChar(n % 10)]
  }

  /** The value of a string of decimal digits. */
  function DigitsValue(s: string): nat
    requires AllDigits(s)
  {
    if s == [] then 0 else 10 * DigitsValue(s[..|s| - 1]) + DigitValue(s[|s| - 1])
  }

  /** `"{}".format(i)` for an integer. */
  function Decimal(i: int): (s: string)
    ensures |s| > 0
  {
    if i < 0 then "-" + Digits(-i) else Digits(i)
  }

  /**
   * The ASCII whitespace `str.strip()` removes: space, tab, line feed,
   * vertical tab, form feed, carriage return, and the file, group, record
   * and unit separators 28 to 31.
   */
  predicate IsSpace(c: char) { c == ' ' || 9 <= c as int <= 13 || 28 <= c as int <= 31 }

  /** `s.strip()`: `s` without its leading and trailing whitespace. */
  function Strip(s: string): (t: string)
    ensures |t| <= |s|
    ensures t != [] ==> !IsSpace(t[0]) && !IsSpace(t[|t| - 1])
    decreases |s|
  {
    if s == [] then []
    else if IsSpace(s[0]) then Strip(s[1..])
    else if IsSpace(s[|s| - 1]) then Strip(s[..|s| - 1])
    else s
  }

  /** `t` is the slice of `s` at `i`, with only whitespace before and after it. */
  ghost predicate Trimmed(s: string, t: string, i: nat)
  {
    i + |t| <= |s| && t == s[i..i + |t|] &&
    (forall k :: 0 <= k < i ==> IsSpace(s[k])) &&
    (forall k :: i + |t| <= k < |s| ==> IsSpace(s[k]))
  }

  /**
   * `Strip` removes leading and trailing whitespace and nothing else: the
   * result is a slice of `s` with only whitespace around it, and all of `s`
   * when `s` has no whitespace at either end.
   */
  lemma {:induction false} StripTrims(s: string) returns (i: nat)
    ensures Trimmed(s, Strip(s), i)
    ensures s != [] && !IsSpace(s[0]) && !IsSpace(s[|s| - 1]) ==> Strip(s) == s
    decreases |s|
  {
    var t := Strip(s);
    if s == [] {
      i := 0;
    } else if IsSpace(s[0]) {
      var j := StripTrims(s[1..]);
      i := j + 1;
      assert s[1..][j..j + |t|] == s[i..i + |t|];
      forall k | 0 <= k < i
        ensures IsSpace(s[k])
      {
        if k > 0 {
          assert s[k] == s[1..][k - 1];
        }
      }
      forall k | i + |t| <= k < |s|
        ensures IsSpace(s[k])
      {
        assert s[k] == s[1..][k - 1];
      }
    } else if IsSpace(s[|s| - 1]) {
      var u := s[..|s| - 1];
      i := StripTrims(u);
      assert u[i..i + |t|] == s[i..i + |t|];
      forall k | i + |t| <= k < |s|
        ensures IsSpace(s[k])
      {
        if k < |s| - 1 {
          assert s[k] == u[k];
        }
      }
    } else {
      i := 0;
      assert s[0..|s|] == s;
    }
  }

  /** Digits in groups joined by single underscores, as `int()` accepts them: `1_000`, not `_1`, `1_` or `1__0`. */
  predicate DigitGroups(s: string)
  {
    |s| > 0 && IsDigit(s[0]) && IsDigit(s[|s| - 1]) &&
    (forall i :: 0 <= i < |s| ==> IsDigit(s[i]) || s[i] == '_') &&
    (forall i :: 0 <= i < |s| - 1 ==> s[i] == '_' ==> IsDigit(s[i + 1]))
  }

  /** The digits of `s` without its underscores. */
  function DropUnderscores(s: string): (t: string)
    requires forall i :: 0 <= i < |s| ==> IsDigit(s[i]) || s[i] == '_'
    ensures AllDigits(t) && |t| <= |s|
    ensures AllDigits(s) ==> t == s
  {
    if s == [] then []
    else if s[0] == '_' then DropUnderscores(s[1..])
    else [s[0]] + DropUnderscores(s[1..])
  }

  /** The value of the text after an optional sign: decimal digit groups, or `None`. */
  function UnsignedValue(s: string): (r: Option<nat>)
    ensures r.Some? <==> DigitGroups(s)
    ensures AllDigits(s) && s != [] ==> r == Some(DigitsValue(s))
  {
    if DigitGroups(s) then Some(DigitsValue(DropUnderscores(s))) else None
  }

  /**
   * `int(s)` for a string in base 10: surrounding whitespace is ignored, a `+`
   * or `-` sign may lead, and the digits may be grouped with single
   * underscores; `None` for every other ASCII text, where Python raises.
   */
  function ParseInt(s: string): (r: Option<int>)
    ensures r.Some? ==> |Strip(s)| > 0
    ensures r.Some? <==> UnsignedValue(Unsigned(Strip(s))).Some?
    ensures r.Some? ==> var v := UnsignedValue(Unsigned(Strip(s))).value;
                        if Strip(s)[0] == '-' then r.value == -(v as int) else r.value == v as int
  {
    var t := Strip(s);
    if |t| > 0 && (t[0] == '-' || t[0] == '+') then
      match UnsignedValue(t[1..])
      case Some(v) => Some(if t[0] == '-' then -(v as int) else v as int)
      case None => None
    else
      match UnsignedValue(t)
      case Some(v) => Some(v as int)
      case None => None
  }

  /** The text after an optional leading `+` or `-`. */
  function Unsigned(t: string): (u: string)
    ensures |u| <= |t| && (|u| < |t| <==> |t| > 0 && (t[0] == '-' || t[0] == '+'))
  {
    if |t| > 0 && (t[0] == '-' || t[0] == '+') then t[1..] else t
  }

  /** A sign, surrounding whitespace and digit separators are all accepted. */
  lemma ParseIntSigns()
    ensures ParseInt("7") == Some(7) && ParseInt("+7") == Some(7) && ParseInt("-7") == Some(-7)
  {
    assert Strip("+7") == "+7" && Strip("-7") == "-7";
    assert "+7"[1..] == "7" && "-7"[1..] == "7";
    assert DigitsValue("7") == 7 by {
      assert "7"[..0] == [];
    }
  }

  lemma ParseIntSpaces()
    ensures ParseInt(" 7\n") == Some(7)
    ensures ParseInt([28 as char, '7']) == Some(7)
  {
    assert Strip(" 7\n") == "7" by {
      assert " 7\n"[1..] == "7\n";
      assert "7\n"[..1] == "7";
    }
    assert Strip([28 as char, '7']) == "7" by {
      assert [28 as char, '7'][1..] == "7";
    }
    assert DigitsValue("7") == 7 by {
      assert "7"[..0] == [];
    }
  }

  lemma ParseIntGroups()
    ensures ParseInt("1_000") == Some(1000)
  {
    assert Strip("1_000") == "1_000";
    assert DigitGroups("1_000");
    DropThousand();
    ValueThousand();
  }

  lemma DropThousand()
    ensures DropUnderscores("1_000") == "1000"
  {
    assert "1_000"[1..] == "_000";
    assert DropUnderscores("_000") == "000" by {
      assert "_000"[1..] == "000";
      assert DropUnderscores("000") == "000";
    }
  }

  lemma ValueThousand()
    ensures DigitsValue("1000") == 1000
  {
    assert "1000"[..3] == "100";
    assert "100"[..2] == "10";
    assert "10"[..1] == "1";
    assert "1"[..0] == [];
  }

  /** An empty number, a bare sign and misplaced underscores are refused. */
  lemma ParseIntRejects()
    ensures ParseInt("") == None && ParseInt("+") == None && ParseInt("1__0") == None && ParseInt("_1") == None
  {
    assert Strip("+") == "+" && "+"[1..] == "";
    assert Strip("1__0") == "1__0" && Strip("_1") == "_1";
    assert !DigitGroups("1__0") by {
      assert "1__0"[1] == '_' && !IsDigit("1__0"[2]);
    }
  }

  lemma {:induction false} DigitsRoundTrip(n: nat)
    ensures DigitsValue(Digits(n)) == n
  {
    if n >= 10 {
      var s := Digits(n);
      assert s[..|s| - 1] == Digits(n / 10);
      DigitsRoundTrip(n / 10);
    }
  }

  /** Reading back the decimal text of an id gives the id: `int("{}".format(i)) == i`. */
  lemma DecimalRoundTrip(i: int)
    ensures ParseInt(Decimal(i)) == Some(i)
  {
    var s := Decimal(i);
    StripDecimal(i);
    if i < 0 {
      UnsignedDigits(-i);
      assert s[1..] == Digits(-i);
    } else {
      UnsignedDigits(i);
      assert IsDigit(s[0]);
    }
  }

  lemma UnsignedDigits(n: nat)
    ensures UnsignedValue(Digits(n)) == Some(n)
  {
    DigitsRoundTrip(n);
  }

  /** The decimal text of an id has no surrounding whitespace. */
  lemma StripDecimal(i: int)
    ensures Strip(Decimal(i)) == Decimal(i)
  {
    var s := Decimal(i);
    assert !IsSpace(s[0]) && !IsSpace(s[|s| - 1]);
  }

  /** Distinct ids have distinct decimal texts. */
  lemma DecimalInjective(i: int, j: int)
    requires Decimal(i) == Decimal(j)
    ensures i == j
  {
    DecimalRoundTrip(i);
    DecimalRoundTrip(j);
  }

  function Pow10(k: nat): (p: nat)
    ensures p > 0
  {
    if k == 0 then 1 else 10 * Pow10(k - 1)
  }

  /** The first index of `c` in `s`, or `|s|`. */
  function IndexOf(s: string, c: char): (k: nat)
    ensures k <= |s|
    ensures forall i :: 0 <= i < k ==> s[i] != c
    ensures k < |s| ==> s[k] == c
  {
    if s == [] then 0 else if s[0] == c then 0 else 1 + IndexOf(s[1..], c)
  }

  /**
   * `float(s)` on the plain decimal forms `[-]digits[.digits]`, with digits on at
   * least one side of the point; `None` for any other text.
   */
  function ParseReal(s: string): (r: Option<real>)
    ensures r.Some? ==> |s| > 0
  {
    if |s| > 0 && s[0] == '-' then
      match ParseUnsignedReal(s[1..])
      case Some(v) => Some(-v)
      case None => None
    else ParseUnsignedReal(s)
  }

  function ParseUnsignedReal(s: string): (r: Option<real>)
    ensures r.Some? ==> |s| > 0
  {
    var k := IndexOf(s, '.');
    var whole := s[..k];
    var frac := if k < |s| then s[k + 1..] else "";
    if |whole| + |frac| == 0 || !AllDigits(whole) || !AllDigits(frac) then None
    else Some(DecimalParts(whole, frac))
  }

  /** The value of the decimal text `w.f`: the whole digits plus the fraction digits over a power of ten. */
  function DecimalParts(w: string, f: string): real
    requires AllDigits(w) && AllDigits(f)
  {
    DigitsValue(w) as real + DigitsValue(f) as real / Pow10(|f|) as real
  }

  /** Python's `str.split(',')`: the pieces between commas, always at least one. */
  function Split(s: string, sep: char): (parts: seq<string>)
    ensures |parts| > 0
    ensures forall i, j :: 0 <= i < |parts| && 0 <= j < |parts[i]| ==> parts[i][j] != sep
    decreases |s|
  {
    var k := IndexOf(s, sep);
    if k == |s| then [s] else [s[..k]] + Split(s[k + 1..], sep)
  }

  /** Splitting `a,b,c` where no piece holds the separator gives the three pieces. */
  lemma SplitThree(s: string, a: string, b: string, c: string, sep: char)
    requires s == a + [sep] + b + [sep] + c
    requires forall i :: 0 <= i < |a| ==> a[i] != sep
    requires forall i :: 0 <= i < |b| ==> b[i] != sep
    requires forall i :: 0 <= i < |c| ==> c[i] != sep
    ensures Split(s, sep) == [a, b, c]
  {
    var rest := b + [sep] + c;
    assert s == a + [sep] + rest;
    SplitPiece(s, a, rest, sep);
    SplitTwo(rest, b, c, sep);
  }

  lemma SplitTwo(s: string, b: string, c: string, sep: char)
    requires s == b + [sep] + c
    requires forall i :: 0 <= i < |b| ==> b[i] != sep
    requires forall i :: 0 <= i < |c| ==> c[i] != sep
    ensures Split(s, sep) == [b, c]
  {
    SplitPiece(s, b, c, sep);
    SplitLast(c, sep);
  }

  lemma SplitPiece(s: string, a: string, rest: string, sep: char)
    requires s == a + [sep] + rest
    requires forall i :: 0 <= i < |a| ==> a[i] != sep
    ensures Split(s, sep) == [a] + Split(rest, sep)
  {
    IndexOfPrefix(s, a, sep);
    assert s[..|a|] == a && s[|a| + 1..] == rest;
  }

  lemma {:induction false} IndexOfPrefix(s: string, a: string, sep: char)
    requires |a| < |s| && s[..|a|] == a && s[|a|] == sep
    requires forall i :: 0 <= i < |a| ==> a[i] != sep
    ensures IndexOf(s, sep) == |a|
    decreases |a|
  {
    if a != [] {
      assert s[0] == a[0];
      assert s[1..][..|a| - 1] == a[1..];
      IndexOfPrefix(s[1..], a[1..], sep);
    }
  }

  lemma SplitLast(c: string, sep: char)
    requires forall i :: 0 <= i < |c| ==> c[i] != sep
    ensures Split(c, sep) == [c]
  {
    NotFound(c, sep);
  }

  lemma {:induction false} NotFound(c: string, sep: char)
    requires forall i :: 0 <= i < |c| ==> c[i] != sep
    ensures IndexOf(c, sep) == |c|
    decreases |c|
  {
    if c != [] {
      NotFound(c[1..], sep);
    }
  }

  /** `float("w.f")` for digit strings `w` and `f`, not both empty. */
  lemma ParseRealPoint(w: string, f: string)
    requires AllDigits(w) && AllDigits(f) && |w| + |f| > 0
    ensures ParseReal(w + "." + f) == Some(DecimalParts(w, f))
  {
    var s := w + "." + f;
    UnsignedPoint(w, f);
    assert s[0] != '-' by {
      if |w| > 0 {
        assert s[0] == w[0];
      }
    }
  }

  lemma UnsignedPoint(w: string, f: string)
    requires AllDigits(w) && AllDigits(f) && |w| + |f| > 0
    ensures ParseUnsignedReal(w + "." + f) == Some(DecimalParts(w, f))
  {
    var s := w + "." + f;
    IndexOfPrefix(s, w, '.');
    assert s[..|w|] == w;
    assert s[|w| + 1..] == f;
  }

  /** `float("w")` for a non-empty digit string `w`. */
  lemma ParseRealWhole(w: string)
    requires AllDigits(w) && |w| > 0
    ensures ParseReal(w) == Some(DigitsValue(w) as real)
  {
    assert w[0] != '-';
    UnsignedWhole(w);
  }

  /** A leading `-` negates the unsigned reading of the rest: `float("-w.f")` and `float("-w")`. */
  lemma ParseRealNegative(s: string)
    requires |s| > 1 && s[0] == '-'
    ensures ParseUnsignedReal(s[1..]).Some? ==> ParseReal(s) == Some(-ParseUnsignedReal(s[1..]).value)
    ensures ParseUnsignedReal(s[1..]).None? ==> ParseReal(s) == None
  {
  }

  lemma UnsignedWhole(w: string)
    requires AllDigits(w) && |w| > 0
    ensures ParseUnsignedReal(w) == Some(DigitsValue(w) as real)
  {
    NotFound(w, '.');
    assert w[..|w|] == w;
    WholeParts(w);
  }

  lemma WholeParts(w: string)
    requires AllDigits(w)
    ensures DecimalParts(w, "") == DigitsValue(w) as real
  {
    assert DigitsValue("") == 0 && Pow10(0) == 1;
  }

  /** `float("d.0")` for a single digit `d` is that digit. */
  lemma ParseOneDecimal(d: char)
    requires IsDigit(d)
    ensures ParseReal([d, '.', '0']) == Some(DigitValue(d) as real)
  {
    var s := [d, '.', '0'];
    assert IndexOf(s, '.') == 1 by {
      assert s[0] != '.' && s[1] == '.';
      assert IndexOf(s[1..], '.') == 0;
    }
    assert s[..1] == [d] && s[2..] == ['0'];
    assert DigitsValue([d]) == DigitValue(d) by {
      assert [d][..0] == [];
    }
    assert DigitsValue(['0']) == 0 by {
      assert ['0'][..0] == [];
    }
  }
}

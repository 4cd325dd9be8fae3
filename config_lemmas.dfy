/** What the loader makes of config text: the key word and the separator of a
    line play no part, the written layout reads back to the same settings,
    the default file loads as OFF / AUTO / 74.00 / 70.00 / 0.0, and a missing
    or short file leaves the initialisers in place. */
module ConfigLemmas {
  import opened Config

  lemma {:induction false} SkipSpaceTo(p: string, x: string)
    requires AllSpace(p) && (x == [] || !IsSpace(x[0]))
    ensures SkipSpace(p + x) == x
  {
    if p == [] {
      assert p + x == x;
    } else {
      assert (p + x)[1..] == p[1..] + x;
      SkipSpaceTo(p[1..], x);
    }
  }

  lemma {:induction false} WordLengthOf(w: string, t: string)
    requires NoSpace(w) && (t == [] || IsSpace(t[0]))
    ensures WordLength(w + t) == |w|
  {
    if w == [] {
      assert w + t == t;
    } else {
      assert (w + t)[1..] == w[1..] + t;
      WordLengthOf(w[1..], t);
    }
  }

  lemma {:induction false} SplitDigitsOf(d: string, t: string, base: nat)
    requires AllDigits(d, base) && (t == [] || DigitValue(t[0]) >= base)
    ensures SplitDigits(d + t, base) == (d, t)
  {
    if d == [] {
      assert d + t == t;
    } else {
      assert (d + t)[1..] == d[1..] + t;
      SplitDigitsOf(d[1..], t, base);
      assert [d[0]] + d[1..] == d;
    }
  }

  /** White space ends every digit run, in any base up to 16. */
  lemma SpaceIsNoDigit(c: char)
    requires IsSpace(c)
    ensures DigitValue(c) == 16
  {
  }

  /** `%s` after white space reads exactly a key word that white space ends. */
  lemma ScanWordOf(p: string, key: string, gap: string)
    requires AllSpace(p) && key != [] && NoSpace(key) && gap != [] && IsSpace(gap[0])
    ensures ScanWord(p + (key + gap)) == Got(key, gap)
  {
    SkipSpaceTo(p, key + gap);
    WordLengthOf(key, gap);
    assert (key + gap)[..|key|] == key;
    assert (key + gap)[|key|..] == gap;
  }

  /** ` %c` after any white space reads the next character. */
  lemma ScanCharOf(gap: string, sep: char, after: string)
    requires AllSpace(gap) && !IsSpace(sep)
    ensures ScanChar(gap + ([sep] + after)) == Got(sep, after)
  {
    SkipSpaceTo(gap, [sep] + after);
    assert ([sep] + after)[1..] == after;
  }

  /** `%s %c` consume a key word, the white space after it and one separator
      character, and hand the rest to the number conversion: neither the key
      nor the separator matters. */
  lemma EntryIgnoresKey(p: string, key: string, gap: string, sep: char, after: string, conv: Conversion)
    requires AllSpace(p) && key != [] && NoSpace(key)
    requires gap != [] && AllSpace(gap) && !IsSpace(sep)
    ensures ScanEntry(p + key + gap + [sep] + after, conv) == Convert(after, conv)
  {
    var rest := gap + ([sep] + after);
    assert p + key + gap + [sep] + after == p + (key + rest);
    assert IsSpace(rest[0]);
    ScanWordOf(p, key, rest);
    ScanCharOf(gap, sep, after);
  }

  /** A `key = value` line, after any white space, leaves just ` value` and the
      rest of the text to the conversion. */
  lemma EntryOfLine(p: string, key: string, value: string, tail: string, conv: Conversion)
    requires AllSpace(p) && key != [] && NoSpace(key)
    ensures ScanEntry(p + Line(key, value) + tail, conv) == Convert(" " + value + "\n" + tail, conv)
  {
    assert p + Line(key, value) + tail == p + key + " " + ['='] + (" " + value + "\n" + tail);
    EntryIgnoresKey(p, key, " ", '=', " " + value + "\n" + tail, conv);
  }

  /** The integer digits fail exactly when no decimal digit comes first. */
  lemma MagnitudeNeedsDigit(u: string)
    ensures ScanMagnitude(u).Got? <==> u != [] && '0' <= u[0] <= '9'
  {
    var split := SplitDigits(u, 10);
    if split.0 != [] {
      assert u[0] == split.0[0];
    }
  }

  /** ` %i` fails exactly when, after white space and a sign, no decimal
      digit comes. */
  lemma ScanIntNeedsDigit(s: string)
    ensures ScanInt(s).Got? <==> (var u := SplitSign(SkipSpace(s)).1; u != [] && '0' <= u[0] <= '9')
  {
    MagnitudeNeedsDigit(SplitSign(SkipSpace(s)).1);
  }

  /** The `%f` digits fail exactly when no decimal digit comes before or
      right after the point. */
  lemma FixedMagnitudeNeedsDigit(u: string)
    ensures ScanFixedMagnitude(u).Got?
        <==> (u != [] && '0' <= u[0] <= '9') || (|u| >= 2 && u[0] == '.' && '0' <= u[1] <= '9')
  {
    var whole := SplitDigits(u, 10);
    if whole.0 != [] {
      assert u[0] == whole.0[0];
    } else if whole.1 != [] && whole.1[0] == '.' {
      var frac := SplitDigits(whole.1[1..], 10);
      if frac.0 != [] {
        assert u[1] == frac.0[0];
      }
    }
  }

  /** ` %f` fails exactly when, after white space and a sign, no decimal
      digit comes before or right after the point. */
  lemma ScanFixedNeedsDigit(s: string)
    ensures ScanFixed(s).Got? <==> (var u := SplitSign(SkipSpace(s)).1;
      (u != [] && '0' <= u[0] <= '9') || (|u| >= 2 && u[0] == '.' && '0' <= u[1] <= '9'))
  {
    FixedMagnitudeNeedsDigit(SplitSign(SkipSpace(s)).1);
  }

  /** The decimal branch of `ScanMagnitude`, given the digit run. */
  lemma DecimalSteps(u: string, digits: string, rest: string, v: nat)
    requires u != [] && u[0] != '0'
    requires SplitDigits(u, 10) == (digits, rest) && digits != [] && v == DigitsValue(digits, 10)
    ensures ScanMagnitude(u) == Got(v, rest)
  {
  }

  /** The octal branch of `ScanMagnitude`, given the digit run. */
  lemma OctalSteps(u: string, digits: string, rest: string, v: nat)
    requires u != [] && u[0] == '0' && !(|u| >= 2 && (u[1] == 'x' || u[1] == 'X'))
    requires SplitDigits(u, 8) == (digits, rest) && v == DigitsValue(digits, 8)
    ensures ScanMagnitude(u) == Got(v, rest)
  {
  }

  /** The hexadecimal branch of `ScanMagnitude`, given the digit run. */
  lemma HexSteps(u: string, digits: string, rest: string, v: nat)
    requires |u| >= 2 && u[0] == '0' && (u[1] == 'x' || u[1] == 'X')
    requires SplitDigits(u[2..], 16) == (digits, rest) && v == DigitsValue(digits, 16)
    ensures ScanMagnitude(u) == Got(v, rest)
  {
  }

  /** Decimal digits without a leading zero, ended by white space, read as their value. */
  lemma DecimalMagnitudeOf(digits: string, tail: string, v: nat)
    requires digits != [] && digits[0] != '0' && AllDigits(digits, 10)
    requires tail == [] || IsSpace(tail[0])
    requires v == DigitsValue(digits, 10)
    ensures ScanMagnitude(digits + tail) == Got(v, tail)
  {
    if tail != [] {
      SpaceIsNoDigit(tail[0]);
    }
    SplitDigitsOf(digits, tail, 10);
    assert (digits + tail)[0] == digits[0];
    DecimalSteps(digits + tail, digits, tail, v);
  }

  /** A lone `0` ended by white space reads as octal zero. */
  lemma ZeroMagnitudeOf(tail: string)
    requires tail == [] || IsSpace(tail[0])
    ensures ScanMagnitude("0" + tail) == Got(0, tail)
  {
    if tail != [] {
      SpaceIsNoDigit(tail[0]);
    }
    SplitDigitsOf("0", tail, 8);
    var u := "0" + tail;
    assert u[0] == '0' && (|u| >= 3 ==> u[1] == tail[0]);
    assert DigitsValue("0", 8) == 0;
    OctalSteps(u, "0", tail, 0);
  }

  /** The digits `NatText` writes read back as the same number: decimal, or
      the single octal `0`. */
  lemma MagnitudeOf(a: nat, tail: string)
    requires tail == [] || IsSpace(tail[0])
    ensures ScanMagnitude(NatText(a) + tail) == Got(a, tail)
  {
    if a == 0 {
      assert NatText(a) == "0";
      ZeroMagnitudeOf(tail);
    } else {
      DecimalMagnitudeOf(NatText(a), tail, a);
    }
  }

  /** `%i` as its three steps: skip space, split the sign, read the digits. */
  lemma ScanIntSteps(s: string, negative: bool, u: string, m: nat, tail: string, v: int)
    requires SplitSign(SkipSpace(s)) == (negative, u)
    requires ScanMagnitude(u) == Got(m, tail)
    requires v == Signed(negative, m)
    ensures ScanInt(s) == Got(v, tail)
  {
  }

  /** One blank and no sign in front of a digit. */
  lemma BlankThenDigit(u: string)
    requires u != [] && '0' <= u[0] <= '9'
    ensures SplitSign(SkipSpace(" " + u)) == (false, u)
  {
    SplitSignOf(false, u);
    assert SignText(false) + u == u;
    SkipSpaceTo(" ", u);
  }

  /** A leading zero does not change the value of a digit string. */
  lemma {:induction false} LeadingZero(d: string, base: nat)
    ensures DigitsValue("0" + d, base) == DigitsValue(d, base)
  {
    var z := "0" + d;
    if d == [] {
      assert z[..0] == [];
    } else {
      assert z[..|z| - 1] == "0" + d[..|d| - 1];
      assert z[|z| - 1] == d[|d| - 1];
      LeadingZero(d[..|d| - 1], base);
    }
  }

  /** Concatenation regrouped on its own, away from the scanner's definitions. */
  lemma RegroupOctal(digits: string, tail: string)
    ensures " 0" + digits + tail == " " + ("0" + digits + tail)
    ensures "0" + digits + tail == ("0" + digits) + tail
  {
  }

  /** `%i` follows C's prefix rule: a leading `0` makes the digits octal.
      The octal digits after the `0` are read as their value, and the first
      character that is no octal digit (an `8`, a `9`, white space) ends the
      conversion and is left for the next one. */
  lemma OctalIntOf(digits: string, tail: string, v: nat)
    requires AllDigits(digits, 8)
    requires tail == [] || (DigitValue(tail[0]) >= 8 && tail[0] != 'x' && tail[0] != 'X')
    requires v == DigitsValue(digits, 8)
    ensures ScanInt(" 0" + digits + tail) == Got(v, tail)
  {
    var octal := "0" + digits;
    var u := octal + tail;
    assert " 0" + digits + tail == " " + u by {
      RegroupOctal(digits, tail);
    }
    assert SplitSign(SkipSpace(" " + u)) == (false, u) by {
      BlankThenDigit(u);
    }
    assert ScanMagnitude(u) == Got(v, tail) by {
      OctalMagnitudeOf(digits, tail, v);
    }
    assert ScanInt(" " + u) == Got(v, tail) by {
      ScanIntSteps(" " + u, false, u, v, tail, v);
    }
  }

  /** The octal branch of `ScanMagnitude` on a `0` and its octal digits. */
  lemma OctalMagnitudeOf(digits: string, tail: string, v: nat)
    requires AllDigits(digits, 8)
    requires tail == [] || (DigitValue(tail[0]) >= 8 && tail[0] != 'x' && tail[0] != 'X')
    requires v == DigitsValue(digits, 8)
    ensures ScanMagnitude(("0" + digits) + tail) == Got(v, tail)
  {
    var octal := "0" + digits;
    var u := octal + tail;
    assert AllDigits(octal, 8) by {
      assert forall i :: 1 <= i < |octal| ==> octal[i] == digits[i - 1];
    }
    SplitDigitsOf(octal, tail, 8);
    LeadingZero(digits, 8);
    assert u[0] == '0';
    assert |u| >= 2 ==> u[1] == (if digits != [] then digits[0] else tail[0]);
    OctalSteps(u, octal, tail, v);
  }

  /** A mode written `010` loads as 8. */
  lemma OctalIntText()
    ensures ScanInt(" 010\n") == Got(8, "\n")
  {
    assert " 0" + "10" + "\n" == " 010\n";
    assert ScanInt(" 0" + "10" + "\n") == Got(8, "\n") by {
      assert AllDigits("10", 8) && DigitsValue("10", 8) == 8 by {
        assert "10"[..1] == "1" && "1"[..0] == [];
      }
      OctalIntOf("10", "\n", 8);
    }
  }

  /** `08` is not a number to `%i`: it reads the `0` alone as octal 0 and
      leaves the `8`, which the next call then takes as its key word. */
  lemma OctalStopsAtEight(tail: string)
    ensures ScanInt(" 08" + tail) == Got(0, "8" + tail)
  {
    var empty: string := [];
    assert " 0" + empty + ("8" + tail) == " 08" + tail by {
      assert " 0" + empty == " 0";
    }
    assert ScanInt(" 0" + empty + ("8" + tail)) == Got(0, "8" + tail) by {
      assert DigitsValue(empty, 8) == 0;
      OctalIntOf(empty, "8" + tail, 0);
    }
  }

  /** `%i` reads `0x` and hexadecimal digits ended by white space as their
      value, so `0x1f` loads as 31; with no digits it reads 0. */
  lemma HexIntOf(digits: string, tail: string, v: nat)
    requires AllDigits(digits, 16) && (tail == [] || IsSpace(tail[0]))
    requires v == DigitsValue(digits, 16)
    ensures ScanInt(" 0x" + digits + tail) == Got(v, tail)
  {
    var u := "0x" + (digits + tail);
    assert SplitSign(SkipSpace(" " + u)) == (false, u) by {
      BlankThenDigit(u);
    }
    assert ScanMagnitude(u) == Got(v, tail) by {
      if tail != [] {
        SpaceIsNoDigit(tail[0]);
      }
      SplitDigitsOf(digits, tail, 16);
      assert u[2..] == digits + tail;
      HexSteps(u, digits, tail, v);
    }
    assert ScanInt(" " + u) == Got(v, tail) by {
      ScanIntSteps(" " + u, false, u, v, tail, v);
    }
    assert " 0x" + digits + tail == " " + u by {
      RegroupHex(digits, tail);
    }
  }

  /** Concatenation regrouped on its own, away from the scanner's definitions. */
  lemma RegroupHex(digits: string, tail: string)
    ensures " 0x" + digits + tail == " " + ("0x" + (digits + tail))
  {
  }

  /** A `0x` with no hexadecimal digit after it is consumed and reads as 0. */
  lemma BareHexPrefix(tail: string)
    requires tail == [] || IsSpace(tail[0])
    ensures ScanInt(" 0x" + tail) == Got(0, tail)
  {
    var empty: string := [];
    assert " 0x" + empty + tail == " 0x" + tail by {
      assert " 0x" + empty == " 0x";
    }
    assert ScanInt(" 0x" + empty + tail) == Got(0, tail) by {
      assert DigitsValue(empty, 16) == 0;
      HexIntOf(empty, tail, 0);
    }
  }

  /** The sign `IntText` writes is the one `SplitSign` finds. */
  lemma SplitIntText(n: int, tail: string)
    ensures IntText(n) + tail != [] && !IsSpace((IntText(n) + tail)[0])
    ensures SplitSign(IntText(n) + tail) == (n < 0, NatText(if n < 0 then -n else n) + tail)
  {
    var u := NatText(if n < 0 then -n else n) + tail;
    if n < 0 {
      assert IntText(n) + tail == "-" + u;
    } else {
      assert IntText(n) + tail == u;
      assert DigitValue(u[0]) < 10;
    }
  }

  /** `%i` reads back what `IntText` writes. */
  lemma ScanIntOfText(n: int, tail: string)
    requires tail == [] || IsSpace(tail[0])
    ensures ScanInt(" " + IntText(n) + tail) == Got(n, tail)
  {
    var a: nat := if n < 0 then -n else n;
    var t := IntText(n) + tail;
    assert " " + IntText(n) + tail == " " + t;
    SplitIntText(n, tail);
    SkipSpaceTo(" ", t);
    MagnitudeOf(a, tail);
  }

  /** Whole digits, a point and fraction digits read as the hundredths the
      fraction's first two digits give. */
  lemma FixedMagnitudeOf(digits: string, frac: string, tail: string, m: nat)
    requires digits != [] && AllDigits(digits, 10) && AllDigits(frac, 10)
    requires tail == [] || IsSpace(tail[0])
    requires m == DigitsValue(digits, 10) * 100 + Hundredths(frac)
    ensures ScanFixedMagnitude(digits + "." + frac + tail) == Got(m, tail)
  {
    var point := "." + frac + tail;
    assert digits + "." + frac + tail == digits + point && point != [] && point[0] == '.';
    SplitDigitsOf(digits, point, 10);
    FracAfterPoint(frac, tail);
    FixedMagnitudeSteps(digits + point, digits, point, frac, tail, m);
  }

  /** After the point, the fraction digits are the digit run and white space ends it. */
  lemma FracAfterPoint(frac: string, tail: string)
    requires AllDigits(frac, 10) && (tail == [] || IsSpace(tail[0]))
    ensures SplitDigits(("." + frac + tail)[1..], 10) == (frac, tail)
  {
    assert ("." + frac + tail)[1..] == frac + tail;
    if tail != [] {
      SpaceIsNoDigit(tail[0]);
    }
    SplitDigitsOf(frac, tail, 10);
  }

  /** The point branch of `ScanFixedMagnitude`, given the whole digit run. */
  lemma FixedMagnitudeSteps(u: string, whole: string, afterWhole: string, frac: string, rest: string, m: nat)
    requires SplitDigits(u, 10) == (whole, afterWhole) && whole != []
    requires afterWhole != [] && afterWhole[0] == '.'
    requires SplitDigits(afterWhole[1..], 10) == (frac, rest)
    requires AllDigits(frac, 10) && m == DigitsValue(whole, 10) * 100 + Hundredths(frac)
    ensures ScanFixedMagnitude(u) == Got(m, rest)
  {
    assert ScanFixedMagnitude(u) == ScanFraction(whole, afterWhole[1..]);
    FractionSteps(whole, afterWhole[1..], frac, rest, m);
  }

  /** `ScanFraction`, given the fraction digit run. */
  lemma FractionSteps(whole: string, afterPoint: string, frac: string, rest: string, m: nat)
    requires (whole != [] || frac != []) && SplitDigits(afterPoint, 10) == (frac, rest)
    requires AllDigits(frac, 10) && m == DigitsValue(whole, 10) * 100 + Hundredths(frac)
    ensures ScanFraction(whole, afterPoint) == Got(m, rest)
  {
  }

  /** A written minus sign, or none, in front of a digit or a point is what `SplitSign` finds. */
  lemma SplitSignOf(negative: bool, u: string)
    requires u != [] && ('0' <= u[0] <= '9' || u[0] == '.')
    ensures var t := SignText(negative) + u;
      t != [] && !IsSpace(t[0]) && SplitSign(t) == (negative, u)
  {
    assert u[0] != '-' && u[0] != '+' && !IsSpace(u[0]);
    if negative {
      assert ("-" + u)[1..] == u;
    } else {
      assert "" + u == u;
    }
  }

  /** `%f` as its three steps: skip space, split the sign, read the digits. */
  lemma ScanFixedSteps(s: string, negative: bool, u: string, m: nat, tail: string, v: int)
    requires SplitSign(SkipSpace(s)) == (negative, u)
    requires ScanFixedMagnitude(u) == Got(m, tail)
    requires v == Signed(negative, m)
    ensures ScanFixed(s) == Got(v, tail)
  {
  }

  /** Concatenation regrouped on its own, away from the scanner's definitions. */
  lemma RegroupFixed(sign: string, w: string, f: string, t: string)
    ensures " " + sign + w + "." + f + t == " " + (sign + (w + "." + f + t))
    ensures w != [] ==> (w + "." + f + t)[0] == w[0]
  {
  }

  /** `%f` reads an optional minus sign, whole digits, a point and fraction
      digits to the hundredths the fraction's first two digits give. */
  lemma ScanFixedOfText(negative: bool, digits: string, frac: string, tail: string, v: int)
    requires digits != [] && AllDigits(digits, 10) && AllDigits(frac, 10)
    requires tail == [] || IsSpace(tail[0])
    requires v == Signed(negative, DigitsValue(digits, 10) * 100 + Hundredths(frac))
    ensures ScanFixed(" " + SignText(negative) + digits + "." + frac + tail) == Got(v, tail)
  {
    var sign := SignText(negative);
    var u := digits + "." + frac + tail;
    var s := " " + sign + digits + "." + frac + tail;
    assert SplitSign(SkipSpace(s)) == (negative, u) by {
      RegroupFixed(sign, digits, frac, tail);
      SplitSignOf(negative, u);
      SkipSpaceTo(" ", sign + u);
    }
    var m: nat := DigitsValue(digits, 10) * 100 + Hundredths(frac);
    FixedMagnitudeOf(digits, frac, tail, m);
    ScanFixedSteps(s, negative, u, m, tail, v);
  }

  /** Whole digits with no point, ended by white space, read as whole units. */
  lemma WholeMagnitudeOf(digits: string, tail: string, m: nat)
    requires digits != [] && AllDigits(digits, 10)
    requires tail == [] || IsSpace(tail[0])
    requires m == DigitsValue(digits, 10) * 100
    ensures ScanFixedMagnitude(digits + tail) == Got(m, tail)
  {
    if tail != [] {
      SpaceIsNoDigit(tail[0]);
    }
    SplitDigitsOf(digits, tail, 10);
  }

  /** Concatenation regrouped on its own, away from the scanner's definitions. */
  lemma RegroupWhole(sign: string, w: string, t: string)
    ensures " " + sign + w + t == " " + (sign + (w + t))
    ensures w != [] ==> (w + t)[0] == w[0]
  {
  }

  /** `%f` reads an optional minus sign and whole digits without a point, as
      a hand-edited `heatTemp = 74` is written, as that many whole degrees. */
  lemma ScanFixedOfWhole(negative: bool, digits: string, tail: string, v: int)
    requires digits != [] && AllDigits(digits, 10)
    requires tail == [] || IsSpace(tail[0])
    requires v == Signed(negative, DigitsValue(digits, 10) * 100)
    ensures ScanFixed(" " + SignText(negative) + digits + tail) == Got(v, tail)
  {
    var sign := SignText(negative);
    var u := digits + tail;
    var s := " " + sign + digits + tail;
    assert SplitSign(SkipSpace(s)) == (negative, u) by {
      RegroupWhole(sign, digits, tail);
      SplitSignOf(negative, u);
      SkipSpaceTo(" ", sign + u);
    }
    var m: nat := DigitsValue(digits, 10) * 100;
    WholeMagnitudeOf(digits, tail, m);
    ScanFixedSteps(s, negative, u, m, tail, v);
  }

  /** A point with no whole digits before it, then fraction digits, read as
      the hundredths the fraction's first two digits give. */
  lemma PointMagnitudeOf(frac: string, tail: string, m: nat)
    requires frac != [] && AllDigits(frac, 10)
    requires tail == [] || IsSpace(tail[0])
    requires m == Hundredths(frac)
    ensures ScanFixedMagnitude("." + frac + tail) == Got(m, tail)
  {
    var u := "." + frac + tail;
    assert SplitDigits(u, 10) == ([], u) by {
      assert u[0] == '.';
    }
    FracAfterPoint(frac, tail);
    assert ScanFixedMagnitude(u) == ScanFraction([], u[1..]);
    FractionSteps([], u[1..], frac, tail, m);
  }

  /** Concatenation regrouped on its own, away from the scanner's definitions. */
  lemma RegroupPoint(sign: string, f: string, t: string)
    ensures " " + sign + "." + f + t == " " + (sign + ("." + f + t))
    ensures ("." + f + t)[0] == '.'
  {
  }

  /** `%f` reads an optional minus sign, a point and fraction digits, as in
      `.5`, as a fraction of a degree. */
  lemma ScanFixedOfPoint(negative: bool, frac: string, tail: string, v: int)
    requires frac != [] && AllDigits(frac, 10)
    requires tail == [] || IsSpace(tail[0])
    requires v == Signed(negative, Hundredths(frac))
    ensures ScanFixed(" " + SignText(negative) + "." + frac + tail) == Got(v, tail)
  {
    var sign := SignText(negative);
    var u := "." + frac + tail;
    var s := " " + sign + "." + frac + tail;
    assert SplitSign(SkipSpace(s)) == (negative, u) by {
      RegroupPoint(sign, frac, tail);
      SplitSignOf(negative, u);
      SkipSpaceTo(" ", sign + u);
    }
    var m: nat := Hundredths(frac);
    PointMagnitudeOf(frac, tail, m);
    ScanFixedSteps(s, negative, u, m, tail, v);
  }

  /** The sign, whole part and two decimals `FixedText` writes stand for the
      value written. */
  lemma FixedTextValue(h: int)
    ensures Signed(h < 0, DigitsValue(NatText(Abs(h) / 100), 10) * 100 + Hundredths(CentsText(Abs(h)))) == h
  {
    var a := Abs(h);
    CentsValue(a);
    assert a / 100 * 100 + a % 100 == a;
  }

  /** The two decimals `CentsText` writes stand for the magnitude's hundredths. */
  lemma CentsValue(a: nat)
    ensures Hundredths(CentsText(a)) == a % 100
  {
    var cents := a % 100;
    assert DigitValue(CentsText(a)[0]) == cents / 10 && DigitValue(CentsText(a)[1]) == cents % 10;
  }

  /** Concatenation regrouped on its own, away from the scanner's definitions. */
  lemma RegroupFixedText(sign: string, w: string, f: string, t: string)
    ensures " " + (sign + w + "." + f) + t == " " + sign + w + "." + f + t
  {
  }

  /** `%f` reads back what `FixedText` writes. */
  lemma ScanFixedOfFixedText(h: int, tail: string)
    requires tail == [] || IsSpace(tail[0])
    ensures ScanFixed(" " + FixedText(h) + tail) == Got(h, tail)
  {
    RegroupFixedText(SignText(h < 0), NatText(Abs(h) / 100), CentsText(Abs(h)), tail);
    FixedTextValue(h);
    ScanFixedOfText(h < 0, NatText(Abs(h) / 100), CentsText(Abs(h)), tail, h);
  }

  /** The five keys are words `%s` reads whole, and the gaps between lines are white space. */
  lemma KeysAreWords()
    ensures NoSpace("hvacMode") && NoSpace("fanMode") && NoSpace("heatTemp")
    ensures NoSpace("coolTemp") && NoSpace("offsetVal")
    ensures AllSpace("") && AllSpace("\n") && "\n" + "" == "\n"
  {
  }

  /** Concatenation regrouped on its own, away from the scanner's definitions. */
  lemma RegroupEntry(p: string, line: string, tail: string)
    ensures p + line + tail == p + (line + tail)
    ensures "" + (line + tail) == line + tail
  {
  }

  /** Concatenation regrouped on its own, away from the scanner's definitions. */
  lemma RegroupValue(v: string, tail: string)
    ensures " " + v + "\n" + tail == " " + v + ("\n" + tail)
  {
  }

  /** A `key = <int>` line as `IntText` writes it is read back by one `%s %c %i` call. */
  lemma IntEntry(p: string, key: string, n: int, tail: string)
    requires AllSpace(p) && key != [] && NoSpace(key)
    ensures ScanEntry(p + (Line(key, IntText(n)) + tail), Integer) == Got(n, "\n" + tail)
  {
    RegroupEntry(p, Line(key, IntText(n)), tail);
    EntryOfLine(p, key, IntText(n), tail, Integer);
    RegroupValue(IntText(n), tail);
    ScanIntOfText(n, "\n" + tail);
  }

  /** A `key = <fixed>` line as `FixedText` writes it is read back by one `%s %c %f` call. */
  lemma FixedEntry(p: string, key: string, h: int, tail: string)
    requires AllSpace(p) && key != [] && NoSpace(key)
    ensures ScanEntry(p + (Line(key, FixedText(h)) + tail), Fixed) == Got(h, "\n" + tail)
  {
    RegroupEntry(p, Line(key, FixedText(h)), tail);
    EntryOfLine(p, key, FixedText(h), tail, Fixed);
    RegroupValue(FixedText(h), tail);
    ScanFixedOfFixedText(h, "\n" + tail);
  }

  /** Loading the text `Render` writes gives back the settings, whatever the
      variables held before. */
  lemma ReadConfigRoundTrip(s: Settings, init: Settings)
    ensures ReadConfig(Render(s), init) == s
  {
    var l1 := Line("hvacMode", IntText(s.hvacMode));
    var l2 := Line("fanMode", IntText(s.fanMode));
    var l3 := Line("heatTemp", FixedText(s.heatTemp));
    var l4 := Line("coolTemp", FixedText(s.coolTemp));
    var l5 := Line("offsetVal", FixedText(s.offsetVal));
    var r4 := l4 + (l5 + "");
    var r3 := l3 + r4;
    var r2 := l2 + r3;
    assert l5 + "" == l5;
    KeysAreWords();
    RegroupEntry("", l1, r2);
    IntEntry("", "hvacMode", s.hvacMode, r2);
    IntEntry("\n", "fanMode", s.fanMode, r3);
    FixedEntry("\n", "heatTemp", s.heatTemp, r4);
    FixedEntry("\n", "coolTemp", s.coolTemp, l5 + "");
    FixedEntry("\n", "offsetVal", s.offsetVal, "");
  }

  /** The text `defaultSettings` writes loads, field by field, as mode OFF,
      fan AUTO, heat 74.00, cool 70.00 and offset 0.0, overwriting all five
      variables. */
  lemma DefaultTextLoads(init: Settings)
    ensures ReadConfig(DefaultSettingsText(), init) == DefaultFile
  {
    var l1 := Line("hvacMode", IntText(2));
    var l2 := Line("fanMode", IntText(1));
    var l3 := Line("heatTemp", FixedText(7400));
    var l4 := Line("coolTemp", FixedText(7000));
    var l5 := Line("offsetVal", "0.0");
    var r4 := l4 + (l5 + "");
    var r3 := l3 + r4;
    var r2 := l2 + r3;
    DefaultTextShape();
    assert l5 + "" == l5;
    KeysAreWords();
    RegroupEntry("", l1, r2);
    IntEntry("", "hvacMode", 2, r2);
    IntEntry("\n", "fanMode", 1, r3);
    FixedEntry("\n", "heatTemp", 7400, r4);
    FixedEntry("\n", "coolTemp", 7000, l5 + "");
    OffsetEntry();
  }

  /** The set points of the default file written as `FixedText` writes them. */
  lemma SetpointTexts()
    ensures FixedText(7400) == "74.00" && FixedText(7000) == "70.00"
  {
    assert NatText(7400 / 100) == "74" && NatText(7000 / 100) == "70" by {
      assert NatText(74) == "74";
      assert NatText(70) == "70";
    }
    assert CentsText(7400) == "00" && CentsText(7000) == "00";
    PositiveFixedText(7400);
    PositiveFixedText(7000);
    assert "74" + "." + "00" == "74.00" && "70" + "." + "00" == "70.00";
  }

  /** A non-negative value is written without a sign. */
  lemma PositiveFixedText(h: nat)
    ensures FixedText(h) == NatText(h / 100) + "." + CentsText(h)
  {
    assert SignText(false) + NatText(h / 100) == NatText(h / 100);
  }

  /** The default text is five `key = value` lines, the numbers in the forms
      `IntText` and `FixedText` write, except for the offset's single decimal. */
  lemma DefaultTextShape()
    ensures DefaultSettingsText()
         == Line("hvacMode", IntText(2)) + (Line("fanMode", IntText(1)) + (Line("heatTemp", FixedText(7400)) +
            (Line("coolTemp", FixedText(7000)) + (Line("offsetVal", "0.0") + ""))))
  {
    SmallNumberLines();
    SetpointLines();
    DefaultTextLayout();
  }

  /** The mode and fan lines of the default text, kept apart so the solver works on short strings. */
  lemma SmallNumberLines()
    ensures Line("hvacMode", IntText(2)) == "hvacMode = 2\n" && Line("fanMode", IntText(1)) == "fanMode = 1\n"
  {
    assert IntText(2) == "2" && IntText(1) == "1";
  }

  /** The two set-point lines of the default text, kept apart so the solver works on short strings. */
  lemma SetpointLines()
    ensures Line("heatTemp", FixedText(7400)) == "heatTemp = 74.00\n"
    ensures Line("coolTemp", FixedText(7000)) == "coolTemp = 70.00\n"
  {
    SetpointTexts();
  }

  /** The default text with its five lines grouped as `Render` groups them. */
  lemma DefaultTextLayout()
    ensures DefaultSettingsText()
         == "hvacMode = 2\n" + ("fanMode = 1\n" + ("heatTemp = 74.00\n" + ("coolTemp = 70.00\n" + (Line("offsetVal", "0.0") + ""))))
  {
  }

  /** `%f` reads the offset's `0.0` as zero. */
  lemma ScanZeroPointZero(tail: string)
    requires tail == [] || IsSpace(tail[0])
    ensures ScanFixed(" " + "0.0" + tail) == Got(0, tail)
  {
    assert AllDigits("0", 10) && DigitsValue("0", 10) == 0 && Hundredths("0") == 0;
    assert " " + "0.0" + tail == " " + SignText(false) + "0" + "." + "0" + tail by {
      assert "0.0" == "0" + "." + "0";
    }
    ScanFixedOfText(false, "0", "0", tail, 0);
  }

  /** The default file's last line, `offsetVal = 0.0`, reads as zero. */
  lemma OffsetEntry()
    ensures ScanEntry("\n" + (Line("offsetVal", "0.0") + ""), Fixed) == Got(0, "\n")
  {
    KeysAreWords();
    RegroupEntry("\n", Line("offsetVal", "0.0"), "");
    EntryOfLine("\n", "offsetVal", "0.0", "", Fixed);
    RegroupValue("0.0", "");
    ScanZeroPointZero("\n");
  }

  /** Start-up without a config file: the variables keep their initialisers
      (AC, fan ON, 0.0, 0.0, 0.0) while the file it writes says OFF, AUTO,
      74.00, 70.00, 0.0, which is what the next start-up loads. */
  lemma MissingConfigKeepsInitialisers()
    ensures StartupSettings(None) == Initial
    ensures StartupFileWrite(None) == Some(DefaultSettingsText())
    ensures StartupSettings(StartupFileWrite(None)) == DefaultFile
    ensures StartupSettings(None) != StartupSettings(StartupFileWrite(None))
  {
    DefaultTextLoads(Initial);
  }

  /** A conversion that meets only white space fails and leaves nothing unread. */
  lemma BlankEntry(s: string, conv: Conversion)
    requires AllSpace(s)
    ensures ScanEntry(s, conv) == Stop([])
  {
    assert SkipSpace(s) == [];
  }

  /** A file holding nothing but white space assigns no variable. */
  lemma BlankConfigKeepsInit(text: string, init: Settings)
    requires AllSpace(text)
    ensures ReadConfig(text, init) == init
  {
    BlankEntry(text, Integer);
    BlankEntry([], Integer);
    BlankEntry([], Fixed);
  }

  /** The reads are positional: a file that stops after two lines sets the
      mode and the fan and leaves the three temperatures as they were. */
  lemma ShortConfigKeepsLaterFields(mode: int, fan: int, init: Settings)
    ensures ReadConfig(Line("hvacMode", IntText(mode)) + Line("fanMode", IntText(fan)), init)
         == init.(hvacMode := mode, fanMode := fan)
  {
    var l1 := Line("hvacMode", IntText(mode));
    var l2 := Line("fanMode", IntText(fan));
    assert l1 + l2 == "" + (l1 + (l2 + ""));
    KeysAreWords();
    IntEntry("", "hvacMode", mode, l2 + "");
    IntEntry("\n", "fanMode", fan, "");
    BlankEntry("\n", Fixed);
    BlankEntry([], Fixed);
  }
}

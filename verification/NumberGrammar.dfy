/** The numbers that are read, by the productions of section 6 of RFC 8259. */
module NumberGrammar {
  import opened Numbers

  // One digit or more.
  predicate IsDigits(s: string) {
    s != "" && AllDigits(s)
  }

  predicate IsFraction(s: string) {
    s != "" && s[0] == '.' && IsDigits(s[1..])
  }

  predicate IsExponent(s: string) {
    && |s| > 1 && (s[0] == 'e' || s[0] == 'E')
    && IsDigits(if s[1] == '+' || s[1] == '-' then s[2..] else s[1..])
  }

  predicate IsTail(fraction: string, exponent: string) {
    (fraction == "" || IsFraction(fraction)) && (exponent == "" || IsExponent(exponent))
  }

  // number = [ minus ] int [ frac ] [ exp ]
  ghost predicate HasParts(s: string, sign: string, whole: string, fraction: string, exponent: string) {
    && s == sign + whole + fraction + exponent && (sign == "" || sign == "-")
    && IsNatural(whole) && IsTail(fraction, exponent)
  }

  lemma WrongForGood(s: string)
    ensures !Completes(Wrong, s)
  {
    CompletesChars(Wrong, s);
  }

  lemma FirstDigitApart(s: string)
    requires s != ""
    ensures AllDigits(s) <==> IsDigit(s[0]) && AllDigits(s[1..])
  {
    assert s == [s[0]] + s[1..];
  }

  lemma {:induction false} ExponentDigits(s: string)
    ensures Completes(Exponent, s) <==> AllDigits(s)
  {
    if s != "" {
      ExponentDigits(s[1..]);
      FirstDigitApart(s);
      WrongForGood(s[1..]);
    }
  }

  lemma SignedExponent(s: string)
    ensures Completes(MarkSign, s) <==> IsDigits(s)
  {
    if s != "" {
      ExponentDigits(s[1..]);
      FirstDigitApart(s);
      WrongForGood(s[1..]);
    }
  }

  lemma MarkedExponent(s: string)
    ensures Completes(Mark, s) <==>
              s != "" && IsDigits(if s[0] == '+' || s[0] == '-' then s[1..] else s)
  {
    if s != "" {
      SignedExponent(s[1..]);
      ExponentDigits(s[1..]);
      FirstDigitApart(s);
      WrongForGood(s[1..]);
    }
  }

  // ---------- what is read has these parts ----------

  lemma ExponentPart(p: Part, s: string)
    requires p.Zero? || p.Whole? || p.Fraction?
    requires Completes(p, s) && (s == "" || (s[0] != '.' && !IsDigit(s[0])))
    ensures s == "" || IsExponent(s)
  {
    if s != "" {
      WrongForGood(s[1..]);
      MarkedExponent(s[1..]);
    }
  }

  lemma {:induction false} FractionParts(s: string) returns (digits: string, exponent: string)
    requires Completes(Fraction, s)
    ensures s == digits + exponent && AllDigits(digits) && (exponent == "" || IsExponent(exponent))
  {
    if s != "" && IsDigit(s[0]) {
      digits, exponent := FractionParts(s[1..]);
      digits := [s[0]] + digits;
    } else {
      digits, exponent := "", s;
      if s != "" {
        WrongForGood(s[1..]);
      }
      ExponentPart(Fraction, s);
    }
  }

  lemma TailParts(p: Part, s: string) returns (fraction: string, exponent: string)
    requires p.Zero? || p.Whole?
    requires Completes(p, s) && (s == "" || !IsDigit(s[0]))
    ensures s == fraction + exponent && IsTail(fraction, exponent)
  {
    if s != "" && s[0] == '.' {
      var rest := s[1..];
      assert rest != "";
      WrongForGood(rest[1..]);
      var digits, e := FractionParts(rest[1..]);
      fraction, exponent := "." + ([rest[0]] + digits), e;
      assert fraction[1..] == [rest[0]] + digits;
    } else {
      fraction, exponent := "", s;
      ExponentPart(p, s);
    }
  }

  lemma {:induction false} WholeParts(s: string) returns (digits: string, fraction: string, exponent: string)
    requires Completes(Whole, s)
    ensures s == digits + fraction + exponent && AllDigits(digits) && IsTail(fraction, exponent)
  {
    if s != "" && IsDigit(s[0]) {
      digits, fraction, exponent := WholeParts(s[1..]);
      digits := [s[0]] + digits;
    } else {
      fraction, exponent := TailParts(Whole, s);
      digits := "";
    }
  }

  lemma UnsignedParts(p: Part, s: string) returns (whole: string, fraction: string, exponent: string)
    requires p.Minus? || (p.Start? && s != "" && s[0] != '-')
    requires Completes(p, s)
    ensures s == whole + fraction + exponent && IsNatural(whole) && IsTail(fraction, exponent)
  {
    WrongForGood(s[1..]);
    if s[0] == '0' {
      if s[1..] != "" && IsDigit(s[1]) {
        WrongForGood(s[1..][1..]);
      }
      fraction, exponent := TailParts(Zero, s[1..]);
      whole := "0";
    } else {
      whole, fraction, exponent := WholeParts(s[1..]);
      whole := [s[0]] + whole;
    }
    assert s == [s[0]] + s[1..];
  }

  lemma NumberParts(s: string) returns (sign: string, whole: string, fraction: string, exponent: string)
    requires IsJsonNumber(s)
    ensures HasParts(s, sign, whole, fraction, exponent)
  {
    if s[0] == '-' {
      sign := "-";
      whole, fraction, exponent := UnsignedParts(Minus, s[1..]);
      assert s == "-" + s[1..];
    } else {
      sign := "";
      whole, fraction, exponent := UnsignedParts(Start, s);
    }
  }

  // ---------- and whatever has them is read ----------

  lemma ExponentRead(p: Part, exponent: string)
    requires p.Zero? || p.Whole? || p.Fraction?
    requires exponent == "" || IsExponent(exponent)
    ensures Completes(p, exponent)
  {
    if exponent != "" {
      MarkedExponent(exponent[1..]);
    }
  }

  lemma {:induction false} DigitsRead(p: Part, digits: string, rest: string)
    requires (p.Whole? || p.Fraction?) && AllDigits(digits) && Completes(p, rest)
    ensures Completes(p, digits + rest)
  {
    if digits == "" {
      assert digits + rest == rest;
    } else {
      DigitsRead(p, digits[1..], rest);
      assert (digits + rest)[1..] == digits[1..] + rest;
    }
  }

  lemma TailRead(p: Part, fraction: string, exponent: string)
    requires (p.Zero? || p.Whole?) && IsTail(fraction, exponent)
    ensures Completes(p, fraction + exponent)
  {
    if fraction == "" {
      assert fraction + exponent == exponent;
      ExponentRead(p, exponent);
    } else {
      var s, digits := fraction + exponent, fraction[1..];
      ExponentRead(Fraction, exponent);
      DigitsRead(Fraction, digits[1..], exponent);
      assert s[1..] == digits + exponent && s[1..][1..] == digits[1..] + exponent;
    }
  }

  lemma UnsignedRead(whole: string, fraction: string, exponent: string)
    requires IsNatural(whole) && IsTail(fraction, exponent)
    ensures Completes(Start, whole + fraction + exponent) && Completes(Minus, whole + fraction + exponent)
  {
    var s, tail := whole + fraction + exponent, fraction + exponent;
    assert s[0] == whole[0] && s[1..] == whole[1..] + tail;
    if whole[0] == '0' {
      assert s[1..] == tail;
      TailRead(Zero, fraction, exponent);
    } else {
      TailRead(Whole, fraction, exponent);
      DigitsRead(Whole, whole[1..], tail);
    }
  }

  // A text is read as a number if and only if it is one by the productions of the standard.
  lemma NumberExact(s: string)
    ensures IsJsonNumber(s) <==>
              exists sign, whole, fraction, exponent :: HasParts(s, sign, whole, fraction, exponent)
  {
    if IsJsonNumber(s) {
      var sign, whole, fraction, exponent := NumberParts(s);
    }
    if sign, whole, fraction, exponent :| HasParts(s, sign, whole, fraction, exponent) {
      var unsigned := whole + fraction + exponent;
      UnsignedRead(whole, fraction, exponent);
      if sign == "" {
        assert s == unsigned;
      } else {
        assert s[0] == '-' && s[1..] == unsigned;
      }
    }
  }
}

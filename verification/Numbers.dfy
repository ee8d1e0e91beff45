/** Decimal integers and the number grammar of section 6 of RFC 8259. */
module Numbers {

  datatype Integer = NotAnInteger | Integer(value: int)

  predicate IsDigit(c: char) {
    '0' <= c <= '9'
  }

  predicate IsNumberChar(c: char) {
    IsDigit(c) || c in "+-.eE"
  }

  predicate AllDigits(s: string) {
    forall i :: 0 <= i < |s| ==> IsDigit(s[i])
  }

  // The length of the longest prefix of s whose characters all satisfy p.
  function Span(s: string, p: char -> bool): (n: nat)
    ensures n <= |s|
    ensures forall i :: 0 <= i < n ==> p(s[i])
    ensures n < |s| ==> !p(s[n])
  {
    if s == "" || !p(s[0]) then 0 else 1 + Span(s[1..], p)
  }

  lemma SpanOfPrefix(a: string, rest: string, p: char -> bool)
    requires forall i :: 0 <= i < |a| ==> p(a[i])
    requires rest == "" || !p(rest[0])
    ensures Span(a + rest, p) == |a|
  {
    var s := a + rest;
    assert forall i :: 0 <= i < |a| ==> s[i] == a[i];
    assert rest != "" ==> s[|a|] == rest[0];
  }

  // ---------- decimal integers ----------

  function Digit(n: int): (c: char)
    requires 0 <= n < 10
    ensures IsDigit(c) && DigitValue(c) == n
  {
    (n + '0' as int) as char
  }

  function DigitValue(c: char): (n: int)
    requires IsDigit(c)
    ensures 0 <= n < 10
  {
    c as int - '0' as int
  }

  function DecNat(n: nat): (s: string)
    ensures s != "" && AllDigits(s)
    ensures s[0] == '0' ==> n == 0 && s == "0"
  {
    if n < 10 then [Digit(n)] else DecNat(n / 10) + [Digit(n % 10)]
  }

  function ValNat(s: string): nat
    requires AllDigits(s)
  {
    if s == "" then 0 else 10 * ValNat(s[..|s| - 1]) + DigitValue(s[|s| - 1])
  }

  // How an integer is printed.
  function Dec(n: int): (s: string)
    ensures s != ""
  {
    if n < 0 then "-" + DecNat(-n) else DecNat(n)
  }

  predicate IsNatural(s: string) {
    s != "" && AllDigits(s) && (s[0] == '0' ==> |s| == 1)
  }

  // How an integer field is read: no sign on zero, no superfluous leading zero, no fraction or exponent.
  function ParseInteger(s: string): Integer {
    if IsNatural(s) then Integer(ValNat(s))
    else if s != "" && s[0] == '-' && IsNatural(s[1..]) && s != "-0" then Integer(0 - ValNat(s[1..]))
    else NotAnInteger
  }

  lemma {:induction false} ValOfDec(n: nat)
    ensures ValNat(DecNat(n)) == n
  {
    if n >= 10 {
      var s := DecNat(n);
      assert s[..|s| - 1] == DecNat(n / 10);
      ValOfDec(n / 10);
    }
  }

  lemma {:induction false} DecOfVal(s: string)
    requires IsNatural(s)
    ensures DecNat(ValNat(s)) == s
    ensures s[0] != '0' ==> ValNat(s) > 0
  {
    if |s| == 1 {
      assert s[..0] == "";
      assert ValNat(s[..0]) == 0;
      assert s == [Digit(DigitValue(s[0]))];
    } else {
      var front := s[..|s| - 1];
      DecOfVal(front);
      assert s == front + [s[|s| - 1]];
      assert ValNat(s) / 10 == ValNat(front) && ValNat(s) % 10 == DigitValue(s[|s| - 1]);
    }
  }

  // Reading is exactly the inverse of printing: a text is accepted as n if and only if it is how n is printed.
  lemma ParseIntegerExact(s: string, n: int)
    ensures ParseInteger(s) == Integer(n) <==> s == Dec(n)
  {
    if ParseInteger(s) == Integer(n) {
      if IsNatural(s) {
        DecOfVal(s);
      } else {
        DecOfVal(s[1..]);
        assert s == "-" + s[1..];
      }
    }
    if s == Dec(n) {
      if n >= 0 {
        ValOfDec(n);
      } else {
        ValOfDec(-n);
        assert s[1..] == DecNat(-n);
        assert !IsDigit(s[0]);
      }
    }
  }

  // ---------- which numeral that is ----------

  function PowerOfTen(n: nat): nat {
    if n == 0 then 1 else 10 * PowerOfTen(n - 1)
  }

  // Each digit counts by its distance from '0' and by its place.
  function Places(s: string): int {
    if s == "" then 0 else (s[0] as int - '0' as int) * PowerOfTen(|s| - 1) + Places(s[1..])
  }

  lemma {:induction false} PlacesLast(s: string, c: char)
    ensures Places(s + [c]) == 10 * Places(s) + (c as int - '0' as int)
  {
    var longer := s + [c];
    if s == "" {
      assert longer[1..] == "" && PowerOfTen(0) == 1;
    } else {
      var d := s[0] as int - '0' as int;
      PlacesLast(s[1..], c);
      assert longer[0] == s[0] && longer[1..] == s[1..] + [c];
      assert d * PowerOfTen(|s|) == 10 * (d * PowerOfTen(|s| - 1));
    }
  }

  lemma {:induction false} ValueByPlaces(s: string)
    requires AllDigits(s)
    ensures ValNat(s) == Places(s)
  {
    if s != "" {
      var front, c := s[..|s| - 1], s[|s| - 1];
      ValueByPlaces(front);
      PlacesLast(front, c);
      assert s == front + [c];
    }
  }

  // What is printed is the numeral of n in decimal: a minus sign if n is negative and then digits which, each by its
  // place, add up to n.
  lemma DecByPlaces(n: int)
    ensures var digits := if n < 0 then Dec(n)[1..] else Dec(n);
            && (n < 0 ==> Dec(n)[0] == '-') && digits != ""
            && (forall i :: 0 <= i < |digits| ==> '0' <= digits[i] <= '9')
            && Places(digits) == if n < 0 then -n else n
  {
    var m := if n < 0 then -n else n;
    ValOfDec(m);
    ValueByPlaces(DecNat(m));
    assert n < 0 ==> Dec(n)[1..] == DecNat(m);
  }

  // ---------- the number grammar ----------

  // Where in a number one is: nothing read yet, behind the sign, behind a leading zero, in the other digits, behind
  // the point, in the fraction, behind the e, behind its sign, in the exponent, or not in a number at all.
  datatype Part = Start | Minus | Zero | Whole | Point | Fraction | Mark | MarkSign | Exponent | Wrong

  function FirstDigit(c: char): Part {
    if c == '0' then Zero else if IsDigit(c) then Whole else Wrong
  }

  function AfterDigits(c: char): Part {
    if c == '.' then Point else if c == 'e' || c == 'E' then Mark else Wrong
  }

  function Next(p: Part, c: char): Part {
    match p
    case Start => if c == '-' then Minus else FirstDigit(c)
    case Minus => FirstDigit(c)
    case Zero => AfterDigits(c)
    case Whole => if IsDigit(c) then Whole else AfterDigits(c)
    case Point => if IsDigit(c) then Fraction else Wrong
    case Fraction => if IsDigit(c) then Fraction else if c == 'e' || c == 'E' then Mark else Wrong
    case Mark => if c == '+' || c == '-' then MarkSign else if IsDigit(c) then Exponent else Wrong
    case MarkSign => if IsDigit(c) then Exponent else Wrong
    case Exponent => if IsDigit(c) then Exponent else Wrong
    case Wrong => Wrong
  }

  // The rest of the text completes the number.
  predicate Completes(p: Part, s: string)
    decreases |s|
  {
    if s == "" then p.Zero? || p.Whole? || p.Fraction? || p.Exponent? else Completes(Next(p, s[0]), s[1..])
  }

  predicate IsJsonNumber(s: string) {
    Completes(Start, s)
  }

  ghost predicate NumberText(s: string) {
    forall i :: 0 <= i < |s| ==> IsNumberChar(s[i])
  }

  lemma {:induction false} CompletesChars(p: Part, s: string)
    ensures Completes(p, s) ==> NumberText(s) && !p.Wrong?
    decreases |s|
  {
    if s != "" {
      CompletesChars(Next(p, s[0]), s[1..]);
      if Completes(p, s) {
        assert s == [s[0]] + s[1..];
      }
    }
  }

  // A number is spelt with number characters only and starts with a minus sign or a digit.
  lemma NumberChars(s: string)
    requires IsJsonNumber(s)
    ensures NumberText(s) && s != "" && (s[0] == '-' || IsDigit(s[0]))
  {
    CompletesChars(Start, s);
    CompletesChars(Next(Start, s[0]), s[1..]);
  }

  lemma {:induction false} DigitsComplete(s: string)
    requires AllDigits(s)
    ensures Completes(Whole, s)
  {
    if s != "" {
      DigitsComplete(s[1..]);
    }
  }

  lemma DecIsNumber(n: int)
    ensures IsJsonNumber(Dec(n))
  {
    var digits := DecNat(if n < 0 then -n else n);
    assert digits == [digits[0]] + digits[1..];
    if digits[0] != '0' {
      DigitsComplete(digits[1..]);
    }
    assert Completes(Minus, digits) && Completes(Start, digits);
    if n < 0 {
      assert Dec(n)[1..] == digits;
    }
  }
}

/**
 * Exactly which texts are integers, and which bracketed texts are indices: optional blanks, an
 * optional sign, and digits, whose value is the sum of the digits by place.
 */
module Numerals {

  import opened Basics
  import opened CText
  import opened Convert

  // ----- digits

  const LOWER_CASE := "0123456789abcdef"
  const UPPER_CASE := "0123456789ABCDEF"

  /** c is the digit of value v, in lower or in upper case. */
  predicate IsDigit(c: char, v: nat) {
    v < 16 && (c == LOWER_CASE[v] || c == UPPER_CASE[v])
  }

  lemma DigitExactly(c: char, v: nat)
    ensures IsDigit(c, v) <==> DigitValue(c) == v < 16
  {
    assert LOWER_CASE[..10] == UPPER_CASE[..10] == "0123456789";
  }

  predicate AllDigits(digits: string, base: nat) {
    digits != "" && forall c :: c in digits ==> exists v :: 0 <= v < base && IsDigit(c, v)
  }

  /** The characters that `isspace` knows: tab, line feed, vertical tab, form feed, carriage return, blank. */
  predicate AllBlank(spaces: string) {
    forall c :: c in spaces ==> c as int in {9, 10, 11, 12, 13, 32}
  }

  lemma DigitsAre(digits: string, base: nat)
    requires base <= 16
    ensures AllDigits(digits, base) <==> digits != "" && forall k :: 0 <= k < |digits| ==> DigitValue(digits[k]) < base
  {
    forall c | c in digits
      ensures (exists v :: 0 <= v < base && IsDigit(c, v)) <==> DigitValue(c) < base
    {
      DigitExactly(c, DigitValue(c));
      if exists v :: 0 <= v < base && IsDigit(c, v) {
        var v :| 0 <= v < base && IsDigit(c, v);
        DigitExactly(c, v);
      }
    }
  }

  lemma BlanksAre(spaces: string)
    ensures AllBlank(spaces) <==> forall k :: 0 <= k < |spaces| ==> IsSpace(spaces[k])
  {
    forall k | 0 <= k < |spaces|
      ensures spaces[k] in spaces && (IsSpace(spaces[k]) <==> spaces[k] as int in {9, 10, 11, 12, 13, 32})
    {
    }
  }

  // ----- values

  function Power(base: nat, n: nat): nat {
    if n == 0 then 1 else base * Power(base, n - 1)
  }

  /** The sum of the digits, each with the power of its place. */
  function PlaceValue(digits: string, base: nat): nat {
    if digits == "" then 0
    else DigitValue(digits[0]) * Power(base, |digits| - 1) + PlaceValue(digits[1..], base)
  }

  lemma Shift(d: nat, p: nat, v: nat, base: nat, c: nat)
    ensures (d * p + v) * base + c == d * (base * p) + (v * base + c)
  {
    assert (d * p + v) * base == d * p * base + v * base;
    assert d * p * base == d * (base * p);
  }

  lemma {:induction false} FirstDigit(digits: string, base: nat)
    requires digits != ""
    ensures ValueOf(digits, base) == DigitValue(digits[0]) * Power(base, |digits| - 1) + ValueOf(digits[1..], base)
    decreases |digits|
  {
    var n := |digits| - 1;
    if n == 0 {
      assert digits[..0] == "" && digits[1..] == "";
    } else {
      var front := digits[..n];
      FirstDigit(front, base);
      assert front[1..] == digits[1..][..n - 1];
      Shift(DigitValue(digits[0]), Power(base, n - 1), ValueOf(front[1..], base), base, DigitValue(digits[n]));
    }
  }

  /** Reading digits from the left, as the C library does, adds them up by place. */
  lemma {:induction false} ValueIsPlaceValue(digits: string, base: nat)
    ensures ValueOf(digits, base) == PlaceValue(digits, base)
    decreases |digits|
  {
    if digits != "" {
      FirstDigit(digits, base);
      ValueIsPlaceValue(digits[1..], base);
    }
  }

  // ----- numerals

  datatype Numeral = Numeral(spaces: string, sign: string, digits: string)

  predicate Proper(n: Numeral, base: nat) {
    AllBlank(n.spaces) && n.sign in ["", "-", "+"] && AllDigits(n.digits, base)
  }

  function Spelled(n: Numeral): string {
    n.spaces + n.sign + n.digits
  }

  function Signed(n: Numeral, base: nat): int {
    if n.sign == "-" then -(PlaceValue(n.digits, base) as int) else PlaceValue(n.digits, base)
  }

  /** What follows a numeral does not start with a digit. */
  predicate Ends(rest: string) {
    rest != "" ==> forall v :: 0 <= v < 10 ==> !IsDigit(rest[0], v)
  }

  lemma EndsAre(rest: string)
    ensures Ends(rest) <==> rest == "" || DigitValue(rest[0]) >= 10
  {
    hide IsDigit;
    if rest != "" {
      DigitExactly(rest[0], DigitValue(rest[0]));
      forall v: nat | v < 10
        ensures IsDigit(rest[0], v) <==> DigitValue(rest[0]) == v
      {
        DigitExactly(rest[0], v);
      }
    }
  }

  lemma {:induction false} SkipsTo(s: string, i: nat, j: nat)
    requires i <= j <= |s| && forall k :: i <= k < j ==> IsSpace(s[k])
    requires j < |s| ==> !IsSpace(s[j])
    ensures SkipSpace(s, i) == j
    decreases j - i
  {
    if i < j {
      SkipsTo(s, i + 1, j);
    }
  }

  /** A decimal numeral of s: blanks up to i, a sign up to j, and digits up to e. */
  ghost predicate NumeralAt(s: string, i: nat, j: nat, e: nat) {
    && i <= j < e <= |s|
    && (forall k :: 0 <= k < i ==> IsSpace(s[k]))
    && (j == i || (j == i + 1 && s[i] in "-+"))
    && (forall k :: j <= k < e ==> DigitValue(s[k]) < 10)
    && (e < |s| ==> DigitValue(s[e]) >= 10)
  }

  lemma StrtoAt(s: string, i: nat, j: nat, e: nat)
    requires NumeralAt(s, i, j, e)
    ensures var v: int := ValueOf(s[j..e], 10);
      Strto(s, 10) == Scan(if j > i && s[i] == '-' then -v else v, e)
  {
    hide ValueOf;
    assert DigitValue(s[j]) < 10;
    SkipsTo(s, 0, i);
    RunTo(s, j, e);
  }

  lemma NumeralSlices(n: Numeral, rest: string)
    requires Proper(n, 10) && Ends(rest)
    ensures var s, i, j, e := Spelled(n) + rest, |n.spaces|, |n.spaces| + |n.sign|, |Spelled(n)|;
      && NumeralAt(s, i, j, e) && s[j..e] == n.digits && (n.sign == "-" <==> j > i && s[i] == '-')
  {
    hide AllDigits, AllBlank, IsDigit, Ends, IsSpace, DigitValue;
    var s, i, j, e := Spelled(n) + rest, |n.spaces|, |n.spaces| + |n.sign|, |Spelled(n)|;
    DigitsAre(n.digits, 10);
    BlanksAre(n.spaces);
    EndsAre(rest);
    assert s[..i] == n.spaces && s[i..j] == n.sign && s[j..e] == n.digits && s[e..] == rest;
    assert forall k :: 0 <= k < i ==> s[k] == n.spaces[k];
    assert forall k :: j <= k < e ==> s[k] == n.digits[k - j];
    assert n.sign != "" ==> s[i] == n.sign[0];
  }

  /** The C library reads a decimal numeral up to the first character that is no digit. */
  lemma StrtoReads(n: Numeral, rest: string)
    requires Proper(n, 10) && Ends(rest)
    ensures Strto(Spelled(n) + rest, 10) == Scan(Signed(n, 10), |Spelled(n)|)
  {
    hide NumeralAt, Strto, ValueOf, PlaceValue, Proper;
    NumeralSlices(n, rest);
    StrtoAt(Spelled(n) + rest, |n.spaces|, |n.spaces| + |n.sign|, |Spelled(n)|);
    ValueIsPlaceValue(n.digits, 10);
  }

  lemma RunTo(s: string, j: nat, e: nat)
    requires j <= e <= |s| && forall k :: j <= k < e ==> DigitValue(s[k]) < 10
    requires e < |s| ==> DigitValue(s[e]) >= 10
    ensures RunEnd(s, j, 10) == e
  {
    if e < |s| {
      RunStops(s, j, 10, e);
    } else {
      RunToEnd(s, j, 10);
    }
  }

  lemma StrtoFindsAt(s: string) returns (i: nat, j: nat, e: nat)
    requires Strto(s, 10).end > 0
    ensures NumeralAt(s, i, j, e) && Strto(s, 10).end == e
  {
    hide ValueOf, DigitValue, IsSpace;
    i := SkipSpace(s, 0);
    j := if i < |s| && (s[i] == '-' || s[i] == '+') then i + 1 else i;
    e := RunEnd(s, j, 10);
  }

  lemma NumeralOf(s: string, i: nat, j: nat, e: nat) returns (n: Numeral, rest: string)
    requires NumeralAt(s, i, j, e)
    ensures Proper(n, 10) && Ends(rest) && s == Spelled(n) + rest && e == |Spelled(n)|
  {
    hide AllDigits, AllBlank, IsDigit, Ends, IsSpace, DigitValue;
    n, rest := Numeral(s[..i], s[i..j], s[j..e]), s[e..];
    DigitsAre(n.digits, 10);
    BlanksAre(n.spaces);
    EndsAre(rest);
    assert j > i ==> s[i..j] == [s[i]];
  }

  /** What it reads as a decimal number is a numeral. */
  lemma StrtoFinds(s: string) returns (n: Numeral, rest: string)
    requires Strto(s, 10).end > 0
    ensures Proper(n, 10) && Ends(rest) && s == Spelled(n) + rest && Strto(s, 10).end == |Spelled(n)|
  {
    hide Proper, NumeralAt, Strto;
    var i, j, e := StrtoFindsAt(s);
    n, rest := NumeralOf(s, i, j, e);
  }

  // ----- integers

  /** Whether a text is the integer v: the empty text, a hexadecimal, an octal, or a decimal numeral. */
  ghost predicate IsInteger(s: string, v: int) {
    if s == "" then v == 0
    else if |s| >= 2 && s[0] == '0' && s[1] == 'x' then AllDigits(s[2..], 16) && v == PlaceValue(s[2..], 16)
    else if |s| >= 2 && s[0] == '0' then AllDigits(s, 8) && v == PlaceValue(s, 8)
    else exists n :: Proper(n, 10) && s == Spelled(n) && v == Signed(n, 10)
  }

  lemma HexScan(s: string)
    requires |s| >= 2 && s[0] == '0' && s[1] == 'x'
    ensures var d := s[2..];
      if d != "" && forall k :: 0 <= k < |d| ==> DigitValue(d[k]) < 16 then Strto(s, 16) == Scan(ValueOf(d, 16), |s|)
      else Strto(s, 16).end != |s|
  {
    hide ValueOf;
    var d := s[2..];
    assert SkipSpace(s, 0) == 0;
    assert forall k :: 0 <= k < |d| ==> d[k] == s[k + 2];
    if d == "" || DigitValue(d[0]) >= 16 {
      assert DigitValue('x') == 33;
      RunStops(s, 0, 16, 1);
    } else if forall k :: 0 <= k < |d| ==> DigitValue(d[k]) < 16 {
      RunToEnd(s, 2, 16);
      assert s[2..|s|] == d;
    }
  }

  lemma OctalScan(s: string)
    requires s != "" && s[0] == '0'
    ensures if forall k :: 0 <= k < |s| ==> DigitValue(s[k]) < 8 then Strto(s, 8) == Scan(ValueOf(s, 8), |s|)
      else Strto(s, 8).end != |s|
  {
    hide ValueOf;
    assert SkipSpace(s, 0) == 0;
    assert s[0..|s|] == s;
    if forall k :: 0 <= k < |s| ==> DigitValue(s[k]) < 8 {
      RunToEnd(s, 0, 8);
    }
  }

  lemma PrefixedExactly(s: string)
    requires |s| >= 2 && s[0] == '0'
    ensures var d, base := if s[1] == 'x' then s[2..] else s, if s[1] == 'x' then 16 else 8;
      && (AllDigits(d, base) <==> StringToInteger(s) != NotInteger)
      && (AllDigits(d, base) ==> StringToInteger(s) == Verdict(PlaceValue(d, base)))
  {
    hide Strto, AllDigits, ValueOf, PlaceValue, DigitValue;
    var d, base := if s[1] == 'x' then s[2..] else s, if s[1] == 'x' then 16 else 8;
    DigitsAre(d, base);
    ValueIsPlaceValue(d, base);
    if s[1] == 'x' {
      HexScan(s);
    } else {
      OctalScan(s);
    }
  }

  lemma DecimalExactly(s: string)
    requires s != "" && (|s| >= 2 ==> s[0] != '0')
    ensures forall n :: Proper(n, 10) && s == Spelled(n) ==> StringToInteger(s) == Verdict(Signed(n, 10))
    ensures StringToInteger(s) != NotInteger ==> exists n :: Proper(n, 10) && s == Spelled(n)
  {
    hide Strto, Proper, Signed, Spelled;
    forall n | Proper(n, 10) && s == Spelled(n)
      ensures StringToInteger(s) == Verdict(Signed(n, 10))
    {
      NothingEnds();
      assert Spelled(n) + "" == Spelled(n);
      StrtoReads(n, "");
    }
    if StringToInteger(s) != NotInteger {
      var n, rest := StrtoFinds(s);
      assert rest == "";
      assert Spelled(n) + rest == Spelled(n);
    }
  }

  lemma NothingEnds()
    ensures Ends("")
  {}

  /**
   * A text is an integer or out of range exactly if it is a numeral from end to end, or empty; the
   * value is what its digits add up to, and the range is that of 64 bits.
   */
  lemma IntegerExactly(s: string)
    ensures forall v :: IsInteger(s, v) ==>
      StringToInteger(s) ==
        if -0x8000_0000_0000_0000 <= v <= 0x7fff_ffff_ffff_ffff then Integer(v) else IntegerRange
    ensures StringToInteger(s) != NotInteger <==> exists v :: IsInteger(s, v)
  {
    if s == "" {
      EmptyInteger();
      assert IsInteger(s, 0);
    } else if |s| >= 2 && s[0] == '0' {
      hide StringToInteger, AllDigits, PlaceValue;
      PrefixedExactly(s);
      var d, base := if s[1] == 'x' then s[2..] else s, if s[1] == 'x' then 16 else 8;
      assert AllDigits(d, base) ==> IsInteger(s, PlaceValue(d, base));
    } else {
      hide StringToInteger, Proper, Signed, Spelled;
      DecimalExactly(s);
      forall n | Proper(n, 10) && s == Spelled(n)
        ensures IsInteger(s, Signed(n, 10))
      {
      }
    }
  }

  lemma EmptyInteger()
    ensures StringToInteger("") == Integer(0)
  {}

  /** Whether a character can stand in an integer: a blank, a sign, a digit, or the x of a prefix. */
  predicate Numeric(c: char) {
    c as int in {9, 10, 11, 12, 13, 32} || c in "+-x" || exists v :: 0 <= v < 16 && IsDigit(c, v)
  }

  lemma PartsAreNumeric(n: Numeral, base: nat)
    requires base <= 16
    ensures AllDigits(n.digits, base) ==> forall c :: c in n.digits ==> Numeric(c)
    ensures Proper(n, base) ==> forall c :: c in Spelled(n) ==> Numeric(c)
  {
    hide IsDigit;
    forall c | c in Spelled(n)
      ensures c in n.spaces || c in n.sign || c in n.digits
    {
    }
  }

  lemma IntegerIsNumeric(s: string, v: int)
    requires IsInteger(s, v)
    ensures forall k :: 0 <= k < |s| ==> Numeric(s[k])
  {
    hide IsDigit, PlaceValue, AllDigits;
    if |s| >= 2 && s[0] == '0' {
      PartsAreNumeric(Numeral("", "", s[2..]), 16);
      PartsAreNumeric(Numeral("", "", s), 8);
      DigitExactly('0', 0);
      assert s[1] == 'x' ==> forall k :: 2 <= k < |s| ==> s[k] == s[2..][k - 2];
    } else if s != "" {
      var n :| Proper(n, 10) && s == Spelled(n) && v == Signed(n, 10);
      PartsAreNumeric(n, 10);
    }
  }

  /** A text with any other character is no integer, wherever that stands. */
  lemma NumericOnly(s: string, k: nat)
    requires k < |s| && !Numeric(s[k])
    ensures StringToInteger(s) == NotInteger
  {
    hide StringToInteger, IsInteger, Numeric;
    IntegerExactly(s);
    if StringToInteger(s) != NotInteger {
      var v :| IsInteger(s, v);
      IntegerIsNumeric(s, v);
    }
  }

  /** A decimal numeral with anything but a digit behind it is no integer, however short. */
  lemma NothingBehind(v: int, c: char, rest: string)
    requires forall d :: 0 <= d < 10 ==> !IsDigit(c, d)
    requires v == 0 ==> c != 'x'
    ensures StringToInteger(Decimal(v) + [c] + rest) == NotInteger
  {
    hide Strto, Digits, IsDigit, PlaceValue, ValueOf;
    var s, more := Decimal(v) + [c] + rest, [c] + rest;
    DigitExactly(c, DigitValue(c));
    assert s == Decimal(v) + more && s[|Decimal(v)|] == c;
    if v == 0 {
      assert Decimal(0) == "0" by { ZeroText(); }
      OctalScan(s);
      assert s[1] == c;
    } else {
      var n := DecimalNumeral(v);
      StrtoReads(n, more);
      FirstNonZero(v);
      assert s[0] == Decimal(v)[0];
    }
  }

  lemma ZeroText()
    ensures Decimal(0) == "0"
  {}

  lemma FirstNonZero(v: int)
    requires v != 0
    ensures Decimal(v)[0] != '0'
  {
    assert DigitValue('0') == 0;
  }

  lemma DecimalNumeral(v: int) returns (n: Numeral)
    ensures Proper(n, 10) && Spelled(n) == Decimal(v)
  {
    hide IsDigit, AllDigits;
    n := if v < 0 then Numeral("", "-", Digits(-v, 10)) else Numeral("", "", Digits(v, 10));
    DigitsAre(n.digits, 10);
  }

  // ----- indices

  /**
   * Whether a bracketed text gives the index v: a decimal numeral right behind the bracket. Anything
   * may stand between the numeral and the closing bracket, as long as it does not start with a digit.
   */
  ghost predicate IsIndex(tok: string, v: int) {
    exists n, rest ::
      && Proper(n, 10) && Ends(rest) && tok == "[" + Spelled(n) + rest && v == Signed(n, 10)
      && rest != "" && rest[|rest| - 1] == ']'
  }

  /** No numeral, no closing bracket, a negative number, or one that is no `long`. */
  ghost predicate Malformed(tok: string) {
    forall v :: IsIndex(tok, v) ==> !(0 <= v <= 0x7fff_ffff_ffff_ffff)
  }

  lemma IndexReads(tok: string, n: Numeral, rest: string)
    requires Proper(n, 10) && Ends(rest) && tok == "[" + Spelled(n) + rest && rest != "" && rest[|rest| - 1] == ']'
    ensures ArrayIndex(tok) ==
      if 0 <= Signed(n, 10) <= 0x7fff_ffff_ffff_ffff then Some(Signed(n, 10) % 0x1_0000_0000) else None
  {
    hide Strto, Signed, Ends, AllBlank, IsDigit;
    assert tok[1..] == Spelled(n) + rest;
    StrtoReads(n, rest);
  }

  /** The value of a bracketed text as an index is that of its numeral, cut down to 32 bits; other texts have none. */
  lemma IndexExactly(tok: string)
    requires tok != ""
    ensures forall v :: IsIndex(tok, v) && 0 <= v <= 0x7fff_ffff_ffff_ffff ==>
      ArrayIndex(tok) == Some(v % 0x1_0000_0000)
    ensures ArrayIndex(tok).None? <==> Malformed(tok)
  {
    hide Strto, Signed, Ends, Proper, Spelled;
    forall v | IsIndex(tok, v)
      ensures ArrayIndex(tok) == if 0 <= v <= 0x7fff_ffff_ffff_ffff then Some(v % 0x1_0000_0000) else None
    {
      hide ArrayIndex;
      var n, rest :| Proper(n, 10) && Ends(rest) && tok == "[" + Spelled(n) + rest && v == Signed(n, 10)
                     && rest != "" && rest[|rest| - 1] == ']';
      IndexReads(tok, n, rest);
    }
    if ArrayIndex(tok).Some? {
      var n, rest := StrtoFinds(tok[1..]);
      FoundIndex(tok, n, rest);
    }
  }

  lemma FoundIndex(tok: string, n: Numeral, rest: string)
    requires tok != "" && ArrayIndex(tok).Some?
    requires Proper(n, 10) && Ends(rest) && tok[1..] == Spelled(n) + rest
    ensures IsIndex(tok, Signed(n, 10)) && 0 <= Signed(n, 10) <= 0x7fff_ffff_ffff_ffff
  {
    hide Strto, Signed, PlaceValue, Proper, Spelled;
    StrtoReads(n, rest);
    EndsInDigit(n);
    assert tok == "[" + Spelled(n) + rest;
    assert Spelled(n) + "" == Spelled(n);
    assert rest != "" && rest[|rest| - 1] == tok[|tok| - 1];
  }

  lemma EndsInDigit(n: Numeral)
    requires Proper(n, 10)
    ensures Spelled(n) != "" && Spelled(n)[|Spelled(n)| - 1] != ']'
  {
    DigitsAre(n.digits, 10);
    assert DigitValue(n.digits[|n.digits| - 1]) < 10;
  }

  lemma NoDigitAhead(s: string)
    requires s != "" && !IsSpace(s[0]) && s[0] !in "+-" && DigitValue(s[0]) >= 10
    ensures Strto(s, 10).end == 0
  {
    assert SkipSpace(s, 0) == 0;
  }

  /** "13.37" is no integer, and "[a]", "[]", "[-1]" and "[1" are no indices. */
  lemma NoNumbers()
    ensures StringToInteger("13.37") == NotInteger
    ensures ArrayIndex("[a]").None? && ArrayIndex("[]").None? && ArrayIndex("[-1]").None? && ArrayIndex("[1").None?
  {
    hide StringToInteger, Strto;
    NumericOnly("13.37", 2);
    assert "[a]"[1..] == "a]" && "[]"[1..] == "]" && "[-1]"[1..] == "-1]";
    NoDigitAhead("a]");
    NoDigitAhead("]");
    MinusOne();
  }

  lemma MinusOne()
    ensures Strto("-1]", 10) == Scan(-1, 2)
  {
    hide Strto, PlaceValue;
    var n := Numeral("", "-", "1");
    assert IsDigit('1', 1) && Spelled(n) + "]" == "-1]";
    DigitExactly(']', 36);
    assert PlaceValue("1", 10) == 1 by { OneDigit(); }
    EndsAre("]");
    StrtoReads(n, "]");
  }

  lemma OneDigit()
    ensures PlaceValue("1", 10) == 1
  {
    assert "1"[1..] == "" && Power(10, 0) == 1;
  }
}

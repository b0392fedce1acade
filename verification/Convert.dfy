/** Text to value conversion, src/convert.c, and array indices in brackets, src/sconf.c. */
module Convert {

  import opened Basics
  import opened CText

  datatype IntScan = NotInteger | IntegerRange | Integer(value: int64)

  /** `sconf_string_to_integer`: results 0, -1 and 1. */
  function StringToInteger(s: string): IntScan {
    var base := if |s| >= 2 && s[0] == '0' && s[1] == 'x' then 16
                else if |s| >= 2 && s[0] == '0' then 8
                else 10;
    var scan := Strto(s, base);
    if scan.end != |s| then NotInteger
    else if !InRange(scan.value) then IntegerRange
    else Integer(scan.value)
  }

  datatype FloatScan = NotFloat | FloatRange | FloatBits(bits: Double)

  /** `strtod` is not modelled: which texts it accepts, rejects as out of range, and their bit patterns are given. */
  type Strtod = string -> FloatScan

  /** `sconf_string_to_bool`: only a prefix of the text is compared. */
  function StringToBool(s: string): Option<bool> {
    if "true" <= s || "yes" <= s || "on" <= s then Some(true)
    else if "false" <= s || "no" <= s || "off" <= s then Some(false)
    else None
  }

  // ----- round trips

  function Decimal(v: int): string {
    if v < 0 then "-" + Digits(-v, 10) else Digits(v, 10)
  }

  function Verdict(v: int): IntScan {
    if InRange(v) then Integer(v) else IntegerRange
  }

  /** Scanning a numeral that starts at offset i and reaches the end of the text. */
  lemma StrtoNumeral(s: string, i: nat, n: nat, base: nat)
    requires IsBase(base)
    requires i <= |s| && s[i..] == Digits(n, base)
    ensures RunEnd(s, i, base) == |s| > i
    ensures ValueOf(s[i..|s|], base) == n
  {
    var d := Digits(n, base);
    assert |s| == i + |d|;
    forall k | i <= k < |s|
      ensures DigitValue(s[k]) < base
    {
      assert s[k] == s[i..][k - i] == d[k - i];
    }
    RunToEnd(s, i, base);
    assert s[i..|s|] == d;
    ValueOfDigits(n, base);
  }

  lemma DecimalScan(v: int)
    ensures Strto(Decimal(v), 10) == Scan(v, |Decimal(v)|)
  {
    hide RunEnd, ValueOf;
    var s := Decimal(v);
    var n := if v < 0 then -v else v;
    var i := if v < 0 then 1 else 0;
    assert s[i..] == Digits(n, 10);
    StrtoNumeral(s, i, n, 10);
    assert s[i] == Digits(n, 10)[0];
    assert SkipSpace(s, 0) == 0;
  }

  /** Decimal text of any integer: itself inside the 64-bit range, a range error outside. */
  lemma DecimalRoundTrip(v: int)
    ensures StringToInteger(Decimal(v)) == Verdict(v)
  {
    hide Strto, Digits;
    DecimalScan(v);
    var s := Decimal(v);
    assert v >= 0 ==> s[0] == Digits(v, 10)[0] && (DigitValue(s[0]) == 0 ==> |s| == 1);
  }

  /** "0" followed by octal digits. */
  lemma OctalRoundTrip(n: nat)
    ensures StringToInteger("0" + Digits(n, 8)) == Verdict(n)
  {
    var s := "0" + Digits(n, 8);
    assert s[1..] == Digits(n, 8);
    StrtoNumeral(s, 1, n, 8);
    assert s[1] == Digits(n, 8)[0] && DigitValue('x') == 33;
    assert s[1] != 'x';
    assert SkipSpace(s, 0) == 0;
    assert RunEnd(s, 0, 8) == RunEnd(s, 1, 8);
    assert s[0..|s|] == s && s[1..|s|] == s[1..];
    LeadingZero(s, 8);
  }

  lemma {:induction false} LeadingZero(s: string, base: nat)
    requires s != "" && s[0] == '0'
    ensures ValueOf(s, base) == ValueOf(s[1..], base)
  {
    if |s| == 1 {
      assert s[..0] == "" && s[1..] == "";
    } else {
      LeadingZero(s[..|s| - 1], base);
      assert s[..|s| - 1][1..] == s[1..][..|s| - 2];
      assert s[1..][|s| - 2] == s[|s| - 1];
    }
  }

  /** "0x" followed by lower-case hexadecimal digits. */
  lemma HexRoundTrip(n: nat)
    ensures StringToInteger("0x" + Digits(n, 16)) == Verdict(n)
  {
    var s := "0x" + Digits(n, 16);
    assert s[2..] == Digits(n, 16);
    StrtoNumeral(s, 2, n, 16);
    assert s[2] == Digits(n, 16)[0];
    assert SkipSpace(s, 0) == 0;
  }

  /** A text that starts with a letter is no integer. */
  lemma WordIsNoNumber(s: string)
    requires s != "" && DigitValue(s[0]) >= 10 && !IsSpace(s[0]) && s[0] != '-' && s[0] != '+'
    ensures StringToInteger(s) == NotInteger
  {
    assert SkipSpace(s, 0) == 0;
    assert RunEnd(s, 0, 10) == 0;
  }

  predicate StartsWith(s: string, word: string) {
    word <= s
  }

  const TRUE_WORDS := {"true", "yes", "on"}
  const FALSE_WORDS := {"false", "no", "off"}

  lemma FirstLetters(s: string, word: string)
    requires StartsWith(s, word) && |word| >= 2
    ensures |s| >= 2 && s[..2] == word[..2]
  {
    assert s[..|word|] == word;
  }

  /** No text starts with words of both kinds: the first two letters tell them apart. */
  lemma OneKindOfWord(s: string, w: string, w': string)
    requires w in TRUE_WORDS && w' in FALSE_WORDS
    ensures !(StartsWith(s, w) && StartsWith(s, w'))
  {
    assert "true"[..2] == "tr" && "yes"[..2] == "ye" && "on"[..2] == "on";
    assert "false"[..2] == "fa" && "no"[..2] == "no" && "off"[..2] == "of";
    if StartsWith(s, w) {
      FirstLetters(s, w);
    }
    if StartsWith(s, w') {
      FirstLetters(s, w');
    }
  }

  /** A text is true or false exactly if it starts with a word of that kind, whatever follows. */
  lemma BoolExactly(s: string)
    ensures StringToBool(s) == Some(true) <==> exists w :: w in TRUE_WORDS && StartsWith(s, w)
    ensures StringToBool(s) == Some(false) <==> exists w :: w in FALSE_WORDS && StartsWith(s, w)
  {
    forall w, w' | w in TRUE_WORDS && w' in FALSE_WORDS
      ensures !(StartsWith(s, w) && StartsWith(s, w'))
    {
      OneKindOfWord(s, w, w');
    }
    assert "true" in TRUE_WORDS && "yes" in TRUE_WORDS && "on" in TRUE_WORDS;
    assert "false" in FALSE_WORDS && "no" in FALSE_WORDS && "off" in FALSE_WORDS;
    assert "true" <= s ==> StartsWith(s, "true");
    assert "yes" <= s ==> StartsWith(s, "yes");
    assert "on" <= s ==> StartsWith(s, "on");
    assert "false" <= s ==> StartsWith(s, "false");
    assert "no" <= s ==> StartsWith(s, "no");
    assert "off" <= s ==> StartsWith(s, "off");
  }

  // ----- array indices in brackets

  predicate Bracketed(tok: string) {
    tok != "" && tok[0] == '['
  }

  /** `sconf_array_get_index_from_string`; the `long` is cut down to 32 bits. */
  function ArrayIndex(tok: string): Option<uint32>
    requires tok != ""
  {
    if tok[0] != '[' || tok[|tok| - 1] != ']' then None
    else
      var scan := Strto(tok[1..], 10);
      if !InRange(scan.value) || scan.end == 0 || scan.value < 0 then None
      else Some(scan.value % 0x1_0000_0000)
  }

  function IndexText(i: nat): (s: string)
    ensures Bracketed(s)
  {
    "[" + Digits(i, 10) + "]"
  }

  lemma DigitsAreNoDots(s: string)
    requires forall k :: 0 <= k < |s| ==> DigitValue(s[k]) < 10
    ensures '.' !in s
  {
    assert DigitValue('.') == 36;
  }

  /** Digits followed by a bracket are scanned up to the bracket. */
  lemma StrtoBracket(i: nat)
    ensures Strto(Digits(i, 10) + "]", 10) == Scan(i, |Digits(i, 10)|)
  {
    var d := Digits(i, 10);
    var s := d + "]";
    assert forall k :: 0 <= k < |d| ==> s[k] == d[k];
    assert s[|d|] == ']' && DigitValue(']') == 36;
    RunStops(s, 0, 10, |d|);
    assert s[0..|d|] == d;
    ValueOfDigits(i, 10);
    assert SkipSpace(s, 0) == 0;
  }

  lemma IndexTextIsToken(i: nat)
    ensures IsToken(IndexText(i))
  {
    DigitsAreNoDots(Digits(i, 10));
  }

  /** The index that a long stands for: cut down to 32 bits. */
  function CutDown(i: nat): Option<uint32> {
    if i <= INT64_MAX then Some(i % 0x1_0000_0000) else None
  }

  lemma ArrayIndexOfScan(tok: string, i: nat, end: nat)
    requires |tok| >= 2 && tok[0] == '[' && tok[|tok| - 1] == ']'
    requires Strto(tok[1..], 10) == Scan(i, end) && end > 0
    ensures ArrayIndex(tok) == CutDown(i)
  {
    hide Strto;
  }

  /**
   * A written index reads back when it has 32 bits. A larger one, as far as a long goes, reads as
   * another index: "[4294967296]" is "[0]".
   */
  lemma IndexTextReads(i: nat)
    ensures ArrayIndex(IndexText(i)) == CutDown(i)
    ensures ArrayIndex(IndexText(i)) == Some(i) <==> i < 0x1_0000_0000
  {
    hide Strto, ArrayIndex;
    var d := Digits(i, 10);
    var tok := IndexText(i);
    assert tok[1..] == d + "]";
    assert tok[|tok| - 1] == ']';
    StrtoBracket(i);
    ArrayIndexOfScan(tok, i, |d|);
  }
}

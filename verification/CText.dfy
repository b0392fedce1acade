/**
 * The parts of the C library's text handling that the configuration code relies on:
 * `strtol`/`strtoll` as specified in section 7.22.1.4 of ISO C11, and `strtok_r` with the
 * delimiter ".". Strings are C strings, so '\0' never occurs inside one.
 */
module CText {

  import opened Basics

  // ----- digits and numerals

  /** Value of an alphanumeric character as a digit; 36 when it is not one. */
  function DigitValue(c: char): nat {
    if '0' <= c <= '9' then c as int - '0' as int
    else if 'a' <= c <= 'z' then c as int - 'a' as int + 10
    else if 'A' <= c <= 'Z' then c as int - 'A' as int + 10
    else 36
  }

  function DigitChar(d: nat): (c: char)
    requires d < 16
    ensures DigitValue(c) == d
  {
    if d < 10 then ('0' as int + d) as char else ('a' as int + d - 10) as char
  }

  /** Number denoted by a string of digits, most significant first. */
  function ValueOf(digits: string, base: nat): nat {
    if digits == "" then 0
    else ValueOf(digits[..|digits| - 1], base) * base + DigitValue(digits[|digits| - 1])
  }

  /** The bases that occur: octal, decimal and hexadecimal. */
  predicate IsBase(base: nat) {
    base == 8 || base == 10 || base == 16
  }

  /** Quotient and remainder by a base. */
  function Split(n: nat, base: nat): (r: (nat, nat))
    requires IsBase(base)
    ensures r.0 * base + r.1 == n && r.1 < base
    ensures n >= base ==> 0 < r.0 < n
  {
    if base == 8 then (n / 8, n % 8) else if base == 10 then (n / 10, n % 10) else (n / 16, n % 16)
  }

  /** The numeral of n without leading zeros (lower-case letters for base 16). */
  function Digits(n: nat, base: nat): (s: string)
    requires IsBase(base)
    ensures s != ""
    ensures forall k :: 0 <= k < |s| ==> DigitValue(s[k]) < base
    ensures n > 0 ==> DigitValue(s[0]) > 0
    ensures n < base ==> |s| == 1 && DigitValue(s[0]) == n
    decreases n
  {
    if n < base then [DigitChar(n)]
    else
      var (q, r) := Split(n, base);
      Digits(q, base) + [DigitChar(r)]
  }

  /** ValueOf undoes Digits. */
  lemma {:induction false} ValueOfDigits(n: nat, base: nat)
    requires IsBase(base)
    ensures ValueOf(Digits(n, base), base) == n
    decreases n
  {
    var s := Digits(n, base);
    if n < base {
      assert s[..0] == "";
    } else {
      var (q, r) := Split(n, base);
      assert s[..|s| - 1] == Digits(q, base);
      ValueOfDigits(q, base);
    }
  }

  // ----- strtol / strtoll

  predicate IsSpace(c: char) {
    c == ' ' || '\t' <= c <= '\r'
  }

  function SkipSpace(s: string, i: nat): (j: nat)
    requires i <= |s|
    ensures i <= j <= |s|
    ensures forall k :: i <= k < j ==> IsSpace(s[k])
    ensures j < |s| ==> !IsSpace(s[j])
    decreases |s| - i
  {
    if i < |s| && IsSpace(s[i]) then SkipSpace(s, i + 1) else i
  }

  /** End of the longest run of digits of the base that starts at i. */
  function RunEnd(s: string, i: nat, base: nat): (e: nat)
    requires i <= |s|
    ensures i <= e <= |s|
    ensures forall k :: i <= k < e ==> DigitValue(s[k]) < base
    ensures e < |s| ==> DigitValue(s[e]) >= base
    decreases |s| - i
  {
    if i < |s| && DigitValue(s[i]) < base then RunEnd(s, i + 1, base) else i
  }

  /**
   * What `strtoll(s, &end, base)` sees: the exact (unclamped) value of the subject sequence and
   * the offset of `end`. Without a subject sequence the value is 0 and `end` is the string itself.
   */
  datatype Scan = Scan(value: int, end: nat)

  function Strto(s: string, base: nat): (r: Scan)
    ensures r.end <= |s|
  {
    var i := SkipSpace(s, 0);
    var negative := i < |s| && s[i] == '-';
    var j := if i < |s| && (s[i] == '-' || s[i] == '+') then i + 1 else i;
    var prefixed := base == 16 && j + 2 < |s| && s[j] == '0' && s[j + 1] in "xX" && DigitValue(s[j + 2]) < 16;
    var k := if prefixed then j + 2 else j;
    var e := RunEnd(s, k, base);
    if e == k then Scan(0, 0)
    else
      var magnitude: int := ValueOf(s[k..e], base);
      Scan(if negative then -magnitude else magnitude, e)
  }

  /** The call reports ERANGE exactly when the subject sequence is outside the type's range. */
  predicate InRange(value: int) {
    INT64_MIN <= value <= INT64_MAX
  }

  /** A run of digits that reaches the end of the string is taken whole. */
  lemma {:induction false} RunToEnd(s: string, i: nat, base: nat)
    requires i <= |s|
    requires forall k :: i <= k < |s| ==> DigitValue(s[k]) < base
    ensures RunEnd(s, i, base) == |s|
    decreases |s| - i
  {
    if i < |s| {
      RunToEnd(s, i + 1, base);
    }
  }

  /** The run stops at the first character that is no digit of the base. */
  lemma RunStops(s: string, i: nat, base: nat, e: nat)
    requires i <= e < |s|
    requires forall k :: i <= k < e ==> DigitValue(s[k]) < base
    requires DigitValue(s[e]) >= base
    ensures RunEnd(s, i, base) == e
  {
    assert RunEnd(s, i, base) == e;
  }

  // ----- strtok_r with "."

  /** First position at or after i that holds a dot, or the end. */
  function PieceEnd(s: string, i: nat): (e: nat)
    requires i <= |s|
    ensures i <= e <= |s|
    ensures '.' !in s[i..e]
    ensures e < |s| ==> s[e] == '.'
    decreases |s| - i
  {
    if i < |s| && s[i] != '.' then
      var e := PieceEnd(s, i + 1);
      assert s[i..e] == [s[i]] + s[i + 1..e];
      e
    else i
  }

  /** A token is never empty and never holds the delimiter. */
  predicate IsToken(tok: string) {
    tok != "" && '.' !in tok
  }

  /** The tokens that repeated `strtok_r` calls hand out, in order. */
  function Tokens(s: string): (toks: seq<string>)
    ensures forall tok :: tok in toks ==> IsToken(tok)
    decreases |s|
  {
    if s == "" then []
    else if s[0] == '.' then Tokens(s[1..])
    else
      var e := PieceEnd(s, 0);
      assert s[0..e] == s[..e];
      [s[..e]] + Tokens(s[e..])
  }

  function Join(toks: seq<string>): string {
    if toks == [] then ""
    else if |toks| == 1 then toks[0]
    else toks[0] + "." + Join(toks[1..])
  }

  lemma {:induction false} PieceEndOf(s: string, i: nat, e: nat)
    requires i <= e <= |s|
    requires forall k :: i <= k < e ==> s[k] != '.'
    requires e < |s| ==> s[e] == '.'
    ensures PieceEnd(s, i) == e
    decreases e - i
  {
    if i < e {
      PieceEndOf(s, i + 1, e);
    }
  }

  /** Tokenizing a dotted path gives back its segments. */
  lemma {:induction false} TokensOfJoin(toks: seq<string>)
    requires forall tok :: tok in toks ==> IsToken(tok)
    ensures Tokens(Join(toks)) == toks
  {
    if toks != [] {
      var s, e := Join(toks), |toks[0]|;
      assert IsToken(toks[0]);
      forall k | 0 <= k < e
        ensures s[k] != '.'
      {
        assert s[k] == toks[0][k];
      }
      PieceEndOf(s, 0, e);
      assert s[..e] == toks[0];
      if |toks| == 1 {
        assert s[e..] == "";
      } else {
        assert s[e..] == "." + Join(toks[1..]);
        assert s[e..][1..] == Join(toks[1..]);
        assert Tokens(s[e..]) == Tokens(Join(toks[1..]));
        TokensOfJoin(toks[1..]);
      }
    }
  }

  /** A text without dots is one token, or none if it is empty. */
  lemma OneToken(s: string)
    requires '.' !in s
    ensures Tokens(s) == if s == "" then [] else [s]
  {
    if s != "" {
      assert s[0] in s;
      forall k | 0 <= k < |s|
        ensures s[k] != '.'
      {
        assert s[k] in s;
      }
      PieceEndOf(s, 0, |s|);
      assert s[..|s|] == s && s[|s|..] == "";
    }
  }

  /**
   * A dot splits a text, wherever it stands: the tokens are those before it and those behind it. So
   * the tokens are the pieces between dots, and empty pieces do not count.
   */
  lemma {:induction false} DotSplits(s: string, s': string)
    ensures Tokens(s + "." + s') == Tokens(s) + Tokens(s')
    decreases |s|
  {
    var t := s + "." + s';
    if s == "" {
      assert t[1..] == s';
    } else if s[0] == '.' {
      assert t[1..] == s[1..] + "." + s';
      DotSplits(s[1..], s');
    } else {
      var e := PieceEnd(s, 0);
      SamePiece(s, s', e);
      assert t[..e] == s[..e] && t[e..] == s[e..] + "." + s';
      DotSplits(s[e..], s');
    }
  }

  lemma SamePiece(s: string, s': string, e: nat)
    requires s != "" && s[0] != '.' && e == PieceEnd(s, 0)
    ensures e > 0 && PieceEnd(s + "." + s', 0) == e
  {
    var t := s + "." + s';
    forall k | 0 <= k < e
      ensures t[k] != '.'
    {
      assert t[k] == s[k] && s[k] in s[0..e];
    }
    PieceEndOf(t, 0, e);
  }
}

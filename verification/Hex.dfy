/** Hexadecimal numbers and byte strings, as Python reads and prints them. */
module Hex {
  import opened Basics

  type byte = x: int | 0 <= x < 256

  const DIGITS: string := "0123456789abcdef"

  function Digit(d: nat): (c: char)
    requires d < 16
    ensures IsDigit(c) && DigitValue(c) == d && !IsUpper(c)
  {
    DIGITS[d]
  }

  predicate IsUpper(c: char) { 'A' <= c <= 'F' }

  predicate IsDigit(c: char) { '0' <= c <= '9' || 'a' <= c <= 'f' || IsUpper(c) }

  function DigitValue(c: char): (d: nat)
    requires IsDigit(c)
    ensures d < 16
  {
    if '0' <= c <= '9' then c as int - '0' as int
    else if 'a' <= c <= 'f' then c as int - 'a' as int + 10
    else c as int - 'A' as int + 10
  }

  predicate AllDigits(s: string) { forall i :: 0 <= i < |s| ==> IsDigit(s[i]) }

  predicate IsSpace(c: char) { c as int == 32 || 9 <= c as int <= 13 }

  /** The digits of `hex(n)`, without the prefix. */
  function ToHex(n: nat): (s: string)
    ensures s != "" && AllDigits(s)
  {
    if n < 16 then [Digit(n)] else ToHex(n / 16) + [Digit(n % 16)]
  }

  function Value(s: string): nat
    requires AllDigits(s)
  {
    if s == "" then 0 else 16 * Value(s[..|s| - 1]) + DigitValue(s[|s| - 1])
  }

  lemma {:induction false} ValueOfToHex(n: nat)
    ensures Value(ToHex(n)) == n
  {
    var s := ToHex(n);
    if n < 16 {
      assert s[..|s| - 1] == "";
    } else {
      ValueOfToHex(n / 16);
      assert s[..|s| - 1] == ToHex(n / 16);
    }
  }

  // int(text, 16), for text that starts with 0x

  /** Digits with single underscores in front of or between them. */
  function Numeral(s: string): Option<nat> {
    var n := |s|;
    if n == 0 || !IsDigit(s[n - 1]) then None
    else if n == 1 || (n == 2 && s[0] == '_') then Some(DigitValue(s[n - 1]))
    else
      match Numeral(if s[n - 2] == '_' then s[..n - 2] else s[..n - 1])
      case Some(v) => Some(16 * v + DigitValue(s[n - 1]))
      case None => None
  }

  /** A numeral with white space behind it. */
  function ParseInt(s: string): Option<nat> {
    if s != "" && IsSpace(s[|s| - 1]) then ParseInt(s[..|s| - 1]) else Numeral(s)
  }

  lemma {:induction false} NumeralOfDigits(s: string)
    requires s != "" && AllDigits(s)
    ensures Numeral(s) == Some(Value(s))
  {
    assert IsDigit(s[|s| - 1]);
    if |s| > 1 {
      assert IsDigit(s[|s| - 2]);
      NumeralOfDigits(s[..|s| - 1]);
    } else {
      assert s[..0] == "";
    }
  }

  lemma ParseIntOfToHex(n: nat)
    ensures ParseInt(ToHex(n)) == Some(n)
  {
    var s := ToHex(n);
    assert IsDigit(s[|s| - 1]);
    NumeralOfDigits(s);
    ValueOfToHex(n);
  }

  // bytes.hex and bytes.fromhex

  function BytesToHex(b: seq<byte>): (s: string)
    ensures |s| == 2 * |b| && AllDigits(s)
    ensures forall i :: 0 <= i < |s| ==> !IsUpper(s[i])
  {
    if b == [] then ""
    else [Digit(b[0] / 16), Digit(b[0] % 16)] + BytesToHex(b[1..])
  }

  /** Pairs of digits, with white space allowed between pairs. */
  function FromHex(s: string): Option<seq<byte>> {
    if s == "" then Some([])
    else if IsSpace(s[0]) then FromHex(s[1..])
    else if |s| >= 2 && IsDigit(s[0]) && IsDigit(s[1]) then
      match FromHex(s[2..])
      case Some(rest) => Some([16 * DigitValue(s[0]) + DigitValue(s[1])] + rest)
      case None => None
    else None
  }

  lemma {:induction false} FromHexOfBytes(b: seq<byte>)
    ensures FromHex(BytesToHex(b)) == Some(b)
  {
    if b != [] {
      FromHexOfBytes(b[1..]);
      var s := BytesToHex(b);
      assert s[2..] == BytesToHex(b[1..]);
      assert 16 * (b[0] / 16) + b[0] % 16 == b[0];
      assert [b[0]] + b[1..] == b;
    }
  }

  /** A lower-case hexadecimal text is the text of the bytes it stands for. */
  lemma {:induction false} BytesOfFromHex(s: string)
    requires AllDigits(s) && |s| % 2 == 0 && forall i :: 0 <= i < |s| ==> !IsUpper(s[i])
    ensures FromHex(s).Some? && BytesToHex(FromHex(s).value) == s
  {
    if s != "" {
      BytesOfFromHex(s[2..]);
      var rest := FromHex(s[2..]).value;
      assert IsDigit(s[0]) && IsDigit(s[1]);
      var (high, low) := (DigitValue(s[0]), DigitValue(s[1]));
      var first: byte := 16 * high + low;
      assert FromHex(s) == Some([first] + rest);
      assert first / 16 == high && first % 16 == low;
      DigitOfValue(s[0]);
      DigitOfValue(s[1]);
      assert ([first] + rest)[1..] == rest;
      assert s == [s[0], s[1]] + s[2..];
    }
  }

  lemma DigitOfValue(c: char)
    requires IsDigit(c) && !IsUpper(c)
    ensures Digit(DigitValue(c)) == c
  {
    var d := Digit(DigitValue(c));
    assert DigitValue(d) == DigitValue(c);
  }

  // Letter case and white space do not matter

  function LowerCase(s: string): (r: string)
    ensures |r| == |s|
  {
    seq(|s|, i requires 0 <= i < |s| => Lower(s[i]))
  }

  lemma LowerDigit(c: char)
    ensures IsDigit(Lower(c)) <==> IsDigit(c)
    ensures IsDigit(c) ==> DigitValue(Lower(c)) == DigitValue(c) && Digit(DigitValue(c)) == Lower(c)
    ensures IsSpace(Lower(c)) <==> IsSpace(c)
  {
    if IsDigit(c) {
      DigitOfValue(Lower(c));
    }
  }

  lemma {:induction false} NumeralAnyCase(s: string)
    ensures Numeral(LowerCase(s)) == Numeral(s)
  {
    var (n, t) := (|s|, LowerCase(s));
    if n > 0 {
      LowerDigit(s[n - 1]);
      if n > 1 {
        var m := if s[n - 2] == '_' then n - 2 else n - 1;
        assert t[..m] == LowerCase(s[..m]);
        NumeralAnyCase(s[..m]);
      }
    }
  }

  /** Upper-case and lower-case digits are read alike. */
  lemma {:induction false} ParseIntAnyCase(s: string)
    ensures ParseInt(LowerCase(s)) == ParseInt(s)
  {
    NumeralAnyCase(s);
    if s != "" {
      var n := |s| - 1;
      LowerDigit(s[n]);
      assert LowerCase(s)[..n] == LowerCase(s[..n]);
      ParseIntAnyCase(s[..n]);
    }
  }

  /** The text in lower case and without its white space. */
  ghost function Spelled(s: string): string {
    if s == "" then "" else if IsSpace(s[0]) then Spelled(s[1..]) else [Lower(s[0])] + Spelled(s[1..])
  }

  lemma {:induction false} SpelledDigits(s: string)
    requires AllDigits(s)
    ensures Spelled(s) == LowerCase(s)
  {
    if s != "" {
      assert IsDigit(s[0]);
      SpelledDigits(s[1..]);
      assert LowerCase(s) == [Lower(s[0])] + LowerCase(s[1..]);
    }
  }

  lemma SpelledFirst(c: char, rest: string)
    requires IsDigit(c)
    ensures Spelled([c] + rest) == [Lower(c)] + Spelled(rest)
  {
    assert ([c] + rest)[1..] == rest;
  }

  lemma ReadPair(s: string)
    requires s != "" && !IsSpace(s[0]) && FromHex(s).Some?
    ensures |s| >= 2 && IsDigit(s[0]) && IsDigit(s[1]) && FromHex(s[2..]).Some?
    ensures FromHex(s).value == [16 * DigitValue(s[0]) + DigitValue(s[1])] + FromHex(s[2..]).value
  {
  }

  lemma SpelledTwo(s: string)
    requires |s| >= 2 && IsDigit(s[0]) && IsDigit(s[1])
    ensures Spelled(s) == [Lower(s[0])] + ([Lower(s[1])] + Spelled(s[2..]))
  {
    var (a, b, rest) := (s[0], s[1], s[2..]);
    assert s == [a] + ([b] + rest);
    SpelledFirst(b, rest);
    SpelledFirst(a, [b] + rest);
  }

  ghost predicate IsLowerHex(s: string) {
    AllDigits(s) && |s| % 2 == 0 && forall i :: 0 <= i < |s| ==> !IsUpper(s[i])
  }

  lemma LowerHexPair(a: char, b: char, rest: string)
    requires IsDigit(a) && IsDigit(b) && !IsUpper(a) && !IsUpper(b) && IsLowerHex(rest)
    ensures IsLowerHex([a] + ([b] + rest))
  {
    var s := [a] + ([b] + rest);
    forall i | 0 <= i < |s| ensures IsDigit(s[i]) && !IsUpper(s[i]) {
      assert i >= 2 ==> s[i] == rest[i - 2];
    }
  }

  lemma FromPair(s: string, a: char, b: char, rest: string)
    requires IsDigit(a) && IsDigit(b) && FromHex(rest).Some? && s == [a] + ([b] + rest)
    ensures FromHex(s) == Some([16 * DigitValue(a) + DigitValue(b)] + FromHex(rest).value)
  {
    assert s[0] == a && s[1] == b && s[2..] == rest;
  }

  /** A text stands for the same bytes as it is spelled. */
  lemma {:induction false} SpelledAlike(s: string)
    requires FromHex(s).Some?
    ensures IsLowerHex(Spelled(s)) && FromHex(Spelled(s)) == FromHex(s)
    decreases |s|
  {
    if s != "" {
      if IsSpace(s[0]) {
        SpelledAlike(s[1..]);
      } else {
        var (a, b, rest) := (Lower(s[0]), Lower(s[1]), Spelled(s[2..]));
        ReadPair(s);
        SpelledAlike(s[2..]);
        SpelledTwo(s);
        LowerDigit(s[0]);
        LowerDigit(s[1]);
        LowerHexPair(a, b, rest);
        FromPair(Spelled(s), a, b, rest);
      }
    }
  }

  /** The bytes read from a text print as the text is spelled. */
  lemma BytesOfText(s: string)
    requires FromHex(s).Some?
    ensures BytesToHex(FromHex(s).value) == Spelled(s)
  {
    SpelledAlike(s);
    BytesOfFromHex(Spelled(s));
  }

  lemma {:induction false} FrontOfBytes(b: seq<byte>, n: nat)
    requires n <= |b|
    ensures BytesToHex(b[..n]) == BytesToHex(b)[..2 * n]
  {
    if n > 0 {
      FrontOfBytes(b[1..], n - 1);
      assert b[..n][1..] == b[1..][..n - 1];
    }
  }
}

// Decimal numerals as both the u64 identities and the release versions use them.
module Decimal {

  predicate IsDigit(c: char) { '0' <= c <= '9' }

  predicate IsDigits(s: string) { forall i :: 0 <= i < |s| ==> IsDigit(s[i]) }

  function DigitValue(c: char): nat
    requires IsDigit(c)
  {
    (c - '0') as nat
  }

  function DigitChar(d: nat): (c: char)
    requires d < 10
    ensures IsDigit(c) && DigitValue(c) == d
  {
    '0' + d as char
  }

  function Value(s: string): nat
    requires IsDigits(s)
  {
    if s == [] then 0 else Tenfold(Value(s[..|s| - 1])) + DigitValue(s[|s| - 1])
  }

  // Ten times n, as a sum: linear arithmetic wherever a numeral is unfolded.
  function Tenfold(n: nat): nat { n + n + n + n + n + n + n + n + n + n }

  function Print(n: nat): (s: string)
    ensures |s| > 0 && IsDigits(s)
  {
    if n < 10 then [DigitChar(n)] else Print(n / 10) + [DigitChar(n % 10)]
  }

  // The pattern (0|[1-9][0-9]*).
  predicate IsCanonical(s: string) { |s| > 0 && IsDigits(s) && (s[0] == '0' ==> |s| == 1) }

  lemma {:induction false} ValueOfPrint(n: nat)
    ensures IsCanonical(Print(n)) && Value(Print(n)) == n
    ensures n > 0 ==> Print(n)[0] != '0'
  {
    if n >= 10 {
      ValueOfPrint(n / 10);
      var s := Print(n);
      assert s[..|s| - 1] == Print(n / 10);
      assert s[0] == Print(n / 10)[0];
    }
  }

  lemma {:induction false} PrintOfValue(s: string)
    requires IsCanonical(s)
    ensures Print(Value(s)) == s
    ensures s[0] != '0' ==> Value(s) > 0
  {
    var init := s[..|s| - 1];
    if init == [] {
      assert s == [s[0]];
      assert Value(s) == DigitValue(s[0]);
    } else {
      assert init[0] == s[0];
      PrintOfValue(init);
      assert Value(s) / 10 == Value(init) && Value(s) % 10 == DigitValue(s[|s| - 1]);
      assert s == init + [s[|s| - 1]];
    }
  }

  // Comparing canonical numerals as text is comparing the numbers.
  lemma CanonicalIsInjective(s: string, t: string)
    requires IsCanonical(s) && IsCanonical(t)
    ensures s == t <==> Value(s) == Value(t)
  {
    PrintOfValue(s);
    PrintOfValue(t);
  }
}

/** Decimal printing of naturals (Python's `str(n)` and f-string rendering) and reading it back. */
module Decimal {

  predicate IsDigit(c: char) { '0' <= c <= '9' }

  function DigitChar(d: nat): char
    requires d < 10
  {
    '0' + (d as char)
  }

  function DigitValue(c: char): nat
    requires IsDigit(c)
  {
    (c - '0') as nat
  }

  ghost predicate AllDigits(s: string) {
    forall c <- s :: IsDigit(c)
  }

  function Print(n: nat): (s: string)
    ensures s != "" && AllDigits(s)
  {
    if n < 10 then [DigitChar(n)] else Print(n / 10) + [DigitChar(n % 10)]
  }

  /** `int(s)` for a string of ASCII digits. */
  function Read(s: string): nat
    requires AllDigits(s)
  {
    if s == "" then 0 else 10 * Read(s[..|s| - 1]) + DigitValue(s[|s| - 1])
  }

  lemma {:induction false} ReadPrint(n: nat)
    ensures Read(Print(n)) == n
  {
    if n >= 10 {
      ReadPrint(n / 10);
      assert Print(n)[..|Print(n)| - 1] == Print(n / 10);
    }
  }

  /** A numeral without leading zero is the printed form of the number it denotes. */
  lemma {:induction false} PrintRead(s: string)
    requires s != "" && AllDigits(s) && (s[0] != '0' || |s| == 1)
    ensures Print(Read(s)) == s
    ensures s[0] != '0' ==> Read(s) > 0
  {
    if |s| > 1 {
      var t := s[..|s| - 1];
      PrintRead(t);
      assert t[0] == s[0];
      var d := DigitValue(s[|s| - 1]);
      assert Read(s) / 10 == Read(t) && Read(s) % 10 == d;
      assert Print(Read(s)) == Print(Read(t)) + [DigitChar(d)];
      assert DigitChar(d) == s[|s| - 1];
      assert s == t + [s[|s| - 1]];
    } else {
      assert Read(s[..0]) == 0 && s[0] in s;
      assert Read(s) == DigitValue(s[0]);
      assert Print(Read(s)) == [DigitChar(DigitValue(s[0]))] == [s[0]];
      assert s == [s[0]];
    }
  }

  lemma {:induction false} PrintHasNoLeadingZero(n: nat)
    ensures n > 0 ==> Print(n)[0] != '0'
    ensures n == 0 ==> Print(n) == "0"
  {
    if n >= 10 { PrintHasNoLeadingZero(n / 10); }
  }

  lemma PrintInjective(a: nat, b: nat)
    requires Print(a) == Print(b)
    ensures a == b
  {
    ReadPrint(a);
    ReadPrint(b);
  }
}

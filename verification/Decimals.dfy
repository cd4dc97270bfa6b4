/** Decimal numerals without leading zeros. */
module Decimals {
  predicate IsDigit(c: char) {
    '0' <= c <= '9'
  }

  predicate AllDigits(s: string) {
    s != "" && forall i | 0 <= i < |s| :: IsDigit(s[i])
  }

  /** A zero, or digits that do not start with one. */
  predicate Numeral(s: string) {
    AllDigits(s) && (|s| > 1 ==> s[0] != '0')
  }

  function Digit(c: char): nat
    requires IsDigit(c)
  {
    c as int - '0' as int
  }

  function Value(s: string): nat
    requires AllDigits(s)
  {
    var last := Digit(s[|s| - 1]);
    if |s| == 1 then last else 10 * Value(s[..|s| - 1]) + last
  }

  function Print(n: nat): string {
    if n < 10 then ['0' + n as char] else Print(n / 10) + ['0' + (n % 10) as char]
  }

  lemma {:induction false} PrintNumeral(n: nat)
    ensures Numeral(Print(n)) && (n > 0 ==> Print(n)[0] != '0')
  {
    if n >= 10 {
      PrintNumeral(n / 10);
    }
  }

  lemma {:induction false} ValuePrint(n: nat)
    ensures AllDigits(Print(n)) && Value(Print(n)) == n
  {
    PrintNumeral(n);
    if n >= 10 {
      ValuePrint(n / 10);
      assert Print(n)[..|Print(n)| - 1] == Print(n / 10);
    }
  }

  lemma {:induction false} PrintValue(s: string)
    requires Numeral(s)
    ensures Print(Value(s)) == s
    decreases |s|
  {
    var last := s[|s| - 1];
    if |s| == 1 {
      assert s == [last];
    } else {
      var front := s[..|s| - 1];
      PrintValue(front);
      Positive(front);
      assert s == front + [last];
      assert (10 * Value(front) + Digit(last)) / 10 == Value(front);
    }
  }

  lemma {:induction false} Positive(s: string)
    requires AllDigits(s) && s[0] != '0'
    ensures Value(s) > 0
    decreases |s|
  {
    if |s| > 1 { Positive(s[..|s| - 1]); }
  }
}

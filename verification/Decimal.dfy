/** JSON integers, section 6 of RFC 8259: an optional minus, then 0 or digits without a leading zero. */
module Decimal {

  predicate IsDigit(c: char) {
    '0' <= c <= '9'
  }

  function Digit(d: nat): (c: char)
    requires d < 10
    ensures IsDigit(c) && Worth(c) == d
    ensures c == '0' <==> d == 0
  {
    ('0' as int + d) as char
  }

  function Worth(c: char): (d: nat)
    requires IsDigit(c)
    ensures d < 10 && ('0' as int + d) as char == c
  {
    c as int - '0' as int
  }

  predicate AllDigits(s: string) {
    forall k :: 0 <= k < |s| ==> IsDigit(s[k])
  }

  predicate IsNatural(s: string) {
    s != "" && AllDigits(s) && (s[0] == '0' ==> |s| == 1)
  }

  predicate IsInteger(s: string) {
    IsNatural(s) || (s != "" && s[0] == '-' && IsNatural(s[1..]))
  }

  function ParseNatural(s: string): nat
    requires AllDigits(s)
  {
    if s == "" then 0 else 10 * ParseNatural(s[..|s| - 1]) + Worth(s[|s| - 1])
  }

  function Parse(s: string): int
    requires IsInteger(s)
  {
    if s[0] == '-' then 0 - ParseNatural(s[1..]) else ParseNatural(s)
  }

  function PrintNatural(n: nat): string {
    if n < 10 then [Digit(n)] else PrintNatural(n / 10) + [Digit(n % 10)]
  }

  function Print(n: int): string {
    if n < 0 then "-" + PrintNatural(-n) else PrintNatural(n)
  }

  lemma {:induction false} PrintNaturalParses(n: nat)
    ensures IsNatural(PrintNatural(n)) && ParseNatural(PrintNatural(n)) == n
    ensures PrintNatural(n)[0] == '0' <==> n == 0
  {
    var s := PrintNatural(n);
    if n < 10 {
      assert s[..0] == "";
    } else {
      PrintNaturalParses(n / 10);
      assert s[..|s| - 1] == PrintNatural(n / 10);
      assert s[0] == PrintNatural(n / 10)[0];
    }
  }

  lemma {:induction false} ParseNaturalPrints(s: string)
    requires IsNatural(s)
    ensures PrintNatural(ParseNatural(s)) == s
    ensures ParseNatural(s) == 0 <==> s == "0"
  {
    var t := s[..|s| - 1];
    if |s| == 1 {
      assert t == "" && ParseNatural(t) == 0;
      assert ParseNatural(s) == Worth(s[0]);
    } else {
      ParseNaturalPrints(t);
      assert s == t + [s[|s| - 1]];
      assert ParseNatural(s) / 10 == ParseNatural(t) && ParseNatural(s) % 10 == Worth(s[|s| - 1]);
      assert t != "0" by {
        assert t[0] == s[0];
      }
    }
  }

  /** What is printed parses back to the same number. */
  lemma PrintParses(n: int)
    ensures IsInteger(Print(n)) && Parse(Print(n)) == n
  {
    if n < 0 {
      PrintNaturalParses(-n);
      assert Print(n)[1..] == PrintNatural(-n);
    } else {
      PrintNaturalParses(n);
    }
  }

  /** Every JSON integer is its number's only spelling, but for minus zero. */
  lemma ParsePrints(s: string)
    requires IsInteger(s)
    ensures Print(Parse(s)) == s <==> s != "-0"
  {
    if s[0] == '-' {
      ParseNaturalPrints(s[1..]);
      assert s == "-" + s[1..];
      if s != "-0" {
        assert s[1..] != "0";
      }
    } else {
      ParseNaturalPrints(s);
    }
  }

  /** So a number has its print, zero has minus zero too, and no other integer means it. */
  lemma SpelledOnlyAs(s: string, n: int)
    ensures IsInteger(s) && Parse(s) == n <==> s == Print(n) || (n == 0 && s == "-0")
  {
    PrintParses(n);
    if IsInteger(s) {
      ParsePrints(s);
    }
    assert "-0"[1..] == "0" && IsNatural("0") && ParseNatural("0") == 0;
  }
}

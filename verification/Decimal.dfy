/** Canonical decimal text of integers, and its parser. */
module Decimal {
  import opened Prelude

  function PrintNat(n: nat): (s: Bytes) {
    if n < 10 then [48 + n] else PrintNat(n / 10) + [48 + n % 10]
  }

  function PrintInt(n: int): (s: Bytes) {
    if n < 0 then [45] + PrintNat(-n) else PrintNat(n)
  }

  function ParseNat(s: Bytes): (n: nat)
    requires AllDigits(s)
  {
    if s == [] then 0 else 10 * ParseNat(s[..|s| - 1]) + (s[|s| - 1] - 48)
  }

  /** A nonempty digit run without a superfluous leading zero. */
  predicate IsCanonical(s: Bytes) {
    s != [] && AllDigits(s) && (|s| == 1 || s[0] != 48)
  }

  lemma {:induction false} ParsePrint(n: nat)
    ensures IsCanonical(PrintNat(n)) && ParseNat(PrintNat(n)) == n
    ensures n > 0 ==> PrintNat(n)[0] != 48
  {
    if n >= 10 {
      ParsePrint(n / 10);
      var s := PrintNat(n);
      assert s[..|s| - 1] == PrintNat(n / 10);
    } else {
      assert PrintNat(n)[..0] == [];
    }
  }

  lemma {:induction false} PositiveUnlessZero(s: Bytes)
    requires AllDigits(s) && s != [] && s[0] != 48
    ensures ParseNat(s) > 0
  {
    if |s| > 1 { PositiveUnlessZero(s[..|s| - 1]); }
  }

  lemma {:induction false} PrintParse(s: Bytes)
    requires IsCanonical(s)
    ensures PrintNat(ParseNat(s)) == s
  {
    var front, last := s[..|s| - 1], s[|s| - 1];
    assert s == front + [last];
    if |s| == 1 {
      assert front == [];
    } else {
      PositiveUnlessZero(front);
      PrintParse(front);
      assert ParseNat(s) / 10 == ParseNat(front) && ParseNat(s) % 10 == last - 48;
    }
  }

  lemma PrintIntInjective(a: int, b: int)
    requires PrintInt(a) == PrintInt(b)
    ensures a == b
  {
    ParsePrint(if a < 0 then -a else a);
    ParsePrint(if b < 0 then -b else b);
    assert PrintNat(if a < 0 then -a else a)[0] != 45 && PrintNat(if b < 0 then -b else b)[0] != 45;
    if a < 0 {
      assert PrintInt(a)[0] == 45;
      assert PrintInt(a)[1..] == PrintNat(-a);
      assert PrintInt(b)[1..] == PrintNat(-b);
    }
  }
}

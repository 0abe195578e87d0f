/**
 * Decimal rendering of a non-negative integer, as `format!("{}", n)` writes
 * a `usize`, together with its parser; the round trip makes the rendering
 * injective, which is what keeps numbered file names apart.
 */
module Decimal {
  function DigitChar(d: nat): (c: char)
    requires d < 10
    ensures '0' <= c <= '9'
  {
    ('0' as int + d) as char
  }

  function DigitValue(c: char): int {
    c as int - '0' as int
  }

  /** The digits of `n`, most significant first, with no leading zero. */
  function Render(n: nat): (s: string)
    ensures |s| > 0
    ensures forall i :: 0 <= i < |s| ==> '0' <= s[i] <= '9'
    ensures |s| > 1 ==> s[0] != '0'
  {
    if n < 10 then [DigitChar(n)] else Render(n / 10) + [DigitChar(n % 10)]
  }

  function Parse(s: string): int {
    if s == [] then 0 else Parse(s[..|s| - 1]) * 10 + DigitValue(s[|s| - 1])
  }

  lemma {:induction false} ParseRender(n: nat)
    ensures Parse(Render(n)) == n
  {
    var s := Render(n);
    if n >= 10 {
      ParseRender(n / 10);
      assert s[..|s| - 1] == Render(n / 10);
    }
  }

  lemma RenderInjective(a: nat, b: nat)
    requires Render(a) == Render(b)
    ensures a == b
  {
    ParseRender(a);
    ParseRender(b);
  }
}

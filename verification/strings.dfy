/** The string operations the components share, over a caller's notion of white space. */
module Strings {
  import opened Sequences

  function StripLeft(isSpace: char -> bool, s: string): string {
    if s != "" && isSpace(s[0]) then StripLeft(isSpace, s[1..]) else s
  }

  function StripRight(isSpace: char -> bool, s: string): string {
    if s != "" && isSpace(Last(s)) then StripRight(isSpace, Init(s)) else s
  }

  function Strip(isSpace: char -> bool, s: string): string {
    StripRight(isSpace, StripLeft(isSpace, s))
  }

  /** The offset of the first character satisfying `p`, or the length. */
  function FirstIndex(p: char -> bool, s: string): (i: nat)
    ensures i <= |s|
    ensures forall k :: 0 <= k < i ==> !p(s[k])
    ensures i < |s| ==> p(s[i])
  {
    if s == "" || p(s[0]) then 0 else 1 + FirstIndex(p, s[1..])
  }

  predicate OccursAt(text: string, fragment: string, i: nat) {
    i + |fragment| <= |text| && text[i..i + |fragment|] == fragment
  }

  predicate Contains(text: string, fragment: string) {
    exists i :: 0 <= i <= |text| && OccursAt(text, fragment, i)
  }

  function JoinLines(parts: seq<string>): string {
    if parts == [] then "" else if |parts| == 1 then parts[0]
    else parts[0] + "\n" + JoinLines(parts[1..])
  }

  /** A number in decimal digits. */
  function Decimal(n: nat): string {
    if n < 10 then [Digit(n)] else Decimal(n / 10) + [Digit(n % 10)]
  }

  function Digit(d: nat): char
    requires d < 10
  {
    "0123456789"[d]
  }

  lemma {:induction false} DecimalInjective(m: nat, n: nat)
    requires Decimal(m) == Decimal(n)
    ensures m == n
  {
    assert Last(Decimal(m)) == Digit(m % 10) && Last(Decimal(n)) == Digit(n % 10);
    assert |Decimal(m)| == 1 <==> m < 10;
    assert |Decimal(n)| == 1 <==> n < 10;
    if m >= 10 {
      assert Init(Decimal(m)) == Decimal(m / 10) && Init(Decimal(n)) == Decimal(n / 10);
      DecimalInjective(m / 10, n / 10);
    }
  }
}

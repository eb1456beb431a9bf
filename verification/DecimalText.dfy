/** Decimal numbers as text, and text joined by a separator that its parts lack. */
module DecimalText {

  function Digits(n: nat): (s: string)
    ensures s != []
  {
    (if n < 10 then [] else Digits(n / 10)) + ['0' + (n % 10) as char]
  }

  lemma {:induction false} DigitsOk(n: nat)
    ensures forall i | 0 <= i < |Digits(n)| :: '0' <= Digits(n)[i] <= '9'
  {
    if n >= 10 {
      DigitsOk(n / 10);
    }
  }

  lemma {:induction false} DigitsInjective(m: nat, n: nat)
    requires Digits(m) == Digits(n)
    ensures m == n
  {
    var s := Digits(m);
    assert s[|s| - 1] == '0' + (m % 10) as char && s[|s| - 1] == '0' + (n % 10) as char;
    assert m % 10 == n % 10;
    if m >= 10 && n >= 10 {
      assert s[..|s| - 1] == Digits(m / 10) && s[..|s| - 1] == Digits(n / 10);
      DigitsInjective(m / 10, n / 10);
    }
  }

  predicate Lacks(c: char, s: string) {
    forall i | 0 <= i < |s| :: s[i] != c
  }

  lemma {:induction false} NotBefore(c: char, a: string, x: string, i: nat)
    requires Lacks(c, a) && i <= |a| + |x| && (a + ([c] + x))[i] == c
    ensures i >= |a|
  {
  }

  /** The first separator ends the first part. */
  lemma {:induction false} SplitAt(c: char, a: string, x: string, b: string, y: string)
    requires Lacks(c, a) && Lacks(c, b) && a + ([c] + x) == b + ([c] + y)
    ensures a == b && x == y
  {
    var s := a + ([c] + x);
    assert s[|a|] == c && s[|b|] == c;
    NotBefore(c, a, x, |b|);
    NotBefore(c, b, y, |a|);
    assert s[..|a|] == a && s[..|b|] == b;
    assert s[|a| + 1..] == x && s[|b| + 1..] == y;
  }
}

/** Multiplication, division and digits. */
module Numbers {
  lemma MulPositive(a: nat, b: nat)
    requires a > 0 && b > 0
    ensures a * b > 0
  {
  }

  lemma MulMono(a: nat, b: nat, c: nat)
    requires a <= b
    ensures a * c <= b * c
  {
  }

  lemma MulAssoc(a: nat, b: nat, c: nat)
    ensures a * (b * c) == (a * b) * c
  {
  }

  lemma Distribute(a: int, b: int, c: int)
    ensures (a + b) * c == a * c + b * c
  {
  }

  lemma DivMod(x: nat, s: nat)
    requires s > 0
    ensures x - (x / s) * s == x % s
  {
  }

  /** Quotient and remainder are unique. */
  lemma DivUnique(x: nat, s: nat, q: nat, r: nat)
    requires s > 0 && x == q * s + r && r < s
    ensures x / s == q && x % s == r
  {
    var q' := x / s;
    assert x == q' * s + x % s;
    if q < q' { MulMono(q + 1, q', s); Distribute(q, 1, s); }
    if q' < q { MulMono(q' + 1, q, s); Distribute(q', 1, s); }
  }

  /** The number of values that fit in n bytes. */
  function Limit(n: nat): nat {
    if n == 0 then 1 else 256 * Limit(n - 1)
  }

  lemma {:induction false} LimitPositive(n: nat)
    ensures Limit(n) > 0
  {
    if n > 0 { LimitPositive(n - 1); }
  }

  predicate IsDigit(c: char) {
    '0' <= c <= '9'
  }

  /** The decimal digits of a number. */
  function Str(n: nat): (s: string)
    ensures s != []
  {
    if n < 10 then [Digit(n)] else Str(n / 10) + [Digit(n % 10)]
  }

  function Digit(n: nat): (c: char)
    requires n < 10
    ensures IsDigit(c) && (c - '0') as nat == n
  {
    '0' + n as char
  }
}

/** Quotients of quotients, for loops that go from digit to digit. */
module Division {

  lemma Quotient(n: nat, d: nat, q: nat, r: nat)
    requires d > 0 && n == q * d + r && r < d
    ensures n / d == q
  {
    var e := n / d - q;
    assert e * d == r - n % d;
    assert 0 - d < e * d < d;
  }

  lemma DivideAgain(n: nat, d: nat, base: nat)
    requires d > 0 && base > 0
    ensures n / (base * d) == n / d / base
  {
    var q, r := n / d, n % d;
    Spread(q, q / base, q % base, base, d);
    KeepsBelow(q % base, d, r, base);
    Quotient(n, base * d, q / base, q % base * d + r);
  }

  lemma Spread(q: nat, h: nat, k: nat, base: nat, d: nat)
    requires q == base * h + k
    ensures q * d == h * (base * d) + k * d
  {
    assert base * h * d == h * (base * d);
  }

  lemma KeepsBelow(k: nat, d: nat, r: nat, base: nat)
    requires k < base && r < d
    ensures 0 <= k * d + r < base * d
  {
    assert k * d <= (base - 1) * d;
  }
}

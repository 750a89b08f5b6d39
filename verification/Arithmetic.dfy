/** Facts about products that the solver does not find by itself. */
module Arithmetic {

  lemma TimesGrows(p: nat, a: int, b: int)
    requires a <= b
    ensures p * a <= p * b && a * p <= b * p
  {
  }

  lemma ModUnique(n: nat, p: nat, c: nat, r: nat)
    requires p > 0 && n == p * c + r && r < p
    ensures n % p == r
  {
    var c', r' := n / p, n % p;
    assert n == p * c' + r';
    if c' > c { TimesGrows(p, c + 1, c'); }
    if c' < c { TimesGrows(p, c' + 1, c); }
  }
}

/** Powers of two. */
module Powers {

  function Pow2(n: nat): (r: nat)
    ensures r >= 1
  {
    if n == 0 then 1 else 2 * Pow2(n - 1)
  }

  lemma {:induction false} Pow2Add(a: nat, b: nat)
    ensures Pow2(a + b) == Pow2(a) * Pow2(b)
  {
    if a > 0 { Pow2Add(a - 1, b); }
  }

  lemma {:induction false} Pow2Monotone(a: nat, b: nat)
    requires a <= b
    ensures Pow2(a) <= Pow2(b)
    decreases b - a
  {
    if a < b { Pow2Monotone(a + 1, b); }
  }

  lemma Pow2Gap(a: nat, b: nat, c: nat)
    requires a > b >= c
    ensures Pow2(a) - Pow2(b) >= Pow2(c)
  {
    Pow2Monotone(b + 1, a);
    Pow2Monotone(c, b);
  }

  lemma Pow2Ten()
    ensures Pow2(10) == 1024
  {
  }
}

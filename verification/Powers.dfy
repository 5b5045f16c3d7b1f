/** Powers of integers. */
module Powers {

  function Pow(b: int, n: nat): (r: int)
    ensures b > 0 ==> r > 0
  {
    if n == 0 then 1 else b * Pow(b, n - 1)
  }

  lemma {:induction false} PowGrows(b: int, m: nat, n: nat)
    requires b > 0 && m <= n
    ensures Pow(b, m) <= Pow(b, n)
  {
    if m < n {
      PowGrows(b, m, n - 1);
      AtLeast(b, Pow(b, n - 1));
    }
  }

  lemma AtLeast(b: int, p: int)
    requires b > 0 && p >= 0
    ensures b * p >= p
  {
  }
}

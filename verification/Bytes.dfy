/** Big-endian byte strings. */
module Bytes {
  import opened Powers

  type Byte = x: int | 0 <= x < 256

  /** The number a byte string denotes, most significant byte first. */
  function BigEndian(k: seq<Byte>): nat {
    if k == [] then 0 else BigEndian(k[..|k| - 1]) * 256 + k[|k| - 1]
  }

  /** The shortest byte string of a number; none at all for 0. */
  function Shortest(n: nat): seq<Byte> {
    if n == 0 then [] else Shortest(n / 256) + [n % 256]
  }

  lemma {:induction false} ShortestRoundTrip(n: nat)
    ensures BigEndian(Shortest(n)) == n
  {
    if n > 0 {
      ShortestRoundTrip(n / 256);
      assert (Shortest(n / 256) + [n % 256])[..|Shortest(n / 256)|] == Shortest(n / 256);
    }
  }

  lemma {:induction false} ShortestHasNoZero(n: nat)
    ensures Shortest(n) != [] ==> Shortest(n)[0] != 0
  {
    if n >= 256 {
      ShortestHasNoZero(n / 256);
      assert Shortest(n / 256) != [];
    } else if n > 0 {
      assert Shortest(n / 256) == [];
    }
  }

  lemma {:induction false} ShortestLength(n: nat, k: nat)
    requires n < Pow(256, k)
    ensures |Shortest(n)| <= k
  {
    if n > 0 {
      ShortestLength(n / 256, k - 1);
    }
  }
}

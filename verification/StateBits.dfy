/** The 1600 bits of a state as one string, lane after lane, as in section 3.1.2 of FIPS 202. */
module StateBits {
  import opened Words
  import opened KeccakSpec
  import opened Sponge

  function BitOf(s: State, n: nat): bool
    requires n < 1600
  {
    s[n / 64][n % 64]
  }

  /** Byte j of the state is bits 8j to 8j + 7 of the string. */
  lemma StateByteBits(s: State, j: nat, z: nat)
    requires j < 200 && z < 8
    ensures StateByte(s, j)[z] == BitOf(s, 8 * j + z)
  {
    LanePlace(j, z);
  }

  lemma LanePlace(j: nat, z: nat)
    requires z < 8
    ensures (8 * j + z) / 64 == j / 8 && (8 * j + z) % 64 == 8 * (j % 8) + z
  {
    assert 8 * j + z == 64 * (j / 8) + (8 * (j % 8) + z);
  }

  /** Absorbing byte j flips exactly those of its bits that are set. */
  lemma XorByteBits(s: State, j: nat, b: Byte, n: nat)
    requires j < 200 && n < 1600
    ensures BitOf(XorByte(s, j, b), n) == (BitOf(s, n) != (8 * j <= n < 8 * j + 8 && b[n - 8 * j]))
  {
    var i, z := n / 8, n % 8;
    LanePlace(i, z);
    assert n == 8 * i + z;
    assert i == j <==> 8 * j <= n < 8 * j + 8;
    assert i / 8 == j / 8 ==> (i == j <==> i % 8 == j % 8);
  }
}

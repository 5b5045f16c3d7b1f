/**
 Bytes and 64-bit words as bit strings, least significant bit first, so that bit z of a lane
 is the z of FIPS 202's A[x, y, z] and byte i of a lane is bits 8i to 8i + 7.
 */
module Words {

  type Byte = b: seq<bool> | |b| == 8 witness seq(8, z => false)
  type Word = w: seq<bool> | |w| == 64 witness seq(64, z => false)

  function Zero(): Word {
    seq(64, z => false)
  }

  function Xor(a: Word, b: Word): Word
  {
    seq(64, z requires 0 <= z < 64 => a[z] != b[z])
  }

  function Or(a: Word, b: Word): Word
  {
    seq(64, z requires 0 <= z < 64 => a[z] || b[z])
  }

  /** Go's a &^ b. */
  function AndNot(a: Word, b: Word): Word
  {
    seq(64, z requires 0 <= z < 64 => a[z] && !b[z])
  }

  function Shl(a: Word, n: nat): Word
  {
    seq(64, z requires 0 <= z < 64 => z >= n && a[z - n])
  }

  function Shr(a: Word, n: nat): Word
  {
    seq(64, z requires 0 <= z < 64 => z + n < 64 && a[z + n])
  }

  lemma SameWord(a: Word, b: Word)
    requires forall z :: 0 <= z < 64 ==> a[z] == b[z]
    ensures a == b
  {
  }

  lemma XorAssociates(a: Word, b: Word, c: Word)
    ensures Xor(Xor(a, b), c) == Xor(a, Xor(b, c))
  {
  }

  function Xor5(a: Word, b: Word, c: Word, d: Word, e: Word): Word {
    Xor(Xor(Xor(Xor(a, b), c), d), e)
  }
}

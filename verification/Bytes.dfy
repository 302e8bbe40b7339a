/** Bytes, exclusive or, and big-endian numbers of a fixed number of bytes. */
module Bytes {

  newtype byte = x: int | 0 <= x < 256

  // The low `k` bits of the exclusive or of two numbers.
  function XorBits(a: nat, b: nat, k: nat): (r: nat)
    ensures r < Pow2(k)
  {
    if k == 0 then 0 else 2 * XorBits(a / 2, b / 2, k - 1) + (a % 2 + b % 2) % 2
  }

  function Pow2(k: nat): nat {
    if k == 0 then 1 else 2 * Pow2(k - 1)
  }

  function Xor(a: byte, b: byte): byte {
    assert Pow2(8) == 2 * (2 * (2 * (2 * Pow2(4))));
    XorBits(a as nat, b as nat, 8) as byte
  }

  lemma BitTwice(x: nat, y: nat)
    requires x < 2 && y < 2
    ensures ((x + y) % 2 + y) % 2 == x
  {
  }

  lemma LowBit(low: nat, bit: nat)
    requires bit < 2
    ensures (2 * low + bit) / 2 == low && (2 * low + bit) % 2 == bit
  {
  }

  lemma XorStep(low: nat, bit: nat, b: nat, k: nat)
    requires bit < 2 && k > 0
    ensures XorBits(2 * low + bit, b, k) == 2 * XorBits(low, b / 2, k - 1) + (bit + b % 2) % 2
  {
    LowBit(low, bit);
  }

  lemma {:induction false} XorBitsTwice(a: nat, b: nat, k: nat)
    requires a < Pow2(k)
    ensures XorBits(XorBits(a, b, k), b, k) == a
  {
    if k > 0 {
      var low, bit := XorBits(a / 2, b / 2, k - 1), (a % 2 + b % 2) % 2;
      assert XorBits(a, b, k) == 2 * low + bit;
      XorBitsTwice(a / 2, b / 2, k - 1);
      hide XorBits, Pow2;
      XorStep(low, bit, b, k);
      BitTwice(a % 2, b % 2);
    }
  }

  // Applying a mask byte twice gives the byte back.
  lemma XorTwice(a: byte, b: byte)
    ensures Xor(Xor(a, b), b) == a
  {
    assert Pow2(8) == 2 * (2 * (2 * (2 * Pow2(4))));
    XorBitsTwice(a as nat, b as nat, 8);
  }

  // Bit `j` of a number, counted from the lowest.
  function Bit(n: nat, j: nat): nat {
    if j == 0 then n % 2 else Bit(n / 2, j - 1)
  }

  // Bit by bit, a byte is 1 exactly where two others differ.
  ghost predicate Differing(c: byte, a: byte, b: byte) {
    forall j :: 0 <= j < 8 ==> BitDiffers(c, a, b, j)
  }

  ghost predicate BitDiffers(c: byte, a: byte, b: byte, j: nat) {
    Bit(c as nat, j) == 1 <==> Bit(a as nat, j) != Bit(b as nat, j)
  }

  lemma {:induction false} BitIsBit(n: nat, j: nat)
    ensures Bit(n, j) < 2
  {
    if j > 0 {
      BitIsBit(n / 2, j - 1);
    }
  }

  lemma {:induction false} XorBitsDiffer(a: nat, b: nat, k: nat, j: nat)
    requires j < k
    ensures Bit(XorBits(a, b, k), j) == 1 <==> Bit(a, j) != Bit(b, j)
  {
    var low, bit := XorBits(a / 2, b / 2, k - 1), (a % 2 + b % 2) % 2;
    assert XorBits(a, b, k) == 2 * low + bit;
    LowBit(low, bit);
    if j > 0 {
      XorBitsDiffer(a / 2, b / 2, k - 1, j - 1);
    }
  }

  lemma XorDiffers(a: byte, b: byte)
    ensures Differing(Xor(a, b), a, b)
  {
    forall j | 0 <= j < 8
      ensures BitDiffers(Xor(a, b), a, b, j)
    {
      XorBitsDiffer(a as nat, b as nat, 8, j);
    }
  }

  ghost predicate SameBit(a: nat, b: nat, j: nat) { Bit(a, j) == Bit(b, j) }

  // A number of `k` bits is known by them.
  lemma {:induction false} BitsDecide(a: nat, b: nat, k: nat)
    requires a < Pow2(k) && b < Pow2(k) && forall j :: 0 <= j < k ==> SameBit(a, b, j)
    ensures a == b
  {
    if k > 0 {
      assert SameBit(a, b, 0);
      forall j | 0 <= j < k - 1
        ensures SameBit(a / 2, b / 2, j)
      {
        assert SameBit(a, b, j + 1);
      }
      BitsDecide(a / 2, b / 2, k - 1);
    }
  }

  lemma EightBits(a: byte)
    ensures a as nat < Pow2(8)
  {
    assert Pow2(8) == 2 * (2 * (2 * (2 * Pow2(4))));
  }

  // So the exclusive or is the only byte that differs in this way.
  lemma DifferingIsXor(c: byte, a: byte, b: byte)
    requires Differing(c, a, b)
    ensures c == Xor(a, b)
  {
    XorDiffers(a, b);
    var x := Xor(a, b);
    var m, n := c as nat, x as nat;
    hide Xor;
    forall j | 0 <= j < 8
      ensures SameBit(m, n, j)
    {
      assert BitDiffers(c, a, b, j) && BitDiffers(x, a, b, j);
      BitIsBit(m, j);
      BitIsBit(n, j);
    }
    EightBits(c);
    EightBits(x);
    BitsDecide(m, n, 8);
  }

  function Pow256(k: nat): nat {
    if k == 0 then 1 else 256 * Pow256(k - 1)
  }

  // The `k` low-order bytes of `n`, most significant first.
  function BigEndian(n: nat, k: nat): (r: seq<byte>)
    ensures |r| == k
  {
    if k == 0 then [] else BigEndian(n / 256, k - 1) + [(n % 256) as byte]
  }

  function FromBigEndian(s: seq<byte>): nat {
    if s == [] then 0 else 256 * FromBigEndian(s[..|s| - 1]) + s[|s| - 1] as nat
  }

  lemma {:induction false} BigEndianRead(n: nat, k: nat)
    requires n < Pow256(k)
    ensures FromBigEndian(BigEndian(n, k)) == n
  {
    if k > 0 {
      BigEndianRead(n / 256, k - 1);
      assert BigEndian(n, k)[..k - 1] == BigEndian(n / 256, k - 1);
    }
  }

  lemma {:induction false} BigEndianWritten(s: seq<byte>)
    ensures FromBigEndian(s) < Pow256(|s|)
    ensures BigEndian(FromBigEndian(s), |s|) == s
  {
    if s != [] {
      BigEndianWritten(s[..|s| - 1]);
    }
  }

  lemma TwoBytes(s: seq<byte>)
    requires |s| == 2
    ensures FromBigEndian(s) == 256 * s[0] as nat + s[1] as nat
  {
    PairAtEnd(s);
    assert s[..0] == [];
  }

  lemma EightBytes(s: seq<byte>)
    requires |s| == 8
    ensures FromBigEndian(s) == 0x1_0000_0000_0000 * (256 * s[0] as nat + s[1] as nat) + 0x1_0000_0000 * (256 * s[2] as nat + s[3] as nat)
                              + 0x1_0000 * (256 * s[4] as nat + s[5] as nat) + (256 * s[6] as nat + s[7] as nat)
  {
    PairAtEnd(s);
    PairAtEnd(s[..6]);
    PairAtEnd(s[..4]);
    PairAtEnd(s[..2]);
    assert s[..6][..4] == s[..4] && s[..4][..2] == s[..2] && s[..2][..0] == [];
    hide FromBigEndian;
    assert FromBigEndian([]) == 0 by { NoBytes(); }
  }

  lemma NoBytes()
    ensures FromBigEndian([]) == 0
  {
  }

  lemma PairAtEnd(s: seq<byte>)
    requires |s| >= 2
    ensures var n := |s|; FromBigEndian(s) == 0x1_0000 * FromBigEndian(s[..n - 2]) + (256 * s[n - 2] as nat + s[n - 1] as nat)
  {
    assert s[..|s| - 1][..|s| - 2] == s[..|s| - 2];
  }

  lemma Widths()
    ensures Pow256(2) == 0x1_0000 && Pow256(8) == 0x1_0000_0000_0000_0000
  {
    assert Pow256(4) == 0x1_0000_0000;
    assert Pow256(6) == 0x1_0000_0000_0000;
  }
}

/** What the bit operations and the layout of P mean as arithmetic on bytes. */
module Bits {
  import opened Machine

  /** 1 doubled `k` times. */
  function Pow2(k: nat): (p: nat)
    ensures p > 0
  {
    if k == 0 then 1 else 2 * Pow2(k - 1)
  }

  lemma Powers()
    ensures Pow2(0) == 1 && Pow2(1) == 2 && Pow2(2) == 4 && Pow2(3) == 8
    ensures Pow2(4) == 16 && Pow2(5) == 32 && Pow2(6) == 64 && Pow2(7) == 128
  {
    assert Pow2(2) == 4;
    assert Pow2(4) == 16;
    assert Pow2(6) == 64;
  }

  lemma BitMaskIsPow2(k: nat)
    requires k < 8
    ensures BitMask(k) == Pow2(k)
  {
    hide Pow2;
    Powers();
  }

  /** Bit `k` of a byte. */
  function BitOf(x: byte, k: nat): nat {
    x / Pow2(k) % 2
  }

  lemma Parity(a: nat, b: nat)
    ensures (2 * a + b) % 2 == b % 2
  {}

  lemma Shifted(h: nat, l: nat)
    ensures var x := 16 * h + l; x / 2 == 8 * h + l / 2 && x / 4 == 4 * h + l / 4 && x / 8 == 2 * h + l / 8
  {}

  lemma LowBits(h: nat, l: nat)
    ensures var x := 16 * h + l; x % 2 == l % 2 && x / 2 % 2 == l / 2 % 2 && x / 4 % 2 == l / 4 % 2 && x / 8 % 2 == l / 8 % 2
  {
    Shifted(h, l);
    Parity(8 * h, l);
    Parity(4 * h, l / 2);
    Parity(2 * h, l / 4);
    Parity(h, l / 8);
  }

  lemma HighBits(h: nat, l: nat)
    requires l < 16
    ensures var x := 16 * h + l; x / 16 == h && x / 32 == h / 2 && x / 64 == h / 4 && x / 128 == h / 8
  {}

  lemma NibbleBits4(p: bool, q: bool, r: bool, s: bool)
    ensures var h := Nibble(p, q, r, s);
            h % 2 == Weight(s, 1) && h / 2 % 2 == Weight(r, 1) && h / 4 % 2 == Weight(q, 1) && h / 8 % 2 == Weight(p, 1)
  {}

  /** The flag in bit `k` of P: N in bit 7, then V, bit 5, B, D, I, Z, and C in
      bit 0. */
  predicate FlagAt(f: Flags, k: nat)
    requires k < 8
  {
    match k
    case 0 => f.c case 1 => f.z case 2 => f.i case 3 => f.d
    case 4 => f.b case 5 => f.u case 6 => f.v case 7 => f.n
  }

  lemma PackedLow(f: Flags)
    ensures var x := Pack(f);
            && BitOf(x, 0) == Weight(f.c, 1) && BitOf(x, 1) == Weight(f.z, 1)
            && BitOf(x, 2) == Weight(f.i, 1) && BitOf(x, 3) == Weight(f.d, 1)
  {
    hide Nibble, Weight, Pow2;
    Powers();
    LowBits(Nibble(f.n, f.v, f.u, f.b), Nibble(f.d, f.i, f.z, f.c));
    NibbleBits4(f.d, f.i, f.z, f.c);
  }

  lemma PackedHigh(f: Flags)
    ensures var x := Pack(f);
            && BitOf(x, 4) == Weight(f.b, 1) && BitOf(x, 5) == Weight(f.u, 1)
            && BitOf(x, 6) == Weight(f.v, 1) && BitOf(x, 7) == Weight(f.n, 1)
  {
    hide Nibble, Weight, Pow2;
    Powers();
    HighBits(Nibble(f.n, f.v, f.u, f.b), Nibble(f.d, f.i, f.z, f.c));
    NibbleBits4(f.n, f.v, f.u, f.b);
  }

  lemma PackedBit(f: Flags, k: nat)
    requires k < 8
    ensures BitOf(Pack(f), k) == Weight(FlagAt(f, k), 1)
  {
    hide Pack, BitOf, Weight;
    PackedLow(f);
    PackedHigh(f);
  }

  lemma FlagAtBoth(f: Flags, g: Flags, k: nat)
    requires k < 8
    ensures FlagAt(Both(f, g), k) == (FlagAt(f, k) && FlagAt(g, k))
  {}

  function Inverse(f: Flags): Flags {
    Flags(!f.n, !f.v, !f.u, !f.b, !f.d, !f.i, !f.z, !f.c)
  }

  lemma FlagAtInverse(f: Flags, k: nat)
    requires k < 8
    ensures FlagAt(Inverse(f), k) == !FlagAt(f, k)
  {}

  lemma EitherIsNotBothNot(f: Flags, g: Flags)
    ensures Either(f, g) == Inverse(Both(Inverse(f), Inverse(g)))
  {}

  lemma FlagAtEither(f: Flags, g: Flags, k: nat)
    requires k < 8
    ensures FlagAt(Either(f, g), k) == (FlagAt(f, k) || FlagAt(g, k))
  {
    hide Both, Either, Inverse, FlagAt;
    EitherIsNotBothNot(f, g);
    FlagAtInverse(Both(Inverse(f), Inverse(g)), k);
    FlagAtBoth(Inverse(f), Inverse(g), k);
    FlagAtInverse(f, k);
    FlagAtInverse(g, k);
  }

  lemma DifferIsEitherNotBoth(f: Flags, g: Flags)
    ensures Differ(f, g) == Both(Either(f, g), Inverse(Both(f, g)))
  {}

  lemma FlagAtDiffer(f: Flags, g: Flags, k: nat)
    requires k < 8
    ensures FlagAt(Differ(f, g), k) == (FlagAt(f, k) != FlagAt(g, k))
  {
    hide Differ, Both, Either, Inverse, FlagAt;
    DifferIsEitherNotBoth(f, g);
    FlagAtBoth(Either(f, g), Inverse(Both(f, g)), k);
    FlagAtEither(f, g, k);
    FlagAtInverse(Both(f, g), k);
    FlagAtBoth(f, g, k);
  }

  /** Bit by bit, AND is the product, OR the sum without it, EOR the sum without
      it twice. */
  lemma BitwiseBits(x: byte, y: byte, k: nat)
    requires k < 8
    ensures var p, q := BitOf(x, k), BitOf(y, k);
            && BitOf(And(x, y), k) == p * q
            && BitOf(Or(x, y), k) == p + q - p * q
            && BitOf(Xor(x, y), k) == p + q - 2 * (p * q)
  {
    hide Pack, Unpack, BitOf, Both, Either, Differ, FlagAt;
    var f, g := Unpack(x), Unpack(y);
    PackUnpack(x);
    PackUnpack(y);
    PackedBit(f, k);
    PackedBit(g, k);
    PackedBit(Both(f, g), k);
    PackedBit(Either(f, g), k);
    PackedBit(Differ(f, g), k);
    FlagAtBoth(f, g, k);
    FlagAtEither(f, g, k);
    FlagAtDiffer(f, g, k);
  }

  /** A byte is the sum of its bits. */
  lemma SumOfBits(x: byte)
    ensures x == BitOf(x, 0) + 2 * BitOf(x, 1) + 4 * BitOf(x, 2) + 8 * BitOf(x, 3)
                 + 16 * BitOf(x, 4) + 32 * BitOf(x, 5) + 64 * BitOf(x, 6) + 128 * BitOf(x, 7)
  {
    hide Pow2;
    Powers();
    Halves(x);
  }

  lemma Halves(x: byte)
    ensures x / 4 == x / 2 / 2 && x / 8 == x / 4 / 2 && x / 16 == x / 8 / 2
    ensures x / 32 == x / 16 / 2 && x / 64 == x / 32 / 2 && x / 128 == x / 64 / 2 && x / 128 < 2
  {}

  /** AND, OR and EOR as arithmetic on bytes: AND and OR make the sum, and EOR is
      their difference. */
  lemma BitwiseSum(x: byte, y: byte)
    ensures And(x, y) + Or(x, y) == x + y
    ensures Xor(x, y) == Or(x, y) - And(x, y)
  {
    hide And, Or, Xor, BitOf;
    SumOfBits(x);
    SumOfBits(y);
    SumOfBits(And(x, y));
    SumOfBits(Or(x, y));
    SumOfBits(Xor(x, y));
    forall k: nat | k < 8
      ensures BitOf(And(x, y), k) + BitOf(Or(x, y), k) == BitOf(x, k) + BitOf(y, k)
      ensures BitOf(Xor(x, y), k) == BitOf(Or(x, y), k) - BitOf(And(x, y), k)
    {
      BitwiseBits(x, y, k);
    }
  }

  // ------------------------------------------------------------ single bits

  lemma MaskBits(k: nat, j: nat)
    requires k < 8 && j < 8
    ensures BitOf(BitMask(k), j) == if j == k then 1 else 0
  {
    hide Pow2;
    Powers();
  }

  lemma InverseMaskBits(k: nat, j: nat)
    requires k < 8 && j < 8
    ensures BitOf(255 - BitMask(k), j) == if j == k then 0 else 1
  {
    hide Pow2;
    Powers();
  }

  /** The masks of RMB, SMB, BBR and BBS clear, set and test one bit. */
  lemma SingleBit(x: byte, k: nat, j: nat)
    requires k < 8 && j < 8
    ensures BitOf(And(x, 255 - BitMask(k)), j) == if j == k then 0 else BitOf(x, j)
    ensures BitOf(Or(x, BitMask(k)), j) == if j == k then 1 else BitOf(x, j)
    ensures And(x, BitMask(k)) != 0 <==> BitOf(x, k) == 1
  {
    hide And, Or, BitMask, BitOf;
    MaskBits(k, j);
    InverseMaskBits(k, j);
    BitwiseBits(x, 255 - BitMask(k), j);
    BitwiseBits(x, BitMask(k), j);
    TestedBit(x, k);
  }

  lemma TestedBit(x: byte, k: nat)
    requires k < 8
    ensures And(x, BitMask(k)) != 0 <==> BitOf(x, k) == 1
  {
    hide And, BitMask, BitOf;
    var y := And(x, BitMask(k));
    forall j: nat | j < 8
      ensures BitOf(y, j) == if j == k then BitOf(x, k) else 0
    {
      MaskBits(k, j);
      BitwiseBits(x, BitMask(k), j);
    }
    SumOfBits(y);
    ZeroOrOne(x, k);
  }

  lemma ZeroOrOne(x: byte, k: nat)
    ensures BitOf(x, k) == 0 || BitOf(x, k) == 1
  {}

  lemma LowNibble(x: byte)
    ensures And(0x0F, x) == x % 16
  {
    hide Nibble;
    assert Unpack(0x0F) == Flags(false, false, false, false, true, true, true, true);
    PackUnpack(x % 16);
    assert Both(Unpack(0x0F), Unpack(x)) == Unpack(x % 16);
  }

  lemma AllOnes(k: nat)
    requires k < 8
    ensures BitOf(0xFF, k) == 1
  {
    hide Pow2;
    Powers();
  }
}

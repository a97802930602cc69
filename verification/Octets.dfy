/**
 Bytes and six-bit values as bits of a register, without a conversion between
 the two kinds of number, and what the characters of the protocol are in bits.
 */
module Octets {
  import opened Bytes

  function Bit(on: bool): bv16 { if on then 1 else 0 }

  /** Eight bits, the lowest first. */
  function Packed(b0: bool, b1: bool, b2: bool, b3: bool, b4: bool, b5: bool, b6: bool, b7: bool): bv16 {
    Bit(b0) | (Bit(b1) << 1) | (Bit(b2) << 2) | (Bit(b3) << 3) | (Bit(b4) << 4) | (Bit(b5) << 5) | (Bit(b6) << 6) | (Bit(b7) << 7)
  }

  lemma PackedIsLow(b0: bool, b1: bool, b2: bool, b3: bool, b4: bool, b5: bool, b6: bool, b7: bool)
    ensures Packed(b0, b1, b2, b3, b4, b5, b6, b7) & 0xff00 == 0
    ensures Packed(b0, b1, b2, b3, b4, b5, b6, b7) >> 4 >> 4 == 0
  {
  }

  function BitSet(x: bv16, at: bv5): bool
    requires at < 16
  {
    (x >> at) & 1 == 1
  }

  lemma PackedTells(b0: bool, b1: bool, b2: bool, b3: bool, b4: bool, b5: bool, b6: bool, b7: bool)
    ensures var x := Packed(b0, b1, b2, b3, b4, b5, b6, b7);
            && BitSet(x, 0) == b0 && BitSet(x, 1) == b1 && BitSet(x, 2) == b2 && BitSet(x, 3) == b3
            && BitSet(x, 4) == b4 && BitSet(x, 5) == b5 && BitSet(x, 6) == b6 && BitSet(x, 7) == b7
  {
  }

  predicate Odd(n: nat) { n % 2 == 1 }

  function Half(n: nat): nat { n / 2 }

  /** What is left of a number without its four lowest bits. */
  function Rest(n: nat): nat { Half(Half(Half(Half(n)))) }

  /** A byte in the low half of a register: its bits are found by halving it. */
  function OfByte(b: byte): bv16 {
    var c := Rest(b);
    Packed(Odd(b), Odd(Half(b)), Odd(Half(Half(b))), Odd(Half(Half(Half(b)))),
           Odd(c), Odd(Half(c)), Odd(Half(Half(c))), Odd(Half(Half(Half(c)))))
  }

  lemma OfByteIsLow(b: byte)
    ensures OfByte(b) & 0xff00 == 0 && OfByte(b) >> 4 >> 4 == 0
  {
    hide Packed, Odd, Half, Rest;
    var c := Rest(b);
    PackedIsLow(Odd(b), Odd(Half(b)), Odd(Half(Half(b))), Odd(Half(Half(Half(b)))),
                Odd(c), Odd(Half(c)), Odd(Half(Half(c))), Odd(Half(Half(Half(c)))));
  }

  lemma Unpacked(b: byte)
    ensures var c, x := Rest(b), OfByte(b);
            && BitSet(x, 0) == Odd(b) && BitSet(x, 1) == Odd(Half(b)) && BitSet(x, 2) == Odd(Half(Half(b)))
            && BitSet(x, 3) == Odd(Half(Half(Half(b)))) && BitSet(x, 4) == Odd(c) && BitSet(x, 5) == Odd(Half(c))
            && BitSet(x, 6) == Odd(Half(Half(c))) && BitSet(x, 7) == Odd(Half(Half(Half(c))))
  {
    hide Packed, BitSet, Odd, Half, Rest;
    var c := Rest(b);
    PackedTells(Odd(b), Odd(Half(b)), Odd(Half(Half(b))), Odd(Half(Half(Half(b)))),
                Odd(c), Odd(Half(c)), Odd(Half(Half(c))), Odd(Half(Half(Half(c)))));
  }

  /** A number is twice its half and its last bit. */
  lemma HalfAndBit(n: nat)
    ensures n == 2 * Half(n) + Digit(Odd(n), 1)
  {
  }

  lemma FourBits(n: nat)
    ensures n == 16 * Rest(n) + Digit(Odd(n), 1) + Digit(Odd(Half(n)), 2) + Digit(Odd(Half(Half(n))), 4)
                 + Digit(Odd(Half(Half(Half(n)))), 8)
  {
    hide Odd, Half;
    HalfAndBit(n); HalfAndBit(Half(n)); HalfAndBit(Half(Half(n))); HalfAndBit(Half(Half(Half(n))));
  }

  /** The bits of a byte are the byte. */
  lemma OfByteIsByte(b: byte)
    ensures LowEight(OfByte(b)) == b
  {
    hide OfByte, BitSet, Odd, Half, Rest;
    Unpacked(b);
    FourBits(b);
    FourBits(Rest(b));
  }

  lemma OfByteInjective(a: byte, b: byte)
    requires OfByte(a) == OfByte(b)
    ensures a == b
  {
    hide OfByte, LowEight;
    OfByteIsByte(a);
    OfByteIsByte(b);
  }

  function Digit(on: bool, worth: nat): nat { if on then worth else 0 }

  /** The number that the six lowest bits are. */
  function LowSix(x: bv16): (n: nat)
    ensures n < 64
  {
    Digit(BitSet(x, 0), 1) + Digit(BitSet(x, 1), 2) + Digit(BitSet(x, 2), 4) + Digit(BitSet(x, 3), 8)
    + Digit(BitSet(x, 4), 16) + Digit(BitSet(x, 5), 32)
  }

  lemma LowSixTells(x: bv16, y: bv16)
    requires LowSix(x) == LowSix(y)
    ensures x & 0x3f == y & 0x3f
  {
    assert BitSet(x, 0) == BitSet(y, 0) && BitSet(x, 1) == BitSet(y, 1) && BitSet(x, 2) == BitSet(y, 2)
        && BitSet(x, 3) == BitSet(y, 3) && BitSet(x, 4) == BitSet(y, 4) && BitSet(x, 5) == BitSet(y, 5) by {
      hide BitSet;
    }
    SixBitsTell(x, y);
  }

  lemma SixBitsTell(x: bv16, y: bv16)
    requires BitSet(x, 0) == BitSet(y, 0) && BitSet(x, 1) == BitSet(y, 1) && BitSet(x, 2) == BitSet(y, 2)
    requires BitSet(x, 3) == BitSet(y, 3) && BitSet(x, 4) == BitSet(y, 4) && BitSet(x, 5) == BitSet(y, 5)
    ensures x & 0x3f == y & 0x3f
  {
  }

  // ------------------------------------------------------------------
  // Numbers in bits
  // ------------------------------------------------------------------

  /** The number that the eight lowest bits are. */
  function LowEight(x: bv16): (n: nat)
    ensures n < 256
  {
    LowSix(x) + Digit(BitSet(x, 6), 64) + Digit(BitSet(x, 7), 128)
  }

  /** The number that a register holds. */
  function Value(x: bv16): nat {
    LowEight(x) + Digit(BitSet(x, 8), 256) + Digit(BitSet(x, 9), 512) + Digit(BitSet(x, 10), 1024)
    + Digit(BitSet(x, 11), 2048) + Digit(BitSet(x, 12), 4096) + Digit(BitSet(x, 13), 8192)
    + Digit(BitSet(x, 14), 16384) + Digit(BitSet(x, 15), 32768)
  }

  /** One bit is set and no other. */
  predicate OneBit(d: bv16) { d == 1 || d == 2 || d == 4 || d == 8 || d == 16 || d == 32 || d == 64 || d == 128 }

  /** What one bit of a byte can be worth, either way. */
  predicate Worth(n: int) {
    n == 1 || n == 2 || n == 4 || n == 8 || n == 16 || n == 32 || n == 64 || n == 128
    || n == -1 || n == -2 || n == -4 || n == -8 || n == -16 || n == -32 || n == -64 || n == -128
  }

  lemma WorthBack(n: int)
    ensures Worth(n) == Worth(-n)
  {
  }

  lemma XorBits(x: bv16, y: bv16, k: bv5)
    requires k < 8
    ensures BitSet(x ^ y, k) == (BitSet(x, k) != BitSet(y, k))
  {
  }

  lemma OneBitSet(d: bv16)
    requires OneBit(d)
    ensures BitSet(d, 0) == (d == 1) && BitSet(d, 1) == (d == 2) && BitSet(d, 2) == (d == 4) && BitSet(d, 3) == (d == 8)
    ensures BitSet(d, 4) == (d == 16) && BitSet(d, 5) == (d == 32) && BitSet(d, 6) == (d == 64) && BitSet(d, 7) == (d == 128)
  {
  }

  /** Where two registers differ in one bit of the eight, what they hold differs by what it is worth. */
  lemma OneBitIsWorth(x: bv16, y: bv16)
    requires OneBit(x ^ y)
    ensures Worth(LowEight(x) - LowEight(y))
  {
    hide BitSet;
    var d := x ^ y;
    OneBitSet(d);
    XorBits(x, y, 0); XorBits(x, y, 1); XorBits(x, y, 2); XorBits(x, y, 3);
    XorBits(x, y, 4); XorBits(x, y, 5); XorBits(x, y, 6); XorBits(x, y, 7);
    OneDigitApart(x, y, d);
  }

  lemma OneDigitApart(x: bv16, y: bv16, d: bv16)
    requires OneBit(d)
    requires (BitSet(x, 0) != BitSet(y, 0)) == (d == 1) && (BitSet(x, 1) != BitSet(y, 1)) == (d == 2)
    requires (BitSet(x, 2) != BitSet(y, 2)) == (d == 4) && (BitSet(x, 3) != BitSet(y, 3)) == (d == 8)
    requires (BitSet(x, 4) != BitSet(y, 4)) == (d == 16) && (BitSet(x, 5) != BitSet(y, 5)) == (d == 32)
    requires (BitSet(x, 6) != BitSet(y, 6)) == (d == 64) && (BitSet(x, 7) != BitSet(y, 7)) == (d == 128)
    ensures Worth(LowEight(x) - LowEight(y))
  {
    hide BitSet, Digit, Worth;
    Weighed(BitSet(x, 0), BitSet(y, 0), 1); Weighed(BitSet(x, 1), BitSet(y, 1), 2);
    Weighed(BitSet(x, 2), BitSet(y, 2), 4); Weighed(BitSet(x, 3), BitSet(y, 3), 8);
    Weighed(BitSet(x, 4), BitSet(y, 4), 16); Weighed(BitSet(x, 5), BitSet(y, 5), 32);
    Weighed(BitSet(x, 6), BitSet(y, 6), 64); Weighed(BitSet(x, 7), BitSet(y, 7), 128);
  }

  lemma Weighed(a: bool, b: bool, worth: nat)
    requires Worth(worth)
    ensures if a == b then Digit(a, worth) == Digit(b, worth) else Worth(Digit(a, worth) - Digit(b, worth))
  {
  }

  /** Bytes one bit apart are as far apart as that bit is worth. */
  lemma OneBitApart(a: byte, b: byte)
    requires OneBit(OfByte(a) ^ OfByte(b))
    ensures Worth(a - b)
  {
    hide OfByte, LowEight, OneBit, Worth;
    OfByteIsByte(a);
    OfByteIsByte(b);
    OneBitIsWorth(OfByte(a), OfByte(b));
  }

  // ------------------------------------------------------------------
  // Characters in bits
  // ------------------------------------------------------------------

  /** The bit worth 64 turned over. */
  function Flip(x: bv16): bv16 { x ^ 64 }

  lemma FlipSeventh(b0: bool, b1: bool, b2: bool, b3: bool, b4: bool, b5: bool, b6: bool, b7: bool)
    ensures Packed(b0, b1, b2, b3, b4, b5, !b6, b7) == Flip(Packed(b0, b1, b2, b3, b4, b5, b6, b7))
  {
  }

  lemma FlipsBack(x: bv16)
    ensures Flip(Flip(x)) == x
  {
  }

  /** What `Ctl` does to a byte is to turn over one bit, the one worth 64. */
  lemma CtlFlipsOneBit(c: byte)
    ensures OfByte(Ctl(c)) == OfByte(c) ^ 64
  {
    assert OfByte(Ctl(c)) == Flip(OfByte(c)) by {
      hide OfByte, Flip;
      if Ctl(c) == c + 64 {
        RaisedFlips(c);
      } else {
        RaisedFlips(Ctl(c));
        FlipsBack(OfByte(Ctl(c)));
      }
    }
    hide OfByte;
  }

  lemma RaisedFlips(c: byte)
    requires c % 128 < 64
    ensures OfByte(c + 64) == Flip(OfByte(c))
  {
    hide Packed, Odd, Half, Rest, Flip;
    var b := Rest(c);
    RaisedBits(c);
    FlipSeventh(Odd(c), Odd(Half(c)), Odd(Half(Half(c))), Odd(Half(Half(Half(c)))),
                Odd(b), Odd(Half(b)), Odd(Half(Half(b))), Odd(Half(Half(Half(b)))));
  }

  lemma RaisedBits(c: byte)
    requires c % 128 < 64
    ensures var b := Rest(c);
            OfByte(c + 64) == Packed(Odd(c), Odd(Half(c)), Odd(Half(Half(c))), Odd(Half(Half(Half(c)))),
                                     Odd(b), Odd(Half(b)), !Odd(Half(Half(b))), Odd(Half(Half(Half(b)))))
  {
    hide Packed, Odd, Half, Rest;
    Raised(c);
    RaisedAbove(c);
  }

  /** An even number more adds half of it to the half, and leaves the last bit. */
  lemma EvenUp(n: nat, k: nat)
    ensures Half(n + 2 * k) == Half(n) + k && Odd(n + 2 * k) == Odd(n)
  {
  }

  lemma Raised(n: nat)
    ensures Odd(n + 64) == Odd(n) && Odd(Half(n + 64)) == Odd(Half(n)) && Odd(Half(Half(n + 64))) == Odd(Half(Half(n)))
    ensures Odd(Half(Half(Half(n + 64)))) == Odd(Half(Half(Half(n)))) && Rest(n + 64) == Rest(n) + 4
  {
    hide Odd, Half;
    EvenUp(n, 32); EvenUp(Half(n), 16); EvenUp(Half(Half(n)), 8); EvenUp(Half(Half(Half(n))), 4);
  }

  lemma RaisedAbove(c: byte)
    requires c % 128 < 64
    ensures var d, b := Rest(c) + 4, Rest(c);
            && Odd(d) == Odd(b) && Odd(Half(d)) == Odd(Half(b)) && Odd(Half(Half(d))) == !Odd(Half(Half(b)))
            && Half(Half(Half(d))) == Half(Half(Half(b)))
  {
    var b := Rest(c);
    EvenUp(b, 2);
    EvenUp(Half(b), 1);
    SixHalves(c);
    hide Rest, Half;
    OneUp(Half(Half(b)));
  }

  lemma SixHalves(c: nat)
    ensures Half(Half(Rest(c))) == c / 64
  {
  }

  lemma OneUp(n: nat)
    requires n % 2 == 0
    ensures Odd(n + 1) == !Odd(n) && Half(n + 1) == Half(n)
  {
  }
}

/** Left folds over bytes, and what they inherit from the step they repeat. */
module Folds {
  import opened Bytes

  function Fold<S>(step: (S, byte) -> S, start: S, data: seq<byte>): S {
    if data == [] then start
    else step(Fold(step, start, data[..|data| - 1]), data[|data| - 1])
  }

  lemma {:induction false} FoldAppend<S>(step: (S, byte) -> S, start: S, a: seq<byte>, b: seq<byte>)
    ensures Fold(step, start, a + b) == Fold(step, Fold(step, start, a), b)
  {
    if b == [] {
      assert a + b == a;
    } else {
      assert (a + b)[..|a + b| - 1] == a + b[..|b| - 1];
      FoldAppend(step, start, a, b[..|b| - 1]);
    }
  }

  lemma FoldTwo<S>(step: (S, byte) -> S, start: S, before: seq<byte>, a: byte, b: byte)
    ensures Fold(step, start, before + [a, b]) == step(step(Fold(step, start, before), a), b)
  {
    assert (before + [a, b])[..|before| + 1] == before + [a];
    assert (before + [a])[..|before|] == before;
  }

  lemma FoldOne<S>(step: (S, byte) -> S, start: S, data: seq<byte>, i: nat)
    requires i < |data|
    ensures Fold(step, start, data[..i + 1]) == step(Fold(step, start, data[..i]), data[i])
  {
    assert data[..i + 1][..i] == data[..i];
  }

  lemma {:induction false} FoldsAgree<S(!new)>(f: (S, byte) -> S, g: (S, byte) -> S, start: S, data: seq<byte>)
    requires forall s: S, b: byte :: f(s, b) == g(s, b)
    ensures Fold(f, start, data) == Fold(g, start, data)
  {
    if data != [] {
      FoldsAgree(f, g, start, data[..|data| - 1]);
    }
  }

  lemma {:induction false} FoldInjective<S(!new)>(step: (S, byte) -> S, s: S, t: S, data: seq<byte>)
    requires forall s: S, t: S, b: byte :: step(s, b) == step(t, b) ==> s == t
    requires Fold(step, s, data) == Fold(step, t, data)
    ensures s == t
  {
    if data != [] {
      FoldInjective(step, s, t, data[..|data| - 1]);
    }
  }
}

/**
 The block checks that guard a packet: two arithmetic checksums and a
 sixteen-bit CRC computed a nibble at a time. The CRC is shown to be the
 bit-serial reflected CRC of x^16 + x^12 + x^5 + 1, and to tell apart any two
 runs of bytes of the same length that differ only in two adjacent ones.
 */
module Checks {
  import opened Bytes
  import Octets
  import opened Folds

  datatype Check = One | Two | Three {
    /** The length of the check on the wire. */
    function Chars(): (n: nat)
      ensures 1 <= n <= 3
    {
      match this case One => 1 case Two => 2 case Three => 3
    }
  }

  function Sum(covered: seq<byte>): nat {
    if covered == [] then 0 else Sum(covered[..|covered| - 1]) + covered[|covered| - 1]
  }

  method ComputeSum(covered: seq<byte>) returns (total: nat)
    ensures total == Sum(covered)
  {
    total := 0;
    for i := 0 to |covered|
      invariant total == Sum(covered[..i])
    {
      assert covered[..i + 1][..i] == covered[..i];
      total := total + covered[i];
    }
    assert covered[..|covered|] == covered;
  }

  // ------------------------------------------------------------------
  // The CRC, as the program computes it
  // ------------------------------------------------------------------

  /** A sixteen-bit register. */
  datatype Word = Word(bits: bv16)

  const ZERO := Word(0)

  function Xor(a: Word, b: Word): Word { Word(a.bits ^ b.bits) }

  function Right(a: Word): Word { Word(a.bits >> 4) }

  /** The low four bits, multiplied out to where the polynomial puts them. */
  function Folded(a: Word): Word { Word((a.bits & 0x0f) * 0x1081) }

  /** A byte as the low half of a register. */
  function Low(b: byte): Word { Word(Octets.OfByte(b)) }

  /** Half of one byte's work: four bits are folded in at once. */
  function Nibble(crc: Word, bits: Word): Word { Xor(Right(crc), Folded(Xor(crc, bits))) }

  function StepByNibbles(crc: Word, b: byte): Word {
    Nibble(Nibble(crc, Low(b)), Right(Low(b)))
  }

  function Crc16(covered: seq<byte>): Word { Fold(StepByNibbles, ZERO, covered) }

  method ComputeCrc16(covered: seq<byte>) returns (crc: Word)
    ensures crc == Crc16(covered)
    ensures crc == SerialCrc(ZERO, covered)
  {
    crc := ZERO;
    for i := 0 to |covered|
      invariant crc == Fold(StepByNibbles, ZERO, covered[..i])
    {
      hide Xor, Right, Folded, Low, Fold;
      FoldOne(StepByNibbles, ZERO, covered, i);
      var q := Folded(Xor(crc, Low(covered[i])));
      crc := Xor(Right(crc), q);
      q := Folded(Xor(crc, Right(Low(covered[i]))));
      crc := Xor(Right(crc), q);
    }
    assert covered[..|covered|] == covered;
    NibblesAreSerial(ZERO, covered);
  }

  // ------------------------------------------------------------------
  // The CRC, as the protocol defines it
  // ------------------------------------------------------------------

  /** x^16 + x^12 + x^5 + 1 with its bits reflected. */
  const POLYNOMIAL: bv16 := 0x8408

  /** One step of the shift register: the polynomial goes in when a one falls out. */
  function ShiftBit(a: Word): Word { Word((a.bits >> 1) ^ ((a.bits & 1) * POLYNOMIAL)) }

  function ShiftNibble(a: Word): Word { ShiftBit(ShiftBit(ShiftBit(ShiftBit(a)))) }

  function ShiftByte(a: Word): Word { ShiftNibble(ShiftNibble(a)) }

  function StepSerially(crc: Word, b: byte): Word { ShiftByte(Xor(crc, Low(b))) }

  /** The bit-serial CRC: each byte enters at the low end, low bit first. */
  function SerialCrc(crc: Word, covered: seq<byte>): Word { Fold(StepSerially, crc, covered) }

  /** Nothing above the low eight bits. */
  predicate InLowHalf(a: Word) { a.bits & 0xff00 == 0 }

  lemma XorCommutes(a: Word, b: Word)
    ensures Xor(a, b) == Xor(b, a)
  {
  }

  lemma XorAssociates(a: Word, b: Word, c: Word)
    ensures Xor(Xor(a, b), c) == Xor(a, Xor(b, c))
  {
  }

  lemma XorCancelsItself(a: Word)
    ensures Xor(a, a) == ZERO && Xor(a, ZERO) == a
  {
  }

  lemma XorLaws(a: Word, b: Word, c: Word)
    ensures Xor(a, b) == Xor(b, a)
    ensures Xor(Xor(a, b), c) == Xor(a, Xor(b, c))
    ensures Xor(a, a) == ZERO && Xor(a, ZERO) == a
  {
    hide Xor;
    XorCommutes(a, b);
    XorAssociates(a, b, c);
    XorCancelsItself(a);
  }

  lemma RightOfXor(a: Word, b: Word)
    ensures Right(Xor(a, b)) == Xor(Right(a), Right(b))
  {
  }

  lemma LowIsLow(b: byte)
    ensures InLowHalf(Low(b)) && Right(Right(Low(b))) == ZERO
  {
    hide Octets.OfByte;
    Octets.OfByteIsLow(b);
  }

  lemma ShiftNibbleAtOnce(a: Word)
    ensures ShiftNibble(a) == Xor(Right(a), Folded(a))
  {
  }

  /** Folding a nibble in before four shifts differs only by the bits above it. */
  lemma NibbleIsShifts(crc: Word, bits: Word)
    ensures Nibble(crc, bits) == Xor(ShiftNibble(Xor(crc, bits)), Right(bits))
  {
    hide Xor, Right, Folded, ShiftNibble;
    var x, m, r := Right(crc), Folded(Xor(crc, bits)), Right(bits);
    ShiftNibbleAtOnce(Xor(crc, bits));
    RightOfXor(crc, bits);
    XorCancels(x, r, m);
  }

  lemma XorCancels(x: Word, r: Word, m: Word)
    ensures Xor(Xor(Xor(x, r), m), r) == Xor(x, m)
  {
  }

  lemma StepsAgree(crc: Word, b: byte)
    ensures StepByNibbles(crc, b) == StepSerially(crc, b)
  {
    hide Xor, Right, Low, Nibble, ShiftNibble;
    var bits := Low(b);
    var half, r := ShiftNibble(Xor(crc, bits)), Right(bits);
    LowIsLow(b);
    NibbleIsShifts(crc, bits);
    NibbleIsShifts(Xor(half, r), r);
    XorLaws(half, r, r);
    XorLaws(half, r, r);
    XorLaws(r, r, ZERO);
    XorLaws(half, ZERO, ZERO);
    XorLaws(ShiftNibble(half), ZERO, ZERO);
  }

  lemma NibblesAreSerial(crc: Word, covered: seq<byte>)
    ensures Fold(StepByNibbles, crc, covered) == SerialCrc(crc, covered)
  {
    hide StepByNibbles, StepSerially, Fold;
    forall s: Word, b: byte ensures StepByNibbles(s, b) == StepSerially(s, b) {
      StepsAgree(s, b);
    }
    FoldsAgree(StepByNibbles, StepSerially, crc, covered);
  }

  // ------------------------------------------------------------------
  // What the CRC tells apart
  // ------------------------------------------------------------------

  function UnshiftBit(a: Word): Word {
    Word(((a.bits ^ ((a.bits >> 15) * POLYNOMIAL)) << 1) | (a.bits >> 15))
  }

  lemma UnshiftUndoesShift(a: Word)
    ensures UnshiftBit(ShiftBit(a)) == a
  {
  }

  lemma ShiftByteInjective(a: Word, b: Word)
    requires ShiftByte(a) == ShiftByte(b)
    ensures a == b
  {
    hide ShiftNibble;
    ShiftNibbleInjective(ShiftNibble(a), ShiftNibble(b));
    ShiftNibbleInjective(a, b);
  }

  lemma ShiftNibbleInjective(a: Word, b: Word)
    requires ShiftNibble(a) == ShiftNibble(b)
    ensures a == b
  {
    hide ShiftBit, UnshiftBit;
    var a1, b1 := ShiftBit(a), ShiftBit(b);
    var a2, b2 := ShiftBit(a1), ShiftBit(b1);
    UnshiftUndoesShift(a); UnshiftUndoesShift(b);
    UnshiftUndoesShift(a1); UnshiftUndoesShift(b1);
    UnshiftUndoesShift(a2); UnshiftUndoesShift(b2);
    UnshiftUndoesShift(ShiftBit(a2)); UnshiftUndoesShift(ShiftBit(b2));
  }

  lemma XorInjective(a: Word, b: Word, c: Word)
    requires Xor(a, c) == Xor(b, c)
    ensures a == b
  {
    hide Xor;
    XorLaws(a, c, c); XorLaws(b, c, c);
    XorLaws(c, a, a); XorLaws(a, ZERO, ZERO); XorLaws(b, ZERO, ZERO);
  }

  lemma StepInjective(s: Word, t: Word, b: byte)
    requires StepSerially(s, b) == StepSerially(t, b)
    ensures s == t
  {
    hide ShiftByte, Low, Xor;
    ShiftByteInjective(Xor(s, Low(b)), Xor(t, Low(b)));
    XorInjective(s, t, Low(b));
  }

  /** For fixed data the map from register to register is injective. */
  lemma SerialInjective(c: Word, d: Word, covered: seq<byte>)
    requires SerialCrc(c, covered) == SerialCrc(d, covered)
    ensures c == d
  {
    hide StepSerially, Fold;
    forall s: Word, t: Word, b: byte | StepSerially(s, b) == StepSerially(t, b) ensures s == t {
      StepInjective(s, t, b);
    }
    FoldInjective(StepSerially, c, d, covered);
  }

  lemma ShiftBitLinear(a: Word, b: Word)
    ensures ShiftBit(Xor(a, b)) == Xor(ShiftBit(a), ShiftBit(b))
  {
  }

  lemma ShiftNibbleLinear(a: Word, b: Word)
    ensures ShiftNibble(Xor(a, b)) == Xor(ShiftNibble(a), ShiftNibble(b))
  {
    hide ShiftBit, Xor;
    var a1, b1 := ShiftBit(a), ShiftBit(b);
    var a2, b2 := ShiftBit(a1), ShiftBit(b1);
    ShiftBitLinear(a, b);
    ShiftBitLinear(a1, b1);
    ShiftBitLinear(a2, b2);
    ShiftBitLinear(ShiftBit(a2), ShiftBit(b2));
  }

  lemma ShiftByteLinear(a: Word, b: Word)
    ensures ShiftByte(Xor(a, b)) == Xor(ShiftByte(a), ShiftByte(b))
  {
    hide ShiftNibble, Xor;
    ShiftNibbleLinear(a, b);
    ShiftNibbleLinear(ShiftNibble(a), ShiftNibble(b));
  }

  /** The 256 register values a byte can cause all differ in their high half. */
  lemma HighHalfTells(d: Word)
    requires InLowHalf(d) && InLowHalf(ShiftByte(d))
    ensures d == ZERO
  {
  }

  lemma XorInLowHalf(a: Word, b: Word)
    requires InLowHalf(a) && InLowHalf(b)
    ensures InLowHalf(Xor(a, b))
  {
  }

  lemma XorMoves(p: Word, q: Word, x: Word, y: Word)
    ensures Xor(Xor(p, x), Xor(q, y)) == Xor(Xor(p, q), Xor(x, y))
  {
  }

  /** Equal sums make equal differences. */
  lemma XorDifference(p: Word, q: Word, x: Word, y: Word)
    requires Xor(p, x) == Xor(q, y)
    ensures Xor(p, q) == Xor(x, y)
  {
    hide Xor;
    XorMoves(p, q, x, y);
    XorLaws(Xor(p, x), ZERO, ZERO);
    XorLaws(Xor(p, q), Xor(x, y), Xor(x, y));
    XorLaws(Xor(p, q), ZERO, ZERO);
    XorLaws(Xor(x, y), ZERO, ZERO);
    XorLaws(ZERO, Xor(x, y), ZERO);
  }

  lemma FirstStepTold(c: Word, a: Word, a': Word, b: Word, b': Word)
    requires InLowHalf(a) && InLowHalf(a') && InLowHalf(b) && InLowHalf(b')
    requires Xor(ShiftByte(Xor(c, a)), b) == Xor(ShiftByte(Xor(c, a')), b')
    ensures a == a'
  {
    hide ShiftByte, Xor, InLowHalf;
    var p, q := ShiftByte(Xor(c, a)), ShiftByte(Xor(c, a'));
    XorDifference(p, q, b, b');
    XorInLowHalf(b, b');
    ShiftByteLinear(Xor(c, a), Xor(c, a'));
    XorMoves(c, c, a, a');
    XorLaws(c, c, c);
    XorLaws(ZERO, Xor(a, a'), ZERO);
    XorLaws(Xor(a, a'), ZERO, ZERO);
    XorInLowHalf(a, a');
    HighHalfTells(Xor(a, a'));
    XorLaws(a', a', a');
    XorInjective(a, a', a');
  }

  lemma LowInjective(a: byte, b: byte)
    requires Low(a) == Low(b)
    ensures a == b
  {
    hide Octets.OfByte;
    Octets.OfByteInjective(a, b);
  }

  lemma TwoBytesTold(c: Word, a: byte, b: byte, a': byte, b': byte)
    requires StepSerially(StepSerially(c, a), b) == StepSerially(StepSerially(c, a'), b')
    ensures a == a' && b == b'
  {
    hide ShiftByte, Low, Xor, InLowHalf;
    var p, q := ShiftByte(Xor(c, Low(a))), ShiftByte(Xor(c, Low(a')));
    ShiftByteInjective(Xor(p, Low(b)), Xor(q, Low(b')));
    LowIsLow(a); LowIsLow(b); LowIsLow(a'); LowIsLow(b');
    FirstStepTold(c, Low(a), Low(a'), Low(b), Low(b'));
    LowInjective(a, a');
    XorLaws(p, Low(b), ZERO); XorLaws(p, Low(b'), ZERO);
    XorInjective(Low(b), Low(b'), p);
    LowInjective(b, b');
  }

  /** A change confined to two adjacent bytes always changes the CRC. */
  lemma BurstChangesCrc(before: seq<byte>, a: byte, b: byte, a': byte, b': byte, after: seq<byte>)
    requires (a, b) != (a', b')
    ensures Crc16(before + [a, b] + after) != Crc16(before + [a', b'] + after)
  {
    hide StepByNibbles, StepSerially, Fold;
    if Crc16(before + [a, b] + after) == Crc16(before + [a', b'] + after) {
      NibblesAreSerial(ZERO, before + [a, b] + after);
      NibblesAreSerial(ZERO, before + [a', b'] + after);
      FoldAppend(StepSerially, ZERO, before + [a, b], after);
      FoldAppend(StepSerially, ZERO, before + [a', b'], after);
      SerialInjective(SerialCrc(ZERO, before + [a, b]), SerialCrc(ZERO, before + [a', b']), after);
      FoldTwo(StepSerially, ZERO, before, a, b);
      FoldTwo(StepSerially, ZERO, before, a', b');
      TwoBytesTold(SerialCrc(ZERO, before), a, b, a', b');
    }
  }

  // ------------------------------------------------------------------
  // The check characters
  // ------------------------------------------------------------------

  function From(a: Word, at: bv5): bv16
    requires at < 16
  {
    a.bits >> at
  }

  /** The value of six bits of a register, from bit `at` up. */
  function SixBits(a: Word, at: bv5): (n: nat)
    requires at < 16
    ensures n < 64
  {
    Octets.LowSix(From(a, at))
  }

  /** The sixteen bits of a CRC as three printable characters. */
  function CrcChars(crc: Word): (cs: seq<byte>)
    ensures |cs| == 3
  {
    [ToChar(SixBits(crc, 12)), ToChar(SixBits(crc, 6)), ToChar(SixBits(crc, 0))]
  }

  /** The low six bits of a sum with the two above them added in. */
  function FoldedSum(sum: nat): (n: nat)
    ensures n < 64
  {
    (sum + sum / 64 % 4) % 64
  }

  function Of(check: Check, covered: seq<byte>): (cs: seq<byte>)
    ensures |cs| == check.Chars()
  {
    hide Crc16, Sum;
    match check
    case One => [ToChar(FoldedSum(Sum(covered)))]
    case Two => var sum := Sum(covered); [ToChar(sum / 64 % 64), ToChar(sum % 64)]
    case Three => CrcChars(Crc16(covered))
  }

  lemma SixBitsInjective(a: Word, b: Word, at: bv5)
    requires at < 16 && SixBits(a, at) == SixBits(b, at)
    ensures From(a, at) & 0x3f == From(b, at) & 0x3f
  {
    hide Octets.LowSix, From;
    Octets.LowSixTells(From(a, at), From(b, at));
  }

  lemma ThreeParts(a: Word, b: Word)
    requires From(a, 0) & 0x3f == From(b, 0) & 0x3f
    requires From(a, 6) & 0x3f == From(b, 6) & 0x3f
    requires From(a, 12) & 0x3f == From(b, 12) & 0x3f
    ensures a == b
  {
  }

  lemma CrcCharsInjective(a: Word, b: Word)
    requires CrcChars(a) == CrcChars(b)
    ensures a == b
  {
    hide SixBits, From;
    var s, t := CrcChars(a), CrcChars(b);
    assert s[0] == t[0] && s[1] == t[1] && s[2] == t[2];
    SixBitsInjective(a, b, 0);
    SixBitsInjective(a, b, 6);
    SixBitsInjective(a, b, 12);
    ThreeParts(a, b);
  }

  // ------------------------------------------------------------------
  // What the characters are, in numbers and in bits
  // ------------------------------------------------------------------

  lemma UnCharBack(n: nat)
    requires n < 64
    ensures UnChar(ToChar(n)) == n
  {
  }

  /** The two characters are the sum's low twelve bits, the high six first. */
  lemma TwoCharsAreSum(covered: seq<byte>)
    ensures var cs := Of(Two, covered); UnChar(cs[0]) * 64 + UnChar(cs[1]) == Sum(covered) % 4096
  {
    hide Sum, ToChar, UnChar;
    var sum := Sum(covered);
    UnCharBack(sum / 64 % 64);
    UnCharBack(sum % 64);
  }

  /** A register with its two bits worth 64 and 128 added to it again, as worth 1 and 2. */
  function HighAdded(x: bv16): bv16 { x + ((x & 0xc0) >> 6) }

  function Up(x: bv16): bv16 { x + 1 }

  /** One more, of the six lowest bits. */
  lemma UpIsOneMore(x: bv16)
    ensures Octets.LowSix(Up(x)) == (Octets.LowSix(x) + 1) % 64
  {
  }

  lemma HighIsAdded(x: bv16)
    ensures HighAdded(x)
         == if Octets.BitSet(x, 7) then (if Octets.BitSet(x, 6) then Up(Up(Up(x))) else Up(Up(x)))
            else (if Octets.BitSet(x, 6) then Up(x) else x)
  {
  }

  /** The one character in bits: the low six of the sum with the two above them, of its low eight, added. */
  lemma OneCharInBits(covered: seq<byte>)
    ensures UnChar(Of(One, covered)[0]) == Octets.LowSix(HighAdded(Octets.OfByte(Sum(covered) % 256)))
  {
    hide Sum, ToChar, UnChar, FoldedSum, HighAdded, Octets.OfByte, Octets.LowSix;
    UnCharBack(FoldedSum(Sum(covered)));
    FoldedInBits(Sum(covered));
  }

  lemma FoldedInBits(sum: nat)
    ensures FoldedSum(sum) == Octets.LowSix(HighAdded(Octets.OfByte(sum % 256)))
  {
    hide Octets.OfByte, Octets.LowSix, Octets.BitSet, Up, HighAdded;
    var x := Octets.OfByte(sum % 256);
    Octets.OfByteIsByte(sum % 256);
    HighIsAdded(x);
    UpIsOneMore(x); UpIsOneMore(Up(x)); UpIsOneMore(Up(Up(x)));
    FoldOfLow(sum, Octets.LowSix(x), Octets.BitSet(x, 6), Octets.BitSet(x, 7));
  }

  lemma FoldOfLow(sum: nat, low: nat, b6: bool, b7: bool)
    requires low < 64 && sum % 256 == low + Octets.Digit(b6, 64) + Octets.Digit(b7, 128)
    ensures FoldedSum(sum) == (low + Octets.Digit(b6, 1) + Octets.Digit(b7, 2)) % 64
  {
    assert sum % 64 == low;
    assert sum / 64 % 4 == Octets.Digit(b6, 1) + Octets.Digit(b7, 2);
  }

  /** The three characters are the CRC, its highest four bits first. */
  lemma ThreeCharsAreCrc(crc: Word)
    ensures var cs := CrcChars(crc);
            UnChar(cs[0]) * 4096 + UnChar(cs[1]) * 64 + UnChar(cs[2]) == Octets.Value(crc.bits)
  {
    hide ToChar, UnChar, SixBits;
    UnCharBack(SixBits(crc, 12)); UnCharBack(SixBits(crc, 6)); UnCharBack(SixBits(crc, 0));
    SixBitsAre(crc);
  }

  lemma SixBitsAre(crc: Word)
    ensures SixBits(crc, 12) * 4096 + SixBits(crc, 6) * 64 + SixBits(crc, 0) == Octets.Value(crc.bits)
  {
    hide SixBits, Octets.BitSet, Octets.LowSix;
    LowAre(crc);
    MiddleAre(crc);
    HighAre(crc);
  }

  lemma LowAre(crc: Word)
    ensures SixBits(crc, 0) == Octets.LowSix(crc.bits)
  {
  }

  lemma MiddleAre(crc: Word)
    ensures SixBits(crc, 6)
         == Octets.Digit(Octets.BitSet(crc.bits, 6), 1) + Octets.Digit(Octets.BitSet(crc.bits, 7), 2)
          + Octets.Digit(Octets.BitSet(crc.bits, 8), 4) + Octets.Digit(Octets.BitSet(crc.bits, 9), 8)
          + Octets.Digit(Octets.BitSet(crc.bits, 10), 16) + Octets.Digit(Octets.BitSet(crc.bits, 11), 32)
  {
    ShiftedSix(crc.bits);
    hide Octets.BitSet;
  }

  lemma HighAre(crc: Word)
    ensures SixBits(crc, 12)
         == Octets.Digit(Octets.BitSet(crc.bits, 12), 1) + Octets.Digit(Octets.BitSet(crc.bits, 13), 2)
          + Octets.Digit(Octets.BitSet(crc.bits, 14), 4) + Octets.Digit(Octets.BitSet(crc.bits, 15), 8)
  {
    ShiftedTwelve(crc.bits);
    hide Octets.BitSet;
  }

  /** Shifting brings the bits above down. */
  lemma ShiftedSix(x: bv16)
    ensures Octets.BitSet(x >> 6, 0) == Octets.BitSet(x, 6) && Octets.BitSet(x >> 6, 1) == Octets.BitSet(x, 7)
    ensures Octets.BitSet(x >> 6, 2) == Octets.BitSet(x, 8) && Octets.BitSet(x >> 6, 3) == Octets.BitSet(x, 9)
    ensures Octets.BitSet(x >> 6, 4) == Octets.BitSet(x, 10) && Octets.BitSet(x >> 6, 5) == Octets.BitSet(x, 11)
  {
  }

  lemma ShiftedTwelve(x: bv16)
    ensures Octets.BitSet(x >> 12, 0) == Octets.BitSet(x, 12) && Octets.BitSet(x >> 12, 1) == Octets.BitSet(x, 13)
    ensures Octets.BitSet(x >> 12, 2) == Octets.BitSet(x, 14) && Octets.BitSet(x >> 12, 3) == Octets.BitSet(x, 15)
    ensures !Octets.BitSet(x >> 12, 4) && !Octets.BitSet(x >> 12, 5)
  {
  }

  // ------------------------------------------------------------------
  // What the two sums tell apart
  // ------------------------------------------------------------------

  lemma {:induction false} SumChanged(covered: seq<byte>, i: nat, b: byte)
    requires i < |covered|
    ensures Sum(covered[i := b]) == Sum(covered) - covered[i] + b
  {
    var n := |covered| - 1;
    if i == n {
      assert covered[i := b][..n] == covered[..n];
    } else {
      assert covered[i := b][..n] == covered[..n][i := b];
      SumChanged(covered[..n], i, b);
    }
  }

  /** Sums that differ by what one bit is worth fold to different characters: the two high bits count too. */
  lemma FoldTells(s: nat, t: nat)
    requires Octets.Worth(s - t)
    ensures FoldedSum(s) != FoldedSum(t)
  {
    if s > t {
      FoldTellsUp(t, s - t);
    } else {
      FoldTellsUp(s, t - s);
    }
  }

  lemma FoldTellsUp(s: nat, d: nat)
    requires Octets.Worth(d)
    ensures FoldedSum(s) != FoldedSum(s + d)
  {
    hide FoldedSum;
    var q, r := s / 64, s % 64;
    FoldedParts(q, r);
    if d >= 64 {
      FoldedParts(q + d / 64, r);
      HighTells(q, r, d / 64);
    } else if r + d < 64 {
      FoldedParts(q, r + d);
      LowTells(q % 4, r, d);
    } else {
      FoldedParts(q + 1, r + d - 64);
      CarryTells(q, r, d);
    }
  }

  lemma FoldedParts(q: nat, r: nat)
    requires r < 64
    ensures FoldedSum(64 * q + r) == (r + q % 4) % 64
  {
    var s := 64 * q + r;
    assert s / 64 == q && s % 64 == r;
  }

  lemma LowTells(a: nat, r: nat, d: nat)
    requires a < 4 && 0 < d < 64
    ensures (r + a) % 64 != (r + d + a) % 64
  {
  }

  lemma HighTells(q: nat, r: nat, d: nat)
    requires (d == 1 || d == 2) && r < 64
    ensures (r + q % 4) % 64 != (r + (q + d) % 4) % 64
  {
  }

  /** A carry out of the six low bits goes in again as one, or takes three away. */
  lemma CarryTells(q: nat, r: nat, d: nat)
    requires r < 64 <= r + d && (d == 1 || d == 2 || d == 4 || d == 8 || d == 16 || d == 32)
    ensures (r + q % 4) % 64 != (r + d - 64 + (q + 1) % 4) % 64
  {
    assert (q + 1) % 4 == q % 4 + 1 || (q + 1) % 4 == q % 4 - 3;
  }

  /** Any one bit of any one byte, turned over, changes the one-character check. */
  lemma OneBitChangesOne(covered: seq<byte>, i: nat, b: byte)
    requires i < |covered| && Octets.OneBit(Octets.OfByte(covered[i]) ^ Octets.OfByte(b))
    ensures Of(One, covered[i := b]) != Of(One, covered)
  {
    hide Octets.OfByte, Sum, FoldedSum, ToChar, Octets.Worth, Octets.OneBit;
    Octets.OneBitApart(covered[i], b);
    SumChanged(covered, i, b);
    var s, t := Sum(covered), Sum(covered[i := b]);
    Octets.WorthBack(covered[i] - b);
    FoldTells(t, s);
    CharTells(FoldedSum(s), FoldedSum(t));
  }

  lemma CharTells(m: nat, n: nat)
    requires m < 64 && n < 64
    ensures ToChar(m) == ToChar(n) ==> m == n
  {
  }

  /** Any one byte changed at all changes the two-character check. */
  lemma OneByteChangesTwo(covered: seq<byte>, i: nat, b: byte)
    requires i < |covered| && b != covered[i]
    ensures Of(Two, covered[i := b]) != Of(Two, covered)
  {
    hide Sum, ToChar, UnChar, Of;
    SumChanged(covered, i, b);
    TwoCharsAreSum(covered);
    TwoCharsAreSum(covered[i := b]);
    NearbyDiffer(Sum(covered), Sum(covered[i := b]));
  }

  lemma NearbyDiffer(m: nat, n: nat)
    requires m != n && -256 < m - n < 256
    ensures m % 4096 != n % 4096
  {
  }
}

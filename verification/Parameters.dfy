/**
 Negotiation: the block of fields each end offers, how the other reads it,
 and what each of them then uses.
 */
module Parameters {
  import opened Options
  import opened Bytes
  import opened Checks
  import Octets
  import Packets

  /** The characters that announce a control, an eighth-bit or a repeated character. */
  datatype Prefixes = Prefixes(control: byte, eighth: Option<byte>, repeat: Option<byte>)

  datatype Params = Params(
    maxLength: byte,
    timeout: byte,
    padding: byte,
    padWith: byte,
    endOfLine: byte,
    control: byte,
    eighth: Option<byte>,
    repeat: Option<byte>,
    check: Check,
    capabilities: seq<byte>)
  {
    function Quoting(): Prefixes { Prefixes(control, eighth, repeat) }
  }

  const DEFAULT := Params(80, 5, 0, 0, CR, 35, None, None, One, [])

  /** What this program asks for: every prefix, the CRC, attributes and the longest packets there are. */
  const OURS := Params(94, 10, 0, 0, CR, 35, Some(38), Some(126), Three, [ToChar(8 + 2), ToChar(1), ToChar(94), ToChar(94)])

  /** `Y`: whatever the other end proposes. */
  const AGREED: byte := 89
  /** `N`: not at all. */
  const REFUSED: byte := 78
  const SPACE: byte := 32

  /** Assumed of an end that can do long packets but does not say how long. */
  const DEFAULT_LONG := 500

  // ------------------------------------------------------------------
  // The block
  // ------------------------------------------------------------------

  function CheckByte(check: Check): byte {
    match check case One => 49 case Two => 50 case Three => 51
  }

  function CheckOf(c: byte): Check {
    if c == 50 then Two else if c == 51 then Three else One
  }

  function PrefixByte(prefix: Option<byte>): byte {
    match prefix case None => REFUSED case Some(c) => c
  }

  /** What a prefix field means to the end that reads it. */
  function Heard(c: byte): Option<byte> {
    if c == REFUSED || c == SPACE then None else Some(c)
  }

  function Block(p: Params): seq<byte> {
    [ToChar(p.maxLength), ToChar(p.timeout), ToChar(p.padding), Ctl(p.padWith), ToChar(p.endOfLine),
     p.control, PrefixByte(p.eighth), CheckByte(p.check), PrefixByte(p.repeat)] + p.capabilities
  }

  method BuildBlock(p: Params) returns (out: seq<byte>)
    ensures out == Block(p)
    ensures ReadBlock(out) == p.(eighth := Heard(PrefixByte(p.eighth)), repeat := Heard(PrefixByte(p.repeat)))
  {
    out := [ToChar(p.maxLength), ToChar(p.timeout), ToChar(p.padding), Ctl(p.padWith), ToChar(p.endOfLine),
            p.control, PrefixByte(p.eighth), CheckByte(p.check), PrefixByte(p.repeat)];
    out := out + p.capabilities;
    BlockReadsBack(p);
  }

  /** A block read with the default for every field it stops short of. */
  function ReadBlock(data: seq<byte>): Params {
    Params(
      if |data| > 0 then UnChar(data[0]) else DEFAULT.maxLength,
      if |data| > 1 then UnChar(data[1]) else DEFAULT.timeout,
      if |data| > 2 then UnChar(data[2]) else DEFAULT.padding,
      if |data| > 3 then Ctl(data[3]) else DEFAULT.padWith,
      if |data| > 4 then UnChar(data[4]) else DEFAULT.endOfLine,
      if |data| > 5 then data[5] else DEFAULT.control,
      if |data| > 6 then Heard(data[6]) else DEFAULT.eighth,
      if |data| > 8 then Heard(data[8]) else DEFAULT.repeat,
      if |data| > 7 then CheckOf(data[7]) else DEFAULT.check,
      if |data| > 9 then data[9..] else DEFAULT.capabilities)
  }

  /** What fills the places a block stops short of: what a block of the defaults says there. */
  function Completed(data: seq<byte>): (d: seq<byte>)
    ensures |d| >= 9
  {
    if |data| < 9 then data + Block(DEFAULT)[|data|..] else data
  }

  /** A prefix that names no character says `N`, and a check that is none of the three says `1`. */
  function Proper(d: seq<byte>): seq<byte>
    requires |d| >= 9
  {
    d[6 := PrefixByte(Heard(d[6]))][7 := CheckByte(CheckOf(d[7]))][8 := PrefixByte(Heard(d[8]))]
  }

  /**
   A block of any length is read as what would have been built to say the
   same: built again, what was read is what came, completed with the
   defaults.
   */
  method ReadFields(data: seq<byte>) returns (p: Params)
    ensures p == ReadBlock(data)
    ensures Block(p) == Proper(Completed(data))
    ensures forall q: Params | Nameable(q.eighth) && Nameable(q.repeat) && data == Block(q) :: p == q
  {
    hide ToChar, UnChar, Ctl;
    p := DEFAULT;
    if |data| > 0 { p := p.(maxLength := UnChar(data[0])); }
    if |data| > 1 { p := p.(timeout := UnChar(data[1])); }
    if |data| > 2 { p := p.(padding := UnChar(data[2])); }
    if |data| > 3 { p := p.(padWith := Ctl(data[3])); }
    if |data| > 4 { p := p.(endOfLine := UnChar(data[4])); }
    if |data| > 5 { p := p.(control := data[5]); }
    if |data| > 6 { p := p.(eighth := Heard(data[6])); }
    if |data| > 7 { p := p.(check := CheckOf(data[7])); }
    if |data| > 8 { p := p.(repeat := Heard(data[8])); }
    if |data| > 9 { p := p.(capabilities := data[9..]); }
    assert p == ReadBlock(data);
    hide ReadBlock, Block, Proper, Completed, Nameable;
    ReadRebuilds(data);
    forall q: Params | Nameable(q.eighth) && Nameable(q.repeat) && data == Block(q) ensures p == q {
      BlockReadsBack(q);
    }
  }

  /** Nothing that was said is lost in reading it. */
  lemma ReadRebuilds(data: seq<byte>)
    ensures Block(ReadBlock(data)) == Proper(Completed(data))
  {
    hide ToChar, UnChar, Ctl, Heard, PrefixByte, CheckOf, CheckByte;
    var d := Completed(data);
    CompletedReadsSame(data);
    var p := ReadBlock(d);
    CharsGoBack(d[0]); CharsGoBack(d[1]); CharsGoBack(d[2]); CharsGoBack(d[4]);
    CharsReturn(d[3]);
    assert p.capabilities == d[9..] by { assert |d| == 9 ==> d[9..] == []; }
    assert Block(p)[..9] == Proper(d)[..9];
    assert Block(p)[9..] == Proper(d)[9..];
  }

  lemma CharsGoBack(c: byte)
    ensures ToChar(UnChar(c)) == c
  {
  }

  /** The defaults are what a block of them says. */
  lemma CompletedReadsSame(data: seq<byte>)
    ensures ReadBlock(Completed(data)) == ReadBlock(data)
  {
    assert Block(DEFAULT) == [112, 37, 32, 64, 45, 35, REFUSED, 49, REFUSED];
  }

  /** A prefix field survives unless it names `N` or a space. */
  predicate Nameable(prefix: Option<byte>) {
    prefix.Some? ==> prefix.value != REFUSED && prefix.value != SPACE
  }

  /** What a built block is read as: exactly what was built, but for unnameable prefixes. */
  lemma BlockReadsBack(p: Params)
    ensures ReadBlock(Block(p))
         == p.(eighth := Heard(PrefixByte(p.eighth)), repeat := Heard(PrefixByte(p.repeat)))
    ensures ReadBlock(Block(p)) == p <==> Nameable(p.eighth) && Nameable(p.repeat)
  {
    hide ToChar, UnChar, Ctl;
    CharsReturn(p.maxLength);
    CharsReturn(p.timeout);
    CharsReturn(p.padding);
    CharsReturn(p.padWith);
    CharsReturn(p.endOfLine);
    assert Block(p)[9..] == p.capabilities;
  }

  lemma CharsReturn(c: byte)
    ensures UnChar(ToChar(c)) == c && Ctl(Ctl(c)) == c
  {
  }

  // ------------------------------------------------------------------
  // Capabilities
  // ------------------------------------------------------------------

  function BitSet(c: byte, bit: nat): bool
    requires bit > 0
  {
    UnChar(c) / bit % 2 == 1
  }

  /** Whether a capability field offers attribute packets. */
  function OffersAttributes(capabilities: seq<byte>): bool {
    |capabilities| > 0 && BitSet(capabilities[0], 8)
  }

  /** The first capability byte that says no other follows, or the length. */
  function LastCapability(capabilities: seq<byte>): (at: nat)
    ensures at <= |capabilities|
  {
    if capabilities == [] || !BitSet(capabilities[0], 1) then 0
    else 1 + LastCapability(capabilities[1..])
  }

  /** How long an extended packet may be, where they may be used. */
  function Long(p: Params): (r: Option<nat>)
    ensures r.Some? ==> 0 < r.value <= Packets.MAX_LONG
  {
    var caps := p.capabilities;
    if caps == [] || !BitSet(caps[0], 2) then None
    else
      var last := LastCapability(caps);
      if last == |caps| then None
      else if last + 3 < |caps| && UnChar(caps[last + 2]) * 95 + UnChar(caps[last + 3]) > 0 then
        Some(Min(UnChar(caps[last + 2]) * 95 + UnChar(caps[last + 3]), Packets.MAX_LONG))
      else Some(DEFAULT_LONG)
  }

  /** What the capability bits are, in bits: 1 for more to follow, 2 for long packets, 8 for attributes. */
  lemma CapabilitiesAreBits(c: byte)
    ensures BitSet(c, 1) == Octets.BitSet(Octets.OfByte(UnChar(c)), 0)
    ensures BitSet(c, 2) == Octets.BitSet(Octets.OfByte(UnChar(c)), 1)
    ensures BitSet(c, 8) == Octets.BitSet(Octets.OfByte(UnChar(c)), 3)
  {
    hide UnChar, Octets.OfByte, Octets.BitSet;
    Octets.Unpacked(UnChar(c));
  }

  lemma {:induction false} LastAfter(more: seq<byte>, last: byte, rest: seq<byte>)
    requires (forall c | c in more :: BitSet(c, 1)) && !BitSet(last, 1)
    ensures LastCapability(more + [last] + rest) == |more|
  {
    hide BitSet;
    var caps := more + [last] + rest;
    if more != [] {
      assert caps[0] == more[0] && caps[1..] == more[1..] + [last] + rest;
      LastAfter(more[1..], last, rest);
    }
  }

  /**
   What an end says it takes it is known to take: after any number of
   capability bytes that say another follows, the last, and a window, the
   length comes in two digits of base 95, the high one first.
   */
  lemma LongIsSaid(p: Params, more: seq<byte>, last: byte, window: byte, n: nat, rest: seq<byte>)
    requires p.capabilities == more + [last] + ([window, n / 95 + 32, n % 95 + 32] + rest)
    requires 0 < n <= 9024 && (forall c | c in more :: BitSet(c, 1)) && !BitSet(last, 1) && BitSet(p.capabilities[0], 2)
    ensures Long(p) == Some(n)
  {
    hide BitSet, LastCapability, UnChar;
    var caps := p.capabilities;
    LastAfter(more, last, [window, n / 95 + 32, n % 95 + 32] + rest);
    assert caps[|more| + 2] == n / 95 + 32 && caps[|more| + 3] == n % 95 + 32;
    DigitsBack(n);
  }

  lemma DigitsBack(n: nat)
    requires n <= 9024
    ensures UnChar(n / 95 + 32) == n / 95 && UnChar(n % 95 + 32) == n % 95
  {
  }

  /** An end that offers long packets and says no length, or nought, takes 500; one that does not offer them, none. */
  lemma LongIsUnsaid(p: Params)
    ensures OffersLong(p) && LastCapability(p.capabilities) < |p.capabilities| <= LastCapability(p.capabilities) + 3 ==> Long(p) == Some(500)
    ensures !OffersLong(p) ==> Long(p) == None
  {
  }

  predicate OffersLong(p: Params) { p.capabilities != [] && BitSet(p.capabilities[0], 2) }

  // ------------------------------------------------------------------
  // What is agreed
  // ------------------------------------------------------------------

  /** The character both fields come to. */
  function Settle(ours: Option<byte>, theirs: Option<byte>): Option<byte> {
    if ours.None? || theirs.None? then None
    else if theirs.value == AGREED then ours
    else theirs
  }

  function Agreed(ours: Params, theirs: Params): Params {
    Params(
      Min(theirs.maxLength, MAX_COUNT),
      theirs.timeout,
      theirs.padding,
      theirs.padWith,
      theirs.endOfLine,
      theirs.control,
      Settle(ours.eighth, theirs.eighth),
      Settle(ours.repeat, theirs.repeat),
      if ours.check == theirs.check then theirs.check else One,
      theirs.capabilities)
  }

  /** What one end sends with: as agreed, but with the control prefix it named itself. */
  function Sending(ours: Params, theirs: Params): Params {
    Agreed(ours, theirs).(control := ours.control)
  }

  /** Where two prefix fields leave both ends with the same character. */
  predicate Matching(a: Option<byte>, b: Option<byte>) {
    || a.None? || b.None?
    || (!Nameable(a) && !Nameable(b))
    || (Nameable(a) && Nameable(b) && (a == b || a.value == AGREED || b.value == AGREED))
  }

  /** The other end as it is known here: its parameters after a trip through a block. */
  function Known(p: Params): Params { ReadBlock(Block(p)) }

  /**
   After each end has read the other's block, the check is the same at both,
   and the prefixes one sends with are those the other reads with exactly when
   each prefix field matches.
   */
  lemma NegotiationMirrors(a: Params, b: Params)
    ensures Agreed(a, Known(b)).check == Agreed(b, Known(a)).check
    ensures Sending(a, Known(b)).Quoting() == Agreed(b, Known(a)).Quoting()
            <==> Matching(a.eighth, b.eighth) && Matching(a.repeat, b.repeat)
    ensures Sending(b, Known(a)).Quoting() == Agreed(a, Known(b)).Quoting()
            <==> Matching(a.eighth, b.eighth) && Matching(a.repeat, b.repeat)
    ensures OffersAttributes(Known(a).capabilities) == OffersAttributes(a.capabilities)
    ensures Long(Known(a)) == Long(a)
  {
    BlockReadsBack(a);
    BlockReadsBack(b);
    SettleMirrors(a.eighth, b.eighth);
    SettleMirrors(a.repeat, b.repeat);
  }

  lemma SettleMirrors(a: Option<byte>, b: Option<byte>)
    ensures Settle(a, Heard(PrefixByte(b))) == Settle(b, Heard(PrefixByte(a))) <==> Matching(a, b)
  {
  }

  /** Two ends that name different characters each take the other's. */
  lemma DifferentCharactersCross()
    ensures var a, b := DEFAULT.(eighth := Some(38)), DEFAULT.(eighth := Some(37));
            && Sending(a, Known(b)).eighth == Some(37) && Agreed(b, Known(a)).eighth == Some(38)
  {
    BlockReadsBack(DEFAULT.(eighth := Some(38)));
    BlockReadsBack(DEFAULT.(eighth := Some(37)));
  }

  /**
   What `a` uses towards `b` once it has heard it: `b`'s length, wait, padding
   and end of line, but `a`'s own control prefix; and it expects `b`'s.
   */
  lemma SendsAsAsked(a: Params, b: Params)
    ensures var s := Sending(a, Known(b));
            && s.maxLength == Min(b.maxLength, 94) && s.timeout == b.timeout
            && s.padding == b.padding && s.padWith == b.padWith && s.endOfLine == b.endOfLine
            && s.control == a.control && Agreed(a, Known(b)).control == b.control && s.capabilities == b.capabilities
            && s.check == (if a.check == b.check then a.check else One)
  {
    BlockReadsBack(b);
  }

  /** Which prefix is used: none if either end refuses, the one's own if the other says `Y`, else the other's. */
  lemma SettlesOn(a: Option<byte>, b: Option<byte>)
    requires Nameable(b)
    ensures var used := Settle(a, Heard(PrefixByte(b)));
            && (a.None? || b.None? ==> used == None)
            && (a.Some? && b == Some('Y' as int) ==> used == a)
            && (a.Some? && b.Some? && b != Some('Y' as int) ==> used == b)
  {
  }
}

/**
 Packets on the wire: how one is built, in the short and the extended form,
 and how the first one in a run of bytes is read back.
 */
module Packets {
  import opened Options
  import opened Bytes
  import opened Checks
  import Octets

  datatype Kind =
    | SendInit | File | Attributes | Data | EndOfFile | Break
    | Ack | Nak | Error | Other(c: byte)
  {
    function AsByte(): byte {
      match this
      case SendInit => 83
      case File => 70
      case Attributes => 65
      case Data => 68
      case EndOfFile => 90
      case Break => 66
      case Ack => 89
      case Nak => 78
      case Error => 69
      case Other(c) => c
    }

    /** Not an `Other` that names one of the known letters. */
    predicate Canonical() { KindOf(AsByte()) == this }
  }

  function KindOf(c: byte): Kind {
    if c == 83 then SendInit
    else if c == 70 then File
    else if c == 65 then Attributes
    else if c == 68 then Data
    else if c == 90 then EndOfFile
    else if c == 66 then Break
    else if c == 89 then Ack
    else if c == 78 then Nak
    else if c == 69 then Error
    else Other(c)
  }

  datatype Packet = Packet(sequence: byte, kind: Kind, data: seq<byte>)

  datatype ReadError = Incomplete | TooLong | BadCheck

  datatype ReadResult = Read(packet: Packet, used: nat) | Refused(why: ReadError)

  /** What two characters of 0 to 94 count to, in base 95. */
  const MAX_LONG := 9024

  /** The characters of the extended form before its data. */
  const HEADER := 7

  /** Short enough for the extended form to count. */
  predicate Fits(p: Packet, check: Check) { |p.data| + check.Chars() <= MAX_LONG }

  // ------------------------------------------------------------------
  // Building
  // ------------------------------------------------------------------

  function Guarded(body: seq<byte>, check: Check, mark: byte): seq<byte> {
    [mark] + body + Of(check, body)
  }

  function ShortBody(p: Packet, check: Check): seq<byte>
    requires |p.data| + 2 + check.Chars() < 256
  {
    [ToChar(|p.data| + 2 + check.Chars()), ToChar(p.sequence), p.kind.AsByte()] + p.data
  }

  function LongHeader(p: Packet, check: Check): seq<byte> {
    var n := |p.data| + check.Chars();
    [ToChar(0), ToChar(p.sequence), p.kind.AsByte(), ToChar(n / 95 % 256), ToChar(n % 95)]
  }

  function LongBody(p: Packet, check: Check): seq<byte> {
    LongHeader(p, check) + Of(One, LongHeader(p, check)) + p.data
  }

  /** The packet without the end of line. */
  function Wire(p: Packet, check: Check, mark: byte): (w: seq<byte>) {
    if |p.data| + 2 + check.Chars() > MAX_COUNT then Guarded(LongBody(p, check), check, mark)
    else Guarded(ShortBody(p, check), check, mark)
  }

  function Eol(eol: Option<byte>): seq<byte> {
    match eol case None => [] case Some(c) => [c]
  }

  lemma LongWire(p: Packet, check: Check, mark: byte)
    requires |p.data| + 2 + check.Chars() > MAX_COUNT
    ensures Wire(p, check, mark) == [mark] + LongBody(p, check) + Of(check, LongBody(p, check))
  {
    hide Of, LongBody;
  }

  lemma ShortWire(p: Packet, check: Check, mark: byte)
    requires |p.data| + 2 + check.Chars() <= MAX_COUNT
    ensures Wire(p, check, mark) == [mark] + ShortBody(p, check) + Of(check, ShortBody(p, check))
  {
    hide Of, ShortBody;
  }

  method BuildLong(p: Packet, check: Check, mark: byte) returns (out: seq<byte>)
    requires Fits(p, check) && |p.data| + 2 + check.Chars() > MAX_COUNT
    ensures out == Wire(p, check, mark)
  {
    hide Of, Wire, LongBody, LongHeader;
    LongWire(p, check, mark);
    LongBodyParts(p, check);
    var n := |p.data| + check.Chars();
    out := [mark, ToChar(0), ToChar(p.sequence), p.kind.AsByte(), ToChar(n / 95), ToChar(n % 95)];
    assert out[1..] == LongHeader(p, check) by { HeaderParts(p, check); }
    out := out + Of(One, out[1..]);
    out := out + p.data;
    assert out[1..] == LongBody(p, check);
    out := out + Of(check, out[1..]);
  }

  method BuildShort(p: Packet, check: Check, mark: byte) returns (out: seq<byte>)
    requires |p.data| + 2 + check.Chars() <= MAX_COUNT
    ensures out == Wire(p, check, mark)
  {
    hide Of, Wire, ShortBody;
    ShortWire(p, check, mark);
    ShortBodyParts(p, check);
    out := [mark, ToChar(|p.data| + 2 + check.Chars()), ToChar(p.sequence)];
    out := out + [p.kind.AsByte()];
    out := out + p.data;
    assert out[1..] == ShortBody(p, check);
    out := out + Of(check, out[1..]);
  }

  method Build(p: Packet, check: Check, mark: byte, eol: Option<byte>) returns (out: seq<byte>)
    requires Fits(p, check)
    ensures out == Wire(p, check, mark) + Eol(eol)
    ensures forall noise, tail | mark !in noise && p.kind.Canonical() ::
      ReadFirst(noise + out + tail, check, mark) == Read(p, |noise| + |Wire(p, check, mark)|)
  {
    hide Of, ReadFirst, Wire, Eol;
    var count := 3 + |p.data| + check.Chars() - 1;
    if count > MAX_COUNT {
      out := BuildLong(p, check, mark);
    } else {
      out := BuildShort(p, check, mark);
    }
    out := out + Eol(eol);
    BuiltReads(p, check, mark, eol, out);
  }

  lemma ShortBodyParts(p: Packet, check: Check)
    requires |p.data| + 2 + check.Chars() <= MAX_COUNT
    ensures ShortBody(p, check) == [ToChar(|p.data| + 2 + check.Chars()), ToChar(p.sequence), p.kind.AsByte()] + p.data
  {
  }

  lemma BuiltReads(p: Packet, check: Check, mark: byte, eol: Option<byte>, out: seq<byte>)
    requires Fits(p, check) && out == Wire(p, check, mark) + Eol(eol)
    ensures forall noise, tail | mark !in noise && p.kind.Canonical() ::
      ReadFirst(noise + out + tail, check, mark) == Read(p, |noise| + |Wire(p, check, mark)|)
  {
    hide *;
    forall noise, tail | mark !in noise && p.kind.Canonical()
      ensures ReadFirst(noise + out + tail, check, mark) == Read(p, |noise| + |Wire(p, check, mark)|)
    {
      assert noise + out + tail == noise + Wire(p, check, mark) + (Eol(eol) + tail);
      ReadBuilt(noise, p, check, mark, Eol(eol) + tail);
    }
  }

  // ------------------------------------------------------------------
  // Reading
  // ------------------------------------------------------------------

  /** What comes first among `bytes`, and where it ends. */
  function ReadFirst(bytes: seq<byte>, check: Check, mark: byte): ReadResult {
    var start := Find(bytes, mark);
    if start == |bytes| then Refused(Incomplete)
    else ReadFrom(bytes[start..], check, start)
  }

  /** The packet that begins `rest`, which begins with a mark. */
  function ReadFrom(rest: seq<byte>, check: Check, start: nat): ReadResult {
    if |rest| < 4 then Refused(Incomplete)
    else
      var count := UnChar(rest[1]);
      if count == 0 then ReadLong(rest, check, start)
      else if count > MAX_COUNT + 1 then Refused(TooLong)
      else ReadWhole(rest, count + 2, 4, check, start)
  }

  /** The extended form. */
  function ReadLong(rest: seq<byte>, check: Check, start: nat): ReadResult {
    if |rest| < HEADER then Refused(Incomplete)
    else if Of(One, rest[1..6])[0] != rest[6] then Refused(BadCheck)
    else
      var n := UnChar(rest[4]) * 95 + UnChar(rest[5]);
      if n > MAX_LONG + 1 then Refused(TooLong)
      else if n < check.Chars() then Refused(BadCheck)
      else ReadWhole(rest, HEADER + n, HEADER, check, start)
  }

  /** A packet of `total` characters whose data begins at `from`. */
  function ReadWhole(rest: seq<byte>, total: nat, from: nat, check: Check, start: nat): ReadResult
    requires |rest| >= 4 && from >= 4
  {
    if |rest| < total then Refused(Incomplete)
    else if total < from + check.Chars() then Refused(BadCheck)
    else
      var end := total - check.Chars();
      if rest[end..total] != Of(check, rest[1..end]) then Refused(BadCheck)
      else Read(Packet(UnChar(rest[2]), KindOf(rest[3]), rest[from..end]), start + total)
  }

  // ------------------------------------------------------------------
  // What is built reads back
  // ------------------------------------------------------------------

  /** A built packet reads back whatever noise is before it and whatever follows. */
  lemma ReadBuilt(noise: seq<byte>, p: Packet, check: Check, mark: byte, tail: seq<byte>)
    requires mark !in noise && p.kind.Canonical() && Fits(p, check)
    ensures ReadFirst(noise + Wire(p, check, mark) + tail, check, mark)
         == Read(p, |noise| + |Wire(p, check, mark)|)
  {
    hide Of;
    var w := Wire(p, check, mark);
    FindAfter(noise, mark, w + tail);
    assert noise + w + tail == noise + (w + tail);
    assert (noise + (w + tail))[|noise|..] == w + tail;
    ReadBuiltFrom(p, check, mark, tail, |noise|);
  }

  /** `rest` begins with `p` in the short form. */
  ghost predicate ShortAt(rest: seq<byte>, p: Packet, check: Check)
    requires |p.data| + 2 + check.Chars() <= MAX_COUNT
  {
    var end := 4 + |p.data|;
    && |rest| >= end + check.Chars()
    && rest[1] == ToChar(|p.data| + 2 + check.Chars())
    && rest[2] == ToChar(p.sequence) && rest[3] == p.kind.AsByte() && rest[4..end] == p.data
    && rest[1..end] == ShortBody(p, check) && rest[end..end + check.Chars()] == Of(check, ShortBody(p, check))
  }

  /** `rest` begins with `p` in the extended form. */
  ghost predicate LongAt(rest: seq<byte>, p: Packet, check: Check) {
    var end := HEADER + |p.data|;
    var n := |p.data| + check.Chars();
    && |rest| >= end + check.Chars()
    && rest[1] == ToChar(0) && rest[2] == ToChar(p.sequence) && rest[3] == p.kind.AsByte()
    && rest[4] == ToChar(n / 95 % 256) && rest[5] == ToChar(n % 95)
    && rest[1..6] == LongHeader(p, check) && rest[6] == Of(One, LongHeader(p, check))[0]
    && rest[HEADER..end] == p.data
    && rest[1..end] == LongBody(p, check) && rest[end..end + check.Chars()] == Of(check, LongBody(p, check))
  }

  lemma ShortLayout(p: Packet, check: Check, mark: byte)
    requires |p.data| + 2 + check.Chars() <= MAX_COUNT
    ensures ShortAt(Wire(p, check, mark), p, check)
    ensures |Wire(p, check, mark)| == 4 + |p.data| + check.Chars() && Wire(p, check, mark)[0] == mark
  {
    hide Of;
    var body := ShortBody(p, check);
    var w := Guarded(body, check, mark);
    assert w[1..1 + |body|] == body;
    assert w[4..1 + |body|] == body[3..] == p.data;
  }

  lemma LongLayout(p: Packet, check: Check, mark: byte)
    requires |p.data| + 2 + check.Chars() > MAX_COUNT
    ensures LongAt(Wire(p, check, mark), p, check)
    ensures |Wire(p, check, mark)| == HEADER + |p.data| + check.Chars() && Wire(p, check, mark)[0] == mark
  {
    hide Of, LongHeader, LongBody, Wire;
    var h, body := LongHeader(p, check), LongBody(p, check);
    var w := Wire(p, check, mark);
    LongWire(p, check, mark);
    LongBodyParts(p, check);
    assert w[1..1 + |body|] == body;
    assert w[1..6] == body[..5];
    assert w[HEADER..1 + |body|] == body[6..];
    assert w[6] == body[5];
    assert w[1 + |body|..1 + |body| + check.Chars()] == Of(check, body);
    HeaderParts(p, check);
    assert forall i | 1 <= i < 6 :: w[i] == h[i - 1];
  }

  lemma LongBodyParts(p: Packet, check: Check)
    ensures var h, body := LongHeader(p, check), LongBody(p, check);
            |h| == 5 && |body| == 6 + |p.data| && body[..5] == h && body[5] == Of(One, h)[0] && body[6..] == p.data
  {
    hide Of;
  }

  lemma HeaderParts(p: Packet, check: Check)
    ensures var h := LongHeader(p, check); var n := |p.data| + check.Chars();
            |h| == 5 && h[0] == ToChar(0) && h[1] == ToChar(p.sequence) && h[2] == p.kind.AsByte()
            && h[3] == ToChar(n / 95 % 256) && h[4] == ToChar(n % 95)
  {
  }

  lemma SliceOfAppend(w: seq<byte>, tail: seq<byte>, i: nat, j: nat)
    requires i <= j <= |w|
    ensures (w + tail)[i..j] == w[i..j]
  {
  }

  lemma ShortAtExtends(w: seq<byte>, p: Packet, check: Check, tail: seq<byte>)
    requires |p.data| + 2 + check.Chars() <= MAX_COUNT && ShortAt(w, p, check)
    ensures ShortAt(w + tail, p, check)
  {
    hide Of, ShortBody;
    var end := 4 + |p.data|;
    SliceOfAppend(w, tail, 1, end);
    SliceOfAppend(w, tail, 4, end);
    SliceOfAppend(w, tail, end, end + check.Chars());
  }

  lemma LongAtExtends(w: seq<byte>, p: Packet, check: Check, tail: seq<byte>)
    requires LongAt(w, p, check)
    ensures LongAt(w + tail, p, check)
  {
    hide Of, LongBody, LongHeader;
    var end := HEADER + |p.data|;
    SliceOfAppend(w, tail, 1, 6);
    SliceOfAppend(w, tail, HEADER, end);
    SliceOfAppend(w, tail, 1, end);
    SliceOfAppend(w, tail, end, end + check.Chars());
  }

  lemma LongCount(n: nat)
    requires n <= MAX_LONG
    ensures UnChar(ToChar(n / 95 % 256)) * 95 + UnChar(ToChar(n % 95)) == n
  {
    hide ToChar, UnChar;
    CountBack(n / 95);
    CountBack(n % 95);
  }

  /** Where a length says the packet ends. */
  lemma ShortLength(rest: seq<byte>, count: nat, check: Check, start: nat)
    requires 0 < count <= MAX_COUNT && |rest| >= 4 && rest[1] == ToChar(count)
    ensures ReadFrom(rest, check, start) == ReadWhole(rest, count + 2, 4, check, start)
  {
    hide ReadLong, ReadWhole, ToChar, UnChar;
    CountBack(count);
  }

  lemma CountBack(n: byte)
    ensures UnChar(ToChar(n)) == n
  {
  }

  lemma LongLength(rest: seq<byte>, n: nat, check: Check, start: nat)
    requires n <= MAX_LONG && |rest| >= HEADER && rest[1] == ToChar(0)
    requires rest[4] == ToChar(n / 95 % 256) && rest[5] == ToChar(n % 95)
    requires rest[6] == Of(One, rest[1..6])[0]
    ensures ReadFrom(rest, check, start)
         == if n < check.Chars() then Refused(BadCheck) else ReadWhole(rest, HEADER + n, HEADER, check, start)
  {
    hide Of, ReadWhole, ToChar, UnChar;
    CountBack(0);
    LongCount(n);
  }

  lemma ReadShort(rest: seq<byte>, p: Packet, check: Check, start: nat)
    requires |p.data| + 2 + check.Chars() <= MAX_COUNT && ShortAt(rest, p, check) && p.kind.Canonical()
    ensures ReadFrom(rest, check, start) == Read(p, start + 4 + |p.data| + check.Chars())
  {
    hide Of, ShortBody, ReadFrom;
    ShortLength(rest, |p.data| + 2 + check.Chars(), check, start);
  }

  lemma ReadExtended(rest: seq<byte>, p: Packet, check: Check, start: nat)
    requires LongAt(rest, p, check) && p.kind.Canonical() && Fits(p, check)
    ensures ReadFrom(rest, check, start) == Read(p, start + HEADER + |p.data| + check.Chars())
  {
    hide Of, LongBody, LongHeader, ReadFrom;
    LongLength(rest, |p.data| + check.Chars(), check, start);
  }

  lemma ReadBuiltFrom(p: Packet, check: Check, mark: byte, tail: seq<byte>, start: nat)
    requires p.kind.Canonical() && Fits(p, check)
    ensures ReadFrom(Wire(p, check, mark) + tail, check, start)
         == Read(p, start + |Wire(p, check, mark)|)
  {
    hide *;
    var w := Wire(p, check, mark);
    if |p.data| + 2 + check.Chars() > MAX_COUNT {
      LongLayout(p, check, mark);
      LongAtExtends(w, p, check, tail);
      ReadExtended(w + tail, p, check, start);
    } else {
      ShortLayout(p, check, mark);
      ShortAtExtends(w, p, check, tail);
      ReadShort(w + tail, p, check, start);
    }
  }

  /** Every strict prefix of a packet is waited for. */
  lemma PrefixIncomplete(noise: seq<byte>, p: Packet, check: Check, mark: byte, k: nat)
    requires mark !in noise && Fits(p, check) && k < |Wire(p, check, mark)|
    ensures ReadFirst(noise + Wire(p, check, mark)[..k], check, mark) == Refused(Incomplete)
  {
    hide Of, Wire;
    var w := Wire(p, check, mark);
    if k == 0 {
      FindNowhere(noise, mark);
      assert noise + w[..0] == noise;
    } else {
      if |p.data| + 2 + check.Chars() > MAX_COUNT {
        LongLayout(p, check, mark);
        LongPrefixWaits(w, p, check, k, |noise|);
      } else {
        ShortLayout(p, check, mark);
        ShortPrefixWaits(w, p, check, k, |noise|);
      }
      FindAfter(noise, mark, w[..k]);
      assert (noise + w[..k])[|noise|..] == w[..k];
    }
  }

  lemma ShortPrefixWaits(w: seq<byte>, p: Packet, check: Check, k: nat, start: nat)
    requires |p.data| + 2 + check.Chars() <= MAX_COUNT && ShortAt(w, p, check)
    requires k < |w| == 4 + |p.data| + check.Chars()
    ensures ReadFrom(w[..k], check, start) == Refused(Incomplete)
  {
    hide Of, ShortBody, ReadFrom;
    if k < 4 {
      TooFew(w[..k], check, start);
    } else {
      ShortLength(w[..k], |p.data| + 2 + check.Chars(), check, start);
    }
  }

  lemma TooFew(rest: seq<byte>, check: Check, start: nat)
    requires |rest| < 4
    ensures ReadFrom(rest, check, start) == Refused(Incomplete)
  {
  }

  lemma LongPrefixWaits(w: seq<byte>, p: Packet, check: Check, k: nat, start: nat)
    requires LongAt(w, p, check) && Fits(p, check)
    requires k < |w| == HEADER + |p.data| + check.Chars()
    ensures ReadFrom(w[..k], check, start) == Refused(Incomplete)
  {
    hide Of, LongBody, LongHeader;
    LongCount(|p.data| + check.Chars());
    if k >= HEADER {
      assert w[..k][1..6] == w[1..6];
    }
  }

  // ------------------------------------------------------------------
  // Reading as bytes arrive
  // ------------------------------------------------------------------

  /** Any verdict but `Incomplete` stands whatever arrives afterwards. */
  lemma VerdictStable(a: seq<byte>, b: seq<byte>, check: Check, mark: byte)
    requires ReadFirst(a, check, mark) != Refused(Incomplete)
    ensures ReadFirst(a + b, check, mark) == ReadFirst(a, check, mark)
  {
    hide ReadFrom;
    FindStable(a, b, mark);
    var start := Find(a, mark);
    assert (a + b)[start..] == a[start..] + b;
    RestStable(a[start..], b, check, start);
  }

  lemma RestStable(rest: seq<byte>, b: seq<byte>, check: Check, start: nat)
    requires ReadFrom(rest, check, start) != Refused(Incomplete)
    ensures ReadFrom(rest + b, check, start) == ReadFrom(rest, check, start)
  {
    hide Of, ReadLong, ReadWhole, UnChar;
    assert rest[1] == (rest + b)[1];
    if UnChar(rest[1]) == 0 {
      LongStable(rest, b, check, start);
    } else if UnChar(rest[1]) <= MAX_COUNT + 1 {
      ShortEnough(rest, UnChar(rest[1]) + 2, 4, check, start);
      WholeStable(rest, b, UnChar(rest[1]) + 2, 4, check, start);
    }
  }

  lemma ShortEnough(rest: seq<byte>, total: nat, from: nat, check: Check, start: nat)
    requires |rest| >= 4 && from >= 4 && ReadWhole(rest, total, from, check, start) != Refused(Incomplete)
    ensures total <= |rest|
  {
  }

  lemma LongStable(rest: seq<byte>, b: seq<byte>, check: Check, start: nat)
    requires |rest| >= 4 && ReadLong(rest, check, start) != Refused(Incomplete)
    ensures ReadLong(rest + b, check, start) == ReadLong(rest, check, start)
  {
    hide Of, ReadWhole, UnChar;
    assert (rest + b)[1..6] == rest[1..6];
    if Of(One, rest[1..6])[0] == rest[6] {
      var n := UnChar(rest[4]) * 95 + UnChar(rest[5]);
      if check.Chars() <= n <= MAX_LONG + 1 {
        ShortEnough(rest, HEADER + n, HEADER, check, start);
        WholeStable(rest, b, HEADER + n, HEADER, check, start);
      }
    }
  }

  lemma WholeStable(rest: seq<byte>, b: seq<byte>, total: nat, from: nat, check: Check, start: nat)
    requires total <= |rest| && |rest| >= 4 && from >= 4
    ensures ReadWhole(rest + b, total, from, check, start) == ReadWhole(rest, total, from, check, start)
  {
    hide Of;
    if total >= from + check.Chars() {
      var end := total - check.Chars();
      assert (rest + b)[1..end] == rest[1..end];
      assert (rest + b)[end..total] == rest[end..total];
      assert (rest + b)[from..end] == rest[from..end];
    }
  }

  /** What is still waited for is short: at most 9031 bytes from its mark on. */
  lemma WaitingIsShort(bytes: seq<byte>, check: Check, mark: byte)
    requires ReadFirst(bytes, check, mark) == Refused(Incomplete)
    ensures |bytes| - Find(bytes, mark) <= HEADER + MAX_LONG
  {
    hide Of;
  }

  /** What is used lies within what was given, and is at least the packet's frame. */
  lemma UsedInRange(bytes: seq<byte>, check: Check, mark: byte)
    requires ReadFirst(bytes, check, mark).Read?
    ensures Find(bytes, mark) + 5 <= ReadFirst(bytes, check, mark).used <= |bytes|
  {
    hide Of;
  }

  /**
   Read with a check it was not built with, a packet is refused or misread in
   its data alone: its sequence, its kind and its length are where they were.
   */
  lemma ReadWithAnother(noise: seq<byte>, p: Packet, check: Check, mark: byte, tail: seq<byte>, other: Check)
    requires mark !in noise && p.kind.Canonical() && Fits(p, check)
    ensures SameButData(ReadFirst(noise + Wire(p, check, mark) + tail, other, mark), p, |noise| + |Wire(p, check, mark)|)
  {
    hide Of, Wire, ShortAt, LongAt, ReadFrom;
    var w := Wire(p, check, mark);
    if |p.data| + 2 + check.Chars() > MAX_COUNT {
      LongLayout(p, check, mark);
      LongAtExtends(w, p, check, tail);
      ReadExtendedWithAnother(w + tail, p, check, other, |noise|);
    } else {
      ShortLayout(p, check, mark);
      ShortAtExtends(w, p, check, tail);
      ReadShortWithAnother(w + tail, p, check, other, |noise|);
    }
    FindAfter(noise, mark, w + tail);
    assert noise + w + tail == noise + (w + tail);
    assert (noise + (w + tail))[|noise|..] == w + tail;
  }

  /** Refused, or read as `p` but for its data. */
  predicate SameButData(r: ReadResult, p: Packet, used: nat) {
    r == Refused(BadCheck)
    || (r.Read? && r.used == used && r.packet.sequence == p.sequence && r.packet.kind == p.kind)
  }

  lemma ReadShortWithAnother(rest: seq<byte>, p: Packet, check: Check, other: Check, start: nat)
    requires |p.data| + 2 + check.Chars() <= MAX_COUNT && ShortAt(rest, p, check) && p.kind.Canonical()
    ensures SameButData(ReadFrom(rest, other, start), p, start + 4 + |p.data| + check.Chars())
  {
    hide Of, ShortBody, ReadFrom;
    ShortLength(rest, |p.data| + 2 + check.Chars(), other, start);
  }

  lemma ReadExtendedWithAnother(rest: seq<byte>, p: Packet, check: Check, other: Check, start: nat)
    requires LongAt(rest, p, check) && p.kind.Canonical() && Fits(p, check)
    ensures SameButData(ReadFrom(rest, other, start), p, start + HEADER + |p.data| + check.Chars())
  {
    hide Of, LongBody, LongHeader, ReadFrom;
    LongLength(rest, |p.data| + check.Chars(), other, start);
  }

  // ------------------------------------------------------------------
  // Read with either of two checks
  // ------------------------------------------------------------------

  /**
   A sound extended header that counts fewer characters than `check` has, on
   a packet that has not all come: refused with that check before it is asked
   whether there is more to come, and waited for with the shortest one.
   */
  predicate Undercounts(rest: seq<byte>, check: Check) {
    && |rest| >= HEADER && UnChar(rest[1]) == 0 && Of(One, rest[1..6])[0] == rest[6]
    && var n := UnChar(rest[4]) * 95 + UnChar(rest[5]);
       1 <= n < check.Chars() && |rest| < HEADER + n
  }

  /** That is the only way for one check to refuse what the shortest waits for. */
  lemma RefusedYetWaited(rest: seq<byte>, check: Check, start: nat)
    ensures ReadFrom(rest, One, start) == Refused(Incomplete) && ReadFrom(rest, check, start) != Refused(Incomplete)
            <==> Undercounts(rest, check)
    ensures ReadFrom(rest, check, start) == Refused(Incomplete) ==> ReadFrom(rest, One, start) == Refused(Incomplete)
    ensures Undercounts(rest, check) ==> ReadFrom(rest, check, start) == Refused(BadCheck)
  {
    hide Of, UnChar;
  }

  /** What would end a packet that counts too few, read with the shortest check. */
  function Missing(rest: seq<byte>, check: Check): seq<byte>
    requires Undercounts(rest, check)
  {
    var n := UnChar(rest[4]) * 95 + UnChar(rest[5]);
    var filling := Repeat(32, HEADER - 1 + n - |rest|);
    filling + Of(One, rest[1..] + filling)
  }

  lemma MissingEnds(rest: seq<byte>, check: Check, start: nat)
    requires Undercounts(rest, check)
    ensures var r := ReadFrom(rest + Missing(rest, check), One, start);
            r.Read? && r.used == start + |rest + Missing(rest, check)|
    ensures ReadFrom(rest + Missing(rest, check), check, start) == Refused(BadCheck)
  {
    hide Of, UnChar;
    var n := UnChar(rest[4]) * 95 + UnChar(rest[5]);
    var all, filling := rest + Missing(rest, check), Repeat(32, HEADER - 1 + n - |rest|);
    var end := HEADER + n - 1;
    assert all[1..6] == rest[1..6];
    assert all[1..end] == rest[1..] + filling;
    assert all[end..end + 1] == Of(One, rest[1..] + filling);
  }

  // ------------------------------------------------------------------
  // What a check refuses
  // ------------------------------------------------------------------

  /** Everything the check of `p` covers. */
  function Body(p: Packet, check: Check): seq<byte> {
    if |p.data| + 2 + check.Chars() > MAX_COUNT then LongBody(p, check) else ShortBody(p, check)
  }

  /** Where the data begins in what the check of `p` covers. */
  function DataAt(p: Packet, check: Check): nat {
    if |p.data| + 2 + check.Chars() > MAX_COUNT then HEADER - 1 else 3
  }

  /** `p` on the wire with other data in the place of its own, the check as it was. */
  function Altered(p: Packet, check: Check, mark: byte, data': seq<byte>): seq<byte> {
    [mark] + AlteredBody(p, check, data') + Of(check, Body(p, check))
  }

  function AlteredBody(p: Packet, check: Check, data': seq<byte>): seq<byte> {
    BodyParts(p, check);
    Body(p, check)[..DataAt(p, check)] + data'
  }

  /** What is altered is the packet as it was built, but for the data. */
  lemma AlteredIsWire(p: Packet, check: Check, mark: byte, data': seq<byte>)
    requires |data'| == |p.data|
    ensures var w := Wire(p, check, mark); var i := 1 + DataAt(p, check);
            && |w| >= i + |p.data| && w[i..i + |p.data|] == p.data
            && Altered(p, check, mark, data') == w[..i] + data' + w[i + |p.data|..]
  {
    hide Of, Wire, Body, DataAt;
    WireIsBody(p, check, mark);
    BodyParts(p, check);
  }

  lemma BodyParts(p: Packet, check: Check)
    ensures 3 <= DataAt(p, check) && DataAt(p, check) + |p.data| == |Body(p, check)|
    ensures Body(p, check)[DataAt(p, check)..] == p.data
  {
    hide Of, LongBody, ShortBody;
    if |p.data| + 2 + check.Chars() > MAX_COUNT {
      LongBodyParts(p, check);
    } else {
      ShortBodyParts(p, check);
    }
  }

  lemma WireIsBody(p: Packet, check: Check, mark: byte)
    ensures Wire(p, check, mark) == [mark] + Body(p, check) + Of(check, Body(p, check))
  {
    hide Of, LongBody, ShortBody, Wire;
    if |p.data| + 2 + check.Chars() > MAX_COUNT {
      LongWire(p, check, mark);
    } else {
      ShortWire(p, check, mark);
    }
  }

  /** A packet whose data was altered so that the check is another is refused, in both forms. */
  lemma AlteredRefused(noise: seq<byte>, p: Packet, check: Check, mark: byte, tail: seq<byte>, data': seq<byte>)
    requires mark !in noise && Fits(p, check) && |data'| == |p.data|
    requires Of(check, AlteredBody(p, check, data')) != Of(check, Body(p, check))
    ensures ReadFirst(noise + Altered(p, check, mark, data') + tail, check, mark) == Refused(BadCheck)
  {
    hide Of, ReadFrom, ReadFirst, Body, DataAt;
    BodyParts(p, check);
    AlteredRefusedFrom(p, check, mark, AlteredBody(p, check, data'), tail, |noise|);
    ReadAfterNoise(noise, Altered(p, check, mark, data'), check, mark, tail);
  }

  /** Not the same, but different only at `at` and the place after it. */
  ghost predicate AlteredAt(data': seq<byte>, data: seq<byte>, at: nat) {
    && |data'| == |data| && data' != data
    && forall i | 0 <= i < |data| && i != at && i != at + 1 :: data'[i] == data[i]
  }

  /**
   A packet built with the CRC and altered in one or two adjacent data
   characters is always refused, in both forms.
   */
  lemma AlteredDataRefused(noise: seq<byte>, p: Packet, mark: byte, tail: seq<byte>, data': seq<byte>, at: nat)
    requires mark !in noise && Fits(p, Three) && at < |p.data| && AlteredAt(data', p.data, at)
    ensures ReadFirst(noise + Altered(p, Three, mark, data') + tail, Three, mark) == Refused(BadCheck)
  {
    hide Of, ReadFrom, ReadFirst, Body, DataAt, Altered;
    BodyParts(p, Three);
    var body, i := Body(p, Three), DataAt(p, Three);
    var k := if at + 1 < |p.data| then i + at else i + at - 1;
    TailAltered(body, i, data', at, k);
    BodiesTold(AlteredBody(p, Three, data'), body, k);
    AlteredRefused(noise, p, Three, mark, tail, data');
  }

  /** One built with the one-character check and altered in any one bit of its data is always refused. */
  lemma AlteredBitRefused(noise: seq<byte>, p: Packet, mark: byte, tail: seq<byte>, at: nat, c: byte)
    requires mark !in noise && Fits(p, One) && at < |p.data|
    requires Octets.OneBit(Octets.OfByte(p.data[at]) ^ Octets.OfByte(c))
    ensures ReadFirst(noise + Altered(p, One, mark, p.data[at := c]) + tail, One, mark) == Refused(BadCheck)
  {
    hide Of, ReadFrom, ReadFirst, Body, DataAt, Altered, Octets.OfByte, Octets.OneBit;
    OneAltered(p, One, at, c);
    OneBitChangesOne(Body(p, One), DataAt(p, One) + at, c);
    AlteredRefused(noise, p, One, mark, tail, p.data[at := c]);
  }

  /** One built with the two-character check and altered in any one byte of its data is always refused. */
  lemma AlteredByteRefused(noise: seq<byte>, p: Packet, mark: byte, tail: seq<byte>, at: nat, c: byte)
    requires mark !in noise && Fits(p, Two) && at < |p.data| && c != p.data[at]
    ensures ReadFirst(noise + Altered(p, Two, mark, p.data[at := c]) + tail, Two, mark) == Refused(BadCheck)
  {
    hide Of, ReadFrom, ReadFirst, Body, DataAt, Altered;
    OneAltered(p, Two, at, c);
    OneByteChangesTwo(Body(p, Two), DataAt(p, Two) + at, c);
    AlteredRefused(noise, p, Two, mark, tail, p.data[at := c]);
  }

  lemma OneAltered(p: Packet, check: Check, at: nat, c: byte)
    requires at < |p.data|
    ensures var i := DataAt(p, check) + at;
            && i < |Body(p, check)| && Body(p, check)[i] == p.data[at]
            && AlteredBody(p, check, p.data[at := c]) == Body(p, check)[i := c]
  {
    hide Of, Body, DataAt;
    BodyParts(p, check);
    assert Body(p, check)[DataAt(p, check)..][at] == p.data[at];
    var i := DataAt(p, check);
    assert forall j | i <= j < |Body(p, check)| :: Body(p, check)[j] == p.data[j - i];
  }

  /** Reading from the first mark. */
  lemma ReadAfterNoise(noise: seq<byte>, w: seq<byte>, check: Check, mark: byte, tail: seq<byte>)
    requires mark !in noise && w != [] && w[0] == mark
    ensures ReadFirst(noise + w + tail, check, mark) == ReadFrom(w + tail, check, |noise|)
  {
    hide ReadFrom;
    FindAfter(noise, mark, w + tail);
    assert noise + w + tail == noise + (w + tail);
    assert (noise + (w + tail))[|noise|..] == w + tail;
  }

  lemma TailAltered(body: seq<byte>, i: nat, data': seq<byte>, at: nat, k: nat)
    requires i <= |body| && AlteredAt(data', body[i..], at) && (k == i + at || k + 1 == i + at)
    requires k + 1 == i + at ==> at + 1 == |data'|
    ensures AlteredAt(body[..i] + data', body, k)
  {
    assert (body[..i] + data')[i..] == data';
  }

  lemma BodiesTold(body': seq<byte>, body: seq<byte>, k: nat)
    requires k + 2 <= |body| && AlteredAt(body', body, k)
    ensures Of(Three, body') != Of(Three, body)
  {
    hide Crc16, CrcChars;
    var before, after := body[..k], body[k + 2..];
    assert body == before + [body[k], body[k + 1]] + after;
    assert body' == before + [body'[k], body'[k + 1]] + after;
    BurstChangesCrc(before, body[k], body[k + 1], body'[k], body'[k + 1], after);
    if CrcChars(Crc16(body)) == CrcChars(Crc16(body')) {
      CrcCharsInjective(Crc16(body), Crc16(body'));
    }
  }

  /** With the header as built, a body whose check does not match is refused. */
  lemma AlteredRefusedFrom(p: Packet, check: Check, mark: byte, body': seq<byte>, tail: seq<byte>, start: nat)
    requires Fits(p, check) && |body'| == |Body(p, check)| && DataAt(p, check) <= |body'|
    requires body'[..DataAt(p, check)] == Body(p, check)[..DataAt(p, check)]
    requires Of(check, body') != Of(check, Body(p, check))
    ensures ReadFrom([mark] + body' + Of(check, Body(p, check)) + tail, check, start) == Refused(BadCheck)
  {
    hide Of, Wire, Guarded, ReadFrom;
    var sent, n := Of(check, Body(p, check)), |p.data|;
    var rest := [mark] + body' + sent + tail;
    AroundBody(mark, body', sent, tail);
    if n + 2 + check.Chars() > MAX_COUNT {
      HeaderKept(rest, p, check, body');
      LongLength(rest, n + check.Chars(), check, start);
    } else {
      assert rest[1] == body'[..3][0] == Body(p, check)[..3][0] == ToChar(n + 2 + check.Chars());
      ShortLength(rest, n + 2 + check.Chars(), check, start);
    }
  }

  lemma AroundBody(mark: byte, body: seq<byte>, check: seq<byte>, tail: seq<byte>)
    ensures var rest, end := [mark] + body + check + tail, 1 + |body|;
            |rest| >= end + |check| && rest[1..end] == body && rest[end..end + |check|] == check
  {
  }

  lemma HeaderKept(rest: seq<byte>, p: Packet, check: Check, body': seq<byte>)
    requires |p.data| + 2 + check.Chars() > MAX_COUNT && |body'| == |Body(p, check)|
    requires |rest| > |body'| && rest[1..1 + |body'|] == body' && body'[..6] == Body(p, check)[..6]
    ensures var h := LongHeader(p, check);
            && rest[1..6] == h && rest[1] == h[0] && rest[4] == h[3] && rest[5] == h[4] && rest[6] == Of(One, h)[0]
  {
    hide Of;
    var h := LongHeader(p, check);
    assert Body(p, check)[..6] == h + Of(One, h);
    assert rest[1..7] == rest[1..1 + |body'|][..6];
    assert rest[1..6] == rest[1..7][..5] == h;
    assert rest[6] == rest[1..7][5];
  }

  // ------------------------------------------------------------------
  // Characters by number
  // ------------------------------------------------------------------

  /** The letters of the packet types, as characters. */
  lemma KindsAreLetters()
    ensures [SendInit.AsByte(), File.AsByte(), Attributes.AsByte(), Kind.Data.AsByte(), EndOfFile.AsByte(), Break.AsByte(),
             Ack.AsByte(), Nak.AsByte(), Error.AsByte()]
         == ['S' as int, 'F' as int, 'A' as int, 'D' as int, 'Z' as int, 'B' as int, 'Y' as int, 'N' as int, 'E' as int]
  {
  }

  /** The short form, character by character: each count and number is sent as 32 more than it is. */
  ghost predicate WrittenShort(w: seq<byte>, p: Packet, check: Check, mark: byte) {
    var end := 4 + |p.data|;
    && |w| == end + check.Chars() && w[0] == mark && w[1] as int == |p.data| + 2 + check.Chars() + 32
    && w[2] as int == p.sequence + 32 && w[3] == p.kind.AsByte() && w[4..end] == p.data && w[end..] == Of(check, w[1..end])
  }

  /**
   The extended form: a space for the length, and then, in two digits of base
   95, the high one first, how many characters come after the header.
   */
  ghost predicate WrittenLong(w: seq<byte>, p: Packet, check: Check, mark: byte) {
    var end := 7 + |p.data|;
    && |w| == end + check.Chars() && w[0] == mark && w[1] == 32
    && w[2] as int == p.sequence + 32 && w[3] == p.kind.AsByte()
    && CountedBy(|p.data| + check.Chars(), w[4], w[5]) && w[6] == Of(One, w[1..6])[0]
    && w[7..end] == p.data && w[end..] == Of(check, w[1..end])
  }

  predicate CountedBy(n: nat, high: byte, low: byte) {
    32 <= high <= 126 && 32 <= low <= 126 && (high as int - 32) * 95 + (low as int - 32) == n
  }

  /** What a built packet is, with no other function of the characters than the check. */
  lemma BuiltInNumbers(p: Packet, check: Check, mark: byte)
    requires Fits(p, check) && p.sequence < 64
    ensures if |p.data| + check.Chars() <= 92 then WrittenShort(Wire(p, check, mark), p, check, mark)
            else WrittenLong(Wire(p, check, mark), p, check, mark)
  {
    hide Of, Wire, LongHeader, LongBody, ShortBody, CountedBy;
    if |p.data| + 2 + check.Chars() > MAX_COUNT {
      LongLayout(p, check, mark);
      CountInDigits(|p.data| + check.Chars());
    } else {
      ShortLayout(p, check, mark);
    }
  }

  lemma CountInDigits(n: nat)
    requires n <= MAX_LONG
    ensures CountedBy(n, ToChar(n / 95 % 256), ToChar(n % 95))
  {
  }

  /**
   The first `n` of these characters are a packet with this check: a count of what
   follows it, or a count of nothing, then five characters with a check of their
   own, two of which count the rest; and at the end the check of all but the mark.
   */
  ghost predicate Holds(rest: seq<byte>, n: nat, p: Packet, check: Check) {
    && 4 + check.Chars() <= n <= |rest|
    && var w, end, count := rest[..n], n - check.Chars(), UnChar(rest[1]);
       && w[end..] == Of(check, w[1..end]) && UnChar(w[2]) == p.sequence && KindOf(w[3]) == p.kind
       && if count != 0 then count <= 95 && n == 2 + count && p.data == w[4..end]
          else
            && 7 + check.Chars() <= n && Of(One, w[1..6]) == [w[6]]
            && UnChar(w[4]) * 95 + UnChar(w[5]) == n - 7 <= 9025 && p.data == w[7..end]
  }

  /** What is read from a mark on is exactly what the characters there hold. */
  lemma ReadExactly(rest: seq<byte>, check: Check, start: nat, p: Packet, n: nat)
    ensures ReadFrom(rest, check, start) == Read(p, start + n) <==> Holds(rest, n, p, check)
  {
    hide Of, UnChar, KindOf;
    if |rest| >= 4 {
      var count: nat := UnChar(rest[1]);
      if count == 0 {
        if |rest| >= 7 {
          if 7 <= n <= |rest| {
            assert rest[..n][1..6] == rest[1..6];
          }
          WholeExactly(rest, 7 + UnChar(rest[4]) * 95 + UnChar(rest[5]), 7, check, start, p, n);
        }
      } else {
        WholeExactly(rest, count + 2, 4, check, start, p, n);
      }
    }
  }

  lemma WholeExactly(rest: seq<byte>, total: nat, from: nat, check: Check, start: nat, p: Packet, n: nat)
    requires |rest| >= 4 && from >= 4
    ensures ReadWhole(rest, total, from, check, start) == Read(p, start + n) <==>
              && n == total <= |rest| && from + check.Chars() <= n
              && var w, end := rest[..n], n - check.Chars();
                 && w[end..] == Of(check, w[1..end]) && UnChar(w[2]) == p.sequence && KindOf(w[3]) == p.kind
                 && p.data == w[from..end]
  {
    hide Of, UnChar, KindOf;
    if n == total <= |rest| && from + check.Chars() <= n {
      var w, end := rest[..n], n - check.Chars();
      assert w[end..] == rest[end..n] && w[1..end] == rest[1..end] && w[from..end] == rest[from..end];
    }
  }
}

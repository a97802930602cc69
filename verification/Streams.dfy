/**
 Bytes as they arrive: taking packets from a buffer, and feeding whole ends a
 piece at a time. What is built is taken exactly, in order; a single check
 makes every way of splitting the input the same; and what waits is bounded.
 */
module Streams {
  import opened Options
  import opened Bytes
  import opened Checks
  import opened Packets
  import opened Parameters
  import opened Protocol
  import Data
  import opened Tallies

  // ------------------------------------------------------------------
  // Taking one packet
  // ------------------------------------------------------------------

  /** What one check makes of a buffer that begins with a mark. */
  function TakeMarked(rest: seq<byte>, check: Check): Taken
    requires rest != [] && rest[0] == MARK
  {
    hide ReadFirst;
    match ReadFirst(rest, check, MARK)
    case Read(p, used) => UsedInRange(rest, check, MARK); Taken(Arrived(p), rest[used..])
    case Refused(Incomplete) => Taken(Nothing, rest)
    case Refused(_) => Taken(Damage, rest[1..])
  }

  /** With one check, taking is reading from the first mark. */
  lemma TakeIsRead(buffer: seq<byte>, check: Check)
    ensures var start := Find(buffer, MARK);
            Take(buffer, [check]) == if start == |buffer| then Taken(Nothing, []) else TakeMarked(buffer[start..], check)
  {
    hide ReadFirst, TryChecks, TakeMarked;
    var start := Find(buffer, MARK);
    if start < |buffer| {
      TryOneCheck(buffer[start..], check);
    }
  }

  lemma TryOneCheck(rest: seq<byte>, check: Check)
    requires rest != [] && rest[0] == MARK
    ensures TryChecks(rest, [check], false) == TakeMarked(rest, check)
  {
    hide ReadFirst;
    var r := ReadFirst(rest, check, MARK);
    if r.Refused? {
      assert TryChecks(rest, [check], false) == TryChecks(rest, [], r.why != Incomplete) by { assert [check][1..] == []; }
      if r.why == Incomplete {
        FindAtMark(rest);
        WaitingIsShort(rest, check, MARK);
      }
    }
  }

  lemma FindAtMark(rest: seq<byte>)
    requires rest != [] && rest[0] == MARK
    ensures Find(rest, MARK) == 0
  {
  }

  /**
   Whatever checks are tried, damage is a packet that none of them reads and one
   of them refuses: the guard against noise never fires by itself.
   */
  lemma DamageIsRefusal(buffer: seq<byte>, checks: seq<Check>)
    requires checks != []
    ensures var start := Find(buffer, MARK);
            Take(buffer, checks).arrival == Damage <==>
              && start < |buffer|
              && (forall c | c in checks :: ReadFirst(buffer[start..], c, MARK).Refused?)
              && (exists c | c in checks :: ReadFirst(buffer[start..], c, MARK) != Refused(Incomplete))
  {
    hide ReadFirst, TryChecks;
    var start := Find(buffer, MARK);
    if start < |buffer| {
      var rest := buffer[start..];
      TriesRefuse(rest, checks, false);
      if ReadFirst(rest, checks[0], MARK) == Refused(Incomplete) {
        FindAtMark(rest);
        WaitingIsShort(rest, checks[0], MARK);
      }
    }
  }

  lemma {:induction false} TriesRefuse(rest: seq<byte>, checks: seq<Check>, damaged: bool)
    requires rest != []
    ensures TryChecks(rest, checks, damaged).arrival == Damage <==>
              && (forall c | c in checks :: ReadFirst(rest, c, MARK).Refused?)
              && (damaged || |rest| > MOST_BUFFERED
                  || exists c | c in checks :: ReadFirst(rest, c, MARK) != Refused(Incomplete))
    decreases |checks|
  {
    hide ReadFirst;
    if checks != [] {
      var r := ReadFirst(rest, checks[0], MARK);
      assert checks == [checks[0]] + checks[1..];
      TriesRefuse(rest, checks[1..], damaged || r != Refused(Incomplete));
    }
  }

  /** What is left waiting is at most 9031 bytes, whatever arrived. */
  lemma WaitingIsBounded(buffer: seq<byte>, check: Check)
    requires Take(buffer, [check]).arrival == Nothing
    ensures |Take(buffer, [check]).rest| <= HEADER + MAX_LONG
  {
    hide ReadFirst, Take;
    TakeIsRead(buffer, check);
    var start := Find(buffer, MARK);
    if start < |buffer| {
      FindAtMark(buffer[start..]);
      WaitingIsShort(buffer[start..], check, MARK);
    }
  }

  /** Noise before a mark changes nothing but how soon it is thrown away. */
  lemma TakeSkipsNoise(noise: seq<byte>, buffer: seq<byte>, checks: seq<Check>)
    requires MARK !in noise
    ensures Take(noise + buffer, checks) == Take(buffer, checks)
  {
    hide TryChecks;
    var start := Find(buffer, MARK);
    var all := noise + buffer;
    if start == |buffer| {
      assert MARK !in buffer by { assert buffer[..start] == buffer; }
      FindNowhere(all, MARK);
    } else {
      FindAfter(noise + buffer[..start], MARK, buffer[start..]);
      assert all == noise + buffer[..start] + buffer[start..];
      assert all[|noise| + start..] == buffer[start..];
    }
  }

  /** A built packet at the head of a buffer is taken exactly. */
  lemma TakeBuilt(p: Packet, check: Check, tail: seq<byte>)
    requires p.kind.Canonical() && Fits(p, check)
    ensures Take(Wire(p, check, MARK) + tail, [check]) == Taken(Arrived(p), tail)
  {
    hide ReadFirst, Take, Wire, Fits;
    var w := Wire(p, check, MARK);
    ReadBuilt([], p, check, MARK, tail);
    assert [] + w + tail == w + tail;
    WireStartsWithMark(p, check);
    FindAtMark(w + tail);
    assert (w + tail)[0..] == w + tail;
    TakeIsRead(w + tail, check);
    assert (w + tail)[|w|..] == tail;
  }

  lemma WireStartsWithMark(p: Packet, check: Check)
    ensures Wire(p, check, MARK) != [] && Wire(p, check, MARK)[0] == MARK
  {
    hide Of;
  }

  /** A verdict is not changed by what arrives after it. */
  lemma TakeStable(a: seq<byte>, b: seq<byte>, check: Check)
    ensures var t := Take(a, [check]);
            Take(a + b, [check]) == if t.arrival == Nothing then Take(t.rest + b, [check])
                                    else Taken(t.arrival, t.rest + b)
  {
    hide ReadFirst, Take, TakeMarked;
    TakeIsRead(a, check);
    var t, start := Take(a, [check]), Find(a, MARK);
    if start == |a| {
      assert MARK !in a by { assert a[..start] == a; }
      TakeSkipsNoise(a, b, [check]);
      assert [] + b == b;
    } else {
      var rest := a[start..];
      FindStable(a, b, MARK);
      assert (a + b)[start..] == rest + b;
      TakeIsRead(a + b, check);
      if t.arrival == Nothing {
        assert t.rest == rest by { WaitingIsKept(rest, check); }
        assert a + b == a[..start] + (rest + b);
        TakeSkipsNoise(a[..start], rest + b, [check]);
      } else {
        MarkedStable(rest, b, check);
      }
    }
  }

  /** What either of two checks makes of a buffer that begins with a mark. */
  lemma TryTwoChecks(rest: seq<byte>, check: Check)
    requires rest != [] && rest[0] == MARK
    ensures var r := ReadFirst(rest, check, MARK); var q := ReadFirst(rest, One, MARK);
            && (r.Read? ==> TryChecks(rest, [check, One], false) == TakeMarked(rest, check))
            && (r.Refused? && q.Read? ==> TryChecks(rest, [check, One], false) == TakeMarked(rest, One))
            && (r.Refused? && q.Refused? ==>
                  TryChecks(rest, [check, One], false)
                  == if r == q == Refused(Incomplete) then Taken(Nothing, rest) else Taken(Damage, rest[1..]))
  {
    hide ReadFirst;
    var r, q := ReadFirst(rest, check, MARK), ReadFirst(rest, One, MARK);
    assert [check, One][1..] == [One] && [One][1..] == [];
    if r.Refused? {
      var damaged := r.why != Incomplete;
      assert TryChecks(rest, [check, One], false) == TryChecks(rest, [One], damaged);
      if q.Refused? {
        assert TryChecks(rest, [One], damaged) == TryChecks(rest, [], damaged || q.why != Incomplete);
        FindAtMark(rest);
        if r.why == Incomplete {
          WaitingIsShort(rest, check, MARK);
        }
      }
    }
  }

  /** A buffer whose first mark begins what `check` refuses although it has not all come. */
  predicate Undercounting(buffer: seq<byte>, check: Check) {
    var start := Find(buffer, MARK);
    start < |buffer| && Undercounts(buffer[start..], check)
  }

  lemma FirstIsFrom(rest: seq<byte>, check: Check)
    requires rest != [] && rest[0] == MARK
    ensures ReadFirst(rest, check, MARK) == ReadFrom(rest, check, 0)
  {
    hide ReadFrom;
    FindAtMark(rest);
    assert rest[0..] == rest;
  }

  /** With either of two checks, what is taken is not changed by what arrives after it unless too few were counted. */
  lemma TriesStable(rest: seq<byte>, b: seq<byte>, check: Check)
    requires rest != [] && rest[0] == MARK && !Undercounts(rest, check)
    ensures var t := TryChecks(rest, [check, One], false);
            if t.arrival == Nothing then t.rest == rest
            else TryChecks(rest + b, [check, One], false) == Taken(t.arrival, t.rest + b)
  {
    hide ReadFirst, ReadFrom, TryChecks, Undercounts;
    FirstIsFrom(rest, check);
    FirstIsFrom(rest, One);
    RefusedYetWaited(rest, check, 0);
    TryTwoChecks(rest, check);
    TryTwoChecks(rest + b, check);
    var r, q := ReadFirst(rest, check, MARK), ReadFirst(rest, One, MARK);
    if r != Refused(Incomplete) {
      VerdictStable(rest, b, check, MARK);
      MarkedStable(rest, b, check);
      if r.Refused? {
        VerdictStable(rest, b, One, MARK);
        MarkedStable(rest, b, One);
        assert (rest + b)[1..] == rest[1..] + b;
      }
    }
  }

  /** Taking from all of `a + b` is taking from `a`, and if that gives nothing, from what is left of it and `b`. */
  predicate TakenTogether(a: seq<byte>, b: seq<byte>, checks: seq<Check>) {
    var t := Take(a, checks);
    Take(a + b, checks) == if t.arrival == Nothing then Take(t.rest + b, checks) else Taken(t.arrival, t.rest + b)
  }

  lemma TakeStableUnless(a: seq<byte>, b: seq<byte>, check: Check)
    requires !Undercounting(a, check)
    ensures TakenTogether(a, b, [check, One])
  {
    hide ReadFirst, TryChecks, TakeMarked, Undercounts;
    var start := Find(a, MARK);
    if start == |a| {
      assert MARK !in a by { assert a[..start] == a; }
      TakeSkipsNoise(a, b, [check, One]);
      assert [] + b == b;
    } else {
      var rest := a[start..];
      FindStable(a, b, MARK);
      assert (a + b)[start..] == rest + b;
      TriesStable(rest, b, check);
      if Take(a, [check, One]).arrival == Nothing {
        assert a + b == a[..start] + (rest + b);
        TakeSkipsNoise(a[..start], rest + b, [check, One]);
      }
    }
  }

  /** What ends a packet that counted too few. */
  function Ending(a: seq<byte>, check: Check): seq<byte>
    requires Undercounting(a, check)
  {
    Missing(a[Find(a, MARK)..], check)
  }

  /** Where too few were counted it is damage until its last byte has come, and then a packet. */
  lemma DamageThenPacket(a: seq<byte>, check: Check)
    requires Undercounting(a, check)
    ensures Take(a, [check, One]).arrival == Damage
    ensures var t := Take(a + Ending(a, check), [check, One]); t.arrival.Arrived? && t.rest == []
  {
    hide ReadFirst, ReadFrom, TryChecks, Undercounts, Missing;
    var start := Find(a, MARK);
    var rest, b := a[start..], Ending(a, check);
    FirstIsFrom(rest, check); FirstIsFrom(rest, One);
    RefusedYetWaited(rest, check, 0);
    TryTwoChecks(rest, check);
    FindStable(a, b, MARK);
    assert (a + b)[start..] == rest + b;
    FirstIsFrom(rest + b, check); FirstIsFrom(rest + b, One);
    MissingEnds(rest, check, 0);
    TryTwoChecks(rest + b, check);
  }

  /**
   Read with either of two checks, what is taken is the same however the
   input is split exactly where the first mark does not begin a packet that
   counts too few characters for the first of them.
   */
  lemma SplittingMatters(a: seq<byte>, check: Check)
    ensures (forall b :: TakenTogether(a, b, [check, One])) <==> !Undercounting(a, check)
  {
    hide Take, Undercounting, Ending, TakenTogether;
    if Undercounting(a, check) {
      DamageThenPacket(a, check);
      NotTogether(a, Ending(a, check), check);
    } else {
      forall b ensures TakenTogether(a, b, [check, One]) {
        TakeStableUnless(a, b, check);
      }
    }
  }

  lemma NotTogether(a: seq<byte>, b: seq<byte>, check: Check)
    requires Take(a, [check, One]).arrival == Damage && Take(a + b, [check, One]).arrival.Arrived?
    ensures !TakenTogether(a, b, [check, One])
  {
    hide Take;
  }

  lemma WaitingIsKept(rest: seq<byte>, check: Check)
    requires rest != [] && rest[0] == MARK && TakeMarked(rest, check).arrival == Nothing
    ensures TakeMarked(rest, check).rest == rest
  {
  }

  lemma MarkedStable(rest: seq<byte>, b: seq<byte>, check: Check)
    requires rest != [] && rest[0] == MARK && TakeMarked(rest, check).arrival != Nothing
    ensures TakeMarked(rest + b, check) == Taken(TakeMarked(rest, check).arrival, TakeMarked(rest, check).rest + b)
  {
    hide ReadFirst;
    VerdictStable(rest, b, check, MARK);
    var r := ReadFirst(rest, check, MARK);
    if r.Read? {
      UsedInRange(rest, check, MARK);
      assert (rest + b)[r.used..] == rest[r.used..] + b;
    } else {
      assert (rest + b)[1..] == rest[1..] + b;
    }
  }

  // ------------------------------------------------------------------
  // A stream of packets
  // ------------------------------------------------------------------

  /** Everything that can be taken from a buffer with one check. */
  function TakeAll(buffer: seq<byte>, check: Check): seq<Arrival>
    decreases |buffer|
  {
    var t := Take(buffer, [check]);
    if t.arrival == Nothing then [] else [t.arrival] + TakeAll(t.rest, check)
  }

  /** A packet with whatever noise, padding and line ends come before it. */
  datatype Piece = Piece(noise: seq<byte>, packet: Packet)

  function Stream(pieces: seq<Piece>, check: Check): seq<byte> {
    if pieces == [] then []
    else pieces[0].noise + Wire(pieces[0].packet, check, MARK) + Stream(pieces[1..], check)
  }

  ghost predicate Sendable(pieces: seq<Piece>, check: Check) {
    forall q | q in pieces :: MARK !in q.noise && q.packet.kind.Canonical() && Fits(q.packet, check)
  }

  /** Repeated taking yields exactly the packets that were built, in order. */
  lemma {:induction false} StreamIsTaken(pieces: seq<Piece>, check: Check, noise: seq<byte>)
    requires Sendable(pieces, check) && MARK !in noise
    ensures TakeAll(Stream(pieces, check) + noise, check) == seq(|pieces|, i requires 0 <= i < |pieces| => Arrived(pieces[i].packet))
    decreases |pieces|
  {
    hide Take, Wire, Fits;
    if pieces == [] {
      assert Stream(pieces, check) + noise == noise + [];
      TakeSkipsNoise(noise, [], [check]);
      TakeIsRead([], check);
    } else {
      var q, rest := pieces[0], Stream(pieces[1..], check) + noise;
      assert q in pieces;
      assert Stream(pieces, check) + noise == q.noise + (Wire(q.packet, check, MARK) + rest);
      TakeSkipsNoise(q.noise, Wire(q.packet, check, MARK) + rest, [check]);
      TakeBuilt(q.packet, check, rest);
      assert Sendable(pieces[1..], check);
      StreamIsTaken(pieces[1..], check, noise);
    }
  }

  // ------------------------------------------------------------------
  // A frame read with a check it was not built with
  // ------------------------------------------------------------------

  /** A frame whose padding and end of line are not marks. */
  ghost predicate Deliverable(f: Frame) {
    f.packet.kind.Canonical() && Fits(f.packet, f.check) && f.padWith != MARK && f.endOfLine != MARK
  }

  /** A frame whose only mark is the one that begins it. */
  ghost predicate OneMark(f: Frame) {
    && Deliverable(f) && MARK !in f.packet.data && f.packet.sequence < 64 && f.packet.kind.AsByte() != MARK
  }

  /** What a frame can arrive as at an end that reads with `checks`. */
  predicate MayArriveAs(f: Frame, checks: seq<Check>, a: Arrival) {
    || (checks != [] && checks[0] == f.check && a == Arrived(f.packet))
    || (checks != [] && checks[0] != f.check
        && ((f.check !in checks && a == Damage)
            || (f.check in checks && a == Arrived(f.packet))
            || (a.Arrived? && a.packet.sequence == f.packet.sequence && a.packet.kind == f.packet.kind)))
  }

  /** What is left of a frame once it has been taken: all but its mark, where it was damage. */
  function Behind(f: Frame, a: Arrival): seq<byte> {
    if a == Damage then Wire(f.packet, f.check, MARK)[1..] + [f.endOfLine] else [f.endOfLine]
  }

  /**
   With one check, or a second to fall back on, a frame arrives as itself, as
   damage, or misread in its data alone, and nothing of what follows it is
   taken with it.
   */
  lemma FrameArrives(f: Frame, checks: seq<Check>, noise: seq<byte>, tail: seq<byte>)
    requires MARK !in noise && Deliverable(f) && 1 <= |checks| <= 2
    ensures var t := Take(noise + FrameBytes(f) + tail, checks);
            MayArriveAs(f, checks, t.arrival) && t.rest == Behind(f, t.arrival) + tail
  {
    hide Wire, Fits, ReadFirst, FrameBytes, Take, TryChecks;
    var pad, w, eol := Repeat(f.padWith, f.padding), Wire(f.packet, f.check, MARK), [f.endOfLine];
    var rest := w + (eol + tail);
    assert noise + FrameBytes(f) + tail == (noise + pad) + rest by { FrameParts(f); }
    TakeSkipsNoise(noise + pad, rest, checks);
    WireStartsWithMark(f.packet, f.check);
    FindAtMark(rest);
    assert rest[0..] == rest;
    assert [] + w + (eol + tail) == rest;
    ReadBuilt([], f.packet, f.check, MARK, eol + tail);
    ReadWithAnother([], f.packet, f.check, MARK, eol + tail, checks[0]);
    if |checks| == 2 {
      ReadWithAnother([], f.packet, f.check, MARK, eol + tail, checks[1]);
    }
    TakeByTries(rest, checks);
    assert rest[|w|..] == eol + tail && rest[1..] == w[1..] + eol + tail;
  }

  lemma FrameParts(f: Frame)
    ensures FrameBytes(f) == Repeat(f.padWith, f.padding) + Wire(f.packet, f.check, MARK) + [f.endOfLine]
  {
  }

  lemma TakeByTries(rest: seq<byte>, checks: seq<Check>)
    requires rest != [] && Find(rest, MARK) == 0 && rest[0..] == rest && 1 <= |checks| <= 2
    ensures var r := ReadFirst(rest, checks[0], MARK);
            && (r.Read? ==> Took(rest, Take(rest, checks), r))
            && (r == Refused(BadCheck) && |checks| == 1 ==> Take(rest, checks) == Taken(Damage, rest[1..]))
            && (r == Refused(BadCheck) && |checks| == 2 ==>
                  var q := ReadFirst(rest, checks[1], MARK);
                  if q.Read? then Took(rest, Take(rest, checks), q) else Take(rest, checks) == Taken(Damage, rest[1..]))
  {
    hide ReadFirst;
    assert Take(rest, checks) == TryChecks(rest, checks, false);
    var r := ReadFirst(rest, checks[0], MARK);
    if r.Read? {
      UsedInRange(rest, checks[0], MARK);
    } else if r == Refused(BadCheck) {
      TryDamaged(rest, checks[1..]);
    }
  }

  /** What was read was taken. */
  ghost predicate Took(rest: seq<byte>, t: Taken, r: ReadResult) {
    r.Read? && r.used <= |rest| && t == Taken(Arrived(r.packet), rest[r.used..])
  }

  lemma TryDamaged(rest: seq<byte>, checks: seq<Check>)
    requires rest != [] && |checks| <= 1
    ensures var t := TryChecks(rest, checks, true);
            if checks != [] && ReadFirst(rest, checks[0], MARK).Read? then Took(rest, t, ReadFirst(rest, checks[0], MARK))
            else t == Taken(Damage, rest[1..])
  {
    hide ReadFirst;
    if |checks| == 1 {
      assert checks[1..] == [];
      if ReadFirst(rest, checks[0], MARK).Read? {
        UsedInRange(rest, checks[0], MARK);
      }
    }
  }

  lemma ChecksAreUnmarked(check: Check, covered: seq<byte>)
    ensures MARK !in Of(check, covered)
  {
    hide Sum, Crc16, SixBits;
  }

  lemma BodyIsUnmarked(f: Frame)
    requires OneMark(f)
    ensures MARK !in Wire(f.packet, f.check, MARK)[1..]
  {
    hide Of, Wire;
    var p, check := f.packet, f.check;
    if |p.data| + 2 + check.Chars() > MAX_COUNT {
      LongWire(p, check, MARK);
      HeaderIsUnmarked(p, check);
      ChecksAreUnmarked(One, LongHeader(p, check));
      ChecksAreUnmarked(check, LongBody(p, check));
      assert Wire(p, check, MARK)[1..] == LongBody(p, check) + Of(check, LongBody(p, check));
    } else {
      ShortWire(p, check, MARK);
      ChecksAreUnmarked(check, ShortBody(p, check));
      assert Wire(p, check, MARK)[1..] == ShortBody(p, check) + Of(check, ShortBody(p, check));
    }
  }

  lemma HeaderIsUnmarked(p: Packet, check: Check)
    requires Fits(p, check) && p.sequence < 64 && p.kind.AsByte() != MARK
    ensures MARK !in LongHeader(p, check)
  {
  }

  /** Where the check first tried is the frame's, or the frame has no mark inside it, taking it leaves no mark of it. */
  lemma BehindIsUnmarked(f: Frame, checks: seq<Check>, a: Arrival)
    requires Deliverable(f) && checks != [] && (checks[0] == f.check || OneMark(f)) && MayArriveAs(f, checks, a)
    ensures MARK !in Behind(f, a)
  {
    hide Wire;
    if a == Damage {
      BodyIsUnmarked(f);
    }
  }

  // ------------------------------------------------------------------
  // Feeding a sender
  // ------------------------------------------------------------------

  datatype SenderFed = SenderFed(s: SenderState, src: SourceState, buffer: seq<byte>, out: seq<Frame>)

  function SenderFeed(s: SenderState, src: SourceState, buffer: seq<byte>): SenderFed
    decreases |buffer|
  {
    if s.status != Running then SenderFed(s, src, buffer, [])
    else
      var t := Take(buffer, [s.link.CheckUsed()]);
      match t.arrival
      case Nothing => SenderFed(s, src, t.rest, [])
      case Damage => SenderFeed(s, src, t.rest)
      case Arrived(p) =>
        var step := SenderHandle(s, src, p);
        var fed := SenderFeed(step.s, step.src, t.rest);
        fed.(out := step.out + fed.out)
  }

  /** Feeding `a` and then `b` is feeding them together, as long as the sender is still running. */
  lemma {:induction false} SenderFeedsInPieces(s: SenderState, src: SourceState, a: seq<byte>, b: seq<byte>)
    ensures var f := SenderFeed(s, src, a); var whole := SenderFeed(s, src, a + b);
            if f.s.status == Running then
              var g := SenderFeed(f.s, f.src, f.buffer + b); whole == g.(out := f.out + g.out)
            else whole == f.(buffer := f.buffer + b)
    decreases |a|
  {
    hide SenderHandle, Take;
    if s.status == Running {
      var check := s.link.CheckUsed();
      TakeStable(a, b, check);
      var t := Take(a, [check]);
      match t.arrival {
        case Nothing =>
          SenderFeedDepends(s, src, a + b, t.rest + b);
          assert [] + SenderFeed(s, src, t.rest + b).out == SenderFeed(s, src, t.rest + b).out;
        case Damage =>
          SenderFeedsInPieces(s, src, t.rest, b);
        case Arrived(p) =>
          var step := SenderHandle(s, src, p);
          SenderFeedsInPieces(step.s, step.src, t.rest, b);
          var f := SenderFeed(step.s, step.src, t.rest);
          var g := SenderFeed(f.s, f.src, f.buffer + b);
          assert step.out + (f.out + g.out) == (step.out + f.out) + g.out;
      }
    }
  }

  /** Two buffers that give up the same next packet feed a sender the same. */
  lemma SenderFeedDepends(s: SenderState, src: SourceState, a: seq<byte>, b: seq<byte>)
    requires s.status == Running && Take(a, [s.link.CheckUsed()]) == Take(b, [s.link.CheckUsed()])
    ensures SenderFeed(s, src, a) == SenderFeed(s, src, b)
  {
    hide SenderHandle, Take;
  }

  /** While the sender runs, what it holds back is bounded. */
  lemma {:induction false} SenderBufferIsBounded(s: SenderState, src: SourceState, buffer: seq<byte>)
    requires SenderFeed(s, src, buffer).s.status == Running
    ensures |SenderFeed(s, src, buffer).buffer| <= HEADER + MAX_LONG < MOST_BUFFERED
    decreases |buffer|
  {
    hide SenderHandle, Take;
    var t := Take(buffer, [s.link.CheckUsed()]);
    match t.arrival {
      case Nothing => WaitingIsBounded(buffer, s.link.CheckUsed());
      case Damage => SenderBufferIsBounded(s, src, t.rest);
      case Arrived(p) => var step := SenderHandle(s, src, p); SenderBufferIsBounded(step.s, step.src, t.rest);
    }
  }

  /** What an arrival makes a running sender do. */
  function SenderHearing(s: SenderState, src: SourceState, a: Arrival): SenderStep {
    if a.Arrived? then SenderHandle(s, src, a.packet) else SenderStep(s, src, [])
  }

  /**
   A frame on the line is what it arrives as handled, whatever noise is before
   it and whatever follows; built with the sender's own check, that is its
   packet.
   */
  lemma SenderHandlesFrame(s: SenderState, src: SourceState, noise: seq<byte>, f: Frame, tail: seq<byte>)
    requires s.status == Running && MARK !in noise && Deliverable(f) && (f.check == s.link.CheckUsed() || OneMark(f))
    ensures var a := Take(noise + FrameBytes(f) + tail, [s.link.CheckUsed()]).arrival;
            var step := SenderHearing(s, src, a); var fed := SenderFeed(s, src, noise + FrameBytes(f) + tail);
            && MayArriveAs(f, [s.link.CheckUsed()], a)
            && if step.s.status == Running then
                 var rest := SenderFeed(step.s, step.src, tail); fed == rest.(out := step.out + rest.out)
               else fed.s == step.s && fed.src == step.src && fed.out == step.out
  {
    hide SenderHandle, Take, Wire, Fits, FrameBytes, OneMark, Behind, MayArriveAs;
    var checks := [s.link.CheckUsed()];
    FrameArrives(f, checks, noise, tail);
    var t := Take(noise + FrameBytes(f) + tail, checks);
    BehindIsUnmarked(f, checks, t.arrival);
    var step := SenderHearing(s, src, t.arrival);
    assert t.arrival != Nothing by { NeverNothing(f, checks, t.arrival); }
    if step.s.status == Running {
      TakeSkipsNoise(Behind(f, t.arrival), tail, [step.s.link.CheckUsed()]);
      SenderFeedDepends(step.s, step.src, t.rest, tail);
      assert [] + SenderFeed(step.s, step.src, tail).out == SenderFeed(step.s, step.src, tail).out;
    } else {
      assert step.out + [] == step.out;
    }
  }

  lemma NeverNothing(f: Frame, checks: seq<Check>, a: Arrival)
    requires MayArriveAs(f, checks, a)
    ensures a != Nothing && (checks[0] == f.check ==> a == Arrived(f.packet))
  {
  }

  // ------------------------------------------------------------------
  // Feeding a receiver
  // ------------------------------------------------------------------

  datatype ReceiverFed = ReceiverFed(r: ReceiverState, store: StoreState, buffer: seq<byte>, out: seq<Frame>)

  function ReceiverFeed(r: ReceiverState, store: StoreState, buffer: seq<byte>): ReceiverFed
    decreases |buffer|
  {
    if r.status != Running then ReceiverFed(r, store, buffer, [])
    else
      var t := Take(buffer, ReceiverChecks(r));
      match t.arrival
      case Nothing => ReceiverFed(r, store, t.rest, [])
      case Damage =>
        var fed := ReceiverFeed(r, store, t.rest);
        fed.(out := [NakFrame(r)] + fed.out)
      case Arrived(p) =>
        var step := ReceiverHandle(r, store, p);
        var fed := ReceiverFeed(step.r, step.store, t.rest);
        fed.(out := step.out + fed.out)
  }

  /** A receiver that is done: a repeated Break is answered again, and nothing else is. */
  function DoneFeed(r: ReceiverState, store: StoreState, buffer: seq<byte>): ReceiverFed
    decreases |buffer|
  {
    var t := Take(buffer, [r.link.CheckUsed()]);
    match t.arrival
    case Nothing => ReceiverFed(r, store, t.rest, [])
    case Damage => DoneFeed(r, store, t.rest)
    case Arrived(p) =>
      var fed := DoneFeed(r, store, t.rest);
      fed.(out := (if p.kind == Break && p.sequence == Previous(r.expected) then r.link.last else []) + fed.out)
  }

  /** Whatever a receiver that is done hears, it and the store stay as they were. */
  lemma {:induction false} DoneIsInert(r: ReceiverState, store: StoreState, buffer: seq<byte>)
    ensures DoneFeed(r, store, buffer).r == r && DoneFeed(r, store, buffer).store == store
    ensures forall f | f in DoneFeed(r, store, buffer).out :: f in r.link.last
    decreases |buffer|
  {
    hide Take;
    var t := Take(buffer, [r.link.CheckUsed()]);
    if t.arrival != Nothing {
      DoneIsInert(r, store, t.rest);
    }
  }

  /** With either of two checks, what waits is as bounded as with one. */
  lemma EitherCheckWaits(buffer: seq<byte>, checks: seq<Check>)
    requires checks != [] && Take(buffer, checks).arrival == Nothing
    ensures |Take(buffer, checks).rest| <= HEADER + MAX_LONG
  {
    hide ReadFirst;
    var start := Find(buffer, MARK);
    if start < |buffer| {
      FindAtMark(buffer[start..]);
      TryChecksWaits(buffer[start..], checks, false);
      WaitingIsShort(buffer[start..], checks[0], MARK);
    }
  }

  lemma TryChecksWaits(buffer: seq<byte>, checks: seq<Check>, damaged: bool)
    requires checks != [] && buffer != [] && TryChecks(buffer, checks, damaged).arrival == Nothing
    ensures ReadFirst(buffer, checks[0], MARK) == Refused(Incomplete)
    ensures TryChecks(buffer, checks, damaged).rest == buffer
  {
    hide ReadFirst;
    DamagedStays(buffer, checks[1..], damaged || ReadFirst(buffer, checks[0], MARK) != Refused(Incomplete));
  }

  lemma {:induction false} DamagedStays(buffer: seq<byte>, checks: seq<Check>, damaged: bool)
    requires buffer != [] && TryChecks(buffer, checks, damaged).arrival == Nothing
    ensures !damaged && TryChecks(buffer, checks, damaged).rest == buffer
    decreases |checks|
  {
    hide ReadFirst;
    if checks != [] {
      DamagedStays(buffer, checks[1..], damaged || ReadFirst(buffer, checks[0], MARK) != Refused(Incomplete));
    }
  }

  /** While the receiver runs, what it holds back is bounded. */
  lemma {:induction false} ReceiverBufferIsBounded(r: ReceiverState, store: StoreState, buffer: seq<byte>)
    requires ReceiverFeed(r, store, buffer).r.status == Running
    ensures |ReceiverFeed(r, store, buffer).buffer| <= HEADER + MAX_LONG < MOST_BUFFERED
    decreases |buffer|
  {
    hide ReceiverHandle, Take;
    var t := Take(buffer, ReceiverChecks(r));
    match t.arrival {
      case Nothing => EitherCheckWaits(buffer, ReceiverChecks(r));
      case Damage => ReceiverBufferIsBounded(r, store, t.rest);
      case Arrived(p) => var step := ReceiverHandle(r, store, p); ReceiverBufferIsBounded(step.r, step.store, t.rest);
    }
  }

  lemma ReceiverFeedDepends(r: ReceiverState, store: StoreState, a: seq<byte>, b: seq<byte>)
    requires r.status == Running && Take(a, ReceiverChecks(r)) == Take(b, ReceiverChecks(r))
    ensures ReceiverFeed(r, store, a) == ReceiverFeed(r, store, b)
  {
    hide ReceiverHandle, Take;
  }

  /** At no point of being fed these bytes does a receiver refuse a packet for counting too few before it has all come. */
  ghost predicate NeverUndercounts(r: ReceiverState, store: StoreState, buffer: seq<byte>)
    decreases |buffer|
  {
    r.status == Running ==>
      && (|ReceiverChecks(r)| == 2 ==> !Undercounting(buffer, ReceiverChecks(r)[0]))
      && var t := Take(buffer, ReceiverChecks(r));
         match t.arrival
         case Nothing => true
         case Damage => NeverUndercounts(r, store, t.rest)
         case Arrived(p) => var step := ReceiverHandle(r, store, p); NeverUndercounts(step.r, step.store, t.rest)
  }

  /** Feeding `a` and then `b` is feeding them together, as long as the receiver is still running. */
  ghost predicate FedTogether(r: ReceiverState, store: StoreState, a: seq<byte>, b: seq<byte>) {
    var f := ReceiverFeed(r, store, a); var whole := ReceiverFeed(r, store, a + b);
    if f.r.status == Running then
      var g := ReceiverFeed(f.r, f.store, f.buffer + b); whole == g.(out := f.out + g.out)
    else whole == f.(buffer := f.buffer + b)
  }

  /** Whether feeding in pieces is feeding together is decided one arrival at a time. */
  lemma FedAfter(r: ReceiverState, store: StoreState, a: seq<byte>, b: seq<byte>, out: seq<Frame>, r': ReceiverState,
                 store': StoreState)
    requires r.status == Running && TakenTogether(a, b, ReceiverChecks(r)) && Take(a, ReceiverChecks(r)).arrival != Nothing
    requires var t := Take(a, ReceiverChecks(r));
             if t.arrival == Damage then out == [NakFrame(r)] && r' == r && store' == store
             else ReceiverHandle(r, store, t.arrival.packet) == ReceiverStep(r', store', out)
    ensures FedTogether(r, store, a, b) <==> FedTogether(r', store', Take(a, ReceiverChecks(r)).rest, b)
  {
    hide ReceiverHandle, Take, ReceiverChecks, NakFrame;
    var t := Take(a, ReceiverChecks(r));
    var f, whole := ReceiverFeed(r', store', t.rest), ReceiverFeed(r', store', t.rest + b);
    assert ReceiverFeed(r, store, a) == f.(out := out + f.out);
    assert ReceiverFeed(r, store, a + b) == whole.(out := out + whole.out);
    if f.r.status == Running {
      var g := ReceiverFeed(f.r, f.store, f.buffer + b);
      assert (out + f.out) + g.out == out + (f.out + g.out);
      SameAfter(out, whole.out, f.out + g.out);
    } else {
      SameAfter(out, whole.out, f.out);
    }
  }

  lemma SameAfter<T>(s: seq<T>, a: seq<T>, b: seq<T>)
    ensures s + a == s + b <==> a == b
  {
    assert (s + a)[|s|..] == a && (s + b)[|s|..] == b;
  }

  /** A receiver that never refuses a packet too soon may be fed in pieces. */
  lemma {:induction false} FedInPieces(r: ReceiverState, store: StoreState, a: seq<byte>, b: seq<byte>)
    requires NeverUndercounts(r, store, a)
    ensures FedTogether(r, store, a, b)
    decreases |a|
  {
    hide ReceiverHandle, Take, NakFrame, Undercounting, FedTogether, TakenTogether;
    if r.status != Running {
      assert FedTogether(r, store, a, b) by { StoppedFed(r, store, a, b); }
    } else {
      var checks, t := ReceiverChecks(r), Take(a, ReceiverChecks(r));
      TogetherUnless(r, a, b);
      match t.arrival {
        case Nothing => NothingFed(r, store, a, b);
        case Damage =>
          FedInPieces(r, store, t.rest, b);
          FedAfter(r, store, a, b, [NakFrame(r)], r, store);
        case Arrived(p) =>
          var step := ReceiverHandle(r, store, p);
          FedInPieces(step.r, step.store, t.rest, b);
          FedAfter(r, store, a, b, step.out, step.r, step.store);
      }
    }
  }

  lemma StoppedFed(r: ReceiverState, store: StoreState, a: seq<byte>, b: seq<byte>)
    requires r.status != Running
    ensures FedTogether(r, store, a, b)
  {
  }

  lemma NothingFed(r: ReceiverState, store: StoreState, a: seq<byte>, b: seq<byte>)
    requires r.status == Running && TakenTogether(a, b, ReceiverChecks(r)) && Take(a, ReceiverChecks(r)).arrival == Nothing
    ensures FedTogether(r, store, a, b)
  {
    hide ReceiverHandle, Take, ReceiverChecks, NakFrame;
    var t := Take(a, ReceiverChecks(r));
    ReceiverFeedDepends(r, store, a + b, t.rest + b);
    assert [] + ReceiverFeed(r, store, t.rest + b).out == ReceiverFeed(r, store, t.rest + b).out;
  }

  lemma TogetherUnless(r: ReceiverState, a: seq<byte>, b: seq<byte>)
    requires |ReceiverChecks(r)| == 2 ==> !Undercounting(a, ReceiverChecks(r)[0])
    ensures TakenTogether(a, b, ReceiverChecks(r))
  {
    hide Take, Undercounting, TakenTogether;
    var check := ReceiverChecks(r)[0];
    if |ReceiverChecks(r)| == 2 {
      assert ReceiverChecks(r) == [check, One];
      TakeStableUnless(a, b, check);
    } else {
      assert ReceiverChecks(r) == [check];
      OneTogether(a, b, check);
    }
  }

  lemma OneTogether(a: seq<byte>, b: seq<byte>, check: Check)
    ensures TakenTogether(a, b, [check])
  {
    hide Take;
    TakeStable(a, b, check);
  }

  /** Where a packet is refused too soon, the bytes that would end it tell: an answer or nothing where there was a nak. */
  lemma {:induction false} FedApart(r: ReceiverState, store: StoreState, a: seq<byte>) returns (b: seq<byte>)
    requires r.expected < 64 && KeepsAnswers(r) && !NeverUndercounts(r, store, a)
    ensures !FedTogether(r, store, a, b)
    decreases |a|
  {
    hide ReceiverHandle, Take, NakFrame, Undercounting, FedTogether, TakenTogether, Ending, KeepsAnswers;
    var checks, t := ReceiverChecks(r), Take(a, ReceiverChecks(r));
    if |checks| == 2 && Undercounting(a, checks[0]) {
      b := Ending(a, checks[0]);
      assert checks == [checks[0], One];
      DamageThenPacket(a, checks[0]);
      ToldApart(r, store, a, b);
    } else {
      match t.arrival {
        case Nothing => assert false;
        case Damage =>
          b := FedApart(r, store, t.rest);
          TogetherUnless(r, a, b);
          FedAfter(r, store, a, b, [NakFrame(r)], r, store);
        case Arrived(p) =>
          var step := ReceiverHandle(r, store, p);
          HandlingTallies(r, store, p);
          b := FedApart(step.r, step.store, t.rest);
          TogetherUnless(r, a, b);
          FedAfter(r, store, a, b, step.out, step.r, step.store);
      }
    }
  }

  lemma ToldApart(r: ReceiverState, store: StoreState, a: seq<byte>, b: seq<byte>)
    requires r.status == Running && r.expected < 64 && KeepsAnswers(r) && Take(a, ReceiverChecks(r)).arrival == Damage
    requires var t := Take(a + b, ReceiverChecks(r)); t.arrival.Arrived? && t.rest == []
    ensures !FedTogether(r, store, a, b)
  {
    hide ReceiverHandle, Take, ReceiverChecks, KeepsAnswers, NakFrame;
    var f, whole := ReceiverFeed(r, store, a), ReceiverFeed(r, store, a + b);
    var p := Take(a + b, ReceiverChecks(r)).arrival.packet;
    var step := ReceiverHandle(r, store, p);
    HandlingTallies(r, store, p);
    FedNothing(step.r, step.store);
    assert whole.out == step.out + [];
    assert f.out[0] == NakFrame(r);
    assert NakFrame(r).packet.kind == Nak by { NakIsNak(r); }
    assert forall g :: (f.out + g)[0] == f.out[0];
  }

  lemma NakIsNak(r: ReceiverState)
    ensures NakFrame(r).packet.kind == Nak
  {
  }

  lemma FedNothing(r: ReceiverState, store: StoreState)
    ensures ReceiverFeed(r, store, []) == ReceiverFed(r, store, [], [])
  {
    hide ReceiverHandle, TryChecks;
  }

  /**
   Feeding a receiver `a` and then anything more is feeding it both together
   exactly where it refuses nothing too soon in `a`.
   */
  lemma ReceiverFeedsInPieces(r: ReceiverState, store: StoreState, a: seq<byte>)
    requires r.expected < 64 && KeepsAnswers(r)
    ensures (forall b :: FedTogether(r, store, a, b)) <==> NeverUndercounts(r, store, a)
  {
    hide NeverUndercounts, FedTogether, KeepsAnswers;
    if NeverUndercounts(r, store, a) {
      forall b ensures FedTogether(r, store, a, b) {
        FedInPieces(r, store, a, b);
      }
    } else {
      var b := FedApart(r, store, a);
    }
  }

  // ------------------------------------------------------------------
  // What these ends build
  // ------------------------------------------------------------------

  /** No mark in a buffer begins a packet that counts too few. */
  ghost predicate CountsEnough(buffer: seq<byte>) {
    forall i | 0 <= i < |buffer| && buffer[i] == MARK :: !Undercounts(buffer[i..], Two) && !Undercounts(buffer[i..], Three)
  }

  lemma EnoughIsKept(buffer: seq<byte>, k: nat)
    requires CountsEnough(buffer) && k <= |buffer|
    ensures CountsEnough(buffer[k..])
  {
    hide Undercounts;
    var rest := buffer[k..];
    forall i | 0 <= i < |rest| && rest[i] == MARK ensures !Undercounts(rest[i..], Two) && !Undercounts(rest[i..], Three) {
      assert rest[i..] == buffer[k + i..] && buffer[k + i] == MARK;
    }
  }

  lemma RestIsSuffix(buffer: seq<byte>, checks: seq<Check>)
    ensures var t := Take(buffer, checks); t.rest == buffer[|buffer| - |t.rest|..]
  {
    hide TryChecks;
    var start := Find(buffer, MARK);
    if start < |buffer| {
      TriedIsSuffix(buffer[start..], checks, false);
    }
  }

  lemma {:induction false} TriedIsSuffix(buffer: seq<byte>, checks: seq<Check>, damaged: bool)
    requires buffer != []
    ensures var t := TryChecks(buffer, checks, damaged); t.rest == buffer[|buffer| - |t.rest|..]
    decreases |checks|
  {
    hide ReadFirst;
    if checks != [] {
      var r := ReadFirst(buffer, checks[0], MARK);
      if r.Read? {
        UsedInRange(buffer, checks[0], MARK);
      } else {
        TriedIsSuffix(buffer, checks[1..], damaged || r.why != Incomplete);
      }
    }
  }

  /** Whatever the receiver's state, such input it may be fed in pieces. */
  lemma {:induction false} EnoughNeverUndercounts(r: ReceiverState, store: StoreState, buffer: seq<byte>)
    requires CountsEnough(buffer)
    ensures NeverUndercounts(r, store, buffer)
    decreases |buffer|
  {
    hide ReceiverHandle, Take, Undercounts, CountsEnough;
    if r.status == Running {
      var t := Take(buffer, ReceiverChecks(r));
      assert |ReceiverChecks(r)| == 2 ==> !Undercounting(buffer, ReceiverChecks(r)[0]) by {
        if |ReceiverChecks(r)| == 2 {
          EnoughAtFirst(buffer, r);
        }
      }
      RestIsSuffix(buffer, ReceiverChecks(r));
      EnoughIsKept(buffer, |buffer| - |t.rest|);
      match t.arrival {
        case Nothing =>
        case Damage => EnoughNeverUndercounts(r, store, t.rest);
        case Arrived(p) => var step := ReceiverHandle(r, store, p); EnoughNeverUndercounts(step.r, step.store, t.rest);
      }
    }
  }

  lemma EnoughAtFirst(buffer: seq<byte>, r: ReceiverState)
    requires CountsEnough(buffer) && |ReceiverChecks(r)| == 2
    ensures !Undercounting(buffer, ReceiverChecks(r)[0])
  {
    hide Undercounts;
    assert ReceiverChecks(r)[0] in {Two, Three};
  }

  /** A packet built in either form, with any check, never counts too few, cut anywhere and followed by anything. */
  lemma BuiltCountsEnough(p: Packet, check: Check, n: nat, tail: seq<byte>, other: Check)
    requires Fits(p, check) && n <= |Wire(p, check, MARK)|
    ensures n < |Wire(p, check, MARK)| ==> !Undercounts(Wire(p, check, MARK)[..n], other)
    ensures !Undercounts(Wire(p, check, MARK) + tail, other)
  {
    hide Of, Wire, ShortBody, LongBody, LongHeader;
    var w := Wire(p, check, MARK);
    if |p.data| + 2 + check.Chars() > MAX_COUNT {
      LongLayout(p, check, MARK);
      LongCount(|p.data| + check.Chars());
    } else {
      ShortLayout(p, check, MARK);
    }
  }

  /** However the line is cut, a packet on it that has not all come is one that counts enough. */
  lemma {:induction false} LineCountsEnough(fs: seq<Frame>, k: nat)
    requires (forall f | f in fs :: OneMark(f)) && k <= |LineBytes(fs)|
    ensures CountsEnough(LineBytes(fs)[..k])
  {
    hide Undercounts, Wire, OneMark, FrameBytes;
    if fs != [] {
      var first, rest := FrameBytes(fs[0]), LineBytes(fs[1..]);
      var buffer := LineBytes(fs)[..k];
      assert LineBytes(fs) == first + rest;
      if k > |first| {
        LineCountsEnough(fs[1..], k - |first|);
        assert buffer[|first|..] == rest[..k - |first|];
      }
      forall i | 0 <= i < |buffer| && buffer[i] == MARK
        ensures !Undercounts(buffer[i..], Two) && !Undercounts(buffer[i..], Three)
      {
        if i < |first| {
          FrameCountsEnough(fs[0], rest, k, i);
        } else {
          var later := rest[..k - |first|];
          assert later[i - |first|] == MARK && later[i - |first|..] == buffer[i..];
        }
      }
    }
  }

  lemma FrameCountsEnough(f: Frame, rest: seq<byte>, k: nat, i: nat)
    requires OneMark(f) && i < k <= |FrameBytes(f) + rest| && i < |FrameBytes(f)| && FrameBytes(f)[i] == MARK
    ensures var buffer := (FrameBytes(f) + rest)[..k]; !Undercounts(buffer[i..], Two) && !Undercounts(buffer[i..], Three)
  {
    hide Undercounts, Wire;
    var w, pad := Wire(f.packet, f.check, MARK), |Repeat(f.padWith, f.padding)|;
    WireStartsWithMark(f.packet, f.check);
    BodyIsUnmarked(f);
    FrameParts(f);
    assert forall j | 0 < j < |w| :: w[j] == w[1..][j - 1];
    assert i == pad;
    var all := w + ([f.endOfLine] + rest);
    assert (FrameBytes(f) + rest)[pad..] == all;
    var n := if k - pad < |w| then k - pad else 0;
    var tail := if k - pad < |w| then [] else ([f.endOfLine] + rest)[..k - pad - |w|];
    assert (FrameBytes(f) + rest)[..k][pad..] == if k - pad < |w| then w[..n] else w + tail;
    BuiltCountsEnough(f.packet, f.check, n, tail, Two);
    BuiltCountsEnough(f.packet, f.check, n, tail, Three);
  }

  /**
   What these ends put on the line a receiver in any state may be fed in
   pieces, cut anywhere, even inside a packet.
   */
  lemma BuiltIsFedInPieces(r: ReceiverState, store: StoreState, fs: seq<Frame>, k: nat, b: seq<byte>)
    requires (forall f | f in fs :: OneMark(f)) && k <= |LineBytes(fs)|
    ensures FedTogether(r, store, LineBytes(fs)[..k], b)
  {
    hide OneMark, LineBytes, FedTogether, NeverUndercounts, CountsEnough;
    LineCountsEnough(fs, k);
    EnoughNeverUndercounts(r, store, LineBytes(fs)[..k]);
    FedInPieces(r, store, LineBytes(fs)[..k], b);
  }

  /** There are such packets as are refused too soon: one whose extended header counts one character. */
  lemma SomeCountTooFew(seqno: byte)
    ensures var body := [ToChar(0), seqno, 70, ToChar(0), ToChar(1)]; var a := [MARK] + body + Of(One, body);
            Undercounting(a, Two) && Undercounting(a, Three)
  {
    hide Of;
    var body: seq<byte> := [ToChar(0), seqno, 70, ToChar(0), ToChar(1)];
    var a := [MARK] + body + Of(One, body);
    FindAtMark(a);
    assert a[0..] == a && a[1..6] == body;
  }

  /** What an arrival makes a running receiver do. */
  function ReceiverHearing(r: ReceiverState, store: StoreState, a: Arrival): ReceiverStep {
    match a
    case Arrived(p) => ReceiverHandle(r, store, p)
    case Damage => ReceiverStep(r, store, [NakFrame(r)])
    case Nothing => ReceiverStep(r, store, [])
  }

  /**
   A frame on the line is what it arrives as handled, with one check or with
   either of two; built with the check tried first, that is its packet.
   */
  lemma ReceiverHandlesFrame(r: ReceiverState, store: StoreState, noise: seq<byte>, f: Frame, tail: seq<byte>)
    requires r.status == Running && MARK !in noise && Deliverable(f) && (f.check == ReceiverChecks(r)[0] || OneMark(f))
    ensures var a := Take(noise + FrameBytes(f) + tail, ReceiverChecks(r)).arrival;
            var step := ReceiverHearing(r, store, a); var fed := ReceiverFeed(r, store, noise + FrameBytes(f) + tail);
            && MayArriveAs(f, ReceiverChecks(r), a)
            && if step.r.status == Running then
                 var rest := ReceiverFeed(step.r, step.store, tail); fed == rest.(out := step.out + rest.out)
               else fed.r == step.r && fed.store == step.store && fed.out == step.out
  {
    hide ReceiverHandle, Take, Wire, Fits, FrameBytes, OneMark, Behind, MayArriveAs, NakFrame;
    var checks := ReceiverChecks(r);
    assert 1 <= |checks| <= 2;
    hide ReceiverChecks;
    FrameArrives(f, checks, noise, tail);
    var t := Take(noise + FrameBytes(f) + tail, checks);
    BehindIsUnmarked(f, checks, t.arrival);
    var step := ReceiverHearing(r, store, t.arrival);
    assert t.arrival != Nothing by { NeverNothing(f, checks, t.arrival); }
    if step.r.status == Running {
      TakeSkipsNoise(Behind(f, t.arrival), tail, ReceiverChecks(step.r));
      ReceiverFeedDepends(step.r, step.store, t.rest, tail);
    } else {
      assert step.out + [] == step.out;
    }
  }

  /** A frame that reaches a receiver that is done is answered if it is the last packet again, and that is all. */
  lemma DoneHandlesFrame(r: ReceiverState, store: StoreState, noise: seq<byte>, f: Frame)
    requires MARK !in noise && Deliverable(f) && (f.check == r.link.CheckUsed() || OneMark(f))
    ensures var a := Take(noise + FrameBytes(f), [r.link.CheckUsed()]).arrival; var fed := DoneFeed(r, store, noise + FrameBytes(f));
            && MayArriveAs(f, [r.link.CheckUsed()], a)
            && fed.r == r && fed.store == store
            && fed.out == if a.Arrived? && a.packet.kind == Break && a.packet.sequence == Previous(r.expected) then r.link.last else []
  {
    hide Take, Wire, Fits, FrameBytes, OneMark, Behind, MayArriveAs;
    var checks := [r.link.CheckUsed()];
    FrameArrives(f, checks, noise, []);
    var buffer := noise + FrameBytes(f);
    assert buffer + [] == buffer;
    var t := Take(buffer, checks);
    BehindIsUnmarked(f, checks, t.arrival);
    assert t.arrival != Nothing by { NeverNothing(f, checks, t.arrival); }
    assert DoneFeed(r, store, t.rest) == ReceiverFed(r, store, [], []) by {
      TakeSkipsNoise(Behind(f, t.arrival), [], checks);
      TakeIsRead([], r.link.CheckUsed());
    }
    DoneIsInert(r, store, buffer);
  }
}

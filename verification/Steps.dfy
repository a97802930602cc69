/**
 Every event keeps the system's invariant: the two ends' steps are those of
 modules `SenderSide` and `ReceiverSide`, and a message young enough to be
 delivered has the sequence number of one packet only.
 */
module Steps {
  import opened Options
  import opened Bytes
  import opened Checks
  import opened Packets
  import opened Parameters
  import opened Protocol
  import opened Streams
  import opened History
  import opened Network
  import Data
  import SenderSide
  import ReceiverSide

  // ------------------------------------------------------------------
  // The receiver's steps
  // ------------------------------------------------------------------

  /** A message towards the receiver that may be delivered now. */
  ghost predicate Arrives(m: Message, h: seq<Record>) {
    ForthOk(m, h) && (m.Whole? ==> m.index + 62 >= |h| - 1)
  }

  /** Only the packet it waits for takes a receiver further. */
  lemma ReceiverToldIsOk(c: Setup, r: ReceiverState, store: StoreState, h: seq<Record>, e: nat, stopped: bool,
                         m: Message, misread: Arrival)
    requires ReceiverSide.ReceiverOk(c, r, store, h, e, stopped) && Chain(c, h) && |h| - 1 <= e <= |h| && Arrives(m, h)
    ensures var step := ReceiverTold(r, store, HeardAs(m, ChecksNow(r), misread));
            && ReceiverSide.HeardOk(c, step, r, h, e, stopped)
            && (step.r.expected != r.expected ==> m.Whole? && e < |h| && e <= Level(m))
  {
    hide ReceiverSide.ReceiverOk, Chain, ReceiverHandle, ReceiverHears, ReceiverDamaged, ReceiverSide.HeardOk;
    hide ReceiverChecks, Follows;
    var a := HeardAs(m, ChecksNow(r), misread);
    var step := ReceiverTold(r, store, a);
    if a == Damage {
      ReceiverSide.DamagedIsOk(c, r, store, h, e, stopped);
      DamageMovesNothing(r, store);
    } else {
      HeardIsWhole(m, ChecksNow(r), misread);
      if r.status == Running {
        RunningHears(r, store, a.packet);
        PacketIsHeard(c, r, store, h, e, stopped, m, a.packet);
      } else {
        StoppedIsOk(c, r, store, h, e, stopped, a.packet);
      }
    }
  }

  lemma DamageMovesNothing(r: ReceiverState, store: StoreState)
    ensures ReceiverDamaged(r, store).r == r
  {
  }

  lemma RunningHears(r: ReceiverState, store: StoreState, p: Packet)
    requires r.status == Running
    ensures ReceiverHears(r, store, p) == ReceiverHandle(r, store, p)
  {
    hide ReceiverHandle;
  }

  /** What is heard of a frame has its number and kind, and all of it when the first check is the frame's. */
  lemma HeardIsWhole(m: Message, checks: seq<Check>, misread: Arrival)
    requires 1 <= |checks| <= 2 && HeardAs(m, checks, misread) != Damage
    ensures var a := HeardAs(m, checks, misread);
            && m.Whole? && a.Arrived?
            && a.packet.sequence == m.frame.packet.sequence && a.packet.kind == m.frame.packet.kind
            && (checks[0] == m.frame.check ==> a.packet == m.frame.packet)
  {
  }

  /** A receiver that has stopped, but for a repeated Break once it is done, does nothing. */
  lemma StoppedIsOk(c: Setup, r: ReceiverState, store: StoreState, h: seq<Record>, e: nat, stopped: bool, p: Packet)
    requires ReceiverSide.ReceiverOk(c, r, store, h, e, stopped) && r.status != Running
    ensures var step := ReceiverHears(r, store, p);
            ReceiverSide.HeardOk(c, step, r, h, e, stopped) && step.r == r && step.store == store
  {
    hide ReceiverSide.ReceiverOk, ReceiverSide.NakFor, ReceiverSide.AnswerTo, ReceiverHandle, Previous;
    if r.status == Done {
      DoneHasAnswer(c, r, store, h, e, stopped);
      ReceiverSide.AnswerIsAck(c, r.link.last[0], e - 1, stopped);
    }
  }

  /** What a receiver that is done keeps to send again is the answer to the last packet it took. */
  lemma DoneHasAnswer(c: Setup, r: ReceiverState, store: StoreState, h: seq<Record>, e: nat, stopped: bool)
    requires ReceiverSide.ReceiverOk(c, r, store, h, e, stopped) && r.status == Done
    ensures e > 0 && |r.link.last| == 1 && ReceiverSide.AnswerTo(c, r.link.last[0], e - 1, stopped)
  {
    hide ReceiverSide.CountsOk, ReceiverSide.WishOk, ReceiverSide.LinkAfter, ReceiverSide.StateAfter, ReceiverSide.AnswerTo;
  }

  /** A packet at a running receiver is an error, a repetition, the next, or none of these. */
  lemma PacketIsHeard(c: Setup, r: ReceiverState, store: StoreState, h: seq<Record>, e: nat, stopped: bool,
        m: Message, p: Packet)
    requires ReceiverSide.ReceiverOk(c, r, store, h, e, stopped) && Chain(c, h) && |h| - 1 <= e <= |h| && Arrives(m, h)
    requires r.status == Running && m.Whole?
    requires p.sequence == m.frame.packet.sequence && p.kind == m.frame.packet.kind
    requires ChecksNow(r)[0] == m.frame.check ==> p == m.frame.packet
    ensures var step := ReceiverHandle(r, store, p);
            && ReceiverSide.HeardOk(c, step, r, h, e, stopped)
            && (step.r.expected != r.expected ==> e < |h| && e <= Level(m))
  {
    hide ReceiverSide.ReceiverOk, ReceiverHandle, ReceiverSide.HeardOk, ReceiverChecks, Follows;
    hide ReceiverSide.Accepted, Begins;
    if p.kind == Error {
      ReceiverSide.ErrorStopIsOk(c, r, store, h, e, stopped, p);
      ErrorMovesNothing(r, store, p);
    } else {
      var i := m.index;
      assert p.sequence == i % 64 by { assert h[i].frame.packet.sequence == i % 64; }
      if i == e {
        FirstCheckIsRight(c, r, store, h, e, stopped);
        ReceiverSide.AcceptIsOk(c, r, store, h, e, stopped);
        ReceiverSide.AcceptedIsHeard(c, ReceiverHandle(r, store, p), r, h, e, stopped);
        LevelIsIndex(c, h, m);
      } else if e > 0 && i % 64 == (e - 1) % 64 {
        ReceiverSide.RepeatIsOk(c, r, store, h, e, stopped, p);
      } else {
        OtherIsIgnored(c, r, store, h, e, stopped, p);
      }
    }
  }

  lemma ErrorMovesNothing(r: ReceiverState, store: StoreState, p: Packet)
    requires p.kind == Error
    ensures ReceiverHandle(r, store, p).r.expected == r.expected
  {
    hide Data.Decode;
  }

  lemma LevelIsIndex(c: Setup, h: seq<Record>, m: Message)
    requires Chain(c, h) && m.Whole? && m.index < |h| && m.frame == h[m.index].frame
    ensures Level(m) == m.index && m.frame.packet.kind != Ack && m.frame.packet.kind != Error
  {
    if m.index > 0 {
      assert Follows(c, h[m.index - 1], h[m.index]);
    }
  }

  /** The packet a receiver waits for was built with the check it tries first. */
  lemma FirstCheckIsRight(c: Setup, r: ReceiverState, store: StoreState, h: seq<Record>, e: nat, stopped: bool)
    requires ReceiverSide.ReceiverOk(c, r, store, h, e, stopped) && Chain(c, h) && e < |h| && r.status == Running
    ensures ChecksNow(r)[0] == h[e].frame.check
  {
    hide ReceiverSide.CountsOk, ReceiverSide.WishOk, ReceiverSide.StateAfter, Agreed, Parameters.Sending;
    hide Block, ReadBlock;
    LinksMirror(c);
    if e > 0 {
      assert Follows(c, h[e - 1], h[e]);
    }
  }

  lemma OtherIsIgnored(c: Setup, r: ReceiverState, store: StoreState, h: seq<Record>, e: nat, stopped: bool, p: Packet)
    requires ReceiverSide.ReceiverOk(c, r, store, h, e, stopped) && r.status == Running
    requires p.kind != Error && p.sequence != e % 64 && (e > 0 ==> p.sequence != (e - 1) % 64)
    ensures var step := ReceiverHandle(r, store, p);
            step == ReceiverStep(r, store, []) && ReceiverSide.HeardOk(c, step, r, h, e, stopped)
  {
    hide ReceiverSide.CountsOk, ReceiverSide.WishOk, ReceiverSide.LinkAfter, ReceiverSide.AnswerTo;
    hide ReceiverSide.ContentOk;
    hide OnSendInit, OnFile, OnBreak, OnAttributes, OnData, OnEndOfFile, ReceiverFail, ReceiverStop;
    ReceiverSide.SequenceMoves(e);
  }

  // ------------------------------------------------------------------
  // The sender's steps
  // ------------------------------------------------------------------

  /** What a step of a running sender leaves: one packet further, or the same one waiting, or stopped. */
  ghost predicate Moves(c: Setup, s: SenderState, step: SenderStep, h: seq<Record>, h': seq<Record>) {
    && SenderSide.SenderOk(c, step.s, step.src, h') && |step.out| <= 1
    && if step.s.status != Running then h' == h && forall f | f in step.out :: f.packet.kind == Error
       else if step.s.seqno != s.seqno then
         h' == h + [Last(h')] && step.out == [Last(h').frame] && step.s.link.retries == 0
       else
         h' == h && (step.out == [] || step.out == [Last(h).frame]) && step.s.link.retries == s.link.retries + |step.out|
  }

  function NewHistory(s: SenderState, step: SenderStep, h: seq<Record>): seq<Record> {
    if step.s.seqno != s.seqno then SenderSide.Extended(step, h) else h
  }

  lemma AdvancedMoves(c: Setup, s: SenderState, step: SenderStep, src: SourceState, h: seq<Record>)
    requires SenderSide.SenderOk(c, s, src, h) && s.status == Running
    requires SenderSide.Advanced(c, step, h, SenderSide.Extended(step, h))
    ensures Moves(c, s, step, h, NewHistory(s, step, h))
  {
    hide SenderSide.SenderOk, SenderSide.RecordOf;
    SenderKnows(c, s, src, h);
    NumberMoves(|h|);
  }

  lemma NumberMoves(n: nat)
    ensures n % 64 != (n - 1) % 64
  {
  }

  lemma StayedMoves(c: Setup, s: SenderState, step: SenderStep, h: seq<Record>)
    requires SenderSide.Stayed(c, s, step, h)
    ensures Moves(c, s, step, h, NewHistory(s, step, h))
  {
    hide SenderSide.SenderOk;
  }

  /** A message towards the sender that may be delivered now. */
  ghost predicate ComesBack(c: Setup, m: Message, e: nat, stopped: bool) {
    BackOk(c, m, e, stopped) && (m.Whole? ==> m.index + 62 >= e)
  }

  /** Only an answer to the packet it waits for, or a nak for the one after, takes a sender further. */
  lemma SenderToldIsOk(c: Setup, s: SenderState, src: SourceState, h: seq<Record>, e: nat, stopped: bool,
                       m: Message, misread: Arrival)
    requires SenderSide.SenderOk(c, s, src, h) && s.status == Running && |h| - 1 <= e <= |h| && ComesBack(c, m, e, stopped)
    ensures var step := SenderTold(s, src, HeardAs(m, [s.link.CheckUsed()], misread));
            && Moves(c, s, step, h, NewHistory(s, step, h))
            && (step.s.status == Running && step.s.seqno != s.seqno ==> m.Whole? && e == |h| && |h| <= Level(m))
            && (step.s.cancelling ==> s.cancelling || stopped)
  {
    hide SenderSide.SenderOk, SenderHandle, Moves, BackOk;
    var a := HeardAs(m, [s.link.CheckUsed()], misread);
    if a == Damage {
      NothingMoves(c, s, src, h);
    } else {
      HeardIsWhole(m, [s.link.CheckUsed()], misread);
      AnswerIsHeard(c, s, src, h, e, stopped, m, a.packet);
    }
  }

  lemma NothingMoves(c: Setup, s: SenderState, src: SourceState, h: seq<Record>)
    requires SenderSide.SenderOk(c, s, src, h) && s.status == Running
    ensures Moves(c, s, SenderStep(s, src, []), h, NewHistory(s, SenderStep(s, src, []), h))
  {
    hide Chain, SenderSide.LinkOk, SenderSide.FileOk, NoneDiscarded, Wholes;
  }

  /** What a sender that is running knows of itself. */
  lemma SenderKnows(c: Setup, s: SenderState, src: SourceState, h: seq<Record>)
    requires SenderSide.SenderOk(c, s, src, h) && s.status == Running
    ensures h != [] && s.seqno == (|h| - 1) % 64 && (s.state == SendingInit <==> |h| == 1)
    ensures s.link.CheckUsed() == (if s.state == SendingInit then One else c.CheckAgreed())
    ensures s.link.retries <= s.link.limit == c.sender.retries && s.link.last == [Last(h).frame]
    ensures Last(h).Kind() != Ack && Last(h).Kind() != Error
  {
    hide SenderSide.FileOk, NoneDiscarded, Wholes, SenderSide.SizesOk, LinkState.Agree;
    hide SenderSide.SourceOk, Begins, Numbered;
    if |h| > 1 {
      assert Follows(c, h[|h| - 2], h[|h| - 1]);
    } else {
      BeginsIsInit(c, h[0]);
    }
    AgreeingKeepsLimit(c);
  }

  lemma AgreeingKeepsLimit(c: Setup)
    ensures c.SenderLink().limit == c.sender.retries && c.SenderLink().ours == c.sender.params
    ensures c.ReceiverLink().limit == c.receiver.retries && c.ReceiverLink().ours == c.receiver.params
    ensures c.SenderLink().agreed.Some? && c.ReceiverLink().agreed.Some?
  {
  }

  /** What a message on its way back is. */
  lemma BackNumbers(c: Setup, m: Message, e: nat, stopped: bool)
    requires BackOk(c, m, e, stopped) && m.Whole? && m.frame.packet.kind != Error
    ensures m.frame.packet.sequence == m.index % 64
    ensures m.frame.packet.kind == Ack ==> Level(m) == m.index + 1 && m.index < e && ReceiverSide.AnswerTo(c, m.frame, m.index, stopped)
    ensures m.frame.packet.kind != Ack ==> m.frame.packet.kind == Nak && Level(m) == m.index <= e
  {
    hide MadeBy, Setup.CheckAgreed, Block;
  }

  /** An acknowledgement whole is one the sender may act on. */
  lemma AnswerIsGood(c: Setup, s: SenderState, f: Frame, k: nat, stopped: bool, p: Packet)
    requires ReceiverSide.AnswerTo(c, f, k, stopped) && (s.state == SendingInit <==> k == 0)
    requires s.link.CheckUsed() == if k == 0 then One else c.CheckAgreed()
    requires s.link.CheckUsed() == f.check ==> p == f.packet
    ensures SenderSide.GoodAnswer(c, s, p.data)
    ensures k > 0 && p.data != [] && p.data[0] == 90 ==> stopped
  {
    hide MadeBy, Setup.CheckAgreed, Block, LinkState.CheckUsed;
  }

  /** Numbers tell packets apart as long as they are fewer than 64 apart. */
  lemma NumbersDiffer(a: int, b: int)
    ensures -64 < a - b < 64 ==> (a % 64 == b % 64 <==> a == b)
  {
  }

  /** What hearing an answer leaves a running sender. */
  ghost predicate HeardWell(c: Setup, s: SenderState, step: SenderStep, h: seq<Record>, e: nat, stopped: bool, level: int) {
    && Moves(c, s, step, h, NewHistory(s, step, h))
    && (step.s.status == Running && step.s.seqno != s.seqno ==> e == |h| && |h| <= level)
    && (step.s.cancelling ==> s.cancelling || stopped)
  }

  lemma AnswerIsHeard(c: Setup, s: SenderState, src: SourceState, h: seq<Record>, e: nat, stopped: bool,
        m: Message, p: Packet)
    requires SenderSide.SenderOk(c, s, src, h) && s.status == Running && |h| - 1 <= e <= |h| && ComesBack(c, m, e, stopped)
    requires m.Whole? && p.sequence == m.frame.packet.sequence && p.kind == m.frame.packet.kind
    requires s.link.CheckUsed() == m.frame.check ==> p == m.frame.packet
    ensures HeardWell(c, s, SenderHears(s, src, p), h, e, stopped, Level(m))
  {
    hide SenderSide.SenderOk, SenderHandle, Moves, BackOk, ReceiverSide.AnswerTo, NewHistory;
    hide LinkState.CheckUsed, HeardWell, Level;
    if p.kind == Error {
      ErrorStops(c, s, src, h, p);
      ErrorIsHeard(c, s, SenderHears(s, src, p), h, e, stopped, Level(m));
    } else {
      BackNumbers(c, m, e, stopped);
      assert SenderHears(s, src, p) == SenderHandle(s, src, p);
      if p.kind == Ack {
        AckIsHeard(c, s, src, h, e, stopped, m, p);
      } else {
        NakIsHeard(c, s, src, h, e, stopped, m, p);
      }
    }
  }

  lemma ErrorIsHeard(c: Setup, s: SenderState, step: SenderStep, h: seq<Record>, e: nat, stopped: bool, level: int)
    requires Moves(c, s, step, h, NewHistory(s, step, h)) && step.s.status != Running && step.s.cancelling == s.cancelling
    ensures HeardWell(c, s, step, h, e, stopped, level)
  {
    hide Moves, NewHistory;
  }

  lemma AckIsHeard(c: Setup, s: SenderState, src: SourceState, h: seq<Record>, e: nat, stopped: bool, m: Message, p: Packet)
    requires SenderSide.SenderOk(c, s, src, h) && s.status == Running && |h| - 1 <= e <= |h|
    requires m.Whole? && p.sequence == m.frame.packet.sequence && p.kind == m.frame.packet.kind == Ack
    requires s.link.CheckUsed() == m.frame.check ==> p == m.frame.packet
    requires e <= m.index + 62 && m.index < e && p.sequence == m.index % 64
        && ReceiverSide.AnswerTo(c, m.frame, m.index, stopped)
    ensures HeardWell(c, s, SenderHandle(s, src, p), h, e, stopped, Level(m))
  {
    hide SenderSide.SenderOk, Acknowledged, Moves, SenderSide.Advanced, SenderSide.Extended, NewHistory;
    hide LinkState.CheckUsed, Next;
    hide ReceiverSide.AnswerTo, SenderSide.GoodAnswer, Setup.CheckAgreed;
    SenderKnows(c, s, src, h);
    NumbersDiffer(m.index, |h| - 1);
    if p.sequence == s.seqno {
      AckTakes(s, src, p);
      AnswerIsGood(c, s, m.frame, m.index, stopped, p);
      SenderSide.AcknowledgedIsOk(c, s, src, h, p.data);
      AdvancedMoves(c, s, Acknowledged(s, src, p.data), src, h);
      SenderSide.AcknowledgedCancelling(c, s, src, h, p.data);
    } else {
      OtherAnswer(s, src, p);
      NothingMoves(c, s, src, h);
    }
  }

  lemma AckTakes(s: SenderState, src: SourceState, p: Packet)
    requires p.kind == Ack && p.sequence == s.seqno
    ensures SenderHandle(s, src, p) == Acknowledged(s, src, p.data)
  {
    hide Acknowledged, Again, SenderFail, SenderStop;
  }

  lemma OtherAnswer(s: SenderState, src: SourceState, p: Packet)
    requires (p.kind == Ack && p.sequence != s.seqno) || (p.kind == Nak && p.sequence != s.seqno
        && p.sequence != Next(s.seqno))
    ensures SenderHandle(s, src, p) == SenderStep(s, src, [])
  {
    hide Acknowledged, Again, SenderFail, SenderStop, Next;
  }

  lemma NakIsHeard(c: Setup, s: SenderState, src: SourceState, h: seq<Record>, e: nat, stopped: bool, m: Message, p: Packet)
    requires SenderSide.SenderOk(c, s, src, h) && s.status == Running && |h| - 1 <= e <= |h|
    requires m.Whole? && p.sequence == m.frame.packet.sequence && p.kind == m.frame.packet.kind == Nak
    requires e <= m.index + 62 && m.index <= e && p.sequence == m.index % 64 && Level(m) == m.index
    ensures HeardWell(c, s, SenderHandle(s, src, p), h, e, stopped, Level(m))
  {
    hide SenderSide.SenderOk, Acknowledged, Again, Moves, SenderSide.Advanced, SenderSide.Stayed;
    hide SenderSide.Extended, NewHistory, Next, Level;
    hide SenderSide.GoodAnswer;
    SenderKnows(c, s, src, h);
    var k := |h| - 1;
    SenderSide.NumbersFollow(k);
    NumbersDiffer(m.index, k);
    NumbersDiffer(m.index, k + 1);
    NakTakes(s, src, p);
    if p.sequence == Next(s.seqno) && s.state != SendingInit {
      EmptyIsGood(c, s);
      SenderSide.AcknowledgedIsOk(c, s, src, h, []);
      AdvancedMoves(c, s, Acknowledged(s, src, []), src, h);
      SenderSide.AcknowledgedCancelling(c, s, src, h, []);
    } else if p.sequence == s.seqno || p.sequence == Next(s.seqno) {
      SenderSide.AgainIsOk(c, s, src, h);
      StayedMoves(c, s, Again(s, src), h);
      AgainKeepsNumber(s, src);
    } else {
      OtherAnswer(s, src, p);
      NothingMoves(c, s, src, h);
    }
  }

  lemma NakTakes(s: SenderState, src: SourceState, p: Packet)
    requires p.kind == Nak
    ensures p.sequence == Next(s.seqno) && s.state != SendingInit ==> SenderHandle(s, src, p) == Acknowledged(s, src, [])
    ensures (p.sequence == s.seqno || p.sequence == Next(s.seqno)) && (p.sequence != Next(s.seqno) || s.state == SendingInit) ==>
              SenderHandle(s, src, p) == Again(s, src)
  {
    hide Acknowledged, Again, SenderFail, SenderStop, Next;
  }

  lemma EmptyIsGood(c: Setup, s: SenderState)
    requires s.state != SendingInit
    ensures SenderSide.GoodAnswer(c, s, [])
  {
    hide Block;
  }

  lemma AgainKeepsNumber(s: SenderState, src: SourceState)
    ensures Again(s, src).s.seqno == s.seqno && Again(s, src).s.cancelling == s.cancelling
  {
    hide Data.Encode, Wording;
  }

  lemma ErrorStops(c: Setup, s: SenderState, src: SourceState, h: seq<Record>, p: Packet)
    requires SenderSide.SenderOk(c, s, src, h) && s.status == Running && p.kind == Error
    ensures var step := SenderHears(s, src, p);
            Moves(c, s, step, h, NewHistory(s, step, h)) && step.s.status != Running && step.s.cancelling == s.cancelling
  {
    hide Chain, SenderSide.LinkOk, SenderSide.LinkKnown, SenderSide.FileOk, NoneDiscarded, Wholes, SenderSide.SizesOk;
    hide SenderSide.SourceOk, Data.Decode, SenderFail, Acknowledged, Again;
    SenderSide.RunningKnowsLink(c, s, src, h, s.link.Disarm());
  }

  // ------------------------------------------------------------------
  // The whole system
  // ------------------------------------------------------------------

  /** What every reachable state is. */
  ghost predicate Good(c: Setup, y: System) {
    Inv(c, y) && (c.ordered ==> InOrder(y))
  }

  /** What both ends may put on the line next, once `heard` is off it. */
  ghost predicate SenderMay(c: Setup, y: System, step: SenderStep) {
    && Moves(c, y.s, step, y.history, NewHistory(y.s, step, y.history))
    && (step.s.cancelling ==> y.senderStopped || y.receiverStopped)
    && (step.s.status == Running && step.s.seqno != y.s.seqno ==>
          y.accepted == |y.history| && (c.ordered ==> Rising(y.back, |y.history|, y.accepted)))
  }

  lemma SenderMayIsGood(c: Setup, y: System, step: SenderStep)
    requires Good(c, y) && y.s.status == Running && SenderMay(c, y, step)
    ensures Good(c, AfterSender(y, step))
  {
    hide SenderSide.SenderOk, ReceiverSide.ReceiverOk, Rising, BackOk, ForthOk, SenderSide.Extended, EmittedOk, InOrder;
    hide Labelled, NewHistory;
    var h, h' := y.history, NewHistory(y.s, step, y.history);
    var y' := AfterSender(y, step);
    AfterHasHistory(y, step);
    SenderKnows(c, y.s, y.src, h);
    assert h <= h';
    ReceiverSide.HistoryGrows(c, y.r, y.store, h, h', y.accepted, y.receiverStopped);
    SentIsOk(c, step.out, |h'| - 1, step.s, h');
    ForthGrows(y.forth, Labelled(step.out, |h'| - 1), h, h');
    EmittedGrows(c, y, step, h');
    if c.ordered {
      OrderGrows(c, y, step, h, h');
    }
  }

  lemma OrderGrows(c: Setup, y: System, step: SenderStep, h: seq<Record>, h': seq<Record>)
    requires InOrder(y) && y.history == h && h != [] && |h| - 1 <= y.accepted <= |h|
        && Moves(c, y.s, step, h, h') && h' == NewHistory(y.s, step, h)
    requires h <= h' && |h'| <= |h| + 1
    requires |h'| > |h| ==> Rising(y.back, |h|, y.accepted)
    ensures InOrder(AfterSender(y, step))
  {
    hide SenderSide.SenderOk, Rising, SenderSide.Extended, NewHistory;
    var y' := AfterSender(y, step);
    assert y'.history == h' by { AfterHasHistory(y, step); }
    RisingWidens(y.forth, y.accepted - 1, |h| - 1, y.accepted - 1, |h'| - 1);
    SentRise(c, step.out, step.s, step.src, h');
    RisingAppend(y.forth, y.accepted - 1, |h'| - 1, Labelled(step.out, |h'| - 1), |h'| - 1);
  }

  lemma AfterHasHistory(y: System, step: SenderStep)
    ensures AfterSender(y, step).history == NewHistory(y.s, step, y.history)
  {
    hide SenderSide.Extended;
  }

  /** Every packet is sent at most once, and then once for each retry. */
  lemma EmittedGrows(c: Setup, y: System, step: SenderStep, h': seq<Record>)
    requires EmittedOk(c, y) && y.s.status == Running && y.s.link.retries <= c.sender.retries && |y.history| > 0
    requires Moves(c, y.s, step, y.history, h') && h' == NewHistory(y.s, step, y.history)
    ensures EmittedOk(c, AfterSender(y, step))
  {
    hide SenderSide.SenderOk, SenderSide.Extended, Sendings;
    SendingsAre(c, |y.history| - 1);
  }

  lemma SendingsAre(c: Setup, n: int)
    ensures Sendings(c, n + 1) == Sendings(c, n) + c.sender.retries + 1
  {
  }

  /** What a step sends is the last packet of the history, or an error. */
  lemma SentIsOk(c: Setup, out: seq<Frame>, index: nat, s: SenderState, h: seq<Record>)
    requires h != [] && index == |h| - 1
    requires |out| <= 1 && (out == [] || out == [Last(h).frame] || forall f | f in out :: f.packet.kind == Error)
    ensures forall m | m in Labelled(out, index) :: ForthOk(m, h)
  {
  }

  lemma ForthGrows(forth: seq<Message>, more: seq<Message>, h: seq<Record>, h': seq<Record>)
    requires h <= h' && (forall m | m in forth :: ForthOk(m, h)) && (forall m | m in more :: ForthOk(m, h'))
    ensures forall m | m in forth + more :: ForthOk(m, h')
  {
    forall m | m in forth + more ensures ForthOk(m, h') {
      if m in forth {
        assert ForthOk(m, h);
      }
    }
  }

  lemma SentRise(c: Setup, out: seq<Frame>, s: SenderState, src: SourceState, h: seq<Record>)
    requires SenderSide.SenderOk(c, s, src, h)
    requires |out| <= 1
    requires if s.status == Running then out == [] || out == [Last(h).frame] else forall f | f in out :: f.packet.kind == Error
    ensures forall m | m in Labelled(out, |h| - 1) :: m.Whole? && Level(m) == |h| - 1
  {
    hide SenderSide.SenderOk;
    assert h != [] by { HistoryIsNotEmpty(c, s, src, h); }
    if s.status == Running {
      SenderKnows(c, s, src, h);
    }
  }

  lemma HistoryIsNotEmpty(c: Setup, s: SenderState, src: SourceState, h: seq<Record>)
    requires SenderSide.SenderOk(c, s, src, h)
    ensures h != [] && Chain(c, h)
  {
    hide Chain, SenderSide.LinkOk, SenderSide.RunningOk, NoneDiscarded, Wholes;
  }

  lemma ReceiverStepIsGood(c: Setup, y: System, step: ReceiverStep)
    requires Good(c, y)
    requires ReceiverSide.HeardOk(c, step, y.r, y.history, y.accepted, y.receiverStopped)
    requires step.r.expected != y.r.expected && c.ordered ==> Rising(y.forth, y.accepted, Waiting(y))
    ensures Good(c, AfterReceiver(y, step))
  {
    hide SenderSide.SenderOk, ReceiverSide.ReceiverOk, Rising, BackOk, ForthOk, ReceiverSide.Speaks, Sendings;
    var y' := AfterReceiver(y, step);
    var e := y'.accepted;
    assert e <= |y.history| by { AcceptedInHistory(c, step.r, step.store, y.history, e, y.receiverStopped); }
    SpokenIsOk(c, step.out, e, y.receiverStopped);
    BackGrows(c, y.back, AnswersLabelled(step.out, e), y.accepted, e, y.receiverStopped);
    if c.ordered {
      RisingWidens(y.back, Waiting(y), y.accepted, Waiting(y), e);
      SpokenRises(c, step.out, e, y.receiverStopped);
      RisingAppend(y.back, Waiting(y), e, AnswersLabelled(step.out, e), e);
    }
  }

  lemma AcceptedInHistory(c: Setup, r: ReceiverState, store: StoreState, h: seq<Record>, e: nat, stopped: bool)
    requires ReceiverSide.ReceiverOk(c, r, store, h, e, stopped)
    ensures e <= |h| && r.expected == e % 64
  {
    hide ReceiverSide.CountsOk, ReceiverSide.LinkAfter, ReceiverSide.WishOk, ReceiverSide.StateAfter;
    hide ReceiverSide.AnswerTo;
  }

  lemma SpokenIsOk(c: Setup, out: seq<Frame>, e: nat, stopped: bool)
    requires |out| <= 1 && forall f | f in out :: ReceiverSide.Speaks(c, f, e, stopped)
    ensures forall m | m in AnswersLabelled(out, e) :: BackOk(c, m, e, stopped)
  {
    hide ReceiverSide.AnswerTo;
    if out != [] {
      assert ReceiverSide.Speaks(c, out[0], e, stopped);
    }
  }

  lemma SpokenRises(c: Setup, out: seq<Frame>, e: nat, stopped: bool)
    requires |out| <= 1 && forall f | f in out :: ReceiverSide.Speaks(c, f, e, stopped)
    ensures forall m | m in AnswersLabelled(out, e) :: m.Whole? && Level(m) == e
  {
    if out != [] {
      assert ReceiverSide.Speaks(c, out[0], e, stopped);
    }
  }

  lemma BackGrows(c: Setup, back: seq<Message>, more: seq<Message>, e: nat, e': nat, stopped: bool)
    requires e <= e' && (forall m | m in back :: BackOk(c, m, e, stopped))
        && (forall m | m in more :: BackOk(c, m, e', stopped))
    ensures forall m | m in back + more :: BackOk(c, m, e', stopped)
  {
    forall m | m in back + more ensures BackOk(c, m, e', stopped) {
      if m in back {
        assert BackOk(c, m, e, stopped);
      }
    }
  }

  /** Being asked to stop is itself harmless. */
  lemma AskedIsGood(c: Setup, y: System, s: bool, r: bool)
    requires Good(c, y)
    ensures Good(c, y.(senderStopped := y.senderStopped || s, receiverStopped := y.receiverStopped || r))
  {
    hide SenderSide.SenderOk, ReceiverSide.ReceiverOk, Rising, ForthOk, Sendings, ReceiverSide.NakFor;
    hide ReceiverSide.AnswerTo;
    if r {
      ReceiverSide.AskedIsOk(c, y.r, y.store, y.history, y.accepted, y.receiverStopped);
      forall m | m in y.back ensures BackOk(c, m, y.accepted, true) {
        assert BackOk(c, m, y.accepted, y.receiverStopped);
        if m.Whole? && m.index < y.accepted && ReceiverSide.AnswerTo(c, m.frame, m.index, y.receiverStopped) {
          ReceiverSide.AnswersStayOk(c, m.frame, m.index, y.receiverStopped);
        }
      }
    }
  }

  /** The line may change what is on it, but only to what was there, or noise. */
  lemma LineIsGood(c: Setup, y: System, way: Way, ms: seq<Message>)
    requires Good(c, y) && forall m | m in ms :: m in OnLine(y, way) || m == Noise
    requires c.ordered ==> if way.Forth? then Rising(ms, y.accepted - 1, Waiting(y)) else Rising(ms, Waiting(y), y.accepted)
    ensures Good(c, WithLine(y, way, ms))
  {
    hide SenderSide.SenderOk, ReceiverSide.ReceiverOk, Rising, Sendings;
  }

  // ------------------------------------------------------------------
  // Every event
  // ------------------------------------------------------------------

  /** A line that keeps order never holds a message so old that its number is another's. */
  lemma OrderIsYoung(c: Setup, y: System, way: Way, at: nat)
    requires Good(c, y) && MayDeliver(c, y, way, at)
    ensures Young(y, way, OnLine(y, way)[at])
    ensures at == 0 || !c.ordered
  {
    hide SenderSide.SenderOk, ReceiverSide.ReceiverOk, LinesOk, EmittedOk;
  }

  lemma DeliveredForthIsGood(c: Setup, y: System, at: nat, misread: Arrival)
    requires Good(c, y) && MayDeliver(c, y, Forth, at)
    ensures Good(c, Apply(c, y, Delivered(Forth, at, misread)))
  {
    hide SenderSide.SenderOk, ReceiverSide.ReceiverOk, Rising, EmittedOk, BackOk, ReceiverTold;
    hide ReceiverSide.HeardOk, Chain;
    var m, rest := y.forth[at], Without(y.forth, at);
    var y1 := WithLine(y, Forth, rest);
    OrderIsYoung(c, y, Forth, at);
    assert m in y.forth;
    HistoryIsNotEmpty(c, y.s, y.src, y.history);
    ReceiverToldIsOk(c, y.r, y.store, y.history, y.accepted, y.receiverStopped, m, misread);
    if c.ordered {
      RisingChanges(y.forth, y.accepted - 1, Waiting(y), at);
      if m.Whole? {
        RisingHead(y.forth, y.accepted - 1, Waiting(y));
        RaisedTo(rest, Level(m), Waiting(y), y.accepted);
      }
    }
    LineIsGood(c, y, Forth, rest);
    ReceiverStepIsGood(c, y1, ReceiverTold(y.r, y.store, HeardAs(m, ChecksNow(y.r), misread)));
  }

  lemma RaisedTo(ms: seq<Message>, level: int, high: int, low: int)
    requires Rising(ms, level, high)
    ensures low <= level ==> Rising(ms, low, high)
  {
  }

  lemma DeliveredBackIsGood(c: Setup, y: System, at: nat, misread: Arrival)
    requires Good(c, y) && MayDeliver(c, y, Back, at)
    ensures Good(c, Apply(c, y, Delivered(Back, at, misread)))
  {
    hide SenderSide.SenderOk, ReceiverSide.ReceiverOk, Rising, EmittedOk, ForthOk, SenderTold, Moves, Chain;
    var m, rest := y.back[at], Without(y.back, at);
    var y1 := WithLine(y, Back, rest);
    OrderIsYoung(c, y, Back, at);
    assert m in y.back;
    if c.ordered {
      RisingChanges(y.back, Waiting(y), y.accepted, at);
      if m.Whole? {
        RisingHead(y.back, Waiting(y), y.accepted);
        RaisedTo(rest, Level(m), y.accepted, |y.history|);
      }
    }
    LineIsGood(c, y, Back, rest);
    if y.s.status == Running {
      SenderToldIsOk(c, y.s, y.src, y.history, y.accepted, y.receiverStopped, m, misread);
      SenderMayIsGood(c, y1, SenderTold(y.s, y.src, HeardAs(m, [y.s.link.CheckUsed()], misread)));
    } else {
      StoppedHearsNothing(y.s, y.src, HeardAs(m, [y.s.link.CheckUsed()], misread));
      NothingSent(y1);
    }
  }

  lemma StoppedHearsNothing(s: SenderState, src: SourceState, a: Arrival)
    requires s.status != Running
    ensures SenderTold(s, src, a) == SenderStep(s, src, [])
  {
  }

  lemma NothingSent(y: System)
    ensures AfterSender(y, SenderStep(y.s, y.src, [])) == y
  {
    assert y.forth + Labelled([], Max(|y.history| - 1, 0)) == y.forth;
  }

  lemma SenderTickIsGood(c: Setup, y: System)
    requires Good(c, y)
    ensures Good(c, Apply(c, y, TimesOut(Forth)))
  {
    hide SenderSide.SenderOk, Good, Moves, Again, SenderSide.Stayed, NewHistory, AfterSender;
    if y.s.status != Running || !y.s.link.armed {
      NothingSent(y);
    } else {
      assert SenderSide.SenderOk(c, y.s, y.src, y.history)
          && (y.s.cancelling ==> y.senderStopped || y.receiverStopped) by { GoodIs(c, y); }
      SenderSide.AgainIsOk(c, y.s, y.src, y.history);
      StayedMoves(c, y.s, Again(y.s, y.src), y.history);
      AgainKeepsNumber(y.s, y.src);
      SenderMayIsGood(c, y, Again(y.s, y.src));
    }
  }

  lemma GoodIs(c: Setup, y: System)
    requires Good(c, y)
    ensures SenderSide.SenderOk(c, y.s, y.src, y.history) && (y.s.cancelling ==> y.senderStopped || y.receiverStopped)
    ensures ReceiverSide.ReceiverOk(c, y.r, y.store, y.history, y.accepted, y.receiverStopped)
    ensures |y.history| - 1 <= y.accepted <= |y.history| && LinesOk(c, y) && EmittedOk(c, y)
  {
    hide SenderSide.SenderOk, ReceiverSide.ReceiverOk, EmittedOk, LinesOk;
  }

  lemma ReceiverTickIsGood(c: Setup, y: System)
    requires Good(c, y)
    ensures Good(c, Apply(c, y, TimesOut(Back)))
  {
    hide SenderSide.SenderOk, ReceiverSide.ReceiverOk, Good, ReceiverTick, ReceiverSide.HeardOk, AfterReceiver;
    GoodIs(c, y);
    ReceiverSide.ReceiverTickIsOk(c, y.r, y.store, y.history, y.accepted, y.receiverStopped);
    assert ReceiverTick(y.r, y.store).r.expected == y.r.expected by { TickKeepsNumber(y.r, y.store); }
    ReceiverStepIsGood(c, y, ReceiverTick(y.r, y.store));
  }

  lemma TickKeepsNumber(r: ReceiverState, store: StoreState)
    ensures ReceiverTick(r, store).r.expected == r.expected && ReceiverCancel(r, store).r.expected == r.expected
  {
    hide Wording, Data.Encode;
  }

  lemma UserStopsIsGood(c: Setup, y: System, way: Way)
    requires Good(c, y)
    ensures Good(c, Apply(c, y, UserStops(way)))
  {
    hide SenderSide.SenderOk, ReceiverSide.ReceiverOk, Good, Moves, SenderCancel, ReceiverCancel;
    hide SenderSide.Stayed, ReceiverSide.HeardOk;
    hide AfterSender, AfterReceiver, NewHistory;
    AskedIsGood(c, y, way.Forth?, way.Back?);
    var y1 := if way.Forth? then y.(senderStopped := true) else y.(receiverStopped := true);
    assert Good(c, y1);
    GoodIs(c, y1);
    if way.Forth? {
      if y.s.status != Running {
        CancelStopped(y.s, y.src);
        NothingSent(y1);
      } else {
        SenderSide.SenderCancelIsOk(c, y.s, y.src, y.history);
        StayedMoves(c, y.s, SenderCancel(y.s, y.src), y.history);
        CancelKeepsNumber(y.s, y.src);
        SenderMayIsGood(c, y1, SenderCancel(y.s, y.src));
      }
    } else {
      ReceiverSide.ReceiverCancelIsOk(c, y.r, y.store, y.history, y.accepted, true);
      TickKeepsNumber(y.r, y.store);
      ReceiverStepIsGood(c, y1, ReceiverCancel(y.r, y.store));
    }
  }

  lemma CancelStopped(s: SenderState, src: SourceState)
    requires s.status != Running
    ensures SenderCancel(s, src) == SenderStep(s, src, [])
  {
  }

  lemma CancelKeepsNumber(s: SenderState, src: SourceState)
    ensures SenderCancel(s, src).s.seqno == s.seqno
  {
    hide Data.Encode;
  }

  /** What the line does by itself. */
  lemma LineEventIsGood(c: Setup, y: System, ev: Event)
    requires Good(c, y) && (ev.Lost? || ev.Repeated? || ev.Spoiled? || ev.Hiss?)
    ensures Good(c, Apply(c, y, ev))
  {
    hide Good, LinesOk, Rising;
    var ms := OnLine(y, ev.way);
    var low, high := if ev.way.Forth? then y.accepted - 1 else Waiting(y), if ev.way.Forth? then Waiting(y) else y.accepted;
    if c.ordered {
      GoodRises(c, y);
    }
    if ev.at < |ms| {
      if c.ordered {
        RisingChanges(ms, low, high, ev.at);
      }
    }
    if ev.at <= |ms| {
      if c.ordered {
        RisingHisses(ms, low, high, ev.at);
      }
    }
    match ev {
      case Lost(way, at) => if at < |ms| { LineIsGood(c, y, way, Without(ms, at)); }
      case Repeated(way, at) => if at < |ms| { LineIsGood(c, y, way, ms[..at] + [ms[at]] + ms[at..]); }
      case Spoiled(way, at) => if at < |ms| { LineIsGood(c, y, way, ms[at := Noise]); }
      case Hiss(way, at) => if at <= |ms| { LineIsGood(c, y, way, ms[..at] + [Noise] + ms[at..]); }
    }
  }

  lemma GoodRises(c: Setup, y: System)
    requires Good(c, y) && c.ordered
    ensures Rising(y.forth, y.accepted - 1, Waiting(y)) && Rising(y.back, Waiting(y), y.accepted)
  {
    hide Inv, Rising;
  }

  lemma ApplyIsGood(c: Setup, y: System, ev: Event)
    requires Good(c, y)
    ensures Good(c, Apply(c, y, ev))
  {
    hide Good, AfterSender, AfterReceiver, ReceiverTold, SenderTold;
    match ev {
      case Delivered(way, at, misread) =>
        if MayDeliver(c, y, way, at) {
          if way.Forth? {
            DeliveredForthIsGood(c, y, at, misread);
          } else {
            DeliveredBackIsGood(c, y, at, misread);
          }
        }
      case TimesOut(Forth) => SenderTickIsGood(c, y);
      case TimesOut(Back) => ReceiverTickIsGood(c, y);
      case UserStops(way) => UserStopsIsGood(c, y, way);
      case _ => LineEventIsGood(c, y, ev);
    }
  }

  lemma StartIsGood(c: Setup)
    ensures Good(c, Start(c))
  {
    hide SenderSide.SenderOk, ReceiverSide.ReceiverOk;
    SenderSide.StartIsOk(c);
    ReceiverSide.StartIsOk(c, Start(c).history);
  }

  /** Every state of every run is good. */
  lemma {:induction false} AlwaysGood(c: Setup, events: seq<Event>)
    ensures Good(c, Exec(c, events))
    decreases |events|
  {
    hide Good, Apply;
    if events == [] {
      StartIsGood(c);
    } else {
      AlwaysGood(c, events[..|events| - 1]);
      ApplyIsGood(c, Exec(c, events[..|events| - 1]), events[|events| - 1]);
    }
  }
}

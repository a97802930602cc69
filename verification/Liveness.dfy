/**
 No run gets stuck: wherever it has got to, one time-out and a line that then
 behaves take the sender a packet further, and from every state in which both
 ends still run the transfer can be completed.
 */
module Liveness {
  import opened Options
  import opened Bytes
  import opened Checks
  import opened Packets
  import opened Parameters
  import opened Protocol
  import opened Streams
  import opened History
  import opened Network
  import opened Steps
  import Data
  import SenderSide
  import ReceiverSide
  import Theorems

  /** Nothing outside the protocol stands in the way: files open and are written, names are taken, data fits. */
  ghost predicate Willing(c: Setup) {
    && c.faults == map[] && c.refusals == map[] && c.AllOrNothing()
    && forall i: nat | i < |c.files| :: NameTaken(c, i)
  }

  predicate NameTaken(c: Setup, i: nat)
    requires i < |c.files|
  {
    c.receiver.nameFor(Data.Decode(c.NameData(i), c.ReceiverLink().ReadsWith().Quoting())).Some?
  }

  /** Both ends wait with a time limit, before and after they have agreed. */
  predicate Patient(c: Setup) {
    c.sender.params.timeout > 0 && c.SenderLink().Timed()
  }

  // ------------------------------------------------------------------
  // The receiver takes what it waits for
  // ------------------------------------------------------------------

  /** How a receiver ends that takes the end of the batch. */
  function EndsAs(r: ReceiverState): Status { if r.cancelling then Cancelled else Done }

  lemma AcceptMoves(c: Setup, r: ReceiverState, store: StoreState, h: seq<Record>, e: nat, stopped: bool)
    requires e < |h| && ReceiverSide.ReceiverOk(c, r, store, h, e, stopped) && r.status == Running
        && Chain(c, h) && Willing(c)
    ensures var step := ReceiverHandle(r, store, h[e].frame.packet);
            && step.r.expected == (e + 1) % 64 && (h[e].Kind() != Break ==> step.r.status == Running)
            && (h[e].Kind() == Break ==> step.r.status == EndsAs(r))
  {
    hide Follows, OnSendInit, OnFile, OnBreak, OnAttributes, OnData, OnEndOfFile, ReceiverFail, ReceiverStop, Willing;
    hide ReceiverSide.CountsOk, ReceiverSide.WishOk, ReceiverSide.AnswerTo, ReceiverSide.LinkAfter;
    hide ReceiverSide.ContentOk, Setup.Sound;
    ReceiverSide.SequenceMoves(e);
    var p := h[e].frame.packet;
    assert store.refusals == map[] by { assert Willing(c); WillingMeans(c); }
    if e == 0 {
      BeginsIsInit(c, h[0]);
      InitTaken(r, store, p);
    } else {
      assert Follows(c, h[e - 1], h[e]);
      ReceiverSide.KindFollows(c, h[e - 1], h[e]);
      match p.kind {
        case File =>
          FileNameTaken(c, r, store, h, e, stopped);
          FileTaken(r, store, p);
        case _ => OtherTaken(r, store, p);
      }
    }
  }

  lemma WillingMeans(c: Setup)
    requires Willing(c)
    ensures c.faults == map[] && c.refusals == map[] && c.AllOrNothing()
  {
  }

  lemma InitTaken(r: ReceiverState, store: StoreState, p: Packet)
    ensures OnSendInit(r, store, p).r.expected == Next(p.sequence) && OnSendInit(r, store, p).r.status == r.status
  {
  }

  lemma FileNameTaken(c: Setup, r: ReceiverState, store: StoreState, h: seq<Record>, e: nat, stopped: bool)
    requires 0 < e < |h| && ReceiverSide.ReceiverOk(c, r, store, h, e, stopped) && Chain(c, h) && Willing(c)
    requires h[e].Kind() == File
    ensures r.settings.nameFor(Data.Decode(h[e].Body(), r.link.ReadsWith().Quoting())).Some?
  {
    hide ReceiverSide.CountsOk, ReceiverSide.WishOk, ReceiverSide.AnswerTo, ReceiverSide.StateAfter;
    hide Setup.Sound, Data.Decode, Setup.NameData;
    hide Setup.ReceiverLink, Setup.Room;
    assert Follows(c, h[e - 1], h[e]);
    ReceiverSide.FileFollows(c, h[e - 1], h[e]);
    assert NameTaken(c, h[e - 1].begun);
  }

  lemma FileTaken(r: ReceiverState, store: StoreState, p: Packet)
    requires store.refusals == map[] && r.settings.nameFor(Data.Decode(p.data, r.link.ReadsWith().Quoting())).Some?
    ensures OnFile(r, store, p).r.expected == Next(p.sequence) && OnFile(r, store, p).r.status == r.status
  {
    hide Data.Decode, ReceiverFail;
  }

  lemma OtherTaken(r: ReceiverState, store: StoreState, p: Packet)
    requires store.refusals == map[]
    ensures OnBreak(r, store, p).r.expected == Next(p.sequence) && OnBreak(r, store, p).r.status == EndsAs(r)
    ensures OnAttributes(r, store, p).r.expected == Next(p.sequence) && OnAttributes(r, store, p).r.status == r.status
    ensures OnData(r, store, p).r.expected == Next(p.sequence) && OnData(r, store, p).r.status == r.status
    ensures OnEndOfFile(r, store, p).r.expected == Next(p.sequence) && OnEndOfFile(r, store, p).r.status == r.status
  {
    hide Data.Decode, ReceiverFail, Converted, HeldAfter;
  }

  // ------------------------------------------------------------------
  // One packet across and its answer back
  // ------------------------------------------------------------------

  /** What comes of delivering the packet last sent: it has been accepted, now or before, and is answered. */
  ghost predicate Answers(c: Setup, step: ReceiverStep, r: ReceiverState, h: seq<Record>, e: nat, stopped: bool)
    requires h != []
  {
    var k := |h| - 1;
    && (step.r.expected != r.expected <==> e == k)
    && ReceiverSide.ReceiverOk(c, step.r, step.store, h, k + 1, stopped)
    && step.out == step.r.link.last && |step.out| == 1 && ReceiverSide.AnswerTo(c, step.out[0], k, stopped)
    && (Last(h).Kind() != Break ==> step.r.status == Running)
    && (Last(h).Kind() == Break ==> step.r.status == EndsAs(r))
  }

  lemma ForthAnswers(c: Setup, r: ReceiverState, store: StoreState, h: seq<Record>, e: nat, stopped: bool, misread: Arrival)
    requires h != [] && |h| - 1 <= e <= |h|
    requires ReceiverSide.ReceiverOk(c, r, store, h, e, stopped) && Chain(c, h) && Willing(c)
    requires r.status == Running || r.status == Done
    ensures Answers(c, ReceiverTold(r, store, HeardAs(Whole(Last(h).frame, |h| - 1), ChecksNow(r), misread)), r, h, e, stopped)
  {
    hide ReceiverSide.ReceiverOk, ReceiverHandle, ReceiverSide.AnswerTo, Follows, Begins, Willing;
    hide ReceiverSide.HeardOk, ReceiverChecks, Numbered;
    var k := |h| - 1;
    var m := Whole(h[k].frame, k);
    LevelIsIndex(c, h, m);
    assert h[k].frame.packet.sequence == k % 64 by { NumberOf(c, h, k); }
    ReceiverSide.SequenceMoves(e);
    AcceptedInHistory(c, r, store, h, e, stopped);
    if r.status == Done {
      DoneAnswers(c, r, store, h, e, stopped, misread);
      NotPastTheEnd(c, r, store, h, e, stopped);
    } else {
      NotDamaged(c, r, store, h, e, stopped, misread);
      var p := HeardAs(m, ChecksNow(r), misread).packet;
      HeardIsWhole(m, ChecksNow(r), misread);
      RunningHears(r, store, p);
      if e == k {
        FirstCheckIsRight(c, r, store, h, e, stopped);
        ReceiverSide.AcceptIsOk(c, r, store, h, e, stopped);
        AcceptMoves(c, r, store, h, e, stopped);
        LastIsAnswer(c, ReceiverHandle(r, store, p).r, ReceiverHandle(r, store, p).store, h, k + 1, stopped);
      } else {
        NotPastTheEnd(c, r, store, h, e, stopped);
        ReceiverSide.RepeatIsOk(c, r, store, h, e, stopped, p);
        HeardLeaves(c, ReceiverHandle(r, store, p), r, h, e, stopped);
        LastIsAnswer(c, r, store, h, e, stopped);
      }
    }
  }

  /** A receiver that has taken the end of the batch no longer runs, and if it is done it meant to keep files. */
  lemma NotPastTheEnd(c: Setup, r: ReceiverState, store: StoreState, h: seq<Record>, e: nat, stopped: bool)
    requires ReceiverSide.ReceiverOk(c, r, store, h, e, stopped)
    ensures e > 0 && e <= |h| && r.status == Running ==> h[e - 1].Kind() != Break
    ensures r.status == Done ==> EndsAs(r) == Done
  {
    hide ReceiverSide.CountsOk, ReceiverSide.WishOk, ReceiverSide.AnswerTo, ReceiverSide.OpenAfter;
    hide ReceiverSide.LinkAfter;
  }

  lemma NumberOf(c: Setup, h: seq<Record>, i: nat)
    requires Chain(c, h) && i < |h|
    ensures h[i].frame.packet.sequence == i % 64
  {
    hide Follows;
  }

  lemma HeardLeaves(c: Setup, step: ReceiverStep, r: ReceiverState, h: seq<Record>, e: nat, stopped: bool)
    requires ReceiverSide.HeardOk(c, step, r, h, e, stopped) && step.r.expected == r.expected
    ensures ReceiverSide.ReceiverOk(c, step.r, step.store, h, e, stopped)
  {
    hide ReceiverSide.ReceiverOk;
  }

  lemma LastIsAnswer(c: Setup, r: ReceiverState, store: StoreState, h: seq<Record>, e: nat, stopped: bool)
    requires ReceiverSide.ReceiverOk(c, r, store, h, e, stopped) && e > 0
    ensures |r.link.last| == 1 && ReceiverSide.AnswerTo(c, r.link.last[0], e - 1, stopped)
  {
    hide ReceiverSide.CountsOk, ReceiverSide.WishOk, ReceiverSide.AnswerTo, ReceiverSide.StateAfter;
    hide ReceiverSide.LinkAfter;
  }

  /** The packet last sent, whole, is never taken for damage by a running receiver. */
  lemma NotDamaged(c: Setup, r: ReceiverState, store: StoreState, h: seq<Record>, e: nat, stopped: bool, misread: Arrival)
    requires ReceiverSide.ReceiverOk(c, r, store, h, e, stopped) && Chain(c, h) && |h| - 1 <= e <= |h| && r.status == Running
    ensures var m := Whole(Last(h).frame, |h| - 1); HeardAs(m, ChecksNow(r), misread).Arrived?
  {
    hide ReceiverSide.CountsOk, ReceiverSide.WishOk, ReceiverSide.AnswerTo, Follows, Setup.ReceiverLink;
    hide NewLink, LinkState.Agree;
    if e == |h| - 1 {
      FirstCheckIsRight(c, r, store, h, e, stopped);
    } else if |h| > 1 {
      CheckOfLater(c, h, |h| - 1);
      Theorems.CheckByNow(c, r, store, h, e, stopped);
    } else {
      BeginsIsInit(c, h[0]);
      assert r.state == AwaitFile && r.expected == 1;
    }
  }

  lemma CheckOfLater(c: Setup, h: seq<Record>, i: nat)
    requires Chain(c, h) && 0 < i < |h|
    ensures h[i].frame.check == c.CheckAgreed()
  {
    assert Follows(c, h[i - 1], h[i]);
  }

  lemma DoneAnswers(c: Setup, r: ReceiverState, store: StoreState, h: seq<Record>, e: nat, stopped: bool, misread: Arrival)
    requires ReceiverSide.ReceiverOk(c, r, store, h, e, stopped) && Chain(c, h) && |h| - 1 <= e <= |h| && r.status == Done
    ensures var k := |h| - 1; var m := Whole(h[k].frame, k);
            var step := ReceiverTold(r, store, HeardAs(m, ChecksNow(r), misread));
            && e == |h| && h[k].Kind() == Break && step == ReceiverStep(r, store, r.link.last)
            && |r.link.last| == 1 && ReceiverSide.AnswerTo(c, r.link.last[0], k, stopped)
  {
    hide ReceiverSide.CountsOk, ReceiverSide.WishOk, ReceiverSide.AnswerTo, ReceiverSide.StateAfter, Follows, Begins;
    hide ReceiverSide.LinkAfter, ReceiverHandle;
    LastIsAnswer(c, r, store, h, e, stopped);
    if e == |h| - 1 {
      assert Follows(c, h[e - 1], h[e]);
      NothingAfter(c, h[e - 1], h[e]);
    }
    var k := |h| - 1;
    if k == 0 {
      BeginsIsInit(c, h[0]);
    }
    CheckOfLater(c, h, k);
    Theorems.CheckByNow(c, r, store, h, e, stopped);
    ReceiverSide.SequenceMoves(e);
    NumberOf(c, h, k);
  }

  /** The answer to the packet waited for, delivered to the sender. */
  lemma AnswerAcknowledges(c: Setup, s: SenderState, src: SourceState, h: seq<Record>, f: Frame, stopped: bool,
        misread: Arrival)
    requires SenderSide.SenderOk(c, s, src, h) && s.status == Running
        && ReceiverSide.AnswerTo(c, f, |h| - 1, stopped) && Willing(c)
    ensures var k := |h| - 1; var step := SenderTold(s, src, HeardAs(Whole(f, k), [s.link.CheckUsed()], misread));
            && step == Acknowledged(s, src, f.packet.data)
            && NewHistory(s, step, h) == SenderSide.Extended(step, h)
            && SenderSide.Advanced(c, step, h, SenderSide.Extended(step, h))
            && (s.state != SendingBreak ==> step.s.status == Running)
            && (s.state == SendingBreak ==> step.s.status == if s.cancelling then Cancelled else Done)
  {
    hide SenderSide.SenderOk, Acknowledged, SenderSide.Advanced, SenderSide.Extended, Block;
    hide Setup.CheckAgreed, Willing, Setup.Room;
    WillingMeans(c);
    SenderKnows(c, s, src, h);
    assert SenderSide.GoodAnswer(c, s, f.packet.data);
    SenderSide.AcknowledgedIsOk(c, s, src, h, f.packet.data);
    AdvancedMoves(c, s, Acknowledged(s, src, f.packet.data), src, h);
    AdvancedChangesNumber(c, s, Acknowledged(s, src, f.packet.data), src, h);
  }

  lemma AdvancedChangesNumber(c: Setup, s: SenderState, step: SenderStep, src: SourceState, h: seq<Record>)
    requires SenderSide.SenderOk(c, s, src, h) && s.status == Running
    requires SenderSide.Advanced(c, step, h, SenderSide.Extended(step, h))
    ensures NewHistory(s, step, h) == SenderSide.Extended(step, h)
    ensures step.s.status == Running ==> |SenderSide.Extended(step, h)| == |h| + 1 && step.out == [Last(SenderSide.Extended(step, h)).frame]
  {
    hide SenderSide.SenderOk, SenderSide.RecordOf, Last;
    SenderKnows(c, s, src, h);
    NumberMoves(|h|);
  }

  /** The sender waits for the answer to a packet that is on its way, and nothing else is on the line. */
  ghost predicate Outstanding(y: System) {
    && y.history != [] && y.forth == [Whole(Last(y.history).frame, |y.history| - 1)] && y.back == []
    && y.s.status == Running && (y.r.status == Running || y.r.status == Done)
  }

  /** Both users are as they were. */
  predicate SameWishes(y: System, z: System) {
    y.senderStopped == z.senderStopped && y.receiverStopped == z.receiverStopped
  }

  function Exchange(a: Arrival, b: Arrival): seq<Event> { [Delivered(Forth, 0, a), Delivered(Back, 0, b)] }

  /** The packet arrives. */
  lemma PacketArrives(c: Setup, y: System, a: Arrival)
    requires Good(c, y) && Willing(c) && Outstanding(y)
    ensures var z := Apply(c, y, Delivered(Forth, 0, a)); var k := Waiting(y);
            && Good(c, z) && SameWishes(y, z) && z.history == y.history && z.s == y.s && z.src == y.src
            && z.forth == [] && z.accepted == k + 1
            && |z.back| == 1 && z.back[0].Whole? && z.back[0].index == k
            && ReceiverSide.AnswerTo(c, z.back[0].frame, k, y.receiverStopped)
            && (Last(y.history).Kind() != Break ==> z.r.status == Running)
            && (Last(y.history).Kind() == Break ==> z.r.status == EndsAs(y.r))
  {
    hide Good, Willing, ReceiverSide.ReceiverOk, ReceiverSide.AnswerTo, ReceiverTold, Chain;
    hide SenderSide.SenderOk, LinesOk, EmittedOk, HeardAs, ChecksNow, EndsAs;
    ApplyIsGood(c, y, Delivered(Forth, 0, a));
    GoodIs(c, y);
    HistoryIsNotEmpty(c, y.s, y.src, y.history);
    ForthAnswers(c, y.r, y.store, y.history, y.accepted, y.receiverStopped, a);
    assert MayDeliver(c, y, Forth, 0);
    var step := ReceiverTold(y.r, y.store, HeardAs(y.forth[0], ChecksNow(y.r), a));
    ReceiverSide.AnswerIsAck(c, step.out[0], |y.history| - 1, y.receiverStopped);
  }

  /** The answer arrives. */
  lemma AnswerArrives(c: Setup, y: System, b: Arrival)
    requires Good(c, y) && Willing(c) && y.history != [] && y.s.status == Running && y.forth == []
        && y.accepted == |y.history|
    requires |y.back| == 1 && y.back[0].Whole? && y.back[0].index == Waiting(y)
    requires ReceiverSide.AnswerTo(c, y.back[0].frame, Waiting(y), y.receiverStopped)
    ensures var z := Apply(c, y, Delivered(Back, 0, b)); var step := Acknowledged(y.s, y.src, y.back[0].frame.packet.data);
            && Good(c, z) && SameWishes(y, z) && z.r == y.r && z.store == y.store && z.accepted == y.accepted && z.back == []
            && z.s == step.s && z.src == step.src && z.history == SenderSide.Extended(step, y.history)
            && (y.s.state != SendingBreak ==>
                  z.s.status == Running && |z.history| == |y.history| + 1
                      && z.forth == [Whole(Last(z.history).frame, |y.history|)])
            && (y.s.state == SendingBreak ==> z.s.status == if y.s.cancelling then Cancelled else Done)
  {
    hide Good, Willing, ReceiverSide.ReceiverOk, ReceiverSide.AnswerTo, SenderTold, Acknowledged, Chain;
    hide SenderSide.SenderOk, LinesOk, EmittedOk;
    hide SenderSide.Advanced, SenderSide.Extended, NewHistory, HeardAs;
    ApplyIsGood(c, y, Delivered(Back, 0, b));
    GoodIs(c, y);
    var m := y.back[0];
    assert m == Whole(m.frame, Waiting(y));
    AnswerAcknowledges(c, y.s, y.src, y.history, m.frame, y.receiverStopped, b);
    var step := Acknowledged(y.s, y.src, m.frame.packet.data);
    AdvancedChangesNumber(c, y.s, step, y.src, y.history);
    assert MayDeliver(c, y, Back, 0);
    var y1 := WithLine(y, Back, Without(y.back, 0));
    AfterHasHistory(y1, step);
  }

  /** What a packet and its answer crossing leaves, whatever the far end might have misread. */
  ghost predicate Exchanged(c: Setup, y: System, z: System) {
    && Good(c, z) && SameWishes(y, z)
    && (y.s.state != SendingBreak ==>
          Outstanding(z) && |z.history| == |y.history| + 1 && y.history <= z.history && z.accepted == |y.history|)
    && (y.s.state == SendingBreak ==>
          z.r.status == EndsAs(y.r) && z.s.status == if y.s.cancelling then Cancelled else Done)
  }

  lemma ExchangeAdvances(c: Setup, y: System, a: Arrival, b: Arrival) returns (data: seq<byte>)
    requires Good(c, y) && Willing(c) && Outstanding(y)
    ensures var z := ExecFrom(c, y, Exchange(a, b));
            && Exchanged(c, y, z) && ReceiverSide.Complete(z.store.files) == ReceiverSide.Complete(Apply(c, y, Delivered(Forth, 0, a)).store.files)
            && z.s == Acknowledged(y.s, y.src, data).s
                && (data == [] || y.receiverStopped || data[0] != 90 || |y.history| == 1)
  {
    hide Good, Willing, ReceiverSide.ReceiverOk, Acknowledged, Chain, SenderSide.SenderOk, LinesOk, EmittedOk;
    hide Apply, ExecFrom, SenderSide.Extended, ReceiverSide.AnswerTo;
    PacketArrives(c, y, a);
    var m := Apply(c, y, Delivered(Forth, 0, a));
    AnswerArrives(c, m, b);
    var z := Apply(c, m, Delivered(Back, 0, b));
    data := m.back[0].frame.packet.data;
    AnswerSays(c, m.back[0].frame, Waiting(y), y.receiverStopped);
    TwoEvents(c, y, Delivered(Forth, 0, a), Delivered(Back, 0, b));
    GoodIs(c, y);
    SenderKnows(c, y.s, y.src, y.history);
    KindIsState(c, y.s, y.src, y.history);
    if y.s.state != SendingBreak {
      assert y.history <= z.history by { ExtendedGrows(Acknowledged(m.s, m.src, data), m.history); }
    }
  }

  /** Only a receiver asked to stop says `Z`. */
  lemma AnswerSays(c: Setup, f: Frame, k: nat, stopped: bool)
    requires ReceiverSide.AnswerTo(c, f, k, stopped)
    ensures f.packet.data == [] || stopped || f.packet.data[0] != 90 || k == 0
  {
    hide Block, MadeBy;
  }

  lemma ExtendedGrows(step: SenderStep, h: seq<Record>)
    ensures h <= SenderSide.Extended(step, h)
  {
    hide SenderSide.RecordOf;
  }

  lemma TwoEvents(c: Setup, y: System, e1: Event, e2: Event)
    ensures ExecFrom(c, y, [e1, e2]) == Apply(c, Apply(c, y, e1), e2)
  {
    hide Apply;
    assert [e1] + [e2] == [e1, e2] && [e2] + [] == [e2];
    FirstEvent(c, y, e1, [e2]);
    FirstEvent(c, Apply(c, y, e1), e2, []);
  }

  lemma KindIsState(c: Setup, s: SenderState, src: SourceState, h: seq<Record>)
    requires SenderSide.SenderOk(c, s, src, h) && s.status == Running
    ensures h != [] && Last(h).Kind() == SenderSide.KindSent(s.state) && s.link.armed == s.link.Timed()
    ensures s.link.Timed() == if s.state == SendingInit then c.sender.params.timeout > 0 else c.SenderLink().Timed()
    ensures s.state == SendingBreak && !s.cancelling ==> Last(h).begun == |c.files|
  {
    hide Chain, SenderSide.FileOk, NoneDiscarded, Wholes, SenderSide.SizesOk, SenderSide.SourceOk, LinkState.Agree;
  }

  // ------------------------------------------------------------------
  // No deadlock
  // ------------------------------------------------------------------

  /** A time-out puts the packet waiting for its answer back on an empty line. */
  lemma TimeOutSends(c: Setup, y: System)
    requires Good(c, y) && Patient(c) && y.s.status == Running && y.s.link.retries < y.s.link.limit
    requires y.forth == [] && y.back == [] && (y.r.status == Running || y.r.status == Done)
    ensures var z := Apply(c, y, TimesOut(Forth));
            && Good(c, z) && Outstanding(z) && SameWishes(y, z) && z.history == y.history && z.s.state == y.s.state
            && z.s.cancelling == y.s.cancelling && z.r == y.r && z.store == y.store
  {
    hide Good, Again, SenderSide.SenderOk, ReceiverSide.ReceiverOk, LinesOk, EmittedOk, Setup.SenderLink;
    ApplyIsGood(c, y, TimesOut(Forth));
    GoodIs(c, y);
    KindIsState(c, y.s, y.src, y.history);
    SenderSide.AgainIsOk(c, y.s, y.src, y.history);
    AgainKeepsState(y.s, y.src);
  }

  lemma AgainKeepsState(s: SenderState, src: SourceState)
    ensures var step := Again(s, src);
            step.s.seqno == s.seqno && step.s.cancelling == s.cancelling
            && (step.s.status == Running ==> step.s.state == s.state)
    ensures s.status == Running && Again(s, src).s.status != Running ==> s.link.retries >= s.link.limit
  {
    hide Data.Encode, Wording;
  }

  /**
   Whatever run came before, if nothing is left on the line and both ends still
   wait, one time-out of the sender's and a line that then delivers move it a
   packet further, or end it: whether the packet or its answer had been lost,
   and whatever check each was built with.
   */
  lemma NoDeadlock(c: Setup, events: seq<Event>, a: Arrival, b: Arrival)
    requires Willing(c) && Patient(c)
    requires var y := Exec(c, events);
             && y.forth == [] && y.back == [] && y.s.status == Running && (y.r.status == Running || y.r.status == Done)
             && y.s.link.retries < y.s.link.limit
    ensures var y := Exec(c, events); var z := Exec(c, events + ([TimesOut(Forth)] + Exchange(a, b)));
            if y.s.state == SendingBreak then z.s.status == if y.s.cancelling then Cancelled else Done
            else z.s.status == Running && |z.history| == |y.history| + 1 && y.history <= z.history
  {
    hide Exec, ExecFrom, Apply, Good, Willing;
    var y := Exec(c, events);
    AlwaysGood(c, events);
    TimeOutSends(c, y);
    var z := Apply(c, y, TimesOut(Forth));
    var data := ExchangeAdvances(c, z, a, b);
    ExecContinues(c, events, [TimesOut(Forth)] + Exchange(a, b));
    FirstEvent(c, y, TimesOut(Forth), Exchange(a, b));
  }

  lemma FirstEvent(c: Setup, y: System, e: Event, rest: seq<Event>)
    ensures ExecFrom(c, y, [e] + rest) == ExecFrom(c, Apply(c, y, e), rest)
  {
    hide Apply;
    assert ([e] + rest)[1..] == rest;
  }

  // ------------------------------------------------------------------
  // Every transfer can be completed
  // ------------------------------------------------------------------

  predicate NobodyStops(events: seq<Event>) { forall e | e in events :: !e.UserStops? }

  /** Everything on the line can be lost. */
  lemma {:induction false} Drains(c: Setup, y: System) returns (events: seq<Event>)
    ensures ExecFrom(c, y, events) == y.(forth := [], back := []) && NobodyStops(events)
    decreases |y.forth| + |y.back|
  {
    if y.forth == [] && y.back == [] {
      events := [];
    } else {
      var e := Lost(if y.forth != [] then Forth else Back, 0);
      var rest := Drains(c, Apply(c, y, e));
      events := [e] + rest;
      FirstEvent(c, y, e, rest);
    }
  }

  /** From a packet on its way, exchange after exchange reaches the end. */
  lemma {:induction false} Finishes(c: Setup, y: System) returns (events: seq<Event>)
    requires Good(c, y) && Willing(c) && Outstanding(y)
    ensures var z := ExecFrom(c, y, events);
            && (z.s.status == Done || (z.s.status == Cancelled && (y.senderStopped || y.receiverStopped)))
            && (!y.senderStopped && !y.receiverStopped ==> z.r.status == Done)
            && SameWishes(y, z) && NobodyStops(events)
    decreases 2 + Budget(c, |c.files|) - |y.history|
  {
    hide Good, Willing, Apply, ExecFrom, Outstanding, SenderSide.SenderOk, ReceiverSide.ReceiverOk, Budget, Chain;
    var data := ExchangeAdvances(c, y, Nothing, Nothing);
    var z := ExecFrom(c, y, Exchange(Nothing, Nothing));
    if y.s.state == SendingBreak {
      events := Exchange(Nothing, Nothing);
      Theorems.CancellingIsAsked(c, y);
      GoodIs(c, y);
      OutstandingRuns(y);
      if !y.senderStopped && !y.receiverStopped {
        KeepsUnlessAsked(c, y);
      }
    } else {
      GoodIs(c, z);
      HistoryIsNotEmpty(c, z.s, z.src, z.history);
      HistoryIsShort(c, z.history, |z.history| - 1);
      var rest := Finishes(c, z);
      events := Exchange(Nothing, Nothing) + rest;
      RunsOn(c, y, Exchange(Nothing, Nothing), rest);
    }
  }

  lemma OutstandingRuns(y: System)
    requires Outstanding(y)
    ensures y.history != [] && y.s.status == Running && (y.r.status == Running || y.r.status == Done)
  {
  }

  /** A receiver nobody asked to stop, and told of no file marked discard, means to keep files. */
  lemma KeepsUnlessAsked(c: Setup, y: System)
    requires Good(c, y) && !y.s.cancelling && !y.receiverStopped && (y.r.status == Running || y.r.status == Done)
    ensures !y.r.cancelling
  {
    hide Good, SenderSide.SenderOk, ReceiverSide.ReceiverOk, LinesOk, EmittedOk, NoneDiscarded;
    GoodIs(c, y);
    AcceptedInHistory(c, y.r, y.store, y.history, y.accepted, y.receiverStopped);
    NothingDiscarded(c, y.s, y.src, y.history);
    SoFarNone(y.history, y.accepted);
    WishedFor(c, y.r, y.store, y.history, y.accepted);
  }

  lemma NothingDiscarded(c: Setup, s: SenderState, src: SourceState, h: seq<Record>)
    requires SenderSide.SenderOk(c, s, src, h) && !s.cancelling
    ensures NoneDiscarded(h)
  {
    hide Chain, SenderSide.LinkOk, SenderSide.RunningOk, Wholes;
  }

  lemma SoFarNone(h: seq<Record>, e: nat)
    requires NoneDiscarded(h) && e <= |h|
    ensures NoneDiscarded(h[..e])
  {
    forall i | 0 <= i < e ensures !EndsDiscarded(h[..e][i]) {
      assert h[..e][i] == h[i];
    }
  }

  lemma WishedFor(c: Setup, r: ReceiverState, store: StoreState, h: seq<Record>, e: nat)
    requires ReceiverSide.ReceiverOk(c, r, store, h, e, false) && (r.status == Running || r.status == Done)
    ensures e <= |h| && (NoneDiscarded(h[..e]) ==> !r.cancelling)
  {
    hide ReceiverSide.CountsOk, ReceiverSide.AnswerTo, ReceiverSide.StateAfter, ReceiverSide.LinkAfter;
    hide ReceiverSide.Complete, NoneDiscarded, EndedBy;
  }

  lemma {:induction false} RunsOn(c: Setup, y: System, first: seq<Event>, rest: seq<Event>)
    ensures ExecFrom(c, y, first + rest) == ExecFrom(c, ExecFrom(c, y, first), rest)
    decreases |first|
  {
    hide Apply;
    if first == [] {
      assert first + rest == rest;
    } else {
      assert (first + rest)[1..] == first[1..] + rest;
      RunsOn(c, Apply(c, y, first[0]), first[1..], rest);
    }
  }

  /**
   From every reachable state in which both ends still run and the sender may
   try once more, there is a way to the end of the transfer; and if neither
   user has stopped, to both ends done and every file complete.
   */
  lemma CanBeCompleted(c: Setup, events: seq<Event>) returns (more: seq<Event>)
    requires Willing(c) && Patient(c)
    requires var y := Exec(c, events);
             y.s.status == Running && (y.r.status == Running || y.r.status == Done) && y.s.link.retries < y.s.link.limit
    ensures NobodyStops(more) && SameWishes(Exec(c, events), Exec(c, events + more))
    ensures var y := Exec(c, events); var z := Exec(c, events + more);
            && (z.s.status == Done || z.s.status == Cancelled)
            && (!y.senderStopped && !y.receiverStopped ==>
                  z.s.status == Done && z.r.status == Done && |ReceiverSide.Complete(z.store.files)| == |c.files|)
  {
    hide Exec, ExecFrom, Apply, Good, Willing, Outstanding;
    var y := Exec(c, events);
    AlwaysGood(c, events);
    var losses := Drains(c, y);
    var dry := y.(forth := [], back := []);
    ExecContinues(c, events, losses);
    AlwaysGood(c, events + losses);
    TimeOutSends(c, dry);
    var rest := Finishes(c, Apply(c, dry, TimesOut(Forth)));
    more := losses + ([TimesOut(Forth)] + rest);
    ExecContinues(c, events, more);
    RunsOn(c, y, losses, [TimesOut(Forth)] + rest);
    FirstEvent(c, dry, TimesOut(Forth), rest);
    var z := Exec(c, events + more);
    AlwaysGood(c, events + more);
    if !y.senderStopped && !y.receiverStopped {
      Theorems.DoneMeansDelivered(c, events + more);
    }
  }

  /** Both ends run from the start. */
  lemma StartRuns(c: Setup)
    requires c.sender.retries > 0
    ensures var y := Exec(c, []);
            && y.s.status == Running && y.r.status == Running && y.s.link.retries < y.s.link.limit
            && !y.senderStopped && !y.receiverStopped
  {
  }

  // ------------------------------------------------------------------
  // Done is not always delivered
  // ------------------------------------------------------------------

  /** A sender out of retries for its last packet is done, whatever its user wished. */
  lemma {:induction false} GivesUp(c: Setup, y: System) returns (events: seq<Event>)
    requires Good(c, y) && Patient(c) && y.s.status == Running && y.s.state == SendingBreak
    ensures var z := ExecFrom(c, y, events);
            Good(c, z) && z.s.status == Done && SameWishes(y, z) && z.history == y.history
    decreases y.s.link.limit - y.s.link.retries
  {
    hide Good, Again, SenderSide.SenderOk, ReceiverSide.ReceiverOk, LinesOk, EmittedOk, Setup.SenderLink, ExecFrom;
    ApplyIsGood(c, y, TimesOut(Forth));
    GoodIs(c, y);
    KindIsState(c, y.s, y.src, y.history);
    AgainAtBreak(y.s, y.src);
    var z := Apply(c, y, TimesOut(Forth));
    var rest := [];
    if z.s.status == Running {
      rest := GivesUp(c, z);
    }
    events := [TimesOut(Forth)] + rest;
    FirstEvent(c, y, TimesOut(Forth), rest);
    assert z.s.status != Running ==> ExecFrom(c, z, []) == z by { ExecNothing(c, z); }
  }

  lemma ExecNothing(c: Setup, y: System)
    ensures ExecFrom(c, y, []) == y
  {
  }

  lemma AgainAtBreak(s: SenderState, src: SourceState)
    requires s.state == SendingBreak && s.status == Running
    ensures var step := Again(s, src);
            step.s.seqno == s.seqno && step.s.link.limit == s.link.limit
            && if s.link.retries < s.link.limit then
                 step.s.status == Running && step.s.state == SendingBreak && step.s.link.retries == s.link.retries + 1
               else step.s.status == Done
  {
  }
}

/**
 Why an end stops, and what it tells the other. An error on the line is always
 what the end that sent it stopped for; heard, it stops the other end with
 those words, nothing said back, and the file then open left incomplete. And
 each end stops for exactly the reason it gives.
 */
module Reasons {
  import opened Options
  import opened Bytes
  import opened Checks
  import opened Packets
  import opened Parameters
  import opened Protocol
  import opened History
  import opened Streams
  import opened Network
  import opened Steps
  import opened Tallies
  import Attributes
  import Data
  import Text
  import SenderSide
  import ReceiverSide
  import Theorems
  import Outcomes

  // ------------------------------------------------------------------
  // What an error says
  // ------------------------------------------------------------------

  /** An error is what this link says of this status. */
  ghost predicate Explains(f: Frame, link: LinkState, seqno: byte, status: Status) {
    (status.Failed? || status.Cancelled?) && f == link.ErrorFrame(seqno, Says(status))
  }

  ghost predicate SenderSays(step: SenderStep) {
    forall f | f in step.out && f.packet.kind == Error :: Explains(f, step.s.link, step.s.seqno, step.s.status)
  }

  lemma FailSays(s: SenderState, src: SourceState, reason: Reason)
    ensures SenderSays(SenderFail(s, src, reason))
  {
    hide Wording, Data.Encode;
  }

  lemma PacketSays(s: SenderState, src: SourceState, kind: Kind, data: seq<byte>)
    requires kind != Error
    ensures SenderSays(PacketStep(s, src, kind, data))
  {
  }

  lemma NextFileSays(s: SenderState, src: SourceState)
    ensures SenderSays(NextFile(s, src))
  {
    hide SenderSays, SenderFail, PacketStep, Data.Encode;
    var src' := src.(ops := src.ops + 1);
    if src.ops in src.faults {
      FailSays(s, src', SourceFailed(src.faults[src.ops]));
    } else if src.at >= |src.files| {
      PacketSays(s.(state := SendingBreak), src', Break, []);
    } else {
      var f := src.files[src.at];
      PacketSays(s.(progress := Progress(Some(f.name), 0, s.progress.files, f.size),
                    mode := if f.mode.Some? then f.mode.value else s.settings.mode, state := SendingFile),
                 src'.(at := src.at + 1, pos := 0), File, Data.Encode(f.name, s.link.SendsWith().Quoting(), s.link.Room()).out);
    }
  }

  lemma SendDataSays(s: SenderState, src: SourceState)
    ensures SenderSays(SendData(s, src))
  {
    hide SenderSays, SenderFail, PacketStep, Data.Encode, Fill, DataRoom, Grown;
    var room := DataRoom(s);
    var f := Fill(s.(size := Grown(s)), src, room);
    var e := Data.Encode(f.s.pending, f.s.link.SendsWith().Quoting(), room);
    FailSays(f.s, f.src, if f.fault.Some? then SourceFailed(f.fault.value) else TooShort);
    PacketSays(f.s.(state := SendingEnd), f.src, EndOfFile, []);
    PacketSays(f.s.(pending := f.s.pending[e.used..], inFlight := |e.out|), f.src, Kind.Data, e.out);
  }

  lemma StopSays(s: SenderState, src: SourceState, status: Status)
    ensures SenderSays(SenderStop(s, src, status, []))
  {
  }

  lemma AcknowledgedSays(s: SenderState, src: SourceState, data: seq<byte>)
    ensures SenderSays(Acknowledged(s, src, data))
  {
    hide SenderSays, SendData, NextFile, PacketStep, SenderStop, Attributes.Built, ReadBlock, LinkState.Agree;
    var m := SenderSide.Moved(s);
    match s.state {
      case SendingInit => NextFileSays(m.(link := m.link.Agree(ReadBlock(data))), src);
      case SendingFile =>
        var m1 := m.(pending := [], afterCr := false, eof := false, discarding := false);
        SendDataSays(m1.(state := SendingData), src);
        PacketSays(m1.(state := SendingAttributes), src, Kind.Attributes, Attributes.Built(Said(m1)));
      case SendingAttributes =>
        DiscardSays(m, src);
        SendDataSays(m.(state := SendingData), src);
      case SendingData =>
        var m1 := m.(cancelling := s.cancelling || (data != [] && data[0] == 90));
        DiscardSays(m1, src);
        SendDataSays(m1, src);
      case SendingEnd =>
        var m1 := m.(progress := s.progress.(files := s.progress.files + if s.discarding then 0 else 1));
        PacketSays(m1.(state := SendingBreak), src, Break, []);
        NextFileSays(m1, src);
      case SendingBreak => StopSays(m, src, if s.cancelling then Cancelled else Done);
      case Finished => NothingSays(m, src);
    }
  }

  lemma DiscardSays(s: SenderState, src: SourceState)
    ensures SenderSays(Discard(s, src))
  {
    hide SenderSays, PacketStep;
    PacketSays(s.(state := SendingEnd, discarding := true), src, EndOfFile, [68]);
  }

  lemma NothingSays(s: SenderState, src: SourceState)
    ensures SenderSays(SenderStep(s, src, []))
  {
  }

  /** What is kept to be sent again is never an error. */
  predicate KeepsNoError(s: SenderState) { forall f | f in s.link.last :: f.packet.kind != Error }

  lemma AgainSays(s: SenderState, src: SourceState)
    requires KeepsNoError(s)
    ensures SenderSays(Again(s, src))
  {
    hide SenderFail, SenderStop, Explains;
    var backed := Backed(s);
    var s' := backed.(link := backed.link.Retry());
    FailSays(s', src, NoAnswer);
    StopSays(s', src, Done);
  }

  lemma ToldSays(s: SenderState, src: SourceState, a: Arrival)
    requires KeepsNoError(s)
    ensures SenderSays(SenderTold(s, src, a))
  {
    hide SenderSays, SenderFail, SenderStop, Again, Acknowledged, Data.Decode, KeepsNoError;
    NothingSays(s, src);
    if a.Arrived? {
      var p := a.packet;
      StopSays(s, src, Failed(FarEnd(Data.Decode(p.data, s.link.ReadsWith().Quoting()))));
      AcknowledgedSays(s, src, p.data);
      AcknowledgedSays(s, src, []);
      FailSays(s, src, BothSending);
      AgainSays(s, src);
    }
  }

  lemma OwnSays(s: SenderState, src: SourceState)
    requires KeepsNoError(s)
    ensures SenderSays(SenderTick(s, src)) && SenderSays(SenderCancel(s, src))
  {
    hide SenderSays, SenderStop, Again, KeepsNoError, LinkState.ErrorFrame;
    NothingSays(s, src);
    NothingSays(s.(cancelling := true), src);
    AgainSays(s, src);
    CancelSays(s, src);
  }

  lemma CancelSays(s: SenderState, src: SourceState)
    ensures SenderSays(SenderStop(s, src, Cancelled, [s.link.ErrorFrame(s.seqno, CANCELLED_WORDING)]))
  {
    hide Data.Encode;
  }

  // ------------------------------------------------------------------
  // Errors on the line
  // ------------------------------------------------------------------

  /** Every error on the line says what the end that sent it stopped for. */
  ghost predicate ErrorsExplain(y: System) {
    && (forall m | m in y.forth && m.Whole? && m.frame.packet.kind == Error ::
          Explains(m.frame, y.s.link, y.s.seqno, y.s.status))
    && (forall m | m in y.back && m.Whole? && m.frame.packet.kind == Error ::
          Explains(m.frame, y.r.link, y.r.expected, y.r.status))
  }

  lemma SenderStepExplains(y: System, step: SenderStep)
    requires ErrorsExplain(y) && SenderSays(step) && (y.s.status != Running ==> step.s == y.s)
    ensures ErrorsExplain(AfterSender(y, step))
  {
    hide Explains, SenderSide.Extended;
    var z := AfterSender(y, step);
    if y.s.status == Running {
      assert forall m | m in y.forth && m.Whole? :: m.frame.packet.kind != Error by { RunningSaysNothing(y); }
    }
  }

  lemma RunningSaysNothing(y: System)
    requires ErrorsExplain(y)
    ensures y.s.status == Running ==> forall m | m in y.forth && m.Whole? :: m.frame.packet.kind != Error
    ensures y.r.status == Running ==> forall m | m in y.back && m.Whole? :: m.frame.packet.kind != Error
  {
  }

  lemma ReceiverStepExplains(y: System, step: ReceiverStep)
    requires ErrorsExplain(y) && SaysWhy(step) && (y.r.status != Running ==> step.r == y.r)
    ensures ErrorsExplain(AfterReceiver(y, step))
  {
    var z := AfterReceiver(y, step);
    assert y.r.status != Running || forall m | m in y.back && m.Whole? :: m.frame.packet.kind != Error by { RunningSaysNothing(y); }
    hide Says, LinkState.ErrorFrame;
  }

  /** A line that only loses, repeats, spoils or adds noise says nothing new. */
  lemma LineExplains(y: System, way: Way, ms: seq<Message>)
    requires ErrorsExplain(y) && forall m | m in ms :: m in OnLine(y, way) || m == Noise
    ensures ErrorsExplain(WithLine(y, way, ms))
  {
    hide Explains;
  }

  lemma KeptIsNoError(c: Setup, y: System)
    requires Good(c, y) && y.s.status == Running
    ensures KeepsNoError(y.s)
  {
    hide Good, SenderSide.SenderOk, ReceiverSide.ReceiverOk, LinesOk, EmittedOk;
    GoodIs(c, y);
    SenderKnows(c, y.s, y.src, y.history);
  }

  lemma SenderEventSays(c: Setup, y: System, a: Arrival)
    requires Good(c, y)
    ensures SenderSays(SenderTold(y.s, y.src, a)) && SenderSays(SenderTick(y.s, y.src)) && SenderSays(SenderCancel(y.s, y.src))
    ensures y.s.status != Running ==>
              SenderTold(y.s, y.src, a).s == SenderTick(y.s, y.src).s == SenderCancel(y.s, y.src).s == y.s
  {
    hide Good, SenderSays, KeepsNoError, SenderTold, SenderTick, SenderCancel;
    if y.s.status == Running {
      KeptIsNoError(c, y);
      ToldSays(y.s, y.src, a);
      OwnSays(y.s, y.src);
    } else {
      Theorems.StoppedSender(y.s, y.src, a);
      NothingSays(y.s, y.src);
    }
  }

  lemma ReceiverEventSays(c: Setup, y: System, a: Arrival)
    requires Good(c, y)
    ensures SaysWhy(ReceiverTold(y.r, y.store, a)) && SaysWhy(ReceiverTick(y.r, y.store)) && SaysWhy(ReceiverCancel(y.r, y.store))
    ensures y.r.status != Running ==>
              ReceiverTold(y.r, y.store, a).r == ReceiverTick(y.r, y.store).r == ReceiverCancel(y.r, y.store).r == y.r
  {
    hide Good, ReceiverTick, ReceiverCancel, ReceiverHandle, SaysWhy, KeepsAnswers;
    hide SenderSide.SenderOk, ReceiverSide.ReceiverOk, LinesOk, EmittedOk;
    GoodIs(c, y);
    AcceptedInHistory(c, y.r, y.store, y.history, y.accepted, y.receiverStopped);
    KeepsAnswersNow(c, y.r, y.store, y.history, y.accepted, y.receiverStopped);
    OwnTallies(y.r, y.store);
    AnswersSay(y.r, y.store);
    if a.Arrived? {
      HandlingTallies(y.r, y.store, a.packet);
    }
    Theorems.StoppedTold(y.r, y.store, a);
  }

  lemma KeepsAnswersNow(c: Setup, r: ReceiverState, store: StoreState, h: seq<Record>, e: nat, stopped: bool)
    requires ReceiverSide.ReceiverOk(c, r, store, h, e, stopped)
    ensures KeepsAnswers(r)
  {
    hide ReceiverSide.CountsOk, ReceiverSide.WishOk, ReceiverSide.StateAfter, LinkState.Agree, MadeBy, Block;
  }

  /** Answers, naks and silence say nothing of stopping. */
  lemma AnswersSay(r: ReceiverState, store: StoreState)
    requires KeepsAnswers(r)
    ensures SaysWhy(ReceiverStep(r, store, [])) && SaysWhy(ReceiverStep(r, store, r.link.last))
    ensures SaysWhy(ReceiverStep(r, store, [NakFrame(r)]))
  {
  }

  lemma EventExplains(c: Setup, y: System, ev: Event)
    requires Good(c, y) && ErrorsExplain(y)
    ensures ErrorsExplain(Apply(c, y, ev))
  {
    hide Good, ErrorsExplain, SenderSays, SaysWhy, MayDeliver, HeardAs, ReceiverTold, SenderTold, ChecksNow;
    hide ReceiverTick, SenderTick, ReceiverCancel, SenderCancel, AfterSender, AfterReceiver;
    match ev {
      case Delivered(way, at, misread) =>
        if MayDeliver(c, y, way, at) {
          DeliverableAt(c, y, way, at);
          LineExplains(y, way, Without(OnLine(y, way), at));
          var m := OnLine(y, way)[at];
          if way.Forth? {
            var a := HeardAs(m, ChecksNow(y.r), misread);
            ReceiverEventSays(c, y, a);
            ReceiverStepExplains(WithLine(y, Forth, Without(y.forth, at)), ReceiverTold(y.r, y.store, a));
          } else {
            var a := HeardAs(m, [y.s.link.CheckUsed()], misread);
            SenderEventSays(c, y, a);
            SenderStepExplains(WithLine(y, Back, Without(y.back, at)), SenderTold(y.s, y.src, a));
          }
        }
      case TimesOut(Forth) =>
        SenderEventSays(c, y, Nothing);
        SenderStepExplains(y, SenderTick(y.s, y.src));
      case TimesOut(Back) =>
        ReceiverEventSays(c, y, Nothing);
        ReceiverStepExplains(y, ReceiverTick(y.r, y.store));
      case UserStops(Forth) =>
        SenderEventSays(c, y, Nothing);
        AskedExplains(y);
        SenderStepExplains(y.(senderStopped := true), SenderCancel(y.s, y.src));
      case UserStops(Back) =>
        ReceiverEventSays(c, y, Nothing);
        AskedExplains(y);
        ReceiverStepExplains(y.(receiverStopped := true), ReceiverCancel(y.r, y.store));
      case _ => LineEventExplains(c, y, ev);
    }
  }

  lemma AskedExplains(y: System)
    requires ErrorsExplain(y)
    ensures ErrorsExplain(y.(senderStopped := true)) && ErrorsExplain(y.(receiverStopped := true))
  {
    hide Explains;
  }

  lemma DeliverableAt(c: Setup, y: System, way: Way, at: nat)
    requires MayDeliver(c, y, way, at)
    ensures at < |OnLine(y, way)| && forall m | m in Without(OnLine(y, way), at) :: m in OnLine(y, way)
  {
  }

  lemma LineEventExplains(c: Setup, y: System, ev: Event)
    requires ErrorsExplain(y) && (ev.Lost? || ev.Repeated? || ev.Spoiled? || ev.Hiss?)
    ensures ErrorsExplain(Apply(c, y, ev))
  {
    hide ErrorsExplain;
    var ms := OnLine(y, ev.way);
    if ev.at < |ms| {
      LineExplains(y, ev.way, Without(ms, ev.at));
      LineExplains(y, ev.way, ms[..ev.at] + [ms[ev.at]] + ms[ev.at..]);
      LineExplains(y, ev.way, ms[ev.at := Noise]);
    }
    if ev.at <= |ms| {
      LineExplains(y, ev.way, ms[..ev.at] + [Noise] + ms[ev.at..]);
    }
  }

  /** In every run, whoever sent an error has stopped, and for what it says. */
  lemma {:induction false} ErrorsAlwaysExplain(c: Setup, events: seq<Event>)
    ensures ErrorsExplain(Exec(c, events))
    decreases |events|
  {
    hide Apply, Good, ErrorsExplain;
    if events == [] {
      StartExplains(c);
    } else {
      var before := events[..|events| - 1];
      ErrorsAlwaysExplain(c, before);
      AlwaysGood(c, before);
      EventExplains(c, Exec(c, before), events[|events| - 1]);
    }
  }

  lemma StartExplains(c: Setup)
    ensures ErrorsExplain(Start(c))
  {
    hide Block, Explains;
  }

  // ------------------------------------------------------------------
  // An error heard
  // ------------------------------------------------------------------

  /** As much of what an end says as one packet holds. */
  function Cut(link: LinkState, wording: seq<byte>): seq<byte> {
    wording[..Data.Encode(wording, link.SendsWith().Quoting(), link.Room()).used]
  }

  /** What an end makes of the words in a packet. */
  function Understood(link: LinkState, data: seq<byte>): seq<byte> {
    Data.Decode(data, link.ReadsWith().Quoting())
  }

  /** What one end writes as the other reads it is understood, and all of it where there is room. */
  lemma WordsCross(from: LinkState, into: LinkState, seqno: byte, wording: seq<byte>)
    requires from.SendsWith().Quoting() == into.ReadsWith().Quoting() && Data.Admissible(from.SendsWith().Quoting())
    ensures Understood(into, from.ErrorFrame(seqno, wording).packet.data) == Cut(from, wording)
    ensures 3 * |wording| <= from.Room() ==> Cut(from, wording) == wording
  {
    hide Data.Encode, Data.Decode, Data.Admissible;
    Data.DecodeUndoesEncode(wording, from.SendsWith().Quoting(), from.Room());
    if 3 * |wording| <= from.Room() {
      Data.EnoughRoom(wording, from.SendsWith().Quoting(), from.Room());
    }
  }

  /** The file then open, left as it is. */
  function LeftBehind(store: StoreState): seq<StoredFile> {
    if store.open.None? then []
    else [StoredFile(store.open.value.name, store.open.value.content, false)]
  }

  /** An error takes a running receiver to its end: nothing is said back, and an open file is left incomplete. */
  lemma ErrorStopsReceiver(r: ReceiverState, store: StoreState, p: Packet)
    requires p.kind == Error && r.status == Running && r.open == store.open.Some?
    ensures var step := ReceiverTold(r, store, Arrived(p));
            && step.r.status == Failed(FarEnd(Understood(r.link, p.data))) && step.out == []
            && step.r.progress == r.progress && step.r.expected == r.expected
            && step.store.open == None && step.store.files == store.files + LeftBehind(store)
  {
    hide Data.Decode;
  }

  lemma ErrorStopsSender(s: SenderState, src: SourceState, p: Packet)
    requires p.kind == Error && s.status == Running
    ensures var step := SenderTold(s, src, Arrived(p));
            && step.s.status == Failed(FarEnd(Understood(s.link, p.data))) && step.out == []
            && step.s.progress == s.progress && step.s.seqno == s.seqno && step.src == src
  {
    hide Data.Decode;
  }

  /** Stopping, and trying again, leave what has been agreed. */
  lemma StopsAgreed(s: SenderState, src: SourceState, status: Status, out: seq<Frame>, reason: Reason)
    ensures SenderStop(s, src, status, out).s.link.agreed == SenderFail(s, src, reason).s.link.agreed == s.link.agreed
  {
    hide LinkState.ErrorFrame, Wording;
  }

  lemma AgainAgreed(s: SenderState, src: SourceState)
    ensures Again(s, src).s.link.agreed == s.link.agreed
  {
    hide SenderStop, SenderFail;
    var backed := Backed(s);
    var s' := backed.(link := backed.link.Retry());
    StopsAgreed(s', src, Done, [], NoAnswer);
  }

  lemma OwnAgreed(s: SenderState, src: SourceState)
    ensures SenderTick(s, src).s.link.agreed == SenderCancel(s, src).s.link.agreed == s.link.agreed
  {
    hide SenderStop, Again, LinkState.ErrorFrame;
    AgainAgreed(s, src);
    StopsAgreed(s, src, Cancelled, [s.link.ErrorFrame(s.seqno, CANCELLED_WORDING)], NoAnswer);
  }

  /** Only an acknowledgement tells a sender the far end's parameters. */
  lemma AgreedByAck(s: SenderState, src: SourceState, a: Arrival)
    requires s.state == SendingInit && !(a.Arrived? && a.packet.kind == Ack)
    ensures SenderTold(s, src, a).s.link.agreed == s.link.agreed
  {
    hide SenderStop, SenderFail, Again, Acknowledged;
    AgainAgreed(s, src);
    if a.Arrived? {
      StopsAgreed(s, src, Failed(FarEnd(Data.Decode(a.packet.data, s.link.ReadsWith().Quoting()))), [], BothSending);
    }
  }

  /** A sender knows the far end's parameters only from an answer to its first packet. */
  predicate AgreedIsAnswered(y: System) { y.s.link.agreed.Some? ==> y.accepted > 0 }

  lemma EventAnswers(c: Setup, y: System, ev: Event)
    requires Good(c, y) && AgreedIsAnswered(y)
    ensures AgreedIsAnswered(Apply(c, y, ev))
  {
    hide Good, HeardAs, MayDeliver, ReceiverTold, SenderTold, ReceiverTick, SenderTick, ReceiverCancel, SenderCancel;
    hide Labelled, AnswersLabelled, SenderSide.Extended, ChecksNow, LinkState.CheckUsed;
    Outcomes.HistoryGrows(c, y, ev);
    OwnAgreed(y.s, y.src);
    match ev {
      case Delivered(Back, at, misread) =>
        if MayDeliver(c, y, Back, at) && y.s.link.agreed.None? && y.accepted == 0 {
          NothingAcknowledged(c, y, at, misread);
        }
      case _ =>
    }
  }

  /** Until the first packet is accepted, no acknowledgement is about. */
  lemma NothingAcknowledged(c: Setup, y: System, at: nat, misread: Arrival)
    requires Good(c, y) && MayDeliver(c, y, Back, at) && y.s.link.agreed.None? && y.accepted == 0
    ensures SenderTold(y.s, y.src, HeardAs(y.back[at], [y.s.link.CheckUsed()], misread)).s.link.agreed == y.s.link.agreed
  {
    hide Good, HeardAs, SenderTold, SenderSide.SenderOk, ReceiverSide.ReceiverOk, BackOk, EmittedOk;
    GoodIs(c, y);
    DeliverableAt(c, y, Back, at);
    var m := y.back[at];
    var a := HeardAs(m, [y.s.link.CheckUsed()], misread);
    if y.s.status != Running {
      Theorems.StoppedSender(y.s, y.src, a);
    } else {
      assert m in y.back;
      if a != Damage {
        HeardIsWhole(m, [y.s.link.CheckUsed()], misread);
        if a.packet.kind == Ack {
          BackNumbers(c, m, y.accepted, y.receiverStopped);
        }
      }
      UnagreedIsFirst(c, y.s, y.src, y.history);
      AgreedByAck(y.s, y.src, a);
    }
  }

  lemma UnagreedIsFirst(c: Setup, s: SenderState, src: SourceState, h: seq<Record>)
    requires SenderSide.SenderOk(c, s, src, h) && s.link.agreed.None?
    ensures |h| == 1 && (s.status == Running ==> s.state == SendingInit)
  {
    hide Chain, SenderSide.FileOk, NoneDiscarded, Wholes, SenderSide.SizesOk, SenderSide.SourceOk, NewLink;
    AgreeingKeepsLimit(c);
  }

  lemma {:induction false} AgreedIsAlwaysAnswered(c: Setup, events: seq<Event>)
    ensures AgreedIsAnswered(Exec(c, events))
    decreases |events|
  {
    hide Apply, Good;
    if events == [] {
      NothingAgreed(c);
    } else {
      var before := events[..|events| - 1];
      AgreedIsAlwaysAnswered(c, before);
      AlwaysGood(c, before);
      EventAnswers(c, Exec(c, before), events[|events| - 1]);
    }
  }

  lemma NothingAgreed(c: Setup)
    ensures AgreedIsAnswered(Start(c))
  {
    hide Block;
  }

  predicate IsError(m: Message) { m.Whole? && m.frame.packet.kind == Error }

  /** Both ends have heard the other's parameters, or neither has. */
  predicate Level(y: System) { y.s.link.agreed.Some? <==> y.accepted > 0 }

  /** What the two links are, as far as what crosses them goes. */
  lemma LinksCross(c: Setup, y: System)
    requires Good(c, y) && Level(y)
    ensures y.s.link.CheckUsed() == y.r.link.CheckUsed()
    ensures c.PrefixesMatch() ==> y.s.link.SendsWith().Quoting() == y.r.link.ReadsWith().Quoting()
                                  && y.r.link.SendsWith().Quoting() == y.s.link.ReadsWith().Quoting()
    ensures Data.Admissible(c.Quoting()) ==> Data.Admissible(y.s.link.SendsWith().Quoting())
    ensures Data.Admissible(c.ReceiverLink().SendsWith().Quoting()) ==> Data.Admissible(y.r.link.SendsWith().Quoting())
  {
    hide Good, SenderSide.SenderOk, ReceiverSide.ReceiverOk, LinesOk, EmittedOk, Setup.SenderLink, Setup.ReceiverLink;
    hide Setup.PrefixesMatch, NewLink;
    GoodIs(c, y);
    SenderLinkIs(c, y.s, y.src, y.history);
    ReceiverLinkIs(c, y.r, y.store, y.history, y.accepted, y.receiverStopped);
    LinksMirror(c);
    LinksMirrorBack(c);
    AgreeingKeepsLimit(c);
    assert Data.Admissible(DEFAULT.Quoting());
  }

  lemma LinksMirrorBack(c: Setup)
    ensures c.PrefixesMatch() ==> c.SenderLink().ReadsWith().Quoting() == c.ReceiverLink().SendsWith().Quoting()
  {
    hide Block, ReadBlock, Long, OffersAttributes, Settle;
    NegotiationMirrors(c.sender.params, c.receiver.params);
  }

  lemma SenderLinkIs(c: Setup, s: SenderState, src: SourceState, h: seq<Record>)
    requires SenderSide.SenderOk(c, s, src, h)
    ensures s.link.agreed == if s.link.agreed.None? then None else c.SenderLink().agreed
  {
    hide Chain, SenderSide.FileOk, NoneDiscarded, Wholes, SenderSide.SizesOk, SenderSide.SourceOk, Setup.SenderLink;
  }

  lemma ReceiverLinkIs(c: Setup, r: ReceiverState, store: StoreState, h: seq<Record>, e: nat, stopped: bool)
    requires ReceiverSide.ReceiverOk(c, r, store, h, e, stopped)
    ensures r.link.agreed == if e == 0 then None else c.ReceiverLink().agreed
    ensures r.open == store.open.Some?
  {
    hide ReceiverSide.CountsOk, ReceiverSide.WishOk, ReceiverSide.AnswerTo, ReceiverSide.StateAfter, Setup.ReceiverLink;
  }

  /** A running receiver reads the check any error sent it was built with, whatever each end has heard. */
  lemma ErrorCheckIsRead(c: Setup, y: System, m: Message)
    requires Good(c, y) && ErrorsExplain(y) && AgreedIsAnswered(y) && m in y.forth && IsError(m)
    requires y.r.status == Running
    ensures m.frame.check in ChecksNow(y.r) && (Level(y) ==> m.frame.check == ChecksNow(y.r)[0])
  {
    hide Good, SenderSide.SenderOk, ReceiverSide.ReceiverOk, LinesOk, EmittedOk, Says, Setup.SenderLink, Setup.ReceiverLink;
    hide Data.Encode;
    GoodIs(c, y);
    assert m.frame.check == y.s.link.CheckUsed();
    if Level(y) {
      LinksCross(c, y);
    } else {
      UnagreedIsFirst(c, y.s, y.src, y.history);
      HistoryIsNotEmpty(c, y.s, y.src, y.history);
      FirstIsAnswered(c, y.r, y.store, y.history, y.receiverStopped);
    }
  }

  /** A receiver that has taken the first packet alone reads with both checks. */
  lemma FirstIsAnswered(c: Setup, r: ReceiverState, store: StoreState, h: seq<Record>, stopped: bool)
    requires ReceiverSide.ReceiverOk(c, r, store, h, 1, stopped) && Chain(c, h) && r.status == Running
    ensures One in ChecksNow(r)
  {
    hide ReceiverSide.CountsOk, ReceiverSide.WishOk, ReceiverSide.AnswerTo, Setup.ReceiverLink;
    BeginsIsInit(c, h[0]);
  }

  /**
   Any error that reaches a running receiver, on any line and however it is
   misread, is heard, and is its end: it says nothing back, and the file then
   open is the last of those it has, with what had come of it and incomplete.
   Heard as it was sent, it stops the receiver with the words in it; and when
   both ends have heard the other's parameters, or neither has, those are what
   the sender stopped for, as far as one packet holds them.
   */
  lemma ReceiverHearsError(c: Setup, events: seq<Event>, at: nat, misread: Arrival)
    requires var y := Exec(c, events); MayDeliver(c, y, Forth, at) && y.r.status == Running && IsError(y.forth[at])
    ensures var y := Exec(c, events); var z := Apply(c, y, Delivered(Forth, at, misread)); var f := y.forth[at].frame;
            && (y.s.status.Failed? || y.s.status.Cancelled?)
            && z.r.status.Failed? && z.r.status.reason.FarEnd?
            && z.back == y.back && z.s == y.s && z.accepted == y.accepted && z.r.progress == y.r.progress
            && z.store.open == None && z.store.files == y.store.files + LeftBehind(y.store)
            && (HeardAs(y.forth[at], ChecksNow(y.r), misread) == Arrived(f.packet) ==>
                  z.r.status == Failed(FarEnd(Understood(y.r.link, f.packet.data))))
            && (Level(y) && c.PrefixesMatch() && Data.Admissible(c.Quoting()) ==>
                  z.r.status == Failed(FarEnd(Cut(y.s.link, Says(y.s.status)))))
  {
    hide Exec, Good, MayDeliver, ErrorsExplain, Understood, Cut, Data.Admissible, Setup.PrefixesMatch, ChecksNow, Level;
    hide HeardAs, AgreedIsAnswered, Says, AfterReceiver, LeftBehind, ReceiverTold;
    var y := Exec(c, events);
    AlwaysGood(c, events);
    ErrorsAlwaysExplain(c, events);
    AgreedIsAlwaysAnswered(c, events);
    DeliverableAt(c, y, Forth, at);
    ErrorIsReceived(c, y, y.forth[at], misread);
    QuietReceiver(WithLine(y, Forth, Without(y.forth, at)), ReceiverTold(y.r, y.store, HeardAs(y.forth[at], ChecksNow(y.r), misread)));
  }

  /** What a receiver does that has heard an error. */
  lemma ErrorIsReceived(c: Setup, y: System, m: Message, misread: Arrival)
    requires Good(c, y) && ErrorsExplain(y) && AgreedIsAnswered(y) && y.r.status == Running && m in y.forth && IsError(m)
    ensures var a := HeardAs(m, ChecksNow(y.r), misread); var step := ReceiverTold(y.r, y.store, a);
            && (y.s.status.Failed? || y.s.status.Cancelled?) && a.Arrived?
            && step.r.status == Failed(FarEnd(Understood(y.r.link, a.packet.data)))
            && step.out == [] && step.r.expected == y.r.expected && step.r.progress == y.r.progress
            && step.store.open == None && step.store.files == y.store.files + LeftBehind(y.store)
            && (Level(y) && c.PrefixesMatch() && Data.Admissible(c.Quoting()) ==>
                  step.r.status == Failed(FarEnd(Cut(y.s.link, Says(y.s.status)))))
  {
    hide Good, SenderSide.SenderOk, ReceiverSide.ReceiverOk, LinesOk, EmittedOk, ReceiverTold, AgreedIsAnswered, HeardAs;
    hide LinkState.ErrorFrame, Says, Understood, Cut, Data.Admissible, Setup.PrefixesMatch, ChecksNow, Level, LinkState.CheckUsed;
    GoodIs(c, y);
    ErrorCheckIsRead(c, y, m);
    ReceiverLinkIs(c, y.r, y.store, y.history, y.accepted, y.receiverStopped);
    ReadIsHeard(m, ChecksNow(y.r), misread);
    ErrorStopsReceiver(y.r, y.store, HeardAs(m, ChecksNow(y.r), misread).packet);
    if Level(y) && c.PrefixesMatch() && Data.Admissible(c.Quoting()) {
      LinksCross(c, y);
      WordsCross(y.s.link, y.r.link, y.s.seqno, Says(y.s.status));
    }
  }

  /** A step that says nothing leaves the line, and one that keeps its number what has been accepted. */
  lemma QuietReceiver(y: System, step: ReceiverStep)
    requires step.out == [] && step.r.expected == y.r.expected
    ensures AfterReceiver(y, step) == y.(r := step.r, store := step.store)
  {
    NothingSaidBack(y.back, y.accepted);
  }

  lemma QuietSender(y: System, step: SenderStep)
    requires step.out == [] && step.s.seqno == y.s.seqno
    ensures AfterSender(y, step) == y.(s := step.s, src := step.src)
  {
    NothingSaidBack(y.forth, Max(|y.history| - 1, 0));
  }

  lemma NothingSaidBack(ms: seq<Message>, n: nat)
    ensures ms + AnswersLabelled([], n) == ms && ms + Labelled([], n) == ms
  {
  }

  /** A frame with a check that is read is heard, and as itself when that is the first check tried. */
  lemma ReadIsHeard(m: Message, checks: seq<Check>, misread: Arrival)
    requires 1 <= |checks| <= 2 && m.Whole? && m.frame.check in checks
    ensures var a := HeardAs(m, checks, misread);
            && a.Arrived? && a.packet.kind == m.frame.packet.kind
            && (m.frame.check == checks[0] ==> a.packet == m.frame.packet)
  {
  }

  /**
   And the other way: an error that reaches a running sender either is not read
   and does nothing, or is the end of it, nothing said back and nothing more
   read. It is read when the sender reads its check, as it does when both ends
   have heard the other's parameters or neither has, and then stops the sender
   with what the receiver stopped for.
   */
  lemma SenderHearsError(c: Setup, events: seq<Event>, at: nat, misread: Arrival)
    requires var y := Exec(c, events); MayDeliver(c, y, Back, at) && y.s.status == Running && IsError(y.back[at])
    ensures var y := Exec(c, events); var z := Apply(c, y, Delivered(Back, at, misread)); var f := y.back[at].frame;
            && (y.r.status.Failed? || y.r.status.Cancelled?)
            && (Level(y) ==> f.check == y.s.link.CheckUsed())
            && z.forth == y.forth && z.r == y.r && z.store == y.store && z.src == y.src && z.history == y.history
            && (z.s == y.s || (z.s.status.Failed? && z.s.status.reason.FarEnd?)) && z.s.progress == y.s.progress
            && (f.check == y.s.link.CheckUsed() ==>
                  z.s.status == Failed(FarEnd(Understood(y.s.link, f.packet.data))))
            && (Level(y) && c.PrefixesMatch() && Data.Admissible(c.ReceiverLink().SendsWith().Quoting()) ==>
                  z.s.status == Failed(FarEnd(Cut(y.r.link, Says(y.r.status)))))
  {
    hide Exec, Good, MayDeliver, ErrorsExplain, Understood, Cut, Data.Admissible, Setup.PrefixesMatch, Level;
    hide HeardAs, Says, AfterSender, SenderTold, LinkState.CheckUsed, Setup.ReceiverLink;
    var y := Exec(c, events);
    AlwaysGood(c, events);
    ErrorsAlwaysExplain(c, events);
    DeliverableAt(c, y, Back, at);
    ErrorComesBack(c, y, y.back[at], misread);
    QuietSender(WithLine(y, Back, Without(y.back, at)), SenderTold(y.s, y.src, HeardAs(y.back[at], [y.s.link.CheckUsed()], misread)));
  }

  lemma ErrorComesBack(c: Setup, y: System, m: Message, misread: Arrival)
    requires Good(c, y) && ErrorsExplain(y) && y.s.status == Running && m in y.back && IsError(m)
    ensures var a := HeardAs(m, [y.s.link.CheckUsed()], misread); var step := SenderTold(y.s, y.src, a);
            && (y.r.status.Failed? || y.r.status.Cancelled?)
            && step.out == [] && step.s.seqno == y.s.seqno && step.src == y.src && step.s.progress == y.s.progress
            && (step.s == y.s || (step.s.status.Failed? && step.s.status.reason.FarEnd?))
            && (m.frame.check == y.s.link.CheckUsed() ==>
                  step.s.status == Failed(FarEnd(Understood(y.s.link, m.frame.packet.data))))
            && (Level(y) ==> m.frame.check == y.s.link.CheckUsed())
            && (Level(y) && c.PrefixesMatch() && Data.Admissible(c.ReceiverLink().SendsWith().Quoting()) ==>
                  step.s.status == Failed(FarEnd(Cut(y.r.link, Says(y.r.status)))))
  {
    hide Good, SenderTold, HeardAs, LinkState.ErrorFrame, Says, Understood, Cut, Data.Admissible, Setup.PrefixesMatch;
    hide Level, LinkState.CheckUsed, Setup.ReceiverLink;
    ErrorIsBuilt(y.r.link, y.r.expected, Says(y.r.status));
    var a := HeardAs(m, [y.s.link.CheckUsed()], misread);
    if a == Damage {
      DamageIsNothing(y.s, y.src);
    } else {
      HeardIsWhole(m, [y.s.link.CheckUsed()], misread);
      ErrorStopsSender(y.s, y.src, a.packet);
    }
    if m.frame.check == y.s.link.CheckUsed() {
      ReadIsHeard(m, [y.s.link.CheckUsed()], misread);
    }
    if Level(y) {
      LinksCross(c, y);
      if c.PrefixesMatch() && Data.Admissible(c.ReceiverLink().SendsWith().Quoting()) {
        WordsCross(y.r.link, y.s.link, y.r.expected, Says(y.r.status));
      }
    }
  }

  /** An error has its sender's number, and all that any packet of that link has around it. */
  lemma ErrorIsBuilt(link: LinkState, seqno: byte, wording: seq<byte>)
    ensures var f := link.ErrorFrame(seqno, wording);
            && f.packet.kind == Error && f.packet.sequence == seqno && |f.packet.data| <= link.Room()
            && f.check == link.CheckUsed() && MadeBy(link, f)
  {
    hide Data.Encode;
  }

  lemma DamageIsNothing(s: SenderState, src: SourceState)
    ensures SenderTold(s, src, Damage) == SenderStep(s, src, [])
  {
  }
}

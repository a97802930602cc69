/**
 What is said to what: the answer each packet is given, what is asked again and
 when, what becomes of a user's wish to stop, and what an end makes of one that
 is not the other half of its transfer.
 */
module Answers {
  import opened Options
  import opened Bytes
  import opened Checks
  import opened Packets
  import opened Parameters
  import opened Protocol
  import opened Streams
  import opened History
  import opened Network
  import opened Steps
  import Attributes
  import Data
  import Text
  import SenderSide
  import ReceiverSide
  import Theorems
  import Outcomes
  import Reasons
  import Endings

  // ------------------------------------------------------------------
  // The answer to each packet
  // ------------------------------------------------------------------

  /** What an acknowledgement of this kind of packet says: this end's parameters, `Y`, a wish to stop, or nothing. */
  function AnswerFor(kind: Kind, ours: Params, stopping: bool): seq<byte> {
    match kind
    case SendInit => Block(ours)
    case Attributes => Ascii("Y")
    case Data => if stopping then Ascii("Z") else []
    case _ => []
  }

  /** The answer a step gives, when it takes the receiver further. */
  ghost predicate Answering(step: ReceiverStep, r: ReceiverState, p: Packet) {
    step.r.expected != r.expected ==>
      |step.out| == 1 && step.out[0].packet == Packet(p.sequence, Ack, AnswerFor(p.kind, r.link.ours, r.cancelling))
  }

  lemma FailAnswers(r: ReceiverState, store: StoreState, reason: Reason, r0: ReceiverState, p: Packet)
    requires r.expected == r0.expected
    ensures Answering(ReceiverFail(r, store, reason), r0, p)
  {
    hide Wording, LinkState.ErrorFrame, Block;
  }

  lemma AckAnswers(r: ReceiverState, store: StoreState, p: Packet, r0: ReceiverState)
    ensures Answering(AckStep(r, store, p.sequence, AnswerFor(p.kind, r0.link.ours, r0.cancelling)), r0, p)
  {
    hide Block, AnswerFor;
  }

  lemma EndedAnswers(r: ReceiverState, store: StoreState, p: Packet, keep: bool, r0: ReceiverState)
    requires r.expected == r0.expected && p.kind == EndOfFile
    ensures Answering(Ended(r, store, p, keep), r0, p)
  {
    hide Answering, ReceiverFail, AckStep;
    var r', n := r.(open := false), if keep then 1 else 0;
    AckAnswers(r'.(progress := r.progress.(files := r.progress.files + n), state := AwaitFile), store.Finish(keep), p, r0);
    if store.Refuses() {
      FailAnswers(r', store.Finish(keep), StoreFailed(store.refusals[store.ops]), r0, p);
    }
  }

  lemma EndAnswers(r: ReceiverState, store: StoreState, p: Packet)
    requires p.kind == EndOfFile
    ensures Answering(OnEndOfFile(r, store, p), r, p)
  {
    hide Answering, Ended, ReceiverFail, Text.Finish;
    var r1, tail := r.(cancelling := r.cancelling || (p.data != [] && p.data[0] == 68)), Text.Finish(r.held);
    var r2 := r1.(held := false);
    EndedAnswers(r1, store, p, !r1.cancelling, r);
    EndedAnswers(r2, store, p, true, r);
    EndedAnswers(r2.(progress := r.progress.(bytes := r.progress.bytes + |tail|)), store.Write(tail), p, true, r);
    if store.Refuses() {
      FailAnswers(r2, store.Write(tail), StoreFailed(store.refusals[store.ops]), r, p);
    }
  }

  lemma DataAnswers(r: ReceiverState, store: StoreState, p: Packet)
    requires p.kind == Kind.Data
    ensures Answering(OnData(r, store, p), r, p)
    ensures r.cancelling ==> OnData(r, store, p).store == store
  {
    hide Answering, ReceiverFail, AckStep, Data.Decode, Converted, HeldAfter;
    assert Ascii("Z") == [90];
    var bytes := Data.Decode(p.data, r.link.ReadsWith().Quoting());
    var written, r' := Converted(r, bytes), r.(held := HeldAfter(r, bytes));
    if r.cancelling {
      AckAnswers(r, store, p, r);
      AckStores(r, store, p.sequence, [90]);
    } else if store.Refuses() {
      FailAnswers(r', store.Write(written), StoreFailed(store.refusals[store.ops]), r, p);
    } else {
      AckAnswers(r'.(progress := r.progress.(bytes := r.progress.bytes + |written|)), store.Write(written), p, r);
    }
  }

  lemma AckStores(r: ReceiverState, store: StoreState, n: byte, data: seq<byte>)
    ensures AckStep(r, store, n, data).store == store
  {
  }

  lemma FileAnswers(r: ReceiverState, store: StoreState, p: Packet)
    requires p.kind == File
    ensures Answering(OnFile(r, store, p), r, p)
  {
    hide Answering, ReceiverFail, AckStep, Data.Decode;
    var sent := Data.Decode(p.data, r.link.ReadsWith().Quoting());
    var name := r.settings.nameFor(sent);
    FailAnswers(r, store, BadName(sent), r, p);
    if name.Some? {
      AckAnswers(r.(open := true, held := false, mode := r.settings.mode, state := AwaitData,
                    progress := r.progress.(file := name, bytes := 0, size := None)), store.Create(name.value), p, r);
      if store.Refuses() {
        FailAnswers(r, store.Create(name.value), StoreFailed(store.refusals[store.ops]), r, p);
      }
    }
  }

  lemma AttributesAnswer(r: ReceiverState, store: StoreState, p: Packet)
    requires p.kind == Kind.Attributes
    ensures Answering(OnAttributes(r, store, p), r, p)
  {
    hide Attributes.ReadAll, Block;
    assert Ascii("Y") == [89];
  }

  lemma OthersAnswer(r: ReceiverState, store: StoreState, p: Packet)
    ensures p.kind == SendInit ==> Answering(OnSendInit(r, store, p), r, p)
    ensures p.kind == Break ==> Answering(OnBreak(r, store, p), r, p)
  {
    hide Block, ReadBlock;
  }

  /** Any packet at all that takes a receiver further is answered as its kind calls for. */
  lemma HandlingAnswers(r: ReceiverState, store: StoreState, p: Packet)
    ensures Answering(ReceiverHandle(r, store, p), r, p)
  {
    hide Answering, ReceiverFail, ReceiverStop, OnSendInit, OnFile, OnBreak, OnAttributes, OnData, OnEndOfFile, Data.Decode;
    FailAnswers(r, store, BothReceiving, r, p);
    FailAnswers(r, store, Unexpected(p.kind), r, p);
    StillAnswers(r, store, p, Failed(FarEnd(Data.Decode(p.data, r.link.ReadsWith().Quoting()))));
    OthersAnswer(r, store, p);
    match p.kind {
      case File => FileAnswers(r, store, p);
      case Attributes => AttributesAnswer(r, store, p);
      case Data => DataAnswers(r, store, p);
      case EndOfFile => EndAnswers(r, store, p);
      case _ =>
    }
  }

  lemma StillAnswers(r: ReceiverState, store: StoreState, p: Packet, status: Status)
    ensures Answering(ReceiverStop(r, store, status, []), r, p)
    ensures Answering(ReceiverStep(r, store, []), r, p)
    ensures Answering(ReceiverStep(r.(link := r.link.Arm()), store, r.link.last), r, p)
  {
  }

  /**
   In every run, the packet that takes the receiver further is the next one
   sent, and one answer goes back: with its number, and saying what its kind
   calls for. A receiver asked to stop writes nothing of the data it answers.
   */
  lemma TakenIsAnswered(c: Setup, events: seq<Event>, at: nat, misread: Arrival)
    requires var y := Exec(c, events); MayDeliver(c, y, Forth, at) && y.forth[at].Whole?
    requires var y := Exec(c, events); Apply(c, y, Delivered(Forth, at, misread)).accepted != y.accepted
    ensures var y := Exec(c, events); var z := Apply(c, y, Delivered(Forth, at, misread)); var e := y.accepted;
            && e < |y.history| && z.accepted == e + 1 && |z.back| == |y.back| + 1 && z.back[..|y.back|] == y.back
            && var m, kind := z.back[|y.back|], y.history[e].Kind();
               && m.Whole? && m.index == e
               && m.frame.packet == Packet(e % 64, Ack, AnswerFor(kind, c.receiver.params, y.r.cancelling))
               && (kind == Kind.Data && y.r.cancelling ==> z.store == y.store)
  {
    hide Exec, Good, SenderSide.SenderOk, ReceiverSide.ReceiverOk, LinesOk, EmittedOk, ReceiverHandle, HeardAs, ChecksNow;
    hide AnswerFor, Young;
    var y := Exec(c, events);
    AlwaysGood(c, events);
    GoodIs(c, y);
    OrderIsYoung(c, y, Forth, at);
    var m := y.forth[at];
    assert m in y.forth;
    Outcomes.MovedByNext(c, y, m, misread);
    HistoryIsNotEmpty(c, y.s, y.src, y.history);
    AcceptedInHistory(c, y.r, y.store, y.history, y.accepted, y.receiverStopped);
    OursAre(c, y.r, y.store, y.history, y.accepted, y.receiverStopped);
    var p := y.history[y.accepted].frame.packet;
    assert p.sequence == y.accepted % 64;
    HandlingAnswers(y.r, y.store, p);
    WishWritesNothing(y.r, y.store, p);
  }

  lemma OursAre(c: Setup, r: ReceiverState, store: StoreState, h: seq<Record>, e: nat, stopped: bool)
    requires ReceiverSide.ReceiverOk(c, r, store, h, e, stopped)
    ensures r.link.ours == c.receiver.params
  {
    hide ReceiverSide.CountsOk, ReceiverSide.WishOk, ReceiverSide.AnswerTo, ReceiverSide.StateAfter, Setup.ReceiverLink;
    AgreeingKeepsLimit(c);
  }

  lemma WishWritesNothing(r: ReceiverState, store: StoreState, p: Packet)
    ensures p.kind == Kind.Data && r.cancelling && ReceiverHandle(r, store, p).r.expected != r.expected ==>
              ReceiverHandle(r, store, p).store == store
  {
    hide ReceiverFail, OnSendInit, OnFile, OnBreak, OnAttributes, OnEndOfFile, AckStep, Data.Decode, Converted, HeldAfter;
    if r.cancelling {
      AckStores(r, store, p.sequence, [90]);
    }
    FailMovesNothing(r, store, Unexpected(p.kind));
  }

  lemma FailMovesNothing(r: ReceiverState, store: StoreState, reason: Reason)
    ensures ReceiverFail(r, store, reason).r.expected == r.expected
  {
    hide Wording, LinkState.ErrorFrame;
  }

  /** What goes around a packet to an end with these parameters: what it asked for, or the least until it is heard. */
  predicate FramedFor(f: Frame, asked: Option<Params>) {
    match asked
    case Some(p) => f.padding == p.padding && f.padWith == p.padWith && f.endOfLine == p.endOfLine
    case None => f.padding == 0 && f.padWith == 0 && f.endOfLine == 13
  }

  /**
   Every packet goes out as the end it goes to asked in its own block: with its
   padding before it and its end of line after, but for the first, and the
   requests of a receiver that has not had the first.
   */
  lemma FramedAsAsked(c: Setup, events: seq<Event>, i: nat)
    ensures var y := Exec(c, events);
            && (i < |y.history| ==> FramedFor(y.history[i].frame, if i == 0 then None else Some(c.receiver.params)))
            && (i < |y.back| && Theorems.Told(y.back[i]) ==>
                  var m := y.back[i];
                  FramedFor(m.frame, if m.frame.packet.kind == Nak && m.index == 0 then None else Some(c.sender.params)))
  {
    hide Exec, Good, SenderSide.SenderOk, ReceiverSide.ReceiverOk, EmittedOk, ForthOk, Begins, Follows, FramedFor;
    var y := Exec(c, events);
    AlwaysGood(c, events);
    GoodIs(c, y);
    HistoryIsNotEmpty(c, y.s, y.src, y.history);
    if i < |y.history| {
      assert i > 0 ==> Follows(c, y.history[i - 1], y.history[i]);
      PacketIsFramed(c, y.history, i);
    }
    if i < |y.back| && Theorems.Told(y.back[i]) {
      assert y.back[i] in y.back;
      AnswerIsFramed(c, y.back[i], y.accepted, y.receiverStopped);
    }
  }

  lemma LinksFrame(c: Setup)
    ensures forall f | MadeBy(NewLink(c.sender), f) || MadeBy(NewLink(c.receiver), f) :: FramedFor(f, None)
    ensures forall f | MadeBy(c.SenderLink(), f) :: FramedFor(f, Some(c.receiver.params))
    ensures forall f | MadeBy(c.ReceiverLink(), f) :: FramedFor(f, Some(c.sender.params))
  {
    hide Known, Long, OffersAttributes;
    SendsAsAsked(c.sender.params, c.receiver.params);
    SendsAsAsked(c.receiver.params, c.sender.params);
  }

  lemma PacketIsFramed(c: Setup, h: seq<Record>, i: nat)
    requires Chain(c, h) && i < |h|
    ensures FramedFor(h[i].frame, if i == 0 then None else Some(c.receiver.params))
  {
    hide MadeBy, FramedFor, Setup.OnLine, SaysOf, Setup.Sound, Block;
    LinksFrame(c);
    if i > 0 {
      assert Follows(c, h[i - 1], h[i]);
    }
  }

  lemma AnswerIsFramed(c: Setup, m: Message, e: nat, stopped: bool)
    requires BackOk(c, m, e, stopped) && Theorems.Told(m)
    ensures FramedFor(m.frame, if m.frame.packet.kind == Nak && m.index == 0 then None else Some(c.sender.params))
  {
    hide MadeBy, FramedFor, Block, Setup.CheckAgreed, NewLink, Setup.ReceiverLink;
    LinksFrame(c);
  }

  // ------------------------------------------------------------------
  // What is asked for again
  // ------------------------------------------------------------------

  /** A request for the packet a receiver that has accepted `e` waits for. */
  predicate Asks(c: Setup, m: Message, e: nat) {
    && m.Whole? && m.index == e && m.frame.packet == Packet(e % 64, Nak, [])
    && m.frame.check == if e == 0 then One else c.CheckAgreed()
  }

  lemma NakAsks(c: Setup, y: System)
    requires Good(c, y)
    ensures var m := Whole(NakFrame(y.r), y.accepted);
            Asks(c, m, y.accepted) && AnswersLabelled([NakFrame(y.r)], y.accepted) == [m]
    ensures NakFrame(y.r.(link := y.r.link.Retry())) == NakFrame(y.r)
  {
    hide Good, SenderSide.SenderOk, ReceiverSide.ReceiverOk, LinesOk, EmittedOk, Setup.CheckAgreed;
    GoodIs(c, y);
    ReceiverSide.NakIsOk(c, y.r, y.store, y.history, y.accepted, y.receiverStopped);
  }

  /** A wait that runs out at a receiver while there are tries left asks for the packet waited for, and begins again. */
  lemma AskedAgain(c: Setup, events: seq<Event>)
    requires var y := Exec(c, events); y.r.status == Running && y.r.link.armed && y.r.link.retries < c.receiver.retries
    ensures var y := Exec(c, events); var z := Apply(c, y, TimesOut(Back));
            && |z.back| == |y.back| + 1 && z.back[..|y.back|] == y.back && Asks(c, z.back[|y.back|], y.accepted)
            && z.store == y.store && z.r.status == Running && z.r.link.armed
  {
    hide Exec, Good, SenderSide.SenderOk, ReceiverSide.ReceiverOk, LinesOk, EmittedOk, NakFrame, Asks, AnswersLabelled;
    var y := Exec(c, events);
    AlwaysGood(c, events);
    GoodIs(c, y);
    NakAsks(c, y);
    RunningArms(c, y.r, y.store, y.history, y.accepted, y.receiverStopped);
  }

  /** So does damage that reaches a running receiver, which changes nothing else. */
  lemma DamageIsAskedAgain(c: Setup, events: seq<Event>, at: nat, misread: Arrival)
    requires var y := Exec(c, events); y.r.status == Running && MayDeliver(c, y, Forth, at)
    requires var y := Exec(c, events); HeardAs(y.forth[at], ChecksNow(y.r), misread) == Damage
    ensures var y := Exec(c, events); var z := Apply(c, y, Delivered(Forth, at, misread));
            && |z.back| == |y.back| + 1 && z.back[..|y.back|] == y.back && Asks(c, z.back[|y.back|], y.accepted)
            && z.store == y.store && z.r == y.r
  {
    hide Exec, Good, NakFrame, Asks, AnswersLabelled, HeardAs, ChecksNow;
    AlwaysGood(c, events);
    NakAsks(c, Exec(c, events));
  }

  /** A wait that is not armed does not run out. */
  lemma UnarmedNeverExpires(c: Setup, y: System)
    ensures !y.s.link.armed ==> Apply(c, y, TimesOut(Forth)) == y
    ensures !y.r.link.armed ==> Apply(c, y, TimesOut(Back)) == y
  {
    Reasons.NothingSaidBack(y.back, y.accepted);
    Reasons.NothingSaidBack(y.forth, Max(|y.history| - 1, 0));
  }

  lemma RunningArms(c: Setup, r: ReceiverState, store: StoreState, h: seq<Record>, e: nat, stopped: bool)
    requires ReceiverSide.ReceiverOk(c, r, store, h, e, stopped) && r.status == Running
    ensures r.link.armed == r.link.Timed() && r.link.limit == c.receiver.retries
    ensures var again := r.link.Retry(); again.armed == r.link.armed && again.limit == r.link.limit
                                         && again.retries == r.link.retries + 1
  {
    hide ReceiverSide.CountsOk, ReceiverSide.WishOk, ReceiverSide.AnswerTo, ReceiverSide.StateAfter, Setup.ReceiverLink;
    AgreeingKeepsLimit(c);
  }

  // ------------------------------------------------------------------
  // A user's wish to stop
  // ------------------------------------------------------------------

  /** An error that says the transfer was cancelled. */
  predicate SaysCancelled(m: Message, link: LinkState, seqno: byte) {
    m.Whole? && m.frame == link.ErrorFrame(seqno, Ascii("cancelled"))
  }

  /**
   A sender asked to stop inside a file goes on to end it, and anywhere else, or
   asked twice, stops at once and says so. A receiver asked inside a file goes
   on to throw it away, and anywhere else, or asked twice, stops at once.
   */
  lemma StopsAreAsked(c: Setup, events: seq<Event>)
    ensures Exec(c, events).history != []
    ensures var y := Exec(c, events); var z := Apply(c, y, UserStops(Forth)); var kind := Last(y.history).Kind();
            y.s.status == Running ==>
              if (kind == Kind.Data || kind == EndOfFile) && !y.s.cancelling then
                z.s == y.s.(cancelling := true) && z.forth == y.forth && z.src == y.src
              else
                && z.s.status == Cancelled && |z.forth| == |y.forth| + 1 && z.forth[..|y.forth|] == y.forth
                && SaysCancelled(z.forth[|y.forth|], y.s.link, y.s.seqno) && z.src == y.src
    ensures var y := Exec(c, events); var z := Apply(c, y, UserStops(Back));
            y.r.status == Running ==>
              if y.store.open.Some? && !y.r.cancelling then
                z.r == y.r.(cancelling := true) && z.back == y.back && z.store == y.store
              else
                && z.r.status == Cancelled && |z.back| == |y.back| + 1 && z.back[..|y.back|] == y.back
                && SaysCancelled(z.back[|y.back|], y.r.link, y.r.expected)
  {
    hide Exec, Good, SenderSide.SenderOk, ReceiverSide.ReceiverOk, LinesOk, EmittedOk, LinkState.ErrorFrame, Apply, SaysCancelled;
    var y := Exec(c, events);
    AlwaysGood(c, events);
    GoodIs(c, y);
    HistoryIsNotEmpty(c, y.s, y.src, y.history);
    if y.s.status == Running {
      Endings.KindIsState(c, y.s, y.src, y.history);
      SenderIsAsked(c, y);
    }
    if y.r.status == Running {
      Endings.RunningReceiverIs(c, y.r, y.store, y.history, y.accepted, y.receiverStopped);
      ReceiverIsAsked(c, y);
    }
  }

  lemma SenderIsAsked(c: Setup, y: System)
    requires y.s.status == Running && y.history != []
    ensures var z := Apply(c, y, UserStops(Forth));
            if (y.s.state == SendingData || y.s.state == SendingEnd) && !y.s.cancelling then
              z.s == y.s.(cancelling := true) && z.forth == y.forth && z.src == y.src
            else
              && z.s.status == Cancelled && |z.forth| == |y.forth| + 1 && z.forth[..|y.forth|] == y.forth
              && SaysCancelled(z.forth[|y.forth|], y.s.link, y.s.seqno) && z.src == y.src
  {
    hide LinkState.ErrorFrame;
  }

  lemma ReceiverIsAsked(c: Setup, y: System)
    requires y.r.status == Running && y.r.open == y.store.open.Some? && (y.r.open <==> y.r.state == AwaitData)
    ensures var z := Apply(c, y, UserStops(Back));
            if y.store.open.Some? && !y.r.cancelling then
              z.r == y.r.(cancelling := true) && z.back == y.back && z.store == y.store
            else
              && z.r.status == Cancelled && |z.back| == |y.back| + 1 && z.back[..|y.back|] == y.back
              && SaysCancelled(z.back[|y.back|], y.r.link, y.r.expected)
  {
    hide LinkState.ErrorFrame;
  }

  /** An end of file marked discard, and nothing more read. */
  ghost predicate Discards(step: SenderStep, s: SenderState, src: SourceState) {
    && step.s.status == s.status && step.s.state == SendingEnd && step.s.discarding && step.src == src
    && step.s.progress == s.progress && step.s.seqno == Next(s.seqno) && step.s.settings == s.settings
    && step.s.link.agreed == s.link.agreed && step.s.link.long == s.link.long
    && |step.out| == 1 && step.out[0].packet == Packet(Next(s.seqno), EndOfFile, Ascii("D"))
  }

  /**
   The answers that end a file where it is: `X`, for this file; `Z`, for all of
   them, or any answer once the sender's own user has asked; and `N` to what was
   said about the file before any of it went.
   */
  lemma AnswersThatEnd(s: SenderState, src: SourceState, data: seq<byte>)
    requires s.status == Running && (s.state == SendingData || s.state == SendingAttributes)
    ensures var step := Acknowledged(s, src, data); var first := if data == [] then ' ' as int else data[0];
            && (s.state == SendingData && (s.cancelling || first == 'X' as int || first == 'Z' as int) ==>
                  Discards(step, s, src) && step.s.cancelling == (s.cancelling || first == 'Z' as int))
            && (s.state == SendingAttributes && first == 'N' as int ==>
                  Discards(step, s, src) && step.s.cancelling == s.cancelling)
  {
    hide SendData;
    assert Ascii("D") == [68];
  }

  /** A file that the far end refuses is not counted, and the next is begun; if there is none, the batch ends. */
  lemma RefusedFileIsSkipped(s: SenderState, src: SourceState, refusal: seq<byte>, answer: seq<byte>)
    requires s.status == Running && !s.cancelling && refusal != [] && src.ops !in src.faults
    requires (s.state == SendingData && refusal[0] == 'X' as int) || (s.state == SendingAttributes && refusal[0] == 'N' as int)
    ensures var ended := Acknowledged(s, src, refusal); var step := Acknowledged(ended.s, ended.src, answer);
            && Discards(ended, s, src) && |step.out| == 1 && step.s.status == Running
            && step.s.progress.files == s.progress.files && step.out[0].packet.sequence == Next(Next(s.seqno))
            && if src.at < |src.files| then
                 && step.out[0].packet.kind == File && step.src.at == src.at + 1 && step.src.pos == 0
                 && step.out[0].packet.data
                    == Data.Encode(src.files[src.at].name, s.link.SendsWith().Quoting(), s.link.Room()).out
               else step.out[0].packet.kind == Break && step.out[0].packet.data == []
  {
    hide Acknowledged;
    AnswersThatEnd(s, src, refusal);
    var ended := Acknowledged(s, src, refusal);
    EndAnswered(ended.s, ended.src, answer);
  }

  /** The end of a file answered: the next begins, or the batch ends, as it does once a user has asked for it. */
  lemma EndAnswered(s: SenderState, src: SourceState, data: seq<byte>)
    requires s.status == Running && s.state == SendingEnd && src.ops !in src.faults
    ensures var step := Acknowledged(s, src, data);
            && |step.out| == 1 && step.s.status == Running && step.out[0].packet.sequence == Next(s.seqno)
            && step.s.progress.files == s.progress.files + (if s.discarding then 0 else 1)
            && if s.cancelling || src.at >= |src.files| then
                 step.out[0].packet.kind == Break && step.out[0].packet.data == [] && step.src.at == src.at
               else
                 && step.out[0].packet.kind == File && step.src.at == src.at + 1 && step.src.pos == 0
                 && step.out[0].packet.data
                    == Data.Encode(src.files[src.at].name, s.link.SendsWith().Quoting(), s.link.Room()).out
  {
    hide Data.Encode, SenderFail;
  }

  /** Only an acknowledgement, or a request for the packet after, moves a sender to its next packet. */
  lemma MovesByAnswer(s: SenderState, src: SourceState, a: Arrival) returns (data: seq<byte>)
    requires s.status == Running && SenderTold(s, src, a).s.seqno != s.seqno
    ensures a.Arrived? && data == (if a.packet.kind == Ack then a.packet.data else [])
    ensures SenderTold(s, src, a) == Acknowledged(s, src, data)
  {
    hide Acknowledged, Again, SenderFail, Data.Decode;
    data := if a.Arrived? && a.packet.kind == Ack then a.packet.data else [];
    AgainKeepsNumber(s, src);
    FailKeepsNumber(s, src, BothSending);
  }

  lemma FailKeepsNumber(s: SenderState, src: SourceState, reason: Reason)
    ensures SenderFail(s, src, reason).s.seqno == s.seqno
  {
    hide LinkState.ErrorFrame, Wording;
  }

  lemma OwnKeepsNumber(s: SenderState, src: SourceState)
    ensures SenderTick(s, src).s.seqno == SenderCancel(s, src).s.seqno == s.seqno
  {
    hide Again, LinkState.ErrorFrame;
    AgainKeepsNumber(s, src);
  }

  lemma GrownByAnswer(c: Setup, y: System, ev: Event) returns (data: seq<byte>)
    requires y.s.status == Running && |Apply(c, y, ev).history| > |y.history|
    ensures var step := Acknowledged(y.s, y.src, data);
            && |step.out| == 1 && step.s.status == Running
            && Apply(c, y, ev).history == y.history + [SenderSide.RecordOf(step.s, step.src, step.out[0])]
  {
    hide HeardAs, ReceiverTold, SenderTold, ReceiverTick, SenderTick, ReceiverCancel, SenderCancel, ChecksNow, Acknowledged;
    hide LinkState.CheckUsed, SenderSide.RecordOf;
    OwnKeepsNumber(y.s, y.src);
    match ev {
      case Delivered(Back, at, misread) =>
        if MayDeliver(c, y, Back, at) {
          data := MovesByAnswer(y.s, y.src, HeardAs(y.back[at], [y.s.link.CheckUsed()], misread));
        }
      case _ =>
    }
  }

  /** What answers a sender asked to stop brings it to send. */
  lemma WishAnswered(s: SenderState, src: SourceState, data: seq<byte>)
    requires s.status == Running && s.cancelling
    ensures var step := Acknowledged(s, src, data);
            && (s.state == SendingData ==> |step.out| == 1 && step.out[0].packet.kind == EndOfFile && step.out[0].packet.data != [])
            && (s.state == SendingEnd ==> |step.out| == 1 && step.out[0].packet.kind == Break)
            && (s.state == SendingBreak ==> step.out == [])
  {
    hide SendData, NextFile, ReadBlock, Attributes.Built, LinkState.Agree;
  }

  /** A sender asked to stop ends the file it is in, marked discard, and then the batch. */
  lemma WishIsCarriedOut(c: Setup, events: seq<Event>, ev: Event)
    requires var y := Exec(c, events); y.s.status == Running && y.s.cancelling
    requires |Apply(c, Exec(c, events), ev).history| > |Exec(c, events).history|
    ensures Exec(c, events).history != []
    ensures var y := Exec(c, events); var z := Apply(c, y, ev); var was, next := Last(y.history).Kind(), Last(z.history);
            && (was == Kind.Data ==> EndsDiscarded(next))
            && (was == EndOfFile ==> next.Kind() == Break)
            && was != Break
  {
    hide Exec, Good, SenderSide.SenderOk, ReceiverSide.ReceiverOk, LinesOk, EmittedOk, Apply, Acknowledged, Chain;
    var y := Exec(c, events);
    AlwaysGood(c, events);
    GoodIs(c, y);
    HistoryIsNotEmpty(c, y.s, y.src, y.history);
    Endings.KindIsState(c, y.s, y.src, y.history);
    var data := GrownByAnswer(c, y, ev);
    WishAnswered(y.s, y.src, data);
  }

  // ------------------------------------------------------------------
  // Ends that are not the two halves of a transfer
  // ------------------------------------------------------------------

  /** What an end that stopped like this has said on its way out. */
  ghost predicate GaveUp(status: Status, out: seq<Frame>, link: LinkState, seqno: byte, reason: Reason) {
    status == Failed(reason) && out == [link.ErrorFrame(seqno, Wording(reason))]
  }

  /** Two senders: each stops on hearing the other's first packet, and says that both are sending. */
  lemma TwoSenders(a: Settings, b: Settings, src: SourceState)
    ensures var s, other := SenderStart(NewSender(a)), SenderStart(NewSender(b));
            |other.link.last| == 1 && var step := SenderTold(s, src, Arrived(other.link.last[0].packet));
            GaveUp(step.s.status, step.out, s.link, 0, BothSending) && step.src == src
  {
    hide Block, Wording, LinkState.ErrorFrame;
  }

  /** Two receivers: whichever's wait runs out first asks for a packet, and the other says that both are receiving. */
  lemma TwoReceivers(a: Settings, b: Settings, store: StoreState, store': StoreState)
    requires a.params.timeout > 0 && a.retries > 0
    ensures var asks := ReceiverTick(NewReceiver(a), store); var r := NewReceiver(b);
            |asks.out| == 1 && var step := ReceiverTold(r, store', Arrived(asks.out[0].packet));
            GaveUp(step.r.status, step.out, r.link, 0, BothReceiving) && step.store == store'
  {
    hide Wording, LinkState.ErrorFrame;
  }

  /** What a receiver is ready for. */
  function Welcome(state: Receiving): set<Kind> {
    match state
    case AwaitSendInit => {SendInit, Nak}
    case AwaitFile => {File, Break}
    case AwaitData => {Kind.Attributes, Kind.Data, EndOfFile}
    case Over => {}
  }

  /** A packet with the number waited for stops a receiver as unexpected exactly when it is not ready for its kind. */
  lemma UnexpectedExactly(r: ReceiverState, store: StoreState, p: Packet)
    requires r.status == Running && p.sequence == r.expected < 64 && p.kind != Error
    ensures var step := ReceiverTold(r, store, Arrived(p));
            && (step.r.status == Failed(Unexpected(p.kind)) <==> p.kind !in Welcome(r.state))
            && (p.kind !in Welcome(r.state) ==> GaveUp(step.r.status, step.out, r.link, r.expected, Unexpected(p.kind)))
  {
    hide Wording, LinkState.ErrorFrame, OnSendInit, OnAttributes, OnFile, OnBreak, OnData, OnEndOfFile, ReceiverStop, ReceiverFail;
    ReceiverSide.SequenceMoves(r.expected);
    FailGaveUp(r, store, Unexpected(p.kind));
    FailGaveUp(r, store, BothReceiving);
    NotUnexpected(r, store, p);
  }

  lemma FailGaveUp(r: ReceiverState, store: StoreState, reason: Reason)
    ensures var step := ReceiverFail(r, store, reason); GaveUp(step.r.status, step.out, r.link, r.expected, reason)
  {
    hide Wording, LinkState.ErrorFrame;
  }

  /** A step that does not stop a receiver for a kind it was not ready for. */
  ghost predicate NoSurprise(step: ReceiverStep) { step.r.status.Failed? ==> !step.r.status.reason.Unexpected? }

  lemma FailIsFor(r: ReceiverState, store: StoreState, reason: Reason)
    ensures ReceiverFail(r, store, reason).r.status == Failed(reason)
  {
    hide Wording, LinkState.ErrorFrame;
  }

  lemma NotUnexpected(r: ReceiverState, store: StoreState, p: Packet)
    requires r.status == Running
    ensures NoSurprise(OnSendInit(r, store, p)) && NoSurprise(OnAttributes(r, store, p)) && NoSurprise(OnBreak(r, store, p))
    ensures NoSurprise(OnFile(r, store, p)) && NoSurprise(OnData(r, store, p)) && NoSurprise(OnEndOfFile(r, store, p))
  {
    hide NoSurprise, OnSendInit, OnFile, OnBreak, OnAttributes, OnData, OnEndOfFile;
    AnsweredIsNone(r, store, p);
    FileIsNone(r, store, p);
    DataIsNone(r, store, p);
    EndIsNone(r, store, p);
  }

  lemma AnsweredIsNone(r: ReceiverState, store: StoreState, p: Packet)
    requires r.status == Running
    ensures NoSurprise(OnSendInit(r, store, p)) && NoSurprise(OnAttributes(r, store, p)) && NoSurprise(OnBreak(r, store, p))
  {
    hide Block, ReadBlock, Attributes.ReadAll, LinkState.Agree, LinkState.Send;
  }

  lemma FileIsNone(r: ReceiverState, store: StoreState, p: Packet)
    requires r.status == Running
    ensures NoSurprise(OnFile(r, store, p))
  {
    hide ReceiverFail, Data.Decode, LinkState.Send;
    var sent := Data.Decode(p.data, r.link.ReadsWith().Quoting());
    var name := r.settings.nameFor(sent);
    FailIsFor(r, store, BadName(sent));
    if name.Some? && store.Refuses() {
      FailIsFor(r, store.Create(name.value), StoreFailed(store.refusals[store.ops]));
    }
  }

  lemma DataIsNone(r: ReceiverState, store: StoreState, p: Packet)
    requires r.status == Running
    ensures NoSurprise(OnData(r, store, p))
  {
    hide ReceiverFail, Data.Decode, LinkState.Send, Converted, HeldAfter;
    var bytes := Data.Decode(p.data, r.link.ReadsWith().Quoting());
    if store.Refuses() {
      FailIsFor(r.(held := HeldAfter(r, bytes)), store.Write(Converted(r, bytes)), StoreFailed(store.refusals[store.ops]));
    }
  }

  lemma EndedIsNone(r: ReceiverState, store: StoreState, p: Packet, keep: bool)
    requires r.status == Running
    ensures NoSurprise(Ended(r, store, p, keep))
  {
    hide ReceiverFail, LinkState.Send;
    if store.Refuses() {
      FailIsFor(r.(open := false), store.Finish(keep), StoreFailed(store.refusals[store.ops]));
    }
  }

  lemma EndIsNone(r: ReceiverState, store: StoreState, p: Packet)
    requires r.status == Running
    ensures NoSurprise(OnEndOfFile(r, store, p))
  {
    hide ReceiverFail, Ended, Text.Finish;
    var r1, tail := r.(cancelling := r.cancelling || (p.data != [] && p.data[0] == 68)), Text.Finish(r.held);
    var r2 := r1.(held := false);
    EndedIsNone(r1, store, p, !r1.cancelling);
    EndedIsNone(r2, store, p, true);
    EndedIsNone(r2.(progress := r.progress.(bytes := r.progress.bytes + |tail|)), store.Write(tail), p, true);
    if store.Refuses() {
      FailIsFor(r2, store.Write(tail), StoreFailed(store.refusals[store.ops]));
    }
  }

  /**
   What a sender acts on: an error, an answer to the packet it has out, a request
   for that packet or the one after, and another sender's first packet while its
   own is out. Nothing else changes anything.
   */
  lemma NothingElseMoves(s: SenderState, src: SourceState, p: Packet)
    requires p.kind != Error && !(p.kind == SendInit && s.state == SendingInit)
    requires p.kind == Ack ==> p.sequence != s.seqno
    requires p.kind == Nak ==> p.sequence != s.seqno && p.sequence != (s.seqno + 1) % 64
    ensures SenderTold(s, src, Arrived(p)) == SenderStep(s, src, [])
  {
    hide Acknowledged, Again, SenderFail, SenderStop;
  }

  /** What another program says of a file is taken: a type it does not name leaves the receiver's own, and a size is shown. */
  lemma AttributesAreTaken(r: ReceiverState, store: StoreState, p: Packet)
    requires r.status == Running && r.state == AwaitData && p.kind == Kind.Attributes && p.sequence == r.expected < 64
    ensures var step := ReceiverTold(r, store, Arrived(p)); var said := Attributes.ReadAll(p.data);
            && step.store == store && step.r.status == Running && step.r.progress == r.progress.(size := said.size)
            && (said.fileType == None ==> step.r.mode == r.mode)
            && (said.fileType == Some(Attributes.Text) ==> step.r.mode == TextMode)
            && (said.fileType == Some(Attributes.Binary) ==> step.r.mode == BinaryMode)
  {
    hide Attributes.ReadAll, LinkState.Send;
    ReceiverSide.SequenceMoves(r.expected);
  }
}

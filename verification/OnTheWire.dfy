/**
 The messages of module `Network` are bytes: every packet on the line in a
 reachable state, written out in full, amid any noise without a mark, is taken
 from the buffer as exactly what the network may deliver, and delivering it is
 feeding those bytes.
 */
module OnTheWire {
  import opened Options
  import opened Bytes
  import opened Checks
  import opened Packets
  import opened Parameters
  import opened Protocol
  import opened History
  import opened Network
  import opened Steps
  import Streams
  import Data
  import SenderSide
  import Tallies
  import ReceiverSide
  import Theorems
  import Reasons

  /** Neither end asks for marks as padding or at the end of a line, and its parameters fit in a packet. */
  predicate Clean(p: Params) {
    p.padWith != MARK && p.endOfLine != MARK && |Block(p)| + 3 <= MAX_LONG
  }

  predicate CleanSetup(c: Setup) { Clean(c.sender.params) && Clean(c.receiver.params) }

  /** A link whose far end asked for no marks. */
  predicate CleanLink(link: LinkState) {
    link.SendsWith().padWith != MARK && link.SendsWith().endOfLine != MARK
    && (link.long.Some? ==> link.long.value <= MAX_LONG)
  }

  lemma LinksAreClean(c: Setup)
    requires CleanSetup(c)
    ensures CleanLink(NewLink(c.sender)) && CleanLink(NewLink(c.receiver))
    ensures CleanLink(c.SenderLink()) && CleanLink(c.ReceiverLink())
  {
    hide ReadBlock, Block, Long, OffersAttributes, Settle;
    BlockReadsBack(c.sender.params);
    BlockReadsBack(c.receiver.params);
  }

  lemma RoomIsInRange(link: LinkState)
    requires CleanLink(link)
    ensures link.Room() + 3 <= MAX_LONG
  {
  }

  lemma MadeFits(link: LinkState, f: Frame)
    requires CleanLink(link) && MadeBy(link, f) && f.packet.kind.Canonical() && |f.packet.data| + 3 <= MAX_LONG
    ensures Streams.Deliverable(f)
  {
  }

  /** So is an error, whatever is said in it. */
  lemma ErrorFits(link: LinkState, seqno: byte, wording: seq<byte>)
    requires CleanLink(link)
    ensures Streams.Deliverable(link.ErrorFrame(seqno, wording))
  {
    hide Data.Encode;
    RoomIsInRange(link);
    MadeFits(link, link.ErrorFrame(seqno, wording));
  }

  lemma RecordFits(c: Setup, h: seq<Record>, i: nat)
    requires Chain(c, h) && i < |h| && CleanSetup(c)
    ensures Streams.Deliverable(h[i].frame)
  {
    hide Setup.SenderLink, NewLink, Block, Data.Encode, MadeBy, CleanLink, Setup.OnLine, Setup.Sound;
    hide SaysOf, Setup.CheckAgreed;
    LinksAreClean(c);
    RoomIsInRange(c.SenderLink());
    if i == 0 {
      MadeFits(NewLink(c.sender), h[0].frame);
    } else {
      assert Follows(c, h[i - 1], h[i]);
      MadeFits(c.SenderLink(), h[i].frame);
    }
  }

  lemma AnswerFits(c: Setup, m: Message, e: nat, stopped: bool)
    requires CleanSetup(c) && BackOk(c, m, e, stopped) && Theorems.Told(m)
    ensures Streams.Deliverable(m.frame)
  {
    hide Setup.ReceiverLink, NewLink, Block, MadeBy, CleanLink, Setup.CheckAgreed;
    LinksAreClean(c);
    if m.frame.packet.kind == Ack {
      MadeFits(c.ReceiverLink(), m.frame);
    } else {
      MadeFits(ReceiverSide.LinkThen(c, m.index), m.frame);
    }
  }

  /** A link that either end may have: that of one that has heard the other's parameters, or has not. */
  lemma LinksKnownAreClean(c: Setup, y: System)
    requires Good(c, y) && CleanSetup(c)
    ensures CleanLink(y.s.link) && CleanLink(y.r.link)
  {
    hide Good, SenderSide.SenderOk, ReceiverSide.ReceiverOk, LinesOk, EmittedOk, Clean, Block;
    GoodIs(c, y);
    LinksAreClean(c);
    SenderLinkIs(c, y.s, y.src, y.history);
    ReceiverLinkIs(c, y.r, y.store, y.history, y.accepted, y.receiverStopped);
  }

  lemma SenderLinkIs(c: Setup, s: SenderState, src: SourceState, h: seq<Record>)
    requires SenderSide.SenderOk(c, s, src, h)
    ensures s.seqno < 64
    ensures var known := if s.link.agreed.Some? then c.SenderLink() else NewLink(c.sender);
            s.link == known.(last := s.link.last, retries := s.link.retries, armed := s.link.armed)
  {
    hide Chain, SenderSide.FileOk, NoneDiscarded, Wholes, SenderSide.SizesOk, SenderSide.SourceOk, Setup.SenderLink;
    AgreeingKeepsLimit(c);
  }

  lemma ReceiverLinkIs(c: Setup, r: ReceiverState, store: StoreState, h: seq<Record>, e: nat, stopped: bool)
    requires ReceiverSide.ReceiverOk(c, r, store, h, e, stopped)
    ensures r.expected < 64
    ensures var known := if r.link.agreed.Some? then c.ReceiverLink() else NewLink(c.receiver);
            r.link == known.(last := r.link.last, retries := r.link.retries, armed := r.link.armed)
  {
    hide ReceiverSide.CountsOk, ReceiverSide.WishOk, ReceiverSide.AnswerTo, ReceiverSide.StateAfter, Setup.ReceiverLink;
    AgreeingKeepsLimit(c);
  }

  /** An error on the line can be delivered too. */
  lemma ErrorOnLineFits(c: Setup, y: System, m: Message)
    requires Good(c, y) && CleanSetup(c) && Reasons.ErrorsExplain(y) && Reasons.IsError(m) && (m in y.forth || m in y.back)
    ensures Streams.Deliverable(m.frame)
  {
    hide Good, CleanLink, Streams.Deliverable, LinkState.ErrorFrame;
    LinksKnownAreClean(c, y);
    if m in y.forth {
      ErrorFits(y.s.link, y.s.seqno, Tallies.Says(y.s.status));
    } else {
      ErrorFits(y.r.link, y.r.expected, Tallies.Says(y.r.status));
    }
  }

  /**
   What is on the line as packets is on it as bytes: taken from a buffer that
   begins with it, after any noise and before anything at all, with the checks
   its reader then reads with, it arrives as the network allows.
   */
  lemma MessagesAreBytes(c: Setup, events: seq<Event>, m: Message, noise: seq<byte>, tail: seq<byte>)
    requires CleanSetup(c) && m.Whole? && MARK !in noise
    ensures var y := Exec(c, events);
            && (m in y.forth ==>
                  var checks := ChecksNow(y.r);
                  var a := Take(noise + FrameBytes(m.frame) + tail, checks).arrival; HeardAs(m, checks, a) == a)
            && (m in y.back ==>
                  var checks := [y.s.link.CheckUsed()];
                  var a := Take(noise + FrameBytes(m.frame) + tail, checks).arrival; HeardAs(m, checks, a) == a)
  {
    hide Exec, Take, FrameBytes, ChecksNow, LinkState.CheckUsed, Streams.Deliverable, Streams.MayArriveAs, CleanSetup;
    var y := Exec(c, events);
    if m in y.forth || m in y.back {
      OnLineFits(c, events, m);
      Streams.FrameArrives(m.frame, ChecksNow(y.r), noise, tail);
      Streams.FrameArrives(m.frame, [y.s.link.CheckUsed()], noise, tail);
    }
  }

  /** Whatever is on the line can be delivered. */
  lemma OnLineFits(c: Setup, events: seq<Event>, m: Message)
    requires CleanSetup(c) && m.Whole? && (m in Exec(c, events).forth || m in Exec(c, events).back)
    ensures Streams.Deliverable(m.frame)
  {
    hide Exec, Good, BackOk, ForthOk, SenderSide.SenderOk, ReceiverSide.ReceiverOk, Chain, Streams.Deliverable;
    hide CleanSetup, EmittedOk, Reasons.ErrorsExplain;
    var y := Exec(c, events);
    AlwaysGood(c, events);
    GoodIs(c, y);
    HistoryIsNotEmpty(c, y.s, y.src, y.history);
    if Reasons.IsError(m) {
      Reasons.ErrorsAlwaysExplain(c, events);
      ErrorOnLineFits(c, y, m);
    } else if m in y.forth {
      Theorems.ForthIsPacket(c, y.history, m);
      RecordFits(c, y.history, m.index);
    } else {
      AnswerFits(c, m, y.accepted, y.receiverStopped);
    }
  }

  // ------------------------------------------------------------------
  // Delivering is feeding
  // ------------------------------------------------------------------

  /** Nor do the parameters themselves hold a mark; none of the program's own do. */
  predicate Unmarked(c: Setup) {
    CleanSetup(c) && MARK !in Block(c.sender.params) && MARK !in Block(c.receiver.params)
  }

  lemma PrefixesAreUnmarked(c: Setup)
    requires Unmarked(c)
    ensures c.Unmarked()
  {
    hide Long, OffersAttributes, ReadBlock;
    BlockReadsBack(c.receiver.params);
    PrefixesInBlock(c.sender.params);
    PrefixesInBlock(c.receiver.params);
  }

  lemma PrefixesInBlock(p: Params)
    ensures MARK !in Block(p) ==> p.control != MARK && PrefixByte(p.eighth) != MARK && PrefixByte(p.repeat) != MARK
  {
    var b := Block(p);
    assert b[5] == p.control && b[6] == PrefixByte(p.eighth) && b[8] == PrefixByte(p.repeat);
  }

  /** No packet sent holds a mark but the one it begins with. */
  lemma RecordHasOneMark(c: Setup, h: seq<Record>, i: nat)
    requires Chain(c, h) && i < |h| && Unmarked(c)
    ensures Streams.OneMark(h[i].frame)
  {
    hide Setup.SenderLink, NewLink, Block, Data.Encode, MadeBy, CleanLink, Setup.OnLine, Setup.Sound;
    hide SaysOf, Setup.CheckAgreed, Streams.Deliverable, CleanSetup, Setup.Unmarked;
    RecordFits(c, h, i);
    PrefixesAreUnmarked(c);
    if i == 0 {
      BeginsIsInit(c, h[0]);
    } else {
      assert Follows(c, h[i - 1], h[i]);
      ReceiverSide.KindFollows(c, h[i - 1], h[i]);
    }
  }

  lemma AnswerHasOneMark(c: Setup, m: Message, e: nat, stopped: bool)
    requires Unmarked(c) && BackOk(c, m, e, stopped) && Theorems.Told(m)
    ensures Streams.OneMark(m.frame)
  {
    hide Setup.ReceiverLink, NewLink, Block, MadeBy, CleanLink, Setup.CheckAgreed, Streams.Deliverable;
    AnswerFits(c, m, e, stopped);
  }

  lemma AgreedIsUnmarked(c: Setup)
    requires Unmarked(c)
    ensures Data.Unmarked(c.SenderLink().SendsWith().Quoting()) && Data.Unmarked(c.ReceiverLink().SendsWith().Quoting())
    ensures Data.Unmarked(NewLink(c.sender).SendsWith().Quoting()) && Data.Unmarked(NewLink(c.receiver).SendsWith().Quoting())
  {
    hide Long, OffersAttributes, ReadBlock;
    BlockReadsBack(c.receiver.params);
    BlockReadsBack(c.sender.params);
    PrefixesInBlock(c.sender.params);
    PrefixesInBlock(c.receiver.params);
  }

  lemma ErrorHasOneMark(c: Setup, y: System, m: Message)
    requires Good(c, y) && Unmarked(c) && Reasons.ErrorsExplain(y) && Reasons.IsError(m) && (m in y.forth || m in y.back)
    ensures Streams.OneMark(m.frame)
  {
    hide Good, SenderSide.SenderOk, ReceiverSide.ReceiverOk, LinesOk, EmittedOk, Unmarked, Streams.Deliverable, Data.Unmarked;
    hide Data.Encode, Setup.SenderLink, Setup.ReceiverLink, NewLink;
    assert CleanSetup(c) by { UnmarkedIsClean(c); }
    ErrorOnLineFits(c, y, m);
    GoodIs(c, y);
    AgreedIsUnmarked(c);
    SenderLinkIs(c, y.s, y.src, y.history);
    ReceiverLinkIs(c, y.r, y.store, y.history, y.accepted, y.receiverStopped);
    var link := if m in y.forth then y.s.link else y.r.link;
    assert Data.Unmarked(link.SendsWith().Quoting());
    Data.EncodedIsUnmarked(Tallies.Says(if m in y.forth then y.s.status else y.r.status), link.SendsWith().Quoting(), link.Room());
  }

  lemma UnmarkedIsClean(c: Setup)
    requires Unmarked(c)
    ensures CleanSetup(c)
  {
  }

  /** Nothing on the line holds a mark but the one it begins with. */
  lemma OnLineHasOneMark(c: Setup, events: seq<Event>, m: Message)
    requires Unmarked(c) && m.Whole? && (m in Exec(c, events).forth || m in Exec(c, events).back)
    ensures Streams.OneMark(m.frame)
  {
    hide Exec, Good, BackOk, ForthOk, SenderSide.SenderOk, ReceiverSide.ReceiverOk, Chain, Streams.OneMark;
    hide Unmarked, EmittedOk, Reasons.ErrorsExplain;
    var y := Exec(c, events);
    AlwaysGood(c, events);
    GoodIs(c, y);
    HistoryIsNotEmpty(c, y.s, y.src, y.history);
    if Reasons.IsError(m) {
      Reasons.ErrorsAlwaysExplain(c, events);
      ErrorHasOneMark(c, y, m);
    } else if m in y.forth {
      Theorems.ForthIsPacket(c, y.history, m);
      RecordHasOneMark(c, y.history, m.index);
    } else {
      AnswerHasOneMark(c, m, y.accepted, y.receiverStopped);
    }
  }

  /** What these bytes would arrive as at an end that reads with `checks`. */
  function HeardIn(noise: seq<byte>, m: Message, checks: seq<Check>): Arrival
    requires m.Whole?
  {
    Take(noise + FrameBytes(m.frame), checks).arrival
  }

  /** The sender and its files are as feeding left them, and what feeding made it send is on the line. */
  ghost predicate SenderDelivered(y: System, z: System, fed: Streams.SenderFed) {
    fed.s == z.s && fed.src == z.src && z.forth == y.forth + Labelled(fed.out, Max(Waiting(z), 0))
  }

  ghost predicate ReceiverDelivered(y: System, z: System, fed: Streams.ReceiverFed) {
    fed.r == z.r && fed.store == z.store && z.back == y.back + AnswersLabelled(fed.out, z.accepted)
  }

  /**
   Delivering a message to the sender is feeding it the bytes, amid any noise
   without a mark: it is left as the feeding leaves it, and what it then sends
   is what goes on the line.
   */
  lemma SenderDelivering(c: Setup, events: seq<Event>, at: nat, noise: seq<byte>)
    requires Unmarked(c) && MARK !in noise
    requires var y := Exec(c, events); MayDeliver(c, y, Back, at) && y.back[at].Whole?
    ensures var y := Exec(c, events); var m := y.back[at];
            var z := Exec(c, events + [Delivered(Back, at, HeardIn(noise, m, [y.s.link.CheckUsed()]))]);
            SenderDelivered(y, z, Streams.SenderFeed(y.s, y.src, noise + FrameBytes(m.frame))) && z.back == Without(y.back, at)
  {
    hide Exec, Good, BackOk, ForthOk, SenderSide.SenderOk, ReceiverSide.ReceiverOk, Chain, Take, FrameBytes;
    hide LinkState.CheckUsed, Streams.MayArriveAs, Apply, SenderDelivered;
    hide Streams.OneMark, Streams.Deliverable, SenderTold, SenderSide.Extended, Labelled;
    var y := Exec(c, events);
    var m := y.back[at];
    OnLineHasOneMark(c, events, m);
    DeliverableOf(m.frame);
    Streams.FrameArrives(m.frame, [y.s.link.CheckUsed()], noise, []);
    assert noise + FrameBytes(m.frame) + [] == noise + FrameBytes(m.frame);
    var a := HeardIn(noise, m, [y.s.link.CheckUsed()]);
    ArrivesHeard(m, [y.s.link.CheckUsed()], a);
    SenderFedIsTold(y.s, y.src, noise, m.frame, a);
    OneMore(c, events, Delivered(Back, at, a));
    ToldDelivered(c, y, at, a, Streams.SenderFeed(y.s, y.src, noise + FrameBytes(m.frame)));
  }

  lemma ToldDelivered(c: Setup, y: System, at: nat, a: Arrival, fed: Streams.SenderFed)
    requires MayDeliver(c, y, Back, at) && HeardAs(y.back[at], [y.s.link.CheckUsed()], a) == a
    requires var step := SenderTold(y.s, y.src, a); fed.s == step.s && fed.src == step.src && fed.out == step.out
    ensures var z := Apply(c, y, Delivered(Back, at, a)); SenderDelivered(y, z, fed) && z.back == Without(y.back, at)
  {
    hide SenderTold, HeardAs, SenderSide.Extended, Labelled, LinkState.CheckUsed;
    AfterHasHistory(WithLine(y, Back, Without(y.back, at)), SenderTold(y.s, y.src, a));
  }

  /** Feeding a sender a frame is telling it what the frame arrives as. */
  lemma SenderFedIsTold(s: SenderState, src: SourceState, noise: seq<byte>, f: Frame, a: Arrival)
    requires MARK !in noise && Streams.OneMark(f) && a == Take(noise + FrameBytes(f), [s.link.CheckUsed()]).arrival
    ensures var fed := Streams.SenderFeed(s, src, noise + FrameBytes(f)); var step := SenderTold(s, src, a);
            fed.s == step.s && fed.src == step.src && fed.out == step.out
  {
    hide Take, FrameBytes, Streams.MayArriveAs, SenderHandle, LinkState.CheckUsed, SenderTold;
    DeliverableOf(f);
    hide Streams.OneMark, Streams.Deliverable;
    if s.status == Running {
      Streams.SenderHandlesFrame(s, src, noise, f, []);
      assert noise + FrameBytes(f) + [] == noise + FrameBytes(f);
      var step := Streams.SenderHearing(s, src, a);
      SenderHearingIsTold(s, src, a);
      NothingMore(step.s, step.src);
      assert step.out + [] == step.out;
    } else {
      Theorems.StoppedSender(s, src, a);
      StoppedFeedsNothing(s, src, noise + FrameBytes(f));
    }
  }

  lemma DeliverableOf(f: Frame)
    requires Streams.OneMark(f)
    ensures Streams.Deliverable(f)
  {
  }

  lemma ArrivesHeard(m: Message, checks: seq<Check>, a: Arrival)
    requires m.Whole? && checks != [] && Streams.MayArriveAs(m.frame, checks, a)
    ensures HeardAs(m, checks, a) == a && a != Nothing
  {
  }

  lemma SenderHearingIsTold(s: SenderState, src: SourceState, a: Arrival)
    requires s.status == Running
    ensures Streams.SenderHearing(s, src, a) == SenderTold(s, src, a)
  {
    hide SenderHandle;
  }

  lemma StoppedFeedsNothing(s: SenderState, src: SourceState, buffer: seq<byte>)
    requires s.status != Running
    ensures Streams.SenderFeed(s, src, buffer) == Streams.SenderFed(s, src, buffer, [])
  {
  }

  /** What a receiver makes of bytes, running, done or stopped. */
  function FedNow(r: ReceiverState, store: StoreState, buffer: seq<byte>): Streams.ReceiverFed {
    if r.status == Done then Streams.DoneFeed(r, store, buffer) else Streams.ReceiverFeed(r, store, buffer)
  }

  /**
   So is delivering one to the receiver, while it reads with either of two
   checks and once it is done as well.
   */
  lemma ReceiverDelivering(c: Setup, events: seq<Event>, at: nat, noise: seq<byte>)
    requires Unmarked(c) && MARK !in noise
    requires var y := Exec(c, events); MayDeliver(c, y, Forth, at) && y.forth[at].Whole?
    ensures var y := Exec(c, events); var m := y.forth[at];
            var z := Exec(c, events + [Delivered(Forth, at, HeardIn(noise, m, ChecksNow(y.r)))]);
            ReceiverDelivered(y, z, FedNow(y.r, y.store, noise + FrameBytes(m.frame))) && z.forth == Without(y.forth, at)
  {
    hide Exec, Good, BackOk, ForthOk, SenderSide.SenderOk, ReceiverSide.ReceiverOk, Chain, Take, FrameBytes;
    hide LinkState.CheckUsed, Streams.MayArriveAs, ChecksNow, FedNow, ReceiverTold;
    hide Streams.OneMark, Streams.Deliverable, AnswersLabelled;
    var y := Exec(c, events);
    var m := y.forth[at];
    OnLineHasOneMark(c, events, m);
    DeliverableOf(m.frame);
    Streams.FrameArrives(m.frame, ChecksNow(y.r), noise, []);
    assert noise + FrameBytes(m.frame) + [] == noise + FrameBytes(m.frame);
    var a := HeardIn(noise, m, ChecksNow(y.r));
    ArrivesHeard(m, ChecksNow(y.r), a);
    FedIsTold(y.r, y.store, noise, m.frame, a);
    OneMore(c, events, Delivered(Forth, at, a));
  }

  /** Feeding a receiver a frame is telling it what the frame arrives as. */
  lemma FedIsTold(r: ReceiverState, store: StoreState, noise: seq<byte>, f: Frame, a: Arrival)
    requires MARK !in noise && Streams.OneMark(f) && a == Take(noise + FrameBytes(f), ChecksNow(r)).arrival
    ensures var fed := FedNow(r, store, noise + FrameBytes(f)); var step := ReceiverTold(r, store, a);
            fed.r == step.r && fed.store == step.store && fed.out == step.out
  {
    hide Take, FrameBytes, Streams.MayArriveAs, ReceiverHandle, LinkState.CheckUsed, ReceiverChecks;
    DeliverableOf(f);
    hide Streams.OneMark, Streams.Deliverable;
    if r.status == Running {
      Streams.ReceiverHandlesFrame(r, store, noise, f, []);
      assert noise + FrameBytes(f) + [] == noise + FrameBytes(f);
      var step := Streams.ReceiverHearing(r, store, a);
      Streams.FedNothing(step.r, step.store);
      assert step.out + [] == step.out;
    } else if r.status == Done {
      Streams.DoneHandlesFrame(r, store, noise, f);
    }
  }

  lemma ReceiverKeepsAnswers(c: Setup, r: ReceiverState, store: StoreState, h: seq<Record>, e: nat, stopped: bool)
    requires ReceiverSide.ReceiverOk(c, r, store, h, e, stopped)
    ensures Tallies.KeepsAnswers(r)
  {
    hide ReceiverSide.CountsOk, ReceiverSide.WishOk, ReceiverSide.StateAfter, LinkState.Agree, MadeBy, Block;
  }

  /** In every reachable state the receiver may be fed in pieces exactly where it refuses nothing too soon. */
  lemma ReachedIsFedInPieces(c: Setup, events: seq<Event>, a: seq<byte>)
    ensures var y := Exec(c, events);
            (forall b :: Streams.FedTogether(y.r, y.store, a, b)) <==> Streams.NeverUndercounts(y.r, y.store, a)
  {
    hide Exec, Good, SenderSide.SenderOk, ReceiverSide.ReceiverOk, LinesOk, EmittedOk;
    hide Streams.FedTogether, Streams.NeverUndercounts, Tallies.KeepsAnswers;
    var y := Exec(c, events);
    AlwaysGood(c, events);
    GoodIs(c, y);
    AcceptedInHistory(c, y.r, y.store, y.history, y.accepted, y.receiverStopped);
    ReceiverKeepsAnswers(c, y.r, y.store, y.history, y.accepted, y.receiverStopped);
    Streams.ReceiverFeedsInPieces(y.r, y.store, a);
  }

  /** And what a run has sent towards the receiver it may be fed in any pieces. */
  lemma SentIsFedInPieces(c: Setup, events: seq<Event>, fs: seq<Frame>, k: nat, b: seq<byte>)
    requires Unmarked(c) && k <= |LineBytes(fs)|
    requires forall f | f in fs :: exists i :: 0 <= i < |Exec(c, events).history| && Exec(c, events).history[i].frame == f
    ensures var y := Exec(c, events); Streams.FedTogether(y.r, y.store, LineBytes(fs)[..k], b)
  {
    hide Exec, Good, SenderSide.SenderOk, ReceiverSide.ReceiverOk, Chain, Streams.OneMark, LineBytes, Streams.FedTogether;
    hide Unmarked, LinesOk, EmittedOk;
    var y := Exec(c, events);
    AlwaysGood(c, events);
    GoodIs(c, y);
    HistoryIsNotEmpty(c, y.s, y.src, y.history);
    forall f | f in fs ensures Streams.OneMark(f) {
      var i :| 0 <= i < |y.history| && y.history[i].frame == f;
      RecordHasOneMark(c, y.history, i);
    }
    Streams.BuiltIsFedInPieces(y.r, y.store, fs, k, b);
  }

  lemma NothingMore(s: SenderState, src: SourceState)
    ensures Streams.SenderFeed(s, src, []) == Streams.SenderFed(s, src, [], [])
  {
    hide SenderHandle;
    Streams.TakeIsRead([], s.link.CheckUsed());
  }

  lemma OneMore(c: Setup, events: seq<Event>, ev: Event)
    ensures Exec(c, events + [ev]) == Apply(c, Exec(c, events), ev)
  {
    hide Apply;
    assert (events + [ev])[..|events|] == events;
  }
}

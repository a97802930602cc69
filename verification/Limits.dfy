/**
 Where a transfer's promises end: runs whose sender is done although not every
 file was kept, and what is left of files when no data fits in a packet.
 */
module Limits {
  import opened Options
  import opened Bytes
  import opened Checks
  import opened Packets
  import opened Parameters
  import opened Protocol
  import opened History
  import opened Network
  import opened Steps
  import opened Liveness
  import Attributes
  import Data
  import Text
  import Sizes
  import SenderSide
  import ReceiverSide
  import Theorems
  import Outcomes

  /** A transfer on its way whose first file has not ended. */
  ghost predicate InFirstFile(c: Setup, y: System, kind: Kind) {
    && Good(c, y) && Outstanding(y) && !y.senderStopped && !y.receiverStopped
    && Last(y.history).Kind() == kind && Last(y.history).begun == 1 && (kind != Kind.Data ==> Last(y.history).sent == 0)
  }

  lemma StartIsOutstanding(c: Setup)
    ensures Good(c, Start(c)) && Outstanding(Start(c)) && !Start(c).senderStopped && !Start(c).receiverStopped
    ensures Last(Start(c).history).Kind() == SendInit && Last(Start(c).history).begun == 0
        && Last(Start(c).history).sent == 0
  {
    hide Good, Block;
    StartIsGood(c);
  }

  /** With a file to send, the first exchange begins it. */
  lemma FirstExchange(c: Setup)
    requires Willing(c) && |c.files| > 0
    ensures InFirstFile(c, ExecFrom(c, Start(c), Exchange(Nothing, Nothing)), File)
  {
    hide Good, Willing, ExecFrom, Start, SenderSide.SenderOk, ReceiverSide.ReceiverOk, Outstanding;
    hide Setup.NameData, Follows, LinesOk, EmittedOk;
    var y, z := Start(c), ExecFrom(c, Start(c), Exchange(Nothing, Nothing));
    StartIsOutstanding(c);
    StillRuns(c, y, z);
    var a, b := Last(y.history), Last(z.history);
    assert b.Kind() == File || b.Kind() == Break by { ReceiverSide.KindFollows(c, a, b); AfterInit(c, a, b); }
    if b.Kind() == Break {
      GoodIs(c, z);
      Theorems.CancellingIsAsked(c, z);
      OutstandingRuns(z);
      KindIsState(c, z.s, z.src, z.history);
      ReceiverSide.BreakFollows(c, a, b);
      BreakBeginsNothing(c, a, b);
      BreakIsSent(z.s.state);
    } else {
      ReceiverSide.FileFollows(c, a, b);
    }
  }

  lemma BreakIsSent(state: Sending)
    ensures SenderSide.KindSent(state) == Break ==> state == SendingBreak
    ensures SenderSide.KindSent(state) == Kind.Data ==> state == SendingData
    ensures state == SendingBreak ==> SenderSide.KindSent(state) == Break
  {
  }

  lemma AfterInit(c: Setup, a: Record, b: Record)
    requires Follows(c, a, b) && a.Kind() == SendInit
    ensures b.Kind() == File || b.Kind() == Break
  {
  }

  lemma BreakBeginsNothing(c: Setup, a: Record, b: Record)
    requires Follows(c, a, b) && b.Kind() == Break
    ensures b.begun == a.begun
  {
  }

  /** An exchange short of the last leaves the next packet on its way, and it follows the one before. */
  lemma StillRuns(c: Setup, y: System, z: System)
    requires Good(c, y) && Willing(c) && Outstanding(y) && Last(y.history).Kind() != Break
    requires z == ExecFrom(c, y, Exchange(Nothing, Nothing))
    ensures Good(c, z) && Outstanding(z) && SameWishes(y, z) && z.accepted == Waiting(z)
    ensures y.history != [] && z.history == y.history + [Last(z.history)] && Follows(c, Last(y.history), Last(z.history))
  {
    hide Good, Willing, ExecFrom, SenderSide.SenderOk, ReceiverSide.ReceiverOk, Follows, Chain, LinesOk;
    hide EmittedOk, Acknowledged;
    var data := ExchangeAdvances(c, y, Nothing, Nothing);
    GoodIs(c, y);
    GoodIs(c, z);
    KindIsState(c, y.s, y.src, y.history);
    BreakIsSent(y.s.state);
    HistoryIsNotEmpty(c, z.s, z.src, z.history);
    LastFollows(c, y.history, z.history);
  }

  lemma LastFollows(c: Setup, h: seq<Record>, h': seq<Record>)
    requires h != [] && h <= h' && |h'| == |h| + 1 && Chain(c, h')
    ensures h' == h + [Last(h')] && Follows(c, Last(h), Last(h'))
  {
    hide Follows;
    assert Follows(c, h'[|h| - 1], h'[|h|]);
    assert h'[..|h|] == h;
  }

  /** A file that is not empty is not ended before any of it is sent. */
  lemma NextInFirstFile(c: Setup, y: System, kind: Kind)
    requires c.Sound() && Willing(c) && |c.files| > 0 && c.OnLine(0) != []
    requires InFirstFile(c, y, kind) && (kind == File || kind == Kind.Attributes)
    ensures var z := ExecFrom(c, y, Exchange(Nothing, Nothing));
            InFirstFile(c, z, Kind.Data) || (kind == File && InFirstFile(c, z, Kind.Attributes))
  {
    hide Good, Willing, ExecFrom, SenderSide.SenderOk, Outstanding, Setup.OnLine, Setup.Sound, NoneDiscarded;
    var z := ExecFrom(c, y, Exchange(Nothing, Nothing));
    StillRuns(c, y, z);
    var a, b := Last(y.history), Last(z.history);
    ReceiverSide.KindFollows(c, a, b);
    ReceiverSide.MidFollows(c, a, b);
    GoodIs(c, z);
    Theorems.CancellingIsAsked(c, z);
    if b.Kind() == EndOfFile {
      NoneDiscardedAt(c, z);
    }
    if b.Kind() == Kind.Attributes {
      ReceiverSide.AttributesFollow(c, a, b);
    }
  }

  lemma NoneDiscardedAt(c: Setup, z: System)
    requires SenderSide.SenderOk(c, z.s, z.src, z.history) && !z.s.cancelling
    ensures z.history != [] && !EndsDiscarded(Last(z.history)) && NoneDiscarded(z.history)
  {
    hide Chain, SenderSide.LinkOk, SenderSide.RunningOk, Wholes;
  }

  /** A run to where the first data packet is on its way. */
  lemma ReachesData(c: Setup) returns (events: seq<Event>)
    requires c.Sound() && Willing(c) && |c.files| > 0 && c.OnLine(0) != []
    ensures InFirstFile(c, ExecFrom(c, Start(c), events), Kind.Data)
  {
    hide ExecFrom, InFirstFile, Start, Willing, Setup.Sound, Setup.OnLine;
    var x := Exchange(Nothing, Nothing);
    FirstExchange(c);
    var y1 := ExecFrom(c, Start(c), x);
    NextInFirstFile(c, y1, File);
    var y2 := ExecFrom(c, y1, x);
    RunsOn(c, Start(c), x, x);
    if InFirstFile(c, y2, Kind.Data) {
      events := x + x;
    } else {
      NextInFirstFile(c, y2, Kind.Attributes);
      events := x + (x + x);
      RunsOn(c, Start(c), x, x + x);
      RunsOn(c, y1, x, x);
    }
  }

  /** A sender asked to stop ends its file marked discard, and then the batch. */
  lemma CancelledEnds(s: SenderState, src: SourceState, data: seq<byte>)
    requires s.status == Running && s.cancelling
    ensures var t := Acknowledged(s, src, data).s;
            && t.cancelling
            && (s.state == SendingData ==> t.state == SendingEnd && t.discarding)
            && (s.state == SendingEnd ==> t.state == SendingBreak)
  {
    hide SendData, NextFile, Attributes.Built, ReadBlock, LinkState.Agree;
  }

  /** The sender's user stops while data is on its way. */
  lemma StopsInData(c: Setup, y: System)
    requires Good(c, y) && Outstanding(y) && y.s.state == SendingData && !y.s.cancelling
    ensures var z := Apply(c, y, UserStops(Forth));
            && Good(c, z) && Outstanding(z) && z.history == y.history && z.receiverStopped == y.receiverStopped
            && z.s == y.s.(cancelling := true)
  {
    hide Good;
    ApplyIsGood(c, y, UserStops(Forth));
    assert y.forth + [] == y.forth;
  }

  /** A file that has begun and not ended counts for nothing. */
  lemma FirstFileUncounted(c: Setup, y: System)
    requires InFirstFile(c, y, Kind.Data)
    ensures Wholes(y.history) == 0 && y.s.state == SendingData && !y.s.cancelling
  {
    hide Good, SenderSide.SenderOk, ReceiverSide.ReceiverOk, LinesOk, EmittedOk, NoneDiscarded, Chain, Wholes;
    GoodIs(c, y);
    Theorems.CancellingIsAsked(c, y);
    KindIsState(c, y.s, y.src, y.history);
    BreakIsSent(y.s.state);
    NoneDiscardedAt(c, y);
    HistoryIsNotEmpty(c, y.s, y.src, y.history);
    assert y.history[..|y.history|] == y.history;
    WholesCount(c, y.history, |y.history|);
    ReceiverSide.EndedByMid(Last(y.history));
  }

  /** One more packet that ends no file whole leaves the count. */
  lemma UncountedOneMore(h: seq<Record>, h': seq<Record>)
    requires h != [] && h' != [] && h' == h + [Last(h')] && !EndsWhole(Last(h'))
    ensures Wholes(h') == Wholes(h)
  {
    SenderSide.WholesLast(h');
    assert h'[..|h'| - 1] == h;
  }

  /** A sender asked to stop whose file is not to count. */
  ghost predicate Giving(c: Setup, y: System) {
    && Good(c, y) && Outstanding(y) && y.s.cancelling
    && (y.s.state == SendingData || (y.s.state == SendingEnd && y.s.discarding))
  }

  /** It goes on to the end of the file, and to the end of the batch. */
  lemma GivingGoesOn(c: Setup, y: System)
    requires Giving(c, y) && Willing(c)
    ensures var z := ExecFrom(c, y, Exchange(Nothing, Nothing));
            && Good(c, z) && Outstanding(z) && SameWishes(y, z) && Wholes(z.history) == Wholes(y.history)
            && (if y.s.state == SendingData then Giving(c, z) && z.s.state == SendingEnd else z.s.state == SendingBreak)
  {
    hide Good, Willing, ExecFrom, SenderSide.SenderOk, ReceiverSide.ReceiverOk, LinesOk, EmittedOk;
    hide Outstanding, Acknowledged, Wholes, Chain, Follows, Block;
    var z := ExecFrom(c, y, Exchange(Nothing, Nothing));
    OutstandingRuns(y);
    GoodIs(c, y);
    KindIsState(c, y.s, y.src, y.history);
    var data := ExchangeAdvances(c, y, Nothing, Nothing);
    CancelledEnds(y.s, y.src, data);
    StillRuns(c, y, z);
    GoodIs(c, z);
    OutstandingRuns(z);
    KindIsState(c, z.s, z.src, z.history);
    if y.s.state == SendingData {
      EndIsDiscarded(c, z.s, z.src, z.history);
    }
    UncountedOneMore(y.history, z.history);
  }

  lemma EndIsDiscarded(c: Setup, s: SenderState, src: SourceState, h: seq<Record>)
    requires SenderSide.SenderOk(c, s, src, h) && s.status == Running && s.state == SendingEnd && s.discarding
    ensures h != [] && !EndsWhole(Last(h))
  {
    hide Chain, SenderSide.FileOk, NoneDiscarded, Wholes, SenderSide.LinkOk;
  }

  /**
   A sender can be done with nothing kept: its user stops in the first file,
   the file's end tells the receiver to discard it, and the answers to the last packet are
   lost until the retries run out, which the program reports as done rather than
   cancelled. What module `Theorems` says of a sender that is done therefore
   needs its user not to have stopped.
   */
  lemma DoneThoughStopped(c: Setup) returns (events: seq<Event>)
    requires c.Sound() && Willing(c) && Patient(c) && |c.files| > 0 && c.files[0].content != []
    ensures var z := Exec(c, events);
            && z.s.status == Done && !z.receiverStopped
            && z.s.progress.files == 0 && ReceiverSide.Complete(z.store.files) == []
  {
    hide Exec, ExecFrom, Start, Good, Willing, Setup.Sound, Outstanding, Setup.OnLine, Apply;
    hide SenderSide.SenderOk, ReceiverSide.ReceiverOk, Wholes;
    FirstNotEmpty(c);
    var toData := ReachesData(c);
    var y := ExecFrom(c, Start(c), toData);
    FirstFileUncounted(c, y);
    StopsInData(c, y);
    var y1 := Apply(c, y, UserStops(Forth));
    var x := Exchange(Nothing, Nothing);
    GivingGoesOn(c, y1);
    GivingGoesOn(c, ExecFrom(c, y1, x));
    var y3 := ExecFrom(c, ExecFrom(c, y1, x), x);
    OutstandingRuns(y3);
    var last := GivesUp(c, y3);
    events := toData + ([UserStops(Forth)] + (x + (x + last)));
    var z := ExecFrom(c, y3, last);
    RunsOn(c, Start(c), toData, [UserStops(Forth)] + (x + (x + last)));
    FirstEvent(c, y, UserStops(Forth), x + (x + last));
    RunsOn(c, y1, x, x + last);
    RunsOn(c, ExecFrom(c, y1, x), x, last);
    ExecContinues(c, [], events);
    assert [] + events == events && Exec(c, []) == Start(c) by { ExecStart(c); }
    Theorems.DoneMeansDelivered(c, events);
    GoodIs(c, z);
    DoneCount(c, z.s, z.src, z.history);
  }

  lemma DoneCount(c: Setup, s: SenderState, src: SourceState, h: seq<Record>)
    requires SenderSide.SenderOk(c, s, src, h) && s.status == Done
    ensures s.progress.files == Wholes(h)
  {
    hide Chain, SenderSide.LinkOk, SenderSide.RunningOk, NoneDiscarded, Wholes;
  }

  lemma ExecStart(c: Setup)
    ensures Exec(c, []) == Start(c)
  {
  }

  lemma FirstNotEmpty(c: Setup)
    requires |c.files| > 0 && c.files[0].content != []
    ensures c.OnLine(0) != []
  {
    hide Setup.ModeOf;
  }

  // ------------------------------------------------------------------
  // A file thrown away on a perfect line
  // ------------------------------------------------------------------

  /** The end of the last file is on its way, and nobody has stopped. */
  ghost predicate LastEndIsOut(c: Setup, y: System) {
    && Good(c, y) && Outstanding(y) && !y.senderStopped && !y.receiverStopped && y.accepted == Waiting(y)
    && Last(y.history).Kind() == EndOfFile && Last(y.history).begun == |c.files|
  }

  /** Nothing is lost, spoiled or delayed, and nobody's wait runs out. */
  predicate OnlyDelivered(events: seq<Event>) { forall e | e in events :: e.Delivered? }

  /** Exchange after exchange the last file comes to its end. */
  lemma {:induction false} ReachesEnd(c: Setup, y: System) returns (events: seq<Event>)
    requires Willing(c) && |c.files| > 0 && Good(c, y) && Outstanding(y) && y.accepted == Waiting(y)
    requires !y.senderStopped && !y.receiverStopped && Last(y.history).Kind() != Break
    ensures LastEndIsOut(c, ExecFrom(c, y, events)) && OnlyDelivered(events)
    decreases 2 + Budget(c, |c.files|) - |y.history|
  {
    hide Good, Willing, Apply, ExecFrom, SenderSide.SenderOk, ReceiverSide.ReceiverOk, Budget, Chain, Outstanding, Follows;
    if Last(y.history).Kind() == EndOfFile && Last(y.history).begun == |c.files| {
      events := [];
      ExecNothing(c, y);
    } else {
      var x := Exchange(Nothing, Nothing);
      var z := ExecFrom(c, y, x);
      StillRuns(c, y, z);
      NotYetLast(c, y, z);
      GoodIs(c, z);
      HistoryIsNotEmpty(c, z.s, z.src, z.history);
      HistoryIsShort(c, z.history, |z.history| - 1);
      var rest := ReachesEnd(c, z);
      events := x + rest;
      RunsOn(c, y, x, rest);
    }
  }

  /** Only the end of the last file is followed by the end of the batch, when nobody stops. */
  lemma NotYetLast(c: Setup, y: System, z: System)
    requires Good(c, z) && Outstanding(z) && !z.senderStopped && !z.receiverStopped && |c.files| > 0
    requires y.history != [] && z.history == y.history + [Last(z.history)] && Follows(c, Last(y.history), Last(z.history))
    requires Last(y.history).Kind() == EndOfFile ==> Last(y.history).begun != |c.files|
    ensures Last(z.history).Kind() != Break
  {
    hide Good, SenderSide.SenderOk, ReceiverSide.ReceiverOk, Outstanding, LinesOk, EmittedOk, Follows, Chain;
    var a, b := Last(y.history), Last(z.history);
    if b.Kind() == Break {
      GoodIs(c, z);
      OutstandingRuns(z);
      Theorems.CancellingIsAsked(c, z);
      KindIsState(c, z.s, z.src, z.history);
      BreakIsSent(z.s.state);
      BreakBeginsNothing(c, a, b);
      ReceiverSide.BreakFollows(c, a, b);
      HistoryIsNotEmpty(c, z.s, z.src, z.history);
      assert z.history[|y.history| - 1] == a;
      HistoryIsShort(c, z.history, |y.history| - 1);
    }
  }

  /** The receiver's user stops inside a file. */
  lemma StopsInFile(c: Setup, y: System)
    requires Good(c, y) && Outstanding(y) && y.r.status == Running && y.r.state == AwaitData && !y.r.cancelling
    ensures var z := Apply(c, y, UserStops(Back));
            && Good(c, z) && Outstanding(z) && z == y.(r := y.r.(cancelling := true), receiverStopped := true)
  {
    hide Good;
    ApplyIsGood(c, y, UserStops(Back));
    assert y.back + [] == y.back;
  }

  /** At the end of the last file both ends are inside it, and every file before it is kept. */
  lemma AtLastEnd(c: Setup, y: System)
    requires LastEndIsOut(c, y)
    ensures y.r.status == Running && y.r.state == AwaitData && !y.r.cancelling && !y.s.cancelling
    ensures y.s.state == SendingEnd && |c.files| > 0
    ensures |ReceiverSide.Complete(y.store.files)| == |c.files| - 1
  {
    hide Good, SenderSide.SenderOk, ReceiverSide.ReceiverOk, LinesOk, EmittedOk, Chain, ReceiverSide.Complete, Follows;
    GoodIs(c, y);
    HistoryIsNotEmpty(c, y.s, y.src, y.history);
    Theorems.CancellingIsAsked(c, y);
    KindIsState(c, y.s, y.src, y.history);
    BreakIsSent(y.s.state);
    KeepsUnlessAsked(c, y);
    var h, e := y.history, y.accepted;
    if e == 0 {
      BeginsIsFirst(c, h);
    } else {
      EndFollowsFile(c, h, e);
      InsideFile(c, y.r, y.store, h, e);
    }
  }

  lemma BeginsIsFirst(c: Setup, h: seq<Record>)
    requires Chain(c, h)
    ensures h[0].Kind() == SendInit
  {
    BeginsIsInit(c, h[0]);
  }

  lemma EndFollowsFile(c: Setup, h: seq<Record>, e: nat)
    requires Chain(c, h) && 0 < e < |h| && h[e].Kind() == EndOfFile
    ensures h[e - 1].Kind() == File || h[e - 1].Kind() == Kind.Attributes || h[e - 1].Kind() == Kind.Data
    ensures h[e - 1].begun == h[e].begun > 0
  {
    hide Follows;
    assert Follows(c, h[e - 1], h[e]);
    ReceiverSide.MidFollows(c, h[e - 1], h[e]);
  }

  lemma InsideFile(c: Setup, r: ReceiverState, store: StoreState, h: seq<Record>, e: nat)
    requires 0 < e < |h| && ReceiverSide.ReceiverOk(c, r, store, h, e, false) && !r.cancelling
    requires r.status == Running || r.status == Done
    requires h[e - 1].Kind() == File || h[e - 1].Kind() == Kind.Attributes || h[e - 1].Kind() == Kind.Data
    requires h[e - 1].begun > 0
    ensures r.status == Running && r.state == AwaitData
    ensures |ReceiverSide.Complete(store.files)| == h[e - 1].begun - 1
  {
    hide ReceiverSide.CountsOk, ReceiverSide.LinkAfter, ReceiverSide.AnswerTo, ReceiverSide.ContentOk;
    hide ReceiverSide.Complete, NoneDiscarded, Setup.Sound;
  }

  /** The answer to the end of the last file makes the sender count it and end the batch; the answer to that, be done. */
  lemma EndTaken(c: Setup, y: System)
    requires Good(c, y) && Willing(c) && Outstanding(y) && y.s.state == SendingEnd && !y.s.cancelling
    requires Last(y.history).begun == |c.files|
    ensures var z := ExecFrom(c, y, Exchange(Nothing, Nothing));
            && Good(c, z) && Outstanding(z) && !z.s.cancelling && z.s.state == SendingBreak && SameWishes(y, z)
  {
    hide Good, Willing, ExecFrom, SenderSide.SenderOk, ReceiverSide.ReceiverOk, LinesOk, EmittedOk;
    hide Acknowledged, Chain, Follows, Block;
    var z := ExecFrom(c, y, Exchange(Nothing, Nothing));
    GoodIs(c, y);
    KindIsState(c, y.s, y.src, y.history);
    var data := ExchangeAdvances(c, y, Nothing, Nothing);
    SenderSide.AcknowledgedCancelling(c, y.s, y.src, y.history, data);
    BreakIsSent(y.s.state);
    StillRuns(c, y, z);
    var a, b := Last(y.history), Last(z.history);
    GoodIs(c, z);
    KindIsState(c, z.s, z.src, z.history);
    AfterEnd(c, a, b);
    if b.Kind() == File {
      ReceiverSide.FileFollows(c, a, b);
    }
    SentBreak(z.s.state);
  }

  lemma AfterEnd(c: Setup, a: Record, b: Record)
    requires Follows(c, a, b) && a.Kind() == EndOfFile
    ensures b.Kind() == File || b.Kind() == Break
  {
  }

  lemma SentBreak(state: Sending)
    ensures SenderSide.KindSent(state) == Break <==> state == SendingBreak
  {
  }

  /** The last exchange of a sender that means to send. */
  lemma BatchEnds(c: Setup, y: System)
    requires Good(c, y) && Willing(c) && Outstanding(y) && y.s.state == SendingBreak && !y.s.cancelling
    ensures var z := ExecFrom(c, y, Exchange(Nothing, Nothing));
            z.s.status == Done && !z.s.cancelling && z.r.status == EndsAs(y.r) && SameWishes(y, z)
  {
    hide Good, Willing, ExecFrom, SenderSide.SenderOk, ReceiverSide.ReceiverOk, Outstanding, Acknowledged;
    hide LinesOk, EmittedOk;
    var data := ExchangeAdvances(c, y, Nothing, Nothing);
    GoodIs(c, y);
    OutstandingRuns(y);
    SenderSide.AcknowledgedCancelling(c, y.s, y.src, y.history, data);
  }

  /**
   On a line that loses nothing a file can be thrown away and counted as sent:
   its last data has arrived, the receiver's user stops, and then its end
   arrives, which the receiver answers as it would any other. The sender is
   done, by an ordinary answer to its last packet, and counts every file; the
   receiver, stopped, has kept all but the last.
   */
  lemma ThrownAwayOnAPerfectLine(c: Setup) returns (before: seq<Event>, after: seq<Event>)
    requires Willing(c) && |c.files| > 0
    ensures OnlyDelivered(before) && OnlyDelivered(after)
    ensures var z := Exec(c, before + ([UserStops(Back)] + after));
            && z.s.status == Done && z.s.progress.files == |c.files|
            && z.r.status == Cancelled && |ReceiverSide.Complete(z.store.files)| == |c.files| - 1
  {
    hide Exec, ExecFrom, Start, Good, Willing, Outstanding, Apply, SenderSide.SenderOk, ReceiverSide.ReceiverOk;
    hide LastEndIsOut, ReceiverSide.Complete, Wholes, OnlyDelivered;
    var x := Exchange(Nothing, Nothing);
    StartIsOutstanding(c);
    StartAccepted(c);
    before := ReachesEnd(c, Start(c));
    after := x + x;
    assert OnlyDelivered(after) by { ExchangesDeliver(); }
    var y := ExecFrom(c, Start(c), before);
    AtLastEnd(c, y);
    LastEndMeans(c, y);
    StopsInFile(c, y);
    var y1 := Apply(c, y, UserStops(Back));
    EndTaken(c, y1);
    var y2 := ExecFrom(c, y1, x);
    BatchEnds(c, y2);
    var all := before + ([UserStops(Back)] + after);
    ExecContinues(c, [], before);
    assert [] + before == before && Exec(c, []) == Start(c) by { ExecStart(c); }
    ExecContinues(c, before, [UserStops(Back)] + after);
    FirstEvent(c, y, UserStops(Back), after);
    RunsOn(c, y1, x, x);
    var z := Exec(c, all);
    assert z == ExecFrom(c, y2, x);
    Outcomes.StoppedExactly(c, before, after);
    StaysStopped(c, before, y1, y2);
    DoneUnstopped(c, all);
  }

  lemma StartAccepted(c: Setup)
    ensures Start(c).accepted == Waiting(Start(c))
  {
    hide Block;
  }

  lemma LastEndMeans(c: Setup, y: System)
    requires LastEndIsOut(c, y)
    ensures Good(c, y) && Outstanding(y) && Last(y.history).begun == |c.files|
  {
    hide Good, Outstanding;
  }

  lemma ExchangesDeliver()
    ensures var x := Exchange(Nothing, Nothing); OnlyDelivered(x + x)
  {
  }

  /** The wish to stop is still there at the end of the batch. */
  lemma StaysStopped(c: Setup, before: seq<Event>, y1: System, y2: System)
    requires y1 == Apply(c, Exec(c, before), UserStops(Back)) && y1.r.cancelling
        && y2 == ExecFrom(c, y1, Exchange(Nothing, Nothing))
    ensures EndsAs(y2.r) == Cancelled
  {
    hide Exec, ExecFrom, Apply;
    var x, first := Exchange(Nothing, Nothing), before + [UserStops(Back)];
    assert Exec(c, first) == y1 by { OneEvent(c, before, UserStops(Back)); }
    ExecContinues(c, first, x);
    Outcomes.StoppedKeepsNoMore(c, first, x);
  }

  lemma OneEvent(c: Setup, before: seq<Event>, e: Event)
    ensures Exec(c, before + [e]) == Apply(c, Exec(c, before), e)
  {
    hide Apply;
    assert (before + [e])[..|before|] == before;
  }

  /** Unless the sender ends a file marked discard, being done it counts every one it began. */
  lemma DoneUnstopped(c: Setup, events: seq<Event>)
    requires Exec(c, events).s.status == Done && !Exec(c, events).s.cancelling
    ensures Exec(c, events).s.progress.files == |c.files|
  {
    hide Exec, Good, SenderSide.SenderOk, ReceiverSide.ReceiverOk, Chain, Wholes, NoneDiscarded, LinesOk, EmittedOk;
    var y := Exec(c, events);
    AlwaysGood(c, events);
    GoodIs(c, y);
    Outcomes.DoneKnows(c, y.s, y.src, y.history);
    Outcomes.EndsCount(c, y.history);
    NothingDiscarded(c, y.s, y.src, y.history);
    DoneBegan(c, y.s, y.src, y.history);
  }

  lemma DoneBegan(c: Setup, s: SenderState, src: SourceState, h: seq<Record>)
    requires SenderSide.SenderOk(c, s, src, h) && s.status == Done && !s.cancelling
    ensures src.at == |c.files|
  {
    hide Chain, SenderSide.LinkOk, SenderSide.RunningOk, NoneDiscarded, Wholes;
  }

  // ------------------------------------------------------------------
  // No room
  // ------------------------------------------------------------------

  /** Nothing in the store, and no carriage return held back for it. */
  ghost predicate Bare(r: ReceiverState, store: StoreState) {
    && (forall f | f in store.files :: f.content == [])
    && (store.open.Some? ==> store.open.value.content == [])
    && !r.held
  }

  lemma HandlingBare(r: ReceiverState, store: StoreState, p: Packet)
    requires Bare(r, store) && p.kind != Kind.Data
    ensures var step := ReceiverHandle(r, store, p); Bare(step.r, step.store)
  {
    hide Data.Decode, Attributes.ReadAll, Wording, LinkState.ErrorFrame, LinkState.Agree, ReadBlock, Block;
    hide OnSendInit, OnFile, OnBreak, OnAttributes, OnEndOfFile, OnData, ReceiverFail;
    FailingBare(r, store, BothReceiving);
    FailingBare(r, store, Unexpected(p.kind));
    StoppingBare(r, store, Failed(FarEnd(Data.Decode(p.data, r.link.ReadsWith().Quoting()))), []);
    FileBare(r, store, p);
    OthersBare(r, store, p);
    EndBare(r, store, p);
  }

  lemma StoppingBare(r: ReceiverState, store: StoreState, status: Status, out: seq<Frame>)
    requires Bare(r, store)
    ensures var step := ReceiverStop(r, store, status, out); Bare(step.r, step.store)
  {
  }

  lemma FailingBare(r: ReceiverState, store: StoreState, reason: Reason)
    requires Bare(r, store)
    ensures var step := ReceiverFail(r, store, reason); Bare(step.r, step.store)
  {
    hide Wording, LinkState.ErrorFrame;
    StoppingBare(r, store, Failed(reason), [r.link.ErrorFrame(r.expected, Wording(reason))]);
  }

  lemma FileBare(r: ReceiverState, store: StoreState, p: Packet)
    requires Bare(r, store)
    ensures var step := OnFile(r, store, p); Bare(step.r, step.store)
  {
    hide Data.Decode, ReceiverFail;
    var sent := Data.Decode(p.data, r.link.ReadsWith().Quoting());
    FailingBare(r, store, BadName(sent));
    if r.settings.nameFor(sent).Some? && store.Refuses() {
      FailingBare(r, store.Create(r.settings.nameFor(sent).value), StoreFailed(store.refusals[store.ops]));
    }
  }

  lemma OthersBare(r: ReceiverState, store: StoreState, p: Packet)
    requires Bare(r, store)
    ensures var step := OnSendInit(r, store, p); Bare(step.r, step.store)
    ensures var step := OnBreak(r, store, p); Bare(step.r, step.store)
    ensures var step := OnAttributes(r, store, p); Bare(step.r, step.store)
  {
    hide Attributes.ReadAll, LinkState.Agree, ReadBlock, Block;
  }

  lemma EndBare(r: ReceiverState, store: StoreState, p: Packet)
    requires Bare(r, store)
    ensures var step := OnEndOfFile(r, store, p); Bare(step.r, step.store)
  {
    hide ReceiverFail, Bare, AckStep;
    var cancelling := r.cancelling || (p.data != [] && p.data[0] == 68);
    var r1 := r.(cancelling := cancelling);
    NothingHeld(r, store, cancelling);
    EndedBare(r1, store, p, !cancelling);
    EndedBare(r1.(held := false), store, p, true);
  }

  lemma NothingHeld(r: ReceiverState, store: StoreState, cancelling: bool)
    requires Bare(r, store)
    ensures !r.held && Text.Finish(r.held) == [] && Bare(r.(cancelling := cancelling), store)
        && Bare(r.(cancelling := cancelling, held := false), store)
  {
  }

  lemma EndedBare(r: ReceiverState, store: StoreState, p: Packet, keep: bool)
    requires Bare(r, store)
    ensures var step := Ended(r, store, p, keep); Bare(step.r, step.store)
  {
    hide ReceiverFail;
    if store.Refuses() {
      FailingBare(r.(open := false), store.Finish(keep), StoreFailed(store.refusals[store.ops]));
    }
  }

  lemma ToldBare(c: Setup, y: System, m: Message, misread: Arrival)
    requires Good(c, y) && m in y.forth && Bare(y.r, y.store) && c.Room() == 0
    ensures var step := ReceiverTold(y.r, y.store, HeardAs(m, ChecksNow(y.r), misread)); Bare(step.r, step.store)
  {
    hide Good, ReceiverHandle, Bare, SenderSide.SenderOk, ReceiverSide.ReceiverOk, EmittedOk, Chain;
    GoodIs(c, y);
    var a := HeardAs(m, ChecksNow(y.r), misread);
    if a.Arrived? {
      HeardIsWhole(m, ChecksNow(y.r), misread);
      assert ForthOk(m, y.history);
      HistoryIsNotEmpty(c, y.s, y.src, y.history);
      NoData(c, y.history);
      HandlingBareOrIdle(y.r, y.store, a.packet);
    }
  }

  lemma HandlingBareOrIdle(r: ReceiverState, store: StoreState, p: Packet)
    requires Bare(r, store) && p.kind != Kind.Data
    ensures var step := ReceiverHears(r, store, p); Bare(step.r, step.store)
  {
    hide ReceiverHandle, Bare;
    HandlingBare(r, store, p);
  }

  /** With no room a history holds no data. */
  lemma NoData(c: Setup, h: seq<Record>)
    requires Chain(c, h) && c.Room() == 0
    ensures forall i | 0 <= i < |h| :: h[i].Kind() != Kind.Data
  {
    hide Setup.Room;
    forall i | 0 <= i < |h| ensures h[i].Kind() != Kind.Data {
      if i == 0 {
        BeginsIsInit(c, h[0]);
      } else {
        assert Follows(c, h[i - 1], h[i]);
      }
    }
  }

  lemma EventBare(c: Setup, y: System, ev: Event)
    requires Good(c, y) && Bare(y.r, y.store) && c.Room() == 0
    ensures Bare(Apply(c, y, ev).r, Apply(c, y, ev).store)
  {
    hide Good, Bare, MayDeliver, HeardAs, ChecksNow, ReceiverTold, ReceiverTick, ReceiverCancel, AfterSender;
    hide SenderTold, SenderTick, SenderCancel;
    hide AnswersLabelled, Setup.Room;
    if ev.Delivered? && ev.way.Forth? && MayDeliver(c, y, Forth, ev.at) {
      Sizes.OnTheLine(c, y, Forth, ev.at);
      ToldBare(c, y, y.forth[ev.at], ev.misread);
    }
    OwnBare(y.r, y.store);
    SenderLeavesReceiver(c, y);
  }

  lemma OwnBare(r: ReceiverState, store: StoreState)
    requires Bare(r, store)
    ensures Bare(ReceiverTick(r, store).r, ReceiverTick(r, store).store)
    ensures Bare(ReceiverCancel(r, store).r, ReceiverCancel(r, store).store)
  {
    hide ReceiverFail, ReceiverStop, LinkState.ErrorFrame;
    var reason := if r.state == AwaitFile && r.progress.files > 0 then NothingMore(r.progress.files) else NothingArrived;
    FailingBare(r.(link := r.link.Retry()), store, reason);
    StoppingBare(r, store, Cancelled, [r.link.ErrorFrame(r.expected, CANCELLED_WORDING)]);
  }

  lemma SenderLeavesReceiver(c: Setup, y: System)
    ensures forall y1: System, step :: AfterSender(y1, step).r == y1.r && AfterSender(y1, step).store == y1.store
  {
  }

  /**
   Where packets have no room for any data none is ever sent, and every file
   arrives empty, complete or not, whatever was in it: the program goes on to
   the end of the file unread, and a sender that is done counts it as sent.
   With any room at all, `Theorems.FilesArrive` holds.
   */
  lemma {:induction false} NothingFits(c: Setup, events: seq<Event>)
    requires c.Room() == 0
    ensures var y := Exec(c, events);
            && (forall i | 0 <= i < |y.history| :: y.history[i].Kind() != Kind.Data)
            && (forall f | f in y.store.files :: f.content == [])
            && Bare(y.r, y.store)
    decreases |events|
  {
    hide Exec, Good, Setup.Room, SenderSide.SenderOk, Chain;
    var y := Exec(c, events);
    AlwaysGood(c, events);
    GoodIs(c, y);
    HistoryIsNotEmpty(c, y.s, y.src, y.history);
    NoData(c, y.history);
    if events == [] {
      ExecStart(c);
    } else {
      NothingFits(c, events[..|events| - 1]);
      AlwaysGood(c, events[..|events| - 1]);
      Sizes.ExecStep(c, [], events);
      assert [] + events == events && [] + events[..|events| - 1] == events[..|events| - 1];
      EventBare(c, Exec(c, events[..|events| - 1]), events[|events| - 1]);
    }
  }

  /**
   And so they do arrive: with no room, where nothing outside refuses, there
   is a run in which both ends are done and every file, whatever was in it, is
   kept complete, empty, and counted as sent.
   */
  lemma EmptyFilesArrive(c: Setup) returns (events: seq<Event>)
    requires Willing(c) && Patient(c) && c.Room() == 0 && c.sender.retries > 0
    ensures var y := Exec(c, events); var kept := ReceiverSide.Complete(y.store.files);
            && y.s.status == Done && y.r.status == Done
            && |kept| == y.s.progress.files == |c.files|
            && forall i | 0 <= i < |kept| :: kept[i].complete && kept[i].content == []
  {
    hide Exec, Willing, Patient, Setup.Room, ReceiverSide.Complete;
    StartRuns(c);
    events := CanBeCompleted(c, []);
    assert [] + events == events;
    NothingFits(c, events);
    Theorems.DoneMeansDelivered(c, events);
    KeptIsStored(Exec(c, events).store.files);
  }

  lemma {:induction false} KeptIsStored(files: seq<StoredFile>)
    ensures forall f | f in ReceiverSide.Complete(files) :: f in files && f.complete
  {
    if files != [] {
      KeptIsStored(files[..|files| - 1]);
    }
  }

  /** Such a transfer: a far end that says it takes packets of three characters and no longer ones, and a file of one byte. */
  function TooNarrow(): Setup {
    var any: seq<byte> -> Option<seq<byte>> := name => Some(name);
    Setup(Settings(OURS, BinaryMode, Text.Lf, any, 5),
          Settings(OURS.(maxLength := 3, capabilities := []), BinaryMode, Text.Lf, any, 5),
          [SourceFile([97], [98], None, None)], [], map[], map[], true)
  }

  lemma TooNarrowHasNoRoom()
    ensures TooNarrow().Room() == 0 && Willing(TooNarrow()) && Patient(TooNarrow())
  {
    var c := TooNarrow();
    BlockReadsBack(c.receiver.params);
    BlockReadsBack(c.sender.params);
    hide ReadBlock, Block, Data.Decode, Data.Encode, Data.Take;
    assert c.SenderLink().SendsWith().maxLength == 3;
    assert c.SenderLink().long == None;
  }

  /** Its byte is lost, and the file is kept complete and counted. */
  lemma AByteIsLost() returns (events: seq<Event>)
    ensures var y := Exec(TooNarrow(), events); var kept := ReceiverSide.Complete(y.store.files);
            && TooNarrow().files[0].content != []
            && y.s.status == Done && y.r.status == Done && y.s.progress.files == 1
            && |kept| == 1 && kept[0].complete && kept[0].content == []
  {
    hide Exec, Willing, Patient, Setup.Room, ReceiverSide.Complete;
    TooNarrowHasNoRoom();
    events := EmptyFilesArrive(TooNarrow());
  }
}

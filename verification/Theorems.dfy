/**
 What holds of every transfer between two of these ends, whatever the line
 loses, repeats, delays, spoils or adds, whenever either end's wait runs out
 and whenever either user stops.
 */
module Theorems {
  import opened Options
  import opened Bytes
  import opened Checks
  import opened Packets
  import opened Parameters
  import opened Protocol
  import opened History
  import opened Network
  import opened Steps
  import SenderSide
  import ReceiverSide
  import Tallies
  import Text

  // ------------------------------------------------------------------
  // What the receiver keeps
  // ------------------------------------------------------------------

  /** The file now open is one of the source's, and holds the beginning of what is to be kept of it. */
  ghost predicate Begun(c: Setup, file: OpenFile, i: nat) {
    i < |c.files| && file.name == c.Expected(i).name && file.content <= c.Expected(i).content
  }

  /**
   The files kept complete are always the first of the source's, in order,
   each whole and as it was to arrive, and the file now open holds the
   beginning of one of them: of the next, unless it is being given up.
   */
  lemma FilesArrive(c: Setup, events: seq<Event>)
    requires c.Sound()
    ensures var y := Exec(c, events); var kept := ReceiverSide.Complete(y.store.files);
            && |kept| <= |c.files|
            && (forall j | 0 <= j < |kept| :: kept[j] == c.Expected(j))
            && (y.store.open.Some? ==> exists i: nat :: Begun(c, y.store.open.value, i))
            && (y.store.open.Some? && !y.r.cancelling ==> Begun(c, y.store.open.value, |kept|))
  {
    hide Exec, Good, Setup.Sound, ReceiverSide.ReceiverOk, SenderSide.SenderOk, Begun, EmittedOk, LinesOk;
    hide Setup.Expected;
    var y := Exec(c, events);
    AlwaysGood(c, events);
    GoodIs(c, y);
    OpenIsBegun(c, y.r, y.store, y.history, y.accepted, y.receiverStopped);
  }

  lemma OpenIsBegun(c: Setup, r: ReceiverState, store: StoreState, h: seq<Record>, e: nat, stopped: bool)
    requires c.Sound() && ReceiverSide.ReceiverOk(c, r, store, h, e, stopped)
    ensures ReceiverSide.Faithful(c, ReceiverSide.Complete(store.files))
    ensures store.open.Some? ==> e > 0 && h[e - 1].begun > 0 && Begun(c, store.open.value, h[e - 1].begun - 1)
    ensures store.open.Some? && !r.cancelling ==> h[e - 1].begun - 1 == |ReceiverSide.Complete(store.files)|
  {
    hide Setup.Sound, ReceiverSide.LinkAfter, ReceiverSide.AnswerTo, Setup.Expected, Setup.OnLine;
    hide NoneDiscarded, Wholes;
    hide ReceiverSide.Complete, ReceiverSide.Faithful;
  }

  /** What it means for a file to be as it was to arrive. */
  lemma WhatArrives(c: Setup, i: nat)
    requires i < |c.files|
    ensures c.ModeOf(i) == BinaryMode ==> c.Expected(i).content == c.files[i].content
    ensures c.ModeOf(i) == TextMode && c.receiver.local == Text.CrLf ==> c.Expected(i).content == Text.ToLine(false, c.files[i].content)
    ensures c.ModeOf(i) == TextMode && c.receiver.local == Text.Lf ==> c.Expected(i).content == Text.Replaced(c.files[i].content)
    ensures c.ModeOf(i) == TextMode && c.receiver.local == Text.Lf ==>
              (c.Expected(i).content == c.files[i].content <==> !Text.HasCrLf(c.files[i].content))
  {
    hide Text.ToLine, Text.FromLine, Text.Replaced, Text.HasCrLf;
    var content, local := c.files[i].content, c.receiver.local;
    if c.ModeOf(i) == TextMode {
      assert c.Expected(i).content == Text.Kept(local, Text.ToLine(false, content)) by { ExpectedText(c, i); }
      hide Setup.Expected, Setup.ModeOf, Text.Kept;
      match local {
        case CrLf => KeptUnchanged(Text.ToLine(false, content));
        case Lf =>
          Text.RoundTripReplaces(content);
          Text.ReplacedIsSameExactly(content);
      }
    } else {
      ExpectedBinary(c, i);
    }
  }

  lemma ExpectedText(c: Setup, i: nat)
    requires i < |c.files| && c.ModeOf(i) == TextMode
    ensures c.Expected(i).content == Text.Kept(c.receiver.local, Text.ToLine(false, c.files[i].content))
  {
    hide Text.Kept, Text.ToLine, Setup.NameData, Setup.Quoting, Setup.Room, Setup.ModeOf;
  }

  lemma ExpectedBinary(c: Setup, i: nat)
    requires i < |c.files| && c.ModeOf(i) == BinaryMode
    ensures c.Expected(i).content == c.files[i].content
  {
    hide Setup.NameData, Setup.Quoting, Setup.Room, Setup.ModeOf;
  }

  lemma KeptUnchanged(line: seq<byte>)
    ensures Text.Kept(Text.CrLf, line) == line
  {
  }

  // ------------------------------------------------------------------
  // Stop and wait
  // ------------------------------------------------------------------

  /**
   At most one packet is between the ends: the receiver waits for the packet
   the sender has out, or for the one after it. On a line that keeps order
   nothing older than the packet last accepted is left on the way out, and
   nothing on the way back is of a packet before the one waited for.
   */
  lemma StopAndWait(c: Setup, events: seq<Event>)
    ensures var y := Exec(c, events); var k := Waiting(y);
            && k <= y.accepted <= k + 1
            && y.r.expected == y.accepted % 64
            && (y.s.status == Running ==> y.s.seqno == k % 64)
            && (c.ordered ==>
                 && (forall m | m in y.forth :: ForthIsRecent(m, y.accepted, k))
                 && (forall m | m in y.back :: BackIsRecent(m, y.accepted, k)))
  {
    hide Exec, Good, BackOk, ForthOk, Rising, SenderSide.SenderOk, ReceiverSide.ReceiverOk, Chain;
    var y := Exec(c, events);
    AlwaysGood(c, events);
    GoodIs(c, y);
    AcceptedInHistory(c, y.r, y.store, y.history, y.accepted, y.receiverStopped);
    HistoryIsNotEmpty(c, y.s, y.src, y.history);
    if y.s.status == Running {
      SenderKnows(c, y.s, y.src, y.history);
    }
    if c.ordered {
      GoodRises(c, y);
      forall m | m in y.forth ensures ForthIsRecent(m, y.accepted, Waiting(y)) {
        RisingAll(y.forth, y.accepted - 1, Waiting(y), m);
        ForthIsPacket(c, y.history, m);
      }
      forall m | m in y.back ensures BackIsRecent(m, y.accepted, Waiting(y)) {
        RisingAll(y.back, Waiting(y), y.accepted, m);
        if Told(m) {
          BackNumbers(c, m, y.accepted, y.receiverStopped);
        }
      }
    }
  }

  predicate Told(m: Message) { m.Whole? && m.frame.packet.kind != Error }

  /** The packet last accepted, or the one waited for. */
  predicate ForthIsRecent(m: Message, accepted: int, k: int) {
    Told(m) ==> accepted - 1 <= m.index <= k && m.frame.packet.sequence == m.index % 64
  }

  /** An acknowledgement of the packet waited for or the one before, or a nak for it or the one after. */
  predicate BackIsRecent(m: Message, accepted: int, k: int) {
    Told(m) ==>
      && m.frame.packet.sequence == m.index % 64
      && if m.frame.packet.kind == Ack then k - 1 <= m.index < accepted
         else m.frame.packet.kind == Nak && k <= m.index <= accepted
  }

  lemma RisingAll(ms: seq<Message>, low: int, high: int, m: Message)
    requires Rising(ms, low, high) && m in ms
    ensures m.Whole? ==> low <= Level(m) <= high
  {
  }

  lemma ForthIsPacket(c: Setup, h: seq<Record>, m: Message)
    requires Chain(c, h) && ForthOk(m, h)
    ensures Told(m) ==> Level(m) == m.index < |h| && m.frame == h[m.index].frame && m.frame.packet.sequence == m.index % 64
  {
    hide Follows, Begins;
    if Told(m) {
      LevelIsIndex(c, h, m);
    }
  }

  /**
   What 64 sequence numbers are for: of the messages no more than 62 packets
   old, the number tells the packet. So a number equal to the one expected is
   the packet expected, one less is the packet last accepted, an answer with the
   number waited for answers that packet, and a nak one more says that it
   arrived, on any line, ordered or not.
   */
  lemma NumbersTell(c: Setup, events: seq<Event>, m: Message)
    requires Told(m)
    ensures var y := Exec(c, events); var n := m.frame.packet.sequence;
            && (m in y.forth && Young(y, Forth, m) ==>
                 && (n == y.r.expected <==> m.index == y.accepted)
                 && (n == Previous(y.r.expected) <==> m.index == y.accepted - 1)
                 && m.index < |y.history| && m.frame == y.history[m.index].frame)
            && (m in y.back && Young(y, Back, m) && y.s.status == Running ==>
                 && (n == y.s.seqno <==> m.index == Waiting(y))
                 && (n == Next(y.s.seqno) <==> m.index == Waiting(y) + 1 == y.accepted))
  {
    hide Exec, Good, BackOk, ForthOk, SenderSide.SenderOk, ReceiverSide.ReceiverOk, Chain, Next, Previous;
    hide EmittedOk, Level;
    var y := Exec(c, events);
    AlwaysGood(c, events);
    GoodIs(c, y);
    AcceptedInHistory(c, y.r, y.store, y.history, y.accepted, y.receiverStopped);
    HistoryIsNotEmpty(c, y.s, y.src, y.history);
    if m in y.forth && Young(y, Forth, m) {
      ForthIsPacket(c, y.history, m);
      NumberExpected(m.index, y.accepted, Waiting(y));
    }
    if m in y.back && Young(y, Back, m) && y.s.status == Running {
      BackTells(c, y, m);
    }
  }

  lemma BackTells(c: Setup, y: System, m: Message)
    requires Told(m) && m in y.back && Young(y, Back, m) && LinesOk(c, y) && y.s.status == Running
    requires SenderSide.SenderOk(c, y.s, y.src, y.history) && Waiting(y) <= y.accepted <= Waiting(y) + 1
    ensures var n := m.frame.packet.sequence;
            && (n == y.s.seqno <==> m.index == Waiting(y))
            && (n == Next(y.s.seqno) <==> m.index == Waiting(y) + 1 == y.accepted)
  {
    hide BackOk, ForthOk, SenderSide.SenderOk, Next, Level;
    BackNumbers(c, m, y.accepted, y.receiverStopped);
    SenderKnows(c, y.s, y.src, y.history);
    NumberAnswered(m.index, y.accepted, Waiting(y));
  }

  lemma NumberExpected(i: nat, e: nat, k: int)
    requires k <= e <= k + 1 && i <= k <= i + 62
    ensures i % 64 == e % 64 <==> i == e
    ensures i % 64 == Previous(e % 64) <==> i == e - 1
  {
    NumbersDiffer(i, e);
    NumbersDiffer(i, e - 1);
    PreviousNumber(e);
  }

  lemma NumberAnswered(i: nat, e: nat, k: nat)
    requires k <= e <= k + 1 && i <= e <= i + 62
    ensures i % 64 == k % 64 <==> i == k
    ensures i % 64 == Next(k % 64) <==> i == k + 1 == e
  {
    NumbersDiffer(i, k);
    NumbersDiffer(i, k + 1);
    SenderSide.NumbersFollow(k);
  }

  lemma PreviousNumber(n: nat)
    ensures Previous(n % 64) == (n - 1) % 64
  {
  }

  /**
   No packet takes effect twice: any message but the packet waited for and an
   error, however often it is delivered and however it is misread, leaves the
   receiver and its store as they were, the wait begun again at most.
   */
  lemma OldPacketsDoNothing(c: Setup, events: seq<Event>, at: nat, misread: Arrival)
    requires var y := Exec(c, events); MayDeliver(c, y, Forth, at) && Told(y.forth[at]) && y.forth[at].index != y.accepted
    ensures var y := Exec(c, events); var z := Apply(c, y, Delivered(Forth, at, misread));
            && z.store == y.store && z.accepted == y.accepted
            && (z.r == y.r || z.r == y.r.(link := y.r.link.Arm()))
  {
    hide Exec, Good, SenderSide.SenderOk, ReceiverSide.ReceiverOk, Chain, ReceiverTold, HeardAs, LinesOk;
    hide EmittedOk, ForthOk, AnswersLabelled;
    var y := Exec(c, events);
    AlwaysGood(c, events);
    GoodIs(c, y);
    OrderIsYoung(c, y, Forth, at);
    HistoryIsNotEmpty(c, y.s, y.src, y.history);
    var m := y.forth[at];
    assert Arrives(m, y.history) by { ForthArrives(c, y, m); }
    ForthIsPacket(c, y.history, m);
    OldIsIgnored(c, y.r, y.store, y.history, y.accepted, y.receiverStopped, m, HeardAs(m, ChecksNow(y.r), misread), misread);
  }

  lemma ForthArrives(c: Setup, y: System, m: Message)
    requires LinesOk(c, y) && m in y.forth && Young(y, Forth, m)
    ensures Arrives(m, y.history)
  {
    hide ForthOk;
  }

  lemma OldIsIgnored(c: Setup, r: ReceiverState, store: StoreState, h: seq<Record>, e: nat, stopped: bool,
        m: Message, a: Arrival, misread: Arrival)
    requires ReceiverSide.ReceiverOk(c, r, store, h, e, stopped) && Chain(c, h) && |h| - 1 <= e <= |h| && Arrives(m, h)
    requires Told(m) && m.index != e && m.index < |h| && m.frame.packet.sequence == m.index % 64
        && a == HeardAs(m, ChecksNow(r), misread)
    ensures var step := ReceiverTold(r, store, a); step.store == store && (step.r == r || step.r == r.(link := r.link.Arm()))
  {
    hide ReceiverSide.ReceiverOk, Chain, ReceiverHandle, ReceiverChecks, HeardAs, ReceiverDamaged, ReceiverHears;
    if a == Damage {
      DamageLeaves(r, store);
    } else {
      HeardIsWhole(m, ChecksNow(r), misread);
      if r.status != Running {
        StoppedReceiver(r, store, a);
      } else {
        RunningHears(r, store, a.packet);
        NumbersDiffer(m.index, e);
        NumbersDiffer(m.index, e - 1);
        if e > 0 && m.index == e - 1 {
          ReceiverSide.RepeatIsOk(c, r, store, h, e, stopped, a.packet);
        } else {
          OtherIsIgnored(c, r, store, h, e, stopped, a.packet);
        }
      }
    }
  }

  lemma DamageLeaves(r: ReceiverState, store: StoreState)
    ensures ReceiverDamaged(r, store).r == r && ReceiverDamaged(r, store).store == store
  {
  }

  /**
   The receiver reads with the one-character check beside the agreed one exactly
   while it waits for a file and the number it expects is 1: as it does before
   the first file, and again after every 64 packets.
   */
  lemma EitherCheckExactly(c: Setup, events: seq<Event>)
    requires Exec(c, events).r.status == Running
    ensures var y := Exec(c, events);
            One in ReceiverChecks(y.r) && |ReceiverChecks(y.r)| == 2
            <==> y.r.state == AwaitFile && y.accepted % 64 == 1 && c.CheckAgreed() != One
  {
    hide Exec, Good, SenderSide.SenderOk, ReceiverSide.ReceiverOk, LinesOk, EmittedOk;
    var y := Exec(c, events);
    AlwaysGood(c, events);
    GoodIs(c, y);
    AcceptedInHistory(c, y.r, y.store, y.history, y.accepted, y.receiverStopped);
    CheckByNow(c, y.r, y.store, y.history, y.accepted, y.receiverStopped);
  }

  lemma CheckByNow(c: Setup, r: ReceiverState, store: StoreState, h: seq<Record>, e: nat, stopped: bool)
    requires ReceiverSide.ReceiverOk(c, r, store, h, e, stopped)
    ensures r.link.CheckUsed() == if e == 0 then One else c.CheckAgreed()
  {
    hide ReceiverSide.CountsOk, ReceiverSide.WishOk, ReceiverSide.AnswerTo, ReceiverSide.StateAfter, LinkState.Agree;
    LinksMirror(c);
  }

  // ------------------------------------------------------------------
  // The grammar
  // ------------------------------------------------------------------

  /**
   What is sent is always S (F [A] D* Z)* B as far as it goes, each packet
   carrying the next of its file; and neither end ever meets a packet it does
   not expect.
   */
  lemma NeverSurprised(c: Setup, events: seq<Event>)
    ensures var y := Exec(c, events);
            && Chain(c, y.history)
            && (y.r.status.Failed? ==> !y.r.status.reason.Unexpected? && y.r.status.reason != BothReceiving)
            && y.s.status != Failed(BothSending)
  {
    hide Exec, Good, Chain;
    var y := Exec(c, events);
    AlwaysGood(c, events);
    GoodIs(c, y);
    HistoryIsNotEmpty(c, y.s, y.src, y.history);
    EndsExplained(c, y);
  }

  lemma EndsExplained(c: Setup, y: System)
    requires SenderSide.SenderOk(c, y.s, y.src, y.history)
    requires ReceiverSide.ReceiverOk(c, y.r, y.store, y.history, y.accepted, y.receiverStopped)
    ensures ReceiverSide.Explained(y.r.status) && y.s.status != Failed(BothSending)
  {
    hide Chain, SenderSide.LinkOk, SenderSide.RunningOk, NoneDiscarded, Wholes;
    hide ReceiverSide.CountsOk, ReceiverSide.LinkAfter, ReceiverSide.WishOk, ReceiverSide.StateAfter;
    hide ReceiverSide.AnswerTo;
  }

  // ------------------------------------------------------------------
  // Done
  // ------------------------------------------------------------------

  /**
   A sender that is done, even by giving up on the answer to its last packet,
   has had every file it counts kept complete, if the receiver is done too or its
   user never stopped; and if neither user stopped, that is every file there
   is. What else being done can mean is in module `Outcomes`.
   */
  lemma DoneMeansDelivered(c: Setup, events: seq<Event>)
    requires Exec(c, events).s.status == Done && (!Exec(c, events).receiverStopped || Exec(c, events).r.status == Done)
    ensures var y := Exec(c, events); var kept := ReceiverSide.Complete(y.store.files);
            && y.s.progress.files == y.r.progress.files == |kept|
            && (!y.senderStopped && !y.receiverStopped ==> |kept| == |c.files|)
            && (c.Sound() && |kept| == |c.files| ==> kept == seq(|c.files|, i requires 0 <= i < |c.files| => c.Expected(i)))
  {
    hide Exec, Good, Setup.Expected, Setup.Sound, SenderSide.SenderOk, ReceiverSide.ReceiverOk, LinesOk, EmittedOk;
    var y := Exec(c, events);
    AlwaysGood(c, events);
    GoodIs(c, y);
    CancellingIsAsked(c, y);
    if y.r.status == Done {
      BothDoneCounts(c, y.s, y.src, y.r, y.store, y.history, y.accepted, y.receiverStopped);
    } else {
      DoneCounts(c, y.s, y.src, y.r, y.store, y.history, y.accepted);
    }
  }

  lemma CancellingIsAsked(c: Setup, y: System)
    requires Good(c, y)
    ensures y.s.cancelling ==> y.senderStopped || y.receiverStopped
  {
    hide SenderSide.SenderOk, ReceiverSide.ReceiverOk, LinesOk, EmittedOk;
  }

  lemma DoneCounts(c: Setup, s: SenderState, src: SourceState, r: ReceiverState, store: StoreState, h: seq<Record>, e: nat)
    requires SenderSide.SenderOk(c, s, src, h) && ReceiverSide.ReceiverOk(c, r, store, h, e, false)
    requires s.status == Done && |h| - 1 <= e <= |h|
    ensures s.progress.files == r.progress.files == |ReceiverSide.Complete(store.files)|
    ensures !s.cancelling ==> |ReceiverSide.Complete(store.files)| == |c.files|
    ensures c.Sound() ==> ReceiverSide.Faithful(c, ReceiverSide.Complete(store.files))
  {
    hide Chain, SenderSide.LinkOk, SenderSide.RunningOk, NoneDiscarded, Wholes, EndedBy, Setup.Sound;
    hide ReceiverSide.Faithful;
    hide ReceiverSide.LinkAfter, ReceiverSide.WishOk, ReceiverSide.StateAfter, ReceiverSide.AnswerTo;
    hide ReceiverSide.Complete;
    SenderSide.WholesLast(h);
    assert h[..|h|] == h;
    if !s.cancelling {
      WholesCount(c, h, |h|);
      EndedByBreak(Last(h));
    }
  }

  /** A receiver that is done took the end of the batch, so no file was discarded. */
  lemma BothDoneCounts(c: Setup, s: SenderState, src: SourceState, r: ReceiverState, store: StoreState,
        h: seq<Record>, e: nat, stopped: bool)
    requires SenderSide.SenderOk(c, s, src, h) && ReceiverSide.ReceiverOk(c, r, store, h, e, stopped)
    requires s.status == Done && r.status == Done && |h| - 1 <= e <= |h|
    ensures s.progress.files == r.progress.files == |ReceiverSide.Complete(store.files)|
    ensures !s.cancelling ==> |ReceiverSide.Complete(store.files)| == |c.files|
    ensures c.Sound() ==> ReceiverSide.Faithful(c, ReceiverSide.Complete(store.files))
  {
    hide SenderSide.LinkOk, SenderSide.RunningOk, NoneDiscarded, Wholes, EndedBy, Setup.Sound;
    hide ReceiverSide.Faithful, Follows;
    hide ReceiverSide.LinkAfter, ReceiverSide.StateAfter, ReceiverSide.AnswerTo, ReceiverSide.Complete;
    hide Numbered, Begins;
    if e == |h| - 1 {
      assert Follows(c, h[e - 1], h[e]);
      NothingAfter(c, h[e - 1], h[e]);
    }
    assert h[..|h|] == h;
    WholesCount(c, h, |h|);
    EndedByBreak(Last(h));
  }

  lemma EndedByBreak(a: Record)
    requires a.Kind() == Break
    ensures EndedBy(a) == a.begun
  {
  }

  /** Once an end has stopped, nothing it hears or that happens to it changes it, its store or what it counts. */
  lemma {:induction false} StoppedStays(c: Setup, before: seq<Event>, after: seq<Event>)
    ensures var y := Exec(c, before); var z := Exec(c, before + after);
            && (y.r.status != Running ==> z.r == y.r && z.store == y.store && z.accepted == y.accepted)
            && (y.s.status != Running ==> z.s == y.s && z.src == y.src && z.history == y.history && z.emitted == y.emitted)
    decreases |after|
  {
    hide Apply;
    if after == [] {
      assert before + after == before;
    } else {
      var n := |after| - 1;
      assert (before + after)[..|before + after| - 1] == before + after[..n];
      StoppedStays(c, before, after[..n]);
      OneStepStays(c, Exec(c, before + after[..n]), after[n]);
    }
  }

  lemma OneStepStays(c: Setup, y: System, ev: Event)
    ensures var z := Apply(c, y, ev);
            && (y.r.status != Running ==> z.r == y.r && z.store == y.store && z.accepted == y.accepted)
            && (y.s.status != Running ==> z.s == y.s && z.src == y.src && z.history == y.history && z.emitted == y.emitted)
  {
    hide MayDeliver, HeardAs, ReceiverTold, SenderTold, ReceiverTick, SenderTick, ReceiverCancel;
    hide SenderCancel, ChecksNow, AnswersLabelled, Labelled;
    if y.r.status != Running {
      forall a ensures ReceiverTold(y.r, y.store, a).r == y.r && ReceiverTold(y.r, y.store, a).store == y.store {
        StoppedReceiver(y.r, y.store, a);
      }
      StoppedReceiver(y.r, y.store, Nothing);
    }
    if y.s.status != Running {
      forall a ensures SenderTold(y.s, y.src, a) == SenderStep(y.s, y.src, []) {
        StoppedSender(y.s, y.src, a);
      }
      StoppedSender(y.s, y.src, Nothing);
    }
  }

  lemma StoppedReceiver(r: ReceiverState, store: StoreState, a: Arrival)
    requires r.status != Running
    ensures ReceiverTold(r, store, a).r == r && ReceiverTold(r, store, a).store == store
    ensures ReceiverTick(r, store) == ReceiverCancel(r, store) == ReceiverStep(r, store, [])
  {
    hide ReceiverHandle;
  }

  lemma StoppedSender(s: SenderState, src: SourceState, a: Arrival)
    requires s.status != Running
    ensures SenderTold(s, src, a) == SenderTick(s, src) == SenderCancel(s, src) == SenderStep(s, src, [])
  {
    hide SenderHandle;
  }

  /**
   An end that runs has a deadline just when a time limit is asked of it: by the
   other end's parameters once they are known, and by its own until then.
   */
  lemma RunningEndsWait(c: Setup, events: seq<Event>)
    ensures var y := Exec(c, events); var ours, theirs := c.sender.params.timeout, c.receiver.params.timeout;
            && (y.s.status == Running ==> (y.s.link.armed <==> (if |y.history| == 1 then ours else theirs) > 0))
            && (y.r.status == Running ==> (y.r.link.armed <==> (if y.accepted == 0 then theirs else ours) > 0))
  {
    hide Exec, Good, SenderSide.SenderOk, ReceiverSide.ReceiverOk, LinesOk, EmittedOk;
    var y := Exec(c, events);
    AlwaysGood(c, events);
    GoodIs(c, y);
    SenderWaits(c, y.s, y.src, y.history);
    ReceiverWaits(c, y.r, y.store, y.history, y.accepted, y.receiverStopped);
  }

  lemma LinksWait(c: Setup)
    ensures c.SenderLink().Timed() <==> c.receiver.params.timeout > 0
    ensures c.ReceiverLink().Timed() <==> c.sender.params.timeout > 0
    ensures forall settings :: NewLink(settings).Timed() <==> settings.params.timeout > 0
  {
    hide Known, Long, OffersAttributes;
    SendsAsAsked(c.sender.params, c.receiver.params);
    SendsAsAsked(c.receiver.params, c.sender.params);
  }

  lemma SenderWaits(c: Setup, s: SenderState, src: SourceState, h: seq<Record>)
    requires SenderSide.SenderOk(c, s, src, h)
    ensures s.status == Running ==>
              (s.link.armed <==> (if |h| == 1 then c.sender.params.timeout else c.receiver.params.timeout) > 0)
  {
    hide Chain, SenderSide.FileOk, NoneDiscarded, Wholes, SenderSide.SizesOk, SenderSide.SourceOk, NewLink, Setup.SenderLink;
    LinksWait(c);
    if s.status == Running {
      SenderKnows(c, s, src, h);
    }
  }

  lemma ReceiverWaits(c: Setup, r: ReceiverState, store: StoreState, h: seq<Record>, e: nat, stopped: bool)
    requires ReceiverSide.ReceiverOk(c, r, store, h, e, stopped)
    ensures r.status == Running ==>
              (r.link.armed <==> (if e == 0 then c.receiver.params.timeout else c.sender.params.timeout) > 0)
  {
    hide ReceiverSide.CountsOk, ReceiverSide.WishOk, ReceiverSide.StateAfter, NewLink, Setup.ReceiverLink;
    hide ReceiverSide.AnswerTo;
    LinksWait(c);
  }

  /**
   What each end tells its user is true: the receiver's counts are of the bytes
   in the open file and of the files kept complete, the sender's of the bytes
   read of the file it is sending; the names are of those two files, and the size
   the receiver shows is the source's, if it shows one.
   */
  lemma ProgressIsTrue(c: Setup, events: seq<Event>)
    ensures var y := Exec(c, events);
            && y.r.progress.files == |ReceiverSide.Complete(y.store.files)|
            && (y.store.open.Some? ==>
                  && y.r.status == Running && y.r.progress.bytes == |y.store.open.value.content|
                  && y.r.progress.file == Some(y.store.open.value.name) && 0 < y.accepted <= |y.history|
                  && var i := y.history[y.accepted - 1].begun - 1;
                     && 0 <= i < |c.files| && (y.r.progress.size == None || y.r.progress.size == c.files[i].size)
                     && (y.history[y.accepted - 1].Kind() != File && c.SenderLink().attributes ==>
                           y.r.progress.size == c.files[i].size))
            && (y.s.status == Running && SenderSide.HoldsFile(y.s.state) ==>
                  && y.s.progress.bytes == y.src.pos <= |y.src.Content()| && 0 < y.src.at <= |c.files|
                  && y.s.progress.file == Some(c.files[y.src.at - 1].name) && y.s.progress.size == c.files[y.src.at - 1].size)
  {
    hide Exec, Good, SenderSide.SenderOk, ReceiverSide.ReceiverOk, LinesOk, EmittedOk;
    var y := Exec(c, events);
    AlwaysGood(c, events);
    GoodIs(c, y);
    SenderCounts(c, y.s, y.src, y.history);
    ReceiverCounts(c, y.r, y.store, y.history, y.accepted, y.receiverStopped);
  }

  lemma SenderCounts(c: Setup, s: SenderState, src: SourceState, h: seq<Record>)
    requires SenderSide.SenderOk(c, s, src, h)
    ensures s.status == Running && SenderSide.HoldsFile(s.state) ==>
              && s.progress.bytes == src.pos <= |src.Content()| && 0 < src.at <= |c.files|
              && s.progress.file == Some(c.files[src.at - 1].name) && s.progress.size == c.files[src.at - 1].size
  {
    hide Chain, SenderSide.LinkOk, NoneDiscarded, Wholes, SenderSide.Balanced, Setup.ModeOf, SenderSide.SizesOk;
    if s.status == Running && SenderSide.HoldsFile(s.state) {
      SenderSide.BalancedInRange(s.mode, src.Content(), src.pos, s.pending, s.afterCr, s.eof);
    }
  }

  lemma ReceiverCounts(c: Setup, r: ReceiverState, store: StoreState, h: seq<Record>, e: nat, stopped: bool)
    requires ReceiverSide.ReceiverOk(c, r, store, h, e, stopped)
    ensures r.progress.files == |ReceiverSide.Complete(store.files)|
    ensures store.open.Some? ==> r.status == Running && r.progress.bytes == |store.open.value.content|
    ensures store.open.Some? ==>
              && r.progress.file == Some(store.open.value.name) && 0 < e <= |h| && 0 < h[e - 1].begun <= |c.files|
              && r.progress.size == ReceiverSide.SizeHeard(c, h[e - 1])
  {
    hide ReceiverSide.LinkAfter, ReceiverSide.WishOk, ReceiverSide.AnswerTo, ReceiverSide.ContentOk;
    hide Setup.Sound, ReceiverSide.Complete;
  }

  // ------------------------------------------------------------------
  // How long it can last
  // ------------------------------------------------------------------

  /**
   However a run goes, the sender has sent each packet at most once and then
   once for each retry, and one error at most; and there are at most two
   packets and, for each file, three and as many as its bytes on the line.
   */
  lemma SendingsAreBounded(c: Setup, events: seq<Event>)
    ensures var y := Exec(c, events);
            && |y.history| <= 2 + Budget(c, |c.files|)
            && y.emitted <= (c.sender.retries + 1) * (2 + Budget(c, |c.files|)) + 1
  {
    hide Exec, Good, Budget, Sendings, SenderSide.SenderOk, ReceiverSide.ReceiverOk, Chain, LinesOk;
    var y := Exec(c, events);
    AlwaysGood(c, events);
    GoodIs(c, y);
    HistoryIsNotEmpty(c, y.s, y.src, y.history);
    HistoryIsShort(c, y.history, |y.history| - 1);
    if y.s.status == Running {
      SenderKnows(c, y.s, y.src, y.history);
      SendingsAre(c, |y.history| - 1);
    }
    SendingsGrow(c, |y.history|, 2 + Budget(c, |c.files|));
    SendingsMean(c, 2 + Budget(c, |c.files|));
  }

  lemma SendingsMean(c: Setup, n: int)
    ensures Sendings(c, n) == (c.sender.retries + 1) * n
  {
  }

  lemma SendingsGrow(c: Setup, m: nat, n: nat)
    requires m <= n
    ensures Sendings(c, m) <= Sendings(c, n)
  {
  }

  /** The number of bytes in the files. */
  function Size(files: seq<SourceFile>): nat {
    if files == [] then 0 else Size(files[..|files| - 1]) + |files[|files| - 1].content|
  }

  /** A file on the line is at most twice as long as it was, so the bound is linear in the files' sizes. */
  lemma {:induction false} BudgetIsLinear(c: Setup, n: nat)
    requires n <= |c.files|
    ensures Budget(c, n) <= 3 * n + 2 * Size(c.files[..n])
  {
    if n > 0 {
      BudgetIsLinear(c, n - 1);
      assert c.files[..n][..n - 1] == c.files[..n - 1];
      assert |c.OnLine(n - 1)| <= 2 * |c.files[n - 1].content|;
    }
  }

  // ------------------------------------------------------------------
  // How often a receiver may be kept waiting
  // ------------------------------------------------------------------

  /** A time-out that the receiver acts on. */
  predicate Ticks(y: System, ev: Event) { ev == TimesOut(Back) && y.r.status == Running && y.r.link.armed }

  function Waits(c: Setup, events: seq<Event>): nat {
    if events == [] then 0
    else
      var before := events[..|events| - 1];
      Waits(c, before) + if Ticks(Exec(c, before), events[|events| - 1]) then 1 else 0
  }

  lemma ToldTries(r: ReceiverState, store: StoreState, a: Arrival)
    requires r.expected < 64
    ensures var r' := ReceiverTold(r, store, a).r;
            && r'.link.limit == r.link.limit
            && (r'.status == Running ==> r'.link.retries == if r'.expected != r.expected then 0 else r.link.retries)
  {
    hide ReceiverHandle, Tallies.KeepsAnswers;
    if a.Arrived? {
      Tallies.HandlingTallies(r, store, a.packet);
    }
  }

  /** Every time-out is for the packet waited for, and no more of them than tries are allowed. */
  ghost predicate WaitsAllowed(y: System, waits: nat) {
    && waits <= y.r.link.limit * (y.accepted + 1) + 1
    && (y.r.status == Running ==>
          y.r.link.retries <= y.r.link.limit && waits <= y.r.link.limit * y.accepted + y.r.link.retries)
  }

  lemma WaitsGoOn(y: System, z: System, waits: nat)
    requires WaitsAllowed(y, waits) && z.r.link.limit == y.r.link.limit
    requires z.accepted == if z.r.expected != y.r.expected then y.accepted + 1 else y.accepted
    requires z.r.status == Running ==>
               y.r.status == Running
               && z.r.link.retries == if z.r.expected != y.r.expected then 0 else y.r.link.retries
    ensures WaitsAllowed(z, waits)
  {
    var n := y.r.link.limit;
    assert n * (y.accepted + 1) == n * y.accepted + n && n * (y.accepted + 2) == n * (y.accepted + 1) + n;
  }

  lemma WaitsOnce(y: System, z: System, waits: nat)
    requires WaitsAllowed(y, waits) && y.r.status == Running && z.r.link.limit == y.r.link.limit && z.accepted == y.accepted
    requires z.r.status == Running ==> z.r.link.retries == y.r.link.retries + 1 <= z.r.link.limit
    ensures WaitsAllowed(z, waits + 1)
  {
    var n := y.r.link.limit;
    assert n * (y.accepted + 1) == n * y.accepted + n;
  }

  lemma EventWaits(c: Setup, y: System, ev: Event, waits: nat)
    requires Good(c, y) && WaitsAllowed(y, waits)
    ensures WaitsAllowed(Apply(c, y, ev), waits + if Ticks(y, ev) then 1 else 0)
  {
    hide Good, SenderSide.SenderOk, ReceiverSide.ReceiverOk, LinesOk, EmittedOk, WaitsAllowed;
    hide HeardAs, ReceiverTold, SenderTold, ReceiverTick, SenderTick, ReceiverCancel, SenderCancel, ChecksNow;
    hide AnswersLabelled, Labelled, MayDeliver, SenderSide.Extended;
    GoodIs(c, y);
    AcceptedInHistory(c, y.r, y.store, y.history, y.accepted, y.receiverStopped);
    var z := Apply(c, y, ev);
    match ev {
      case Delivered(Forth, at, misread) =>
        if MayDeliver(c, y, Forth, at) {
          DeliveredWaits(c, y, at, misread);
        }
        WaitsGoOn(y, z, waits);
      case TimesOut(Back) =>
        Tallies.OwnTallies(y.r, y.store);
        StoppedTold(y.r, y.store, Nothing);
        if Ticks(y, ev) {
          RunningTries(y, waits);
          WaitsOnce(y, z, waits);
        } else {
          WaitsGoOn(y, z, waits);
        }
      case UserStops(Back) =>
        Tallies.OwnTallies(y.r, y.store);
        StoppedTold(y.r, y.store, Nothing);
        WaitsGoOn(y, z, waits);
      case _ =>
        ReceiverIsLeft(c, y, ev);
        WaitsGoOn(y, z, waits);
    }
  }

  lemma DeliveredWaits(c: Setup, y: System, at: nat, misread: Arrival)
    requires y.r.expected < 64 && MayDeliver(c, y, Forth, at)
    ensures var z := Apply(c, y, Delivered(Forth, at, misread));
            && z.r.link.limit == y.r.link.limit
            && z.accepted == (if z.r.expected != y.r.expected then y.accepted + 1 else y.accepted)
            && (z.r.status == Running ==>
                  y.r.status == Running && z.r.link.retries == if z.r.expected != y.r.expected then 0 else y.r.link.retries)
  {
    hide HeardAs, ReceiverTold, ChecksNow, AnswersLabelled;
    var a := HeardAs(y.forth[at], ChecksNow(y.r), misread);
    ToldTries(y.r, y.store, a);
    StoppedTold(y.r, y.store, a);
  }

  lemma RunningTries(y: System, waits: nat)
    requires WaitsAllowed(y, waits) && y.r.status == Running
    ensures y.r.link.retries <= y.r.link.limit
  {
  }

  lemma StoppedTold(r: ReceiverState, store: StoreState, a: Arrival)
    ensures r.status != Running ==> ReceiverTold(r, store, a).r == ReceiverTick(r, store).r == ReceiverCancel(r, store).r == r
  {
    hide ReceiverHandle, ReceiverTold, ReceiverTick, ReceiverCancel;
    if r.status != Running {
      StoppedReceiver(r, store, a);
    }
  }

  /** What happens at the sender, or to the line, leaves the receiver as it was. */
  lemma ReceiverIsLeft(c: Setup, y: System, ev: Event)
    requires ev.Delivered? ==> ev.way.Back?
    requires ev.TimesOut? || ev.UserStops? ==> ev.way.Forth?
    ensures Apply(c, y, ev).r == y.r && Apply(c, y, ev).accepted == y.accepted
  {
    hide HeardAs, SenderTold, SenderTick, SenderCancel, Labelled, MayDeliver, SenderSide.Extended;
  }

  /** So far, as many time-outs as tries are allowed for each packet taken, and those of the one now waited for. */
  lemma {:induction false} WaitsAreAllowed(c: Setup, events: seq<Event>)
    ensures WaitsAllowed(Exec(c, events), Waits(c, events)) && Exec(c, events).r.link.limit == c.receiver.retries
    decreases |events|
  {
    hide Apply, Good, WaitsAllowed, Ticks, SenderSide.SenderOk, ReceiverSide.ReceiverOk, LinesOk, EmittedOk;
    AlwaysGood(c, events);
    var y := Exec(c, events);
    GoodIs(c, y);
    ReceiverLimit(c, y.r, y.store, y.history, y.accepted, y.receiverStopped);
    if events == [] {
      StartWaits(c);
    } else {
      var before := events[..|events| - 1];
      WaitsAreAllowed(c, before);
      AlwaysGood(c, before);
      EventWaits(c, Exec(c, before), events[|events| - 1], Waits(c, before));
    }
  }

  lemma StartWaits(c: Setup)
    ensures WaitsAllowed(Start(c), 0)
  {
    hide Block;
  }

  lemma ReceiverLimit(c: Setup, r: ReceiverState, store: StoreState, h: seq<Record>, e: nat, stopped: bool)
    requires ReceiverSide.ReceiverOk(c, r, store, h, e, stopped)
    ensures r.link.limit == c.receiver.retries
  {
    hide ReceiverSide.CountsOk, ReceiverSide.WishOk, ReceiverSide.AnswerTo, ReceiverSide.StateAfter, LinkState.Agree;
    AgreeingKeepsLimit(c);
  }

  /**
   However a run goes, a receiver acts on at most as many time-outs as its
   limit allows for each packet it may wait for, and on one more, at which it
   gives up: a bound on the naks it can send unasked, linear in the files.
   */
  lemma WaitsAreBounded(c: Setup, events: seq<Event>)
    ensures var y := Exec(c, events); var n := c.receiver.retries;
            && Waits(c, events) <= n * (y.accepted + 1) + 1
            && (y.r.status == Running ==> Waits(c, events) <= n * y.accepted + y.r.link.retries <= n * (y.accepted + 1))
            && Waits(c, events) <= n * (3 + Budget(c, |c.files|)) + 1
  {
    hide Exec, Good, Waits, Budget, SenderSide.SenderOk, ReceiverSide.ReceiverOk, LinesOk, EmittedOk;
    var y, n := Exec(c, events), c.receiver.retries;
    WaitsAreAllowed(c, events);
    SendingsAreBounded(c, events);
    AlwaysGood(c, events);
    GoodIs(c, y);
    assert n * (y.accepted + 1) == n * y.accepted + n;
    Multiplied(n, y.accepted + 1, 3 + Budget(c, |c.files|));
  }

  lemma Multiplied(n: nat, a: nat, b: nat)
    requires a <= b
    ensures n * a <= n * b
  {
  }
}

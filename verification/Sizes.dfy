/**
 The size of data packets: it never outgrows what the far end can take or the
 ceiling, the ceiling never rises, and repeating a packet brings it down to
 half that packet's size.
 */
module Sizes {
  import opened Options
  import opened Bytes
  import opened Checks
  import opened Packets
  import opened Parameters
  import opened Protocol
  import opened History
  import opened Network
  import opened Steps
  import Data
  import Attributes
  import SenderSide
  import ReceiverSide

  /** Half a packet that had to go again, but no less than the least there is. */
  function Halved(length: nat): nat { Max(length / 2, LEAST_SIZE) }

  lemma FillEnds(s: SenderState, src: SourceState, room: nat)
    requires !s.eof && |s.pending| < room && src.ops !in src.faults && src.ReadSize(Max(room, 1)) == 0
    ensures Fill(s, src, room) == Fill(s.(eof := true), src.(ops := src.ops + 1), room)
  {
  }

  lemma {:induction false} FillKeepsSizes(s: SenderState, src: SourceState, room: nat)
    ensures var f := Fill(s, src, room).s;
            f.ceiling == s.ceiling && f.size == s.size && f.link == s.link && f.seqno == s.seqno
    decreases if s.eof then 0 else 1, |src.Content()| - src.pos
  {
    hide Fill;
    if !s.eof && |s.pending| < room && src.ops !in src.faults {
      var n := src.ReadSize(Max(room, 1));
      var src' := src.(ops := src.ops + 1, pos := src.pos + n);
      if n == 0 {
        FillEnds(s, src, room);
        FillKeepsSizes(s.(eof := true), src', room);
      } else {
        SenderSide.FillReads(s, src, room);
        FillKeepsSizes(SenderSide.HavingRead(s, src, n), src', room);
      }
    } else {
      SenderSide.FillStops(s, src, room);
    }
  }

  /** What a step does to the ceiling, and the data it may send under it. */
  ghost predicate Kept(step: SenderStep, s: SenderState) {
    && step.s.ceiling == s.ceiling && step.s.seqno == s.seqno
    && forall f | f in step.out && f.packet.kind == Kind.Data && s.link.long.Some? :: |f.packet.data| <= s.ceiling
  }

  lemma FailKeepsSizes(s: SenderState, src: SourceState, reason: Reason)
    ensures var step := SenderFail(s, src, reason);
            Kept(step, s) && step.s.status == Failed(reason)
  {
    hide Data.Encode, Wording;
  }

  lemma PacketKeeps(s: SenderState, src: SourceState, kind: Kind, data: seq<byte>)
    requires kind == Kind.Data && s.link.long.Some? ==> |data| <= s.ceiling
    ensures Kept(PacketStep(s, src, kind, data), s)
  {
  }

  /** What matters of a sender to its sizes. */
  predicate SameSizes(s: SenderState, t: SenderState) { s.ceiling == t.ceiling && s.seqno == t.seqno && s.link == t.link }

  lemma KeptOfSame(step: SenderStep, s: SenderState, t: SenderState)
    requires Kept(step, s) && SameSizes(s, t)
    ensures Kept(step, t)
  {
  }

  lemma SendDataKeeps(s: SenderState, src: SourceState)
    ensures Kept(SendData(s, src), s)
  {
    hide Fill, Data.Encode, Grown, PacketStep, SenderFail, Kept;
    var room, sized := DataRoom(s), s.(size := Grown(s));
    FillKeepsSizes(sized, src, room);
    var f := Fill(sized, src, room);
    var e := Data.Encode(f.s.pending, f.s.link.SendsWith().Quoting(), room);
    var sent := f.s.(pending := f.s.pending[e.used..], inFlight := |e.out|);
    FailKeepsSizes(f.s, f.src, if f.fault.Some? then SourceFailed(f.fault.value) else TooShort);
    PacketKeeps(f.s.(state := SendingEnd), f.src, EndOfFile, []);
    PacketKeeps(sent, f.src, Kind.Data, e.out);
    KeptOfSame(SendData(s, src), if f.fault.Some? then f.s else if f.s.pending == [] then f.s.(state := SendingEnd)
                                 else if e.used == 0 then f.s else sent, s);
  }

  lemma NextFileKeeps(s: SenderState, src: SourceState)
    ensures Kept(NextFile(s, src), s) && forall f | f in NextFile(s, src).out :: f.packet.kind != Kind.Data
  {
    hide Data.Encode, Wording, LinkState.CheckUsed, LinkState.SendsWith, LinkState.Room;
  }

  lemma AcknowledgedKeeps(s: SenderState, src: SourceState, data: seq<byte>)
    requires s.state != SendingInit && s.state != Finished
    ensures Kept(Acknowledged(s, src, data), SenderSide.Moved(s)) && Next(s.seqno) != s.seqno
  {
    hide SendData, NextFile, Attributes.Built, PacketStep, Kept, Next, SenderStop;
    NumbersChange(s.seqno);
    var m := SenderSide.Moved(s);
    match s.state {
      case SendingFile =>
        var m1 := m.(pending := [], afterCr := false, eof := false, discarding := false);
        SendDataKeeps(m1.(state := SendingData), src);
        PacketKeeps(m1.(state := SendingAttributes), src, Kind.Attributes, Attributes.Built(Said(m1)));
        KeptOfSame(Acknowledged(s, src, data), if s.link.attributes then m1.(state := SendingAttributes) else m1.(state := SendingData), m);
      case SendingAttributes =>
        SendDataKeeps(m.(state := SendingData), src);
        DiscardKeeps(m, src);
        KeptOfSame(Acknowledged(s, src, data), if data != [] && data[0] == 78 then m else m.(state := SendingData), m);
      case SendingData =>
        var m1 := m.(cancelling := s.cancelling || (data != [] && data[0] == 90));
        SendDataKeeps(m1, src);
        DiscardKeeps(m1, src);
        KeptOfSame(Acknowledged(s, src, data), m1, m);
      case SendingEnd =>
        var m1 := m.(progress := s.progress.(files := s.progress.files + if s.discarding then 0 else 1));
        NextFileKeeps(m1, src);
        PacketKeeps(m1.(state := SendingBreak), src, Break, []);
        KeptOfSame(Acknowledged(s, src, data), if s.cancelling then m1.(state := SendingBreak) else m1, m);
      case SendingBreak => StopKeeps(m, src, if s.cancelling then Cancelled else Done);
    }
  }

  lemma NumbersChange(n: byte)
    ensures Next(n) != n
  {
  }

  lemma StopKeeps(s: SenderState, src: SourceState, status: Status)
    ensures Kept(SenderStop(s, src, status, []), s)
  {
  }

  lemma DiscardKeeps(s: SenderState, src: SourceState)
    ensures Kept(Discard(s, src), s)
  {
  }

  lemma FirstAnswerKeeps(s: SenderState, src: SourceState, data: seq<byte>)
    requires s.state == SendingInit
    ensures var step := Acknowledged(s, src, data);
            step.s.ceiling == s.ceiling && forall f | f in step.out :: f.packet.kind != Kind.Data
  {
    hide NextFile, LinkState.Agree, ReadBlock;
    NextFileKeeps(SenderSide.Moved(s).(link := s.link.Agree(ReadBlock(data))), src);
  }

  /** A packet sent again halves the ceiling, if it carried more than the least. */
  lemma AgainHalves(s: SenderState, src: SourceState)
    ensures var step := Again(s, src);
            && step.s.seqno == s.seqno
            && step.s.ceiling == (if s.state == SendingData && s.inFlight > LEAST_SIZE then Min(s.ceiling, Halved(s.inFlight))
                                  else s.ceiling)
            && step.s.size == Min(Halved(s.size), step.s.ceiling)
  {
    hide Data.Encode, Wording;
  }

  /** What any step of a sender does to sizes. */
  ghost predicate SizesStep(s: SenderState, step: SenderStep) {
    && step.s.ceiling <= s.ceiling
    && (step.s.seqno != s.seqno && s.link.long.Some? ==>
          forall f | f in step.out && f.packet.kind == Kind.Data :: |f.packet.data| <= s.ceiling)
    && (step.s.seqno != s.seqno && s.state == SendingInit ==> forall f | f in step.out :: f.packet.kind != Kind.Data)
    && (step.s.seqno == s.seqno && step.out != [] && step.s.status == Running && s.state == SendingData
        && s.inFlight > LEAST_SIZE ==>
          step.s.ceiling <= Halved(s.inFlight))
  }

  lemma ToldKeepsSizes(s: SenderState, src: SourceState, a: Arrival)
    requires s.state != Finished
    ensures SizesStep(s, SenderTold(s, src, a))
  {
    hide Acknowledged, Again, Data.Decode, SenderFail, Halved;
    if a.Arrived? {
      AgainHalves(s, src);
      FailKeepsSizes(s, src, BothSending);
      if s.state == SendingInit {
        FirstAnswerKeeps(s, src, a.packet.data);
      } else {
        AcknowledgedKeeps(s, src, a.packet.data);
        AcknowledgedKeeps(s, src, []);
      }
    }
  }

  // ------------------------------------------------------------------
  // Over whole runs
  // ------------------------------------------------------------------

  /** What an event does to sizes. */
  ghost predicate SizesEvent(c: Setup, y: System, z: System) {
    && z.s.ceiling <= y.s.ceiling
    && y.history <= z.history && |z.history| <= |y.history| + 1
    && (|z.history| > |y.history| && Last(z.history).Kind() == Kind.Data && c.SenderLink().long.Some? ==>
          |Last(z.history).Body()| <= y.s.ceiling)
    && (SentAgain(y, z) ==> z.s.ceiling <= Halved(|Last(y.history).Body()|))
  }

  /** The packet waiting for its answer was a large data packet, and went again. */
  ghost predicate SentAgain(y: System, z: System) {
    && y.history != [] && Last(y.history).Kind() == Kind.Data && |Last(y.history).Body()| > LEAST_SIZE
    && z.history == y.history && z.emitted > y.emitted && z.s.status == Running
  }

  lemma StepKeepsSizes(c: Setup, y: System, step: SenderStep)
    requires SenderSide.SenderOk(c, y.s, y.src, y.history) && y.s.status == Running
    requires Moves(c, y.s, step, y.history, NewHistory(y.s, step, y.history)) && SizesStep(y.s, step)
    ensures SizesEvent(c, y, AfterSender(y, step))
  {
    hide SenderSide.SenderOk, SenderSide.Extended, Halved, NewHistory;
    SenderKnows(c, y.s, y.src, y.history);
    KnowsSizes(c, y.s, y.src, y.history);
    AfterHasHistory(y, step);
    NewIs(y.s, step, y.history);
  }

  lemma NewIs(s: SenderState, step: SenderStep, h: seq<Record>)
    ensures NewHistory(s, step, h) == if step.s.seqno != s.seqno then SenderSide.Extended(step, h) else h
  {
  }

  lemma KnowsSizes(c: Setup, s: SenderState, src: SourceState, h: seq<Record>)
    requires SenderSide.SenderOk(c, s, src, h) && s.status == Running
    ensures h != [] && s.state != Finished
    ensures s.state == SendingInit || s.link.long == c.SenderLink().long
    ensures Last(h).Kind() == Kind.Data <==> s.state == SendingData
    ensures s.state == SendingData ==> s.inFlight == |Last(h).Body()|
  {
    hide Chain, SenderSide.FileOk, NoneDiscarded, Wholes, SenderSide.SizesOk, SenderSide.SourceOk, LinkState.Agree;
  }

  lemma EventKeepsSizes(c: Setup, y: System, ev: Event)
    requires Good(c, y)
    ensures SizesEvent(c, y, Apply(c, y, ev))
  {
    hide Good, SizesEvent, Apply;
    if ev.Delivered? && ev.way.Back? && MayDeliver(c, y, Back, ev.at) {
      DeliveryKeepsSizes(c, y, ev.at, ev.misread);
    } else if ev == TimesOut(Forth) {
      OwnStepKeepsSizes(c, y, y, SenderTick(y.s, y.src));
      ApplyOwn(c, y);
    } else if ev == UserStops(Forth) {
      OwnStepKeepsSizes(c, y, y.(senderStopped := true), SenderCancel(y.s, y.src));
      ApplyOwn(c, y);
    } else {
      OthersLeaveSender(c, y, ev);
      SizesSame(c, y, Apply(c, y, ev));
    }
  }

  lemma ApplyOwn(c: Setup, y: System)
    ensures Apply(c, y, TimesOut(Forth)) == AfterSender(y, SenderTick(y.s, y.src))
    ensures Apply(c, y, UserStops(Forth)) == AfterSender(y.(senderStopped := true), SenderCancel(y.s, y.src))
  {
    hide AfterSender, SenderTick, SenderCancel;
  }

  /** Nothing else that happens touches the sender. */
  lemma OthersLeaveSender(c: Setup, y: System, ev: Event)
    requires ev != TimesOut(Forth) && ev != UserStops(Forth)
    requires ev.Delivered? && ev.way.Back? ==> !MayDeliver(c, y, Back, ev.at)
    ensures var z := Apply(c, y, ev); z.s == y.s && z.history == y.history && z.emitted == y.emitted
  {
    hide MayDeliver, HeardAs, ChecksNow, ReceiverTold, ReceiverTick, ReceiverCancel, AfterReceiver;
    hide AfterSender, SenderTold, SenderTick, SenderCancel;
    match ev {
      case Delivered(way, at, misread) =>
        if MayDeliver(c, y, way, at) {
          OnTheLine(c, y, way, at);
          ReceiverLeavesSender(WithLine(y, Forth, Without(y.forth, at)), ReceiverTold(y.r, y.store, HeardAs(y.forth[at], ChecksNow(y.r), misread)));
        }
      case TimesOut(Back) => ReceiverLeavesSender(y, ReceiverTick(y.r, y.store));
      case UserStops(Back) => ReceiverLeavesSender(y.(receiverStopped := true), ReceiverCancel(y.r, y.store));
      case _ =>
    }
  }

  lemma OnTheLine(c: Setup, y: System, way: Way, at: nat)
    requires MayDeliver(c, y, way, at)
    ensures at < |OnLine(y, way)|
  {
  }

  lemma ReceiverLeavesSender(y: System, step: ReceiverStep)
    ensures var z := AfterReceiver(y, step); z.s == y.s && z.history == y.history && z.emitted == y.emitted
  {
  }

  lemma SizesSame(c: Setup, y: System, z: System)
    requires z.s == y.s && z.history == y.history && z.emitted == y.emitted
    ensures SizesEvent(c, y, z)
  {
  }

  lemma DeliveryKeepsSizes(c: Setup, y: System, at: nat, misread: Arrival)
    requires Good(c, y) && MayDeliver(c, y, Back, at)
    ensures SizesEvent(c, y, Apply(c, y, Delivered(Back, at, misread)))
  {
    hide Good, SenderSide.SenderOk, ReceiverSide.ReceiverOk, Moves, SizesStep, AfterSender, SenderTold;
    hide BackOk, ForthOk, HeardAs, NewHistory;
    hide MayDeliver, Young, EmittedOk, SizesEvent;
    GoodIs(c, y);
    OnTheLine(c, y, Back, at);
    OrderIsYoung(c, y, Back, at);
    var m := y.back[at];
    var y1 := WithLine(y, Back, Without(y.back, at));
    var a := HeardAs(m, [y.s.link.CheckUsed()], misread);
    if y.s.status == Running {
      KnowsSizes(c, y.s, y.src, y.history);
      assert ComesBack(c, m, y.accepted, y.receiverStopped) by { BackComes(c, y, m); }
      SenderToldIsOk(c, y.s, y.src, y.history, y.accepted, y.receiverStopped, m, misread);
      ToldKeepsSizes(y.s, y.src, a);
      StepKeepsSizes(c, y1, SenderTold(y.s, y.src, a));
      SizesFrom(c, y, y1, AfterSender(y1, SenderTold(y.s, y.src, a)));
    } else {
      StoppedHearsNothing(y.s, y.src, a);
      NothingSent(y1);
      SizesSame(c, y, y1);
    }
  }

  lemma BackComes(c: Setup, y: System, m: Message)
    requires LinesOk(c, y) && m in y.back && Young(y, Back, m)
    ensures ComesBack(c, m, y.accepted, y.receiverStopped)
  {
    hide BackOk;
  }

  lemma SizesFrom(c: Setup, y: System, y1: System, z: System)
    requires SizesEvent(c, y1, z) && y1.s == y.s && y1.history == y.history && y1.emitted == y.emitted
    ensures SizesEvent(c, y, z)
  {
  }

  /** A time-out at the sender, or its user's wish. */
  lemma OwnStepKeepsSizes(c: Setup, y: System, y1: System, step: SenderStep)
    requires Good(c, y) && y1 == y.(senderStopped := y1.senderStopped)
    requires step == SenderTick(y.s, y.src) || step == SenderCancel(y.s, y.src)
    ensures SizesEvent(c, y, AfterSender(y1, step))
  {
    hide Good, SenderSide.SenderOk, Moves, AfterSender, Again, SenderSide.Stayed, NewHistory, LinesOk;
    hide EmittedOk, Halved;
    GoodIs(c, y);
    NothingSent(y1);
    if y.s.status == Running {
      KnowsSizes(c, y.s, y.src, y.history);
      SenderSide.AgainIsOk(c, y.s, y.src, y.history);
      SenderSide.SenderCancelIsOk(c, y.s, y.src, y.history);
      AgainHalves(y.s, y.src);
      if step == SenderStep(y.s, y.src, []) {
        SizesSame(c, y, y1);
      } else {
        StayedMoves(c, y.s, step, y.history);
        StepKeepsSizes(c, y1, step);
      }
    } else {
      SizesSame(c, y, y1);
    }
  }

  /** No data packet from `from` on is longer than `cap`. */
  ghost predicate Capped(h: seq<Record>, from: nat, cap: nat) {
    forall i | from <= i < |h| && h[i].Kind() == Kind.Data :: |h[i].Body()| <= cap
  }

  /** Over any run the ceiling only falls, though never below the least, and every data packet from there on keeps under it. */
  lemma {:induction false} CeilingNeverRises(c: Setup, before: seq<Event>, after: seq<Event>)
    requires c.SenderLink().long.Some?
    ensures var y := Exec(c, before); var z := Exec(c, before + after);
            && LEAST_SIZE <= z.s.ceiling <= y.s.ceiling && y.history <= z.history
            && Capped(z.history, |y.history|, y.s.ceiling)
    decreases |after|
  {
    hide Exec, Apply, Good, SenderSide.SenderOk, ReceiverSide.ReceiverOk, LinesOk, EmittedOk, Capped, SizesEvent;
    var y := Exec(c, before);
    AlwaysGood(c, before);
    GoodIs(c, y);
    if after == [] {
      assert before + after == before;
      CeilingIsEnough(c, y.s, y.src, y.history);
      NothingToCap(y.history, y.s.ceiling);
    } else {
      var n := |after| - 1;
      CeilingNeverRises(c, before, after[..n]);
      var x := Exec(c, before + after[..n]);
      ExecStep(c, before, after);
      AlwaysGood(c, before + after[..n]);
      EventKeepsSizes(c, x, after[n]);
      CappedOneMore(c, y, x, Exec(c, before + after));
      AlwaysGood(c, before + after);
      GoodIs(c, Exec(c, before + after));
      CeilingIsEnough(c, Exec(c, before + after).s, Exec(c, before + after).src, Exec(c, before + after).history);
    }
  }

  lemma NothingToCap(h: seq<Record>, cap: nat)
    ensures Capped(h, |h|, cap)
  {
  }

  lemma CappedOneMore(c: Setup, y: System, x: System, z: System)
    requires SizesEvent(c, x, z) && y.history <= x.history && Capped(x.history, |y.history|, y.s.ceiling)
        && x.s.ceiling <= y.s.ceiling
    requires c.SenderLink().long.Some?
    ensures Capped(z.history, |y.history|, y.s.ceiling) && y.history <= z.history && z.s.ceiling <= y.s.ceiling
  {
    hide Setup.SenderLink;
    forall i | |y.history| <= i < |z.history|
        && z.history[i].Kind() == Kind.Data ensures |z.history[i].Body()| <= y.s.ceiling {
      assert i < |x.history| ==> z.history[i] == x.history[i];
    }
  }

  lemma ExecStep(c: Setup, before: seq<Event>, after: seq<Event>)
    requires after != []
    ensures Exec(c, before + after) == Apply(c, Exec(c, before + after[..|after| - 1]), after[|after| - 1])
  {
    hide Apply;
    assert (before + after)[..|before + after| - 1] == before + after[..|after| - 1];
  }

  lemma CeilingIsEnough(c: Setup, s: SenderState, src: SourceState, h: seq<Record>)
    requires SenderSide.SenderOk(c, s, src, h)
    ensures LEAST_SIZE <= s.ceiling
  {
    hide Chain, SenderSide.RunningOk, SenderSide.LinkOk, NoneDiscarded, Wholes;
  }

  /** Once a data packet of more than 80 characters has had to go again, no later one is more than half its size, or 80. */
  lemma SentAgainHalves(c: Setup, before: seq<Event>, again: Event, after: seq<Event>)
    requires c.SenderLink().long.Some? && SentAgain(Exec(c, before), Exec(c, before + [again]))
    ensures var y := Exec(c, before); var z := Exec(c, before + [again] + after);
            y.history <= z.history && Capped(z.history, |y.history|, Max(|Last(y.history).Body()| / 2, LEAST_SIZE))
  {
    hide Exec, Apply, Good;
    var y := Exec(c, before);
    AlwaysGood(c, before);
    ExecStep(c, before, [again]);
    assert before + [] == before;
    EventKeepsSizes(c, y, again);
    CeilingNeverRises(c, before + [again], after);
  }

  // ------------------------------------------------------------------
  // What the far end takes
  // ------------------------------------------------------------------

  /** A packet of data, or with a name. */
  predicate Carrying(a: Record) { (a.Kind() == Kind.Data || a.Kind() == File) && a.Body() != [] }

  /** Every such packet keeps to the room the two ends' parameters come to. */
  lemma DataFitsRoom(c: Setup, h: seq<Record>, i: nat)
    requires Chain(c, h) && i < |h| && Carrying(h[i])
    ensures 0 < |h[i].Body()| <= c.Room() && h[i].frame.check == c.CheckAgreed()
  {
    hide Begins, Numbered, Setup.SenderLink, Setup.CheckAgreed, Setup.Room, Setup.OnLine, SaysOf, Data.Encode;
    if i == 0 {
      BeginsIsInit(c, h[0]);
    } else {
      assert Follows(c, h[i - 1], h[i]);
    }
  }

  /** How long a packet is on the line: a mark, a count, a number and a kind, a longer count if it needs one, data, a check. */
  lemma WireLength(p: Packet, check: Check)
    ensures var long := |p.data| + 2 + check.Chars() > MAX_COUNT;
            |Wire(p, check, MARK)| == (if long then 7 else 4) + |p.data| + check.Chars()
  {
    hide Of;
  }

  lemma SenderMeasures(c: Setup)
    ensures var theirs, check := c.receiver.params, c.CheckAgreed().Chars();
            c.Room() == if Long(c.sender.params).None? || Long(theirs).None? then Max(Min(theirs.maxLength, 94) - (2 + check), 0)
                        else Max(Long(theirs).value - (7 + check), 0)
  {
    hide Long, OffersAttributes, Block, ReadBlock;
    NegotiationMirrors(c.receiver.params, c.sender.params);
    SendsAsAsked(c.sender.params, c.receiver.params);
  }

  /**
   A far end that says it takes packets of `n` characters, after any
   capabilities, is sent no longer packet of data or name: that is every
   character from the mark to the end of the check.
   */
  lemma DataFitsFarEnd(c: Setup, events: seq<Event>, i: nat, more: seq<byte>, last: byte, window: byte, n: nat, rest: seq<byte>)
    requires c.receiver.params.capabilities == more + [last] + ([window, n / 95 + 32, n % 95 + 32] + rest)
    requires 0 < n <= 9024 && (forall b | b in more :: BitSet(b, 1)) && !BitSet(last, 1)
    requires BitSet(c.receiver.params.capabilities[0], 2) && Long(c.sender.params).Some?
    requires i < |Exec(c, events).history| && Carrying(Exec(c, events).history[i])
    ensures var f := Exec(c, events).history[i].frame; |Wire(f.packet, f.check, MARK)| <= n
  {
    hide Exec, Good, SenderSide.SenderOk, ReceiverSide.ReceiverOk, LinesOk, EmittedOk, Chain, Wire, Long, BitSet, Setup.Room;
    var y := Exec(c, events);
    AlwaysGood(c, events);
    GoodIs(c, y);
    HistoryIsNotEmpty(c, y.s, y.src, y.history);
    DataFitsRoom(c, y.history, i);
    LongIsSaid(c.receiver.params, more, last, window, n, rest);
    SenderMeasures(c);
    WireLength(y.history[i].frame.packet, y.history[i].frame.check);
  }

  /** And where either end does without long packets, the count in a packet, of what comes after it, is no more than the far end's longest. */
  lemma ShortDataFitsFarEnd(c: Setup, events: seq<Event>, i: nat)
    requires !OffersLong(c.sender.params) || !OffersLong(c.receiver.params)
    requires i < |Exec(c, events).history| && Carrying(Exec(c, events).history[i])
    ensures var f := Exec(c, events).history[i].frame;
            |Wire(f.packet, f.check, MARK)| - 2 <= Min(c.receiver.params.maxLength, 94)
  {
    hide Exec, Good, SenderSide.SenderOk, ReceiverSide.ReceiverOk, LinesOk, EmittedOk, Chain, Wire, Long, OffersLong, Setup.Room;
    var y := Exec(c, events);
    AlwaysGood(c, events);
    GoodIs(c, y);
    HistoryIsNotEmpty(c, y.s, y.src, y.history);
    DataFitsRoom(c, y.history, i);
    LongIsUnsaid(c.sender.params);
    LongIsUnsaid(c.receiver.params);
    SenderMeasures(c);
    WireLength(y.history[i].frame.packet, y.history[i].frame.check);
  }

  // ------------------------------------------------------------------
  // Growing
  // ------------------------------------------------------------------

  function Pow2(n: nat): nat { if n == 0 then 1 else 2 * Pow2(n - 1) }

  /** The sizes offered while nothing has to go again. */
  function SizeAfter(s: SenderState, n: nat): nat {
    if n == 0 then s.size else Grown(s.(size := SizeAfter(s, n - 1)))
  }

  /** While nothing has to go again the size doubles from packet to packet until it meets the room or the ceiling. */
  lemma {:induction false} SizeDoubles(s: SenderState, n: nat)
    requires s.link.long.Some? && n > 0
    ensures SizeAfter(s, n) == Min(s.size * Pow2(n), Min(s.link.Room(), s.ceiling))
  {
    hide LinkState.Room, Pow2;
    TwiceAgain(s.size, n - 1);
    if n == 1 {
      NoneAgain(s);
    } else {
      SizeDoubles(s, n - 1);
    }
  }

  /** The first is 250, and there is no ceiling yet that any packet could meet; the least there is is 80. */
  lemma SizesBegin(settings: Settings, s: SenderState, src: SourceState)
    ensures NewSender(settings).size == 250 && NewSender(settings).ceiling > MAX_LONG
    ensures 80 <= s.ceiling ==> Again(s, src).s.size >= 80 && Again(s, src).s.ceiling >= 80
  {
    hide LinkState.ErrorFrame, Wording;
  }

  lemma TwiceAgain(size: nat, n: nat)
    ensures size * Pow2(n + 1) == 2 * (size * Pow2(n))
  {
  }

  lemma NoneAgain(s: SenderState)
    ensures SizeAfter(s, 0) == s.size == s.size * Pow2(0)
  {
  }

  /** A packet of data takes no more than it is allowed, and all of it, to within a byte's worth, while there is more to send. */
  ghost predicate Filling(step: SenderStep, allowed: nat, next: nat) {
    && step.s.size == next
    && forall f | f in step.out && f.packet.kind == Kind.Data ::
         |f.packet.data| <= allowed && (step.s.pending != [] ==> |f.packet.data| + 3 > allowed)
  }

  /** Each data packet is as full as the size now allows, and the size for the next is grown. */
  lemma DataTakesSize(s: SenderState, src: SourceState)
    ensures s.link.long.Some? ==>
              var most := Min(s.link.Room(), s.ceiling); Filling(SendData(s, src), Min(s.size, most), Min(s.size * 2, most))
    ensures s.link.long.None? ==> Filling(SendData(s, src), s.link.Room(), s.size)
  {
    hide Filling, Fill, Data.Encode, SenderFail, PacketStep, LinkState.SendsWith, LinkState.Room, DataRoom, Grown;
    var room, sized := DataRoom(s), s.(size := Grown(s));
    RoomAndGrown(s);
    FillKeepsSizes(sized, src, room);
    var f := Fill(sized, src, room);
    FailIsNoData(f.s, f.src, if f.fault.Some? then SourceFailed(f.fault.value) else TooShort, room);
    EndIsNoData(f.s.(state := SendingEnd), f.src, room);
    DataFills(f.s, f.src, room);
  }

  lemma RoomAndGrown(s: SenderState)
    ensures s.link.long.Some? ==> DataRoom(s) == Min(s.size, Min(s.link.Room(), s.ceiling))
                                  && Grown(s) == Min(s.size * 2, Min(s.link.Room(), s.ceiling))
    ensures s.link.long.None? ==> DataRoom(s) == s.link.Room() && Grown(s) == s.size
  {
    hide LinkState.Room;
  }

  lemma DataFills(s: SenderState, src: SourceState, room: nat)
    ensures var e := Data.Encode(s.pending, s.link.SendsWith().Quoting(), room);
            Filling(PacketStep(s.(pending := s.pending[e.used..], inFlight := |e.out|), src, Kind.Data, e.out), room, s.size)
  {
    hide Data.Encode, Data.Put, LinkState.SendsWith, LinkState.CheckUsed;
    var q := s.link.SendsWith().Quoting();
    var e := Data.Encode(s.pending, q, room);
    Data.EncodeIsFull(s.pending, q, room);
    if e.used < |s.pending| {
      PutIsShort(s.pending[e.used], q);
    }
  }

  lemma PutIsShort(b: byte, p: Prefixes)
    ensures |Data.Put(b, p)| <= 3
  {
  }

  lemma EndIsNoData(s: SenderState, src: SourceState, room: nat)
    ensures Filling(PacketStep(s, src, EndOfFile, []), room, s.size)
  {
  }

  lemma FailIsNoData(s: SenderState, src: SourceState, reason: Reason, room: nat)
    ensures Filling(SenderFail(s, src, reason), room, s.size)
  {
    hide Data.Encode, Wording;
  }
}

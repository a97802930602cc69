/**
 How each end ends. No operation on a file that fails goes unnoticed: an end
 that runs on, or is done, has had none fail, and one that stopped for a failure
 gives that failure. A receiver that stops leaves the file it had open as the
 last of its files, incomplete; and an end whose wait runs out once too often
 says what it was waiting for.
 */
module Endings {
  import opened Options
  import opened Bytes
  import opened Checks
  import opened Packets
  import opened Parameters
  import opened Protocol
  import opened Streams
  import opened History
  import opened Network
  import opened Steps
  import Attributes
  import Data
  import Text
  import SenderSide
  import ReceiverSide
  import Theorems
  import Reasons

  // ------------------------------------------------------------------
  // Operations refused
  // ------------------------------------------------------------------

  /** None of the first `n` operations was refused. */
  ghost predicate Clear(refusals: map<nat, seq<byte>>, n: int) {
    forall i: nat | i < n :: i !in refusals
  }

  /** Operation `n` was the first refused, and for this reason. */
  ghost predicate FirstRefused(refusals: map<nat, seq<byte>>, n: int, why: seq<byte>) {
    n >= 0 && n in refusals && refusals[n] == why && Clear(refusals, n)
  }

  /** What has been refused of a store, for a receiver in this state: all but the closing of a file left incomplete. */
  ghost predicate Accounted(status: Status, store: StoreState) {
    match status
    case Running => Clear(store.refusals, store.ops)
    case Done => Clear(store.refusals, store.ops)
    case Cancelled => Clear(store.refusals, store.ops - 1)
    case Failed(reason) =>
      match reason
      case StoreFailed(why) =>
        FirstRefused(store.refusals, store.ops - 1, why) || FirstRefused(store.refusals, store.ops - 2, why)
      case _ => Clear(store.refusals, store.ops - 1)
  }

  /** The file open before is the last, under its name, with what had come of it, incomplete. */
  predicate LeftIncomplete(before: StoreState, after: StoreState) {
    && after.open == None
    && match before.open
       case None => after.files == before.files
       case Some(f) =>
         && |after.files| == |before.files| + 1 && after.files[..|before.files|] == before.files
         && var g := after.files[|before.files|]; g.name == f.name && f.content <= g.content && !g.complete
  }

  /** What every step of a running receiver does to its store. */
  ghost predicate EndsWell(step: ReceiverStep, r: ReceiverState, store: StoreState) {
    && step.store.refusals == store.refusals && step.r.settings == r.settings
    && Accounted(step.r.status, step.store)
    && (step.r.status != Running ==> LeftIncomplete(store, step.store))
    && (step.r.status.Failed? && step.r.status.reason.BadName? ==>
          r.settings.nameFor(step.r.status.reason.sent).None?)
  }

  /** A receiver as it runs: a file is open just when it waits for data, and nothing has been refused. */
  ghost predicate RunsWell(r: ReceiverState, store: StoreState) {
    && r.status == Running && r.open == store.open.Some? && (r.open <==> r.state == AwaitData)
    && Clear(store.refusals, store.ops)
  }

  /** Stopping closes what is open, whatever the store says to that. */
  lemma StopEnds(r: ReceiverState, store: StoreState, status: Status, out: seq<Frame>, r0: ReceiverState, store0: StoreState)
    requires r.open == store.open.Some? && r.settings == r0.settings && store.refusals == store0.refusals
    requires store.files == store0.files && (store.open == store0.open || (store.open.Some? && store0.open.Some?
        && store.open.value.name == store0.open.value.name && store0.open.value.content <= store.open.value.content))
    requires status == Cancelled || (status.Failed? && (status.reason.BadName? ==> r0.settings.nameFor(status.reason.sent).None?))
    requires if status.Failed? && status.reason.StoreFailed? then FirstRefused(store.refusals, store.ops - 1, status.reason.why)
             else Clear(store.refusals, store.ops)
    ensures EndsWell(ReceiverStop(r, store, status, out), r0, store0)
  {
  }

  lemma StillEnds(r: ReceiverState, store: StoreState, out: seq<Frame>, r0: ReceiverState, store0: StoreState)
    requires r.status == Running && r.settings == r0.settings && store.refusals == store0.refusals
    requires Clear(store.refusals, store.ops)
    ensures EndsWell(ReceiverStep(r, store, out), r0, store0)
  {
  }

  /** One more operation. */
  lemma OneMore(refusals: map<nat, seq<byte>>, n: nat)
    requires Clear(refusals, n)
    ensures if n in refusals then FirstRefused(refusals, n, refusals[n]) else Clear(refusals, n + 1)
  {
  }

  lemma FailEnds(r: ReceiverState, store: StoreState, reason: Reason, r0: ReceiverState, store0: StoreState)
    requires r.open == store.open.Some? && r.settings == r0.settings && store.refusals == store0.refusals
    requires store.files == store0.files && (store.open == store0.open || (store.open.Some? && store0.open.Some?
        && store.open.value.name == store0.open.value.name && store0.open.value.content <= store.open.value.content))
    requires reason.BadName? ==> r0.settings.nameFor(reason.sent).None?
    requires if reason.StoreFailed? then FirstRefused(store.refusals, store.ops - 1, reason.why)
             else Clear(store.refusals, store.ops)
    ensures EndsWell(ReceiverFail(r, store, reason), r0, store0)
  {
    hide ReceiverStop, EndsWell, Clear, FirstRefused, Wording, LinkState.ErrorFrame;
    StopEnds(r, store, Failed(reason), [r.link.ErrorFrame(r.expected, Wording(reason))], r0, store0);
  }

  lemma FileEnds(r: ReceiverState, store: StoreState, p: Packet)
    requires RunsWell(r, store) && r.state == AwaitFile
    ensures EndsWell(OnFile(r, store, p), r, store)
  {
    hide EndsWell, ReceiverFail, Clear, FirstRefused, Data.Decode, LinkState.Send;
    var sent := Data.Decode(p.data, r.link.ReadsWith().Quoting());
    var name := r.settings.nameFor(sent);
    OneMore(store.refusals, store.ops);
    if name.None? {
      FailEnds(r, store, BadName(sent), r, store);
    } else if store.Refuses() {
      FailEnds(r, store.Create(name.value), StoreFailed(store.refusals[store.ops]), r, store);
    } else {
      var step := OnFile(r, store, p);
      StillEnds(step.r, step.store, step.out, r, store);
    }
  }

  lemma DataEnds(r: ReceiverState, store: StoreState, p: Packet)
    requires RunsWell(r, store) && r.state == AwaitData
    ensures EndsWell(OnData(r, store, p), r, store)
  {
    hide EndsWell, ReceiverFail, Clear, FirstRefused, Data.Decode, LinkState.Send, Converted, HeldAfter;
    var step := OnData(r, store, p);
    OneMore(store.refusals, store.ops);
    if r.cancelling || !store.Refuses() {
      StillEnds(step.r, step.store, step.out, r, store);
    } else {
      var bytes := Data.Decode(p.data, r.link.ReadsWith().Quoting());
      FailEnds(r.(held := HeldAfter(r, bytes)), store.Write(Converted(r, bytes)), StoreFailed(store.refusals[store.ops]), r, store);
    }
  }

  /** A file finished whose end is refused is left incomplete, and nothing is then open to be closed. */
  lemma EndedEnds(r: ReceiverState, store: StoreState, p: Packet, keep: bool, r0: ReceiverState, store0: StoreState)
    requires store.open.Some? && store0.open.Some? && r.status == Running && r.settings == r0.settings
    requires store.refusals == store0.refusals && store.files == store0.files && Clear(store.refusals, store.ops)
    requires store.open.value.name == store0.open.value.name && store0.open.value.content <= store.open.value.content
    ensures EndsWell(Ended(r, store, p, keep), r0, store0)
  {
    hide Clear, FirstRefused, Wording, LinkState.ErrorFrame, LinkState.Send;
    OneMore(store.refusals, store.ops);
    var step := Ended(r, store, p, keep);
    if !store.Refuses() {
      StillEnds(step.r, step.store, step.out, r0, store0);
    }
  }

  lemma EndEnds(r: ReceiverState, store: StoreState, p: Packet)
    requires RunsWell(r, store) && r.state == AwaitData
    ensures EndsWell(OnEndOfFile(r, store, p), r, store)
  {
    hide EndsWell, ReceiverFail, Ended, Clear, FirstRefused, Text.Finish;
    var r1 := r.(cancelling := r.cancelling || (p.data != [] && p.data[0] == 68));
    OneMore(store.refusals, store.ops);
    if r1.cancelling || r.mode == BinaryMode {
      EndedEnds(r1, store, p, !r1.cancelling, r, store);
    } else {
      var tail, r2 := Text.Finish(r.held), r1.(held := false);
      if tail == [] {
        EndedEnds(r2, store, p, true, r, store);
      } else if store.Refuses() {
        FailEnds(r2, store.Write(tail), StoreFailed(store.refusals[store.ops]), r, store);
      } else {
        EndedEnds(r2.(progress := r.progress.(bytes := r.progress.bytes + |tail|)), store.Write(tail), p, true, r, store);
      }
    }
  }

  lemma BreakEnds(r: ReceiverState, store: StoreState, p: Packet)
    requires RunsWell(r, store) && r.state == AwaitFile
    ensures EndsWell(OnBreak(r, store, p), r, store)
  {
    hide LinkState.Send;
  }

  /** Any packet at all, at a running receiver. */
  lemma HandlingEnds(r: ReceiverState, store: StoreState, p: Packet)
    requires RunsWell(r, store)
    ensures EndsWell(ReceiverHandle(r, store, p), r, store)
  {
    hide EndsWell, ReceiverFail, ReceiverStop, OnSendInit, OnFile, OnBreak, OnAttributes, OnData, OnEndOfFile, Clear, Data.Decode;
    var step := ReceiverHandle(r, store, p);
    FailEnds(r, store, BothReceiving, r, store);
    FailEnds(r, store, Unexpected(p.kind), r, store);
    StopEnds(r, store, Failed(FarEnd(Data.Decode(p.data, r.link.ReadsWith().Quoting()))), [], r, store);
    StillEnds(r, store, [], r, store);
    StillEnds(r.(link := r.link.Arm()), store, r.link.last, r, store);
    StillRuns(r, store, p);
    StillEnds(OnSendInit(r, store, p).r, store, OnSendInit(r, store, p).out, r, store);
    StillEnds(OnAttributes(r, store, p).r, store, OnAttributes(r, store, p).out, r, store);
    if r.state == AwaitFile {
      FileEnds(r, store, p);
      BreakEnds(r, store, p);
    } else if r.state == AwaitData {
      DataEnds(r, store, p);
      EndEnds(r, store, p);
    }
  }

  lemma StillRuns(r: ReceiverState, store: StoreState, p: Packet)
    requires r.status == Running
    ensures var step := OnSendInit(r, store, p); step.r.status == Running && step.store == store && step.r.settings == r.settings
    ensures var step := OnAttributes(r, store, p); step.r.status == Running && step.store == store && step.r.settings == r.settings
  {
    hide LinkState.Send, LinkState.Agree, Attributes.ReadAll, Block;
  }

  lemma OwnEnds(r: ReceiverState, store: StoreState)
    requires RunsWell(r, store)
    ensures EndsWell(ReceiverTick(r, store), r, store) && EndsWell(ReceiverCancel(r, store), r, store)
  {
    hide EndsWell, ReceiverFail, ReceiverStop, Clear, LinkState.ErrorFrame;
    var r' := r.(link := r.link.Retry());
    FailEnds(r', store, if r.state == AwaitFile && r.progress.files > 0 then NothingMore(r.progress.files) else NothingArrived, r, store);
    StillEnds(r', store, [NakFrame(r')], r, store);
    StillEnds(r, store, [], r, store);
    StillEnds(r.(cancelling := true), store, [], r, store);
    StopEnds(r, store, Cancelled, [r.link.ErrorFrame(r.expected, CANCELLED_WORDING)], r, store);
  }

  lemma ToldEnds(r: ReceiverState, store: StoreState, a: Arrival)
    requires RunsWell(r, store)
    ensures EndsWell(ReceiverTold(r, store, a), r, store)
  {
    hide EndsWell, ReceiverHandle, Clear;
    StillEnds(r, store, [], r, store);
    StillEnds(r, store, [NakFrame(r)], r, store);
    if a.Arrived? {
      HandlingEnds(r, store, a.packet);
    }
  }

  // ------------------------------------------------------------------
  // Every run
  // ------------------------------------------------------------------

  lemma RunningReceiverIs(c: Setup, r: ReceiverState, store: StoreState, h: seq<Record>, e: nat, stopped: bool)
    requires ReceiverSide.ReceiverOk(c, r, store, h, e, stopped)
    ensures r.open == store.open.Some? && store.refusals == c.refusals && r.settings == c.receiver
    ensures r.status == Running ==> (r.open <==> r.state == AwaitData)
    ensures r.progress.files == |ReceiverSide.Complete(store.files)|
    ensures r.link.limit == c.receiver.retries
  {
    hide ReceiverSide.WishOk, ReceiverSide.AnswerTo, ReceiverSide.ContentOk, Setup.Sound, NewLink, Setup.ReceiverLink;
    hide ReceiverSide.Faithful, ReceiverSide.Complete, Wholes;
    AgreeingKeepsLimit(c);
    assert NewLink(c.receiver).limit == c.receiver.retries by { NewLinkLimit(c.receiver); }
  }

  lemma NewLinkLimit(settings: Settings)
    ensures NewLink(settings).limit == settings.retries
  {
  }

  /** What an event makes of the receiver, if it is one of the receiver's. */
  lemma ReceiverEventEnds(c: Setup, y: System, ev: Event)
    requires Good(c, y) && Accounted(y.r.status, y.store)
    ensures var z := Apply(c, y, ev);
            && Accounted(z.r.status, z.store) && (y.r.status != Running ==> z.store == y.store && z.r == y.r)
            && (y.r.status == Running && z.r.status != Running ==> LeftIncomplete(y.store, z.store))
            && (y.r.status == Running && z.r.status.Failed? && z.r.status.reason.BadName? ==>
                  c.receiver.nameFor(z.r.status.reason.sent).None?)
  {
    hide Good, SenderSide.SenderOk, ReceiverSide.ReceiverOk, LinesOk, EmittedOk, Clear, FirstRefused, LeftIncomplete, Accounted;
    hide HeardAs, ReceiverTold, SenderTold, ReceiverTick, SenderTick, ReceiverCancel, SenderCancel, ChecksNow, MayDeliver;
    hide Labelled, AnswersLabelled, SenderSide.Extended, LinkState.CheckUsed;
    GoodIs(c, y);
    RunningReceiverIs(c, y.r, y.store, y.history, y.accepted, y.receiverStopped);
    var a := if ev.Delivered? && MayDeliver(c, y, Forth, ev.at) && ev.at < |y.forth|
             then HeardAs(y.forth[ev.at], ChecksNow(y.r), ev.misread) else Nothing;
    if y.r.status == Running {
      assert Clear(y.store.refusals, y.store.ops) by { RunningIsClear(y.store); }
      ToldEnds(y.r, y.store, a);
      OwnEnds(y.r, y.store);
    } else {
      Theorems.StoppedReceiver(y.r, y.store, a);
    }
    EventIsOneStep(c, y, ev, a);
  }

  lemma RunningIsClear(store: StoreState)
    requires Accounted(Running, store)
    ensures Clear(store.refusals, store.ops)
  {
  }

  /** An event changes the receiver and its store by one of the receiver's steps, or not at all. */
  lemma EventIsOneStep(c: Setup, y: System, ev: Event, a: Arrival)
    requires a == if ev.Delivered? && MayDeliver(c, y, Forth, ev.at) && ev.at < |y.forth|
                  then HeardAs(y.forth[ev.at], ChecksNow(y.r), ev.misread) else Nothing
    ensures var z := Apply(c, y, ev); var told, tick, wish := ReceiverTold(y.r, y.store, a),
                                                             ReceiverTick(y.r, y.store), ReceiverCancel(y.r, y.store);
            || (z.r == y.r && z.store == y.store) || (z.r == told.r && z.store == told.store)
            || (z.r == tick.r && z.store == tick.store) || (z.r == wish.r && z.store == wish.store)
  {
    hide HeardAs, ReceiverTold, SenderTold, ReceiverTick, SenderTick, ReceiverCancel, SenderCancel, ChecksNow;
    hide Labelled, AnswersLabelled, SenderSide.Extended, LinkState.CheckUsed;
  }

  /** In every run, no refusal goes unnoticed, and what a receiver says was refused was. */
  lemma {:induction false} NoRefusalIgnored(c: Setup, events: seq<Event>)
    ensures var y := Exec(c, events); Accounted(y.r.status, y.store) && y.store.refusals == c.refusals
    decreases |events|
  {
    hide Apply, Good, Accounted, ReceiverSide.ReceiverOk, SenderSide.SenderOk, LinesOk, EmittedOk;
    AlwaysGood(c, events);
    GoodIs(c, Exec(c, events));
    var y := Exec(c, events);
    RunningReceiverIs(c, y.r, y.store, y.history, y.accepted, y.receiverStopped);
    if events == [] {
      NothingRefused(c);
    } else {
      var before := events[..|events| - 1];
      NoRefusalIgnored(c, before);
      AlwaysGood(c, before);
      ReceiverEventEnds(c, Exec(c, before), events[|events| - 1]);
    }
  }

  lemma NothingRefused(c: Setup)
    ensures var y := Start(c); Accounted(y.r.status, y.store)
  {
    hide Block;
  }

  /**
   Whatever ends a receiver's run, be it an error, a refusal, its user or
   silence, the file it had open is the last of its files, incomplete, with at
   least what had come of it.
   */
  lemma NothingLeftOpen(c: Setup, events: seq<Event>, ev: Event)
    requires var y := Exec(c, events); y.r.status == Running && Apply(c, y, ev).r.status != Running
    ensures var y := Exec(c, events); LeftIncomplete(y.store, Apply(c, y, ev).store)
  {
    hide Exec, Good, Apply, Accounted, LeftIncomplete;
    AlwaysGood(c, events);
    NoRefusalIgnored(c, events);
    ReceiverEventEnds(c, Exec(c, events), ev);
  }

  /**
   A receiver whose wait runs out asks again while it has a try left; then it
   stops, saying how many files are complete if it was between files and there
   are any, and otherwise that nothing arrived.
   */
  lemma ReceiverGivesUpExactly(c: Setup, events: seq<Event>)
    requires var y := Exec(c, events); y.r.status == Running && y.r.link.armed
    ensures var y := Exec(c, events); var z := Apply(c, y, TimesOut(Back)); var kept := |ReceiverSide.Complete(y.store.files)|;
            z.r.status == if y.r.link.retries < c.receiver.retries then Running
                          else if y.store.open.None? && kept > 0 then Failed(NothingMore(kept)) else Failed(NothingArrived)
  {
    hide Exec, Good, SenderSide.SenderOk, ReceiverSide.ReceiverOk, LinesOk, EmittedOk, AnswersLabelled, ReceiverSide.Complete;
    hide LinkState.ErrorFrame, Wording;
    var y := Exec(c, events);
    AlwaysGood(c, events);
    GoodIs(c, y);
    RunningReceiverIs(c, y.r, y.store, y.history, y.accepted, y.receiverStopped);
    AwaitingIs(c, y.r, y.store, y.history, y.accepted, y.receiverStopped);
  }

  /** A receiver that waits for anything but data or a file has taken nothing, and so kept nothing. */
  lemma AwaitingIs(c: Setup, r: ReceiverState, store: StoreState, h: seq<Record>, e: nat, stopped: bool)
    requires ReceiverSide.ReceiverOk(c, r, store, h, e, stopped) && r.status == Running
    ensures r.state == AwaitFile || r.state == AwaitData || (r.state == AwaitSendInit && r.progress.files == 0)
  {
    hide ReceiverSide.LinkAfter, ReceiverSide.AnswerTo, ReceiverSide.ContentOk, Setup.Sound;
  }

  // ------------------------------------------------------------------
  // The sender
  // ------------------------------------------------------------------

  /** What has failed of the source, for a sender in this state: nothing, or what it stopped for, and that last. */
  ghost predicate Sourced(status: Status, src: SourceState) {
    if status.Failed? && status.reason.SourceFailed? then FirstRefused(src.faults, src.ops - 1, status.reason.why)
    else Clear(src.faults, src.ops)
  }

  ghost predicate SourcedFrom(step: SenderStep, src: SourceState) {
    Sourced(step.s.status, step.src) && step.src.faults == src.faults
  }

  lemma {:induction false} FillSourced(s: SenderState, src: SourceState, room: nat)
    requires Clear(src.faults, src.ops)
    ensures var f := Fill(s, src, room);
            && f.src.faults == src.faults && f.s.status == s.status
            && match f.fault
               case Some(why) => FirstRefused(src.faults, f.src.ops - 1, why)
               case None => Clear(src.faults, f.src.ops)
    decreases if s.eof then 0 else 1, |src.Content()| - src.pos
  {
    hide Clear, FirstRefused, Prepared, AfterCrThen, Fill;
    OneMore(src.faults, src.ops);
    if !s.eof && |s.pending| < room && src.ops !in src.faults {
      var n := src.ReadSize(Max(room, 1));
      FillReads(s, src, room);
      FillSourced(if n == 0 || src.pos > |src.Content()| then s.(eof := true) else SenderSide.HavingRead(s, src, n),
                  src.(ops := src.ops + 1, pos := src.pos + n), room);
    } else {
      SenderSide.FillStops(s, src, room);
    }
  }

  /** One read, whatever has been read. */
  lemma FillReads(s: SenderState, src: SourceState, room: nat)
    requires !s.eof && |s.pending| < room && src.ops !in src.faults
    ensures var n := src.ReadSize(Max(room, 1)); var src' := src.(ops := src.ops + 1, pos := src.pos + n);
            Fill(s, src, room)
            == Fill(if n == 0 || src.pos > |src.Content()| then s.(eof := true) else SenderSide.HavingRead(s, src, n), src', room)
  {
    hide Prepared, AfterCrThen;
  }

  lemma StopSourced(s: SenderState, src: SourceState, reason: Reason)
    requires if reason.SourceFailed? then FirstRefused(src.faults, src.ops - 1, reason.why) else Clear(src.faults, src.ops)
    ensures Sourced(SenderFail(s, src, reason).s.status, src) && SenderFail(s, src, reason).src == src
  {
    hide Clear, FirstRefused, LinkState.ErrorFrame, Wording;
  }

  lemma NextFileSourced(s: SenderState, src: SourceState)
    requires Clear(src.faults, src.ops) && s.status == Running
    ensures SourcedFrom(NextFile(s, src), src)
  {
    hide Clear, FirstRefused, SenderFail, Data.Encode;
    OneMore(src.faults, src.ops);
    if src.ops in src.faults {
      StopSourced(s, src.(ops := src.ops + 1), SourceFailed(src.faults[src.ops]));
    }
  }

  lemma SendDataSourced(s: SenderState, src: SourceState)
    requires Clear(src.faults, src.ops) && s.status == Running
    ensures SourcedFrom(SendData(s, src), src)
  {
    hide Clear, FirstRefused, SenderFail, Data.Encode, Fill, DataRoom, Grown;
    var f := Fill(s.(size := Grown(s)), src, DataRoom(s));
    FillSourced(s.(size := Grown(s)), src, DataRoom(s));
    if f.fault.Some? {
      StopSourced(f.s, f.src, SourceFailed(f.fault.value));
    } else {
      StopSourced(f.s, f.src, TooShort);
    }
  }

  lemma AcknowledgedSourced(s: SenderState, src: SourceState, data: seq<byte>)
    requires Clear(src.faults, src.ops) && s.status == Running
    ensures SourcedFrom(Acknowledged(s, src, data), src)
  {
    hide Clear, FirstRefused, SendData, NextFile, PacketStep, SenderStop, Attributes.Built, ReadBlock, LinkState.Agree;
    hide SourcedFrom;
    var m := SenderSide.Moved(s);
    PacketsSourced(src);
    match s.state {
      case SendingInit => NextFileSourced(m.(link := m.link.Agree(ReadBlock(data))), src);
      case SendingFile =>
        var m1 := m.(pending := [], afterCr := false, eof := false, discarding := false);
        SendDataSourced(m1.(state := SendingData), src);
      case SendingAttributes => SendDataSourced(m.(state := SendingData), src);
      case SendingData => SendDataSourced(m.(cancelling := s.cancelling || (data != [] && data[0] == 90)), src);
      case SendingEnd =>
        NextFileSourced(m.(progress := s.progress.(files := s.progress.files + if s.discarding then 0 else 1)), src);
      case SendingBreak => StillSourced(m, src);
      case Finished => StillSourced(m, src);
    }
  }

  /** A packet sent opens and reads nothing. */
  lemma PacketsSourced(src: SourceState)
    requires Clear(src.faults, src.ops)
    ensures forall s: SenderState, kind, data | s.status == Running :: SourcedFrom(PacketStep(s, src, kind, data), src)
  {
    hide Clear;
  }

  lemma StillSourced(s: SenderState, src: SourceState)
    requires Clear(src.faults, src.ops) && s.status == Running
    ensures SourcedFrom(SenderStep(s, src, []), src)
    ensures SourcedFrom(SenderStop(s, src, if s.cancelling then Cancelled else Done, []), src)
  {
    hide Clear;
  }

  lemma AgainSourced(s: SenderState, src: SourceState)
    requires Clear(src.faults, src.ops) && s.status == Running
    ensures SourcedFrom(Again(s, src), src)
  {
    hide Clear, FirstRefused, SenderFail;
    var backed := Backed(s);
    StopSourced(backed.(link := backed.link.Retry()), src, NoAnswer);
  }

  lemma ToldSourced(s: SenderState, src: SourceState, a: Arrival)
    requires Clear(src.faults, src.ops) && s.status == Running
    ensures SourcedFrom(SenderTold(s, src, a), src)
  {
    hide Clear, FirstRefused, SenderFail, Acknowledged, Again, Data.Decode;
    AgainSourced(s, src);
    AcknowledgedSourced(s, src, []);
    StopSourced(s, src, BothSending);
    if a.Arrived? {
      AcknowledgedSourced(s, src, a.packet.data);
    }
  }

  lemma OwnSourced(s: SenderState, src: SourceState)
    requires Clear(src.faults, src.ops) && s.status == Running
    ensures SourcedFrom(SenderTick(s, src), src) && SourcedFrom(SenderCancel(s, src), src)
  {
    hide Clear, FirstRefused, Again, LinkState.ErrorFrame;
    AgainSourced(s, src);
  }

  lemma SenderEventSourced(c: Setup, y: System, ev: Event)
    requires Sourced(y.s.status, y.src)
    ensures Sourced(Apply(c, y, ev).s.status, Apply(c, y, ev).src)
  {
    hide Sourced, HeardAs, ReceiverTold, SenderTold, ReceiverTick, SenderTick, ReceiverCancel, SenderCancel, ChecksNow, Clear;
    var a := if ev.Delivered? && MayDeliver(c, y, Back, ev.at) && ev.at < |y.back|
             then HeardAs(y.back[ev.at], [y.s.link.CheckUsed()], ev.misread) else Nothing;
    if y.s.status == Running {
      RunningIsSourced(y.src);
      ToldSourced(y.s, y.src, a);
      OwnSourced(y.s, y.src);
    } else {
      Theorems.StoppedSender(y.s, y.src, a);
    }
    SenderIsOneStep(c, y, ev, a);
  }

  lemma RunningIsSourced(src: SourceState)
    requires Sourced(Running, src)
    ensures Clear(src.faults, src.ops)
  {
  }

  lemma SenderIsOneStep(c: Setup, y: System, ev: Event, a: Arrival)
    requires a == if ev.Delivered? && MayDeliver(c, y, Back, ev.at) && ev.at < |y.back|
                  then HeardAs(y.back[ev.at], [y.s.link.CheckUsed()], ev.misread) else Nothing
    ensures var z := Apply(c, y, ev); var told, tick, wish := SenderTold(y.s, y.src, a),
                                                             SenderTick(y.s, y.src), SenderCancel(y.s, y.src);
            || (z.s == y.s && z.src == y.src) || (z.s == told.s && z.src == told.src)
            || (z.s == tick.s && z.src == tick.src) || (z.s == wish.s && z.src == wish.src)
  {
    hide HeardAs, ReceiverTold, SenderTold, ReceiverTick, SenderTick, ReceiverCancel, SenderCancel, ChecksNow;
    hide Labelled, AnswersLabelled, SenderSide.Extended, LinkState.CheckUsed;
  }

  /** In every run a sender stops at the first operation on its files that fails, says which, and otherwise none has. */
  lemma {:induction false} NoFaultIgnored(c: Setup, events: seq<Event>)
    ensures var y := Exec(c, events); Sourced(y.s.status, y.src) && y.src.faults == c.faults
    decreases |events|
  {
    hide Apply, Good, Sourced, ReceiverSide.ReceiverOk, SenderSide.SenderOk, LinesOk, EmittedOk;
    AlwaysGood(c, events);
    var y := Exec(c, events);
    GoodIs(c, y);
    SourceIs(c, y.s, y.src, y.history);
    if events == [] {
      NothingFailed(c);
    } else {
      NoFaultIgnored(c, events[..|events| - 1]);
      SenderEventSourced(c, Exec(c, events[..|events| - 1]), events[|events| - 1]);
    }
  }

  lemma SourceIs(c: Setup, s: SenderState, src: SourceState, h: seq<Record>)
    requires SenderSide.SenderOk(c, s, src, h)
    ensures src.faults == c.faults
  {
    hide Chain, SenderSide.LinkOk, SenderSide.LinkKnown, SenderSide.RunningOk, NoneDiscarded, Wholes;
  }

  lemma NothingFailed(c: Setup)
    ensures var y := Start(c); Sourced(y.s.status, y.src)
  {
    hide Block;
  }

  /**
   A sender whose wait runs out sends its packet again while it has a try left;
   then it is done if that packet was the last of all, and otherwise has had no
   answer.
   */
  lemma SenderGivesUpExactly(c: Setup, events: seq<Event>)
    requires var y := Exec(c, events); y.s.status == Running && y.s.link.armed
    ensures Exec(c, events).history != []
    ensures var y := Exec(c, events); var z := Apply(c, y, TimesOut(Forth)); var last := Last(y.history);
            && (y.s.link.retries < c.sender.retries ==>
                  z.s.status == Running && z.forth == y.forth + [Whole(last.frame, |y.history| - 1)])
            && (y.s.link.retries >= c.sender.retries ==>
                  z.s.status == if last.Kind() == Break then Done else Failed(NoAnswer))
  {
    hide Exec, Good, SenderSide.SenderOk, ReceiverSide.ReceiverOk, LinesOk, EmittedOk, SenderTick, AfterSender;
    var y := Exec(c, events);
    AlwaysGood(c, events);
    GoodIs(c, y);
    SenderKnows(c, y.s, y.src, y.history);
    KindIsState(c, y.s, y.src, y.history);
    TickIs(y.s, y.src);
    SentOnLine(y, SenderTick(y.s, y.src));
  }

  lemma SentOnLine(y: System, step: SenderStep)
    requires y.history != []
    ensures AfterSender(y, step).s == step.s
    ensures step.s.seqno == y.s.seqno && |step.out| == 1 ==>
              AfterSender(y, step).forth == y.forth + [Whole(step.out[0], |y.history| - 1)]
  {
    hide SenderSide.Extended;
    assert |step.out| == 1 ==> Labelled(step.out, |y.history| - 1) == [Whole(step.out[0], |y.history| - 1)];
  }

  lemma TickIs(s: SenderState, src: SourceState)
    requires s.status == Running && s.link.armed
    ensures var step := SenderTick(s, src);
            if s.link.retries < s.link.limit then
              step.s.status == Running && step.s.seqno == s.seqno && step.out == s.link.last
            else
              step.s.status == if s.state == SendingBreak then Done else Failed(NoAnswer)
  {
    hide LinkState.ErrorFrame, Wording;
  }

  lemma KindIsState(c: Setup, s: SenderState, src: SourceState, h: seq<Record>)
    requires SenderSide.SenderOk(c, s, src, h) && s.status == Running
    ensures h != [] && Last(h).Kind() == SenderSide.KindSent(s.state) && s.state != Finished
  {
    hide Chain, SenderSide.LinkOk, SenderSide.FileOk, NoneDiscarded, Wholes, SenderSide.SizesOk;
  }
}

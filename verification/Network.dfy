/**
 Two ends and the line between them. The line may lose a message, repeat it,
 spoil it or make noise; either end's wait may run out at any time it is
 waiting, and either user may stop at any time. A run is any list of such
 events, an event that cannot happen changing nothing, so that a statement
 about every list is a statement about every reachable state.
 */
module Network {
  import opened Options
  import opened Bytes
  import opened Checks
  import opened Packets
  import opened Parameters
  import opened Protocol
  import opened Streams
  import opened History
  import SenderSide
  import ReceiverSide

  /**
   Something on the line: a frame, or noise with a mark in it. A frame is
   labelled with the packet of the history it is, or answers, or asks for; no
   step of either end reads the label.
   */
  datatype Message = Whole(frame: Frame, index: nat) | Noise

  /** Towards the receiver, or back to the sender. */
  datatype Way = Forth | Back

  datatype Event =
    | Delivered(way: Way, at: nat, misread: Arrival)
    | TimesOut(way: Way)
    | UserStops(way: Way)
    | Lost(way: Way, at: nat)
    | Repeated(way: Way, at: nat)
    | Spoiled(way: Way, at: nat)
    | Hiss(way: Way, at: nat)

  datatype System = System(
    s: SenderState,
    src: SourceState,
    r: ReceiverState,
    store: StoreState,
    forth: seq<Message>,
    back: seq<Message>,
    history: seq<Record>,
    accepted: nat,
    senderStopped: bool,
    receiverStopped: bool,
    emitted: nat)

  function Start(c: Setup): System {
    var s := SenderStart(NewSender(c.sender));
    System(s, SourceState(c.files, 0, 0, 0, c.chunks, c.faults),
           NewReceiver(c.receiver), StoreState([], None, 0, c.refusals),
           [Whole(s.link.last[0], 0)], [], [Record(s.link.last[0], 0, 0)], 0, false, false, 1)
  }

  // ------------------------------------------------------------------
  // One step
  // ------------------------------------------------------------------

  /** What a message is heard as by an end that reads with `checks`. */
  function HeardAs(m: Message, checks: seq<Check>, misread: Arrival): Arrival
    requires checks != []
  {
    match m
    case Noise => Damage
    case Whole(f, _) =>
      if MayArriveAs(f, checks, misread) then misread
      else if f.check in checks then Arrived(f.packet)
      else Damage
  }

  /** The index of the packet the sender waits to hear of. */
  function Waiting(y: System): int { |y.history| - 1 }

  function Labelled(fs: seq<Frame>, index: nat): seq<Message> {
    seq(|fs|, i requires 0 <= i < |fs| => Whole(fs[i], index))
  }

  /** An acknowledgement is of the last packet accepted; anything else asks for the next. */
  function AnswersLabelled(fs: seq<Frame>, accepted: nat): seq<Message> {
    seq(|fs|, i requires 0 <= i < |fs| =>
      Whole(fs[i], if fs[i].packet.kind == Ack && accepted > 0 then accepted - 1 else accepted))
  }

  function AfterSender(y: System, step: SenderStep): System {
    var history := if step.s.seqno != y.s.seqno then SenderSide.Extended(step, y.history) else y.history;
    y.(s := step.s, src := step.src, history := history,
       forth := y.forth + Labelled(step.out, Max(|history| - 1, 0)), emitted := y.emitted + |step.out|)
  }

  function AfterReceiver(y: System, step: ReceiverStep): System {
    var accepted := if step.r.expected != y.r.expected then y.accepted + 1 else y.accepted;
    y.(r := step.r, store := step.store, accepted := accepted, back := y.back + AnswersLabelled(step.out, accepted))
  }

  function OnLine(y: System, way: Way): seq<Message> { if way.Forth? then y.forth else y.back }

  function WithLine(y: System, way: Way, ms: seq<Message>): System {
    if way.Forth? then y.(forth := ms) else y.(back := ms)
  }

  function Without(ms: seq<Message>, at: nat): seq<Message>
    requires at < |ms|
  {
    ms[..at] + ms[at + 1..]
  }

  /** No more than 62 packets have moved on since the message was sent. */
  predicate Young(y: System, way: Way, m: Message) {
    m.Whole? ==> m.index + 62 >= if way.Forth? then Waiting(y) else y.accepted
  }

  /** A line that keeps order gives up its first message; another, any that is young. */
  predicate MayDeliver(c: Setup, y: System, way: Way, at: nat) {
    at < |OnLine(y, way)| && (if c.ordered then at == 0 else Young(y, way, OnLine(y, way)[at]))
  }

  /** What an arrival makes the receiver do. */
  function ReceiverTold(r: ReceiverState, store: StoreState, a: Arrival): ReceiverStep {
    match a
    case Arrived(p) => ReceiverHears(r, store, p)
    case Damage => ReceiverDamaged(r, store)
    case Nothing => ReceiverStep(r, store, [])
  }

  /** What an arrival makes the sender do: it says nothing of damage. */
  function SenderTold(s: SenderState, src: SourceState, a: Arrival): SenderStep {
    match a
    case Arrived(p) => SenderHears(s, src, p)
    case _ => SenderStep(s, src, [])
  }

  /** The checks the receiver reads with: once it is done, the agreed one alone. */
  function ChecksNow(r: ReceiverState): (checks: seq<Check>)
    ensures 1 <= |checks| <= 2
  {
    if r.status == Running then ReceiverChecks(r) else [r.link.CheckUsed()]
  }

  function Apply(c: Setup, y: System, ev: Event): System {
    match ev
    case Delivered(way, at, misread) =>
      if !MayDeliver(c, y, way, at) then y
      else
        var m := OnLine(y, way)[at];
        var y' := WithLine(y, way, Without(OnLine(y, way), at));
        if way.Forth? then AfterReceiver(y', ReceiverTold(y.r, y.store, HeardAs(m, ChecksNow(y.r), misread)))
        else AfterSender(y', SenderTold(y.s, y.src, HeardAs(m, [y.s.link.CheckUsed()], misread)))
    case TimesOut(Forth) => AfterSender(y, SenderTick(y.s, y.src))
    case TimesOut(Back) => AfterReceiver(y, ReceiverTick(y.r, y.store))
    case UserStops(Forth) => AfterSender(y.(senderStopped := true), SenderCancel(y.s, y.src))
    case UserStops(Back) => AfterReceiver(y.(receiverStopped := true), ReceiverCancel(y.r, y.store))
    case Lost(way, at) =>
      var ms := OnLine(y, way);
      if at < |ms| then WithLine(y, way, Without(ms, at)) else y
    case Repeated(way, at) =>
      var ms := OnLine(y, way);
      if at < |ms| then WithLine(y, way, ms[..at] + [ms[at]] + ms[at..]) else y
    case Spoiled(way, at) =>
      var ms := OnLine(y, way);
      if at < |ms| then WithLine(y, way, ms[at := Noise]) else y
    case Hiss(way, at) =>
      var ms := OnLine(y, way);
      if at <= |ms| then WithLine(y, way, ms[..at] + [Noise] + ms[at..]) else y
  }

  /** The system after a list of events. */
  function Exec(c: Setup, events: seq<Event>): System {
    if events == [] then Start(c) else Apply(c, Exec(c, events[..|events| - 1]), events[|events| - 1])
  }

  function ExecFrom(c: Setup, y: System, events: seq<Event>): System
    decreases |events|
  {
    if events == [] then y else ExecFrom(c, Apply(c, y, events[0]), events[1..])
  }

  lemma {:induction false} ExecContinues(c: Setup, before: seq<Event>, after: seq<Event>)
    ensures Exec(c, before + after) == ExecFrom(c, Exec(c, before), after)
    decreases |after|
  {
    if after == [] {
      assert before + after == before;
    } else {
      var first := before + [after[0]];
      assert before + after == first + after[1..];
      assert first[..|first| - 1] == before;
      ExecContinues(c, first, after[1..]);
    }
  }

  // ------------------------------------------------------------------
  // What every step keeps
  // ------------------------------------------------------------------

  /** What may be on its way to the receiver. */
  ghost predicate ForthOk(m: Message, h: seq<Record>) {
    m.Whole? ==> m.frame.packet.kind == Error || (m.index < |h| && m.frame == h[m.index].frame)
  }

  /** What may be on its way back. */
  ghost predicate BackOk(c: Setup, m: Message, accepted: nat, stopped: bool) {
    m.Whole? ==>
      || m.frame.packet.kind == Error
      || (m.index < accepted && ReceiverSide.AnswerTo(c, m.frame, m.index, stopped))
      || (m.index <= accepted && ReceiverSide.NakFor(c, m.frame, m.index))
  }

  ghost predicate LinesOk(c: Setup, y: System) {
    && (forall m | m in y.forth :: ForthOk(m, y.history))
    && (forall m | m in y.back :: BackOk(c, m, y.accepted, y.receiverStopped))
  }

  /** How often the sender may have sent anything by now. */
  ghost predicate EmittedOk(c: Setup, y: System) {
    if y.s.status == Running then y.emitted <= Sendings(c, |y.history| - 1) + y.s.link.retries + 1
    else y.emitted <= Sendings(c, |y.history|) + 1
  }

  /** `n` packets, each sent and then sent again as often as the limit allows. */
  function Sendings(c: Setup, n: int): int { (c.sender.retries + 1) * n }

  ghost predicate Inv(c: Setup, y: System) {
    && SenderSide.SenderOk(c, y.s, y.src, y.history)
    && ReceiverSide.ReceiverOk(c, y.r, y.store, y.history, y.accepted, y.receiverStopped)
    && |y.history| - 1 <= y.accepted <= |y.history|
    && LinesOk(c, y)
    && (y.s.cancelling ==> y.senderStopped || y.receiverStopped)
    && EmittedOk(c, y)
  }

  // ------------------------------------------------------------------
  // Lines that keep their order
  // ------------------------------------------------------------------

  /** The packet a message is, or the packet it asks for or has the receiver waiting for. */
  function Level(m: Message): int {
    if m.Noise? then 0 else if m.frame.packet.kind == Ack then m.index + 1 else m.index
  }

  ghost predicate Rising(ms: seq<Message>, low: int, high: int) {
    && (forall i | 0 <= i < |ms| && ms[i].Whole? :: low <= Level(ms[i]) <= high)
    && (forall i, j | 0 <= i < j < |ms| && ms[i].Whole? && ms[j].Whole? :: Level(ms[i]) <= Level(ms[j]))
  }

  /** To the receiver only the packet it last accepted and the one it waits for; back only what is of them. */
  ghost predicate InOrder(y: System) {
    Rising(y.forth, y.accepted - 1, Waiting(y)) && Rising(y.back, Waiting(y), y.accepted)
  }

  lemma RisingChanges(ms: seq<Message>, low: int, high: int, at: nat)
    requires Rising(ms, low, high) && at < |ms|
    ensures Rising(Without(ms, at), low, high)
    ensures Rising(ms[..at] + [ms[at]] + ms[at..], low, high)
    ensures Rising(ms[at := Noise], low, high)
  {
    hide Rising, Level, Without;
    RisingWithout(ms, low, high, at);
    RisingTwice(ms, low, high, at);
    RisingSpoiled(ms, low, high, at);
  }

  lemma RisingWithout(ms: seq<Message>, low: int, high: int, at: nat)
    requires Rising(ms, low, high) && at < |ms|
    ensures Rising(Without(ms, at), low, high)
  {
    hide Level;
    var rest := Without(ms, at);
    assert forall i | 0 <= i < |rest| :: rest[i] == ms[if i < at then i else i + 1];
  }

  lemma RisingTwice(ms: seq<Message>, low: int, high: int, at: nat)
    requires Rising(ms, low, high) && at < |ms|
    ensures Rising(ms[..at] + [ms[at]] + ms[at..], low, high)
  {
    hide Level;
    var more := ms[..at] + [ms[at]] + ms[at..];
    assert forall i | 0 <= i < |more| :: more[i] == ms[if i <= at then i else i - 1];
  }

  lemma RisingSpoiled(ms: seq<Message>, low: int, high: int, at: nat)
    requires Rising(ms, low, high) && at < |ms|
    ensures Rising(ms[at := Noise], low, high)
  {
    hide Level;
  }

  lemma RisingHisses(ms: seq<Message>, low: int, high: int, at: nat)
    requires Rising(ms, low, high) && at <= |ms|
    ensures Rising(ms[..at] + [Noise] + ms[at..], low, high)
  {
  }

  /** Once the first message is gone, nothing below it is left. */
  lemma RisingHead(ms: seq<Message>, low: int, high: int)
    requires Rising(ms, low, high) && ms != [] && ms[0].Whole?
    ensures Rising(Without(ms, 0), Level(ms[0]), high)
  {
    forall i | 0 <= i < |ms| - 1 && Without(ms, 0)[i].Whole? ensures Level(ms[0]) <= Level(Without(ms, 0)[i]) {
      assert Without(ms, 0)[i] == ms[i + 1];
    }
  }

  lemma RisingAppend(ms: seq<Message>, low: int, high: int, more: seq<Message>, high': int)
    requires Rising(ms, low, high) && low <= high <= high' && |more| <= 1
    requires forall m | m in more :: m.Whole? && Level(m) == high'
    ensures Rising(ms + more, low, high')
  {
    forall i | 0 <= i < |ms + more| && (ms + more)[i].Whole? ensures low <= Level((ms + more)[i]) <= high' {
      if i == |ms| { assert (ms + more)[i] in more; } else { assert (ms + more)[i] == ms[i]; }
    }
    forall i, j | 0 <= i < j < |ms + more| && (ms + more)[i].Whole? && (ms + more)[j].Whole?
      ensures Level((ms + more)[i]) <= Level((ms + more)[j])
    {
      assert (ms + more)[i] == ms[i];
      if j == |ms| { assert (ms + more)[j] in more; } else { assert (ms + more)[j] == ms[j]; }
    }
  }

  lemma RisingWidens(ms: seq<Message>, low: int, high: int, low': int, high': int)
    requires Rising(ms, low, high) && low' <= low && high <= high'
    ensures Rising(ms, low', high')
  {
  }
}

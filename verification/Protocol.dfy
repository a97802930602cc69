/**
 A whole transfer as functions from state to state: what each end does with a
 packet, with damage, with a time-out and with its user's wish to stop. The
 classes of modules `Links`, `Senders` and `Receivers` are proved to compute
 these functions, and the theorems about whole transfers are proved of them.
 */
module Protocol {
  import opened Options
  import opened Bytes
  import opened Checks
  import opened Packets
  import opened Parameters
  import Data
  import Text
  import Attributes

  // ------------------------------------------------------------------
  // Settings and progress
  // ------------------------------------------------------------------

  datatype Mode = TextMode | BinaryMode

  /**
   `nameFor` is the name a file is kept under for the name that arrived, or
   nothing when the name is refused.
   */
  datatype Settings = Settings(
    params: Params,
    mode: Mode,
    local: Text.LineEnding,
    nameFor: seq<byte> -> Option<seq<byte>>,
    retries: nat)

  datatype Reason =
    | FarEnd(said: seq<byte>)
    | NoAnswer
    | NothingArrived
    | NothingMore(files: nat)
    | BothReceiving
    | BothSending
    | BadName(sent: seq<byte>)
    | StoreFailed(why: seq<byte>)
    | SourceFailed(why: seq<byte>)
    | TooShort
    | Unexpected(kind: Kind)

  datatype Status = Running | Done | Cancelled | Failed(reason: Reason)

  datatype Progress = Progress(file: Option<seq<byte>>, bytes: nat, files: nat, size: Option<nat>)

  const NO_PROGRESS := Progress(None, 0, 0, None)

  function Ascii(s: string): seq<byte> {
    seq(|s|, i requires 0 <= i < |s| => s[i] as int % 256)
  }

  /** What is said to the far end. */
  function Wording(reason: Reason): seq<byte> {
    match reason
    case FarEnd(said) => Ascii("the other end stopped: ") + said
    case NoAnswer => Ascii("no answer from the other end")
    case NothingArrived => Ascii("nothing arrived from the other end")
    case NothingMore(n) =>
      if n == 1 then Ascii("nothing more arrived after 1 complete file")
      else Ascii("nothing more arrived after ") + Attributes.Decimal(n) + Ascii(" complete files")
    case BothReceiving => Ascii("the other end is waiting to receive too: to send it a file, choose Send File")
    case BothSending => Ascii("the other end is sending too: to take its files, choose Receive File")
    case BadName(sent) => Ascii("refusing the file name ") + sent
    case StoreFailed(why) => why
    case SourceFailed(why) => why
    case TooShort => Ascii("the other end's packets are too short to carry anything")
    case Unexpected(kind) => Ascii("a ") + [kind.AsByte()] + Ascii(" packet was not expected here")
  }

  const CANCELLED_WORDING := Ascii("cancelled")

  /** The number after this one, of the 64 there are. */
  function Next(s: byte): byte { (s + 1) % 64 }

  function Previous(s: byte): byte { (s + 63) % 64 }

  // ------------------------------------------------------------------
  // Files
  // ------------------------------------------------------------------

  type u64 = n: nat | n < Attributes.SIZES

  datatype SourceFile = SourceFile(name: seq<byte>, content: seq<byte>, size: Option<u64>, mode: Option<Mode>)

  /**
   Files to send: `at` of them have been begun, and `pos` bytes of the last of
   those read. The `n`th operation fails where `faults` names it, and read
   number `n` gives at most `chunks[n]` bytes (but at least one, while there
   are any).
   */
  datatype SourceState = SourceState(
    files: seq<SourceFile>, at: nat, pos: nat, ops: nat, chunks: seq<nat>, faults: map<nat, seq<byte>>)
  {
    function Content(): seq<byte> {
      if 0 < at <= |files| then files[at - 1].content else []
    }

    function ReadSize(most: nat): (n: nat)
      ensures pos <= |Content()| ==> pos + n <= |Content()|
      ensures pos < |Content()| && most > 0 ==> n > 0
      ensures n <= most
    {
      var left := if pos <= |Content()| then |Content()| - pos else 0;
      var chunk := if ops < |chunks| then Max(chunks[ops], 1) else most;
      Min(Min(left, most), chunk)
    }
  }

  datatype StoredFile = StoredFile(name: seq<byte>, content: seq<byte>, complete: bool)

  datatype OpenFile = OpenFile(name: seq<byte>, content: seq<byte>)

  /** Received files; the `n`th operation is refused where `refusals` names it. */
  datatype StoreState = StoreState(
    files: seq<StoredFile>, open: Option<OpenFile>, ops: nat, refusals: map<nat, seq<byte>>)
  {
    predicate Refuses() { ops in refusals }

    function Create(name: seq<byte>): StoreState {
      this.(open := if Refuses() then open else Some(OpenFile(name, [])), ops := ops + 1)
    }

    function Write(data: seq<byte>): StoreState {
      this.(open := if Refuses() || open.None? then open else Some(OpenFile(open.value.name, open.value.content + data)),
            ops := ops + 1)
    }

    /** A file whose end is refused is not complete. */
    function Finish(complete: bool): StoreState {
      this.(files := if open.None? then files
                     else files + [StoredFile(open.value.name, open.value.content, complete && !Refuses())],
            open := None, ops := ops + 1)
    }
  }

  // ------------------------------------------------------------------
  // What both directions share
  // ------------------------------------------------------------------

  /** A packet and all that goes out around it. */
  datatype Frame = Frame(packet: Packet, check: Check, padding: byte, padWith: byte, endOfLine: byte)

  function FrameBytes(f: Frame): seq<byte> {
    Repeat(f.padWith, f.padding) + Wire(f.packet, f.check, MARK) + [f.endOfLine]
  }

  function LineBytes(fs: seq<Frame>): seq<byte> {
    if fs == [] then [] else FrameBytes(fs[0]) + LineBytes(fs[1..])
  }

  datatype Agreement = Agreement(sending: Params, reading: Params)

  /** `last` is empty or holds the one packet that is kept to be repeated. */
  datatype LinkState = LinkState(
    ours: Params,
    agreed: Option<Agreement>,
    attributes: bool,
    long: Option<nat>,
    last: seq<Frame>,
    retries: nat,
    limit: nat,
    armed: bool)
  {
    function SendsWith(): Params { if agreed.Some? then agreed.value.sending else DEFAULT }

    function ReadsWith(): Params { if agreed.Some? then agreed.value.reading else DEFAULT }

    function CheckUsed(): Check { if agreed.Some? then agreed.value.sending.check else One }

    /** How many characters of data a packet may hold. */
    function Room(): nat {
      if long.Some? then Max(long.value - (7 + CheckUsed().Chars()), 0)
      else Max(SendsWith().maxLength - (2 + CheckUsed().Chars()), 0)
    }

    /** Whether there is a time limit at all. */
    predicate Timed() { if agreed.Some? then agreed.value.sending.timeout > 0 else ours.timeout > 0 }

    function Arm(): LinkState { this.(armed := Timed()) }

    function Disarm(): LinkState { this.(armed := false) }

    function Agree(theirs: Params): LinkState {
      this.(attributes := OffersAttributes(ours.capabilities) && OffersAttributes(theirs.capabilities),
            long := if Long(ours).Some? then Long(theirs) else None,
            agreed := Some(Agreement(Parameters.Sending(ours, theirs), Agreed(ours, theirs))))
    }

    function Built(seqno: byte, kind: Kind, data: seq<byte>, check: Check): Frame {
      Frame(Packet(seqno, kind, data), check, SendsWith().padding, SendsWith().padWith, SendsWith().endOfLine)
    }

    /** The link with a new packet out and its tries cleared. */
    function Send(seqno: byte, kind: Kind, data: seq<byte>, check: Check): LinkState {
      this.(last := [Built(seqno, kind, data, check)], retries := 0, armed := Timed())
    }

    function Retry(): LinkState { this.(retries := retries + 1, armed := Timed()) }

    function ErrorFrame(seqno: byte, wording: seq<byte>): Frame {
      Built(seqno, Error, Data.Encode(wording, SendsWith().Quoting(), Room()).out, CheckUsed())
    }
  }

  function NewLink(settings: Settings): LinkState {
    LinkState(settings.params, None, false, None, [], 0, settings.retries, false)
  }

  // ------------------------------------------------------------------
  // What has arrived
  // ------------------------------------------------------------------

  datatype Arrival = Arrived(packet: Packet) | Damage | Nothing

  datatype Taken = Taken(arrival: Arrival, rest: seq<byte>)

  /** No buffer longer than this is waited on. */
  const MOST_BUFFERED := 2 * MAX_LONG + 64

  /** What taking from a buffer gives, where the checks are tried in order, and what it leaves. */
  function Take(buffer: seq<byte>, checks: seq<Check>): (t: Taken)
    ensures t.arrival != Nothing ==> |t.rest| < |buffer|
    ensures |t.rest| <= |buffer|
  {
    hide Of;
    var start := Find(buffer, MARK);
    if start == |buffer| then Taken(Nothing, []) else TryChecks(buffer[start..], checks, false)
  }

  function TryChecks(buffer: seq<byte>, checks: seq<Check>, damaged: bool): (t: Taken)
    requires buffer != []
    ensures t.arrival != Nothing ==> |t.rest| < |buffer|
    ensures |t.rest| <= |buffer|
    decreases |checks|
  {
    hide ReadFirst;
    if checks == [] then
      if damaged || |buffer| > MOST_BUFFERED then Taken(Damage, buffer[1..]) else Taken(Nothing, buffer)
    else
      var r := ReadFirst(buffer, checks[0], MARK);
      if r.Read? then
        UsedInRange(buffer, checks[0], MARK);
        Taken(Arrived(r.packet), buffer[r.used..])
      else TryChecks(buffer, checks[1..], damaged || r.why != Incomplete)
  }

  // ------------------------------------------------------------------
  // The receiving end
  // ------------------------------------------------------------------

  datatype Receiving = AwaitSendInit | AwaitFile | AwaitData | Over

  datatype ReceiverState = ReceiverState(
    link: LinkState,
    settings: Settings,
    state: Receiving,
    expected: byte,
    held: bool,
    mode: Mode,
    open: bool,
    cancelling: bool,
    status: Status,
    progress: Progress)

  datatype ReceiverStep = ReceiverStep(r: ReceiverState, store: StoreState, out: seq<Frame>)

  function NewReceiver(settings: Settings): ReceiverState {
    ReceiverState(NewLink(settings).Arm(), settings, AwaitSendInit, 0, false, settings.mode, false, false, Running, NO_PROGRESS)
  }

  function ReceiverStop(r: ReceiverState, store: StoreState, status: Status, out: seq<Frame>): ReceiverStep {
    ReceiverStep(r.(open := false, state := Over, link := r.link.Disarm(), status := status),
                 if r.open then store.Finish(false) else store, out)
  }

  function ReceiverFail(r: ReceiverState, store: StoreState, reason: Reason): ReceiverStep {
    ReceiverStop(r, store, Failed(reason), [r.link.ErrorFrame(r.expected, Wording(reason))])
  }

  /** The receiver with the answer to packet `seqno` made. */
  function Answered(r: ReceiverState, seqno: byte, data: seq<byte>): ReceiverState {
    r.(expected := Next(seqno), link := r.link.Send(seqno, Ack, data, r.link.CheckUsed()))
  }

  function AckStep(r: ReceiverState, store: StoreState, seqno: byte, data: seq<byte>): ReceiverStep {
    var r' := Answered(r, seqno, data);
    ReceiverStep(r', store, r'.link.last)
  }

  function NakFrame(r: ReceiverState): Frame {
    r.link.Built(r.expected, Nak, [], r.link.CheckUsed())
  }

  function ReceiverChecks(r: ReceiverState): seq<Check> {
    var agreed := r.link.CheckUsed();
    if r.state == AwaitFile && r.expected == 1 && agreed != One then [agreed, One] else [agreed]
  }

  function OnSendInit(r: ReceiverState, store: StoreState, p: Packet): ReceiverStep {
    var link := r.link.Agree(ReadBlock(p.data)).Send(p.sequence, Ack, Block(r.link.ours), One);
    ReceiverStep(r.(link := link, state := AwaitFile, expected := Next(p.sequence)), store, link.last)
  }

  function OnFile(r: ReceiverState, store: StoreState, p: Packet): ReceiverStep {
    var sent := Data.Decode(p.data, r.link.ReadsWith().Quoting());
    var name := r.settings.nameFor(sent);
    if name.None? then ReceiverFail(r, store, BadName(sent))
    else if store.Refuses() then ReceiverFail(r, store.Create(name.value), StoreFailed(store.refusals[store.ops]))
    else
      AckStep(r.(open := true, held := false, mode := r.settings.mode, state := AwaitData,
                 progress := r.progress.(file := name, bytes := 0, size := None)),
              store.Create(name.value), p.sequence, [])
  }

  function OnBreak(r: ReceiverState, store: StoreState, p: Packet): ReceiverStep {
    var r' := Answered(r, p.sequence, []);
    ReceiverStep(r'.(state := Over, link := r'.link.Disarm(), status := if r.cancelling then Cancelled else Done),
                 store, r'.link.last)
  }

  function OnAttributes(r: ReceiverState, store: StoreState, p: Packet): ReceiverStep {
    var said := Attributes.ReadAll(p.data);
    var mode := match said.fileType
      case Some(Text) => TextMode
      case Some(Binary) => BinaryMode
      case None => r.mode;
    AckStep(r.(mode := mode, progress := r.progress.(size := said.size)), store, p.sequence, [89])
  }

  function Converted(r: ReceiverState, bytes: seq<byte>): seq<byte> {
    if r.mode == BinaryMode then bytes else Text.FromLine(r.settings.local, r.held, bytes)
  }

  function HeldAfter(r: ReceiverState, bytes: seq<byte>): bool {
    if r.mode == BinaryMode then r.held else Text.Held(r.settings.local, r.held, bytes)
  }

  function OnData(r: ReceiverState, store: StoreState, p: Packet): ReceiverStep {
    if r.cancelling then AckStep(r, store, p.sequence, [90])
    else
      var bytes := Data.Decode(p.data, r.link.ReadsWith().Quoting());
      var written := Converted(r, bytes);
      var r' := r.(held := HeldAfter(r, bytes));
      if store.Refuses() then ReceiverFail(r', store.Write(written), StoreFailed(store.refusals[store.ops]))
      else
        AckStep(r'.(progress := r.progress.(bytes := r.progress.bytes + |written|)), store.Write(written), p.sequence, [])
  }

  /** The end of a file, once any carriage return still held is written. */
  function Ended(r: ReceiverState, store: StoreState, p: Packet, keep: bool): ReceiverStep {
    var r' := r.(open := false);
    if store.Refuses() then ReceiverFail(r', store.Finish(keep), StoreFailed(store.refusals[store.ops]))
    else
      AckStep(r'.(progress := r.progress.(files := r.progress.files + if keep then 1 else 0), state := AwaitFile),
              store.Finish(keep), p.sequence, [])
  }

  function OnEndOfFile(r: ReceiverState, store: StoreState, p: Packet): ReceiverStep {
    var cancelling := r.cancelling || (p.data != [] && p.data[0] == 68);
    var r1 := r.(cancelling := cancelling);
    if cancelling || r.mode == BinaryMode then Ended(r1, store, p, !cancelling)
    else
      var tail := Text.Finish(r.held);
      var r2 := r1.(held := false);
      if tail == [] then Ended(r2, store, p, true)
      else if store.Refuses() then ReceiverFail(r2, store.Write(tail), StoreFailed(store.refusals[store.ops]))
      else Ended(r2.(progress := r.progress.(bytes := r.progress.bytes + |tail|)), store.Write(tail), p, true)
  }

  /** A packet at a receiver still running. */
  function ReceiverHandle(r: ReceiverState, store: StoreState, p: Packet): ReceiverStep {
    if p.kind == Error then
      ReceiverStop(r, store, Failed(FarEnd(Data.Decode(p.data, r.link.ReadsWith().Quoting()))), [])
    else if r.state != AwaitSendInit && p.sequence == Previous(r.expected) then
      ReceiverStep(r.(link := r.link.Arm()), store, r.link.last)
    else if p.sequence != r.expected then ReceiverStep(r, store, [])
    else if r.state == AwaitSendInit && p.kind == SendInit then OnSendInit(r, store, p)
    else if r.state == AwaitFile && p.kind == File then OnFile(r, store, p)
    else if r.state == AwaitFile && p.kind == Break then OnBreak(r, store, p)
    else if r.state == AwaitData && p.kind == Kind.Attributes then OnAttributes(r, store, p)
    else if r.state == AwaitData && p.kind == Kind.Data then OnData(r, store, p)
    else if r.state == AwaitData && p.kind == EndOfFile then OnEndOfFile(r, store, p)
    else if r.state == AwaitSendInit && p.kind == Nak then ReceiverFail(r, store, BothReceiving)
    else ReceiverFail(r, store, Unexpected(p.kind))
  }

  /** A packet at a receiver whatever its status: one that is done answers only a repeated Break. */
  function ReceiverHears(r: ReceiverState, store: StoreState, p: Packet): ReceiverStep {
    if r.status == Done then
      ReceiverStep(r, store, if p.kind == Break && p.sequence == Previous(r.expected) then r.link.last else [])
    else if r.status == Running then ReceiverHandle(r, store, p)
    else ReceiverStep(r, store, [])
  }

  function ReceiverDamaged(r: ReceiverState, store: StoreState): ReceiverStep {
    ReceiverStep(r, store, if r.status == Running then [NakFrame(r)] else [])
  }

  /** The wait ran out. */
  function ReceiverTick(r: ReceiverState, store: StoreState): ReceiverStep {
    if r.status != Running || !r.link.armed then ReceiverStep(r, store, [])
    else
      var r' := r.(link := r.link.Retry());
      if r'.link.retries > r'.link.limit then
        ReceiverFail(r', store,
          if r.state == AwaitFile && r.progress.files > 0 then NothingMore(r.progress.files) else NothingArrived)
      else ReceiverStep(r', store, [NakFrame(r')])
  }

  function ReceiverCancel(r: ReceiverState, store: StoreState): ReceiverStep {
    if r.status != Running then ReceiverStep(r, store, [])
    else if r.state == AwaitData && !r.cancelling then ReceiverStep(r.(cancelling := true), store, [])
    else ReceiverStop(r, store, Cancelled, [r.link.ErrorFrame(r.expected, CANCELLED_WORDING)])
  }

  // ------------------------------------------------------------------
  // The sending end
  // ------------------------------------------------------------------

  datatype Sending = SendingInit | SendingFile | SendingAttributes | SendingData | SendingEnd | SendingBreak | Finished

  const FIRST_SIZE := 250
  const LEAST_SIZE := 80
  /** The largest length there is. */
  const NO_CEILING := 0xffff_ffff_ffff_ffff

  datatype SenderState = SenderState(
    link: LinkState,
    settings: Settings,
    state: Sending,
    seqno: byte,
    pending: seq<byte>,
    afterCr: bool,
    mode: Mode,
    eof: bool,
    discarding: bool,
    size: nat,
    ceiling: nat,
    inFlight: nat,
    cancelling: bool,
    status: Status,
    progress: Progress)

  datatype SenderStep = SenderStep(s: SenderState, src: SourceState, out: seq<Frame>)

  function NewSender(settings: Settings): SenderState {
    SenderState(NewLink(settings), settings, SendingInit, 0, [], false, settings.mode, false, false,
                FIRST_SIZE, NO_CEILING, 0, false, Running, NO_PROGRESS)
  }

  /** The first packet, offering this end's parameters. */
  function SenderStart(s: SenderState): SenderState {
    s.(link := s.link.Send(0, SendInit, Block(s.link.ours), One))
  }

  function SenderStop(s: SenderState, src: SourceState, status: Status, out: seq<Frame>): SenderStep {
    SenderStep(s.(state := Finished, link := s.link.Disarm(), status := status), src, out)
  }

  function SenderFail(s: SenderState, src: SourceState, reason: Reason): SenderStep {
    SenderStop(s, src, Failed(reason), [s.link.ErrorFrame(s.seqno, Wording(reason))])
  }

  function PacketStep(s: SenderState, src: SourceState, kind: Kind, data: seq<byte>): SenderStep {
    var link := s.link.Send(s.seqno, kind, data, s.link.CheckUsed());
    SenderStep(s.(link := link), src, link.last)
  }

  /** What is said of the file now going. */
  function Said(s: SenderState): Attributes.Attributes {
    Attributes.Attributes(Some(if s.mode == TextMode then Attributes.Text else Attributes.Binary), s.progress.size)
  }

  function NextFile(s: SenderState, src: SourceState): (step: SenderStep)
    ensures step.s.cancelling == s.cancelling
  {
    hide Data.Encode, Wording;
    var src' := src.(ops := src.ops + 1);
    if src.ops in src.faults then SenderFail(s, src', SourceFailed(src.faults[src.ops]))
    else if src.at >= |src.files| then PacketStep(s.(state := SendingBreak), src', Break, [])
    else
      var f := src.files[src.at];
      var name := Data.Encode(f.name, s.link.SendsWith().Quoting(), s.link.Room()).out;
      PacketStep(s.(progress := Progress(Some(f.name), 0, s.progress.files, f.size),
                    mode := if f.mode.Some? then f.mode.value else s.settings.mode,
                    state := SendingFile),
                 src'.(at := src.at + 1, pos := 0), File, name)
  }

  /** What was read, as it is to be sent. */
  function Prepared(s: SenderState, bytes: seq<byte>): seq<byte> {
    if s.mode == BinaryMode then bytes else Text.ToLine(s.afterCr, bytes)
  }

  function AfterCrThen(s: SenderState, bytes: seq<byte>): bool {
    if s.mode == BinaryMode then s.afterCr else Text.EndsInCr(s.afterCr, bytes)
  }

  datatype Filled = Filled(s: SenderState, src: SourceState, fault: Option<seq<byte>>)

  /** Reads until there is a packet's worth, or the file ends, or a read fails. */
  function Fill(s: SenderState, src: SourceState, room: nat): (f: Filled)
    ensures f.s.cancelling == s.cancelling
    decreases if s.eof then 0 else 1, |src.Content()| - src.pos
  {
    if s.eof || |s.pending| >= room then Filled(s, src, None)
    else
      var n := src.ReadSize(Max(room, 1));
      var src' := src.(ops := src.ops + 1, pos := src.pos + n);
      if src.ops in src.faults then Filled(s, src.(ops := src.ops + 1), Some(src.faults[src.ops]))
      else if n == 0 then Fill(s.(eof := true), src', room)
      else
        var bytes := src.Content()[src.pos..src.pos + n];
        Fill(s.(progress := s.progress.(bytes := s.progress.bytes + n),
                pending := s.pending + Prepared(s, bytes),
                afterCr := AfterCrThen(s, bytes)), src', room)
  }

  /** How much data the next packet is to carry. */
  function DataRoom(s: SenderState): nat {
    if s.link.long.Some? then Min(Min(s.link.Room(), s.size), s.ceiling) else s.link.Room()
  }

  /** The size for the packet after that. */
  function Grown(s: SenderState): nat {
    if s.link.long.Some? then Min(Min(s.size * 2, s.link.Room()), s.ceiling) else s.size
  }

  function SendData(s: SenderState, src: SourceState): (step: SenderStep)
    ensures step.s.cancelling == s.cancelling
  {
    hide Fill, Data.Encode, Grown, DataRoom, Wording;
    var room := DataRoom(s);
    var f := Fill(s.(size := Grown(s)), src, room);
    if f.fault.Some? then SenderFail(f.s, f.src, SourceFailed(f.fault.value))
    else if f.s.pending == [] then PacketStep(f.s.(state := SendingEnd), f.src, EndOfFile, [])
    else
      var e := Data.Encode(f.s.pending, f.s.link.SendsWith().Quoting(), room);
      if e.used == 0 then SenderFail(f.s, f.src, TooShort)
      else PacketStep(f.s.(pending := f.s.pending[e.used..], inFlight := |e.out|), f.src, Kind.Data, e.out)
  }

  /** Ends the file marked discard. */
  function Discard(s: SenderState, src: SourceState): SenderStep {
    PacketStep(s.(state := SendingEnd, discarding := true), src, EndOfFile, [68])
  }

  function OnFileAck(s: SenderState, src: SourceState): SenderStep {
    var s' := s.(pending := [], afterCr := false, eof := false, discarding := false);
    if !s.link.attributes then SendData(s'.(state := SendingData), src)
    else PacketStep(s'.(state := SendingAttributes), src, Kind.Attributes, Attributes.Built(Said(s')))
  }

  function OnDataAck(s: SenderState, src: SourceState, data: seq<byte>): SenderStep {
    var s' := s.(cancelling := s.cancelling || (data != [] && data[0] == 90));
    if (data != [] && data[0] == 88) || s'.cancelling then Discard(s', src) else SendData(s', src)
  }

  function OnEndAck(s: SenderState, src: SourceState): SenderStep {
    var s' := s.(progress := s.progress.(files := s.progress.files + if s.discarding then 0 else 1));
    if s.cancelling then PacketStep(s'.(state := SendingBreak), src, Break, []) else NextFile(s', src)
  }

  /** What is out has been answered. */
  function Acknowledged(s0: SenderState, src: SourceState, data: seq<byte>): SenderStep {
    var s := s0.(seqno := Next(s0.seqno));
    match s.state
    case SendingInit => NextFile(s.(link := s.link.Agree(ReadBlock(data))), src)
    case SendingFile => OnFileAck(s, src)
    case SendingAttributes =>
      if data != [] && data[0] == 78 then Discard(s, src) else SendData(s.(state := SendingData), src)
    case SendingData => OnDataAck(s, src, data)
    case SendingEnd => OnEndAck(s, src)
    case SendingBreak => SenderStop(s, src, if s.cancelling then Cancelled else Done, [])
    case Finished => SenderStep(s, src, [])
  }

  /** What a packet sent again does to the size of the ones after it. */
  function Backed(s: SenderState): SenderState {
    var ceiling := if s.state == SendingData && s.inFlight > LEAST_SIZE
                   then Min(s.ceiling, Max(s.inFlight / 2, LEAST_SIZE)) else s.ceiling;
    s.(ceiling := ceiling, size := Min(Max(s.size / 2, LEAST_SIZE), ceiling))
  }

  /** What is out is repeated, or given up where no try is left. */
  function Again(s0: SenderState, src: SourceState): SenderStep {
    var backed := Backed(s0);
    var s := backed.(link := backed.link.Retry());
    if s.link.retries <= s.link.limit then SenderStep(s, src, s.link.last)
    else if s.state == SendingBreak then SenderStop(s, src, Done, [])
    else SenderFail(s, src, NoAnswer)
  }

  /** A packet at a sender still running. */
  function SenderHandle(s: SenderState, src: SourceState, p: Packet): SenderStep {
    if p.kind == Error then
      SenderStop(s, src, Failed(FarEnd(Data.Decode(p.data, s.link.ReadsWith().Quoting()))), [])
    else if p.kind == Ack && p.sequence == s.seqno then Acknowledged(s, src, p.data)
    else if p.kind == SendInit && s.state == SendingInit then SenderFail(s, src, BothSending)
    else if p.kind == Nak && p.sequence == Next(s.seqno) && s.state != SendingInit then Acknowledged(s, src, [])
    else if p.kind == Nak && (p.sequence == s.seqno || p.sequence == Next(s.seqno)) then Again(s, src)
    else SenderStep(s, src, [])
  }

  function SenderHears(s: SenderState, src: SourceState, p: Packet): SenderStep {
    if s.status == Running then SenderHandle(s, src, p) else SenderStep(s, src, [])
  }

  function SenderTick(s: SenderState, src: SourceState): SenderStep {
    if s.status != Running || !s.link.armed then SenderStep(s, src, []) else Again(s, src)
  }

  function SenderCancel(s: SenderState, src: SourceState): SenderStep {
    if s.status != Running then SenderStep(s, src, [])
    else if (s.state == SendingData || s.state == SendingEnd) && !s.cancelling then
      SenderStep(s.(cancelling := true), src, [])
    else SenderStop(s, src, Cancelled, [s.link.ErrorFrame(s.seqno, CANCELLED_WORDING)])
  }
}

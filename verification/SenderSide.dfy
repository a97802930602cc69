/**
 The sending end against the history of what it has sent: what each of its
 steps keeps. What has been read of a file is always what was sent of it and
 what is pending, in the line's form.
 */
module SenderSide {
  import opened Options
  import opened Bytes
  import opened Checks
  import opened Packets
  import opened Parameters
  import opened Protocol
  import opened History
  import Data
  import Text
  import Attributes

  // ------------------------------------------------------------------
  // Reading ahead
  // ------------------------------------------------------------------

  /** What has been read of a file, in the line's form. */
  function ReadIn(mode: Mode, content: seq<byte>, pos: nat): seq<byte>
    requires pos <= |content|
  {
    LineForm(mode, content[..pos])
  }

  /** How much of a file, in the line's form, has been sent. */
  function Gone(mode: Mode, content: seq<byte>, pos: nat, pending: seq<byte>): nat
    requires pos <= |content|
  {
    Max(|ReadIn(mode, content, pos)| - |pending|, 0)
  }

  /** What was read and is not pending was sent. */
  ghost predicate Balanced(mode: Mode, content: seq<byte>, pos: nat, pending: seq<byte>, afterCr: bool, eof: bool) {
    && pos <= |content|
    && |pending| <= |ReadIn(mode, content, pos)|
    && pending == ReadIn(mode, content, pos)[Gone(mode, content, pos, pending)..]
    && (mode == TextMode ==> afterCr == Text.EndsInCr(false, content[..pos]))
    && (eof ==> pos == |content|)
  }

  ghost predicate Conserved(s: SenderState, src: SourceState) {
    Balanced(s.mode, src.Content(), src.pos, s.pending, s.afterCr, s.eof) && s.progress.bytes == src.pos
  }

  function Conveyed(s: SenderState, src: SourceState): nat {
    if src.pos <= |src.Content()| then Gone(s.mode, src.Content(), src.pos, s.pending) else 0
  }

  lemma ReadMore(mode: Mode, content: seq<byte>, pos: nat, pending: seq<byte>, afterCr: bool, n: nat)
    requires Balanced(mode, content, pos, pending, afterCr, false) && pos + n <= |content|
    ensures var bytes := content[pos..pos + n];
            var pending' := pending + if mode == BinaryMode then bytes else Text.ToLine(afterCr, bytes);
            var afterCr' := if mode == BinaryMode then afterCr else Text.EndsInCr(afterCr, bytes);
            Balanced(mode, content, pos + n, pending', afterCr', false)
            && Gone(mode, content, pos + n, pending') == Gone(mode, content, pos, pending)
  {
    hide Text.ToLine, Text.EndsInCr;
    var before, bytes := content[..pos], content[pos..pos + n];
    assert content[..pos + n] == before + bytes;
    if mode == TextMode {
      Text.ToLineInPieces(false, before, bytes);
    }
  }

  /** Filling touches nothing but what it reads into, and sends nothing. */
  ghost predicate FilledFrom(f: Filled, s: SenderState, src: SourceState) {
    && f.s == s.(progress := s.progress.(bytes := f.s.progress.bytes), pending := f.s.pending,
                 afterCr := f.s.afterCr, eof := f.s.eof)
    && f.src == src.(ops := f.src.ops, pos := f.src.pos)
  }

  /** A sender that has read `n` more bytes. */
  function HavingRead(s: SenderState, src: SourceState, n: nat): SenderState
    requires src.pos + n <= |src.Content()|
  {
    var bytes := src.Content()[src.pos..src.pos + n];
    s.(progress := s.progress.(bytes := s.progress.bytes + n), pending := s.pending + Prepared(s, bytes),
       afterCr := AfterCrThen(s, bytes))
  }

  lemma FillReads(s: SenderState, src: SourceState, room: nat)
    requires !s.eof && |s.pending| < room && src.ops !in src.faults && src.pos <= |src.Content()|
    ensures var n := src.ReadSize(Max(room, 1)); var src' := src.(ops := src.ops + 1, pos := src.pos + n);
            Fill(s, src, room) == Fill(if n == 0 then s.(eof := true) else HavingRead(s, src, n), src', room)
  {
    hide Prepared, AfterCrThen;
  }

  lemma FilledFromLater(f: Filled, s: SenderState, src: SourceState, s': SenderState, src': SourceState)
    requires FilledFrom(Filled(s', src', None), s, src) && FilledFrom(f, s', src')
    ensures FilledFrom(f, s, src)
  {
  }

  lemma {:induction false} FillKeeps(s: SenderState, src: SourceState, room: nat)
    requires Conserved(s, src)
    ensures var f := Fill(s, src, room);
            && FilledFrom(f, s, src)
            && Conserved(f.s, f.src) && Conveyed(f.s, f.src) == Conveyed(s, src)
            && (f.fault.None? ==> f.s.eof || |f.s.pending| >= room)
            && (f.fault.Some? ==> src.faults != map[])
    decreases if s.eof then 0 else 1, |src.Content()| - src.pos
  {
    hide Balanced, Gone, Fill;
    BalancedInRange(s.mode, src.Content(), src.pos, s.pending, s.afterCr, s.eof);
    if !s.eof && |s.pending| < room && src.ops !in src.faults {
      hide FilledFrom;
      var n := src.ReadSize(Max(room, 1));
      var src' := src.(ops := src.ops + 1, pos := src.pos + n);
      var s' := if n == 0 then s.(eof := true) else HavingRead(s, src, n);
      FillReads(s, src, room);
      ReadIsKept(s, src, n, s', src');
      FillKeeps(s', src', room);
      FilledFromLater(Fill(s', src', room), s, src, s', src');
    } else {
      FillStops(s, src, room);
    }
  }

  lemma FillStops(s: SenderState, src: SourceState, room: nat)
    requires s.eof || |s.pending| >= room || src.ops in src.faults
    ensures Fill(s, src, room)
         == if s.eof || |s.pending| >= room then Filled(s, src, None)
            else Filled(s, src.(ops := src.ops + 1), Some(src.faults[src.ops]))
  {
  }

  lemma ReadIsKept(s: SenderState, src: SourceState, n: nat, s': SenderState, src': SourceState)
    requires Conserved(s, src) && !s.eof && src.pos + n <= |src.Content()| && (n == 0 ==> src.pos == |src.Content()|)
    requires src' == src.(ops := src.ops + 1, pos := src.pos + n)
    requires s' == if n == 0 then s.(eof := true) else HavingRead(s, src, n)
    ensures Conserved(s', src') && Conveyed(s', src') == Conveyed(s, src) && FilledFrom(Filled(s', src', None), s, src)
  {
    hide Balanced, Gone, Text.ToLine, Text.EndsInCr;
    assert src'.Content() == src.Content();
    if n == 0 {
      BalancedAtEnd(s.mode, src.Content(), src.pos, s.pending, s.afterCr);
    } else {
      ReadMore(s.mode, src.Content(), src.pos, s.pending, s.afterCr, n);
    }
  }

  lemma BalancedInRange(mode: Mode, content: seq<byte>, pos: nat, pending: seq<byte>, afterCr: bool, eof: bool)
    requires Balanced(mode, content, pos, pending, afterCr, eof)
    ensures pos <= |content|
  {
  }

  lemma BalancedAtEnd(mode: Mode, content: seq<byte>, pos: nat, pending: seq<byte>, afterCr: bool)
    requires Balanced(mode, content, pos, pending, afterCr, false) && pos == |content|
    ensures Balanced(mode, content, pos, pending, afterCr, true)
  {
  }

  /** Part of what was pending is sent. */
  lemma DrainKeeps(mode: Mode, content: seq<byte>, pos: nat, pending: seq<byte>, afterCr: bool, eof: bool, used: nat)
    requires Balanced(mode, content, pos, pending, afterCr, eof) && used <= |pending|
    ensures Balanced(mode, content, pos, pending[used..], afterCr, eof)
    ensures var from := Gone(mode, content, pos, pending); var to := Gone(mode, content, pos, pending[used..]);
            to == from + used <= |ReadIn(mode, content, pos)| && pending[..used] == ReadIn(mode, content, pos)[from..to]
  {
  }

  // ------------------------------------------------------------------
  // What a running sender is
  // ------------------------------------------------------------------

  function KindSent(state: Sending): Kind {
    match state
    case SendingInit => SendInit
    case SendingFile => File
    case SendingAttributes => Kind.Attributes
    case SendingData => Kind.Data
    case SendingEnd => EndOfFile
    case SendingBreak => Break
    case Finished => Error
  }

  /** A link that has heard the far end's parameters. */
  ghost predicate LinkAgreed(c: Setup, link: LinkState) {
    link == c.SenderLink().(last := link.last, retries := link.retries, armed := link.armed)
  }

  /** A link that has heard them or, of the `n` packets sent, has had no answer to the first. */
  ghost predicate LinkKnown(c: Setup, link: LinkState, n: nat) {
    || LinkAgreed(c, link)
    || (n == 1 && link == NewLink(c.sender).(last := link.last, retries := link.retries, armed := link.armed))
  }

  ghost predicate LinkOk(c: Setup, s: SenderState) {
    if s.state == SendingInit then
      s.link == NewLink(c.sender).(last := s.link.last, retries := s.link.retries, armed := s.link.armed)
    else
      LinkAgreed(c, s.link)
  }

  ghost predicate SourceOk(c: Setup, src: SourceState) {
    src.files == c.files && src.at <= |c.files| && src.chunks == c.chunks && src.faults == c.faults
  }

  predicate HoldsFile(state: Sending) {
    state == SendingAttributes || state == SendingData || state == SendingEnd
  }

  /** What a sender's user is told of the file it is sending. */
  predicate Shows(c: Setup, s: SenderState, at: nat) {
    0 < at <= |c.files| && s.progress.file == Some(c.files[at - 1].name) && s.progress.size == c.files[at - 1].size
  }

  /** Of a file that has been begun: how it goes, what its user is told, and what has been read and sent of it. */
  ghost predicate FileOk(c: Setup, s: SenderState, src: SourceState, last: Record) {
    && 0 < src.at <= |c.files| && s.mode == c.ModeOf(src.at - 1) && Shows(c, s, src.at)
    && (s.state == SendingFile ==> src.pos == 0 && s.progress.bytes == 0 && last.sent == 0)
    && (HoldsFile(s.state) ==> Conserved(s, src) && last.sent == Conveyed(s, src))
    && (s.state == SendingAttributes ==> s.pending == [])
  }

  ghost predicate SizesOk(c: Setup, size: nat, ceiling: nat) {
    Min(c.Room(), LEAST_SIZE) <= size && LEAST_SIZE <= ceiling
  }

  ghost predicate RunningOk(c: Setup, s: SenderState, src: SourceState, h: seq<Record>)
    requires h != []
  {
    && s.state != Finished
    && s.link.last == [Last(h).frame] && s.seqno == (|h| - 1) % 64 && s.link.retries <= s.link.limit
    && s.link.armed == s.link.Timed()
    && Last(h).Kind() == KindSent(s.state) && Last(h).begun == src.at
    && (s.state == SendingInit ==> |h| == 1 && src.at == 0)
    && (s.discarding <==> !NoneDiscarded(h))
    && (s.state == SendingEnd ==> s.discarding == EndsDiscarded(Last(h)))
    && (s.state != SendingEnd && s.state != SendingBreak ==> !s.discarding)
    && (s.state == SendingData ==> s.inFlight == |Last(h).Body()|)
    && (s.state == SendingBreak && !s.cancelling ==> src.at == |c.files|)
    && (s.state != SendingInit && s.state != SendingBreak ==> FileOk(c, s, src, Last(h)))
    && s.progress.files == Wholes(h[..|h| - 1])
  }

  /** The sender, its files and its history agree. */
  ghost predicate SenderOk(c: Setup, s: SenderState, src: SourceState, h: seq<Record>) {
    && h != [] && Chain(c, h) && s.settings == c.sender
    && SourceOk(c, src) && SizesOk(c, s.size, s.ceiling)
    && s.status != Failed(BothSending)
    && (!s.cancelling ==> NoneDiscarded(h))
    && (s.status == Running ==> LinkOk(c, s) && RunningOk(c, s, src, h))
    && (s.status != Running ==> s.state == Finished && !s.link.armed && LinkKnown(c, s.link, |h|) && s.seqno < 64)
    && (s.status == Done ==> Last(h).Kind() == Break && s.progress.files == Wholes(h)
                             && Last(h).begun == src.at && (s.discarding <==> !NoneDiscarded(h))
                             && (!s.cancelling ==> src.at == |c.files|))
  }

  /** What one step of a running sender leaves: stopped, or one packet further. */
  ghost predicate Advanced(c: Setup, step: SenderStep, h: seq<Record>, h': seq<Record>) {
    && SenderOk(c, step.s, step.src, h')
    && (if step.s.status == Running then
          |h'| == |h| + 1 && h' == h + [Last(h')] && step.out == [Last(h').frame]
          && step.s.seqno == |h| % 64 && step.s.link.retries == 0
        else h' == h && |step.out| <= 1 && forall f | f in step.out :: f.packet.kind == Error)
  }

  /** The record of a packet just sent. */
  function RecordOf(s: SenderState, src: SourceState, f: Frame): Record {
    Record(f, src.at, if HoldsFile(s.state) then Conveyed(s, src) else 0)
  }

  function Extended(step: SenderStep, h: seq<Record>): seq<Record> {
    if step.s.status == Running && |step.out| == 1 then h + [RecordOf(step.s, step.src, step.out[0])] else h
  }

  // ------------------------------------------------------------------
  // Moving on
  // ------------------------------------------------------------------

  /** A sender about to send its next packet: all but the packet is in place. */
  ghost predicate Ready(c: Setup, s: SenderState, src: SourceState, h: seq<Record>) {
    && h != [] && Chain(c, h) && s.settings == c.sender && SourceOk(c, src) && SizesOk(c, s.size, s.ceiling)
    && s.status == Running && LinkAgreed(c, s.link)
    && s.seqno == |h| % 64
    && (!s.cancelling ==> NoneDiscarded(h))
    && s.progress.files == Wholes(h)
  }

  lemma StopIsOk(c: Setup, s: SenderState, src: SourceState, h: seq<Record>, status: Status, out: seq<Frame>)
    requires h != [] && Chain(c, h) && s.settings == c.sender && SourceOk(c, src) && SizesOk(c, s.size, s.ceiling)
    requires (!s.cancelling ==> NoneDiscarded(h)) && LinkKnown(c, s.link, |h|) && s.seqno < 64
    requires status != Running && status != Done && status != Failed(BothSending)
    requires |out| <= 1 && forall f | f in out :: f.packet.kind == Error
    ensures Advanced(c, SenderStop(s, src, status, out), h, h)
  {
  }

  lemma FailIsOk(c: Setup, s: SenderState, src: SourceState, h: seq<Record>, reason: Reason)
    requires h != [] && Chain(c, h) && s.settings == c.sender && SourceOk(c, src) && SizesOk(c, s.size, s.ceiling)
    requires (!s.cancelling ==> NoneDiscarded(h)) && LinkKnown(c, s.link, |h|) && s.seqno < 64
    requires reason != BothSending
    ensures var step := SenderFail(s, src, reason);
            Advanced(c, step, h, h) && Extended(step, h) == h && step.s.status == Failed(reason)
  {
    hide Wording, Chain, NoneDiscarded, SourceOk;
    StopIsOk(c, s, src, h, Failed(reason), [s.link.ErrorFrame(s.seqno, Wording(reason))]);
  }

  /** The packet about to be sent, as the history will have it. */
  function Upcoming(s: SenderState, src: SourceState, kind: Kind, data: seq<byte>): Record {
    RecordOf(s, src, s.link.Built(s.seqno, kind, data, s.link.CheckUsed()))
  }

  /** One more packet, if it may follow and the sender's state is as its kind needs. */
  lemma PacketIsOk(c: Setup, s: SenderState, src: SourceState, h: seq<Record>, kind: Kind, data: seq<byte>)
    requires Ready(c, s, src, h) && kind == KindSent(s.state) && s.state != SendingInit && s.state != Finished
    requires var b := Upcoming(s, src, kind, data);
             && Follows(c, Last(h), b)
             && (s.discarding <==> !NoneDiscarded(h) || EndsDiscarded(b))
             && (s.state != SendingEnd && s.state != SendingBreak ==> !s.discarding)
             && (s.state == SendingData ==> s.inFlight == |data|)
             && (s.state == SendingEnd ==> s.discarding == EndsDiscarded(b))
             && (EndsDiscarded(b) ==> s.cancelling)
             && (s.state == SendingBreak && !s.cancelling ==> src.at == |c.files|)
             && (s.state != SendingBreak ==> FileOk(c, s, src, b))
    ensures var step := PacketStep(s, src, kind, data);
            Advanced(c, step, h, Extended(step, h)) && step.s.status == Running
  {
    hide Chain, Follows, Balanced, Gone, Setup.OnLine, Setup.ModeOf, Wholes, EndsDiscarded, NoneDiscarded;
    hide Setup.CheckAgreed;
    var step, b := PacketStep(s, src, kind, data), Upcoming(s, src, kind, data);
    var h' := h + [b];
    assert Extended(step, h) == h';
    assert Chain(c, h') by { ChainExtends(c, h, b); }
    assert h'[..|h'| - 1] == h && Last(h') == b;
    NoneDiscardedExtends(h, b);
    assert FileOk(c, step.s, src, b) == FileOk(c, s, src, b);
    assert RunningOk(c, step.s, src, h');
    assert SenderOk(c, step.s, src, h');
  }

  lemma NoneDiscardedExtends(h: seq<Record>, b: Record)
    ensures NoneDiscarded(h + [b]) <==> NoneDiscarded(h) && !EndsDiscarded(b)
  {
    var g := h + [b];
    assert g[|h|] == b && forall i | 0 <= i < |h| :: g[i] == h[i];
    if !NoneDiscarded(h) {
      var i :| 0 <= i < |h| && EndsDiscarded(h[i]);
      assert EndsDiscarded(g[i]);
    }
    if EndsDiscarded(b) {
      assert EndsDiscarded(g[|h|]);
    }
  }

  // ------------------------------------------------------------------
  // The next file
  // ------------------------------------------------------------------

  lemma NextFileIsOk(c: Setup, s: SenderState, src: SourceState, h: seq<Record>)
    requires Ready(c, s, src, h) && Last(h).begun == src.at && !s.discarding && NoneDiscarded(h)
    requires Last(h).Kind() == SendInit || EndsWhole(Last(h))
    ensures var step := NextFile(s, src);
            Advanced(c, step, h, Extended(step, h))
            && (c.faults == map[] ==> step.s.status == Running)
  {
    hide Chain, Conserved, Conveyed, Setup.OnLine, Wholes, NoneDiscarded, Advanced, Extended, PacketStep;
    hide SenderFail, Setup.NameData;
    hide Setup.SenderLink, LinkAgreed, Setup.Room, Follows, FileOk, EndsDiscarded, Upcoming, SizesOk, Data.Encode;
    var src' := src.(ops := src.ops + 1);
    LinkIsAgreed(c, s);
    if src.ops in src.faults {
      FailIsOk(c, s, src', h, SourceFailed(src.faults[src.ops]));
    } else if src.at >= |src.files| {
      EndMayFollow(c, s, src', h);
      PacketIsOk(c, s.(state := SendingBreak), src', h, Break, []);
    } else {
      var f := src.files[src.at];
      var s' := s.(progress := Progress(Some(f.name), 0, s.progress.files, f.size),
                   mode := if f.mode.Some? then f.mode.value else s.settings.mode, state := SendingFile);
      assert Data.Encode(f.name, s.link.SendsWith().Quoting(), s.link.Room()).out == c.NameData(src.at) by { NameIsThis(c, src.at); }
      FileMayFollow(c, s, src, h, s', src'.(at := src.at + 1, pos := 0));
      PacketIsOk(c, s', src'.(at := src.at + 1, pos := 0), h, File, c.NameData(src.at));
    }
  }

  /** The end of the batch may follow. */
  lemma EndMayFollow(c: Setup, s: SenderState, src: SourceState, h: seq<Record>)
    requires Ready(c, s, src, h) && Last(h).begun == src.at && (Last(h).Kind() == SendInit || EndsWhole(Last(h)))
    ensures var s' := s.(state := SendingBreak); var b := Upcoming(s', src, Break, []);
            Follows(c, Last(h), b) && !EndsDiscarded(b) && Ready(c, s', src, h)
  {
    hide Chain, Wholes, NoneDiscarded, Setup.SenderLink, Setup.OnLine, Setup.NameData;
    LinkIsAgreed(c, s);
  }

  /** The next file may follow. */
  lemma FileMayFollow(c: Setup, s: SenderState, src: SourceState, h: seq<Record>, s': SenderState, src': SourceState)
    requires Ready(c, s, src, h) && Last(h).begun == src.at < |c.files| && (Last(h).Kind() == SendInit || EndsWhole(Last(h)))
    requires src' == src.(ops := src.ops + 1, at := src.at + 1, pos := 0)
    requires var f := src.files[src.at];
             s' == s.(progress := Progress(Some(f.name), 0, s.progress.files, f.size),
                      mode := if f.mode.Some? then f.mode.value else s.settings.mode, state := SendingFile)
    ensures var b := Upcoming(s', src', File, c.NameData(src.at));
            Follows(c, Last(h), b) && FileOk(c, s', src', b) && !EndsDiscarded(b) && Ready(c, s', src', h)
  {
    hide Chain, Wholes, NoneDiscarded, Setup.SenderLink, Setup.OnLine, Setup.NameData, Conserved, Setup.Unmarked;
    LinkIsAgreed(c, s);
    NameIsUnmarked(c, src.at);
  }

  lemma NameIsUnmarked(c: Setup, i: nat)
    requires i < |c.files|
    ensures c.Unmarked() ==> MARK !in c.NameData(i)
  {
    hide Data.Encode, Setup.Quoting, Setup.Room, Data.Unmarked;
    if c.Unmarked() {
      Data.EncodedIsUnmarked(c.files[i].name, c.Quoting(), c.Room());
    }
  }

  lemma NameIsThis(c: Setup, i: nat)
    requires i < |c.files|
    ensures c.NameData(i) == Data.Encode(c.files[i].name, c.Quoting(), c.Room()).out
  {
  }

  lemma LinkIsAgreed(c: Setup, s: SenderState)
    requires LinkAgreed(c, s.link)
    ensures s.link.SendsWith() == c.SenderLink().SendsWith() && s.link.SendsWith().Quoting() == c.Quoting()
    ensures s.link.CheckUsed() == c.CheckAgreed() && s.link.Room() == c.Room()
    ensures s.link.attributes == c.SenderLink().attributes
  {
  }

  // ------------------------------------------------------------------
  // Data
  // ------------------------------------------------------------------

  lemma DataRoomIsEnough(c: Setup, s: SenderState)
    requires LinkAgreed(c, s.link) && SizesOk(c, s.size, s.ceiling)
    ensures Min(c.Room(), LEAST_SIZE) <= DataRoom(s) <= c.Room() && Min(c.Room(), LEAST_SIZE) <= Grown(s)
    ensures s.link.long.Some? ==> DataRoom(s) <= s.ceiling
    ensures s.link.long.None? ==> DataRoom(s) == c.Room() && Grown(s) == s.size
  {
    LinkIsAgreed(c, s);
  }

  /** Where a sender may send data: the packet before allows it, and the file is in hand. */
  ghost predicate ReadyForData(c: Setup, s: SenderState, src: SourceState, h: seq<Record>) {
    && Ready(c, s, src, h) && s.state == SendingData && !s.discarding && NoneDiscarded(h)
    && MidFile(c, Last(h)) && Last(h).begun == src.at > 0 && s.mode == c.ModeOf(src.at - 1)
    && Conserved(s, src) && Last(h).sent == Conveyed(s, src) && Shows(c, s, src.at)
  }

  /** The whole file, in the line's form, begins with what was read of it. */
  lemma ReadInIsOnLine(c: Setup, i: nat, pos: nat)
    requires i < |c.files| && pos <= |c.files[i].content|
    ensures ReadIn(c.ModeOf(i), c.files[i].content, pos) <= c.OnLine(i)
    ensures pos == |c.files[i].content| ==> ReadIn(c.ModeOf(i), c.files[i].content, pos) == c.OnLine(i)
  {
    var content := c.files[i].content;
    LineFormGrows(c.ModeOf(i), content, pos);
    assert content[..|content|] == content;
  }

  /** The file is done: its end may follow. */
  lemma EndFollows(c: Setup, s: SenderState, src: SourceState, h: seq<Record>, room: nat)
    requires ReadyForData(c, s, src, h) && s.pending == [] && (s.eof || |s.pending| >= room)
    requires Min(c.Room(), LEAST_SIZE) <= room
    ensures var s' := s.(state := SendingEnd); var b := Upcoming(s', src, EndOfFile, []);
            Follows(c, Last(h), b) && FileOk(c, s', src, b)
  {
    hide Chain, Setup.OnLine, Setup.ModeOf, Wholes, NoneDiscarded, ReadIn, MidFile;
    hide Setup.PrefixesMatch, Setup.ModesMatch, Setup.Quoting, Setup.Room, Setup.SenderLink, Setup.CheckAgreed;
    LinkIsAgreed(c, s);
    ReadInIsOnLine(c, src.at - 1, src.pos);
  }

  /** What is encoded of what is pending may follow. */
  lemma DataFollows(c: Setup, s: SenderState, src: SourceState, h: seq<Record>, room: nat)
    requires ReadyForData(c, s, src, h) && room <= c.Room()
    requires Data.Encode(s.pending, s.link.SendsWith().Quoting(), room).used > 0
    ensures var e := Data.Encode(s.pending, s.link.SendsWith().Quoting(), room);
            var s' := s.(pending := s.pending[e.used..], inFlight := |e.out|); var b := Upcoming(s', src, Kind.Data, e.out);
            Follows(c, Last(h), b) && FileOk(c, s', src, b)
  {
    hide Chain, Setup.OnLine, Setup.ModeOf, Wholes, NoneDiscarded, ReadIn, MidFile, Balanced, Gone;
    hide Setup.PrefixesMatch, Setup.ModesMatch, Setup.Room, Setup.Quoting, Setup.SenderLink, Setup.CheckAgreed;
    hide Data.Encode, Data.Decode, Data.Admissible, Data.Unmarked;
    var e := Data.Encode(s.pending, s.link.SendsWith().Quoting(), room);
    if c.Unmarked() {
      Data.EncodedIsUnmarked(s.pending, c.Quoting(), room);
    }
    var content, mode := src.Content(), s.mode;
    LinkIsAgreed(c, s);
    BalancedInRange(mode, content, src.pos, s.pending, s.afterCr, s.eof);
    DrainKeeps(mode, content, src.pos, s.pending, s.afterCr, s.eof, e.used);
    ReadInIsOnLine(c, src.at - 1, src.pos);
    if c.Sound() {
      Data.DecodeUndoesEncode(s.pending, c.Quoting(), room);
      var from, to := Conveyed(s, src), Conveyed(s, src) + e.used;
      assert ReadIn(mode, content, src.pos)[from..to] == c.OnLine(src.at - 1)[from..to];
    }
  }

  lemma FilledIsReady(c: Setup, s: SenderState, src: SourceState, h: seq<Record>, f: Filled, size: nat)
    requires ReadyForData(c, s, src, h) && Min(c.Room(), LEAST_SIZE) <= size
    requires FilledFrom(f, s.(size := size), src) && Conserved(f.s, f.src) && Conveyed(f.s, f.src) == Conveyed(s, src)
    ensures ReadyForData(c, f.s, f.src, h)
  {
    hide Chain, Setup.OnLine, Setup.ModeOf, Wholes, NoneDiscarded, MidFile, Balanced, Gone, Setup.Room;
    hide Setup.SenderLink;
  }

  lemma SendDataIsOk(c: Setup, s: SenderState, src: SourceState, h: seq<Record>)
    requires ReadyForData(c, s, src, h)
    ensures var step := SendData(s, src);
            Advanced(c, step, h, Extended(step, h))
            && (c.faults == map[] && (c.Room() >= 3 || (c.Room() == 0 && s.pending == [])) ==> step.s.status == Running)
  {
    hide Chain, Conserved, Conveyed, Fill, Setup.OnLine, Setup.ModeOf, Wholes, NoneDiscarded, MidFile, DataRoom, Grown;
    hide Setup.Sound, Setup.Room, Follows, Data.Encode, FileOk, Advanced, Extended, LinkAgreed, PacketStep;
    hide SenderFail, Upcoming;
    hide EndsDiscarded, Setup.SenderLink;
    var room, sized := DataRoom(s), s.(size := Grown(s));
    DataRoomIsEnough(c, s);
    assert Conserved(sized, src) && Conveyed(sized, src) == Conveyed(s, src) by { SizeDoesNotMatter(s, src, Grown(s)); }
    FillKeeps(sized, src, room);
    var f := Fill(sized, src, room);
    if c.Room() == 0 {
      FillStops(sized, src, room);
    }
    FilledIsReady(c, s, src, h, f, Grown(s));
    if f.fault.Some? {
      FailIsOk(c, f.s, f.src, h, SourceFailed(f.fault.value));
    } else if f.s.pending == [] {
      EndFollows(c, f.s, f.src, h, room);
      EndIsPlain(f.s.(state := SendingEnd), f.src);
      StateDoesNotMatter(c, f.s, f.src, h);
      PacketIsOk(c, f.s.(state := SendingEnd), f.src, h, EndOfFile, []);
    } else {
      var e := Data.Encode(f.s.pending, f.s.link.SendsWith().Quoting(), room);
      if e.used == 0 {
        FailIsOk(c, f.s, f.src, h, TooShort);
      } else {
        DataFollows(c, f.s, f.src, h, room);
        var s' := f.s.(pending := f.s.pending[e.used..], inFlight := |e.out|);
        DataIsNoEnd(s', f.src, e.out);
        PendingDoesNotMatter(c, f.s, f.src, h, s'.pending, s'.inFlight);
        PacketIsOk(c, s', f.src, h, Kind.Data, e.out);
      }
    }
  }

  lemma SizeDoesNotMatter(s: SenderState, src: SourceState, size: nat)
    requires Conserved(s, src)
    ensures Conserved(s.(size := size), src) && Conveyed(s.(size := size), src) == Conveyed(s, src)
  {
  }

  lemma EndIsPlain(s: SenderState, src: SourceState)
    ensures !EndsDiscarded(Upcoming(s, src, EndOfFile, []))
  {
  }

  lemma DataIsNoEnd(s: SenderState, src: SourceState, data: seq<byte>)
    ensures !EndsDiscarded(Upcoming(s, src, Kind.Data, data))
  {
  }

  lemma StateDoesNotMatter(c: Setup, s: SenderState, src: SourceState, h: seq<Record>)
    requires Ready(c, s, src, h)
    ensures Ready(c, s.(state := SendingEnd), src, h)
  {
    hide Chain, NoneDiscarded, Wholes;
  }

  lemma PendingDoesNotMatter(c: Setup, s: SenderState, src: SourceState, h: seq<Record>, pending: seq<byte>, inFlight: nat)
    requires Ready(c, s, src, h)
    ensures Ready(c, s.(pending := pending, inFlight := inFlight), src, h)
  {
    hide Chain, NoneDiscarded, Wholes;
  }

  // ------------------------------------------------------------------
  // Every step of a sender
  // ------------------------------------------------------------------

  /** What the receiver's answers say, past the first: nothing, `Y`, or `Z`. */
  predicate Polite(data: seq<byte>) {
    data == [] || data[0] == 89 || data[0] == 90
  }

  /** An acknowledgement the sender may act on. */
  ghost predicate GoodAnswer(c: Setup, s: SenderState, data: seq<byte>) {
    if s.state == SendingInit then data == Block(c.receiver.params) else Polite(data)
  }

  lemma {:induction false} WholesLast(h: seq<Record>)
    requires h != []
    ensures Wholes(h) == Wholes(h[..|h| - 1]) + if EndsWhole(Last(h)) then 1 else 0
  {
  }

  lemma AgreeingAgrees(c: Setup, link: LinkState)
    requires link == NewLink(c.sender).(last := link.last, retries := link.retries, armed := link.armed)
    ensures LinkAgreed(c, link.Agree(ReadBlock(Block(c.receiver.params))))
  {
  }

  /** The sender with the next number to send. */
  function Moved(s: SenderState): SenderState { s.(seqno := Next(s.seqno)) }

  lemma MovedIsReady(c: Setup, s: SenderState, src: SourceState, h: seq<Record>)
    requires SenderOk(c, s, src, h) && s.status == Running && s.state != SendingInit && s.state != SendingEnd
    ensures Ready(c, Moved(s), src, h)
  {
    hide Chain, FileOk, NoneDiscarded, Wholes, Next, LinkAgreed, SourceOk, Setup.Room;
    WholesLast(h);
    NumbersFollow(|h| - 1);
  }

  lemma NumbersFollow(n: nat)
    ensures Next(n % 64) == (n + 1) % 64
  {
  }

  lemma OnFileAckIsOk(c: Setup, s: SenderState, src: SourceState, h: seq<Record>)
    requires SenderOk(c, s, src, h) && s.status == Running && s.state == SendingFile
    ensures var step := OnFileAck(Moved(s), src);
            Advanced(c, step, h, Extended(step, h))
            && (c.faults == map[] && c.AllOrNothing() ==> step.s.status == Running)
  {
    hide Chain, Setup.OnLine, Setup.ModeOf, Wholes, NoneDiscarded, Setup.Room, Setup.SenderLink, Setup.Sound;
    hide PacketStep, SendData, Advanced, Extended, LinkAgreed;
    MovedIsReady(c, s, src, h);
    LinkIsAgreed(c, s);
    var s' := Moved(s).(pending := [], afterCr := false, eof := false, discarding := false);
    BalancedAtStart(s'.mode, src.Content());
    if !s.link.attributes {
      SendDataIsOk(c, s'.(state := SendingData), src, h);
    } else {
      var s2 := s'.(state := SendingAttributes);
      assert SaysOf(Attributes.Built(Said(s')), s'.mode, s'.progress.size) by { Attributes.BuiltReadsBack(Said(s')); }
      Attributes.BuiltIsShort(Said(s'));
      Attributes.BuiltIsUnmarked(Said(s'));
      PacketIsOk(c, s2, src, h, Kind.Attributes, Attributes.Built(Said(s')));
    }
  }

  lemma BalancedAtStart(mode: Mode, content: seq<byte>)
    ensures Balanced(mode, content, 0, [], false, false) && Gone(mode, content, 0, []) == 0
  {
    assert content[..0] == [];
  }

  lemma OnDataAckIsOk(c: Setup, s: SenderState, src: SourceState, h: seq<Record>, data: seq<byte>)
    requires SenderOk(c, s, src, h) && s.status == Running && Polite(data)
    requires s.state == SendingData || s.state == SendingAttributes
    ensures var step := if s.state == SendingData then OnDataAck(Moved(s), src, data)
                        else SendData(Moved(s).(state := SendingData), src);
            Advanced(c, step, h, Extended(step, h))
            && (c.faults == map[] && c.AllOrNothing() ==> step.s.status == Running)
  {
    hide Chain, Setup.OnLine, Setup.ModeOf, Wholes, NoneDiscarded, Setup.Room, Setup.SenderLink, Setup.Sound;
    hide PacketStep, SendData, Advanced, Extended, LinkAgreed, Balanced, Gone, Setup.CheckAgreed;
    MovedIsReady(c, s, src, h);
    LinkIsAgreed(c, s);
    var s' := if s.state == SendingData then Moved(s).(cancelling := s.cancelling || (data != [] && data[0] == 90))
              else Moved(s).(state := SendingData);
    if s.state == SendingData && s'.cancelling {
      PacketIsOk(c, s'.(state := SendingEnd, discarding := true), src, h, EndOfFile, [68]);
    } else {
      if s.state == SendingData {
        DataMeansRoom(c, h);
      }
      SendDataIsOk(c, s', src, h);
    }
  }

  lemma DataMeansRoom(c: Setup, h: seq<Record>)
    requires h != [] && Chain(c, h) && Last(h).Kind() == Kind.Data
    ensures c.Room() > 0
  {
    hide Setup.Room;
    BeginsIsInit(c, h[0]);
    assert Follows(c, h[|h| - 2], h[|h| - 1]);
  }

  lemma OnEndAckIsOk(c: Setup, s: SenderState, src: SourceState, h: seq<Record>)
    requires SenderOk(c, s, src, h) && s.status == Running && s.state == SendingEnd
    ensures var step := OnEndAck(Moved(s), src);
            Advanced(c, step, h, Extended(step, h))
            && (c.faults == map[] ==> step.s.status == Running)
  {
    hide Chain, Setup.OnLine, Setup.ModeOf, Wholes, Setup.Room, Setup.SenderLink, Setup.Sound;
    hide PacketStep, NextFile, Advanced, Extended, LinkAgreed, Balanced, Gone, Setup.CheckAgreed;
    WholesLast(h);
    NumbersFollow(|h| - 1);
    LinkIsAgreed(c, s);
    var m := Moved(s);
    var s' := m.(progress := s.progress.(files := s.progress.files + if s.discarding then 0 else 1));
    assert Ready(c, s', src, h);
    if s.cancelling {
      PacketIsOk(c, s'.(state := SendingBreak), src, h, Break, []);
    } else {
      assert !EndsDiscarded(h[|h| - 1]);
      NextFileIsOk(c, s', src, h);
    }
  }

  /** An acknowledgement takes a running sender one packet further, or stops it. */
  lemma AcknowledgedIsOk(c: Setup, s: SenderState, src: SourceState, h: seq<Record>, data: seq<byte>)
    requires SenderOk(c, s, src, h) && s.status == Running && GoodAnswer(c, s, data)
    ensures var step := Acknowledged(s, src, data);
            Advanced(c, step, h, Extended(step, h))
            && (c.faults == map[] && c.AllOrNothing() && s.state != SendingBreak ==> step.s.status == Running)
            && (s.state == SendingBreak ==> step.s.status == if s.cancelling then Cancelled else Done)
  {
    hide Chain, Setup.OnLine, Setup.ModeOf, Wholes, NoneDiscarded, Setup.Room, Setup.SenderLink, Setup.Sound;
    hide PacketStep, SendData, NextFile, Advanced, Extended, LinkAgreed, Balanced, Gone, OnFileAck, OnDataAck, OnEndAck;
    hide NewLink, LinkState.Agree, Block, ReadBlock, Discard, FileOk;
    match s.state {
      case SendingInit =>
        AgreeingAgrees(c, s.link);
        WholesLast(h);
        var s' := Moved(s).(link := s.link.Agree(ReadBlock(data)));
        assert Ready(c, s', src, h);
        NextFileIsOk(c, s', src, h);
      case SendingFile => OnFileAckIsOk(c, s, src, h);
      case SendingAttributes => OnDataAckIsOk(c, s, src, h, data);
      case SendingData => OnDataAckIsOk(c, s, src, h, data);
      case SendingEnd => OnEndAckIsOk(c, s, src, h);
      case SendingBreak => BreakAckIsOk(c, s, src, h);
      case Finished =>
    }
  }

  lemma BreakAckIsOk(c: Setup, s: SenderState, src: SourceState, h: seq<Record>)
    requires SenderOk(c, s, src, h) && s.status == Running && s.state == SendingBreak
    ensures var step := SenderStop(Moved(s), src, if s.cancelling then Cancelled else Done, []);
            Advanced(c, step, h, h) && Extended(step, h) == h
  {
    hide Chain, NoneDiscarded, Wholes;
    WholesLast(h);
  }

  /** A running sender's link has heard the far end's parameters, or has not, whatever it has tried since. */
  lemma RunningKnowsLink(c: Setup, s: SenderState, src: SourceState, h: seq<Record>, link: LinkState)
    requires SenderOk(c, s, src, h) && s.status == Running
    requires link == s.link.(retries := link.retries, armed := link.armed)
    ensures LinkKnown(c, link, |h|) && s.seqno < 64
  {
    hide NewLink, Setup.SenderLink, Chain, FileOk, NoneDiscarded, Wholes, SizesOk, SourceOk;
  }

  lemma RetryIsSameLink(link: LinkState)
    ensures link.Retry() == link.(retries := link.Retry().retries, armed := link.Retry().armed)
  {
  }

  /** What a step that sends nothing new leaves. */
  ghost predicate Stayed(c: Setup, s: SenderState, step: SenderStep, h: seq<Record>) {
    && SenderOk(c, step.s, step.src, h)
    && |step.out| <= 1
    && (if step.s.status == Running then
          (step.out == [] || step.out == [Last(h).frame]) && step.s.seqno == s.seqno
              && step.s.link.retries == s.link.retries + |step.out|
        else forall f | f in step.out :: f.packet.kind == Error)
  }

  /** Sending the same packet again changes nothing but sizes and tries. */
  lemma AgainIsOk(c: Setup, s: SenderState, src: SourceState, h: seq<Record>)
    requires SenderOk(c, s, src, h) && s.status == Running
    ensures Stayed(c, s, Again(s, src), h)
    ensures s.link.retries < s.link.limit ==> Again(s, src).s.status == Running && Again(s, src).out == [Last(h).frame]
  {
    hide Chain, NoneDiscarded, Wholes, SenderFail, SenderStop, Backed, LinkOk, FileOk, SourceOk, SizesOk;
    hide LinkKnown;
    BackedIsSized(c, s);
    var backed := Backed(s);
    var s' := backed.(link := backed.link.Retry());
    RetryIsSameLink(s.link);
    RunningKnowsLink(c, s, src, h, s'.link);
    if s'.link.retries <= s'.link.limit {
      RetriedIsOk(c, s, src, h, s'.size, s'.ceiling);
    } else if s.state == SendingBreak {
      BreakGivesUp(c, s, src, h, s');
    } else {
      FailIsOk(c, s', src, h, NoAnswer);
      FailSendsError(s', src, NoAnswer);
    }
  }

  lemma FailSendsError(s: SenderState, src: SourceState, reason: Reason)
    ensures var step := SenderFail(s, src, reason);
            |step.out| == 1 && step.out[0].packet.kind == Error && step.s.status == Failed(reason)
  {
    hide Wording, Data.Encode;
  }

  lemma RetriedIsOk(c: Setup, s: SenderState, src: SourceState, h: seq<Record>, size: nat, ceiling: nat)
    requires SenderOk(c, s, src, h) && s.status == Running && s.link.retries < s.link.limit && SizesOk(c, size, ceiling)
    ensures SenderOk(c, s.(size := size, ceiling := ceiling, link := s.link.Retry()), src, h)
  {
    hide Chain, NoneDiscarded, Wholes, Balanced, Gone, Setup.SenderLink, Setup.ModeOf, Setup.Room, SourceOk, NewLink;
    var s' := s.(size := size, ceiling := ceiling, link := s.link.Retry());
    assert FileOk(c, s', src, Last(h)) == FileOk(c, s, src, Last(h));
  }

  lemma BreakGivesUp(c: Setup, s: SenderState, src: SourceState, h: seq<Record>, s': SenderState)
    requires SenderOk(c, s, src, h) && s.status == Running && s.state == SendingBreak && SizesOk(c, s'.size, s'.ceiling)
    requires s' == s.(size := s'.size, ceiling := s'.ceiling, link := s'.link) && LinkKnown(c, s'.link, |h|) && s.seqno < 64
    ensures var step := SenderStop(s', src, Done, []);
            SenderOk(c, step.s, src, h) && step.src == src && step.out == [] && step.s.status == Done
  {
    hide Chain, NoneDiscarded, Wholes, LinkOk, SizesOk, NewLink, Setup.SenderLink;
    WholesLast(h);
  }

  lemma BackedIsSized(c: Setup, s: SenderState)
    requires SizesOk(c, s.size, s.ceiling)
    ensures var b := Backed(s); b == s.(ceiling := b.ceiling, size := b.size) && SizesOk(c, b.size, b.ceiling)
  {
    hide Setup.Room;
  }

  lemma SenderCancelIsOk(c: Setup, s: SenderState, src: SourceState, h: seq<Record>)
    requires SenderOk(c, s, src, h)
    ensures Stayed(c, s, SenderCancel(s, src), h)
  {
    hide Chain, Wholes, NoneDiscarded, LinkOk, LinkKnown, FileOk, SourceOk, SizesOk, SenderStop;
    if s.status == Running {
      RunningKnowsLink(c, s, src, h, s.link);
      if (s.state == SendingData || s.state == SendingEnd) && !s.cancelling {
        WishIsOk(c, s, src, h);
      } else {
        var out := [s.link.ErrorFrame(s.seqno, CANCELLED_WORDING)];
        StopIsOk(c, s, src, h, Cancelled, out);
        StopSends(s, src, Cancelled, out);
      }
    }
  }

  lemma StopSends(s: SenderState, src: SourceState, status: Status, out: seq<Frame>)
    ensures var step := SenderStop(s, src, status, out);
            step.out == out && step.s.status == status && step.src == src && step.s.seqno == s.seqno
  {
  }

  /** A sender asked to stop is still all right. */
  lemma WishIsOk(c: Setup, s: SenderState, src: SourceState, h: seq<Record>)
    requires SenderOk(c, s, src, h) && s.status == Running && (s.state == SendingData || s.state == SendingEnd)
    ensures SenderOk(c, s.(cancelling := true), src, h)
  {
    hide Chain, Wholes, NoneDiscarded, Balanced, Gone, Setup.SenderLink, Setup.ModeOf, SourceOk, SizesOk;
    assert FileOk(c, s.(cancelling := true), src, Last(h)) == FileOk(c, s, src, Last(h));
  }

  /** The sender as it starts. */
  lemma StartIsOk(c: Setup)
    ensures var s := SenderStart(NewSender(c.sender));
            SenderOk(c, s, SourceState(c.files, 0, 0, 0, c.chunks, c.faults), [Record(s.link.last[0], 0, 0)])
  {
    var s := SenderStart(NewSender(c.sender));
    var h := [Record(s.link.last[0], 0, 0)];
    assert h[..0] == [];
  }

  /** Only a `Z`, or the user, makes a sender wish to stop. */
  lemma AcknowledgedCancelling(c: Setup, s: SenderState, src: SourceState, h: seq<Record>, data: seq<byte>)
    requires SenderOk(c, s, src, h) && s.status == Running
    ensures Acknowledged(s, src, data).s.cancelling == (s.cancelling || (s.state == SendingData && data != []
        && data[0] == 90))
  {
    hide SendData, NextFile, PacketStep, Attributes.Built, ReadBlock, LinkState.Agree, SenderOk;
    PacketKeepsWish(Moved(s), src);
  }

  lemma PacketKeepsWish(s: SenderState, src: SourceState)
    ensures forall s: SenderState, src, kind, data :: PacketStep(s, src, kind, data).s.cancelling == s.cancelling
  {
  }
}

/**
 The receiving end against the history of what the sender has sent it: after
 accepting `e` packets its state is the one those packets call for, and the
 store holds, complete, exactly files the sender sent.
 */
module ReceiverSide {
  import opened Options
  import opened Bytes
  import opened Checks
  import opened Packets
  import opened Parameters
  import opened Protocol
  import opened History
  import Data
  import Text
  import Attributes

  // ------------------------------------------------------------------
  // The store
  // ------------------------------------------------------------------

  /** The files that were finished complete, in order. */
  function Complete(files: seq<StoredFile>): (kept: seq<StoredFile>)
    ensures |kept| <= |files|
  {
    if files == [] then []
    else Complete(files[..|files| - 1]) + if files[|files| - 1].complete then [files[|files| - 1]] else []
  }

  lemma CompleteAppend(files: seq<StoredFile>, f: StoredFile)
    ensures Complete(files + [f]) == Complete(files) + if f.complete then [f] else []
  {
    assert (files + [f])[..|files|] == files;
  }

  /** The complete files are the first of the source's, each as it was to arrive. */
  ghost predicate Faithful(c: Setup, kept: seq<StoredFile>) {
    |kept| <= |c.files| && forall j | 0 <= j < |kept| :: kept[j] == c.Expected(j)
  }

  // ------------------------------------------------------------------
  // What a receiver is
  // ------------------------------------------------------------------

  ghost predicate LinkAfter(c: Setup, link: LinkState, e: nat) {
    if e == 0 then link == NewLink(c.receiver).(retries := link.retries, armed := link.armed)
    else link == c.ReceiverLink().(last := link.last, retries := link.retries, armed := link.armed)
  }

  /** An answer to packet `i`; only a receiver asked to stop says `Z`. */
  ghost predicate AnswerTo(c: Setup, f: Frame, i: nat, stopped: bool) {
    && f.packet.kind == Ack && f.packet.sequence == i % 64
    && MadeBy(c.ReceiverLink(), f)
    && (if i == 0 then f.check == One && f.packet.data == Block(c.receiver.params)
        else f.check == c.CheckAgreed()
             && (f.packet.data == [] || f.packet.data == [89] || (f.packet.data == [90] && stopped)))
  }

  /** What is in the open file when the packets up to `a` have been accepted. */
  ghost predicate ContentOk(c: Setup, mode: Mode, held: bool, cancelling: bool, file: OpenFile, a: Record)
    requires 0 < a.begun <= |c.files|
  {
    var i := a.begun - 1;
    && file.name == c.Expected(i).name
    && file.content <= c.Expected(i).content
    && (MidFile(c, a) ==> mode == c.ModeOf(i))
    && a.sent <= |c.OnLine(i)|
    && (!cancelling ==>
          && file.content == WrittenForm(c.ModeOf(i), c.receiver.local, c.OnLine(i)[..a.sent])
          && (c.ModeOf(i) == TextMode ==> held == Text.Held(c.receiver.local, false, c.OnLine(i)[..a.sent])))
  }

  /** The state a running receiver is in once `a` is the last packet it accepted. */
  ghost predicate StateAfter(c: Setup, r: ReceiverState, store: StoreState, a: Record) {
    match a.Kind()
    case SendInit => r.state == AwaitFile && !r.open
    case EndOfFile => r.state == AwaitFile && !r.open
    case File => OpenAfter(c, r, store, a)
    case Attributes => OpenAfter(c, r, store, a)
    case Data => OpenAfter(c, r, store, a)
    case _ => false
  }

  /** The size a receiver has been told of the file that is open. */
  function SizeHeard(c: Setup, a: Record): Option<nat>
    requires 0 < a.begun <= |c.files|
  {
    if a.Kind() == File || !c.SenderLink().attributes then None else c.files[a.begun - 1].size
  }

  ghost predicate OpenAfter(c: Setup, r: ReceiverState, store: StoreState, a: Record) {
    && r.state == AwaitData && r.open && store.open.Some? && 0 < a.begun <= |c.files|
    && r.progress.bytes == |store.open.value.content| && r.progress.file == Some(store.open.value.name)
    && r.progress.size == SizeHeard(c, a)
    && (c.Sound() ==> ContentOk(c, r.mode, r.held, r.cancelling, store.open.value, a))
  }

  ghost predicate CountsOk(c: Setup, r: ReceiverState, store: StoreState, h: seq<Record>, e: nat, stopped: bool)
    requires e <= |h|
  {
    && r.progress.files == |Complete(store.files)|
    && (c.Sound() ==> Faithful(c, Complete(store.files)))
    && (!stopped ==> |Complete(store.files)| == Wholes(h[..e]))
  }

  /** What a receiver that means to keep files knows of what was ended and what was discarded. */
  ghost predicate WishOk(r: ReceiverState, store: StoreState, h: seq<Record>, e: nat, stopped: bool)
    requires e <= |h|
  {
    && (!r.cancelling ==> |Complete(store.files)| == if e == 0 then 0 else EndedBy(h[e - 1]))
    && (!r.cancelling ==> NoneDiscarded(h[..e]))
    && (!stopped && r.cancelling ==> !NoneDiscarded(h[..e]))
  }

  /** A failure that can happen to a receiver between these two ends. */
  predicate Explained(status: Status) {
    status.Failed? ==> !status.reason.Unexpected? && status.reason != BothReceiving
  }

  /** The receiver and its store, after `e` packets of the history. */
  ghost predicate ReceiverOk(c: Setup, r: ReceiverState, store: StoreState, h: seq<Record>, e: nat, stopped: bool) {
    && e <= |h| && r.expected == e % 64 && r.settings == c.receiver
    && LinkAfter(c, r.link, e) && store.refusals == c.refusals
    && (e > 0 ==> |r.link.last| == 1 && AnswerTo(c, r.link.last[0], e - 1, stopped))
    && r.open == store.open.Some?
    && CountsOk(c, r, store, h, e, stopped)
    && Explained(r.status)
    && (r.status == Running || r.status == Done ==> WishOk(r, store, h, e, stopped))
    && (r.status == Running ==> if e == 0 then r.state == AwaitSendInit && !r.open && !r.cancelling else StateAfter(c, r, store, h[e - 1]))
    && (r.status == Running ==> r.link.armed == r.link.Timed())
    && (r.status != Running ==> r.state == Over && !r.open && !r.link.armed)
    && (r.status == Done ==> e > 0 && h[e - 1].Kind() == Break && !r.cancelling)
  }

  // ------------------------------------------------------------------
  // Stopping
  // ------------------------------------------------------------------

  lemma StopIsOk(c: Setup, r: ReceiverState, store: StoreState, h: seq<Record>, e: nat, stopped: bool,
                 status: Status, out: seq<Frame>)
    requires e <= |h| && r.expected == e % 64 && r.settings == c.receiver && LinkAfter(c, r.link, e)
    requires store.refusals == c.refusals
    requires e > 0 ==> |r.link.last| == 1 && AnswerTo(c, r.link.last[0], e - 1, stopped)
    requires (r.open ==> store.open.Some?) && (!r.open ==> store.open.None?)
    requires CountsOk(c, r, store, h, e, stopped)
    requires status != Running && status != Done && Explained(status)
    ensures var step := ReceiverStop(r, store, status, out);
            ReceiverOk(c, step.r, step.store, h, e, stopped) && step.r.expected == r.expected
  {
    hide Setup.Sound, Faithful, AnswerTo, NoneDiscarded, Wholes, EndedBy, Setup.ReceiverLink, NewLink, Complete;
    if r.open {
      CompleteAppend(store.files, StoredFile(store.open.value.name, store.open.value.content, false));
      assert Complete(store.Finish(false).files) == Complete(store.files);
    }
  }

  lemma FailIsOk(c: Setup, r: ReceiverState, store: StoreState, h: seq<Record>, e: nat, stopped: bool, reason: Reason)
    requires e <= |h| && r.expected == e % 64 && r.settings == c.receiver && LinkAfter(c, r.link, e)
    requires store.refusals == c.refusals
    requires e > 0 ==> |r.link.last| == 1 && AnswerTo(c, r.link.last[0], e - 1, stopped)
    requires (r.open ==> store.open.Some?) && (!r.open ==> store.open.None?)
    requires CountsOk(c, r, store, h, e, stopped)
    requires !reason.Unexpected? && reason != BothReceiving
    ensures Accepted(c, ReceiverFail(r, store, reason), r, h, e, stopped)
  {
    hide Wording, AnswerTo, CountsOk, LinkAfter, ReceiverStop;
    StopIsOk(c, r, store, h, e, stopped, Failed(reason), [r.link.ErrorFrame(r.expected, Wording(reason))]);
    StopKeepsOut(r, store, Failed(reason), [r.link.ErrorFrame(r.expected, Wording(reason))]);
  }

  lemma StopKeepsOut(r: ReceiverState, store: StoreState, status: Status, out: seq<Frame>)
    ensures var step := ReceiverStop(r, store, status, out);
            step.out == out && step.r.status == status && step.r.expected == r.expected
  {
  }

  // ------------------------------------------------------------------
  // Accepting the next packet
  // ------------------------------------------------------------------

  /** What accepting a packet leaves: one packet further and its answer sent, or stopped. */
  ghost predicate Accepted(c: Setup, step: ReceiverStep, r: ReceiverState, h: seq<Record>, e: nat, stopped: bool) {
    if step.r.expected != r.expected then
      e < |h| && ReceiverOk(c, step.r, step.store, h, e + 1, stopped) && step.out == step.r.link.last
    else
      ReceiverOk(c, step.r, step.store, h, e, stopped) && step.r.status.Failed?
      && |step.out| == 1 && step.out[0].packet.kind == Error
  }

  lemma AnswerIsOk(c: Setup, link: LinkState, e: nat, data: seq<byte>, stopped: bool)
    requires e > 0 && LinkAfter(c, link, e)
    requires data == [] || data == [89] || (data == [90] && stopped)
    ensures var link' := link.Send(e % 64, Ack, data, link.CheckUsed());
            LinkAfter(c, link', e + 1) && |link'.last| == 1 && AnswerTo(c, link'.last[0], e, stopped)
            && link'.armed == link'.Timed()
  {
    hide NewLink, LinkState.Agree, Block, Known;
    LinksMirror(c);
  }

  lemma SequenceMoves(e: nat)
    ensures Next(e % 64) == (e + 1) % 64 != e % 64 && Previous((e + 1) % 64) == e % 64
    ensures Previous(e % 64) != e % 64 && (e > 0 ==> Previous(e % 64) == (e - 1) % 64)
  {
  }

  lemma PrefixGrows(h: seq<Record>, e: nat)
    requires e < |h|
    ensures Wholes(h[..e + 1]) == Wholes(h[..e]) + if EndsWhole(h[e]) then 1 else 0
    ensures NoneDiscarded(h[..e + 1]) <==> NoneDiscarded(h[..e]) && !EndsDiscarded(h[e])
  {
    assert h[..e + 1][..e] == h[..e] && Last(h[..e + 1]) == h[e];
    if NoneDiscarded(h[..e + 1]) {
      assert !EndsDiscarded(h[..e + 1][e]);
      forall i | 0 <= i < e ensures !EndsDiscarded(h[..e][i]) { assert h[..e + 1][i] == h[..e][i]; }
    } else {
      var i :| 0 <= i < e + 1 && EndsDiscarded(h[..e + 1][i]);
      assert i < e ==> EndsDiscarded(h[..e][i]);
    }
  }

  /** Counts are kept by a packet that ends no file. */
  lemma CountsCarry(c: Setup, r: ReceiverState, store: StoreState, h: seq<Record>, e: nat, stopped: bool,
                    r': ReceiverState, store': StoreState)
    requires e < |h| && CountsOk(c, r, store, h, e, stopped) && store'.files == store.files
    requires r'.progress.files == r.progress.files && r'.cancelling == r.cancelling
    requires h[e].Kind() != EndOfFile && EndedBy(h[e]) == if e == 0 then 0 else EndedBy(h[e - 1])
    ensures CountsOk(c, r', store', h, e + 1, stopped)
    ensures WishOk(r, store, h, e, stopped) ==> WishOk(r', store', h, e + 1, stopped)
  {
    hide Setup.Sound, Faithful, NoneDiscarded, Wholes, EndedBy, Complete;
    PrefixGrows(h, e);
  }

  lemma OnSendInitIsOk(c: Setup, r: ReceiverState, store: StoreState, h: seq<Record>, stopped: bool)
    requires ReceiverOk(c, r, store, h, 0, stopped) && r.status == Running && Chain(c, h)
    ensures Accepted(c, OnSendInit(r, store, h[0].frame.packet), r, h, 0, stopped)
  {
    hide Setup.Sound, Faithful, NoneDiscarded, Wholes, Complete, Block, ReadBlock, Follows, Long;
    hide OffersAttributes, Agreed, Parameters.Sending;
    assert Begins(c, h[0]) && h[0].frame.packet.sequence == 0;
    LinksMirror(c);
    var step := OnSendInit(r, store, h[0].frame.packet);
    CountsCarry(c, r, store, h, 0, stopped, step.r, step.store);
  }

  lemma OnFileIsOk(c: Setup, r: ReceiverState, store: StoreState, h: seq<Record>, e: nat, stopped: bool)
    requires 0 < e < |h| && ReceiverOk(c, r, store, h, e, stopped) && r.status == Running && Chain(c, h)
    requires h[e].Kind() == File
    ensures Accepted(c, OnFile(r, store, h[e].frame.packet), r, h, e, stopped)
  {
    hide Setup.Sound, Faithful, NoneDiscarded, Wholes, Complete, Data.Decode, LinkAfter, AnswerTo, CountsOk;
    hide WishOk, ContentOk;
    hide Follows, AckStep, EndedBy, Setup.OnLine, Setup.Expected, ReceiverFail;
    var a, b, p := h[e - 1], h[e], h[e].frame.packet;
    assert Follows(c, a, b);
    FileFollows(c, a, b);
    SequenceMoves(e);
    var sent := Data.Decode(p.data, r.link.ReadsWith().Quoting());
    var name := r.settings.nameFor(sent);
    if name.None? {
      FailIsOk(c, r, store, h, e, stopped, BadName(sent));
    } else if store.Refuses() {
      CountsIgnoreOps(c, r, store, h, e, stopped, store.Create(name.value));
      FailIsOk(c, r, store.Create(name.value), h, e, stopped, StoreFailed(store.refusals[store.ops]));
    } else {
      var r1 := r.(open := true, held := false, mode := r.settings.mode, state := AwaitData,
                   progress := r.progress.(file := name, bytes := 0, size := None));
      var store' := store.Create(name.value);
      CountsCarry(c, r, store, h, e, stopped, r1, store');
      if c.Sound() {
        NewFileContent(c, r.link, e, b, sent, name.value, r1.cancelling);
      }
      AckIsOk(c, r1, store', h, e, stopped, []);
    }
  }

  /** Once its state is right, an answered packet is an accepted one. */
  lemma AckIsOk(c: Setup, r: ReceiverState, store: StoreState, h: seq<Record>, e: nat, stopped: bool, data: seq<byte>)
    requires 0 < e < |h| && r.expected == e % 64 && r.settings == c.receiver && LinkAfter(c, r.link, e)
    requires store.refusals == c.refusals && r.open == store.open.Some? && r.status == Running
    requires data == [] || data == [89] || (data == [90] && stopped)
    requires CountsOk(c, r, store, h, e + 1, stopped) && WishOk(r, store, h, e + 1, stopped) && StateAfter(c, r, store, h[e])
    ensures Accepted(c, AckStep(r, store, e % 64, data), r, h, e, stopped)
  {
    hide Setup.Sound, Faithful, NoneDiscarded, Wholes, Complete, LinkAfter, AnswerTo, ContentOk, EndedBy;
    hide LinkState.Send, LinkState.CheckUsed;
    SequenceMoves(e);
    AnswerIsOk(c, r.link, e, data, stopped);
  }

  lemma CountsIgnoreOps(c: Setup, r: ReceiverState, store: StoreState, h: seq<Record>, e: nat, stopped: bool,
        store': StoreState)
    requires e <= |h| && CountsOk(c, r, store, h, e, stopped) && store'.files == store.files
    ensures CountsOk(c, r, store', h, e, stopped)
  {
  }

  lemma FileFollows(c: Setup, a: Record, b: Record)
    requires Follows(c, a, b) && b.Kind() == File
    ensures (a.Kind() == SendInit || EndsWhole(a)) && b.begun == a.begun + 1 <= |c.files| && b.sent == 0
    ensures b.Body() == c.NameData(a.begun) && EndedBy(b) == EndedBy(a)
  {
  }

  lemma NewFileContent(c: Setup, link: LinkState, e: nat, b: Record, sent: seq<byte>, name: seq<byte>, cancelling: bool)
    requires c.Sound() && e > 0 && LinkAfter(c, link, e) && 0 < b.begun <= |c.files| && b.sent == 0 && b.Kind() == File
    requires b.Body() == c.NameData(b.begun - 1)
    requires sent == Data.Decode(b.Body(), link.ReadsWith().Quoting()) && c.receiver.nameFor(sent) == Some(name)
    ensures ContentOk(c, c.receiver.mode, false, cancelling, OpenFile(name, []), b)
  {
    hide NewLink, LinkState.Agree, Block, Known, Data.Encode, Data.Decode, Data.Admissible, Setup.OnLine;
    LinksMirror(c);
    var i := b.begun - 1;
    Data.DecodeUndoesEncode(c.files[i].name, c.Quoting(), c.Room());
    assert c.OnLine(i)[..0] == [];
  }

  lemma OnBreakIsOk(c: Setup, r: ReceiverState, store: StoreState, h: seq<Record>, e: nat, stopped: bool)
    requires 0 < e < |h| && ReceiverOk(c, r, store, h, e, stopped) && r.status == Running && Chain(c, h)
    requires h[e].Kind() == Break
    ensures Accepted(c, OnBreak(r, store, h[e].frame.packet), r, h, e, stopped)
  {
    hide Setup.Sound, Faithful, NoneDiscarded, Wholes, Complete, LinkAfter, AnswerTo, CountsOk, WishOk;
    hide ContentOk, EndedBy;
    hide LinkState.Send, LinkState.CheckUsed, Follows;
    var a, b := h[e - 1], h[e];
    assert Follows(c, a, b);
    BreakFollows(c, a, b);
    SequenceMoves(e);
    AnswerIsOk(c, r.link, e, [], stopped);
    var step := OnBreak(r, store, b.frame.packet);
    CountsCarry(c, r, store, h, e, stopped, step.r, step.store);
    LinkDisarms(c, r.link.Send(e % 64, Ack, [], r.link.CheckUsed()), e + 1);
  }

  lemma LinkDisarms(c: Setup, link: LinkState, e: nat)
    requires LinkAfter(c, link, e)
    ensures LinkAfter(c, link.Disarm(), e) && LinkAfter(c, link.Arm(), e) && LinkAfter(c, link.Retry(), e)
  {
  }

  lemma BreakFollows(c: Setup, a: Record, b: Record)
    requires Follows(c, a, b) && b.Kind() == Break
    ensures (a.Kind() == SendInit || a.Kind() == EndOfFile) && EndedBy(b) == EndedBy(a)
  {
  }

  lemma MidFollows(c: Setup, a: Record, b: Record)
    requires Follows(c, a, b) && (b.Kind() == Kind.Attributes || b.Kind() == Kind.Data || b.Kind() == EndOfFile)
    ensures a.Kind() == File || a.Kind() == Kind.Attributes || a.Kind() == Kind.Data
    ensures b.begun == a.begun > 0 && b.begun <= |c.files|
    ensures b.Kind() != EndOfFile ==> EndedBy(b) == EndedBy(a)
    ensures b.Kind() == EndOfFile ==> EndedBy(b) == EndedBy(a) + 1 && b.sent == a.sent && (b.Body() == [] || b.Body() == DISCARD)
    ensures b.Kind() == EndOfFile || b.Kind() == Kind.Data ==> MidFile(c, a)
    ensures b.Kind() == EndOfFile && c.Sound() && b.Body() == [] ==> b.sent == |c.OnLine(b.begun - 1)|
  {
    hide Setup.Sound, Setup.OnLine;
  }

  lemma OnAttributesIsOk(c: Setup, r: ReceiverState, store: StoreState, h: seq<Record>, e: nat, stopped: bool)
    requires 0 < e < |h| && ReceiverOk(c, r, store, h, e, stopped) && r.status == Running && Chain(c, h)
    requires h[e].Kind() == Kind.Attributes
    ensures Accepted(c, OnAttributes(r, store, h[e].frame.packet), r, h, e, stopped)
  {
    hide Setup.Sound, Faithful, NoneDiscarded, Wholes, Complete, LinkAfter, AnswerTo, CountsOk, WishOk;
    hide ContentOk, EndedBy;
    hide Follows, AckStep, Setup.OnLine, Setup.ModeOf, MidFile, Attributes.ReadAll;
    var a, b := h[e - 1], h[e];
    assert Follows(c, a, b);
    MidFollows(c, a, b);
    var said := Attributes.ReadAll(b.Body());
    if a.Kind() == File {
      FileSendsNothing(c, h, e - 1);
    }
    assert said.fileType == Some(if c.ModeOf(b.begun - 1) == TextMode then Attributes.Text else Attributes.Binary)
           && said.size == SizeHeard(c, b) && b.sent == a.sent == 0 by { AttributesFollow(c, a, b); }
    hide SizeHeard;
    var r1 := r.(mode := c.ModeOf(b.begun - 1), progress := r.progress.(size := said.size));
    CountsCarry(c, r, store, h, e, stopped, r1, store);
    if c.Sound() {
      AttributesContent(c, r.mode, r.held, r.cancelling, store.open.value, a, b);
    }
    AckIsOk(c, r1, store, h, e, stopped, [89]);
    assert OnAttributes(r, store, b.frame.packet) == AckStep(r1, store, e % 64, [89]);
  }

  lemma AttributesFollow(c: Setup, a: Record, b: Record)
    requires Follows(c, a, b) && b.Kind() == Kind.Attributes && (a.Kind() == File ==> a.sent == 0)
    ensures 0 < b.begun <= |c.files| && SaysOf(b.Body(), c.ModeOf(b.begun - 1), c.files[b.begun - 1].size)
    ensures b.sent == 0 && a.Kind() == File && c.SenderLink().attributes
  {
  }

  lemma AttributesContent(c: Setup, mode: Mode, held: bool, cancelling: bool, file: OpenFile, a: Record, b: Record)
    requires 0 < a.begun == b.begun <= |c.files| && a.sent == b.sent && ContentOk(c, mode, held, cancelling, file, a)
    ensures ContentOk(c, c.ModeOf(b.begun - 1), held, cancelling, file, b)
  {
    hide Setup.OnLine, Setup.Expected, MidFile;
  }

  lemma OnDataIsOk(c: Setup, r: ReceiverState, store: StoreState, h: seq<Record>, e: nat, stopped: bool)
    requires 0 < e < |h| && ReceiverOk(c, r, store, h, e, stopped) && r.status == Running && Chain(c, h)
    requires h[e].Kind() == Kind.Data
    ensures Accepted(c, OnData(r, store, h[e].frame.packet), r, h, e, stopped)
  {
    hide ReceiverOk, Chain, Accepted, OnData;
    if r.cancelling {
      DataIgnored(c, r, store, h, e, stopped);
    } else {
      DataTaken(c, r, store, h, e, stopped);
    }
  }

  /** Data says nothing of sizes. */
  lemma SizeStays(c: Setup, a: Record, b: Record)
    requires Follows(c, a, b) && b.Kind() == Kind.Data && 0 < a.begun == b.begun <= |c.files|
    ensures SizeHeard(c, b) == SizeHeard(c, a)
  {
    hide Setup.SenderLink, Setup.OnLine, Setup.Sound, Setup.CheckAgreed, MadeBy;
  }

  lemma DataIgnored(c: Setup, r: ReceiverState, store: StoreState, h: seq<Record>, e: nat, stopped: bool)
    requires 0 < e < |h| && ReceiverOk(c, r, store, h, e, stopped) && r.status == Running && Chain(c, h)
    requires h[e].Kind() == Kind.Data && r.cancelling
    ensures Accepted(c, OnData(r, store, h[e].frame.packet), r, h, e, stopped)
  {
    hide Setup.Sound, Faithful, NoneDiscarded, Wholes, Complete, LinkAfter, AnswerTo, CountsOk, WishOk;
    hide ContentOk, EndedBy;
    hide Follows, AckStep, Setup.OnLine, Accepted, SizeHeard, MidFile;
    var a, b := h[e - 1], h[e];
    assert Follows(c, a, b);
    MidFollows(c, a, b);
    SizeStays(c, a, b);
    NoDiscardBefore(c, h, e);
    assert stopped by { WishMeans(r, store, h, e, stopped); }
    CountsCarry(c, r, store, h, e, stopped, r, store);
    if c.Sound() {
      IgnoredContent(c, r.mode, r.held, store.open.value, a, b);
    }
    AckIsOk(c, r, store, h, e, stopped, [90]);
  }

  lemma DataTaken(c: Setup, r: ReceiverState, store: StoreState, h: seq<Record>, e: nat, stopped: bool)
    requires 0 < e < |h| && ReceiverOk(c, r, store, h, e, stopped) && r.status == Running && Chain(c, h)
    requires h[e].Kind() == Kind.Data && !r.cancelling
    ensures Accepted(c, OnData(r, store, h[e].frame.packet), r, h, e, stopped)
  {
    hide Setup.Sound, Faithful, NoneDiscarded, Wholes, Complete, LinkAfter, AnswerTo, CountsOk, WishOk;
    hide ContentOk, EndedBy;
    hide Follows, AckStep, Setup.OnLine, Data.Decode, Converted, HeldAfter, ReceiverFail, Accepted, SizeHeard, MidFile;
    var a, b, p := h[e - 1], h[e], h[e].frame.packet;
    assert Follows(c, a, b);
    MidFollows(c, a, b);
    SizeStays(c, a, b);
    var bytes := Data.Decode(p.data, r.link.ReadsWith().Quoting());
    var written := Converted(r, bytes);
    var r1 := r.(held := HeldAfter(r, bytes));
    if store.Refuses() {
      CountsIgnoreOps(c, r, store, h, e, stopped, store.Write(written));
      CountsIgnoreHeld(c, r, store.Write(written), h, e, stopped, r1);
      var reason := StoreFailed(store.refusals[store.ops]);
      FailIsOk(c, r1, store.Write(written), h, e, stopped, reason);
      AcceptedFrom(c, ReceiverFail(r1, store.Write(written), reason), r1, r, h, e, stopped);
    } else {
      var r2 := r1.(progress := r.progress.(bytes := r.progress.bytes + |written|));
      CountsCarry(c, r, store, h, e, stopped, r2, store.Write(written));
      if c.Sound() {
        DataContent(c, r, e, store.open.value, a, b);
      }
      AckIsOk(c, r2, store.Write(written), h, e, stopped, []);
      AcceptedFrom(c, AckStep(r2, store.Write(written), e % 64, []), r2, r, h, e, stopped);
    }
  }

  lemma CountsIgnoreHeld(c: Setup, r: ReceiverState, store: StoreState, h: seq<Record>, e: nat, stopped: bool,
        r': ReceiverState)
    requires e <= |h| && CountsOk(c, r, store, h, e, stopped)
    requires r'.progress.files == r.progress.files && r'.cancelling == r.cancelling
    ensures CountsOk(c, r', store, h, e, stopped)
  {
  }

  lemma WishMeans(r: ReceiverState, store: StoreState, h: seq<Record>, e: nat, stopped: bool)
    requires e <= |h| && WishOk(r, store, h, e, stopped) && NoneDiscarded(h[..e]) && r.cancelling
    ensures stopped
  {
  }

  lemma IgnoredContent(c: Setup, mode: Mode, held: bool, file: OpenFile, a: Record, b: Record)
    requires c.Sound() && Follows(c, a, b) && b.Kind() == Kind.Data && 0 < a.begun == b.begun <= |c.files|
    requires ContentOk(c, mode, held, true, file, a)
    ensures ContentOk(c, mode, held, true, file, b)
  {
    hide Setup.OnLine, Setup.Expected, Setup.Sound, Data.Decode;
    assert MidFile(c, a) && b.sent <= |c.OnLine(b.begun - 1)|;
  }

  /** A data packet adds exactly what it carries, in this end's form. */
  lemma DataContent(c: Setup, r: ReceiverState, e: nat, file: OpenFile, a: Record, b: Record)
    requires c.Sound() && Follows(c, a, b) && b.Kind() == Kind.Data && 0 < a.begun == b.begun <= |c.files|
    requires e > 0 && LinkAfter(c, r.link, e) && r.settings == c.receiver
    requires ContentOk(c, r.mode, r.held, false, file, a)
    ensures var bytes := Data.Decode(b.Body(), r.link.ReadsWith().Quoting());
            ContentOk(c, r.mode, HeldAfter(r, bytes), false, OpenFile(file.name, file.content + Converted(r, bytes)), b)
  {
    hide NewLink, LinkState.Agree, Block, Known, Data.Decode, Data.Admissible, Setup.OnLine, Setup.ModesMatch;
    hide Setup.Room, Text.FromLine, Text.Held;
    LinksMirror(c);
    var i := b.begun - 1;
    var line, bytes := c.OnLine(i), Data.Decode(b.Body(), r.link.ReadsWith().Quoting());
    assert bytes == line[a.sent..b.sent];
    assert line[..b.sent] == line[..a.sent] + bytes;
    if r.mode == TextMode {
      Text.FromLineInPieces(c.receiver.local, false, line[..a.sent], bytes);
    }
    WrittenFormGrows(c.ModeOf(i), c.receiver.local, line, b.sent);
  }

  // ------------------------------------------------------------------
  // The end of a file
  // ------------------------------------------------------------------

  /** Counts when a file has ended. */
  lemma CountsAtEnd(c: Setup, r: ReceiverState, store: StoreState, h: seq<Record>, e: nat, stopped: bool,
                    r': ReceiverState, file: StoredFile, store': StoreState)
    requires 0 < e < |h| && CountsOk(c, r, store, h, e, stopped) && r'.cancelling == r.cancelling
    requires EndedBy(h[e]) == EndedBy(h[e - 1]) + 1
    requires !stopped ==> (r.cancelling <==> !NoneDiscarded(h[..e + 1])) && (r.cancelling <==> !EndsWhole(h[e]))
    requires !r.cancelling ==> NoneDiscarded(h[..e + 1])
    requires !r.cancelling ==> |Complete(store.files)| == EndedBy(h[e - 1])
    requires file.complete == !r.cancelling && store'.files == store.files + [file]
    requires r'.progress.files == r.progress.files + if file.complete then 1 else 0
    requires c.Sound() && file.complete ==> EndedBy(h[e - 1]) < |c.files| && file == c.Expected(EndedBy(h[e - 1]))
    ensures CountsOk(c, r', store', h, e + 1, stopped) && WishOk(r', store', h, e + 1, stopped)
  {
    hide Setup.Sound, NoneDiscarded, Wholes, EndedBy, Complete, Setup.Expected, EndsWhole;
    PrefixGrows(h, e);
    CompleteAppend(store.files, file);
  }

  /** What the store is left with when the file is ended whole. */
  lemma WholeContent(c: Setup, mode: Mode, held: bool, file: OpenFile, a: Record, b: Record)
    requires c.Sound() && 0 < a.begun == b.begun <= |c.files| && MidFile(c, a) && b.sent == a.sent == |c.OnLine(b.begun - 1)|
    requires ContentOk(c, mode, held, false, file, a)
    ensures var tail := if mode == TextMode then Text.Finish(held) else [];
            StoredFile(file.name, file.content + tail, true) == c.Expected(b.begun - 1)
  {
    hide Setup.OnLine, Setup.Sound, Text.FromLine, Text.Held;
    var line := c.OnLine(b.begun - 1);
    assert line[..|line|] == line;
  }

  /** A receiver about to end the file it has open. */
  ghost predicate Ending(c: Setup, r: ReceiverState, store: StoreState, h: seq<Record>, e: nat, stopped: bool)
    requires 0 < e < |h|
  {
    && r.expected == e % 64 && r.settings == c.receiver && r.status == Running && r.open && store.open.Some?
    && LinkAfter(c, r.link, e) && store.refusals == c.refusals
    && |r.link.last| == 1 && AnswerTo(c, r.link.last[0], e - 1, stopped)
    && CountsOk(c, r, store, h, e, stopped)
    && EndedBy(h[e]) == EndedBy(h[e - 1]) + 1
    && (!stopped ==> (r.cancelling <==> !NoneDiscarded(h[..e + 1])) && (r.cancelling <==> !EndsWhole(h[e])))
    && (!r.cancelling ==> NoneDiscarded(h[..e + 1]))
    && (!r.cancelling ==> |Complete(store.files)| == EndedBy(h[e - 1]))
  }

  lemma EndedIsOk(c: Setup, r: ReceiverState, store: StoreState, h: seq<Record>, e: nat, stopped: bool)
    requires 0 < e < |h| && Ending(c, r, store, h, e, stopped) && h[e].Kind() == EndOfFile
    requires h[e].frame.packet.sequence == e % 64
    requires c.Sound() && !r.cancelling ==>
               (&& EndedBy(h[e - 1]) < |c.files|
                && StoredFile(store.open.value.name, store.open.value.content, true) == c.Expected(EndedBy(h[e - 1])))
    ensures Accepted(c, Ended(r, store, h[e].frame.packet, !r.cancelling), r, h, e, stopped)
  {
    hide Setup.Sound, Faithful, NoneDiscarded, Wholes, Complete, LinkAfter, AnswerTo, CountsOk, WishOk;
    hide ContentOk, EndedBy;
    hide AckStep, Setup.Expected, ReceiverFail, EndsWhole;
    var keep := !r.cancelling;
    var r' := r.(open := false);
    var file := StoredFile(store.open.value.name, store.open.value.content, keep && !store.Refuses());
    if store.Refuses() {
      CountsAfterRefusal(c, r, store, h, e, stopped, r', file, store.Finish(keep));
      FailIsOk(c, r', store.Finish(keep), h, e, stopped, StoreFailed(store.refusals[store.ops]));
      AcceptedFrom(c, ReceiverFail(r', store.Finish(keep), StoreFailed(store.refusals[store.ops])), r', r, h, e, stopped);
    } else {
      var r1 := r'.(progress := r.progress.(files := r.progress.files + if keep then 1 else 0), state := AwaitFile);
      CountsAtEnd(c, r, store, h, e, stopped, r1, file, store.Finish(keep));
      AckIsOk(c, r1, store.Finish(keep), h, e, stopped, []);
      AcceptedFrom(c, AckStep(r1, store.Finish(keep), e % 64, []), r1, r, h, e, stopped);
    }
  }

  lemma AcceptedFrom(c: Setup, step: ReceiverStep, r: ReceiverState, r0: ReceiverState, h: seq<Record>, e: nat,
        stopped: bool)
    requires Accepted(c, step, r, h, e, stopped) && r.expected == r0.expected
    ensures Accepted(c, step, r0, h, e, stopped)
  {
    hide ReceiverOk;
  }

  lemma CountsAfterRefusal(c: Setup, r: ReceiverState, store: StoreState, h: seq<Record>, e: nat, stopped: bool,
                           r': ReceiverState, file: StoredFile, store': StoreState)
    requires e <= |h| && CountsOk(c, r, store, h, e, stopped)
    requires !file.complete && store'.files == store.files + [file] && r'.progress.files == r.progress.files
    ensures CountsOk(c, r', store', h, e, stopped)
  {
    hide Setup.Sound, Faithful, Wholes, Complete;
    CompleteAppend(store.files, file);
    assert Complete(store'.files) == Complete(store.files);
  }

  lemma OnEndOfFileIsOk(c: Setup, r: ReceiverState, store: StoreState, h: seq<Record>, e: nat, stopped: bool)
    requires 0 < e < |h| && ReceiverOk(c, r, store, h, e, stopped) && r.status == Running && Chain(c, h)
    requires h[e].Kind() == EndOfFile
    ensures Accepted(c, OnEndOfFile(r, store, h[e].frame.packet), r, h, e, stopped)
  {
    hide Setup.Sound, Faithful, NoneDiscarded, Wholes, Complete, LinkAfter, AnswerTo, CountsOk, ContentOk, EndedBy;
    hide Follows, Setup.Expected, Setup.OnLine, ReceiverFail, Ended, Accepted, MidFile, Setup.ModeOf;
    var a, b, p := h[e - 1], h[e], h[e].frame.packet;
    assert Follows(c, a, b);
    MidFollows(c, a, b);
    NoDiscardBefore(c, h, e);
    PrefixGrows(h, e);
    var cancelling := r.cancelling || (p.data != [] && p.data[0] == 68);
    assert EndsDiscarded(b) == (p.data != [] && p.data[0] == 68) && EndsWhole(b) == !EndsDiscarded(b);
    var r1 := r.(cancelling := cancelling);
    CountsIgnoreWish(c, r, store, h, e, stopped, r1, store);
    assert Ending(c, r1, store, h, e, stopped);
    if !cancelling && c.Sound() {
      WholeContent(c, r.mode, r.held, store.open.value, a, b);
      EndedByMid(a);
      assert StoredFile(store.open.value.name, store.open.value.content + (if r.mode == TextMode then Text.Finish(r.held) else []), true)
          == c.Expected(EndedBy(a));
    }
    assert store.open.value.content + [] == store.open.value.content;
    if cancelling || r.mode == BinaryMode {
      EndedIsOk(c, r1, store, h, e, stopped);
      AcceptedFrom(c, Ended(r1, store, p, !cancelling), r1, r, h, e, stopped);
    } else {
      var tail := Text.Finish(r.held);
      var r2 := r1.(held := false);
      if tail == [] {
        CountsIgnoreWish(c, r, store, h, e, stopped, r2, store);
        EndedIsOk(c, r2, store, h, e, stopped);
        AcceptedFrom(c, Ended(r2, store, p, true), r2, r, h, e, stopped);
      } else if store.Refuses() {
        CountsIgnoreWish(c, r, store, h, e, stopped, r2, store.Write(tail));
        FailIsOk(c, r2, store.Write(tail), h, e, stopped, StoreFailed(store.refusals[store.ops]));
        AcceptedFrom(c, ReceiverFail(r2, store.Write(tail), StoreFailed(store.refusals[store.ops])), r2, r, h, e, stopped);
      } else {
        var r3 := r2.(progress := r.progress.(bytes := r.progress.bytes + |tail|));
        CountsIgnoreWish(c, r, store, h, e, stopped, r3, store.Write(tail));
        EndedIsOk(c, r3, store.Write(tail), h, e, stopped);
        AcceptedFrom(c, Ended(r3, store.Write(tail), p, true), r3, r, h, e, stopped);
      }
    }
  }

  lemma EndedByMid(a: Record)
    requires (a.Kind() == File || a.Kind() == Kind.Attributes || a.Kind() == Kind.Data) && a.begun > 0
    ensures EndedBy(a) == a.begun - 1
  {
  }

  lemma CountsIgnoreWish(c: Setup, r: ReceiverState, store: StoreState, h: seq<Record>, e: nat, stopped: bool,
                         r': ReceiverState, store': StoreState)
    requires e <= |h| && CountsOk(c, r, store, h, e, stopped)
    requires r'.progress.files == r.progress.files && store'.files == store.files
    ensures CountsOk(c, r', store', h, e, stopped)
  {
  }

  // ------------------------------------------------------------------
  // Every step of a receiver
  // ------------------------------------------------------------------

  /** The next packet of the history is always one the receiver expects. */
  lemma AcceptIsOk(c: Setup, r: ReceiverState, store: StoreState, h: seq<Record>, e: nat, stopped: bool)
    requires e < |h| && ReceiverOk(c, r, store, h, e, stopped) && r.status == Running && Chain(c, h)
    ensures Accepted(c, ReceiverHandle(r, store, h[e].frame.packet), r, h, e, stopped)
  {
    hide Accepted, Follows, OnSendInit, OnFile, OnBreak, OnAttributes, OnData, OnEndOfFile, ReceiverFail, ReceiverStop;
    hide CountsOk, WishOk, AnswerTo, LinkAfter, ContentOk, Setup.Sound, Data.Decode;
    SequenceMoves(e);
    var p := h[e].frame.packet;
    if e == 0 {
      BeginsIsInit(c, h[0]);
      OnSendInitIsOk(c, r, store, h, stopped);
    } else {
      assert Follows(c, h[e - 1], h[e]);
      KindFollows(c, h[e - 1], h[e]);
      match p.kind {
        case File => OnFileIsOk(c, r, store, h, e, stopped);
        case Break => OnBreakIsOk(c, r, store, h, e, stopped);
        case Attributes => OnAttributesIsOk(c, r, store, h, e, stopped);
        case Data => OnDataIsOk(c, r, store, h, e, stopped);
        case EndOfFile => OnEndOfFileIsOk(c, r, store, h, e, stopped);
        case _ =>
      }
    }
  }

  lemma KindFollows(c: Setup, a: Record, b: Record)
    requires Follows(c, a, b)
    ensures b.Kind() in {File, Break, Kind.Attributes, Kind.Data, EndOfFile}
    ensures b.Kind() == File || b.Kind() == Break ==> a.Kind() == SendInit || a.Kind() == EndOfFile
    ensures b.Kind() != File && b.Kind() != Break ==> a.Kind() in {File, Kind.Attributes, Kind.Data}
  {
  }

  /** The link a receiver has once it has accepted `e` packets. */
  function LinkThen(c: Setup, e: nat): LinkState { if e == 0 then NewLink(c.receiver) else c.ReceiverLink() }

  ghost predicate NakFor(c: Setup, f: Frame, i: nat) {
    && f.packet == Packet(i % 64, Nak, []) && f.check == (if i == 0 then One else c.CheckAgreed())
    && MadeBy(LinkThen(c, i), f)
  }

  /** What a receiver that has accepted `e` packets may send. */
  ghost predicate Speaks(c: Setup, f: Frame, e: nat, stopped: bool) {
    || f.packet.kind == Error
    || (f.packet.kind == Ack && e > 0 && AnswerTo(c, f, e - 1, stopped))
    || NakFor(c, f, e)
  }

  /** What any step leaves a receiver. */
  ghost predicate HeardOk(c: Setup, step: ReceiverStep, r: ReceiverState, h: seq<Record>, e: nat, stopped: bool) {
    var e' := if step.r.expected != r.expected then e + 1 else e;
    && ReceiverOk(c, step.r, step.store, h, e', stopped)
    && |step.out| <= 1 && forall f | f in step.out :: Speaks(c, f, e', stopped)
  }

  lemma AcceptedIsHeard(c: Setup, step: ReceiverStep, r: ReceiverState, h: seq<Record>, e: nat, stopped: bool)
    requires Accepted(c, step, r, h, e, stopped)
    ensures HeardOk(c, step, r, h, e, stopped)
  {
    hide CountsOk, WishOk, LinkAfter, StateAfter, AnswerTo, NakFor, NoneDiscarded, Wholes;
    if step.r.expected != r.expected {
      AnswerIsAck(c, step.r.link.last[0], e, stopped);
    }
  }

  /** A copy of a packet already accepted is answered again and changes nothing. */
  lemma RepeatIsOk(c: Setup, r: ReceiverState, store: StoreState, h: seq<Record>, e: nat, stopped: bool, p: Packet)
    requires ReceiverOk(c, r, store, h, e, stopped) && r.status == Running && e > 0
    requires p.kind != Error && p.sequence == (e - 1) % 64
    ensures var step := ReceiverHandle(r, store, p);
            HeardOk(c, step, r, h, e, stopped) && step.out == r.link.last
                && step.r == r.(link := r.link.Arm()) && step.store == store
  {
    hide ReceiverOk, NakFor, AnswerTo, ReceiverHandle;
    RepeatHandled(c, r, store, h, e, stopped, p);
    RearmedIsOk(c, r, store, h, e, stopped);
    AnswerIsAck(c, r.link.last[0], e - 1, stopped);
  }

  lemma RepeatHandled(c: Setup, r: ReceiverState, store: StoreState, h: seq<Record>, e: nat, stopped: bool, p: Packet)
    requires ReceiverOk(c, r, store, h, e, stopped) && r.status == Running && e > 0
    requires p.kind != Error && p.sequence == (e - 1) % 64
    ensures ReceiverHandle(r, store, p) == ReceiverStep(r.(link := r.link.Arm()), store, r.link.last)
  {
    hide CountsOk, WishOk, LinkAfter, AnswerTo, ContentOk, Setup.Sound, OnSendInit, OnFile, OnBreak;
    hide OnAttributes, OnData, OnEndOfFile, ReceiverFail, ReceiverStop;
    SequenceMoves(e);
  }

  /** Beginning the wait again changes nothing that matters. */
  lemma RearmedIsOk(c: Setup, r: ReceiverState, store: StoreState, h: seq<Record>, e: nat, stopped: bool)
    requires ReceiverOk(c, r, store, h, e, stopped) && r.status == Running && e > 0
    ensures ReceiverOk(c, r.(link := r.link.Arm()), store, h, e, stopped)
    ensures |r.link.last| == 1 && AnswerTo(c, r.link.last[0], e - 1, stopped)
  {
    hide CountsOk, WishOk, LinkAfter, AnswerTo, ContentOk, Setup.Sound;
    LinkDisarms(c, r.link, e);
    CountsIgnoreWish(c, r, store, h, e, stopped, r.(link := r.link.Arm()), store);
    WishIgnoresLink(r, store, h, e, stopped);
  }

  lemma WishIgnoresLink(r: ReceiverState, store: StoreState, h: seq<Record>, e: nat, stopped: bool)
    requires e <= |h| && WishOk(r, store, h, e, stopped)
    ensures WishOk(r.(link := r.link.Arm()), store, h, e, stopped)
        && WishOk(r.(link := r.link.Retry()), store, h, e, stopped)
  {
  }

  lemma AnswerIsAck(c: Setup, f: Frame, i: nat, stopped: bool)
    requires AnswerTo(c, f, i, stopped)
    ensures f.packet.kind == Ack && f.packet.sequence == i % 64
  {
  }

  lemma NakIsOk(c: Setup, r: ReceiverState, store: StoreState, h: seq<Record>, e: nat, stopped: bool)
    requires ReceiverOk(c, r, store, h, e, stopped)
    ensures NakFor(c, NakFrame(r), e)
  {
    hide CountsOk, WishOk, StateAfter, AnswerTo, Agreed, Parameters.Sending;
    LinksMirror(c);
  }

  lemma DamagedIsOk(c: Setup, r: ReceiverState, store: StoreState, h: seq<Record>, e: nat, stopped: bool)
    requires ReceiverOk(c, r, store, h, e, stopped)
    ensures HeardOk(c, ReceiverDamaged(r, store), r, h, e, stopped)
  {
    hide ReceiverOk, NakFor, NakFrame;
    NakIsOk(c, r, store, h, e, stopped);
  }

  lemma ReceiverTickIsOk(c: Setup, r: ReceiverState, store: StoreState, h: seq<Record>, e: nat, stopped: bool)
    requires ReceiverOk(c, r, store, h, e, stopped)
    ensures HeardOk(c, ReceiverTick(r, store), r, h, e, stopped)
  {
    hide CountsOk, WishOk, LinkAfter, AnswerTo, ContentOk, Setup.Sound, NakFrame, NakFor, Accepted, ReceiverFail;
    if r.status == Running && r.link.armed {
      LinkDisarms(c, r.link, e);
      var r' := r.(link := r.link.Retry());
      CountsIgnoreWish(c, r, store, h, e, stopped, r', store);
      WishIgnoresLink(r, store, h, e, stopped);
      if r'.link.retries > r'.link.limit {
        var reason := if r.state == AwaitFile && r.progress.files > 0 then NothingMore(r.progress.files) else NothingArrived;
        FailIsOk(c, r', store, h, e, stopped, reason);
        AcceptedIsHeard(c, ReceiverFail(r', store, reason), r', h, e, stopped);
      } else {
        assert ReceiverOk(c, r', store, h, e, stopped);
        NakIsOk(c, r', store, h, e, stopped);
      }
    }
  }

  lemma AnswersStayOk(c: Setup, f: Frame, i: nat, stopped: bool)
    requires AnswerTo(c, f, i, stopped)
    ensures AnswerTo(c, f, i, true)
  {
  }

  /** A receiver asked to stop is still all right. */
  lemma AskedIsOk(c: Setup, r: ReceiverState, store: StoreState, h: seq<Record>, e: nat, stopped: bool)
    requires ReceiverOk(c, r, store, h, e, stopped)
    ensures ReceiverOk(c, r, store, h, e, true)
  {
    hide LinkAfter, AnswerTo, ContentOk, Setup.Sound, Faithful, EndedBy, Wholes, NoneDiscarded, Complete;
    if e > 0 {
      AnswersStayOk(c, r.link.last[0], e - 1, stopped);
    }
  }

  lemma ReceiverCancelIsOk(c: Setup, r: ReceiverState, store: StoreState, h: seq<Record>, e: nat, stopped: bool)
    requires ReceiverOk(c, r, store, h, e, stopped)
    ensures HeardOk(c, ReceiverCancel(r, store), r, h, e, true)
  {
    hide LinkAfter, AnswerTo, Setup.Sound, Faithful, EndedBy, Wholes, NoneDiscarded, Complete, Setup.Expected;
    hide Setup.OnLine, Setup.ModeOf;
    hide ReceiverStop, MidFile;
    AskedIsOk(c, r, store, h, e, stopped);
    if r.status == Running && !(r.state == AwaitData && !r.cancelling) {
      var out := [r.link.ErrorFrame(r.expected, CANCELLED_WORDING)];
      StopIsOk(c, r, store, h, e, true, Cancelled, out);
      StopKeepsOut(r, store, Cancelled, out);
    }
  }

  lemma ErrorStopIsOk(c: Setup, r: ReceiverState, store: StoreState, h: seq<Record>, e: nat, stopped: bool, p: Packet)
    requires ReceiverOk(c, r, store, h, e, stopped) && r.status == Running && p.kind == Error
    ensures HeardOk(c, ReceiverHandle(r, store, p), r, h, e, stopped)
  {
    hide CountsOk, WishOk, LinkAfter, AnswerTo, StateAfter, Data.Decode, ReceiverStop;
    var status := Failed(FarEnd(Data.Decode(p.data, r.link.ReadsWith().Quoting())));
    StopIsOk(c, r, store, h, e, stopped, status, []);
    StopKeepsOut(r, store, status, []);
  }

  /** The history only grows, and a receiver depends on no more than it has accepted. */
  lemma HistoryGrows(c: Setup, r: ReceiverState, store: StoreState, h: seq<Record>, h': seq<Record>, e: nat, stopped: bool)
    requires ReceiverOk(c, r, store, h, e, stopped) && h <= h'
    ensures ReceiverOk(c, r, store, h', e, stopped)
  {
    hide LinkAfter, AnswerTo, StateAfter, Setup.Sound, Faithful, EndedBy, Wholes, NoneDiscarded, Complete;
    assert h'[..e] == h[..e];
  }

  lemma StartIsOk(c: Setup, h: seq<Record>)
    ensures ReceiverOk(c, NewReceiver(c.receiver), StoreState([], None, 0, c.refusals), h, 0, false)
  {
    assert h[..0] == [];
  }
}

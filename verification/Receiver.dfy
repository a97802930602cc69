/**
 The receiving end as an object, each of whose methods computes what module
 `Protocol` says of it and writes the bytes of the frames named there.
 */
module Receivers {
  import opened Options
  import opened Bytes
  import opened Checks
  import opened Packets
  import opened Parameters
  import opened Protocol
  import opened Links
  import Streams
  import Data
  import Text
  import Attributes

  /** A receiver that has stopped. */
  function Stopped(r: ReceiverState, status: Status): ReceiverState {
    r.(open := false, state := Over, link := r.link.Disarm(), status := status)
  }

  /** What is left of a file still open when the receiver stops. */
  function Abandoned(open: bool, store: StoreState): StoreState { if open then store.Finish(false) else store }

  lemma FailIs(r: ReceiverState, store: StoreState, reason: Reason)
    ensures ReceiverFail(r, store, reason)
         == ReceiverStep(Stopped(r, Failed(reason)), Abandoned(r.open, store), [r.link.ErrorFrame(r.expected, Wording(reason))])
  {
    hide Wording, LinkState.ErrorFrame;
  }

  class Receiver {
    const link: Link
    const settings: Settings
    var state: Receiving
    var expected: byte
    const lines: Text.FromLineConverter
    var mode: Mode
    /** Whether the store has a file begun. */
    var open: bool
    var cancelling: bool
    var status: Status
    var progress: Progress

    ghost function Model(): ReceiverState
      reads this, link, lines
    {
      ReceiverState(link.Model(), settings, state, expected, lines.held, mode, open, cancelling, status, progress)
    }

    ghost predicate Valid()
      reads this, link, lines
    {
      link.Valid() && lines.local == settings.local
    }

    constructor (settings: Settings)
      requires |Block(settings.params)| + 3 <= MAX_LONG
      ensures Valid() && fresh(link) && fresh(lines) && Model() == NewReceiver(settings) && link.buffer == []
    {
      link := new Link(settings);
      this.settings := settings;
      lines := new Text.FromLineConverter(settings.local);
      state, expected, mode, open := AwaitSendInit, 0, settings.mode, false;
      cancelling, status, progress := false, Running, NO_PROGRESS;
      new;
      hide Block, LineBytes;
      link.Arm();
    }

    method Stop(store: Store, status: Status)
      requires Valid()
      modifies this, link`armed, store
      ensures Valid() && Model() == Stopped(old(Model()), status)
          && store.Model() == Abandoned(old(open), old(store.Model()))
    {
      hide Block, LineBytes;
      if open {
        open := false;
        var ignored := store.Finish(false);
      }
      state := Over;
      link.Disarm();
      this.status := status;
    }

    /** Ends with an error packet that says the reason. */
    method Fail(store: Store, reason: Reason) returns (out: seq<byte>)
      requires Valid()
      modifies this, link`armed, store
      ensures Valid()
      ensures var step := ReceiverFail(old(Model()), old(store.Model()), reason);
              Model() == step.r && store.Model() == step.store && out == LineBytes(step.out)
    {
      hide Block, LineBytes, Wording, LinkState.ErrorFrame, Stopped, Abandoned, ReceiverFail;
      FailIs(Model(), store.Model(), reason);
      out := link.ErrorPacket(expected, Wording(reason));
      Stop(store, Failed(reason));
    }

    method Acknowledge(seqno: byte, data: seq<byte>) returns (out: seq<byte>)
      requires Valid() && |data| + link.CheckUsed().Chars() <= MAX_LONG
      modifies this`expected, link
      ensures Valid() && link.buffer == old(link.buffer)
      ensures Model() == Answered(old(Model()), seqno, data) && out == LineBytes(Model().link.last)
    {
      hide Block, LineBytes, LinkState.Send;
      expected := Next(seqno);
      out := link.Send(seqno, Ack, data, link.CheckUsed());
    }

    method SendNak() returns (out: seq<byte>)
      requires Valid()
      ensures out == LineBytes([NakFrame(Model())])
    {
      hide Block, LineBytes, FrameBytes;
      out := link.Build(expected, Nak, [], link.CheckUsed());
      OneFrame(NakFrame(Model()));
    }

    method ChecksToTry() returns (checks: seq<Check>)
      requires Valid()
      ensures checks == ReceiverChecks(Model())
    {
      hide Block, LineBytes;
      var agreed := link.CheckUsed();
      if state == AwaitFile && expected == 1 && agreed != One {
        checks := [agreed, One];
      } else {
        checks := [agreed];
      }
    }

    method TakeSendInit(p: Packet, ghost store: Store) returns (out: seq<byte>)
      requires Valid()
      modifies this, link
      ensures Valid() && link.buffer == old(link.buffer)
      ensures var step := OnSendInit(old(Model()), store.Model(), p);
              Model() == step.r && step.store == store.Model() && out == LineBytes(step.out)
    {
      hide Block, LineBytes, LinkState.Send, LinkState.Agree, ReadBlock, Measured;
      var answer := BuildBlock(link.ours);
      var theirs := ReadFields(p.data);
      BlockIsMeasured(link.Model());
      link.Agree(theirs);
      state := AwaitFile;
      expected := Next(p.sequence);
      out := link.Send(p.sequence, Ack, answer, One);
    }

    method TakeFile(p: Packet, store: Store) returns (out: seq<byte>)
      requires Valid()
      modifies this, link, lines, store
      ensures Valid() && link.buffer == old(link.buffer)
      ensures var step := OnFile(old(Model()), old(store.Model()), p);
              Model() == step.r && store.Model() == step.store && out == LineBytes(step.out)
    {
      hide Block, LineBytes, ReceiverFail, Data.Decode, Answered, Measured;
      var sent := Data.DecodeData(p.data, link.ReadsWith().Quoting());
      var name := settings.nameFor(sent);
      if name.None? {
        out := Fail(store, BadName(sent));
        return;
      }
      var created := store.Create(name.value);
      if created.Faulted? {
        out := Fail(store, StoreFailed(created.why));
        return;
      }
      open := true;
      lines.held := false;
      mode := settings.mode;
      progress := progress.(file := name, bytes := 0, size := None);
      state := AwaitData;
      out := Acknowledge(p.sequence, []);
    }

    method TakeBreak(p: Packet, ghost store: Store) returns (out: seq<byte>)
      requires Valid()
      modifies this, link
      ensures Valid() && link.buffer == old(link.buffer)
      ensures var step := OnBreak(old(Model()), store.Model(), p);
              Model() == step.r && step.store == store.Model() && out == LineBytes(step.out)
    {
      hide Block, LineBytes, LinkState.Send, Measured;
      out := Acknowledge(p.sequence, []);
      state := Over;
      link.Disarm();
      status := if cancelling then Cancelled else Done;
    }

    method TakeAttributes(p: Packet, ghost store: Store) returns (out: seq<byte>)
      requires Valid()
      modifies this, link
      ensures Valid() && link.buffer == old(link.buffer)
      ensures var step := OnAttributes(old(Model()), store.Model(), p);
              Model() == step.r && step.store == store.Model() && out == LineBytes(step.out)
    {
      hide Block, LineBytes, Answered, Measured, Attributes.ReadAll;
      var said := Attributes.Read(p.data);
      match said.fileType {
        case Some(Text) => mode := TextMode;
        case Some(Binary) => mode := BinaryMode;
        case None =>
      }
      progress := progress.(size := said.size);
      out := Acknowledge(p.sequence, [89]);
    }

    method TakeData(p: Packet, store: Store) returns (out: seq<byte>)
      requires Valid()
      modifies this, link, lines, store
      ensures Valid() && link.buffer == old(link.buffer)
      ensures var step := OnData(old(Model()), old(store.Model()), p);
              Model() == step.r && store.Model() == step.store && out == LineBytes(step.out)
    {
      hide Block, LineBytes, ReceiverFail, Data.Decode, Answered, Measured, Text.FromLine, Text.Held;
      if !cancelling {
        var bytes := Data.DecodeData(p.data, link.ReadsWith().Quoting());
        var written := bytes;
        if mode == TextMode {
          written := lines.Convert(bytes);
        }
        var wrote := store.Write(written);
        if wrote.Faulted? {
          out := Fail(store, StoreFailed(wrote.why));
          return;
        }
        progress := progress.(bytes := progress.bytes + |written|);
      }
      out := Acknowledge(p.sequence, if cancelling then [90] else []);
    }

    /** The end of a file, once any carriage return still held is written. */
    method EndFile(p: Packet, store: Store, keep: bool) returns (out: seq<byte>)
      requires Valid()
      modifies this, link, store
      ensures Valid() && link.buffer == old(link.buffer)
      ensures var step := Ended(old(Model()), old(store.Model()), p, keep);
              Model() == step.r && store.Model() == step.store && out == LineBytes(step.out)
    {
      hide Block, LineBytes, ReceiverFail, Answered, Measured;
      open := false;
      var finished := store.Finish(keep);
      if finished.Faulted? {
        out := Fail(store, StoreFailed(finished.why));
        return;
      }
      if keep {
        progress := progress.(files := progress.files + 1);
      }
      state := AwaitFile;
      out := Acknowledge(p.sequence, []);
    }

    method TakeEndOfFile(p: Packet, store: Store) returns (out: seq<byte>)
      requires Valid()
      modifies this, link, lines, store
      ensures Valid() && link.buffer == old(link.buffer)
      ensures var step := OnEndOfFile(old(Model()), old(store.Model()), p);
              Model() == step.r && store.Model() == step.store && out == LineBytes(step.out)
    {
      hide Block, LineBytes, ReceiverFail, Ended, Measured;
      if p.data != [] && p.data[0] == 68 {
        cancelling := true;
      }
      var keep := !cancelling;
      if keep && mode == TextMode {
        var tail := lines.Finished();
        if tail != [] {
          var wrote := store.Write(tail);
          if wrote.Faulted? {
            out := Fail(store, StoreFailed(wrote.why));
            return;
          }
          progress := progress.(bytes := progress.bytes + |tail|);
        }
      }
      out := EndFile(p, store, keep);
    }

    method Handle(p: Packet, store: Store) returns (out: seq<byte>)
      requires Valid()
      modifies this, link, lines, store
      ensures Valid() && link.buffer == old(link.buffer)
      ensures var step := ReceiverHandle(old(Model()), old(store.Model()), p);
              Model() == step.r && store.Model() == step.store && out == LineBytes(step.out)
    {
      hide Block, LineBytes, ReceiverFail, Measured, Data.Decode;
      hide OnSendInit, OnFile, OnBreak, OnAttributes, OnData, OnEndOfFile;
      NoFrames();
      if p.kind == Error {
        var why := Data.DecodeData(p.data, link.ReadsWith().Quoting());
        Stop(store, Failed(FarEnd(why)));
        return [];
      }
      if state != AwaitSendInit && p.sequence == Previous(expected) {
        link.Arm();
        return link.last;
      }
      if p.sequence != expected {
        return [];
      }
      if state == AwaitSendInit && p.kind == SendInit {
        out := TakeSendInit(p, store);
      } else if state == AwaitFile && p.kind == File {
        out := TakeFile(p, store);
      } else if state == AwaitFile && p.kind == Break {
        out := TakeBreak(p, store);
      } else if state == AwaitData && p.kind == Kind.Attributes {
        out := TakeAttributes(p, store);
      } else if state == AwaitData && p.kind == Kind.Data {
        out := TakeData(p, store);
      } else if state == AwaitData && p.kind == EndOfFile {
        out := TakeEndOfFile(p, store);
      } else {
        out := Fail(store, if state == AwaitSendInit && p.kind == Nak then BothReceiving else Unexpected(p.kind));
      }
    }

    /** What a receiver that is done makes of more bytes. */
    method FeedDone(store: Store) returns (out: seq<byte>)
      requires Valid() && status == Done
      modifies link
      ensures Valid() && Model() == old(Model())
      ensures var fed := Streams.DoneFeed(Model(), store.Model(), old(link.buffer)); link.buffer == fed.buffer && out == LineBytes(fed.out)
    {
      hide Block, LineBytes, Measured, Protocol.Take;
      out := [];
      ghost var whole := Streams.DoneFeed(Model(), store.Model(), link.buffer);
      ghost var sent: seq<Frame> := [];
      NoFrames();
      while true
        invariant Valid() && Model() == old(Model()) && out == LineBytes(sent)
        invariant var rest := Streams.DoneFeed(Model(), store.Model(), link.buffer);
                  whole == rest.(out := sent + rest.out)
        decreases |link.buffer|
      {
        DoneOnce(Model(), store.Model(), link.buffer);
        var arrival := link.Take([link.CheckUsed()]);
        match arrival {
          case Nothing =>
            assert sent + [] == sent;
            return;
          case Damage =>
            assert [] + Streams.DoneFeed(Model(), store.Model(), link.buffer).out == Streams.DoneFeed(Model(), store.Model(), link.buffer).out;
          case Arrived(p) =>
            ghost var more: seq<Frame> := [];
            if p.kind == Break && p.sequence == Previous(expected) {
              out := out + link.last;
              more := link.kept;
            }
            LinesJoin(sent, more);
            assert sent + (more + Streams.DoneFeed(Model(), store.Model(), link.buffer).out)
                == (sent + more) + Streams.DoneFeed(Model(), store.Model(), link.buffer).out;
            sent := sent + more;
        }
      }
    }

    /** Hears bytes and answers what they hold. */
    method Feed(bytes: seq<byte>, store: Store) returns (out: seq<byte>)
      requires Valid()
      modifies this, link, lines, store
      ensures Valid()
      ensures old(status) == Done ==>
                var fed := Streams.DoneFeed(old(Model()), old(store.Model()), old(link.buffer) + bytes);
                Model() == old(Model()) && store.Model() == old(store.Model()) && link.buffer == fed.buffer
                    && out == LineBytes(fed.out)
      ensures old(status) != Done && old(status) != Running ==>
                Model() == old(Model()) && store.Model() == old(store.Model())
                    && link.buffer == old(link.buffer) && out == []
      ensures old(status) == Running ==>
                var fed := Streams.ReceiverFeed(old(Model()), old(store.Model()), old(link.buffer) + bytes);
                Model() == fed.r && store.Model() == fed.store && link.buffer == fed.buffer && out == LineBytes(fed.out)
    {
      hide Block, LineBytes, Measured, ReceiverHandle, ReceiverChecks, Protocol.Take, NakFrame, Streams.DoneFeed;
      out := [];
      if status == Done {
        link.buffer := link.buffer + bytes;
        out := FeedDone(store);
        return;
      }
      if status != Running {
        return;
      }
      link.buffer := link.buffer + bytes;
      ghost var whole := Streams.ReceiverFeed(Model(), store.Model(), link.buffer);
      ghost var sent: seq<Frame> := [];
      NoFrames();
      while status == Running
        invariant Valid() && out == LineBytes(sent)
        invariant var rest := Streams.ReceiverFeed(Model(), store.Model(), link.buffer);
                  whole == rest.(out := sent + rest.out)
        decreases |link.buffer|, if status == Running then 1 else 0
      {
        ghost var r, kept := Model(), store.Model();
        FeedOnce(r, kept, link.buffer);
        var checks := ChecksToTry();
        var arrival := link.Take(checks);
        ghost var step := ReceiverStep(r, kept, []);
        var more: seq<byte> := [];
        match arrival {
          case Nothing =>
            assert sent + [] == sent;
            return;
          case Damage =>
            more := SendNak();
            step := ReceiverStep(r, kept, [NakFrame(r)]);
          case Arrived(p) =>
            step := ReceiverHandle(r, kept, p);
            more := Handle(p, store);
        }
        LinesJoin(sent, step.out);
        out := out + more;
        assert sent + (step.out + Streams.ReceiverFeed(Model(), store.Model(), link.buffer).out)
            == (sent + step.out) + Streams.ReceiverFeed(Model(), store.Model(), link.buffer).out;
        sent := sent + step.out;
      }
      assert sent + [] == sent;
    }

    /** The wait may have run out. */
    method Tick(expired: bool, store: Store) returns (out: seq<byte>)
      requires Valid() && (expired ==> link.armed)
      modifies this, link, store
      ensures Valid()
      ensures var step := if expired then ReceiverTick(old(Model()), old(store.Model())) else ReceiverStep(old(Model()), old(store.Model()), []);
              Model() == step.r && store.Model() == step.store && out == LineBytes(step.out)
      ensures link.buffer == if old(status) == Running && expired then [] else old(link.buffer)
    {
      hide Block, LineBytes, Measured, ReceiverFail, NakFrame, Wording;
      NoFrames();
      if status != Running || !expired {
        return [];
      }
      link.buffer := [];
      var within := link.Retry();
      if !within {
        var why := if state == AwaitFile && progress.files > 0 then NothingMore(progress.files) else NothingArrived;
        out := Fail(store, why);
      } else {
        out := SendNak();
      }
    }

    /** Asks the transfer to end. */
    method Cancel(store: Store) returns (out: seq<byte>)
      requires Valid()
      modifies this, link, store
      ensures Valid() && link.buffer == old(link.buffer)
      ensures var step := ReceiverCancel(old(Model()), old(store.Model()));
              Model() == step.r && store.Model() == step.store && out == LineBytes(step.out)
    {
      hide Block, LineBytes, Measured, LinkState.ErrorFrame;
      NoFrames();
      if status != Running {
        return [];
      }
      if state == AwaitData && !cancelling {
        cancelling := true;
        return [];
      }
      out := link.ErrorPacket(expected, CANCELLED_WORDING);
      Stop(store, Cancelled);
    }
  }

  /** One turn of the feeding loop. */
  lemma FeedOnce(r: ReceiverState, store: StoreState, buffer: seq<byte>)
    requires r.status == Running
    ensures var t := Take(buffer, ReceiverChecks(r));
            Streams.ReceiverFeed(r, store, buffer)
            == match t.arrival
               case Nothing => Streams.ReceiverFed(r, store, t.rest, [])
               case Damage => var fed := Streams.ReceiverFeed(r, store, t.rest); fed.(out := [NakFrame(r)] + fed.out)
               case Arrived(p) =>
                 var step := ReceiverHandle(r, store, p); var fed := Streams.ReceiverFeed(step.r, step.store, t.rest);
                 fed.(out := step.out + fed.out)
  {
    hide ReceiverHandle, Take;
  }

  /** One turn of the loop of a receiver that is done. */
  lemma DoneOnce(r: ReceiverState, store: StoreState, buffer: seq<byte>)
    ensures var t := Take(buffer, [r.link.CheckUsed()]);
            Streams.DoneFeed(r, store, buffer)
            == match t.arrival
               case Nothing => Streams.ReceiverFed(r, store, t.rest, [])
               case Damage => Streams.DoneFeed(r, store, t.rest)
               case Arrived(p) =>
                 var fed := Streams.DoneFeed(r, store, t.rest);
                 fed.(out := (if p.kind == Break && p.sequence == Previous(r.expected) then r.link.last else []) + fed.out)
  {
    hide Take;
  }

  lemma BlockIsMeasured(link: LinkState)
    requires Measured(link)
    ensures |Block(link.ours)| + 3 <= MAX_LONG
  {
    hide Block;
  }
}

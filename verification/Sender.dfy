/**
 The sending end as an object, each of whose methods computes what module
 `Protocol` says of it and writes the bytes of the frames named there.
 */
module Senders {
  import opened Options
  import opened Bytes
  import opened Checks
  import opened Packets
  import opened Parameters
  import opened Protocol
  import opened Links
  import Streams
  import Data
  import Text
  import Attributes
  import SenderSide

  /** A sender that has stopped. */
  function Stopped(s: SenderState, status: Status): SenderState {
    s.(state := Finished, link := s.link.Disarm(), status := status)
  }

  lemma FailIs(s: SenderState, src: SourceState, reason: Reason)
    ensures SenderFail(s, src, reason) == SenderStep(Stopped(s, Failed(reason)), src, [s.link.ErrorFrame(s.seqno, Wording(reason))])
  {
    hide Wording, LinkState.ErrorFrame;
  }

  /** A sender that has read these bytes more. */
  function WithMore(s: SenderState, bytes: seq<byte>): SenderState {
    s.(progress := s.progress.(bytes := s.progress.bytes + |bytes|), pending := s.pending + Prepared(s, bytes),
       afterCr := AfterCrThen(s, bytes))
  }

  /** One turn of the reading loop. */
  lemma ReadOnce(s: SenderState, src: SourceState, room: nat)
    requires !s.eof && |s.pending| < room && src.pos <= |src.Content()|
    ensures var n := src.ReadSize(Max(room, 1)); var src' := src.(ops := src.ops + 1, pos := src.pos + n);
            Fill(s, src, room)
            == if src.ops in src.faults then Filled(s, src.(ops := src.ops + 1), Some(src.faults[src.ops]))
               else Fill(if n == 0 then s.(eof := true) else WithMore(s, src.Content()[src.pos..src.pos + n]), src', room)
  {
    hide Prepared, AfterCrThen;
  }

  /** A sender about to name a file. */
  function Offered(s: SenderState, name: seq<byte>, f: SourceFile): SenderState {
    s.(progress := Progress(Some(name), 0, s.progress.files, f.size),
       mode := if f.mode.Some? then f.mode.value else s.settings.mode, state := SendingFile)
  }

  class Sender {
    const link: Link
    const settings: Settings
    var state: Sending
    /** The number of the packet now out. */
    var seqno: byte
    /** What was read ahead, in the line's form. */
    var pending: seq<byte>
    const lines: Text.ToLineConverter
    var mode: Mode
    var eof: bool
    var discarding: bool
    var size: nat
    var ceiling: nat
    var inFlight: nat
    var cancelling: bool
    var status: Status
    var progress: Progress

    ghost function Model(): SenderState
      reads this, link, lines
    {
      SenderState(link.Model(), settings, state, seqno, pending, lines.afterCr, mode, eof, discarding,
                  size, ceiling, inFlight, cancelling, status, progress)
    }

    ghost predicate Valid()
      reads this, link, lines
    {
      link.Valid() && (progress.size.Some? ==> progress.size.value < Attributes.SIZES)
    }

    constructor (settings: Settings)
      requires |Block(settings.params)| + 3 <= MAX_LONG
      ensures Valid() && fresh(link) && fresh(lines) && Model() == NewSender(settings) && link.buffer == []
    {
      link := new Link(settings);
      this.settings := settings;
      state, seqno, pending := SendingInit, 0, [];
      lines := new Text.ToLineConverter();
      mode, eof, discarding := settings.mode, false, false;
      size, ceiling, inFlight := FIRST_SIZE, NO_CEILING, 0;
      cancelling, status, progress := false, Running, NO_PROGRESS;
    }

    /** Opens with this end's parameters. */
    method Start() returns (out: seq<byte>)
      requires Valid()
      modifies link
      ensures Valid() && Model() == SenderStart(old(Model())) && out == LineBytes(Model().link.last)
          && link.buffer == old(link.buffer)
    {
      hide Block, LineBytes, LinkState.Send;
      var init := BuildBlock(link.ours);
      out := link.Send(0, SendInit, init, One);
    }

    method Stop(status: Status)
      requires Valid()
      modifies this, link`armed
      ensures Valid() && Model() == Stopped(old(Model()), status)
    {
      hide Block, LineBytes;
      state := Finished;
      link.Disarm();
      this.status := status;
    }

    method Fail(reason: Reason, ghost src: SourceState) returns (out: seq<byte>)
      requires Valid()
      modifies this, link`armed
      ensures Valid()
      ensures var step := SenderFail(old(Model()), src, reason); Model() == step.s && src == step.src && out == LineBytes(step.out)
    {
      hide Block, LineBytes, Wording, LinkState.ErrorFrame, Stopped, SenderFail;
      FailIs(Model(), src, reason);
      out := link.ErrorPacket(seqno, Wording(reason));
      Stop(Failed(reason));
    }

    method Packet(kind: Kind, data: seq<byte>, ghost src: SourceState) returns (out: seq<byte>)
      requires Valid() && |data| + link.CheckUsed().Chars() <= MAX_LONG
      modifies link
      ensures Valid() && link.buffer == old(link.buffer)
      ensures var step := PacketStep(old(Model()), src, kind, data); Model() == step.s && src == step.src && out == LineBytes(step.out)
    {
      hide Block, LineBytes, LinkState.Send;
      out := link.Send(seqno, kind, data, link.CheckUsed());
    }

    /** Names the file just opened. */
    method Offer(name: seq<byte>, source: Source) returns (out: seq<byte>)
      requires Valid() && source.Valid() && 0 < source.at <= |source.files|
      modifies this, link
      ensures Valid() && link.buffer == old(link.buffer)
      ensures var s := old(Model()); var e := Data.Encode(name, s.link.SendsWith().Quoting(), s.link.Room());
              var step := PacketStep(Offered(s, name, source.files[source.at - 1]), source.Model(), File, e.out);
              Model() == step.s && step.src == source.Model() && out == LineBytes(step.out)
    {
      hide Block, LineBytes, PacketStep, Data.Encode, Data.Decode, Data.Admissible, LinkState.Room;
      hide LinkState.SendsWith, LinkState.CheckUsed, Measured;
      var encoded, used := Data.EncodeData(name, link.SendsWith().Quoting(), link.Room());
      RoomIsMeasured(link.Model());
      progress := Progress(Some(name), 0, progress.files, source.Size());
      mode := if source.FileMode().Some? then source.FileMode().value else settings.mode;
      state := SendingFile;
      out := Packet(File, encoded, source.Model());
    }

    method NextFile(source: Source) returns (out: seq<byte>)
      requires Valid() && source.Valid()
      modifies this, link, source
      ensures Valid() && source.Valid() && link.buffer == old(link.buffer)
      ensures var step := Protocol.NextFile(old(Model()), old(source.Model()));
              Model() == step.s && source.Model() == step.src && out == LineBytes(step.out)
    {
      hide Block, LineBytes, SenderFail, PacketStep, Data.Encode, Measured, LinkState.Room;
      hide LinkState.SendsWith, LinkState.CheckUsed;
      var next := source.NextFile();
      match next {
        case Faulted(why) =>
          out := Fail(SourceFailed(why), source.Model());
        case Went(None) =>
          state := SendingBreak;
          out := Packet(Break, [], source.Model());
        case Went(Some(name)) =>
          out := Offer(name, source);
      }
    }

    /** More of the file, converted. */
    method Absorb(bytes: seq<byte>)
      requires Valid()
      modifies this, lines
      ensures Valid() && link.buffer == old(link.buffer)
      ensures Model() == WithMore(old(Model()), bytes)
    {
      hide Block, LineBytes, Text.ToLine, Text.EndsInCr, Measured;
      progress := progress.(bytes := progress.bytes + |bytes|);
      if mode == BinaryMode {
        pending := pending + bytes;
      } else {
        var converted := lines.Convert(bytes);
        pending := pending + converted;
      }
    }

    /** Reads until there is a packet's worth, or the file ends, or a read fails. */
    method FillPending(source: Source, room: nat) returns (fault: Option<seq<byte>>)
      requires Valid() && source.Valid()
      modifies this, lines, source
      ensures Valid() && source.Valid() && link.buffer == old(link.buffer)
      ensures var f := Fill(old(Model()), old(source.Model()), room);
              Model() == f.s && source.Model() == f.src && fault == f.fault
    {
      hide Block, LineBytes, Fill, Measured, Prepared, AfterCrThen, WithMore, SenderSide.HavingRead;
      ghost var goal := Fill(Model(), source.Model(), room);
      while !eof && |pending| < room
        invariant Valid() && source.Valid() && link.buffer == old(link.buffer)
        invariant Fill(Model(), source.Model(), room) == goal
        decreases if eof then 0 else 1, |source.Model().Content()| - source.pos
      {
        ghost var s, src := Model(), source.Model();
        ReadOnce(s, src, room);
        var r := source.Read(Max(room, 1));
        match r {
          case Faulted(why) =>
            return Some(why);
          case Went(bytes) =>
            if bytes == [] {
              eof := true;
            } else {
              Absorb(bytes);
            }
        }
      }
      SenderSide.FillStops(Model(), source.Model(), room);
      return None;
    }

    /** How much the next packet may carry; the one after may carry more. */
    method TakeRoom() returns (room: nat)
      requires Valid()
      modifies this`size
      ensures Valid() && room == DataRoom(old(Model())) && Model() == old(Model()).(size := Grown(old(Model())))
      ensures room + link.CheckUsed().Chars() <= MAX_LONG
    {
      hide Block, LineBytes, LinkState.Room, LinkState.CheckUsed;
      RoomIsMeasured(link.Model());
      if link.long.Some? {
        room := Min(Min(link.Room(), size), ceiling);
        size := Min(Min(size * 2, link.Room()), ceiling);
      } else {
        room := link.Room();
      }
    }

    method SendData(source: Source) returns (out: seq<byte>)
      requires Valid() && source.Valid()
      modifies this, link, lines, source
      ensures Valid() && source.Valid() && link.buffer == old(link.buffer)
      ensures var step := Protocol.SendData(old(Model()), old(source.Model()));
              Model() == step.s && source.Model() == step.src && out == LineBytes(step.out)
    {
      hide Block, LineBytes, SenderFail, PacketStep, Data.Encode, Data.Decode, Data.Admissible, Fill;
      hide LinkState.ErrorFrame, Wording;
      hide Stopped, DataRoom, Grown, LinkState.CheckUsed, LinkState.SendsWith, Measured;
      var room := TakeRoom();
      var fault := FillPending(source, room);
      if fault.Some? {
        out := Fail(SourceFailed(fault.value), source.Model());
      } else if pending == [] {
        state := SendingEnd;
        out := Packet(EndOfFile, [], source.Model());
      } else {
        out := SendPending(room, source);
      }
    }

    /** As much of what is pending as there is room for. */
    method SendPending(room: nat, source: Source) returns (out: seq<byte>)
      requires Valid() && room + link.CheckUsed().Chars() <= MAX_LONG
      modifies this, link
      ensures Valid() && link.buffer == old(link.buffer)
      ensures var s := old(Model()); var e := Data.Encode(s.pending, s.link.SendsWith().Quoting(), room);
              var step := if e.used == 0 then SenderFail(s, source.Model(), TooShort)
                          else PacketStep(s.(pending := s.pending[e.used..], inFlight := |e.out|), source.Model(), Kind.Data, e.out);
              Model() == step.s && step.src == source.Model() && out == LineBytes(step.out)
    {
      hide Block, LineBytes, SenderFail, PacketStep, Data.Encode, Data.Decode, Data.Admissible;
      hide LinkState.SendsWith, LinkState.CheckUsed, Measured;
      var encoded, used := Data.EncodeData(pending, link.SendsWith().Quoting(), room);
      if used == 0 {
        out := Fail(TooShort, source.Model());
      } else {
        pending := pending[used..];
        inFlight := |encoded|;
        out := Packet(Kind.Data, encoded, source.Model());
      }
    }

    /** Ends the file marked discard. */
    method DiscardFile(ghost src: SourceState) returns (out: seq<byte>)
      requires Valid()
      modifies this, link
      ensures Valid() && link.buffer == old(link.buffer)
      ensures var step := Discard(old(Model()), src); Model() == step.s && src == step.src && out == LineBytes(step.out)
    {
      hide Block, LineBytes, PacketStep;
      state := SendingEnd;
      discarding := true;
      out := Packet(EndOfFile, [68], src);
    }

    /** The file's name has been acknowledged. */
    method FileAcknowledged(source: Source) returns (out: seq<byte>)
      requires Valid() && source.Valid()
      modifies this, link, lines, source
      ensures Valid() && source.Valid() && link.buffer == old(link.buffer)
      ensures var step := OnFileAck(old(Model()), old(source.Model()));
              Model() == step.s && source.Model() == step.src && out == LineBytes(step.out)
    {
      hide Block, LineBytes, PacketStep, Protocol.SendData, Attributes.Built, Attributes.ReadAll, Measured;
      pending := [];
      lines.afterCr := false;
      eof := false;
      discarding := false;
      if !link.attributes {
        state := SendingData;
        out := SendData(source);
      } else {
        out := Describe(source);
      }
    }

    /** Says what the file is. */
    method Describe(ghost source: Source) returns (out: seq<byte>)
      requires Valid()
      modifies this, link
      ensures Valid() && link.buffer == old(link.buffer)
      ensures var s := old(Model());
              var step := PacketStep(s.(state := SendingAttributes), source.Model(), Kind.Attributes, Attributes.Built(Said(s)));
              Model() == step.s && step.src == source.Model() && out == LineBytes(step.out)
    {
      hide Block, LineBytes, PacketStep, Attributes.Built, Attributes.ReadAll, Measured;
      state := SendingAttributes;
      var said := Attributes.Attributes(Some(if mode == TextMode then Attributes.Text else Attributes.Binary), progress.size);
      var data := Attributes.Build(said);
      Attributes.BuiltIsShort(said);
      out := Packet(Kind.Attributes, data, source.Model());
    }

    /** A data packet has been acknowledged: It may ask for an end to the file, or to everything. */
    method DataAcknowledged(data: seq<byte>, source: Source) returns (out: seq<byte>)
      requires Valid() && source.Valid()
      modifies this, link, lines, source
      ensures Valid() && source.Valid() && link.buffer == old(link.buffer)
      ensures var step := OnDataAck(old(Model()), old(source.Model()), data);
              Model() == step.s && source.Model() == step.src && out == LineBytes(step.out)
    {
      hide Block, LineBytes, PacketStep, Protocol.SendData, Measured;
      if data != [] && data[0] == 90 {
        cancelling := true;
      }
      if (data != [] && data[0] == 88) || cancelling {
        out := DiscardFile(source.Model());
      } else {
        out := SendData(source);
      }
    }

    /** The end of a file has been acknowledged. */
    method EndAcknowledged(source: Source) returns (out: seq<byte>)
      requires Valid() && source.Valid()
      modifies this, link, source
      ensures Valid() && source.Valid() && link.buffer == old(link.buffer)
      ensures var step := OnEndAck(old(Model()), old(source.Model()));
              Model() == step.s && source.Model() == step.src && out == LineBytes(step.out)
    {
      hide Block, LineBytes, PacketStep, Protocol.NextFile, Measured;
      if !discarding {
        progress := progress.(files := progress.files + 1);
      }
      if cancelling {
        state := SendingBreak;
        out := Packet(Break, [], source.Model());
      } else {
        out := NextFile(source);
      }
    }

    method Acknowledge(data: seq<byte>, source: Source) returns (out: seq<byte>)
      requires Valid() && source.Valid()
      modifies this, link, lines, source
      ensures Valid() && source.Valid() && link.buffer == old(link.buffer)
      ensures var step := Acknowledged(old(Model()), old(source.Model()), data);
              Model() == step.s && source.Model() == step.src && out == LineBytes(step.out)
    {
      hide Block, LineBytes, PacketStep, Protocol.NextFile, Protocol.SendData, OnFileAck, OnDataAck, OnEndAck, Measured;
      hide ReadBlock, LinkState.Agree;
      seqno := Next(seqno);
      match state {
        case SendingInit =>
          var theirs := ReadFields(data);
          link.Agree(theirs);
          out := NextFile(source);
        case SendingFile =>
          out := FileAcknowledged(source);
        case SendingAttributes =>
          if data != [] && data[0] == 78 {
            out := DiscardFile(source.Model());
          } else {
            state := SendingData;
            out := SendData(source);
          }
        case SendingData =>
          out := DataAcknowledged(data, source);
        case SendingEnd =>
          out := EndAcknowledged(source);
        case SendingBreak =>
          NoFrames();
          Stop(if cancelling then Cancelled else Done);
          out := [];
        case Finished =>
          NoFrames();
          out := [];
      }
    }

    /** Repeats the packet that is out, or gives up on it. */
    method SendAgain(ghost source: Source) returns (out: seq<byte>)
      requires Valid()
      modifies this, link
      ensures Valid() && link.buffer == old(link.buffer)
      ensures var step := Again(old(Model()), source.Model());
              Model() == step.s && step.src == source.Model() && out == LineBytes(step.out)
    {
      hide Block, LineBytes, SenderFail, LinkState.ErrorFrame, Wording, Measured;
      NoFrames();
      if state == SendingData && inFlight > LEAST_SIZE {
        ceiling := Min(ceiling, Max(inFlight / 2, LEAST_SIZE));
      }
      size := Min(Max(size / 2, LEAST_SIZE), ceiling);
      var within := link.Retry();
      if within {
        return link.last;
      }
      if state == SendingBreak {
        Stop(Done);
        return [];
      }
      out := Fail(NoAnswer, source.Model());
    }

    method Handle(p: Packet, source: Source) returns (out: seq<byte>)
      requires Valid() && source.Valid()
      modifies this, link, lines, source
      ensures Valid() && source.Valid() && link.buffer == old(link.buffer)
      ensures var step := SenderHandle(old(Model()), old(source.Model()), p);
              Model() == step.s && source.Model() == step.src && out == LineBytes(step.out)
    {
      hide Block, LineBytes, SenderFail, LinkState.ErrorFrame, Wording, Measured, Acknowledged, Again, Data.Decode;
      NoFrames();
      if p.kind == Error {
        var why := Data.DecodeData(p.data, link.ReadsWith().Quoting());
        Stop(Failed(FarEnd(why)));
        out := [];
      } else if p.kind == Ack && p.sequence == seqno {
        out := Acknowledge(p.data, source);
      } else if p.kind == SendInit && state == SendingInit {
        out := Fail(BothSending, source.Model());
      } else if p.kind == Nak && p.sequence == Next(seqno) && state != SendingInit {
        out := Acknowledge([], source);
      } else if p.kind == Nak && (p.sequence == seqno || p.sequence == Next(seqno)) {
        out := SendAgain(source);
      } else {
        out := [];
      }
    }

    /** Hears bytes and answers what they hold. */
    method Feed(bytes: seq<byte>, source: Source) returns (out: seq<byte>)
      requires Valid() && source.Valid()
      modifies this, link, lines, source
      ensures Valid() && source.Valid()
      ensures old(status) != Running ==>
                Model() == old(Model()) && source.Model() == old(source.Model())
                    && link.buffer == old(link.buffer) && out == []
      ensures old(status) == Running ==>
                var fed := Streams.SenderFeed(old(Model()), old(source.Model()), old(link.buffer) + bytes);
                Model() == fed.s && source.Model() == fed.src && link.buffer == fed.buffer && out == LineBytes(fed.out)
    {
      hide Block, LineBytes, Measured, SenderHandle, Protocol.Take;
      out := [];
      if status != Running {
        return;
      }
      link.buffer := link.buffer + bytes;
      ghost var whole := Streams.SenderFeed(Model(), source.Model(), link.buffer);
      ghost var sent: seq<Frame> := [];
      NoFrames();
      while status == Running
        invariant Valid() && source.Valid() && out == LineBytes(sent)
        invariant var rest := Streams.SenderFeed(Model(), source.Model(), link.buffer);
                  whole == rest.(out := sent + rest.out)
        decreases |link.buffer|, if status == Running then 1 else 0
      {
        ghost var s, src, buffer := Model(), source.Model(), link.buffer;
        FeedOnce(s, src, buffer);
        var arrival := link.Take([link.CheckUsed()]);
        match arrival {
          case Nothing =>
            assert sent + [] == sent;
            return;
          case Damage =>
          case Arrived(p) =>
            ghost var step := SenderHandle(s, src, p);
            var more := Handle(p, source);
            LinesJoin(sent, step.out);
            out := out + more;
            sent := sent + step.out;
            assert sent + Streams.SenderFeed(Model(), source.Model(), link.buffer).out
                == sent[..|sent| - |step.out|] + (step.out + Streams.SenderFeed(Model(), source.Model(), link.buffer).out);
        }
      }
      assert sent + [] == sent;
    }

    /** The wait may have run out. */
    method Tick(expired: bool, ghost source: Source) returns (out: seq<byte>)
      requires Valid() && (expired ==> link.armed)
      modifies this, link
      ensures Valid()
      ensures var step := if expired then SenderTick(old(Model()), source.Model()) else SenderStep(old(Model()), source.Model(), []);
              Model() == step.s && out == LineBytes(step.out)
      ensures link.buffer == if old(status) == Running && expired then [] else old(link.buffer)
    {
      hide Block, LineBytes, Measured, Again;
      NoFrames();
      if status != Running || !expired {
        return [];
      }
      link.buffer := [];
      out := SendAgain(source);
    }

    /** Asks the transfer to end. */
    method Cancel(ghost source: Source) returns (out: seq<byte>)
      requires Valid()
      modifies this, link
      ensures Valid() && link.buffer == old(link.buffer)
      ensures var step := SenderCancel(old(Model()), source.Model());
              Model() == step.s && out == LineBytes(step.out)
    {
      hide Block, LineBytes, Measured, LinkState.ErrorFrame;
      NoFrames();
      if status != Running {
        return [];
      }
      if (state == SendingData || state == SendingEnd) && !cancelling {
        cancelling := true;
        return [];
      }
      out := link.ErrorPacket(seqno, CANCELLED_WORDING);
      Stop(Cancelled);
    }
  }

  /** One turn of the feeding loop. */
  lemma FeedOnce(s: SenderState, src: SourceState, buffer: seq<byte>)
    requires s.status == Running
    ensures var t := Take(buffer, [s.link.CheckUsed()]);
            Streams.SenderFeed(s, src, buffer)
            == match t.arrival
               case Nothing => Streams.SenderFed(s, src, t.rest, [])
               case Damage => Streams.SenderFeed(s, src, t.rest)
               case Arrived(p) =>
                 var step := SenderHandle(s, src, p); var fed := Streams.SenderFeed(step.s, step.src, t.rest);
                 fed.(out := step.out + fed.out)
  {
    hide SenderHandle, Take;
  }
}

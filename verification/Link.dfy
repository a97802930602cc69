/**
 The state both directions share, and the files at either end, as objects whose
 methods change them in place. Each method is proved to compute the function of
 module `Protocol` that the theorems are about.
 */
module Links {
  import opened Options
  import opened Bytes
  import opened Checks
  import opened Packets
  import opened Parameters
  import opened Protocol
  import Data

  /** What the far end is told no longer than a packet counts, and what is offered fits one. */
  predicate Measured(link: LinkState) {
    && (link.long.Some? ==> link.long.value <= MAX_LONG)
    && |Block(link.ours)| + 3 <= MAX_LONG
  }

  lemma RoomIsMeasured(link: LinkState)
    requires Measured(link)
    ensures link.Room() + link.CheckUsed().Chars() <= MAX_LONG
  {
    hide Block;
  }

  lemma OneFrame(f: Frame)
    ensures LineBytes([f]) == FrameBytes(f)
  {
    hide FrameBytes;
    assert LineBytes([f]) == FrameBytes(f) + LineBytes([]);
  }

  lemma NoFrames()
    ensures LineBytes([]) == []
  {
  }

  lemma {:induction false} LinesJoin(a: seq<Frame>, b: seq<Frame>)
    ensures LineBytes(a + b) == LineBytes(a) + LineBytes(b)
    decreases |a|
  {
    hide FrameBytes;
    if a == [] {
      assert a + b == b;
    } else {
      assert (a + b)[1..] == a[1..] + b;
      LinesJoin(a[1..], b);
    }
  }

  class Link {
    const ours: Params
    var agreed: Option<Agreement>
    const before: Params := DEFAULT
    var attributes: bool
    var long: Option<nat>
    var buffer: seq<byte>
    var last: seq<byte>
    var retries: nat
    const limit: nat
    /** Whether there is a deadline. */
    var armed: bool
    /** The packet that `last` is the bytes of. */
    ghost var kept: seq<Frame>

    ghost predicate Valid()
      reads this
    {
      last == LineBytes(kept) && |kept| <= 1 && Measured(Model())
    }

    ghost function Model(): LinkState
      reads this
    {
      LinkState(ours, agreed, attributes, long, kept, retries, limit, armed)
    }

    constructor (settings: Settings)
      requires |Block(settings.params)| + 3 <= MAX_LONG
      ensures Valid() && Model() == NewLink(settings) && buffer == []
    {
      ours, limit := settings.params, settings.retries;
      agreed, attributes, long, buffer, last, retries, armed := None, false, None, [], [], 0, false;
      kept := [];
    }

    method Agree(theirs: Params)
      requires Valid()
      modifies this
      ensures Valid() && Model() == old(Model()).Agree(theirs) && buffer == old(buffer)
    {
      hide LineBytes, Block, OffersAttributes, Parameters.Agreed;
      attributes := OffersAttributes(ours.capabilities) && OffersAttributes(theirs.capabilities);
      long := if Long(ours).Some? then Long(theirs) else None;
      var reading := Parameters.Agreed(ours, theirs);
      var sending := reading.(control := ours.control);
      agreed := Some(Agreement(sending, reading));
    }

    function SendsWith(): (p: Params)
      reads this
      ensures p == Model().SendsWith()
    {
      if agreed.Some? then agreed.value.sending else before
    }

    function ReadsWith(): (p: Params)
      reads this
      ensures p == Model().ReadsWith()
    {
      if agreed.Some? then agreed.value.reading else before
    }

    function CheckUsed(): (check: Check)
      reads this
      ensures check == Model().CheckUsed()
    {
      if agreed.Some? then agreed.value.sending.check else One
    }

    function Room(): (room: nat)
      reads this
      ensures room == Model().Room()
    {
      if long.Some? then Max(long.value - (7 + CheckUsed().Chars()), 0)
      else Max(SendsWith().maxLength - (2 + CheckUsed().Chars()), 0)
    }

    method Arm()
      requires Valid()
      modifies this`armed
      ensures Valid() && Model() == old(Model()).Arm()
    {
      hide LineBytes, Block;
      var secs := if agreed.Some? then agreed.value.sending.timeout else ours.timeout;
      armed := secs > 0;
    }

    method Disarm()
      requires Valid()
      modifies this`armed
      ensures Valid() && Model() == old(Model()).Disarm()
    {
      armed := false;
    }

    /** What goes out for a packet: padding, the packet, and the far end's end of line. */
    method Build(seqno: byte, kind: Kind, data: seq<byte>, check: Check) returns (out: seq<byte>)
      requires Valid() && |data| + check.Chars() <= MAX_LONG
      ensures out == FrameBytes(Model().Built(seqno, kind, data, check))
    {
      hide LineBytes, Block, Wire;
      var p := SendsWith();
      out := Repeat(p.padWith, p.padding);
      var packet := Packets.Build(Packet(seqno, kind, data), check, MARK, Some(p.endOfLine));
      out := out + packet;
    }

    /** Makes a packet and keeps it, with all its tries before it. */
    method Send(seqno: byte, kind: Kind, data: seq<byte>, check: Check) returns (out: seq<byte>)
      requires Valid() && |data| + check.Chars() <= MAX_LONG
      modifies this
      ensures Valid() && Model() == old(Model()).Send(seqno, kind, data, check) && buffer == old(buffer)
      ensures out == LineBytes(Model().last)
    {
      hide LineBytes, Block, FrameBytes;
      last := Build(seqno, kind, data, check);
      kept := [Model().Built(seqno, kind, data, check)];
      OneFrame(kept[0]);
      retries := 0;
      Arm();
      out := last;
    }

    /** Uses up a try. Whether it had one left to use. */
    method Retry() returns (within: bool)
      requires Valid()
      modifies this
      ensures Valid() && Model() == old(Model()).Retry() && buffer == old(buffer) && last == old(last)
      ensures within == (Model().retries <= Model().limit)
    {
      hide LineBytes, Block;
      retries := retries + 1;
      Arm();
      within := retries <= limit;
    }

    /** An error with as much of `why` as fits. */
    method ErrorPacket(seqno: byte, why: seq<byte>) returns (out: seq<byte>)
      requires Valid()
      ensures out == LineBytes([Model().ErrorFrame(seqno, why)])
    {
      hide LineBytes, Block, FrameBytes, Data.Encode, Data.Decode, Data.Admissible;
      var data, used := Data.EncodeData(why, SendsWith().Quoting(), Room());
      RoomIsMeasured(Model());
      out := Build(seqno, Error, data, CheckUsed());
      OneFrame(Model().ErrorFrame(seqno, why));
    }

    /** Takes one packet off the buffer, or damage, trying the checks in order. */
    method Take(checks: seq<Check>) returns (arrival: Arrival)
      requires Valid()
      modifies this`buffer
      ensures Valid() && Taken(arrival, buffer) == Protocol.Take(old(buffer), checks)
    {
      hide LineBytes, Block, ReadFirst;
      var start := Find(buffer, MARK);
      if start == |buffer| {
        buffer := [];
        return Nothing;
      }
      buffer := buffer[start..];
      var damaged := false;
      for i := 0 to |checks|
        invariant buffer == old(buffer)[start..]
        invariant TryChecks(buffer, checks, false) == TryChecks(buffer, checks[i..], damaged)
      {
        var r := ReadFirst(buffer, checks[i], MARK);
        assert checks[i..][0] == checks[i] && checks[i..][1..] == checks[i + 1..];
        match r {
          case Read(packet, used) =>
            UsedInRange(buffer, checks[i], MARK);
            buffer := buffer[used..];
            return Arrived(packet);
          case Refused(Incomplete) =>
          case Refused(_) => damaged := true;
        }
      }
      if damaged || |buffer| > MOST_BUFFERED {
        buffer := buffer[1..];
        return Damage;
      }
      return Nothing;
    }
  }

  // ------------------------------------------------------------------
  // Files
  // ------------------------------------------------------------------

  /** How an operation on files went. */
  datatype Outcome<+T> = Went(value: T) | Faulted(why: seq<byte>)

  /** Files to send. */
  class Source {
    const files: seq<SourceFile>
    const chunks: seq<nat>
    const faults: map<nat, seq<byte>>
    var at: nat
    var pos: nat
    var ops: nat

    ghost function Model(): SourceState
      reads this
    {
      SourceState(files, at, pos, ops, chunks, faults)
    }

    ghost predicate Valid()
      reads this
    {
      pos <= |Model().Content()|
    }

    constructor (files: seq<SourceFile>, chunks: seq<nat>, faults: map<nat, seq<byte>>)
      ensures Valid() && Model() == SourceState(files, 0, 0, 0, chunks, faults)
    {
      this.files, this.chunks, this.faults, at, pos, ops := files, chunks, faults, 0, 0, 0;
    }

    /** The next file's name, or nothing when there are no more. */
    method NextFile() returns (r: Outcome<Option<seq<byte>>>)
      requires Valid()
      modifies this
      ensures Valid()
      ensures var src := old(Model());
              if src.ops in src.faults then r == Faulted(src.faults[src.ops]) && Model() == src.(ops := src.ops + 1)
              else if src.at >= |src.files| then r == Went(None) && Model() == src.(ops := src.ops + 1)
              else r == Went(Some(src.files[src.at].name)) && Model() == src.(ops := src.ops + 1, at := src.at + 1, pos := 0)
    {
      ops := ops + 1;
      if ops - 1 in faults {
        return Faulted(faults[ops - 1]);
      }
      if at >= |files| {
        return Went(None);
      }
      at, pos := at + 1, 0;
      return Went(Some(files[at - 1].name));
    }

    /** More of the file, at most `most` bytes; none at its end. */
    method Read(most: nat) returns (r: Outcome<seq<byte>>)
      requires Valid()
      modifies this
      ensures Valid()
      ensures var src := old(Model()); var n := src.ReadSize(most);
              if src.ops in src.faults then r == Faulted(src.faults[src.ops]) && Model() == src.(ops := src.ops + 1)
              else r == Went(src.Content()[src.pos..src.pos + n]) && Model() == src.(ops := src.ops + 1, pos := src.pos + n)
    {
      var content := if 0 < at <= |files| then files[at - 1].content else [];
      ops := ops + 1;
      if ops - 1 in faults {
        return Faulted(faults[ops - 1]);
      }
      var chunk := if ops - 1 < |chunks| then Max(chunks[ops - 1], 1) else most;
      var n := Min(Min(|content| - pos, most), chunk);
      pos := pos + n;
      return Went(content[pos - n..pos]);
    }

    function Size(): Option<u64>
      requires 0 < at <= |files|
      reads this
    {
      files[at - 1].size
    }

    function FileMode(): Option<Mode>
      requires 0 < at <= |files|
      reads this
    {
      files[at - 1].mode
    }
  }

  /** Received files. */
  class Store {
    const refusals: map<nat, seq<byte>>
    var files: seq<StoredFile>
    var open: Option<OpenFile>
    var ops: nat

    ghost function Model(): StoreState
      reads this
    {
      StoreState(files, open, ops, refusals)
    }

    constructor (refusals: map<nat, seq<byte>>)
      ensures Model() == StoreState([], None, 0, refusals)
    {
      this.refusals, files, open, ops := refusals, [], None, 0;
    }

    method Create(name: seq<byte>) returns (r: Outcome<()>)
      modifies this
      ensures Model() == old(Model()).Create(name) && Answers(r)
    {
      ops := ops + 1;
      if ops - 1 in refusals {
        return Faulted(refusals[ops - 1]);
      }
      open := Some(OpenFile(name, []));
      return Went(());
    }

    /** The answer to the operation just done. */
    ghost predicate Answers(r: Outcome<()>)
      reads this
    {
      ops > 0 && r == if ops - 1 in refusals then Faulted(refusals[ops - 1]) else Went(())
    }

    method Write(data: seq<byte>) returns (r: Outcome<()>)
      modifies this
      ensures Model() == old(Model()).Write(data) && Answers(r)
    {
      ops := ops + 1;
      if ops - 1 in refusals {
        return Faulted(refusals[ops - 1]);
      }
      if open.Some? {
        open := Some(OpenFile(open.value.name, open.value.content + data));
      }
      return Went(());
    }

    method Finish(complete: bool) returns (r: Outcome<()>)
      modifies this
      ensures Model() == old(Model()).Finish(complete) && Answers(r)
    {
      ops := ops + 1;
      var refused := ops - 1 in refusals;
      if open.Some? {
        files := files + [StoredFile(open.value.name, open.value.content, complete && !refused)];
        open := None;
      }
      if refused {
        return Faulted(refusals[ops - 1]);
      }
      return Went(());
    }
  }
}

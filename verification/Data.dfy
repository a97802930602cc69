/**
 Prefix encoding: a file's bytes as characters a terminal line will carry.
 Bytes repeated may be counted instead, those from 128 up lose their top bit
 behind a prefix of their own, and controls are quoted. Decoding undoes encoding, whatever the room, exactly for the prefixes
 that are distinct and outside the range the control prefix flips.
 */
module Data {
  import opened Options
  import opened Bytes
  import opened Parameters

  /** The longest run counted at once. */
  const MAX_RUN := 94
  /** Where a count stops costing more than the run itself. */
  const WORTH_REPEATING := 3

  /** What stands for a control, or DEL, behind the control prefix. */
  predicate InControlRange(c: byte) { 0x3f <= c <= 0x5f }

  predicate IsControl(c: byte) { c < 0x20 || c == 0x7f }

  // ------------------------------------------------------------------
  // Encoding
  // ------------------------------------------------------------------

  /** What is left to send of a byte once its top bit is announced, if it can be. */
  function Seven(b: byte, p: Prefixes): byte {
    if b >= 128 && p.eighth.Some? then b - 128 else b
  }

  predicate NeedsQuoting(seven: byte, p: Prefixes) {
    IsControl(seven) || seven == p.control || Some(seven) == p.eighth || Some(seven) == p.repeat
  }

  /** How many characters a byte needs by itself. */
  function Cost(b: byte, p: Prefixes): (n: nat)
    ensures n == |Put(b, p)| && 1 <= n <= 3
  {
    (if b >= 128 && p.eighth.Some? then 1 else 0) + (if NeedsQuoting(Seven(b, p), p) then 2 else 1)
  }

  /** One byte, without the repeat prefix. */
  function Put(b: byte, p: Prefixes): seq<byte> {
    var seven := Seven(b, p);
    (if b >= 128 && p.eighth.Some? then [p.eighth.value] else [])
    + if NeedsQuoting(seven, p) then [p.control, if IsControl(seven) then Ctl(seven) else seven] else [seven]
  }

  /** How many times, up to `most`, the first byte is repeated. */
  function Run(data: seq<byte>, most: nat): (n: nat)
    ensures n <= most && n <= |data|
    ensures forall i | 0 <= i < n :: data[i] == data[0]
    ensures data != [] && most > 0 ==> n > 0
  {
    if data == [] || most == 0 then 0
    else if |data| > 1 && data[1] == data[0] then 1 + Run(data[1..], most - 1)
    else 1
  }

  datatype Encoded = Encoded(out: seq<byte>, used: nat)

  /** As much of `data` as fits in `room` characters, and how much that was. */
  function Encode(data: seq<byte>, p: Prefixes, room: nat): (e: Encoded)
    ensures |e.out| <= room && e.used <= |data|
    ensures room >= 3 && data != [] ==> e.used > 0
    ensures e.used == 0 <==> e.out == []
    decreases |data|
  {
    if data == [] then Encoded([], 0)
    else
      var run := Run(data, MAX_RUN);
      if p.repeat.Some? && run >= WORTH_REPEATING && 2 + Cost(data[0], p) <= room then
        var piece := [p.repeat.value, ToChar(run)] + Put(data[0], p);
        var rest := Encode(data[run..], p, room - |piece|);
        Encoded(piece + rest.out, run + rest.used)
      else if Cost(data[0], p) > room then Encoded([], 0)
      else
        var rest := Encode(data[1..], p, room - Cost(data[0], p));
        Encoded(Put(data[0], p) + rest.out, 1 + rest.used)
  }

  /** Where the next thing encoded is a count. */
  predicate Counts(data: seq<byte>, p: Prefixes, room: nat)
    requires data != []
  {
    p.repeat.Some? && Run(data, MAX_RUN) >= WORTH_REPEATING && 2 + Cost(data[0], p) <= room
  }

  lemma EncodeCounted(data: seq<byte>, p: Prefixes, room: nat)
    requires data != [] && Counts(data, p, room)
    ensures var run := Run(data, MAX_RUN); var rest := Encode(data[run..], p, room - (2 + Cost(data[0], p)));
            Encode(data, p, room)
            == Encoded([p.repeat.value, ToChar(run)] + Put(data[0], p) + rest.out, run + rest.used)
  {
    hide Put, Run;
  }

  lemma EncodeSingle(data: seq<byte>, p: Prefixes, room: nat)
    requires data != [] && !Counts(data, p, room)
    ensures Cost(data[0], p) > room ==> Encode(data, p, room) == Encoded([], 0)
    ensures Cost(data[0], p) <= room ==>
              var rest := Encode(data[1..], p, room - Cost(data[0], p));
              Encode(data, p, room) == Encoded(Put(data[0], p) + rest.out, 1 + rest.used)
  {
    hide Put, Run;
  }

  /** Encoding stops only where the next byte has no room left for it. */
  lemma {:induction false} EncodeIsFull(data: seq<byte>, p: Prefixes, room: nat)
    ensures var e := Encode(data, p, room); e.used < |data| ==> |e.out| + |Put(data[e.used], p)| > room
    decreases |data|
  {
    hide Encode, Put, Run;
    if data == [] {
    } else if Counts(data, p, room) {
      EncodeCounted(data, p, room);
      EncodeIsFull(data[Run(data, MAX_RUN)..], p, room - (2 + Cost(data[0], p)));
    } else {
      EncodeSingle(data, p, room);
      if Cost(data[0], p) <= room {
        EncodeIsFull(data[1..], p, room - Cost(data[0], p));
      }
    }
  }

  /** With three characters of room for each byte, all of it goes. */
  lemma {:induction false} EnoughRoom(data: seq<byte>, p: Prefixes, room: nat)
    requires 3 * |data| <= room
    ensures Encode(data, p, room).used == |data|
    decreases |data|
  {
    hide Encode, Put, Run, Cost;
    if data == [] {
      EncodeNothing(p, room);
    } else if Counts(data, p, room) {
      EncodeCounted(data, p, room);
      var run := Run(data, MAX_RUN);
      EnoughRoom(data[run..], p, room - (2 + Cost(data[0], p)));
    } else {
      EncodeSingle(data, p, room);
      EnoughRoom(data[1..], p, room - Cost(data[0], p));
    }
  }

  /** The encoder's loop. `room - |out|` never goes below nought. */
  method EncodeData(data: seq<byte>, p: Prefixes, room: nat) returns (out: seq<byte>, at: nat)
    ensures Encoded(out, at) == Encode(data, p, room)
    ensures |out| <= room
    ensures Admissible(p) ==> Decode(out, p) == data[..at]
  {
    hide Encode, Put, Run, Cost, Decode, Admissible, Continues;
    out, at := [], 0;
    ContinuesFirst(data, p, room);
    while at < |data|
      invariant at <= |data| && |out| <= room
      invariant Continues(data, p, room, out, at)
    {
      var b := data[at];
      var left := room - |out|;
      var single := Cost(b, p);
      if p.repeat.Some? {
        var run := CountRun(data, at);
        if run >= WORTH_REPEATING && 2 + single <= left {
          EncodeCounted(data[at..], p, left);
          ContinuesWith(data, p, room, out, at, [p.repeat.value, ToChar(run)] + Put(b, p), run);
          ghost var was := out;
          out := out + [p.repeat.value];
          out := out + [ToChar(run)];
          out := out + Put(b, p);
          assert out == was + ([p.repeat.value, ToChar(run)] + Put(b, p));
          at := at + run;
          continue;
        }
      }
      EncodeSingle(data[at..], p, left);
      if single > left {
        break;
      }
      ContinuesWith(data, p, room, out, at, Put(b, p), 1);
      out := out + Put(b, p);
      at := at + 1;
    }
    assert Encode(data[at..], p, room - |out|) == Encoded([], 0) by { EncodeNothing(p, room - |out|); }
    ContinuesNoMore(data, p, room, out, at);
    if Admissible(p) {
      DecodeUndoesEncode(data, p, room);
    }
  }

  lemma EncodeNothing(p: Prefixes, room: nat)
    ensures Encode([], p, room) == Encoded([], 0)
  {
  }

  /** `out` and `at` are a part of the encoding, and the rest is still to come. */
  ghost predicate Continues(data: seq<byte>, p: Prefixes, room: nat, out: seq<byte>, at: nat)
    requires at <= |data| && |out| <= room
  {
    var rest := Encode(data[at..], p, room - |out|);
    Encode(data, p, room) == Encoded(out + rest.out, at + rest.used)
  }

  lemma ContinuesFirst(data: seq<byte>, p: Prefixes, room: nat)
    ensures Continues(data, p, room, [], 0)
  {
    hide Encode;
    assert data[0..] == data;
  }

  lemma ContinuesNoMore(data: seq<byte>, p: Prefixes, room: nat, out: seq<byte>, at: nat)
    requires at <= |data| && |out| <= room && Continues(data, p, room, out, at)
    requires Encode(data[at..], p, room - |out|) == Encoded([], 0)
    ensures Encode(data, p, room) == Encoded(out, at)
  {
    hide Encode;
  }

  lemma ContinuesWith(data: seq<byte>, p: Prefixes, room: nat, out: seq<byte>, at: nat, piece: seq<byte>, n: nat)
    requires at + n <= |data| && |out| + |piece| <= room && Continues(data, p, room, out, at)
    requires var rest := Encode(data[at..][n..], p, room - |out| - |piece|);
             Encode(data[at..], p, room - |out|) == Encoded(piece + rest.out, n + rest.used)
    ensures Continues(data, p, room, out + piece, at + n)
  {
    hide Encode;
    assert data[at..][n..] == data[at + n..];
    var rest := Encode(data[at + n..], p, room - |out| - |piece|);
    assert out + (piece + rest.out) == (out + piece) + rest.out;
  }

  method CountRun(data: seq<byte>, at: nat) returns (run: nat)
    requires at < |data|
    ensures run == Run(data[at..], MAX_RUN)
  {
    run := 1;
    while run < MAX_RUN && at + run < |data| && data[at + run] == data[at]
      invariant 1 <= run <= MAX_RUN && at + run <= |data|
      invariant forall i | at <= i < at + run :: data[i] == data[at]
      invariant Run(data[at..], MAX_RUN) == run - 1 + Run(data[at + run - 1..], MAX_RUN - (run - 1))
    {
      var here := data[at + run - 1..];
      assert here[1..] == data[at + run..];
      assert here[1] == data[at + run] && here[0] == data[at + run - 1];
      run := run + 1;
    }
    var last := data[at + run - 1..];
    assert |last| > 1 ==> last[1] == data[at + run] && last[0] == data[at];
    if |last| > 1 && last[1] == last[0] {
      assert last[1..] == data[at + run..];
      assert run == MAX_RUN;
    }
  }

  // ------------------------------------------------------------------
  // Decoding
  // ------------------------------------------------------------------

  datatype Taken = Taken(b: byte, used: nat)

  /** The byte at the front, with what it was quoted by, and the length of both. */
  function Take(data: seq<byte>, p: Prefixes): (t: Option<Taken>)
    ensures t.Some? ==> 0 < t.value.used <= |data|
  {
    if data == [] then None
    else
      var announced := p.eighth == Some(data[0]);
      var at := if announced then 1 else 0;
      if at == |data| then None
      else
        var quoted := data[at] == p.control;
        if quoted && at + 1 == |data| then None
        else
          var c := if !quoted then data[at] else if InControlRange(data[at + 1]) then Ctl(data[at + 1]) else data[at + 1];
          Some(Taken(if announced && c < 128 then c + 128 else c, at + if quoted then 2 else 1))
  }

  /** A packet's data read back into bytes; one that ends in a prefix loses it. */
  function Decode(data: seq<byte>, p: Prefixes): seq<byte>
    decreases |data|
  {
    if data == [] then []
    else
      var counted := p.repeat == Some(data[0]);
      if counted && |data| == 1 then []
      else
        var run := if counted then UnChar(data[1]) else 1;
        var at := if counted then 2 else 0;
        var t := Take(data[at..], p);
        if t.None? then [] else Repeat(t.value.b, run) + Decode(data[at + t.value.used..], p)
  }

  /** What one turn of the decoder's loop yields, and how much it takes; nothing where it stops. */
  function DecodeTurn(data: seq<byte>, p: Prefixes): (t: Option<(seq<byte>, nat)>)
    requires data != []
    ensures t.Some? ==> 0 < t.value.1 <= |data|
  {
    var counted := p.repeat == Some(data[0]);
    if counted && |data| == 1 then None
    else
      var run := if counted then UnChar(data[1]) else 1;
      var at := if counted then 2 else 0;
      var t := Take(data[at..], p);
      if t.None? then None else Some((Repeat(t.value.b, run), at + t.value.used))
  }

  lemma DecodeByTurns(data: seq<byte>, p: Prefixes)
    requires data != []
    ensures var t := DecodeTurn(data, p);
            Decode(data, p) == if t.None? then [] else t.value.0 + Decode(data[t.value.1..], p)
  {
    hide Take;
  }

  /** One turn in place. */
  lemma DecodeAt(data: seq<byte>, at: nat, p: Prefixes)
    requires at < |data|
    ensures var counted := p.repeat == Some(data[at]);
            if counted && at + 1 == |data| then Decode(data[at..], p) == []
            else
              var run := if counted then UnChar(data[at + 1]) else 1;
              var from := if counted then at + 2 else at;
              var t := Take(data[from..], p);
              if t.None? then Decode(data[at..], p) == []
              else Decode(data[at..], p) == Repeat(t.value.b, run) + Decode(data[from + t.value.used..], p)
  {
    hide Take, Decode, Repeat;
    var rest := data[at..];
    DecodeByTurns(rest, p);
    var counted := p.repeat == Some(data[at]);
    if !counted || at + 1 < |data| {
      var from := if counted then 2 else 0;
      assert rest[from..] == data[at + from..];
      var t := Take(data[at + from..], p);
      if t.Some? {
        assert rest[from + t.value.used..] == data[at + from + t.value.used..];
      }
    }
  }

  method DecodeData(data: seq<byte>, p: Prefixes) returns (out: seq<byte>)
    ensures out == Decode(data, p)
  {
    hide Take, Decode, Repeat;
    out := [];
    var at := 0;
    assert data[0..] == data;
    while at < |data|
      invariant at <= |data|
      invariant Decode(data, p) == out + Decode(data[at..], p)
    {
      DecodeAt(data, at, p);
      var run := 1;
      if Some(data[at]) == p.repeat {
        if at + 1 == |data| {
          return;
        }
        run := UnChar(data[at + 1]);
        at := at + 2;
      }
      var t := Take(data[at..], p);
      if t.None? {
        return;
      }
      at := at + t.value.used;
      out := out + Repeat(t.value.b, run);
    }
    DecodeNothing(p);
  }

  // ------------------------------------------------------------------
  // The round trip
  // ------------------------------------------------------------------

  /** Distinct, and not in the range the control prefix flips. */
  predicate Admissible(p: Prefixes) {
    && !InControlRange(p.control)
    && (p.eighth.Some? ==> !InControlRange(p.eighth.value) && p.eighth.value != p.control)
    && (p.repeat.Some? ==> !InControlRange(p.repeat.value) && p.repeat.value != p.control)
    && (p.eighth.Some? && p.repeat.Some? ==> p.eighth != p.repeat)
  }

  lemma TakeUndoesPut(b: byte, p: Prefixes, tail: seq<byte>)
    requires Admissible(p)
    ensures Take(Put(b, p) + tail, p) == Some(Taken(b, |Put(b, p)|))
    ensures Some(Put(b, p)[0]) != p.repeat
  {
  }

  lemma DecodeOne(b: byte, p: Prefixes, tail: seq<byte>)
    requires Admissible(p)
    ensures Decode(Put(b, p) + tail, p) == [b] + Decode(tail, p)
  {
    TakeUndoesPut(b, p, tail);
    var data := Put(b, p) + tail;
    assert data[0] == Put(b, p)[0];
    assert data[0..] == data;
    assert data[|Put(b, p)|..] == tail;
    assert Repeat(b, 1) == [b];
  }

  lemma DecodeCounted(b: byte, run: byte, p: Prefixes, tail: seq<byte>)
    requires Admissible(p) && p.repeat.Some?
    ensures Decode([p.repeat.value, ToChar(run)] + Put(b, p) + tail, p) == Repeat(b, run) + Decode(tail, p)
  {
    hide Decode, Take, Put, Admissible, ToChar, UnChar;
    TakeUndoesPut(b, p, tail);
    var data := [p.repeat.value, ToChar(run)] + Put(b, p) + tail;
    DecodeAt(data, 0, p);
    CountReturns(run);
    assert data[0..] == data && data[2..] == Put(b, p) + tail;
    assert data[2 + |Put(b, p)|..] == tail;
  }

  lemma CountReturns(run: byte)
    ensures UnChar(ToChar(run)) == run
  {
  }

  /** Whatever was encoded decodes to exactly the bytes that were used. */
  lemma {:induction false} DecodeUndoesEncode(data: seq<byte>, p: Prefixes, room: nat)
    requires Admissible(p)
    ensures Decode(Encode(data, p, room).out, p) == data[..Encode(data, p, room).used]
    decreases |data|
  {
    hide Put, Decode, Take, Admissible, Encode, Run, Cost;
    DecodeNothing(p);
    EncodeNothing(p, room);
    if data != [] {
      var b, run := data[0], Run(data, MAX_RUN);
      if Counts(data, p, room) {
        EncodeCounted(data, p, room);
        var rest := Encode(data[run..], p, room - (2 + Cost(b, p)));
        DecodeUndoesEncode(data[run..], p, room - (2 + Cost(b, p)));
        DecodeCounted(b, run, p, rest.out);
        assert data[..run + rest.used] == Repeat(b, run) + data[run..][..rest.used];
      } else {
        EncodeSingle(data, p, room);
        if Cost(b, p) <= room {
          var rest := Encode(data[1..], p, room - Cost(b, p));
          DecodeUndoesEncode(data[1..], p, room - Cost(b, p));
          DecodeOne(b, p, rest.out);
          assert data[..1 + rest.used] == [b] + data[1..][..rest.used];
        }
      }
    }
  }

  lemma DecodeNothing(p: Prefixes)
    ensures Decode([], p) == []
  {
  }

  /** The data and the room on which each kind of clash between prefixes shows. */
  function Telltale(p: Prefixes): seq<byte> {
    if p.eighth == Some(p.control) then [1]
    else if p.repeat == Some(p.control) then [1]
    else if p.eighth.Some? && p.eighth == p.repeat then [0x81]
    else if InControlRange(p.control) then [p.control]
    else if p.eighth.Some? && InControlRange(p.eighth.value) then [p.eighth.value]
    else if p.repeat.Some? then [p.repeat.value]
    else []
  }

  lemma ClashShows(p: Prefixes)
    requires !Admissible(p)
    ensures Decode(Encode(Telltale(p), p, 3).out, p) != Telltale(p)[..Encode(Telltale(p), p, 3).used]
  {
    hide Decode, Encode;
    var b := Telltale(p)[0];
    EncodeSingle([b], p, 3);
    EncodeNothing(p, 3 - Cost(b, p));
    assert [b][1..] == [] && [b][..1] == [b];
    assert Put(b, p) + [] == Put(b, p);
    PutClashes(p, b);
  }

  lemma PutClashes(p: Prefixes, b: byte)
    requires !Admissible(p) && Telltale(p) == [b]
    ensures Decode(Put(b, p), p) != [b]
  {
    hide Decode;
    if p.repeat == Some(p.control) {
      CountClashes(p, b);
    } else if p.eighth == Some(p.control) {
      ControlClashes(p, b);
    } else if p.eighth.Some? && p.eighth == p.repeat {
      EighthClashes(p, b);
    } else {
      RangeClashes(p, b);
    }
  }

  /** A control prefix read as a count. */
  lemma CountClashes(p: Prefixes, b: byte)
    requires p.repeat == Some(p.control) && b == 1
    ensures Decode(Put(b, p), p) != [b]
  {
    hide Decode, Take;
    var out := Put(b, p);
    assert out == [p.control, 65] && out[2..] == [];
    assert Take([], p) == None by { TakeNothing(p); }
    DecodeByTurns(out, p);
  }

  lemma TakeNothing(p: Prefixes)
    ensures Take([], p) == None
  {
  }

  /** What two characters that are one byte decode to. */
  lemma DecodePair(out: seq<byte>, p: Prefixes, c: byte)
    requires |out| == 2 && p.repeat != Some(out[0]) && (Take(out, p) == None || Take(out, p) == Some(Taken(c, 2)))
    ensures Decode(out, p) == [] || Decode(out, p) == [c]
  {
    hide Decode, Take;
    assert out[0..] == out && out[2..] == [];
    DecodeByTurns(out, p);
    DecodeNothing(p);
    assert Repeat(c, 1) == [c];
  }

  /** A control prefix read as an eighth-bit one. */
  lemma ControlClashes(p: Prefixes, b: byte)
    requires p.eighth == Some(p.control) && p.repeat != Some(p.control) && b == 1
    ensures Decode(Put(b, p), p) != [b]
  {
    hide Decode;
    assert Put(b, p) == [p.control, 65];
    DecodePair([p.control, 65], p, 193);
  }

  /** An eighth-bit prefix read as a count. */
  lemma EighthClashes(p: Prefixes, b: byte)
    requires p.eighth.Some? && p.eighth == p.repeat && p.eighth != Some(p.control) && b == 0x81
    ensures Decode(Put(b, p), p) != [b]
  {
    hide Decode;
    var out: seq<byte> := [p.eighth.value, p.control, 65];
    assert Put(b, p) == out;
    assert out[2..] == [65] && out[3..] == [];
    assert Take([65], p) == None || Take([65], p) == Some(Taken(65, 1));
    hide Take;
    DecodeByTurns(out, p);
    DecodeNothing(p);
    var n := UnChar(p.control);
    assert Decode(out, p) == [] || Decode(out, p) == Repeat(65, n) + [];
    assert Decode(out, p) == [] || (|Decode(out, p)| == n && (n > 0 ==> Decode(out, p)[0] == 65));
  }

  /** A prefix that is flipped where it is quoted. */
  lemma RangeClashes(p: Prefixes, b: byte)
    requires p.eighth != Some(p.control) && p.repeat != Some(p.control) && (p.eighth.Some? ==> p.eighth != p.repeat)
    requires InControlRange(b) && (b == p.control || Some(b) == p.eighth || Some(b) == p.repeat)
    ensures Decode(Put(b, p), p) != [b]
  {
    hide Decode;
    assert Put(b, p) == [p.control, b];
    assert Take([p.control, b], p) == Some(Taken(Ctl(b), 2));
    DecodePair([p.control, b], p, Ctl(b));
    assert Ctl(b) != b;
  }

  /** The round trip holds for all data and all rooms exactly when the prefixes are admissible. */
  lemma RoundTripExactly(p: Prefixes)
    ensures (forall data: seq<byte>, room: nat ::
               Decode(Encode(data, p, room).out, p) == data[..Encode(data, p, room).used])
            <==> Admissible(p)
  {
    hide *;
    if Admissible(p) {
      forall data: seq<byte>, room: nat
        ensures Decode(Encode(data, p, room).out, p) == data[..Encode(data, p, room).used]
      {
        DecodeUndoesEncode(data, p, room);
      }
    } else {
      ClashShows(p);
    }
  }

  // ------------------------------------------------------------------
  // Whole files, packet by packet
  // ------------------------------------------------------------------

  /** The packets a file goes in when packet `i` has room for `rooms[i]` characters. */
  function Packed(data: seq<byte>, p: Prefixes, rooms: seq<nat>): seq<seq<byte>> {
    if rooms == [] then []
    else
      var e := Encode(data, p, rooms[0]);
      [e.out] + Packed(data[e.used..], p, rooms[1..])
  }

  function Unpacked(packets: seq<seq<byte>>, p: Prefixes): seq<byte> {
    if packets == [] then [] else Decode(packets[0], p) + Unpacked(packets[1..], p)
  }

  /**
   Decoded packet by packet a file comes back from its beginning, with at
   least one byte for every packet while any are left: however the rooms vary,
   as many packets as there are bytes always carry it whole.
   */
  lemma {:induction false} PacketsRebuildFile(data: seq<byte>, p: Prefixes, rooms: seq<nat>)
    requires Admissible(p) && forall r | r in rooms :: r >= 3
    ensures Unpacked(Packed(data, p, rooms), p) <= data
    ensures |Unpacked(Packed(data, p, rooms), p)| >= Min(|rooms|, |data|)
    ensures |rooms| >= |data| ==> Unpacked(Packed(data, p, rooms), p) == data
    decreases |rooms|
  {
    hide Encode, Decode, Admissible;
    if rooms == [] {
      assert Packed(data, p, rooms) == [];
    } else {
      var e := Encode(data, p, rooms[0]);
      DecodeUndoesEncode(data, p, rooms[0]);
      assert forall r | r in rooms[1..] :: r in rooms;
      PacketsRebuildFile(data[e.used..], p, rooms[1..]);
      assert data == data[..e.used] + data[e.used..];
      var rest := Packed(data[e.used..], p, rooms[1..]);
      assert Packed(data, p, rooms)[1..] == rest;
      assert rooms[0] in rooms;
    }
  }

  // ------------------------------------------------------------------
  // What a terminal line will carry
  // ------------------------------------------------------------------

  predicate Printable(c: byte) { 0x20 <= c <= 0x7e }

  predicate PrintablePrefixes(p: Prefixes) {
    Printable(p.control) && p.eighth.Some? && Printable(p.eighth.value) && (p.repeat.Some? ==> Printable(p.repeat.value))
  }

  /** With an eighth-bit prefix and printable prefixes nothing unprintable goes out. */
  lemma {:induction false} EncodedIsPrintable(data: seq<byte>, p: Prefixes, room: nat)
    requires PrintablePrefixes(p)
    ensures forall c | c in Encode(data, p, room).out :: Printable(c)
    decreases |data|
  {
    hide Encode, Run, Put, Cost, PrintablePrefixes;
    EncodeNothing(p, room);
    if data != [] {
      var b, run := data[0], Run(data, MAX_RUN);
      PutIsPrintable(b, p);
      if Counts(data, p, room) {
        EncodeCounted(data, p, room);
        EncodedIsPrintable(data[run..], p, room - (2 + Cost(b, p)));
        assert Printable(p.repeat.value) by { PutIsPrintable(b, p); }
      } else {
        EncodeSingle(data, p, room);
        if Cost(b, p) <= room {
          EncodedIsPrintable(data[1..], p, room - Cost(b, p));
        }
      }
    }
  }

  lemma PutIsPrintable(b: byte, p: Prefixes)
    requires PrintablePrefixes(p)
    ensures forall c | c in Put(b, p) :: Printable(c)
    ensures p.repeat.Some? ==> Printable(p.repeat.value)
  {
  }

  /** None of the prefixes is a mark. */
  predicate Unmarked(p: Prefixes) { p.control != MARK && p.eighth != Some(MARK) && p.repeat != Some(MARK) }

  /** Then what is encoded holds no mark, whatever the bytes. */
  lemma {:induction false} EncodedIsUnmarked(data: seq<byte>, p: Prefixes, room: nat)
    requires Unmarked(p)
    ensures MARK !in Encode(data, p, room).out
    decreases |data|
  {
    hide Encode, Run, Put, Cost;
    EncodeNothing(p, room);
    if data != [] {
      var b, run := data[0], Run(data, MAX_RUN);
      PutIsUnmarked(b, p);
      if Counts(data, p, room) {
        EncodeCounted(data, p, room);
        EncodedIsUnmarked(data[run..], p, room - (2 + Cost(b, p)));
      } else {
        EncodeSingle(data, p, room);
        if Cost(b, p) <= room {
          EncodedIsUnmarked(data[1..], p, room - Cost(b, p));
        }
      }
    }
  }

  lemma PutIsUnmarked(b: byte, p: Prefixes)
    requires Unmarked(p)
    ensures MARK !in Put(b, p)
  {
  }

  // ------------------------------------------------------------------
  // Characters by number
  // ------------------------------------------------------------------

  /** How a byte is written, said of the numbers alone. */
  function Spelled(b: byte, p: Prefixes): seq<byte>
    decreases b
  {
    if b >= 128 && p.eighth.Some? then [p.eighth.value] + Spelled(b - 128, p)
    else if b < 32 then [p.control, b + 64]
    else if b == 127 then [p.control, 63]
    else if b == p.control || Some(b) == p.eighth || Some(b) == p.repeat then [p.control, b]
    else [b]
  }

  lemma PutIsSpelled(b: byte, p: Prefixes)
    ensures Put(b, p) == Spelled(b, p)
  {
    if b >= 128 && p.eighth.Some? {
      assert Spelled(b, p) == [p.eighth.value] + Spelled(b - 128, p);
    }
  }

  /** A byte by itself goes as it is spelled, and what is so spelled is that byte, whatever comes after it. */
  lemma ByteInNumbers(b: byte, p: Prefixes, room: nat, tail: seq<byte>)
    requires Admissible(p) && room >= 3
    ensures Encode([b], p, room) == Encoded(Spelled(b, p), 1)
    ensures Decode(Spelled(b, p) + tail, p) == [b] + Decode(tail, p)
  {
    hide Put, Spelled, Encode, Decode, Admissible;
    PutIsSpelled(b, p);
    DecodeOne(b, p, tail);
    EncodeSingle([b], p, room);
    EncodeNothing(p, room - Cost(b, p));
    assert [b][1..] == [] && Put(b, p) + [] == Put(b, p);
  }

  /** A control goes as the character 64 above it behind the control prefix, and a DEL as a question mark. */
  lemma ControlInNumbers(c: byte, p: Prefixes, room: nat, tail: seq<byte>)
    requires Admissible(p) && room >= 2 && (c < 32 || c == 127)
    ensures var sent := [p.control, if c == 127 then 63 else c + 64];
            Encode([c], p, room) == Encoded(sent, 1) && Decode(sent + tail, p) == [c] + Decode(tail, p)
  {
    hide Put, Encode, Decode, Admissible;
    PutIsSpelled(c, p);
    DecodeOne(c, p, tail);
    EncodeSingle([c], p, room);
    EncodeNothing(p, room - Cost(c, p));
    assert [c][1..] == [] && Put(c, p) + [] == Put(c, p);
  }

  /** A run of three to 94 goes as the repeat prefix, 32 more than its length, and the byte as it is spelled. */
  lemma RunInNumbers(b: byte, n: nat, p: Prefixes, room: nat, tail: seq<byte>)
    requires Admissible(p) && p.repeat.Some? && 3 <= n <= 94 && room >= 5
    ensures var sent := [p.repeat.value, n + 32] + Spelled(b, p);
            Encode(Repeat(b, n), p, room) == Encoded(sent, n) && Decode(sent + tail, p) == Repeat(b, n) + Decode(tail, p)
  {
    hide Put, Spelled, Encode, Decode, Admissible, Run, Cost;
    PutIsSpelled(b, p);
    RunOfRepeat(b, n);
    var data := Repeat(b, n);
    assert Counts(data, p, room);
    EncodeCounted(data, p, room);
    assert data[n..] == [];
    EncodeNothing(p, room - (2 + Cost(b, p)));
    assert [p.repeat.value, ToChar(n)] + Put(b, p) + [] == [p.repeat.value, n + 32] + Spelled(b, p);
    DecodeCounted(b, n, p, tail);
  }

  lemma {:induction false} RunOfRepeat(b: byte, n: nat)
    requires n > 0
    ensures forall most: nat | n <= most :: Run(Repeat(b, n), most) == n
  {
    if n > 1 {
      RunOfRepeat(b, n - 1);
      assert Repeat(b, n)[1..] == Repeat(b, n - 1);
    }
  }

  /** What is taken at the head is decoded, and then the rest. */
  lemma DecodeTaken(piece: seq<byte>, b: byte, p: Prefixes, tail: seq<byte>)
    requires piece != [] && Some(piece[0]) != p.repeat && Take(piece + tail, p) == Some(Taken(b, |piece|))
    ensures Decode(piece + tail, p) == [b] + Decode(tail, p)
  {
    hide Take;
    var all := piece + tail;
    assert all[0..] == all && all[|piece|..] == tail;
    assert Repeat(b, 1) == [b];
  }

  /** A quoted character is one of the two rows of controls by number, or itself though it need not have been quoted. */
  lemma QuotedInNumbers(q: byte, p: Prefixes, tail: seq<byte>)
    requires Admissible(p)
    ensures Decode([p.control, q] + tail, p)
         == [if q == 63 then 127 else if 64 <= q <= 95 then q - 64 else q] + Decode(tail, p)
  {
    hide Decode;
    DecodeTaken([p.control, q], if q == 63 then 127 else if 64 <= q <= 95 then q - 64 else q, p, tail);
  }

  /** An announced character is the one 128 above it, and so is a quoted control. */
  lemma AnnouncedInNumbers(q: byte, p: Prefixes, tail: seq<byte>)
    requires Admissible(p) && p.eighth.Some? && q < 128
    ensures q != p.control ==> Decode([p.eighth.value, q] + tail, p) == [q + 128] + Decode(tail, p)
    ensures 64 <= q <= 95 ==> Decode([p.eighth.value, p.control, q] + tail, p) == [q + 64] + Decode(tail, p)
  {
    hide Decode;
    if q != p.control {
      DecodeTaken([p.eighth.value, q], q + 128, p, tail);
    }
    if 64 <= q <= 95 {
      DecodeTaken([p.eighth.value, p.control, q], q + 64, p, tail);
    }
  }
}

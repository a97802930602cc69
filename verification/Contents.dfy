/**
 Nothing of a file is lost or made up on its way out: at every moment the data
 packets sent of it, decoded and joined, and what the sender holds back are
 exactly what it has read, in the line's form; and at the far end the open
 file is exactly what the packets taken of it carried, in that end's form.
 */
module Contents {
  import opened Options
  import opened Bytes
  import opened Checks
  import opened Packets
  import opened Parameters
  import opened Protocol
  import opened History
  import opened Network
  import opened Steps
  import Data
  import Text
  import SenderSide
  import ReceiverSide
  import Theorems

  /** What one packet carries of the `n`th file. */
  function Carried(c: Setup, a: Record, n: nat): seq<byte> {
    if a.Kind() == Kind.Data && a.begun == n then Data.Decode(a.Body(), c.Quoting()) else []
  }

  /** The data packets of the `n`th file, each decoded, joined in the order they were sent. */
  function Joined(c: Setup, h: seq<Record>, n: nat): seq<byte> {
    if h == [] then [] else Joined(c, h[..|h| - 1], n) + Carried(c, Last(h), n)
  }

  predicate OfFile(a: Record) { a.Kind() in {File, Kind.Attributes, Kind.Data, EndOfFile} }

  lemma BegunGrows(c: Setup, a: Record, b: Record)
    requires Follows(c, a, b)
    ensures a.begun <= b.begun && (b.Kind() == File ==> a.begun < b.begun <= |c.files| && b.sent == 0)
    ensures OfFile(b) && b.Kind() != File ==> a.begun == b.begun && 0 < b.begun <= |c.files| && OfFile(a) && a.Kind() != EndOfFile
    ensures b.Kind() == EndOfFile ==> a.sent == b.sent
    ensures b.Kind() == Kind.Attributes ==> a.Kind() == File && b.sent == 0
  {
  }

  /** No packet carries anything of a file not yet begun. */
  lemma {:induction false} NotYetCarried(c: Setup, h: seq<Record>, i: nat, n: nat)
    requires Chain(c, h) && i < |h| && h[i].begun < n
    ensures Joined(c, h[..i + 1], n) == []
  {
    hide Follows, Begins, Data.Decode, Setup.Quoting;
    assert h[..i + 1][..i] == h[..i];
    if i == 0 {
      assert Joined(c, h[..0], n) == [];
    } else {
      assert Follows(c, h[i - 1], h[i]);
      BegunGrows(c, h[i - 1], h[i]);
      NotYetCarried(c, h, i - 1, n);
    }
  }

  /** What the packets up to one of a file's have carried of it is as much of the file as that packet is recorded to end at. */
  lemma {:induction false} JoinedIsSent(c: Setup, h: seq<Record>, i: nat)
    requires c.Sound() && Chain(c, h) && i < |h| && OfFile(h[i])
    ensures 0 < h[i].begun <= |c.files| && h[i].sent <= |c.OnLine(h[i].begun - 1)|
    ensures Joined(c, h[..i + 1], h[i].begun) == c.OnLine(h[i].begun - 1)[..h[i].sent]
  {
    hide Follows, Begins, Data.Decode, Setup.Quoting, Setup.Sound, Setup.OnLine;
    if i == 0 {
      BeginsIsInit(c, h[0]);
    } else {
      var a, b := h[i - 1], h[i];
      assert h[..i + 1][..i] == h[..i];
      assert Follows(c, a, b);
      BegunGrows(c, a, b);
      if b.Kind() == File {
        NotYetCarried(c, h, i - 1, b.begun);
      } else {
        JoinedIsSent(c, h, i - 1);
        if b.Kind() == Kind.Data {
          CarriesNext(c, a, b);
        } else if b.Kind() == Kind.Attributes {
          FileSendsNothing(c, h, i - 1);
        }
      }
    }
  }

  lemma CarriesNext(c: Setup, a: Record, b: Record)
    requires c.Sound() && Follows(c, a, b) && b.Kind() == Kind.Data
    ensures a.begun == b.begun && 0 < b.begun <= |c.files| && a.sent < b.sent <= |c.OnLine(b.begun - 1)|
    ensures c.OnLine(b.begun - 1)[..a.sent] + Carried(c, b, b.begun) == c.OnLine(b.begun - 1)[..b.sent]
  {
    hide Setup.Sound, Setup.OnLine, Data.Decode, Setup.Quoting;
    var line := c.OnLine(b.begun - 1);
    assert line[..b.sent] == line[..a.sent] + line[a.sent..b.sent];
  }

  /**
   In every reachable state in which a file is going: what its packets sent so
   far decode to, joined, and what is pending are what was read of it, in the
   line's form.
   */
  lemma ReadIsSentOrPending(c: Setup, events: seq<Event>)
    requires c.Sound()
    requires var y := Exec(c, events); y.s.status == Running && SenderSide.HoldsFile(y.s.state)
    ensures var y := Exec(c, events);
            && 0 < y.src.at <= |c.files| && y.s.mode == c.ModeOf(y.src.at - 1)
            && y.src.pos <= |c.files[y.src.at - 1].content|
            && Joined(c, y.history, y.src.at) + y.s.pending
               == LineForm(y.s.mode, c.files[y.src.at - 1].content[..y.src.pos])
  {
    hide Exec, Good, SenderSide.SenderOk, ReceiverSide.ReceiverOk, LinesOk, EmittedOk, Chain, Setup.Sound, Joined;
    hide LineForm, Setup.OnLine, Setup.ModeOf;
    var y := Exec(c, events);
    AlwaysGood(c, events);
    GoodIs(c, y);
    HistoryIsNotEmpty(c, y.s, y.src, y.history);
    HeldFile(c, y.s, y.src, y.history);
    var h, n := y.history, |y.history| - 1;
    assert h[..n + 1] == h;
    JoinedIsSent(c, h, n);
    SenderSide.ReadInIsOnLine(c, y.src.at - 1, y.src.pos);
    var read := LineForm(y.s.mode, c.files[y.src.at - 1].content[..y.src.pos]);
    assert c.OnLine(y.src.at - 1)[..Last(h).sent] == read[..Last(h).sent];
    assert read == read[..Last(h).sent] + read[Last(h).sent..];
  }

  /** What the invariant says of a sender that holds a file. */
  lemma HeldFile(c: Setup, s: SenderState, src: SourceState, h: seq<Record>)
    requires SenderSide.SenderOk(c, s, src, h) && s.status == Running && SenderSide.HoldsFile(s.state)
    ensures h != [] && OfFile(Last(h)) && Last(h).begun == src.at && 0 < src.at <= |c.files|
    ensures s.mode == c.ModeOf(src.at - 1) && src.pos <= |c.files[src.at - 1].content|
    ensures var read := SenderSide.ReadIn(s.mode, c.files[src.at - 1].content, src.pos);
            Last(h).sent <= |read| && s.pending == read[Last(h).sent..]
  {
    hide Chain, SenderSide.LinkOk, NoneDiscarded, Wholes, SenderSide.ReadIn, Setup.ModeOf, SenderSide.SizesOk;
  }

  /**
   At the receiver: unless it was asked to stop, the open file is what the
   packets it has taken of it carried, in its own line endings, but for a
   carriage return it may be holding back.
   */
  lemma OpenIsCarried(c: Setup, events: seq<Event>)
    requires c.Sound() && Exec(c, events).store.open.Some? && !Exec(c, events).r.cancelling
    ensures var y := Exec(c, events); var n := |ReceiverSide.Complete(y.store.files)|;
            && n < |c.files| && y.accepted <= |y.history|
            && y.store.open.value.content
               == WrittenForm(c.ModeOf(n), c.receiver.local, Joined(c, y.history[..y.accepted], n + 1))
  {
    hide Exec, Good, SenderSide.SenderOk, ReceiverSide.ReceiverOk, LinesOk, EmittedOk, Chain, Setup.Sound, Joined;
    hide WrittenForm, Setup.OnLine, Setup.ModeOf;
    var y := Exec(c, events);
    AlwaysGood(c, events);
    GoodIs(c, y);
    HistoryIsNotEmpty(c, y.s, y.src, y.history);
    OpenHolds(c, y.r, y.store, y.history, y.accepted, y.receiverStopped);
    JoinedIsSent(c, y.history, y.accepted - 1);
  }

  lemma OpenHolds(c: Setup, r: ReceiverState, store: StoreState, h: seq<Record>, e: nat, stopped: bool)
    requires c.Sound() && ReceiverSide.ReceiverOk(c, r, store, h, e, stopped) && store.open.Some? && !r.cancelling
    ensures 0 < e <= |h| && OfFile(h[e - 1]) && h[e - 1].begun == |ReceiverSide.Complete(store.files)| + 1 <= |c.files|
    ensures var a := h[e - 1];
            && a.sent <= |c.OnLine(a.begun - 1)|
            && store.open.value.content == WrittenForm(c.ModeOf(a.begun - 1), c.receiver.local, c.OnLine(a.begun - 1)[..a.sent])
  {
    hide Setup.Sound, ReceiverSide.LinkAfter, ReceiverSide.AnswerTo, Setup.Expected, Setup.OnLine, Setup.ModeOf;
    hide NoneDiscarded, Wholes, ReceiverSide.Complete, ReceiverSide.Faithful, WrittenForm, MidFile;
  }
}

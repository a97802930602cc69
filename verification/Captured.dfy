/**
 What other programs really put on the wire, as the repository's own tests
 record it, and what is worked out there by hand: each is what the model builds
 or reads, character for character.
 */
module Captured {
  import opened Options
  import opened Bytes
  import opened Checks
  import opened Packets
  import opened Parameters
  import Attributes
  import opened Protocol

  // ------------------------------------------------------------------
  // Sums
  // ------------------------------------------------------------------

  lemma SumFive(before: seq<byte>, a: byte, b: byte, c: byte, d: byte, e: byte)
    ensures Sum(before + [a, b, c, d, e]) == Sum(before) + (a + b + c + d + e)
  {
    SumMore(before, a);
    SumMore(before + [a], b);
    SumMore(before + [a] + [b], c);
    SumMore(before + [a] + [b] + [c], d);
    SumMore(before + [a] + [b] + [c] + [d], e);
    assert before + [a, b, c, d, e] == before + [a] + [b] + [c] + [d] + [e];
  }

  lemma SumMore(before: seq<byte>, a: byte)
    ensures Sum(before + [a]) == Sum(before) + a
  {
    assert (before + [a])[..|before|] == before;
  }

  lemma OneCheckIs(covered: seq<byte>)
    ensures Of(One, covered) == [FoldedSum(Sum(covered)) + 32]
  {
  }

  // ------------------------------------------------------------------
  // The first packet of G-Kermit 2.01
  // ------------------------------------------------------------------

  /** What it says of itself. */
  const GKERMIT_SAYS: seq<byte> :=
    [0x7e, 0x27, 0x20, 0x40, 0x2d, 0x23, 0x59, 0x33, 0x7e, 0x2a, 0x21,
     0x4a, 0x2a, 0x30, 0x2b, 0x2b, 0x2b, 0x42, 0x22, 0x55, 0x31, 0x40]

  /** The whole of it as it was on the line, up to its end of line. */
  const GKERMIT_SENT: seq<byte> := [0x01, 0x39, 0x20, 0x53] + GKERMIT_SAYS + [0x47]

  /** The first fifteen characters the check covers, and the other ten. */
  const GKERMIT_HEAD: seq<byte> :=
    [0x39, 0x20, 0x53, 0x7e, 0x27, 0x20, 0x40, 0x2d, 0x23, 0x59, 0x33, 0x7e, 0x2a, 0x21, 0x4a]
  const GKERMIT_TAIL: seq<byte> := [0x2a, 0x30, 0x2b, 0x2b, 0x2b, 0x42, 0x22, 0x55, 0x31, 0x40]

  lemma HeadSums()
    ensures Sum(GKERMIT_HEAD) == 928
  {
    hide Sum;
    SumNothing();
    SumFive([], 0x39, 0x20, 0x53, 0x7e, 0x27);
    SumFive(GKERMIT_HEAD[..5], 0x20, 0x40, 0x2d, 0x23, 0x59);
    SumFive(GKERMIT_HEAD[..10], 0x33, 0x7e, 0x2a, 0x21, 0x4a);
    assert GKERMIT_HEAD[..5] == [] + [0x39, 0x20, 0x53, 0x7e, 0x27];
    assert GKERMIT_HEAD[..10] == GKERMIT_HEAD[..5] + [0x20, 0x40, 0x2d, 0x23, 0x59];
    assert GKERMIT_HEAD == GKERMIT_HEAD[..10] + [0x33, 0x7e, 0x2a, 0x21, 0x4a];
  }

  lemma GKermitSums()
    ensures Sum([0x39, 0x20, 0x53] + GKERMIT_SAYS) == 1445
  {
    hide Sum;
    HeadSums();
    SumFive(GKERMIT_HEAD, 0x2a, 0x30, 0x2b, 0x2b, 0x2b);
    SumFive(GKERMIT_HEAD + GKERMIT_TAIL[..5], 0x42, 0x22, 0x55, 0x31, 0x40);
    assert GKERMIT_TAIL[..5] == [0x2a, 0x30, 0x2b, 0x2b, 0x2b];
    assert [0x39, 0x20, 0x53] + GKERMIT_SAYS == GKERMIT_HEAD + GKERMIT_TAIL[..5] + [0x42, 0x22, 0x55, 0x31, 0x40];
  }

  lemma SumNothing()
    ensures Sum([]) == 0
  {
  }

  /** A send-init saying that, with the one-character check, is that packet. */
  lemma GKermitIsBuilt()
    ensures Wire(Packet(0, SendInit, GKERMIT_SAYS), One, 1) == GKERMIT_SENT
  {
    hide Sum, Of, Wire;
    var p := Packet(0, SendInit, GKERMIT_SAYS);
    ShortWire(p, One, 1);
    assert ShortBody(p, One) == [0x39, 0x20, 0x53] + GKERMIT_SAYS;
    GKermitSums();
    OneCheckIs(ShortBody(p, One));
    assert FoldedSum(1445) + 32 == 0x47;
  }

  /** And read from amid anything without a mark it is that, its end of line left behind. */
  lemma GKermitIsRead(noise: seq<byte>, tail: seq<byte>)
    requires 1 !in noise
    ensures ReadFirst(noise + GKERMIT_SENT + tail, One, 1) == Read(Packet(0, SendInit, GKERMIT_SAYS), |noise| + 27)
  {
    hide Wire, ReadFirst;
    GKermitIsBuilt();
    ReadBuilt(noise, Packet(0, SendInit, GKERMIT_SAYS), One, 1, tail);
  }

  /** What it means, and what this program settles on with it. */
  lemma GKermitMeans()
    ensures var p := ReadBlock(GKERMIT_SAYS);
            && p == Params(94, 7, 0, 0, 13, '#' as int, Some('Y' as int), Some('~' as int), Three, GKERMIT_SAYS[9..])
            && Long(p) == Some(4000) && OffersAttributes(p.capabilities)
    ensures var used := Agreed(OURS, ReadBlock(GKERMIT_SAYS));
            && used.maxLength == 94 && used.eighth == Some('&' as int) && used.repeat == Some('~' as int) && used.check == Three
  {
    hide Long;
    var p := ReadBlock(GKERMIT_SAYS);
    assert p.capabilities == [] + [0x2a] + ([0x21, 4000 / 95 + 32, 4000 % 95 + 32]
        + [0x30, 0x2b, 0x2b, 0x2b, 0x42, 0x22, 0x55, 0x31, 0x40]);
    LongIsSaid(p, [], 0x2a, 0x21, 4000, [0x30, 0x2b, 0x2b, 0x2b, 0x42, 0x22, 0x55, 0x31, 0x40]);
  }

  /** C-Kermit 9.0.300 on OpenVMS takes 3999; and of two capability bytes the second is the last. */
  lemma OthersTake()
    ensures Long(DEFAULT.(capabilities := Ascii("^>J)0___N\"D7"))) == Some(3999)
    ensures Long(DEFAULT.(capabilities := [3 + 32, 0 + 32, 1 + 32, 10 + 32, 50 + 32])) == Some(1000)
    ensures Long(DEFAULT.(capabilities := [2 + 32])) == Some(500) && Long(DEFAULT) == None
  {
    hide Long;
    var vms := DEFAULT.(capabilities := Ascii("^>J)0___N\"D7"));
    assert vms.capabilities == [] + [94] + ([62, 3999 / 95 + 32, 3999 % 95 + 32] + Ascii("0___N\"D7"));
    LongIsSaid(vms, [], 94, 62, 3999, Ascii("0___N\"D7"));
    var two := DEFAULT.(capabilities := [35, 32, 33, 42, 82]);
    assert two.capabilities == [35] + [32] + ([33, 1000 / 95 + 32, 1000 % 95 + 32] + []);
    LongIsSaid(two, [35], 32, 33, 1000, []);
    LongIsUnsaid(DEFAULT.(capabilities := [34]));
    LongIsUnsaid(DEFAULT);
  }

  // ------------------------------------------------------------------
  // Worked out by hand
  // ------------------------------------------------------------------

  /** An acknowledgement of the first packet. */
  lemma FirstAnswerIs()
    ensures Wire(Packet(0, Ack, []), One, 1) == [1] + Ascii("# Y>")
  {
    hide Of, Wire;
    var p := Packet(0, Ack, []);
    ShortWire(p, One, 1);
    assert ShortBody(p, One) == [35, 32, 89];
    OneCheckIs([35, 32, 89]);
    SumMore([], 35); SumMore([35], 32); SumMore([35, 32], 89);
    assert [35] == [] + [35] && [35, 32] == [35] + [32] && [35, 32, 89] == [35, 32] + [89];
    assert FoldedSum(156) + 32 == 62;
  }

  /** The head of a packet of a hundred characters, all alike. */
  lemma LongHeadIs(data: seq<byte>)
    requires |data| == 100
    ensures var check := Of(One, Ascii(" !D!&/") + data);
            Wire(Packet(1, Kind.Data, data), One, 1) == [1] + Ascii(" !D!&/") + data + check
  {
    hide Of, Wire, Sum;
    assert Sum([]) == 0 by { SumNothing(); }
    var p := Packet(1, Kind.Data, data);
    LongWire(p, One, 1);
    var head: seq<byte> := [32, 33, 68, 33, 38];
    assert LongHeader(p, One) == head;
    OneCheckIs(head);
    SumFive([], 32, 33, 68, 33, 38);
    assert [] + head == head;
    assert FoldedSum(204) + 32 == 47;
    hide LongHeader, FoldedSum;
    assert head + [47] == Ascii(" !D!&/");
    assert LongBody(p, One) == Ascii(" !D!&/") + data;
  }

  // ------------------------------------------------------------------
  // What is said of files
  // ------------------------------------------------------------------

  lemma DecimalOf4500()
    ensures Attributes.Decimal(4500) == Ascii("4500") && Attributes.Decimal(5) == Ascii("5")
  {
    assert Attributes.Decimal(450) == [52, 53, 48];
  }

  /** What G-Kermit says of a text file of 4500 bytes is understood, and what this program says of it. */
  lemma GKermitSaysOfText()
    ensures Attributes.ReadAll(Ascii("\"#AMJ*!A1$4500")) == Attributes.Attributes(Some(Attributes.Text), Some(4500))
    ensures Attributes.Built(Attributes.Attributes(Some(Attributes.Text), Some(4500))) == Ascii("\"#AMJ1$4500!!5")
  {
    hide Attributes.Item, Attributes.ReadFrom, Attributes.Built, Attributes.Decimal, Attributes.Number;
    DecimalOf4500();
    var kind, system, size := Ascii("AMJ"), Ascii("A"), Ascii("4500");
    Attributes.ItemInNumbers(34, kind);
    Attributes.ItemInNumbers(42, system);
    Attributes.ItemInNumbers(49, size);
    assert Ascii("\"#AMJ*!A1$4500")
        == Attributes.Item(34, kind) + (Attributes.Item(42, system) + Attributes.Item(49, size));
    Attributes.DecimalParses(4500);
    Attributes.ReadItem(34, kind, Attributes.Item(42, system) + Attributes.Item(49, size), Attributes.NOTHING);
    var text := Attributes.NOTHING.(fileType := Some(Attributes.Text));
    Attributes.ReadItem(42, system, Attributes.Item(49, size), text);
    Attributes.ReadOne(49, size, text);
    Attributes.BuiltInNumbers(4500);
  }

  // ------------------------------------------------------------------
  // What is said to the other end
  // ------------------------------------------------------------------

  /** What an end says that waited in vain, in the program's own words: of one file as one. */
  lemma WaitedInVain(n: nat)
    ensures Wording(NoAnswer) == Ascii("no answer from the other end")
    ensures Wording(NothingArrived) == Ascii("nothing arrived from the other end")
    ensures Wording(NothingMore(n))
         == if n == 1 then Ascii("nothing more arrived after 1 complete file")
            else Ascii("nothing more arrived after ") + Attributes.Decimal(n) + Ascii(" complete files")
  {
    hide Attributes.Decimal, Ascii;
  }

  /** And one that finds the other end doing the same as itself: which to change. */
  lemma BothWords()
    ensures Wording(BothReceiving) == Ascii("the other end is waiting to receive too: to send it a file, choose Send File")
    ensures Wording(BothSending) == Ascii("the other end is sending too: to take its files, choose Receive File")
  {
    hide Ascii;
  }
}

/**
 A transfer set up between two of these ends, and what its sender's packets
 say: the grammar every history of distinct packets follows, and the stretch of
 its file that each data packet carries.
 */
module History {
  import opened Options
  import opened Bytes
  import opened Checks
  import opened Packets
  import opened Parameters
  import opened Protocol
  import Data
  import Text
  import Attributes

  /**
   Both ends' settings, the files, how reads are cut up, which operations on
   the files fail, and whether the line keeps its messages in order.
   */
  datatype Setup = Setup(
    sender: Settings,
    receiver: Settings,
    files: seq<SourceFile>,
    chunks: seq<nat>,
    faults: map<nat, seq<byte>>,
    refusals: map<nat, seq<byte>>,
    ordered: bool)
  {
    /** The sender's link once it has heard the receiver's parameters. */
    function SenderLink(): LinkState { NewLink(sender).Agree(Known(receiver.params)) }

    function ReceiverLink(): LinkState { NewLink(receiver).Agree(Known(sender.params)) }

    function Quoting(): Prefixes { SenderLink().SendsWith().Quoting() }

    function CheckAgreed(): Check { SenderLink().CheckUsed() }

    function Room(): nat { SenderLink().Room() }

    function ModeOf(i: nat): Mode
      requires i < |files|
    {
      if files[i].mode.Some? then files[i].mode.value else sender.mode
    }

    /** File `i` as it crosses the line. */
    function OnLine(i: nat): seq<byte>
      requires i < |files|
    {
      LineForm(ModeOf(i), files[i].content)
    }

    function NameData(i: nat): seq<byte>
      requires i < |files|
    {
      Data.Encode(files[i].name, Quoting(), Room()).out
    }

    /**
     What the far end is to keep: the file under the name it gives to as much
     of the source's name as one packet holds, with its contents as they
     cross the line and back.
     */
    function Expected(i: nat): StoredFile
      requires i < |files|
    {
      var cut := Data.Encode(files[i].name, Quoting(), Room()).used;
      var name := receiver.nameFor(files[i].name[..cut]);
      StoredFile(if name.Some? then name.value else [],
                 LocalForm(ModeOf(i), receiver.local, OnLine(i)), true)
    }

    /** Each prefix field is the same at both ends, or one says `Y`, or one refuses. */
    predicate PrefixesMatch() {
      Matching(sender.params.eighth, receiver.params.eighth) && Matching(sender.params.repeat, receiver.params.repeat)
    }

    predicate ModesMatch() {
      SenderLink().attributes || forall i: nat | i < |files| :: ModeOf(i) == receiver.mode
    }

    /** What the two ends' settings must meet for files to arrive as they were sent. */
    predicate Sound() {
      PrefixesMatch() && Data.Admissible(Quoting()) && Room() >= 1 && ModesMatch()
    }

    /** Any byte fits in a packet, or none does. */
    predicate AllOrNothing() { Room() >= 3 || Room() == 0 }

    /** The sender's prefixes are not marks, so that nothing it encodes holds one. */
    predicate Unmarked() { Data.Unmarked(Quoting()) }
  }

  function LineForm(mode: Mode, data: seq<byte>): seq<byte> {
    if mode == TextMode then Text.ToLine(false, data) else data
  }

  function LocalForm(mode: Mode, local: Text.LineEnding, line: seq<byte>): seq<byte> {
    if mode == TextMode then Text.Kept(local, line) else line
  }

  /** What has been written of a file when this much of it has crossed the line. */
  function WrittenForm(mode: Mode, local: Text.LineEnding, line: seq<byte>): seq<byte> {
    if mode == TextMode then Text.FromLine(local, false, line) else line
  }

  lemma LineFormGrows(mode: Mode, data: seq<byte>, n: nat)
    requires n <= |data|
    ensures LineForm(mode, data[..n]) <= LineForm(mode, data)
  {
    if mode == TextMode {
      assert data == data[..n] + data[n..];
      Text.ToLineInPieces(false, data[..n], data[n..]);
    }
  }

  lemma WrittenFormGrows(mode: Mode, local: Text.LineEnding, line: seq<byte>, n: nat)
    requires n <= |line|
    ensures WrittenForm(mode, local, line[..n]) <= LocalForm(mode, local, line)
  {
    if mode == TextMode {
      Text.WrittenIsPrefix(local, line, n);
    }
  }

  /** The two ends' links agree on everything that matters between them. */
  lemma LinksMirror(c: Setup)
    ensures c.ReceiverLink().CheckUsed() == c.CheckAgreed()
    ensures c.PrefixesMatch() ==> c.ReceiverLink().ReadsWith().Quoting() == c.Quoting()
    ensures c.ReceiverLink().attributes == c.SenderLink().attributes
    ensures c.ReceiverLink().long.Some? == c.SenderLink().long.Some?
  {
    hide Block, ReadBlock, Long, OffersAttributes, Settle;
    NegotiationMirrors(c.sender.params, c.receiver.params);
    NegotiationMirrors(c.receiver.params, c.sender.params);
  }

  // ------------------------------------------------------------------
  // Histories
  // ------------------------------------------------------------------

  /**
   A packet the sender has sent, how many files it had begun by then, and how
   much of the last of them, as it crosses the line, has gone with this packet
   and those before it.
   */
  datatype Record = Record(frame: Frame, begun: nat, sent: nat) {
    function Kind(): Kind { frame.packet.kind }
    function Body(): seq<byte> { frame.packet.data }
  }

  const DISCARD: seq<byte> := [68]

  /** The end of a file that was not marked discard. */
  predicate EndsWhole(a: Record) { a.Kind() == EndOfFile && a.Body() == [] }

  predicate EndsDiscarded(a: Record) { a.Kind() == EndOfFile && a.Body() != [] }

  /** Where data, or the end of the file, may come next. */
  predicate MidFile(c: Setup, a: Record) {
    || a.Kind() == Kind.Data
    || a.Kind() == Kind.Attributes
    || (a.Kind() == File && !c.SenderLink().attributes)
  }

  /** A frame with the padding and the end of line that a link's far end asked for. */
  predicate MadeBy(link: LinkState, f: Frame) {
    f.padding == link.SendsWith().padding && f.padWith == link.SendsWith().padWith
        && f.endOfLine == link.SendsWith().endOfLine
  }

  predicate Begins(c: Setup, a: Record) {
    && a.Kind() == SendInit && a.Body() == Block(c.sender.params) && a.frame.check == One
    && MadeBy(NewLink(c.sender), a.frame)
    && a.begun == 0 && a.sent == 0
  }

  /** The packets S (F [A] D* Z)* B in order, and what each carries. */
  ghost predicate Follows(c: Setup, a: Record, b: Record) {
    && b.frame.check == c.CheckAgreed() && MadeBy(c.SenderLink(), b.frame)
    && (c.Unmarked() ==> MARK !in b.Body())
    && match b.Kind()
       case File =>
         && (a.Kind() == SendInit || EndsWhole(a))
         && b.begun == a.begun + 1 <= |c.files| && b.sent == 0 && b.Body() == c.NameData(a.begun)
       case Attributes =>
         && a.Kind() == File && c.SenderLink().attributes && b.begun == a.begun && b.sent == 0
         && 0 < b.begun <= |c.files| && |b.Body()| <= MOST_SAID
         && SaysOf(b.Body(), c.ModeOf(b.begun - 1), c.files[b.begun - 1].size)
       case Data =>
         && MidFile(c, a) && b.begun == a.begun && 0 < b.begun <= |c.files|
         && a.sent < b.sent <= |c.OnLine(b.begun - 1)| && 0 < |b.Body()| <= c.Room()
         && (c.Sound() ==> Data.Decode(b.Body(), c.Quoting()) == c.OnLine(b.begun - 1)[a.sent..b.sent])
       case EndOfFile =>
         && MidFile(c, a) && b.begun == a.begun && 0 < b.begun <= |c.files| && b.sent == a.sent
         && (b.Body() == [] || b.Body() == DISCARD)
         && (c.Sound() && b.Body() == [] ==> b.sent == |c.OnLine(b.begun - 1)|)
       case Break =>
         && (a.Kind() == SendInit || a.Kind() == EndOfFile)
         && b.begun == a.begun && b.Body() == []
       case _ => false
  }

  /** No attribute packet is longer: a type and two sizes. */
  const MOST_SAID := 49

  /** What is said of a file's type and size, as it is read. */
  predicate SaysOf(data: seq<byte>, mode: Mode, size: Option<nat>) {
    Attributes.ReadAll(data) == Attributes.Attributes(Some(if mode == TextMode then Attributes.Text else Attributes.Binary), size)
  }

  ghost predicate Numbered(h: seq<Record>) {
    forall i | 0 <= i < |h| :: h[i].frame.packet.sequence == i % 64
  }

  ghost predicate Chain(c: Setup, h: seq<Record>) {
    && h != [] && Begins(c, h[0]) && Numbered(h)
    && forall i | 0 < i < |h| :: Follows(c, h[i - 1], h[i])
  }

  function Last(h: seq<Record>): Record
    requires h != []
  {
    h[|h| - 1]
  }

  lemma ChainExtends(c: Setup, h: seq<Record>, b: Record)
    requires Chain(c, h) && Follows(c, Last(h), b) && b.frame.packet.sequence == |h| % 64
    ensures Chain(c, h + [b])
  {
    hide Follows;
    var g := h + [b];
    forall i | 0 < i < |g| ensures Follows(c, g[i - 1], g[i]) {
      if i < |h| {
        assert g[i - 1] == h[i - 1] && g[i] == h[i];
      }
    }
  }

  // ------------------------------------------------------------------
  // Counting
  // ------------------------------------------------------------------

  /** How many files were ended whole. */
  function Wholes(h: seq<Record>): nat {
    if h == [] then 0 else Wholes(h[..|h| - 1]) + if EndsWhole(Last(h)) then 1 else 0
  }

  ghost predicate NoneDiscarded(h: seq<Record>) {
    forall i | 0 <= i < |h| :: !EndsDiscarded(h[i])
  }

  /** How many files had been ended when this packet was sent. */
  function EndedBy(a: Record): nat {
    if a.Kind() == File || a.Kind() == Kind.Attributes || a.Kind() == Kind.Data then Max(a.begun - 1, 0) else a.begun
  }

  lemma {:induction false} WholesCount(c: Setup, h: seq<Record>, n: nat)
    requires Chain(c, h) && 0 < n <= |h| && NoneDiscarded(h[..n])
    ensures Wholes(h[..n]) == EndedBy(h[n - 1])
  {
    hide Begins;
    assert h[..n][..n - 1] == h[..n - 1];
    if n == 1 {
      assert h[..1][..0] == [];
      assert Begins(c, h[0]);
      BeginsIsInit(c, h[0]);
    } else {
      assert NoneDiscarded(h[..n - 1]) by {
        var g := h[..n - 1];
        forall i | 0 <= i < |g| ensures !EndsDiscarded(g[i]) { assert h[..n][i] == g[i]; }
      }
      WholesCount(c, h, n - 1);
      assert !EndsDiscarded(h[..n][n - 1]) && !EndsDiscarded(h[..n][n - 2]);
      EndedStep(c, h[n - 2], h[n - 1]);
    }
  }

  lemma BeginsIsInit(c: Setup, a: Record)
    requires Begins(c, a)
    ensures a.Kind() == SendInit && a.begun == 0 && !EndsWhole(a)
  {
  }

  lemma EndedStep(c: Setup, a: Record, b: Record)
    requires Follows(c, a, b) && !EndsDiscarded(a) && !EndsDiscarded(b)
    ensures EndedBy(b) == EndedBy(a) + if EndsWhole(b) then 1 else 0
  {
  }

  /** After a discarded end there is nothing but the end of the batch, and after that nothing. */
  lemma {:induction false} NoDiscardBefore(c: Setup, h: seq<Record>, i: nat)
    requires Chain(c, h) && i < |h| && h[i].Kind() != Break
    ensures NoneDiscarded(h[..i])
  {
    hide Begins, Follows;
    if i > 0 {
      assert Follows(c, h[i - 1], h[i]);
      NothingAfter(c, h[i - 1], h[i]);
      NoDiscardBefore(c, h, i - 1);
      forall j | 0 <= j < i ensures !EndsDiscarded(h[..i][j]) {
        assert j < i - 1 ==> !EndsDiscarded(h[..i - 1][j]);
      }
    }
  }

  lemma NothingAfter(c: Setup, a: Record, b: Record)
    requires Follows(c, a, b)
    ensures a.Kind() != Break && (EndsDiscarded(a) ==> b.Kind() == Break)
  {
  }

  lemma FileSendsNothing(c: Setup, h: seq<Record>, i: nat)
    requires Chain(c, h) && i < |h| && h[i].Kind() == File
    ensures h[i].sent == 0
  {
    if i > 0 {
      assert Follows(c, h[i - 1], h[i]);
    }
  }

  /** How many packets a file takes at most. */
  function Budget(c: Setup, files: nat): nat
    requires files <= |c.files|
  {
    if files == 0 then 0 else Budget(c, files - 1) + 3 + |c.OnLine(files - 1)|
  }

  /** Where in a history a packet may be at the latest. */
  function LatestIndex(c: Setup, a: Record): nat
    requires a.begun <= |c.files|
  {
    match a.Kind()
    case SendInit => 0
    case File => 1 + Budget(c, Max(a.begun - 1, 0))
    case Attributes => 2 + Budget(c, Max(a.begun - 1, 0))
    case Data => 2 + Budget(c, Max(a.begun - 1, 0)) + a.sent
    case EndOfFile => 3 + Budget(c, Max(a.begun - 1, 0)) + a.sent
    case _ => 1 + Budget(c, a.begun)
  }

  ghost predicate SentInRange(c: Setup, a: Record) {
    && a.begun <= |c.files|
    && (a.Kind() == Kind.Data || a.Kind() == EndOfFile ==> 0 < a.begun && a.sent <= |c.OnLine(a.begun - 1)|)
    && (a.Kind() == File || a.Kind() == Kind.Attributes ==> 0 < a.begun && a.sent == 0)
    && (a.Kind() == SendInit ==> a.begun == 0)
  }

  /** Every packet comes early enough that the whole history is short. */
  lemma {:induction false} HistoryIsShort(c: Setup, h: seq<Record>, i: nat)
    requires Chain(c, h) && i < |h|
    ensures SentInRange(c, h[i]) && i <= LatestIndex(c, h[i]) <= 1 + Budget(c, |c.files|)
  {
    hide Budget, Follows;
    if i == 0 {
      BeginsIsInit(c, h[0]);
    } else {
      HistoryIsShort(c, h, i - 1);
      assert Follows(c, h[i - 1], h[i]);
      LatestStep(c, h[i - 1], h[i]);
    }
    LatestIsLate(c, h[i]);
  }

  lemma LatestStep(c: Setup, a: Record, b: Record)
    requires Follows(c, a, b) && SentInRange(c, a)
    ensures SentInRange(c, b) && LatestIndex(c, a) + 1 <= LatestIndex(c, b)
  {
    hide Setup.OnLine, Setup.SenderLink, Setup.CheckAgreed, Setup.Sound, Setup.Quoting, Setup.Room;
    hide Setup.NameData, SaysOf;
    if a.begun > 0 {
      assert Budget(c, a.begun) == Budget(c, a.begun - 1) + 3 + |c.OnLine(a.begun - 1)|;
    }
  }

  lemma LatestIsLate(c: Setup, a: Record)
    requires SentInRange(c, a)
    ensures LatestIndex(c, a) <= 1 + Budget(c, |c.files|)
  {
    hide Setup.OnLine;
    if a.begun > 0 {
      assert Budget(c, a.begun) == Budget(c, a.begun - 1) + 3 + |c.OnLine(a.begun - 1)|;
    }
    BudgetGrows(c, a.begun, |c.files|);
  }

  lemma {:induction false} BudgetGrows(c: Setup, m: nat, n: nat)
    requires m <= n <= |c.files|
    ensures Budget(c, m) <= Budget(c, n)
    decreases n - m
  {
    if m < n {
      BudgetGrows(c, m, n - 1);
    }
  }
}

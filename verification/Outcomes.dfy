/**
 What it means that a sender is done, exactly. The files it counts are the
 files kept and those a receiver asked to stop threw away although they had
 come to their end; and every file was kept exactly when the sender ended none
 marked discard, had begun them all, and none was thrown away.
 */
module Outcomes {
  import opened Options
  import opened Bytes
  import opened Checks
  import opened Packets
  import opened Parameters
  import opened Protocol
  import opened History
  import opened Network
  import opened Steps
  import Data
  import SenderSide
  import ReceiverSide
  import Tallies
  import Theorems

  // ------------------------------------------------------------------
  // What a run counts
  // ------------------------------------------------------------------

  /** What takes the receiver further is exactly the packet it waits for, as it was sent. */
  lemma MovedByNext(c: Setup, y: System, m: Message, misread: Arrival)
    requires Good(c, y) && m in y.forth && Young(y, Forth, m)
    requires ReceiverTold(y.r, y.store, HeardAs(m, ChecksNow(y.r), misread)).r.expected != y.r.expected
    ensures y.accepted < |y.history| && y.r.status == Running
    ensures HeardAs(m, ChecksNow(y.r), misread) == Arrived(y.history[y.accepted].frame.packet)
  {
    hide Good, SenderSide.SenderOk, ReceiverSide.ReceiverOk, Chain, ReceiverTold, HeardAs, LinesOk, EmittedOk, ChecksNow;
    GoodIs(c, y);
    HistoryIsNotEmpty(c, y.s, y.src, y.history);
    Theorems.ForthArrives(c, y, m);
    ReceiverToldIsOk(c, y.r, y.store, y.history, y.accepted, y.receiverStopped, m, misread);
    var a := HeardAs(m, ChecksNow(y.r), misread);
    if y.r.status != Running {
      Theorems.StoppedReceiver(y.r, y.store, a);
    }
    NotByDamage(y.r, y.store, a);
    assert 1 <= |ChecksNow(y.r)| <= 2;
    HeardIsWhole(m, ChecksNow(y.r), misread);
    if !Theorems.Told(m) {
      NotByError(y.r, y.store, a);
    }
    Theorems.ForthIsPacket(c, y.history, m);
    FirstCheckIsRight(c, y.r, y.store, y.history, y.accepted, y.receiverStopped);
  }

  lemma NotByDamage(r: ReceiverState, store: StoreState, a: Arrival)
    ensures !a.Arrived? ==> ReceiverTold(r, store, a).r == r
  {
    hide ReceiverHears;
  }

  lemma NotByError(r: ReceiverState, store: StoreState, a: Arrival)
    requires a.Arrived? && a.packet.kind == Error
    ensures ReceiverTold(r, store, a).r.expected == r.expected
  {
    hide Data.Decode;
  }

  /** An event at which the receiver takes the end of a whole file and, asked to stop, does not keep it. */
  ghost predicate ThrowsAway(c: Setup, y: System, ev: Event) {
    && Apply(c, y, ev).accepted != y.accepted && y.r.cancelling
    && y.accepted < |y.history| && EndsWhole(y.history[y.accepted])
  }

  /** How many files that had come to their end were thrown away. */
  ghost function Thrown(c: Setup, events: seq<Event>): nat {
    if events == [] then 0
    else
      var before := events[..|events| - 1];
      Thrown(c, before) + if ThrowsAway(c, Exec(c, before), events[|events| - 1]) then 1 else 0
  }

  /** What a step changes of what is counted. */
  ghost predicate Tallied(y: System, z: System, thrown: bool) {
    && y.accepted <= |y.history| && z.accepted <= |z.history|
    && (y.r.cancelling ==> z.r.cancelling && z.r.progress.files == y.r.progress.files)
    && z.r.progress.files + Wholes(y.history[..y.accepted]) + (if thrown then 1 else 0)
       == y.r.progress.files + Wholes(z.history[..z.accepted])
  }

  lemma SameTally(y: System, z: System)
    requires z.r.progress == y.r.progress && (y.r.cancelling ==> z.r.cancelling) && z.accepted == y.accepted <= |y.history|
    requires y.history <= z.history
    ensures Tallied(y, z, false)
  {
    assert z.history[..z.accepted] == y.history[..y.accepted];
  }

  /** Of what the receiver does when it takes the packet it waits for. */
  lemma TakenTally(c: Setup, y: System, z: System)
    requires Good(c, y) && y.accepted < |y.history| && y.r.status == Running && y.r.expected < 64
    requires z.history == y.history && z.accepted == y.accepted + 1
    requires var p := y.history[y.accepted].frame.packet; var step := ReceiverHandle(y.r, y.store, p);
             z.r == step.r && step.r.expected != y.r.expected
    ensures Tallied(y, z, y.r.cancelling && EndsWhole(y.history[y.accepted]))
  {
    hide Good, ReceiverHandle, SenderSide.SenderOk, ReceiverSide.ReceiverOk, Chain, LinesOk, EmittedOk;
    var e, h := y.accepted, y.history;
    var p := h[e].frame.packet;
    GoodIs(c, y);
    HistoryIsNotEmpty(c, y.s, y.src, h);
    Tallies.HandlingTallies(y.r, y.store, p);
    ReceiverSide.PrefixGrows(h, e);
    EndsSayWhether(c, h, e);
  }

  /** The end of a file carries nothing, or `D`. */
  lemma EndsSayWhether(c: Setup, h: seq<Record>, e: nat)
    requires Chain(c, h) && e < |h|
    ensures var p := h[e].frame.packet;
            EndsWhole(h[e]) <==> p.kind == EndOfFile && !(p.data != [] && p.data[0] == 68)
  {
    if e == 0 {
      BeginsIsInit(c, h[0]);
    } else {
      assert Follows(c, h[e - 1], h[e]);
    }
  }

  lemma StepTallies(c: Setup, y: System, ev: Event)
    requires Good(c, y)
    ensures Tallied(y, Apply(c, y, ev), ThrowsAway(c, y, ev))
  {
    hide Good, SenderSide.SenderOk, ReceiverSide.ReceiverOk, LinesOk, EmittedOk, Tallied, Chain;
    hide HeardAs, ReceiverTold, SenderTold, ReceiverTick, SenderTick, ReceiverCancel, SenderCancel, ChecksNow;
    hide AnswersLabelled, Labelled, MayDeliver, SenderSide.Extended;
    GoodIs(c, y);
    AcceptedInHistory(c, y.r, y.store, y.history, y.accepted, y.receiverStopped);
    var z := Apply(c, y, ev);
    match ev {
      case Delivered(Forth, at, misread) =>
        if MayDeliver(c, y, Forth, at) {
          DeliveredTallies(c, y, at, misread);
        } else {
          SameTally(y, z);
        }
      case TimesOut(Back) => OwnTallies(c, y, ReceiverTick(y.r, y.store), z);
      case UserStops(Back) => OwnTallies(c, y, ReceiverCancel(y.r, y.store), z);
      case _ =>
        SenderEventsGrow(c, y, ev);
        SameTally(y, z);
    }
  }

  lemma OwnTallies(c: Setup, y: System, step: ReceiverStep, z: System)
    requires step == ReceiverTick(y.r, y.store) || step == ReceiverCancel(y.r, y.store)
    requires y.accepted <= |y.history| && z.history == y.history && z.r == step.r
        && z.accepted == if step.r.expected != y.r.expected then y.accepted + 1 else y.accepted
    ensures Tallied(y, z, false) && z.accepted == y.accepted
  {
    hide ReceiverTick, ReceiverCancel, Tallies.KeepsAnswers;
    Tallies.OwnTallies(y.r, y.store);
  }

  /** What happens at the sender, or to the line, leaves the receiver, and the history only grows. */
  lemma SenderEventsGrow(c: Setup, y: System, ev: Event)
    requires ev.Delivered? ==> ev.way.Back?
    requires ev.TimesOut? || ev.UserStops? ==> ev.way.Forth?
    ensures var z := Apply(c, y, ev); z.r == y.r && z.store == y.store && z.accepted == y.accepted && y.history <= z.history
  {
    hide HeardAs, SenderTold, SenderTick, SenderCancel, Labelled, MayDeliver, SenderSide.RecordOf;
  }

  lemma DeliveredTallies(c: Setup, y: System, at: nat, misread: Arrival)
    requires Good(c, y) && MayDeliver(c, y, Forth, at)
    ensures var ev := Delivered(Forth, at, misread); Tallied(y, Apply(c, y, ev), ThrowsAway(c, y, ev))
  {
    hide Good, SenderSide.SenderOk, ReceiverSide.ReceiverOk, LinesOk, EmittedOk, Tallied, Chain;
    hide HeardAs, ReceiverTold, ChecksNow, AnswersLabelled;
    GoodIs(c, y);
    AcceptedInHistory(c, y.r, y.store, y.history, y.accepted, y.receiverStopped);
    OrderIsYoung(c, y, Forth, at);
    var m := y.forth[at];
    assert m in y.forth;
    var a := HeardAs(m, ChecksNow(y.r), misread);
    var step, z := ReceiverTold(y.r, y.store, a), Apply(c, y, Delivered(Forth, at, misread));
    if step.r.expected != y.r.expected {
      MovedByNext(c, y, m, misread);
      ToldIsHandled(y.r, y.store, a);
      TakenTally(c, y, z);
    } else {
      ToldCounts(y.r, y.store, a);
      StillTally(y, z);
    }
  }

  lemma StillTally(y: System, z: System)
    requires z.accepted == y.accepted <= |y.history| && z.history == y.history
    requires (y.r.cancelling ==> z.r.cancelling) && z.r.progress.files == y.r.progress.files
    ensures Tallied(y, z, false)
  {
  }

  lemma ToldIsHandled(r: ReceiverState, store: StoreState, a: Arrival)
    requires r.status == Running && a.Arrived?
    ensures ReceiverTold(r, store, a) == ReceiverHandle(r, store, a.packet)
  {
    hide ReceiverHandle;
  }

  lemma ToldCounts(r: ReceiverState, store: StoreState, a: Arrival)
    requires r.expected < 64 && ReceiverTold(r, store, a).r.expected == r.expected
    ensures var r' := ReceiverTold(r, store, a).r; (r.cancelling ==> r'.cancelling) && r'.progress.files == r.progress.files
  {
    hide ReceiverHandle;
    if a.Arrived? {
      Tallies.HandlingTallies(r, store, a.packet);
    }
  }

  /**
   In every run at all, of the files whose whole end the receiver has taken,
   those it counts are kept complete and the others were thrown away.
   */
  lemma {:induction false} FilesAreKeptOrThrown(c: Setup, events: seq<Event>)
    ensures var y := Exec(c, events);
            && y.accepted <= |y.history|
            && y.r.progress.files == |ReceiverSide.Complete(y.store.files)|
            && |ReceiverSide.Complete(y.store.files)| + Thrown(c, events) == Wholes(y.history[..y.accepted])
    decreases |events|
  {
    hide Apply, Good, SenderSide.SenderOk, ReceiverSide.ReceiverOk, LinesOk, EmittedOk, ThrowsAway;
    AlwaysGood(c, events);
    var y := Exec(c, events);
    GoodIs(c, y);
    Theorems.ReceiverCounts(c, y.r, y.store, y.history, y.accepted, y.receiverStopped);
    AcceptedInHistory(c, y.r, y.store, y.history, y.accepted, y.receiverStopped);
    if events == [] {
      NothingYet(c);
    } else {
      var before := events[..|events| - 1];
      FilesAreKeptOrThrown(c, before);
      AlwaysGood(c, before);
      StepTallies(c, Exec(c, before), events[|events| - 1]);
    }
  }

  lemma NothingYet(c: Setup)
    ensures Start(c).accepted == 0 && Start(c).r.progress.files == 0
    ensures Start(c).history != [] && Wholes(Start(c).history[..0]) == 0
  {
    hide Block;
    assert Start(c).history[..0] == [];
  }

  // ------------------------------------------------------------------
  // A sender that is done
  // ------------------------------------------------------------------

  /** How many files ended whole, in a history that is at its end. */
  lemma EndsCount(c: Setup, h: seq<Record>)
    requires Chain(c, h) && h != [] && Last(h).Kind() == Break
    ensures Last(h).begun <= |c.files|
    ensures Wholes(h) + (if NoneDiscarded(h) then 0 else 1) == Last(h).begun
  {
    hide Follows, Begins, Wholes, Numbered, EndedBy;
    var n := |h|;
    HistoryIsShort(c, h, n - 1);
    if n == 1 {
      BeginsIsInit(c, h[0]);
    } else if NoneDiscarded(h) {
      assert h[..n] == h;
      WholesCount(c, h, n);
      Theorems.EndedByBreak(h[n - 1]);
    } else {
      assert Follows(c, h[n - 2], h[n - 1]);
      BreakBegins(c, h[n - 2], h[n - 1]);
      NothingAfter(c, h[n - 2], h[n - 1]);
      NoDiscardBefore(c, h, n - 2);
      OnlyBeforeLast(h);
      DiscardedCount(c, h);
    }
  }

  lemma BreakBegins(c: Setup, a: Record, b: Record)
    requires Follows(c, a, b) && b.Kind() == Break
    ensures b.begun == a.begun
  {
  }

  lemma OnlyBeforeLast(h: seq<Record>)
    requires |h| >= 2 && !NoneDiscarded(h) && NoneDiscarded(h[..|h| - 2]) && Last(h).Kind() == Break
    ensures EndsDiscarded(h[|h| - 2])
  {
    forall i | 0 <= i < |h| - 2 ensures !EndsDiscarded(h[i]) {
      assert h[..|h| - 2][i] == h[i];
    }
  }

  lemma DiscardedCount(c: Setup, h: seq<Record>)
    requires Chain(c, h) && |h| >= 2 && Last(h).Kind() == Break && EndsDiscarded(h[|h| - 2])
    requires NoneDiscarded(h[..|h| - 2])
    ensures Wholes(h) + 1 == h[|h| - 2].begun
  {
    hide Follows, Begins, Wholes, Numbered;
    var n := |h|;
    SenderSide.WholesLast(h);
    SenderSide.WholesLast(h[..n - 1]);
    assert h[..n - 1][..n - 2] == h[..n - 2];
    if n == 2 {
      BeginsIsInit(c, h[0]);
    } else {
      WholesCount(c, h, n - 2);
      assert Follows(c, h[n - 3], h[n - 2]);
      ReceiverSide.MidFollows(c, h[n - 3], h[n - 2]);
    }
  }

  /** What is known of a sender that is done. */
  lemma DoneKnows(c: Setup, s: SenderState, src: SourceState, h: seq<Record>)
    requires SenderSide.SenderOk(c, s, src, h) && s.status == Done
    ensures h != [] && Chain(c, h) && Last(h).Kind() == Break && s.progress.files == Wholes(h) && Last(h).begun == src.at
    ensures (s.discarding <==> !NoneDiscarded(h)) && src.at <= |c.files|
  {
    hide Chain, SenderSide.LinkOk, SenderSide.RunningOk, NoneDiscarded, Wholes;
  }

  /** The receiver may not have taken the end of the batch, but it ends no file. */
  lemma AllButBreak(c: Setup, h: seq<Record>, e: nat)
    requires h != [] && |h| - 1 <= e <= |h| && Last(h).Kind() == Break
    ensures Wholes(h[..e]) == Wholes(h)
  {
    SenderSide.WholesLast(h);
    assert h[..|h|] == h;
  }

  /**
   A sender that is done counts the files kept and those thrown away; and every
   file was kept if and only if it ended none marked discard, had begun them
   all, and the receiver threw none away, as it never does unless its user
   stopped.
   */
  lemma DoneExactly(c: Setup, events: seq<Event>)
    requires Exec(c, events).s.status == Done
    ensures var y := Exec(c, events); var kept := ReceiverSide.Complete(y.store.files);
            && y.s.progress.files == |kept| + Thrown(c, events)
            && (|kept| == |c.files| <==> !y.s.discarding && y.src.at == |c.files| && Thrown(c, events) == 0)
            && (!y.receiverStopped ==> Thrown(c, events) == 0)
  {
    hide Exec, Good, SenderSide.SenderOk, ReceiverSide.ReceiverOk, LinesOk, EmittedOk, Chain, Wholes, NoneDiscarded;
    hide ReceiverSide.Complete;
    var y := Exec(c, events);
    AlwaysGood(c, events);
    GoodIs(c, y);
    DoneKnows(c, y.s, y.src, y.history);
    EndsCount(c, y.history);
    AllButBreak(c, y.history, y.accepted);
    FilesAreKeptOrThrown(c, events);
    if !y.receiverStopped {
      UnstoppedCounts(c, y.r, y.store, y.history, y.accepted);
    }
  }

  lemma UnstoppedCounts(c: Setup, r: ReceiverState, store: StoreState, h: seq<Record>, e: nat)
    requires ReceiverSide.ReceiverOk(c, r, store, h, e, false)
    ensures e <= |h| && |ReceiverSide.Complete(store.files)| == Wholes(h[..e])
  {
    hide ReceiverSide.LinkAfter, ReceiverSide.WishOk, ReceiverSide.StateAfter, ReceiverSide.AnswerTo, Setup.Sound;
    hide ReceiverSide.Complete, Wholes;
  }

  // ------------------------------------------------------------------
  // When the receiver's user stops
  // ------------------------------------------------------------------

  /** From the moment its user stops it inside a file, a receiver keeps no more. */
  lemma {:induction false} StoppedKeepsNoMore(c: Setup, before: seq<Event>, after: seq<Event>)
    requires Exec(c, before).r.cancelling
    ensures var y := Exec(c, before); var z := Exec(c, before + after);
            z.r.cancelling && z.r.progress.files == y.r.progress.files && y.history <= z.history && y.accepted <= z.accepted
    decreases |after|
  {
    hide Apply, Good, ThrowsAway;
    if after == [] {
      assert before + after == before;
    } else {
      var n := |after| - 1;
      assert (before + after)[..|before + after| - 1] == before + after[..n];
      StoppedKeepsNoMore(c, before, after[..n]);
      AlwaysGood(c, before + after[..n]);
      StepTallies(c, Exec(c, before + after[..n]), after[n]);
      HistoryGrows(c, Exec(c, before + after[..n]), after[n]);
    }
  }

  lemma HistoryGrows(c: Setup, y: System, ev: Event)
    ensures y.history <= Apply(c, y, ev).history && y.accepted <= Apply(c, y, ev).accepted
  {
    hide HeardAs, ReceiverTold, SenderTold, SenderTick, SenderCancel, ReceiverTick, ReceiverCancel, Labelled, MayDeliver;
    hide AnswersLabelled, SenderSide.RecordOf, ChecksNow;
  }

  /** A receiver that means to keep files has kept every file whose end it has taken. */
  lemma WillingKept(c: Setup, r: ReceiverState, store: StoreState, h: seq<Record>, e: nat, stopped: bool)
    requires ReceiverSide.ReceiverOk(c, r, store, h, e, stopped) && Chain(c, h) && r.status == Running && !r.cancelling
    ensures e <= |h| && |ReceiverSide.Complete(store.files)| == r.progress.files == Wholes(h[..e])
  {
    hide ReceiverSide.LinkAfter, ReceiverSide.StateAfter, ReceiverSide.AnswerTo, Setup.Sound, Chain;
    hide ReceiverSide.Complete, EndedBy, NoneDiscarded;
    if e > 0 {
      WholesCount(c, h, e);
    }
  }

  lemma {:induction false} WholesBetween(h: seq<Record>, e: nat, n: nat)
    requires e <= n <= |h|
    ensures Wholes(h[..e]) <= Wholes(h[..n])
    ensures Wholes(h[..e]) == Wholes(h[..n]) <==> forall i | e <= i < n :: !EndsWhole(h[i])
    decreases n - e
  {
    hide EndsWhole;
    if e < n {
      WholesBetween(h, e, n - 1);
      SenderSide.WholesLast(h[..n]);
      assert h[..n][..n - 1] == h[..n - 1] && Last(h[..n]) == h[n - 1];
    }
  }

  /**
   If the receiver's user stops it inside a file, nothing more is kept, and the
   count of a sender that then ends done is of the files kept exactly when no file
   whose end the receiver had not taken by then was sent to its end: it is not when
   the stop came between the last data of a file and that file's end.
   */
  lemma StoppedExactly(c: Setup, before: seq<Event>, after: seq<Event>)
    requires var y := Exec(c, before); y.r.status == Running && y.r.state == AwaitData && !y.r.cancelling
    ensures var y := Exec(c, before); var z := Exec(c, before + ([UserStops(Back)] + after));
            var kept := ReceiverSide.Complete(z.store.files);
            && |kept| == |ReceiverSide.Complete(y.store.files)|
            && (z.s.status == Done ==>
                  (z.s.progress.files == |kept| <==> forall i | y.accepted <= i < |z.history| :: !EndsWhole(z.history[i])))
  {
    hide Exec, Good, SenderSide.SenderOk, ReceiverSide.ReceiverOk, LinesOk, EmittedOk, Chain, Wholes, ReceiverSide.Complete;
    hide EndsWhole, Apply;
    var y, stop := Exec(c, before), before + [UserStops(Back)];
    var all := before + ([UserStops(Back)] + after);
    assert all == stop + after;
    AlwaysGood(c, before); GoodIs(c, y);
    HistoryIsNotEmpty(c, y.s, y.src, y.history);
    WillingKept(c, y.r, y.store, y.history, y.accepted, y.receiverStopped);
    StopIsAsked(c, before);
    StoppedKeepsNoMore(c, stop, after);
    var z := Exec(c, all);
    AlwaysGood(c, all); GoodIs(c, z);
    FilesAreKeptOrThrown(c, all);
    assert z.history[..y.accepted] == y.history[..y.accepted];
    WholesBetween(z.history, y.accepted, |z.history|);
    if z.s.status == Done {
      DoneKnows(c, z.s, z.src, z.history);
      assert z.history[..|z.history|] == z.history;
    }
  }

  lemma StopIsAsked(c: Setup, before: seq<Event>)
    requires var y := Exec(c, before); y.r.status == Running && y.r.state == AwaitData && !y.r.cancelling
    ensures var y := Exec(c, before); var z := Exec(c, before + [UserStops(Back)]);
            z == y.(r := y.r.(cancelling := true), receiverStopped := true)
  {
    hide Start;
    assert (before + [UserStops(Back)])[..|before|] == before;
    assert Exec(c, before).back + [] == Exec(c, before).back;
  }
}

/**
 XON and XOFF: everything the terminal sends goes to the line or, while the
 host has said XOFF, to a queue. Any number of threads may send, and any may hear
 XON and XOFF; a step here is what a thread does between two points where
 another may come in between. Storing XOFF takes no lock. Any write may fail
 when part of it, or none, has gone, and modem control may shut a gate that
 calls to send look at first.
 */
module Flow {
  import opened Options
  import opened Bytes

  /**
   Where a thread is. A call to send carries the number of XONs that had taken
   effect when it began, if the line was stopped then.
   */
  datatype Doing =
    | Idle
    | WaitingToSend(bytes: seq<byte>, mark: Option<nat>)
    | Looking(bytes: seq<byte>, mark: Option<nat>)
    | Queueing(bytes: seq<byte>)
    | Writing(bytes: seq<byte>, mark: Option<nat>)
    | WaitingToResume
    | Resuming
    | Flushing
    | Emptying
    | Leaving

  /** Whether the thread has the queue's lock. */
  predicate Holds(d: Doing) { !d.Idle? && !d.WaitingToSend? && !d.WaitingToResume? }

  /**
   `taken` is what was to be sent, in the order in which the calls took the
   queue's lock, and `lost` how much of it failed writes left unsent.
   */
  datatype State = State(
    stopped: bool, shut: bool, queued: seq<byte>, written: seq<byte>, threads: seq<Doing>, taken: seq<byte>, lost: nat, xons: nat)

  /** A thread that goes on writes at most `most` bytes, and its write fails if it has more. */
  datatype Step =
    | Transmits(thread: nat, bytes: seq<byte>)
    | HearsXoff(thread: nat)
    | HearsXon(thread: nat)
    | Goes(thread: nat, most: nat)
    | Shuts(shut: bool)

  predicate Free(y: State) { forall i | 0 <= i < |y.threads| :: !Holds(y.threads[i]) }

  function Start(threads: nat): State { State(false, false, [], [], seq(threads, _ => Idle), [], 0, 0) }

  function To(y: State, t: nat, d: Doing): State
    requires t < |y.threads|
  {
    y.(threads := y.threads[t := d])
  }

  /** A write of `bytes`, of which at most `most` get through. */
  function Wrote(y: State, bytes: seq<byte>, most: nat): State {
    var n := Min(most, |bytes|);
    y.(written := y.written + bytes[..n], lost := y.lost + |bytes| - n)
  }

  /** What a thread does next, if it can. */
  function Go(y: State, t: nat, most: nat): State
    requires t < |y.threads|
  {
    match y.threads[t]
    case Idle => y
    case WaitingToSend(bytes, mark) =>
      if Free(y) then To(y, t, Looking(bytes, mark)).(taken := y.taken + bytes) else y
    case Looking(bytes, mark) => To(y, t, if y.stopped then Queueing(bytes) else Writing(bytes, mark))
    case Queueing(bytes) => To(y, t, Leaving).(queued := y.queued + bytes)
    case Writing(bytes, _) => Wrote(To(y, t, Leaving), bytes, most)
    case WaitingToResume => if Free(y) then To(y, t, Resuming) else y
    case Resuming => To(y, t, if y.queued == [] then Leaving else Flushing).(stopped := false, xons := y.xons + 1)
    case Flushing => Wrote(To(y, t, Emptying), y.queued, most)
    case Emptying => To(y, t, Leaving).(queued := [])
    case Leaving => To(y, t, Idle)
  }

  function Next(y: State, step: Step): State {
    match step
    case Shuts(shut) => y.(shut := shut)
    case _ =>
      var t := step.thread;
      if t >= |y.threads| then y
      else
        match step
        case Goes(_, most) => Go(y, t, most)
        case Transmits(_, bytes) =>
          if y.threads[t].Idle? && !y.shut then To(y, t, WaitingToSend(bytes, if y.stopped then Some(y.xons) else None)) else y
        case HearsXoff(_) => if y.threads[t].Idle? then y.(stopped := true) else y
        case _ => if y.threads[t].Idle? then To(y, t, WaitingToResume) else y
  }

  function Run(y: State, steps: seq<Step>): State
    decreases |steps|
  {
    if steps == [] then y else Run(Next(y, steps[0]), steps[1..])
  }

  // ------------------------------------------------------------------
  // In order, with parts missing
  // ------------------------------------------------------------------

  /** What is left of `b` when some of it is taken out, in the same order. */
  predicate Within(a: seq<byte>, b: seq<byte>) {
    a == []
    || (b != [] && a[|a| - 1] == b[|b| - 1] && Within(a[..|a| - 1], b[..|b| - 1]))
    || (b != [] && Within(a, b[..|b| - 1]))
  }

  lemma {:induction false} WithinAppend(a: seq<byte>, b: seq<byte>, more: seq<byte>)
    requires Within(a, b)
    ensures Within(a + more, b + more)
    decreases |more|
  {
    if more == [] {
      assert a + more == a && b + more == b;
    } else {
      var n := |more| - 1;
      WithinAppend(a, b, more[..n]);
      assert (a + more)[..|a| + n] == a + more[..n] && (b + more)[..|b| + n] == b + more[..n];
    }
  }

  lemma {:induction false} WithinPrefix(a: seq<byte>, b: seq<byte>, n: nat)
    requires Within(a, b) && n <= |a|
    ensures Within(a[..n], b)
    decreases |b|
  {
    if n == |a| {
      assert a[..n] == a;
    } else if a != [] && b != [] {
      if Within(a, b[..|b| - 1]) {
        WithinPrefix(a, b[..|b| - 1], n);
      } else {
        WithinPrefix(a[..|a| - 1], b[..|b| - 1], n);
        assert a[..|a| - 1][..n] == a[..n];
      }
    }
  }

  /** If as much is left as there was, it is the same. */
  lemma {:induction false} WithinWhole(a: seq<byte>, b: seq<byte>)
    requires Within(a, b)
    ensures |a| <= |b| && (|a| == |b| ==> a == b)
    decreases |b|
  {
    if a != [] && b != [] {
      if Within(a, b[..|b| - 1]) {
        WithinWhole(a, b[..|b| - 1]);
      } else {
        WithinWhole(a[..|a| - 1], b[..|b| - 1]);
      }
    }
  }

  /** `a` is all of what was taken but for what was lost, in order. */
  predicate Accounts(y: State, a: seq<byte>) { Within(a, y.taken) && |a| + y.lost == |y.taken| }

  lemma AccountsMore(y: State, a: seq<byte>, bytes: seq<byte>)
    requires Accounts(y, a)
    ensures Accounts(y.(taken := y.taken + bytes), a + bytes)
  {
    hide Within;
    WithinAppend(a, y.taken, bytes);
  }

  /** A write that fails loses the rest of what it had, and nothing else. */
  lemma AccountsWrote(y: State, bytes: seq<byte>, most: nat)
    requires Accounts(y, y.written + bytes)
    ensures var z := Wrote(y, bytes, most); Accounts(z, z.written)
  {
    hide Within;
    var n := Min(most, |bytes|);
    WithinPrefix(y.written + bytes, y.taken, |y.written| + n);
    assert (y.written + bytes)[..|y.written| + n] == y.written + bytes[..n];
  }

  // ------------------------------------------------------------------
  // What every step keeps
  // ------------------------------------------------------------------

  ghost predicate Exclusive(threads: seq<Doing>) {
    forall i, j | 0 <= i < |threads| && 0 <= j < |threads| && Holds(threads[i]) && Holds(threads[j]) :: i == j
  }

  /** What the thread holding the lock makes of the order. */
  predicate InOrder(y: State, d: Doing) {
    match d
    case Looking(bytes, _) => Accounts(y, y.written + y.queued + bytes) && (!y.stopped ==> y.queued == [])
    case Queueing(bytes) => Accounts(y, y.written + y.queued + bytes) && y.stopped
    case Writing(bytes, _) => Accounts(y, y.written + bytes) && y.queued == []
    case Flushing => Accounts(y, y.written + y.queued)
    case Emptying => Accounts(y, y.written)
    case _ => Accounts(y, y.written + y.queued) && (!y.stopped ==> y.queued == [])
  }

  /** A call begun while stopped still finds it so, until an XON takes effect. */
  predicate Marked(y: State, d: Doing) {
    match d
    case WaitingToSend(_, Some(k)) => k <= y.xons && (k == y.xons ==> y.stopped)
    case Looking(_, Some(k)) => k <= y.xons && (k == y.xons ==> y.stopped)
    case Writing(_, Some(k)) => k < y.xons
    case _ => true
  }

  ghost predicate Inv(y: State) {
    && Exclusive(y.threads)
    && (forall i | 0 <= i < |y.threads| && Holds(y.threads[i]) :: InOrder(y, y.threads[i]))
    && (Free(y) ==> InOrder(y, Idle))
    && (forall i | 0 <= i < |y.threads| :: Marked(y, y.threads[i]))
  }

  lemma OthersWait(y: State, t: nat)
    requires Exclusive(y.threads) && t < |y.threads| && Holds(y.threads[t])
    ensures forall i | 0 <= i < |y.threads| && i != t :: !Holds(y.threads[i])
  {
  }

  /** What the thread that holds the lock does keeps the account. */
  lemma GoKeepsOrder(y: State, t: nat, most: nat)
    requires t < |y.threads|
    requires var d := y.threads[t]; if Holds(d) then InOrder(y, d) else Free(y) ==> InOrder(y, Idle)
    ensures var d, z := y.threads[t], Go(y, t, most); Holds(d) || z.threads[t] != d ==> InOrder(z, z.threads[t])
  {
    hide Accounts, Wrote;
    var d, z := y.threads[t], Go(y, t, most);
    match d {
      case WaitingToSend(bytes, _) =>
        if Free(y) {
          SameAccount(y, To(y, t, Looking(bytes, d.mark)), y.written + y.queued);
          AccountsMore(To(y, t, Looking(bytes, d.mark)), y.written + y.queued, bytes);
        }
      case Looking(bytes, _) =>
        SameAccount(y, z, y.written + y.queued + bytes);
        assert y.queued == [] ==> y.written + y.queued + bytes == y.written + bytes;
      case Queueing(bytes) =>
        SameAccount(y, z, y.written + y.queued + bytes);
        assert y.written + y.queued + bytes == y.written + (y.queued + bytes);
      case Writing(bytes, _) =>
        SameAccount(y, To(y, t, Leaving), y.written + bytes);
        AccountsWrote(To(y, t, Leaving), bytes, most);
        WroteOnly(To(y, t, Leaving), bytes, most);
        assert z.written + z.queued == z.written;
      case Flushing =>
        SameAccount(y, To(y, t, Emptying), y.written + y.queued);
        AccountsWrote(To(y, t, Emptying), y.queued, most);
        WroteOnly(To(y, t, Emptying), y.queued, most);
      case Emptying =>
        SameAccount(y, z, y.written);
        assert z.written + z.queued == y.written;
      case _ => SameAccount(y, z, y.written + y.queued);
    }
  }

  lemma SameAccount(y: State, z: State, a: seq<byte>)
    requires z.taken == y.taken && z.lost == y.lost
    ensures Accounts(z, a) == Accounts(y, a)
  {
    hide Within;
  }

  lemma WroteOnly(y: State, bytes: seq<byte>, most: nat)
    ensures var z := Wrote(y, bytes, most);
            z.threads == y.threads && z.queued == y.queued && z.stopped == y.stopped && z.xons == y.xons
            && z.taken == y.taken && z.shut == y.shut && y.written <= z.written
  {
  }

  lemma GoMoves(y: State, t: nat, most: nat)
    requires t < |y.threads|
    ensures var z := Go(y, t, most); |z.threads| == |y.threads| && forall i | 0 <= i < |y.threads| && i != t :: z.threads[i] == y.threads[i]
    ensures var d, z := y.threads[t], Go(y, t, most);
            && (Holds(d) && !d.Leaving? ==> Holds(z.threads[t]))
            && (d.Leaving? ==> !Holds(z.threads[t]))
            && (!Holds(d) ==> z == y || (Free(y) && Holds(z.threads[t])))
  {
    hide Wrote;
    match y.threads[t] {
      case Writing(bytes, _) => WroteOnly(To(y, t, Leaving), bytes, most);
      case Flushing => WroteOnly(To(y, t, Emptying), y.queued, most);
      case _ =>
    }
  }

  lemma GoKeepsMarks(y: State, t: nat, most: nat)
    requires t < |y.threads| && forall i | 0 <= i < |y.threads| :: Marked(y, y.threads[i])
    ensures var z := Go(y, t, most); |z.threads| == |y.threads| && forall i | 0 <= i < |z.threads| :: Marked(z, z.threads[i])
  {
    hide Wrote;
    match y.threads[t] {
      case Writing(bytes, _) => WroteOnly(To(y, t, Leaving), bytes, most);
      case Flushing => WroteOnly(To(y, t, Emptying), y.queued, most);
      case _ =>
    }
  }

  lemma GoKeeps(y: State, t: nat, most: nat)
    requires Inv(y) && t < |y.threads|
    ensures Inv(Go(y, t, most))
  {
    hide Go, InOrder, Marked;
    var d, z := y.threads[t], Go(y, t, most);
    GoMoves(y, t, most);
    GoKeepsMarks(y, t, most);
    GoKeepsOrder(y, t, most);
    if Holds(d) {
      OthersWait(y, t);
      if d.Leaving? {
        LeavingIsIdle(y, t, most);
      }
    } else if z != y {
      assert !Free(z) by { assert Holds(z.threads[t]); }
    }
  }

  lemma LeavingIsIdle(y: State, t: nat, most: nat)
    requires t < |y.threads| && y.threads[t].Leaving? && InOrder(y, y.threads[t])
    ensures InOrder(Go(y, t, most), Idle)
  {
    SameAccount(y, Go(y, t, most), y.written + y.queued);
  }

  lemma NextKeeps(y: State, step: Step)
    requires Inv(y)
    ensures Inv(Next(y, step))
  {
    hide Go, Accounts;
    var z := Next(y, step);
    if step.Shuts? {
      ShutKeeps(y, step.shut);
    } else if step.thread < |y.threads| {
      if step.Goes? {
        GoKeeps(y, step.thread, step.most);
      } else if y.threads[step.thread].Idle? && z != y {
        assert Free(z) <==> Free(y) by {
          if Free(z) {
            forall i | 0 <= i < |y.threads| ensures !Holds(y.threads[i]) { assert !Holds(z.threads[i]); }
          }
        }
        SameOrder(y, z);
      }
    }
  }

  /** What changes neither the account nor, but to set it, whether the line is stopped. */
  lemma SameOrder(y: State, z: State)
    requires z.taken == y.taken && z.lost == y.lost && z.written == y.written && z.queued == y.queued
    requires y.stopped ==> z.stopped
    ensures forall d :: InOrder(y, d) ==> InOrder(z, d)
  {
    hide Within;
  }

  lemma ShutKeeps(y: State, shut: bool)
    requires Inv(y)
    ensures Inv(y.(shut := shut))
  {
    hide Accounts;
    var z := y.(shut := shut);
    SameOrder(y, z);
    assert Free(z) == Free(y) && forall d :: Marked(z, d) == Marked(y, d);
  }

  lemma {:induction false} RunKeeps(y: State, steps: seq<Step>)
    requires Inv(y)
    ensures Inv(Run(y, steps))
    decreases |steps|
  {
    hide Inv, Next;
    if steps != [] {
      NextKeeps(y, steps[0]);
      RunKeeps(Next(y, steps[0]), steps[1..]);
    }
  }

  lemma StartHolds(threads: nat)
    ensures Inv(Start(threads))
  {
  }

  // ------------------------------------------------------------------
  // What that means
  // ------------------------------------------------------------------

  /**
   However the threads interleave and whatever writes fail, what has been
   written is what was to be sent, in the order in which the calls took the
   queue's lock, but for what failed writes lost; if none failed it is the
   beginning of it. Whenever nobody holds the lock the rest is exactly what is
   queued, and nothing is queued unless the line is stopped.
   */
  lemma NothingLostOrOvertaken(threads: nat, steps: seq<Step>)
    ensures var y := Run(Start(threads), steps);
            && Within(y.written, y.taken)
            && (y.lost == 0 ==> y.written <= y.taken)
            && (Free(y) ==>
                  && Within(y.written + y.queued, y.taken) && |y.written| + |y.queued| + y.lost == |y.taken|
                  && (y.lost == 0 ==> y.written + y.queued == y.taken)
                  && (!y.stopped ==> y.queued == []))
  {
    hide Run, Within;
    StartHolds(threads);
    RunKeeps(Start(threads), steps);
    var y := Run(Start(threads), steps);
    hide InOrder, Marked;
    if Free(y) {
      FreeAccounts(y);
      Accounted(y, y.queued);
    } else {
      var i :| 0 <= i < |y.threads| && Holds(y.threads[i]);
      HolderAccounts(y, y.threads[i]);
    }
  }

  lemma HolderAccounts(y: State, d: Doing)
    requires InOrder(y, d)
    ensures Within(y.written, y.taken) && (y.lost == 0 ==> y.written <= y.taken)
  {
    hide Accounts, Within;
    match d {
      case Looking(bytes, _) => Accounted(y, y.queued + bytes); assert y.written + y.queued + bytes == y.written + (y.queued + bytes);
      case Queueing(bytes) => Accounted(y, y.queued + bytes); assert y.written + y.queued + bytes == y.written + (y.queued + bytes);
      case Writing(bytes, _) => Accounted(y, bytes);
      case Emptying => Accounted(y, []); assert y.written + [] == y.written;
      case _ => Accounted(y, y.queued);
    }
  }

  lemma FreeAccounts(y: State)
    requires InOrder(y, Idle)
    ensures Accounts(y, y.written + y.queued) && (!y.stopped ==> y.queued == [])
  {
  }

  lemma Accounted(y: State, rest: seq<byte>)
    ensures Accounts(y, y.written + rest) ==>
              && Within(y.written, y.taken)
              && (y.lost == 0 ==> y.written + rest == y.taken && y.written <= y.taken)
  {
    hide Within;
    if Accounts(y, y.written + rest) {
      WithinWhole(y.written + rest, y.taken);
      WithinPrefix(y.written + rest, y.taken, |y.written|);
      assert (y.written + rest)[..|y.written|] == y.written;
    }
  }

  /** A call begun after an XOFF writes nothing itself before an XON has taken effect. */
  lemma StoppedCallsWait(threads: nat, steps: seq<Step>, t: nat)
    ensures var y := Run(Start(threads), steps);
            t < |y.threads| && y.threads[t].Writing? && y.threads[t].mark.Some? ==> y.threads[t].mark.value < y.xons
  {
    hide Run;
    StartHolds(threads);
    RunKeeps(Start(threads), steps);
    var y := Run(Start(threads), steps);
    assert t < |y.threads| ==> Marked(y, y.threads[t]);
  }

  predicate Silent(y: State) {
    y.stopped && forall i | 0 <= i < |y.threads| :: !y.threads[i].Writing? && !y.threads[i].Flushing?
  }

  lemma OneStepSilent(y: State, step: Step)
    requires Silent(y) && Next(y, step).xons == y.xons
    ensures Silent(Next(y, step)) && Next(y, step).written == y.written
  {
  }

  lemma {:induction false} XonsGrow(y: State, steps: seq<Step>)
    ensures y.xons <= Run(y, steps).xons
    decreases |steps|
  {
    if steps != [] {
      assert y.xons <= Next(y, steps[0]).xons;
      XonsGrow(Next(y, steps[0]), steps[1..]);
    }
  }

  /**
   Once the line is stopped, and whoever had already looked has written,
   nothing at all is written until an XON takes effect.
   */
  lemma {:induction false} StoppedIsSilent(y: State, steps: seq<Step>)
    requires Silent(y) && Run(y, steps).xons == y.xons
    ensures Silent(Run(y, steps)) && Run(y, steps).written == y.written
    decreases |steps|
  {
    hide Next, Silent;
    if steps != [] {
      XonsGrow(y, [steps[0]]);
      assert Run(y, [steps[0]]) == Next(y, steps[0]) by { assert [steps[0]][1..] == []; }
      XonsGrow(Next(y, steps[0]), steps[1..]);
      OneStepSilent(y, steps[0]);
      StoppedIsSilent(Next(y, steps[0]), steps[1..]);
    }
  }

  // ------------------------------------------------------------------
  // The gate
  // ------------------------------------------------------------------

  /** The gate is shut, and no call that went through it before is still to take the lock. */
  predicate Shut(y: State) { y.shut && forall i | 0 <= i < |y.threads| :: !y.threads[i].WaitingToSend? }

  lemma OneStepShut(y: State, step: Step)
    requires Shut(y) && Next(y, step).shut
    ensures Shut(Next(y, step)) && Next(y, step).taken == y.taken
  {
  }

  /** The gate is not opened in this run. */
  predicate StaysShut(steps: seq<Step>) { forall step | step in steps && step.Shuts? :: step.shut }

  lemma ShutStep(y: State, step: Step)
    requires y.shut && (step.Shuts? ==> step.shut)
    ensures Next(y, step).shut
  {
  }

  /** While it is shut nothing more is taken to be sent. */
  lemma {:induction false} ShutTakesNothing(y: State, steps: seq<Step>)
    requires Shut(y) && StaysShut(steps)
    ensures Run(y, steps).taken == y.taken && Shut(Run(y, steps))
    decreases |steps|
  {
    hide Next;
    if steps != [] {
      assert steps[0] in steps && StaysShut(steps[1..]);
      ShutStep(y, steps[0]);
      OneStepShut(y, steps[0]);
      ShutTakesNothing(Next(y, steps[0]), steps[1..]);
    }
  }

  /** At rest: no call is under way. */
  predicate AtRest(y: State) { forall i | 0 <= i < |y.threads| :: y.threads[i].Idle? }

  /**
   The gate keeps back what comes to it, not what was queued before it shut:
   for any line at rest with the gate shut and something queued, an XON sends it.
   */
  lemma QueueGoesThroughShutGate(y: State) returns (steps: seq<Step>)
    requires AtRest(y) && y.threads != [] && y.shut && y.queued != []
    ensures StaysShut(steps) && Run(y, steps).written == y.written + y.queued
  {
    hide Next, Wrote;
    var most := |y.queued|;
    steps := [HearsXon(0)] + [Goes(0, most)] + [Goes(0, most)] + [Goes(0, most)];
    assert steps == [HearsXon(0)] + ([Goes(0, most)] + ([Goes(0, most)] + ([Goes(0, most)] + [])));
    var y1 := Next(y, HearsXon(0));
    var y2 := Next(y1, Goes(0, most));
    var y3 := Next(y2, Goes(0, most));
    RunOne(y, HearsXon(0), [Goes(0, most)] + ([Goes(0, most)] + ([Goes(0, most)] + [])));
    RunOne(y1, Goes(0, most), [Goes(0, most)] + ([Goes(0, most)] + []));
    RunOne(y2, Goes(0, most), [Goes(0, most)] + []);
    RunOne(y3, Goes(0, most), []);
    RestResumes(y);
    RestFlushes(y, y2, y3, most);
    RunNothing(Next(y3, Goes(0, most)));
  }

  lemma RestResumes(y: State)
    requires AtRest(y) && y.threads != []
    ensures forall most :: Next(Next(y, HearsXon(0)), Goes(0, most)) == To(y, 0, Resuming)
  {
  }

  lemma RestFlushes(y: State, y2: State, y3: State, most: nat)
    requires y.threads != [] && y.queued != [] && most == |y.queued|
    requires y2 == To(y, 0, Resuming) && y3 == Next(y2, Goes(0, most))
    ensures Next(y3, Goes(0, most)).written == y.written + y.queued
  {
    assert y3.threads[0] == Flushing && y3.queued == y.queued && y3.written == y.written;
  }

  /**
   While it is shut and nothing is queued, or no XON takes effect, nothing is
   written at all.
   */
  lemma ShutAndEmptyIsSilent(y: State, steps: seq<Step>)
    requires AtRest(y) && y.shut && StaysShut(steps) && (y.queued == [] || Run(y, steps).xons == y.xons)
    ensures Run(y, steps).written == y.written
  {
    hide Run;
    assert ShutQuiet(y);
    ShutStaysQuiet(y, steps);
  }

  /** Nothing to write, and nobody about to add to it. */
  predicate ShutQuiet(y: State) {
    Shut(y) && forall i | 0 <= i < |y.threads| :: y.threads[i] in {Idle, WaitingToResume, Resuming, Leaving}
  }

  lemma OneStepQuiet(y: State, step: Step)
    requires ShutQuiet(y) && Next(y, step).shut && (y.queued == [] || Next(y, step).xons == y.xons)
    ensures var z := Next(y, step); ShutQuiet(z) && z.written == y.written && z.queued == y.queued
  {
  }

  lemma {:induction false} ShutStaysQuiet(y: State, steps: seq<Step>)
    requires ShutQuiet(y) && StaysShut(steps) && (y.queued == [] || Run(y, steps).xons == y.xons)
    ensures Run(y, steps).written == y.written
    decreases |steps|
  {
    hide Next, ShutQuiet;
    if steps != [] {
      assert steps[0] in steps && StaysShut(steps[1..]);
      QuietIsShut(y);
      ShutStep(y, steps[0]);
      XonsStep(y, steps[0]);
      XonsGrow(Next(y, steps[0]), steps[1..]);
      OneStepQuiet(y, steps[0]);
      ShutStaysQuiet(Next(y, steps[0]), steps[1..]);
    }
  }

  lemma QuietIsShut(y: State)
    ensures ShutQuiet(y) ==> y.shut
  {
  }

  lemma XonsStep(y: State, step: Step)
    ensures y.xons <= Next(y, step).xons
  {
  }

  // ------------------------------------------------------------------
  // The calls themselves
  // ------------------------------------------------------------------

  const XON: byte := 0x11
  const XOFF: byte := 0x13

  /** `n` turns of the first thread with no other in between, each writing at most `most`. */
  function Turns(y: State, n: nat, most: nat): State
    decreases n
  {
    if n == 0 then y else Turns(Next(y, Goes(0, most)), n - 1, most)
  }

  /** A call to send with no other thread in between, of which `most` bytes get through. */
  function Sending(y: State, bytes: seq<byte>, most: nat): State { Turns(Next(y, Transmits(0, bytes)), 4, most) }

  /** One byte from the host heard with no other thread in between. */
  function Hearing(y: State, b: byte, most: nat): State {
    if b == XOFF then Next(y, HearsXoff(0))
    else if b == XON then Turns(Next(y, HearsXon(0)), 5, most)
    else y
  }

  /** Bytes heard one after another; the write an XON starts gets as far as `got` says of it. */
  function HearingAll(y: State, bytes: seq<byte>, got: seq<nat>): State
    requires |got| == |bytes|
  {
    if bytes == [] then y
    else
      var n := |bytes| - 1;
      Hearing(HearingAll(y, bytes[..n], got[..n]), bytes[n], got[n])
  }

  lemma RunOne(y: State, step: Step, rest: seq<Step>)
    ensures Run(y, [step] + rest) == Run(Next(y, step), rest)
  {
    hide Next;
    assert ([step] + rest)[1..] == rest;
  }

  lemma RunNothing(y: State)
    ensures Run(y, []) == y
  {
  }

  /** So many turns are a run. */
  lemma {:induction false} TurnsAreRun(y: State, n: nat, most: nat)
    ensures Turns(y, n, most) == Run(y, seq(n, _ => Goes(0, most)))
    decreases n
  {
    hide Next;
    if n > 0 {
      var steps := seq(n, _ => Goes(0, most));
      assert steps[1..] == seq(n - 1, _ => Goes(0, most));
      TurnsAreRun(Next(y, Goes(0, most)), n - 1, most);
    }
  }

  lemma FourTurns(y: State, most: nat)
    ensures var go := Goes(0, most); Turns(y, 4, most) == Next(Next(Next(Next(y, go), go), go), go)
  {
    hide Next;
    var go := Goes(0, most);
    var y1, y2, y3 := Next(y, go), Next(Next(y, go), go), Next(Next(Next(y, go), go), go);
    assert Turns(y3, 1, most) == Next(y3, go) && Turns(y2, 2, most) == Next(y3, go) && Turns(y1, 3, most) == Next(y3, go);
  }

  lemma FiveTurns(y: State, most: nat)
    ensures var go := Goes(0, most); Turns(y, 5, most) == Next(Next(Next(Next(Next(y, go), go), go), go), go)
  {
    hide Next;
    FourTurns(Next(y, Goes(0, most)), most);
  }

  /** What a call to send does when nothing comes in between. */
  lemma SendingAlone(y: State, bytes: seq<byte>, most: nat)
    requires y.threads == [Idle]
    ensures Sending(y, bytes, most)
         == if y.shut then y
            else if y.stopped then y.(taken := y.taken + bytes, queued := y.queued + bytes)
            else Wrote(y.(taken := y.taken + bytes), bytes, most)
  {
    hide Turns, Wrote;
    var go := Goes(0, most);
    var y1 := Next(y, Transmits(0, bytes));
    FourTurns(y1, most);
    if y.shut {
      assert Next(y1, go) == y;
    } else {
      var y2, y3 := Next(y1, go), Next(Next(y1, go), go);
      var t := y.(taken := y.taken + bytes);
      assert y2.threads[0].Looking? && y2 == t.(threads := y2.threads);
      WroteOnly(To(y3, 0, Leaving), bytes, most);
      if y.stopped {
        assert y3 == t.(threads := [Queueing(bytes)]);
      } else {
        assert y3 == t.(threads := y3.threads) && y3.threads[0].Writing?;
        WroteAlike(To(y3, 0, Leaving), t, bytes, most);
      }
    }
  }

  lemma WroteAlike(y: State, t: State, bytes: seq<byte>, most: nat)
    requires y == t.(threads := y.threads)
    ensures Wrote(y, bytes, most) == Wrote(t, bytes, most).(threads := y.threads) && Wrote(t, bytes, most).threads == t.threads
  {
  }

  /** What an XON does: what is queued goes, as far as it goes, and is forgotten. */
  lemma ResumingAlone(y: State, most: nat)
    requires y.threads == [Idle]
    ensures Hearing(y, XON, most) == Wrote(y.(stopped := false, xons := y.xons + 1), y.queued, most).(queued := [])
  {
    hide Turns, Wrote, Next;
    var go := Goes(0, most);
    var y1 := Next(y, HearsXon(0));
    FiveTurns(y1, most);
    var y2, y3 := Next(y1, go), Next(Next(y1, go), go);
    var t := y.(stopped := false, xons := y.xons + 1);
    TwoTurnsResume(y, most);
    if y.queued == [] {
      LeavesAtOnce(y3, most);
      NothingWrote(t, most);
    } else {
      FlushesThenLeaves(y3, t, most);
    }
  }

  lemma TwoTurnsResume(y: State, most: nat)
    requires y.threads == [Idle]
    ensures var go := Goes(0, most); var y3 := Next(Next(Next(y, HearsXon(0)), go), go);
            y3 == y.(stopped := false, xons := y.xons + 1, threads := [if y.queued == [] then Leaving else Flushing])
  {
    hide Wrote;
    var y2 := Next(Next(y, HearsXon(0)), Goes(0, most));
    assert y2 == y.(threads := [Resuming]);
  }

  lemma LeavesAtOnce(y: State, most: nat)
    requires y.threads == [Leaving]
    ensures var go := Goes(0, most); Next(Next(Next(y, go), go), go) == y.(threads := [Idle])
  {
    hide Wrote;
    assert Next(y, Goes(0, most)) == y.(threads := [Idle]);
  }

  lemma FlushesThenLeaves(y: State, t: State, most: nat)
    requires y.threads == [Flushing] && t.threads == [Idle] && y == t.(threads := y.threads)
    ensures var go := Goes(0, most); Next(Next(Next(y, go), go), go) == Wrote(t, t.queued, most).(queued := [])
  {
    hide Wrote;
    var z := Wrote(To(y, 0, Emptying), y.queued, most);
    WroteAlike(To(y, 0, Emptying), t, y.queued, most);
    WroteOnly(To(y, 0, Emptying), y.queued, most);
    assert Next(y, Goes(0, most)) == z && z.threads == [Emptying];
  }

  lemma NothingWrote(y: State, most: nat)
    ensures Wrote(y, [], most) == y
  {
    assert y.written + [][..Min(most, 0)] == y.written;
  }

  lemma HearOneMore(y: State, bytes: seq<byte>, got: seq<nat>, i: nat)
    requires i < |bytes| == |got|
    ensures HearingAll(y, bytes[..i + 1], got[..i + 1]) == Hearing(HearingAll(y, bytes[..i], got[..i]), bytes[i], got[i])
  {
    hide Hearing;
    assert bytes[..i + 1][..i] == bytes[..i] && got[..i + 1][..i] == got[..i];
  }

  /** What the threads share. Its methods are calls that no other comes in between. */
  class Shared {
    var stopped: bool
    var shut: bool
    var queued: seq<byte>
    var written: seq<byte>
    ghost var taken: seq<byte>
    ghost var lost: nat
    ghost var xons: nat

    ghost function Model(): State
      reads this
    {
      State(stopped, shut, queued, written, [Idle], taken, lost, xons)
    }

    constructor ()
      ensures Model() == Start(1)
    {
      stopped, shut, queued, written, taken, lost, xons := false, false, [], [], [], 0, 0;
    }

    /** Writes as much as the line takes; whether that was all. */
    method Write(bytes: seq<byte>, most: nat) returns (all: bool)
      modifies `written, `lost
      ensures Model() == Wrote(old(Model()), bytes, most)
      ensures all <==> |bytes| <= most
    {
      var n := Min(most, |bytes|);
      written := written + bytes[..n];
      lost := lost + |bytes| - n;
      all := n == |bytes|;
    }

    /** Sends, or queues while the line is stopped; nothing goes through a shut gate. */
    method Transmit(bytes: seq<byte>, most: nat) returns (ok: bool)
      modifies this
      ensures Model() == Sending(old(Model()), bytes, most)
      ensures ok <==> old(shut) || old(stopped) || |bytes| <= most
    {
      hide Turns, Wrote, Next;
      SendingAlone(Model(), bytes, most);
      if shut {
        return true;
      }
      taken := taken + bytes;
      if stopped {
        queued := queued + bytes;
        return true;
      }
      ok := Write(bytes, most);
    }

    /** Starts the line again, and sends what is queued as far as it goes. */
    method Resume(most: nat)
      modifies this
      ensures Model() == Hearing(old(Model()), XON, most)
    {
      hide Wrote, Hearing;
      ResumingAlone(Model(), most);
      stopped := false;
      xons := xons + 1;
      NothingWrote(Model(), most);
      if queued != [] {
        var _ := Write(queued, most);
        queued := [];
      }
    }

    /**
     Acts on XON and XOFF, and says whether that stopped or started the line;
     what a write that failed left of the queue is gone.
     */
    method Hear(bytes: seq<byte>, got: seq<nat>, honoured: bool) returns (notice: Option<bool>)
      requires |got| == |bytes|
      modifies this
      ensures Model() == if honoured then HearingAll(old(Model()), bytes, got) else old(Model())
      ensures notice == if stopped != old(stopped) then Some(stopped) else None
    {
      if !honoured {
        return None;
      }
      hide Next, Turns, Wrote, Hearing;
      var was := stopped;
      for i := 0 to |bytes|
        invariant Model() == HearingAll(old(Model()), bytes[..i], got[..i])
      {
        HearOneMore(old(Model()), bytes, got, i);
        OtherwiseHeard(Model(), bytes[i], got[i]);
        if bytes[i] == XOFF {
          StoppingAlone(Model());
          stopped := true;
        } else if bytes[i] == XON {
          Resume(got[i]);
        }
      }
      assert bytes[..|bytes|] == bytes && got[..|got|] == got;
      notice := if stopped != was then Some(stopped) else None;
    }
  }

  lemma OtherwiseHeard(y: State, b: byte, most: nat)
    ensures b != XON && b != XOFF ==> Hearing(y, b, most) == y
    ensures b == XOFF ==> Hearing(y, b, most) == Next(y, HearsXoff(0))
  {
  }

  lemma StoppingAlone(y: State)
    requires y.threads == [Idle]
    ensures Next(y, HearsXoff(0)) == y.(stopped := true)
  {
  }

  // ------------------------------------------------------------------
  // The two characters by number
  // ------------------------------------------------------------------

  /** 0x13 stops the line, 0x11 starts it and sends what is queued, and no other byte does anything. */
  lemma HearingInNumbers(y: State, b: byte, most: nat)
    requires y.threads == [Idle]
    ensures var z := Hearing(y, b, most);
            && z.threads == [Idle]
            && z.stopped == (if b == 0x13 then true else if b == 0x11 then false else y.stopped)
            && (b != 0x11 ==> z == y.(stopped := z.stopped))
            && (b == 0x11 && most >= |y.queued| ==>
                  z.written == y.written + y.queued && z.queued == [] && z.lost == y.lost && z.xons == y.xons + 1)
  {
    hide Hearing, Next;
    OtherwiseHeard(y, b, most);
    if b == 0x13 {
      StoppingAlone(y);
    } else if b == 0x11 {
      ResumingAlone(y, most);
    }
  }

  /** Whether the line is stopped once all of these bytes were heard: the last of the two characters decides. */
  function StoppedAfter(was: bool, bytes: seq<byte>): bool {
    if bytes == [] then was
    else
      var b := bytes[|bytes| - 1];
      if b == 0x13 then true else if b == 0x11 then false else StoppedAfter(was, bytes[..|bytes| - 1])
  }

  lemma {:induction false} LastCharacterDecides(y: State, bytes: seq<byte>, got: seq<nat>)
    requires y.threads == [Idle] && |got| == |bytes|
    ensures var z := HearingAll(y, bytes, got); z.threads == [Idle] && z.stopped == StoppedAfter(y.stopped, bytes)
    decreases |bytes|
  {
    hide Hearing;
    if bytes != [] {
      var n := |bytes| - 1;
      LastCharacterDecides(y, bytes[..n], got[..n]);
      HearingInNumbers(HearingAll(y, bytes[..n], got[..n]), bytes[n], got[n]);
    }
  }
}

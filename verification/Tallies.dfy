/**
 What any packet at all does to what a receiver counts: the files it has kept,
 the tries it has used, and the answer it keeps to send again. Only the end
 of a file adds to the files, and only at a receiver that means to keep it;
 and only a packet that takes the receiver further gives it its tries back.
 */
module Tallies {
  import opened Options
  import opened Bytes
  import opened Packets
  import opened Parameters
  import opened Protocol
  import Attributes
  import Data
  import Text

  /** What is kept to send again is an answer, as it is in every state of a receiver. */
  ghost predicate KeepsAnswers(r: ReceiverState) {
    forall f | f in r.link.last :: f.packet.kind == Ack
  }

  /** What an end that has stopped has to say for it. */
  function Says(status: Status): seq<byte> {
    if status.Failed? then Wording(status.reason) else CANCELLED_WORDING
  }

  /** An error said is said by an end that has stopped, and says why. */
  ghost predicate SaysWhy(step: ReceiverStep) {
    forall f | f in step.out && f.packet.kind == Error ::
      && (step.r.status.Failed? || step.r.status.Cancelled?)
      && f == step.r.link.ErrorFrame(step.r.expected, Says(step.r.status))
  }

  /**
   The wish to stop stays; a step that takes the receiver further adds `ended`
   files and clears the tries, and one that does not leaves both; what is
   said first is an answer or an error.
   */
  ghost predicate Tallied(step: ReceiverStep, r: ReceiverState, ended: nat) {
    && (r.cancelling ==> step.r.cancelling) && (r.expected < 64 ==> step.r.expected < 64)
    && step.r.progress.files == r.progress.files + (if step.r.expected != r.expected then ended else 0)
    && step.r.link.limit == r.link.limit
    && (step.r.status == Running ==>
          step.r.link.retries == if step.r.expected != r.expected then 0 else r.link.retries)
    && (KeepsAnswers(r) ==>
          KeepsAnswers(step.r) && SaysWhy(step) && (step.out == [] || step.out[0].packet.kind in {Ack, Error}))
  }

  /** How many files a packet adds. */
  function Adds(r: ReceiverState, p: Packet): nat {
    if p.kind != EndOfFile || r.cancelling || (p.data != [] && p.data[0] == 68) then 0 else 1
  }

  lemma NumbersGoOn(n: byte)
    ensures n < 64 ==> Next(n) != n
  {
  }

  /** What is the same of a receiver that is about to stop or to answer. */
  predicate Alike(r: ReceiverState, r0: ReceiverState) {
    r.link == r0.link && r.expected == r0.expected && r.progress.files == r0.progress.files && (r0.cancelling ==> r.cancelling)
  }

  lemma StopTallies(r: ReceiverState, store: StoreState, status: Status, out: seq<Frame>, r0: ReceiverState, ended: nat)
    requires Alike(r, r0) && (status.Failed? || status.Cancelled?)
    requires out == [] || out == [r.link.ErrorFrame(r.expected, Says(status))]
    ensures Tallied(ReceiverStop(r, store, status, out), r0, ended)
  {
    hide Wording, Data.Encode;
  }

  lemma FailTallies(r: ReceiverState, store: StoreState, reason: Reason, r0: ReceiverState, ended: nat)
    requires Alike(r, r0)
    ensures Tallied(ReceiverFail(r, store, reason), r0, ended)
  {
    hide Wording, Data.Encode, Tallied, LinkState.ErrorFrame;
    StopTallies(r, store, Failed(reason), [r.link.ErrorFrame(r.expected, Wording(reason))], r0, ended);
  }

  lemma AckTallies(r: ReceiverState, store: StoreState, seqno: byte, data: seq<byte>, r0: ReceiverState, ended: nat)
    requires r.link == r0.link && r.expected == r0.expected == seqno < 64 && (r0.cancelling ==> r.cancelling)
    requires r.progress.files == r0.progress.files + ended
    ensures Tallied(AckStep(r, store, seqno, data), r0, ended)
  {
    NumbersGoOn(seqno);
  }

  lemma InitTallies(r: ReceiverState, store: StoreState, p: Packet)
    requires p.sequence == r.expected < 64
    ensures Tallied(OnSendInit(r, store, p), r, 0)
  {
    hide Block, ReadBlock, Long, Agreed, Parameters.Sending;
    NumbersGoOn(p.sequence);
  }

  lemma FileTallies(r: ReceiverState, store: StoreState, p: Packet)
    requires p.sequence == r.expected < 64
    ensures Tallied(OnFile(r, store, p), r, 0)
  {
    hide Data.Decode, ReceiverFail, AckStep, Tallied;
    var sent := Data.Decode(p.data, r.link.ReadsWith().Quoting());
    var name := r.settings.nameFor(sent);
    FailTallies(r, store, BadName(sent), r, 0);
    if name.Some? {
      if store.Refuses() {
        FailTallies(r, store.Create(name.value), StoreFailed(store.refusals[store.ops]), r, 0);
      }
      AckTallies(r.(open := true, held := false, mode := r.settings.mode, state := AwaitData,
                    progress := r.progress.(file := name, bytes := 0, size := None)),
                 store.Create(name.value), p.sequence, [], r, 0);
    }
  }

  lemma BreakTallies(r: ReceiverState, store: StoreState, p: Packet)
    requires p.sequence == r.expected < 64
    ensures Tallied(OnBreak(r, store, p), r, 0)
  {
    NumbersGoOn(p.sequence);
  }

  lemma AttributesTally(r: ReceiverState, store: StoreState, p: Packet)
    requires p.sequence == r.expected < 64
    ensures Tallied(OnAttributes(r, store, p), r, 0)
  {
    hide Attributes.ReadAll;
    NumbersGoOn(p.sequence);
  }

  lemma DataTallies(r: ReceiverState, store: StoreState, p: Packet)
    requires p.sequence == r.expected < 64
    ensures Tallied(OnData(r, store, p), r, 0)
  {
    hide Data.Decode, ReceiverFail, Converted, HeldAfter, AckStep, Tallied;
    var bytes := Data.Decode(p.data, r.link.ReadsWith().Quoting());
    var written, r' := Converted(r, bytes), r.(held := HeldAfter(r, bytes));
    AckTallies(r, store, p.sequence, [90], r, 0);
    AckTallies(r'.(progress := r.progress.(bytes := r.progress.bytes + |written|)), store.Write(written), p.sequence, [], r, 0);
    if store.Refuses() {
      FailTallies(r', store.Write(written), StoreFailed(store.refusals[store.ops]), r, 0);
    }
  }

  lemma EndedTallies(r: ReceiverState, store: StoreState, p: Packet, keep: bool, r0: ReceiverState)
    requires p.sequence == r0.expected < 64 && Alike(r, r0)
    ensures Tallied(Ended(r, store, p, keep), r0, if keep then 1 else 0)
  {
    hide ReceiverFail, AckStep, Tallied;
    var r', n := r.(open := false), if keep then 1 else 0;
    AckTallies(r'.(progress := r.progress.(files := r.progress.files + n), state := AwaitFile),
               store.Finish(keep), p.sequence, [], r0, n);
    if store.Refuses() {
      FailTallies(r', store.Finish(keep), StoreFailed(store.refusals[store.ops]), r0, n);
    }
  }

  lemma EndTallies(r: ReceiverState, store: StoreState, p: Packet)
    requires p.sequence == r.expected < 64 && p.kind == EndOfFile
    ensures Tallied(OnEndOfFile(r, store, p), r, Adds(r, p))
  {
    hide Ended, ReceiverFail, Tallied, Text.Finish;
    var cancelling := r.cancelling || (p.data != [] && p.data[0] == 68);
    var r1, tail := r.(cancelling := cancelling), Text.Finish(r.held);
    var r2 := r1.(held := false);
    EndedTallies(r1, store, p, !cancelling, r);
    EndedTallies(r2, store, p, true, r);
    EndedTallies(r2.(progress := r.progress.(bytes := r.progress.bytes + |tail|)), store.Write(tail), p, true, r);
    if store.Refuses() {
      FailTallies(r2, store.Write(tail), StoreFailed(store.refusals[store.ops]), r, Adds(r, p));
    }
  }

  /** Any packet at all, at a running receiver in any state. */
  lemma HandlingTallies(r: ReceiverState, store: StoreState, p: Packet)
    requires r.expected < 64
    ensures Tallied(ReceiverHandle(r, store, p), r, Adds(r, p))
  {
    hide Data.Decode, OnSendInit, OnFile, OnBreak, OnAttributes, OnData, OnEndOfFile, ReceiverFail, ReceiverStop, Wording;
    hide Tallied;
    FailTallies(r, store, BothReceiving, r, Adds(r, p));
    FailTallies(r, store, Unexpected(p.kind), r, Adds(r, p));
    StopTallies(r, store, Failed(FarEnd(Data.Decode(p.data, r.link.ReadsWith().Quoting()))), [], r, Adds(r, p));
    StillTallies(r, store, Adds(r, p));
    if p.sequence == r.expected {
      InitTallies(r, store, p);
      FileTallies(r, store, p);
      BreakTallies(r, store, p);
      AttributesTally(r, store, p);
      DataTallies(r, store, p);
      if p.kind == EndOfFile {
        EndTallies(r, store, p);
      }
    }
  }

  lemma StillTallies(r: ReceiverState, store: StoreState, ended: nat)
    ensures Tallied(ReceiverStep(r, store, []), r, ended)
    ensures Tallied(ReceiverStep(r.(link := r.link.Arm()), store, r.link.last), r, ended)
  {
  }

  /** Its user's wish counts nothing; a time-out is one more try, and one too many is the end. */
  lemma OwnTallies(r: ReceiverState, store: StoreState)
    ensures var step := ReceiverCancel(r, store); Tallied(step, r, 0) && step.r.expected == r.expected
    ensures var step := ReceiverTick(r, store);
            && step.r.expected == r.expected && step.r.cancelling == r.cancelling
            && step.r.progress.files == r.progress.files && step.r.link.limit == r.link.limit
            && SaysWhy(step)
            && (step.r.status == Running ==>
                  && step.r.link.retries == r.link.retries + (if r.status == Running && r.link.armed then 1 else 0)
                  && step.r.link.retries <= Max(r.link.limit, r.link.retries))
  {
    hide Wording, LinkState.ErrorFrame, Tallied;
    StillTallies(r, store, 0);
    AskedTallies(r, store);
    TickSays(r, store);
  }

  lemma AskedTallies(r: ReceiverState, store: StoreState)
    ensures Tallied(ReceiverStep(r.(cancelling := true), store, []), r, 0)
    ensures Tallied(ReceiverStop(r, store, Cancelled, [r.link.ErrorFrame(r.expected, CANCELLED_WORDING)]), r, 0)
  {
    hide Data.Encode;
    StopTallies(r, store, Cancelled, [r.link.ErrorFrame(r.expected, CANCELLED_WORDING)], r, 0);
  }

  lemma TickSays(r: ReceiverState, store: StoreState)
    ensures SaysWhy(ReceiverTick(r, store))
  {
    hide Wording, Data.Encode;
  }
}

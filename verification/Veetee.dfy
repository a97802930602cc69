/**
 Two of these ends with the parameters the program itself asks for: they meet
 everything the theorems suppose of two ends, so what the theorems say holds of
 them outright.
 */
module Veetee {
  import opened Options
  import opened Bytes
  import opened Checks
  import opened Packets
  import opened Parameters
  import opened Protocol
  import opened History
  import opened Network
  import Data
  import Text
  import SenderSide
  import ReceiverSide
  import Theorems
  import Liveness
  import OnTheWire

  predicate BothOurs(c: Setup) { c.sender.params == OURS && c.receiver.params == OURS }

  /** What such a link settles on. */
  lemma OursAgree()
    ensures Known(OURS) == OURS && Long(OURS) == Some(MAX_LONG) && OffersAttributes(OURS.capabilities)
    ensures Agreed(OURS, OURS) == OURS && Parameters.Sending(OURS, OURS) == OURS
  {
    hide Block, ReadBlock, Known, Long, OffersAttributes;
    OursIsHeard();
    OursIsLong();
  }

  lemma OursIsHeard()
    ensures Known(OURS) == OURS
  {
    hide Block, ReadBlock;
    BlockReadsBack(OURS);
  }

  lemma OursIsLong()
    ensures Long(OURS) == Some(MAX_LONG) && OffersAttributes(OURS.capabilities)
  {
    assert LastCapability(OURS.capabilities) == 0;
  }

  /** The prefixes, the room, the check and the attributes are all as a transfer needs them. */
  lemma OursAreSound(c: Setup)
    requires BothOurs(c)
    ensures c.Sound() && Liveness.Patient(c) && OnTheWire.CleanSetup(c)
    ensures c.Room() == MAX_LONG - 10 && c.CheckAgreed() == Three && c.SenderLink().long == Some(MAX_LONG)
  {
    hide ReadBlock, Block, Long, OffersAttributes, Agreed, Parameters.Sending, Known;
    OursAgree();
    assert c.SenderLink().SendsWith() == OURS && c.SenderLink().attributes;
    BlockOfOurs();
  }

  lemma BlockOfOurs()
    ensures |Block(OURS)| == 13
  {
  }

  /** A name of up to 3004 bytes crosses whole. */
  lemma NamesCross(c: Setup, i: nat)
    requires BothOurs(c) && i < |c.files| && 3 * |c.files[i].name| <= MAX_LONG - 10
    ensures c.receiver.nameFor(c.files[i].name).Some? ==> c.Expected(i).name == c.receiver.nameFor(c.files[i].name).value
  {
    hide Data.Encode, Setup.OnLine, Setup.Room, Setup.Quoting, LocalForm;
    OursAreSound(c);
    var name := c.files[i].name;
    Data.EnoughRoom(name, c.Quoting(), c.Room());
    assert name[..|name|] == name;
  }

  /**
   Between two of these ends, with nothing supposed but that they use the
   program's own parameters: in every reachable state what is complete is the
   first of the source's files, each whole.
   */
  lemma FilesArrive(c: Setup, events: seq<Event>)
    requires BothOurs(c)
    ensures var kept := ReceiverSide.Complete(Exec(c, events).store.files);
            |kept| <= |c.files| && forall j | 0 <= j < |kept| :: kept[j] == c.Expected(j)
  {
    hide Exec, Setup.Sound, Setup.Expected;
    OursAreSound(c);
    Theorems.FilesArrive(c, events);
  }

  /** And where files can be read and written and names are taken, there is a run in which every one of them arrives. */
  lemma WholeBatchArrives(c: Setup) returns (events: seq<Event>)
    requires BothOurs(c) && c.faults == map[] && c.refusals == map[] && c.sender.retries > 0
    requires forall name :: c.receiver.nameFor(name).Some?
    ensures var y := Exec(c, events);
            && y.s.status == Done && y.s.progress.files == |c.files|
            && ReceiverSide.Complete(y.store.files) == seq(|c.files|, i requires 0 <= i < |c.files| => c.Expected(i))
  {
    hide Exec, Setup.Sound, Setup.Expected, Setup.Room, Setup.ReceiverLink, Setup.SenderLink, Data.Decode;
    hide Setup.NameData;
    OursAreSound(c);
    assert Liveness.Willing(c);
    Liveness.StartRuns(c);
    events := Liveness.CanBeCompleted(c, []);
    assert [] + events == events;
    Theorems.DoneMeansDelivered(c, events);
  }
}

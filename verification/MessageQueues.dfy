/** The pipeline with the real wire format. */
module MessageQueues {
  import opened Messages
  import opened Pipeline
  import Delivery
  import Codec
  import WireTheorems

  const WIRE: Link<Message, string> := Link(Codec.Encode, Codec.Decode)

  predicate AllRepresentable(ms: seq<Message>) {
    forall i :: 0 <= i < |ms| ==> WireTheorems.Representable(ms[i])
  }

  lemma OpenWritten(m: Message)
    requires WireTheorems.Representable(m)
    ensures Open(WIRE, WIRE.write(m)) == [m]
  {
    WireTheorems.RoundTripIff(m);
  }

  lemma {:induction false} AllArrive(ms: seq<Message>)
    requires AllRepresentable(ms)
    ensures Arriving(WIRE, ms) == ms
  {
    if ms != [] {
      OpenWritten(ms[0]);
      AllArrive(ms[1..]);
      SealedLength(WIRE, ms);
      assert Sealed(WIRE, ms)[1..] == Sealed(WIRE, ms[1..]);
    }
  }

  predicate Idle(t: State<Message, string>) {
    t.sendQueue == [] && !t.dispatcher.InHand? && t.wire == [] && !t.receiver.InHand? && t.receiveQueue == []
  }

  /** Representable messages come out as they went in: at any time the pulled messages are a
      prefix of the pushed ones, and all of them when nothing is under way. */
  lemma MessagesInOrder(run: seq<Move<Message>>)
    requires Possible(WIRE, Start(), run) && AllRepresentable(Run(WIRE, Start(), run).pushed)
    ensures var t := Run(WIRE, Start(), run);
      t.pulled <= t.pushed && (Idle(t) ==> t.pulled == t.pushed)
  {
    var t := Run(WIRE, Start(), run);
    FirstInFirstOut(WIRE, run);
    AllArrive(t.pushed);
    if Idle(t) {
      IdleHasNothing(t);
    }
  }

  lemma IdleHasNothing(t: State<Message, string>)
    requires Idle(t)
    ensures Everything(WIRE, t) == t.pulled
  {
    assert Arriving(WIRE, []) == [];
  }

  /** From end to end: representable messages have been pushed, the draining stop has returned and
      the receive loop has gone on long enough.  Then all of them have come out, in order. */
  lemma EveryMessageArrives(before: seq<Move<Message>>, draining: seq<Move<Message>>, after: seq<Move<Message>>)
    requires AllRepresentable(Delivery.Pushes(before)) && NoPush(draining)
    requires Possible(WIRE, Start(), before) && Run(WIRE, Start(), before).stopper.Working?
    requires Possible(WIRE, Start(), before + ([StopWhenQueueEmpty] + draining))
    requires var t := Run(WIRE, Start(), before + ([StopWhenQueueEmpty] + draining));
      && t.stopper.Returned? && t.receiving && !t.receiver.Ended?
      && Possible(WIRE, t, after) && Delivery.NoStop(after)
      && Delivery.Receives(after, true) >= 3 * |t.wire| + 3 + Delivery.Receives(after, false)
    ensures var u := Run(WIRE, Run(WIRE, Start(), before + ([StopWhenQueueEmpty] + draining)), after);
      u.pulled + u.receiveQueue == Delivery.Pushes(before)
  {
    Delivery.EverythingArrives(WIRE, before, draining, after);
    AllArrive(Delivery.Pushes(before));
  }
}

/**
The threads of the pipeline do their work: what a producer pushes is pushed, what arrives is
received, what a consumer pulls is pulled, and every loop ends when its flag is cleared.
*/
module Delivery {
  import opened Pipeline

  // ---------------------------------------------------------------- producer and consumer

  /** What the producers push in a run, in order. */
  function Pushes<M>(run: seq<Move<M>>): seq<M> {
    if run == [] then [] else (if run[0].Push? then [run[0].msg] else []) + Pushes(run[1..])
  }

  function Pulls<M>(run: seq<Move<M>>): nat {
    if run == [] then 0 else (if run[0].Pull? then 1 else 0) + Pulls(run[1..])
  }

  lemma {:induction false} PushedInRun<M, T>(link: Link<M, T>, s: State<M, T>, run: seq<Move<M>>)
    requires Possible(link, s, run)
    ensures Run(link, s, run).pushed == s.pushed + Pushes(run)
    decreases |run|
  {
    if run != [] {
      var head := if run[0].Push? then [run[0].msg] else [];
      PushedInRun(link, Next(link, s, run[0]), run[1..]);
      PushedNext(link, s, run[0]);
      assert (s.pushed + head) + Pushes(run[1..]) == s.pushed + (head + Pushes(run[1..]));
    }
  }

  lemma PushedNext<M, T>(link: Link<M, T>, s: State<M, T>, m: Move<M>)
    requires Enabled(s, m)
    ensures Next(link, s, m).pushed == s.pushed + if m.Push? then [m.msg] else []
    ensures |Next(link, s, m).pulled| == |s.pulled| + if m.Pull? then 1 else 0
  {
  }

  lemma {:induction false} PulledInRun<M, T>(link: Link<M, T>, s: State<M, T>, run: seq<Move<M>>)
    requires Possible(link, s, run)
    ensures |Run(link, s, run).pulled| == |s.pulled| + Pulls(run)
    decreases |run|
  {
    if run != [] {
      PulledInRun(link, Next(link, s, run[0]), run[1..]);
      PushedNext(link, s, run[0]);
    }
  }

  /** A producer can push at any time, a consumer can pull exactly when something has been received,
      and the flag of the receive loop can be cleared at any time. */
  lemma AtAnyTime<M, T>(s: State<M, T>, msg: M)
    ensures Enabled(s, Push(msg)) && Enabled(s, StopReceiving)
    ensures Enabled(s, Pull) <==> s.receiveQueue != []
    ensures s.stopper.Working? ==> Enabled(s, Stop) && Enabled(s, StopWhenQueueEmpty)
  {
  }

  /** Both loops run from the start, with nothing to do yet. */
  lemma BothRun<M, T>(s: State<M, T>)
    requires s == Start()
    ensures s.sending && !s.dispatcher.Ended? && s.receiving && !s.receiver.Ended? && s.stopper.Working?
    ensures s.pushed == [] && s.sendQueue == [] && s.wire == [] && s.receiveQueue == [] && s.pulled == []
  {
  }

  /** From the start: after any run the consumer has exactly the first messages that have
      arrived, as many as it has pulled. */
  lemma PulledAre<M, T>(link: Link<M, T>, run: seq<Move<M>>)
    requires Possible(link, Start(), run)
    ensures var all := Arriving(link, Pushes(run));
      Pulls(run) <= |all| && Run(link, Start(), run).pulled == all[..Pulls(run)]
  {
    PushedInRun(link, Start(), run);
    PulledInRun(link, Start(), run);
    FirstInFirstOut(link, run);
    assert [] + Pushes(run) == Pushes(run);
  }

  // ---------------------------------------------------------------- the receive loop ends

  function ReceiverDistance<T>(r: Receiver<T>): nat {
    match r
    case Ended => 0
    case AtFlag => 1
    case InHand(_) => 2
    case AtPull => 3
  }

  /** Steps of the receive loop, with and without a text that has arrived. */
  function Receives<M>(run: seq<Move<M>>, arrived: bool): nat {
    if run == [] then 0 else (if run[0] == Receive(arrived) then 1 else 0) + Receives(run[1..], arrived)
  }

  lemma {:induction false} ClearedReceiver<M, T>(link: Link<M, T>, s: State<M, T>, run: seq<Move<M>>)
    requires Possible(link, s, run) && !s.receiving
    ensures ReceiverDistance(Run(link, s, run).receiver) + Receives(run, true) + Receives(run, false)
      <= ReceiverDistance(s.receiver)
    decreases |run|
  {
    if run != [] {
      ClearedReceiver(link, Next(link, s, run[0]), run[1..]);
    }
  }

  /** Once its flag has been cleared the receive loop takes at most three more steps, and after
      three, if not before, it has ended. */
  lemma ReceivingEnds<M, T>(link: Link<M, T>, s: State<M, T>, run: seq<Move<M>>)
    requires Possible(link, Next(link, s, StopReceiving), run)
    ensures var n := Receives(run, true) + Receives(run, false);
      n <= 3 && (n == 3 ==> Run(link, Next(link, s, StopReceiving), run).receiver.Ended?)
  {
    ClearedReceiver(link, Next(link, s, StopReceiving), run);
  }

  /** The loop can always take its next step until then. */
  lemma ReceiverNeverBlocks<M, T>(s: State<M, T>, arrived: bool)
    ensures Enabled(s, Receive(arrived)) <==> !s.receiver.Ended?
  {
  }

  // ---------------------------------------------------------------- the receive loop receives

  predicate NoStop<M>(run: seq<Move<M>>) { forall i :: 0 <= i < |run| ==> !run[i].StopReceiving? }

  /** How far the receive loop is from having dealt with everything on the wire. */
  function ArrivalDistance<M, T>(s: State<M, T>): nat {
    3 * |s.wire|
      + (match s.receiver
         case Ended => 0
         case AtFlag => 2
         case AtPull => 1
         case InHand(_) => 3)
  }

  /** A run in which the receive loop goes on and nothing more is sent. */
  ghost predicate Receiving<M, T>(link: Link<M, T>, s: State<M, T>, run: seq<Move<M>>) {
    && Possible(link, s, run) && s.receiving && !s.receiver.Ended? && NoStop(run)
    && Run(link, s, run).sent == s.sent
  }

  lemma {:induction false} SentGrows<M, T>(link: Link<M, T>, s: State<M, T>, run: seq<Move<M>>)
    requires Possible(link, s, run)
    ensures s.sent <= Run(link, s, run).sent
    decreases |run|
  {
    if run != [] {
      assert s.sent <= Next(link, s, run[0]).sent;
      SentGrows(link, Next(link, s, run[0]), run[1..]);
    }
  }

  lemma ReceivingStep<M, T>(link: Link<M, T>, s: State<M, T>, m: Move<M>)
    requires Enabled(s, m) && s.receiving && !s.receiver.Ended? && !m.StopReceiving? && Next(link, s, m).sent == s.sent
    ensures var s' := Next(link, s, m);
      && s'.receiving && !s'.receiver.Ended?
      && (Ahead(s) == [] ==> Ahead(s') == [])
      && (Ahead(s) != [] ==> ArrivalDistance(s') + (if m == Receive(true) then 1 else 0)
                             <= ArrivalDistance(s) + if m == Receive(false) then 1 else 0)
  {
    if m.Dispatch? {
      DispatchAhead(link, s);
    }
  }

  lemma ReceivingOn<M, T>(link: Link<M, T>, s: State<M, T>, run: seq<Move<M>>)
    requires Receiving(link, s, run) && run != []
    ensures Next(link, s, run[0]).sent == s.sent && !run[0].StopReceiving?
    ensures Receiving(link, Next(link, s, run[0]), run[1..])
  {
    var s' := Next(link, s, run[0]);
    SentGrows(link, s, run[..1]);
    SentGrows(link, s', run[1..]);
    assert s.sent <= s'.sent && s'.sent <= s.sent;
    assert forall i :: 0 <= i < |run[1..]| ==> run[1..][i] == run[i + 1];
    ReceivingStep(link, s, run[0]);
  }

  lemma {:induction false} NothingArrives<M, T>(link: Link<M, T>, s: State<M, T>, run: seq<Move<M>>)
    requires Receiving(link, s, run) && Ahead(s) == []
    ensures Ahead(Run(link, s, run)) == []
    decreases |run|
  {
    if run != [] {
      ReceivingOn(link, s, run);
      ReceivingStep(link, s, run[0]);
      NothingArrives(link, Next(link, s, run[0]), run[1..]);
    }
  }

  /** Every step with a text that has arrived brings the receive loop nearer to an empty wire; a
      poll that comes too early can cost it one. */
  lemma {:induction false} ReceiveProgress<M, T>(link: Link<M, T>, s: State<M, T>, run: seq<Move<M>>)
    requires Receiving(link, s, run)
    ensures var t := Run(link, s, run);
      Ahead(t) == [] || ArrivalDistance(t) + Receives(run, true) <= ArrivalDistance(s) + Receives(run, false)
    decreases |run|
  {
    if Ahead(s) == [] {
      NothingArrives(link, s, run);
    } else if run != [] {
      ReceivingOn(link, s, run);
      ReceivingStep(link, s, run[0]);
      ReceiveProgress(link, Next(link, s, run[0]), run[1..]);
    }
  }

  /** Three such steps for every text on the wire, three more, and one for every poll that came
      too early: then everything sent has been decoded, and is in the receive queue or pulled. */
  lemma ReceivingDelivers<M, T>(link: Link<M, T>, before: seq<Move<M>>, after: seq<Move<M>>)
    requires Possible(link, Start(), before) && Receiving(link, Run(link, Start(), before), after)
    requires Receives(after, true) >= 3 * |Run(link, Start(), before).wire| + 3 + Receives(after, false)
    ensures var t := Run(link, Run(link, Start(), before), after);
      && t.wire == [] && !t.receiver.InHand?
      && Opened(link, t.sent) == t.pulled + t.receiveQueue
  {
    var s := Run(link, Start(), before);
    StartKeeps(link, before);
    RunKeeps(link, s, after);
    ReceiveProgress(link, s, after);
    StillReceiving(link, s, after);
    var t := Run(link, s, after);
    assert t.pulled + t.receiveQueue + [] == t.pulled + t.receiveQueue;
  }

  lemma {:induction false} StillReceiving<M, T>(link: Link<M, T>, s: State<M, T>, run: seq<Move<M>>)
    requires Receiving(link, s, run)
    ensures !Run(link, s, run).receiver.Ended?
    decreases |run|
  {
    if run != [] {
      ReceivingOn(link, s, run);
      StillReceiving(link, Next(link, s, run[0]), run[1..]);
    }
  }

  // ---------------------------------------------------------------- stopping returns

  function StopperDistance(p: Stopper): nat {
    match p
    case Working => 4
    case Draining => 3
    case Clearing => 2
    case Joining => 1
    case Returned => 0
  }

  function StopperSteps<M>(run: seq<Move<M>>): nat {
    if run == [] then 0 else (if run[0].StopperStep? then 1 else 0) + StopperSteps(run[1..])
  }

  /** Once stop() has been called, or the draining caller faces an empty queue and nobody pushes,
      every step of the stopping thread takes it one place on. */
  lemma {:induction false} StopperRun<M, T>(link: Link<M, T>, s: State<M, T>, run: seq<Move<M>>)
    requires Possible(link, s, run) && !s.stopper.Working?
    requires s.stopper.Draining? ==> s.sendQueue == [] && NoPush(run)
    ensures StopperDistance(Run(link, s, run).stopper) + StopperSteps(run) == StopperDistance(s.stopper)
    decreases |run|
  {
    if run != [] {
      assert s.stopper.Draining? ==> !run[0].Push?;
      assert forall i :: 0 <= i < |run[1..]| ==> run[1..][i] == run[i + 1];
      StopperRun(link, Next(link, s, run[0]), run[1..]);
    }
  }

  /** stop(): two steps, the first of which clears the flag, and it has returned. */
  lemma StopReturns<M, T>(link: Link<M, T>, before: seq<Move<M>>, after: seq<Move<M>>)
    requires Possible(link, Start(), before) && Run(link, Start(), before).stopper.Working?
    requires Possible(link, Next(link, Run(link, Start(), before), Stop), after)
    ensures var t := Run(link, Next(link, Run(link, Start(), before), Stop), after);
      && StopperSteps(after) <= 2
      && (t.stopper.Returned? <==> StopperSteps(after) == 2)
      && (t.sending <==> StopperSteps(after) == 0)
  {
    var s := Run(link, Start(), before);
    var call := Next(link, s, Stop);
    StartKeeps(link, before);
    ChannelStep(link, s, Stop);
    StopsStep(link, s, Stop);
    StopperRun(link, call, after);
    RunKeeps(link, call, after);
  }

  /** And it is never stuck: until it has returned it can go on, or waits for a dispatch loop that
      can. */
  lemma StopGoesOn<M, T>(link: Link<M, T>, run: seq<Move<M>>)
    requires Possible(link, Start(), run)
    ensures var t := Run(link, Start(), run);
      !t.stopper.Working? && !t.stopper.Returned? ==> Enabled(t, StopperStep) || (!t.sending && Enabled(t, Dispatch))
  {
    StartKeeps(link, run);
  }

  // ---------------------------------------------------------------- from end to end

  lemma {:induction false} EndedSendsNothing<M, T>(link: Link<M, T>, s: State<M, T>, run: seq<Move<M>>)
    requires Possible(link, s, run) && s.dispatcher.Ended?
    ensures Run(link, s, run).sent == s.sent && Run(link, s, run).dispatcher.Ended?
    decreases |run|
  {
    if run != [] {
      EndedSendsNothing(link, Next(link, s, run[0]), run[1..]);
    }
  }

  /** Everything arrives.  A producer has pushed what it wants, the draining stop has returned,
      and the receive loop has gone on long enough: then everything that was pushed, decoded, has
      been pulled or waits in the receive queue. */
  lemma EverythingArrives<M, T>(link: Link<M, T>, before: seq<Move<M>>, draining: seq<Move<M>>, after: seq<Move<M>>)
    requires Possible(link, Start(), before) && Run(link, Start(), before).stopper.Working? && NoPush(draining)
    requires Possible(link, Start(), before + ([StopWhenQueueEmpty] + draining))
    requires var t := Run(link, Start(), before + ([StopWhenQueueEmpty] + draining));
      && t.stopper.Returned? && t.receiving && !t.receiver.Ended?
      && Possible(link, t, after) && NoStop(after)
      && Receives(after, true) >= 3 * |t.wire| + 3 + Receives(after, false)
    ensures var t := Run(link, Start(), before + ([StopWhenQueueEmpty] + draining));
      var u := Run(link, t, after);
      u.pulled + u.receiveQueue == Arriving(link, Pushes(before))
  {
    var all := before + ([StopWhenQueueEmpty] + draining);
    var t := Run(link, Start(), all);
    Split(link, Start(), before, [StopWhenQueueEmpty] + draining);
    var s := Run(link, Start(), before);
    assert ([StopWhenQueueEmpty] + draining)[1..] == draining;
    DrainingStopSendsAll(link, before, draining);
    StoppedHasSent(link, all);
    EndedSendsNothing(link, t, after);
    ReceivingDelivers(link, all, after);
    PushedInRun(link, Start(), before);
    assert [] + Pushes(before) == Pushes(before);
  }

  lemma {:induction false} Split<M, T>(link: Link<M, T>, s: State<M, T>, a: seq<Move<M>>, b: seq<Move<M>>)
    requires Possible(link, s, a + b)
    ensures Possible(link, s, a) && Possible(link, Run(link, s, a), b)
    ensures Run(link, s, a + b) == Run(link, Run(link, s, a), b)
    decreases |a|
  {
    if a == [] {
      assert a + b == b;
    } else {
      assert (a + b)[0] == a[0] && (a + b)[1..] == a[1..] + b;
      Split(link, Next(link, s, a[0]), a[1..], b);
    }
  }
}

/**
A push queue, a link and a pull queue: a producer, the dispatch thread, the wire, the receive
thread, a consumer and a thread that stops the push queue, in any interleaving.  One step is
what a thread does between two points where others can get in.  The texts on the wire are
written and read by any pair of functions.
*/
module Pipeline {
  import opened Messages

  /** How a message becomes a text, and what the receiver makes of a text. */
  datatype Link<!M, !T> = Link(write: M -> T, read: T -> Result<M>)

  /** The dispatch loop: about to test the flag, about to test the queue, about to pop, with a
      message in hand, over. */
  datatype Dispatcher<M> = AtFlag | AtTest | AtPop | InHand(msg: M) | Ended

  /** The receive loop: about to test the flag, about to pull, with a text in hand, over. */
  datatype Receiver<T> = AtFlag | AtPull | InHand(text: T) | Ended

  /** A caller of stop(): not yet, looping in stopWhenQueueEmpty(), about to clear the flag,
      waiting for the dispatch thread, returned. */
  datatype Stopper = Working | Draining | Clearing | Joining | Returned

  datatype State<M, T> = State(
    pushed: seq<M>, sendQueue: seq<M>, sending: bool, dispatcher: Dispatcher<M>,
    sent: seq<T>, wire: seq<T>,
    receiving: bool, receiver: Receiver<T>, receiveQueue: seq<M>, pulled: seq<M>,
    stopper: Stopper,
    seen: nat)  // how much had been pushed when the stopper last found the queue empty

  function Start<M, T>(): State<M, T> {
    State([], [], true, Dispatcher.AtFlag, [], [], true, Receiver.AtFlag, [], [], Working, 0)
  }

  datatype Move<M> =
    | Push(msg: M)            // PushQueue::push
    | Dispatch                // one step of the dispatch loop
    | Receive(arrived: bool)  // one step of the receive loop; whether a text has arrived by now
    | Pull                    // PullQueue::pull takes a message
    | Stop                    // stop() is called
    | StopWhenQueueEmpty      // stopWhenQueueEmpty() is called
    | StopperStep
    | StopReceiving           // the flag of the receive loop is cleared

  predicate StopperCanStep<M, T>(s: State<M, T>) {
    s.stopper.Draining? || s.stopper.Clearing? || (s.stopper.Joining? && s.dispatcher.Ended?)
  }

  predicate Enabled<M, T>(s: State<M, T>, m: Move<M>) {
    match m
    case Push(_) => true
    case Dispatch => !s.dispatcher.Ended? && (s.dispatcher.AtPop? ==> s.sendQueue != [])
    case Receive(_) => !s.receiver.Ended?
    case Pull => s.receiveQueue != []
    case Stop => s.stopper.Working?
    case StopWhenQueueEmpty => s.stopper.Working?
    case StopperStep => StopperCanStep(s)
    case StopReceiving => true
  }

  function DispatchStep<M, T>(link: Link<M, T>, s: State<M, T>): State<M, T>
    requires Enabled(s, Dispatch)
  {
    match s.dispatcher
    case AtFlag => s.(dispatcher := if s.sending then Dispatcher.AtTest else Dispatcher.Ended)
    case AtTest => s.(dispatcher := if s.sendQueue == [] then Dispatcher.AtFlag else Dispatcher.AtPop)
    case AtPop => s.(dispatcher := Dispatcher.InHand(s.sendQueue[0]), sendQueue := s.sendQueue[1..])
    case InHand(msg) =>
      var text := link.write(msg);
      s.(dispatcher := Dispatcher.AtFlag, wire := s.wire + [text], sent := s.sent + [text])
  }

  function ReceiveStep<M, T>(link: Link<M, T>, s: State<M, T>, arrived: bool): State<M, T>
    requires Enabled(s, Receive(arrived))
  {
    match s.receiver
    case AtFlag => s.(receiver := if s.receiving then AtPull else Receiver.Ended)
    case AtPull =>
      if arrived && s.wire != [] then s.(receiver := Receiver.InHand(s.wire[0]), wire := s.wire[1..])
      else s.(receiver := Receiver.AtFlag)
    case InHand(text) => s.(receiver := Receiver.AtFlag, receiveQueue := s.receiveQueue + Open(link, text))
  }

  function StopStep<M, T>(s: State<M, T>): State<M, T>
    requires Enabled(s, StopperStep)
  {
    match s.stopper
    case Draining => if s.sendQueue == [] then s.(stopper := Clearing, seen := |s.pushed|) else s
    case Clearing => s.(stopper := Joining, sending := false)
    case Joining => s.(stopper := Returned)
  }

  function Next<M, T>(link: Link<M, T>, s: State<M, T>, m: Move<M>): State<M, T>
    requires Enabled(s, m)
  {
    match m
    case Push(msg) => s.(pushed := s.pushed + [msg], sendQueue := s.sendQueue + [msg])
    case Dispatch => DispatchStep(link, s)
    case Receive(arrived) => ReceiveStep(link, s, arrived)
    case Pull => s.(receiveQueue := s.receiveQueue[1..], pulled := s.pulled + [s.receiveQueue[0]])
    case Stop => s.(stopper := Clearing)
    case StopWhenQueueEmpty => s.(stopper := Draining)
    case StopperStep => StopStep(s)
    case StopReceiving => s.(receiving := false)
  }

  predicate Possible<M, T>(link: Link<M, T>, s: State<M, T>, run: seq<Move<M>>)
    decreases |run|
  {
    run == [] || (Enabled(s, run[0]) && Possible(link, Next(link, s, run[0]), run[1..]))
  }

  function Run<M, T>(link: Link<M, T>, s: State<M, T>, run: seq<Move<M>>): State<M, T>
    requires Possible(link, s, run)
    decreases |run|
  {
    if run == [] then s else Run(link, Next(link, s, run[0]), run[1..])
  }

  // ---------------------------------------------------------------- what the link does

  /** Decode or drop. */
  function Open<M, T>(link: Link<M, T>, text: T): seq<M> {
    match link.read(text)
    case Ok(m) => [m]
    case Thrown => []
  }

  function Opened<M, T>(link: Link<M, T>, texts: seq<T>): seq<M> {
    if texts == [] then [] else Open(link, texts[0]) + Opened(link, texts[1..])
  }

  function Sealed<M, T>(link: Link<M, T>, ms: seq<M>): seq<T> {
    if ms == [] then [] else [link.write(ms[0])] + Sealed(link, ms[1..])
  }

  /** What the receiving side gets of what is pushed, in order. */
  function Arriving<M, T>(link: Link<M, T>, ms: seq<M>): seq<M> { Opened(link, Sealed(link, ms)) }

  function DispatchHand<M, T>(link: Link<M, T>, d: Dispatcher<M>): seq<T> {
    if d.InHand? then [link.write(d.msg)] else []
  }

  function ReceiveHand<T>(r: Receiver<T>): seq<T> {
    if r.InHand? then [r.text] else []
  }

  /** The texts the receiver has not dealt with, and those the dispatcher has not. */
  function Ahead<M, T>(s: State<M, T>): seq<T> { ReceiveHand(s.receiver) + s.wire }

  function Behind<M, T>(link: Link<M, T>, s: State<M, T>): seq<T> {
    DispatchHand(link, s.dispatcher) + Sealed(link, s.sendQueue)
  }

  /** The invariant: all in all this is one FIFO channel.  What is pushed has been sent or waits
      to be sent; what is sent has been handled by the receiver or waits for it. */
  ghost predicate Channel<M, T>(link: Link<M, T>, s: State<M, T>) {
    && Sealed(link, s.pushed) == s.sent + Behind(link, s)
    && Opened(link, s.sent) == (s.pulled + s.receiveQueue) + Opened(link, Ahead(s))
    && (s.dispatcher.AtPop? ==> s.sendQueue != [])
  }

  predicate Stops<M, T>(link: Link<M, T>, s: State<M, T>) {
    && s.seen <= |s.pushed|
    && s.seen <= |s.sent| + |DispatchHand(link, s.dispatcher)|
    && (s.sending <==> !s.stopper.Joining? && !s.stopper.Returned?)
    && (s.dispatcher.Ended? ==> !s.sending)
    && (s.stopper.Returned? ==> s.dispatcher.Ended?)
  }

  // ---------------------------------------------------------------- lemmas about texts

  lemma {:induction false} OpenedConcat<M, T>(link: Link<M, T>, a: seq<T>, b: seq<T>)
    ensures Opened(link, a + b) == Opened(link, a) + Opened(link, b)
  {
    if a == [] {
      assert a + b == b;
    } else {
      assert (a + b)[1..] == a[1..] + b;
      OpenedConcat(link, a[1..], b);
    }
  }

  lemma {:induction false} SealedConcat<M, T>(link: Link<M, T>, a: seq<M>, b: seq<M>)
    ensures Sealed(link, a + b) == Sealed(link, a) + Sealed(link, b)
  {
    if a == [] {
      assert a + b == b;
    } else {
      assert (a + b)[1..] == a[1..] + b;
      SealedConcat(link, a[1..], b);
    }
  }

  lemma {:induction false} SealedLength<M, T>(link: Link<M, T>, ms: seq<M>)
    ensures |Sealed(link, ms)| == |ms|
  {
    if ms != [] {
      SealedLength(link, ms[1..]);
    }
  }

  lemma SealedOne<M, T>(link: Link<M, T>, ms: seq<M>, m: M)
    ensures Sealed(link, ms + [m]) == Sealed(link, ms) + [link.write(m)]
  {
    SealedConcat(link, ms, [m]);
    assert [m][1..] == [];
  }

  lemma OpenedOne<M, T>(link: Link<M, T>, texts: seq<T>, text: T)
    ensures Opened(link, texts + [text]) == Opened(link, texts) + Open(link, text)
    ensures Opened(link, [text] + texts) == Open(link, text) + Opened(link, texts)
  {
    OpenedConcat(link, texts, [text]);
    assert [text][1..] == [];
    OpenedConcat(link, [text], texts);
  }

  // ---------------------------------------------------------------- every step keeps the channel

  lemma PushChannel<M, T>(link: Link<M, T>, s: State<M, T>, m: M)
    requires Channel(link, s)
    ensures Channel(link, Next(link, s, Push(m)))
  {
    SealedOne(link, s.pushed, m);
    SealedOne(link, s.sendQueue, m);
  }

  /** A text that goes onto the wire ... */
  lemma WireGrows<M, T>(link: Link<M, T>, sent: seq<T>, taken: seq<M>, ahead: seq<T>, text: T)
    requires Opened(link, sent) == taken + Opened(link, ahead)
    ensures Opened(link, sent + [text]) == taken + Opened(link, ahead + [text])
  {
    OpenedOne(link, sent, text);
    OpenedOne(link, ahead, text);
  }

  /** ... and one that leaves it. */
  lemma WireShrinks<M, T>(link: Link<M, T>, sent: seq<T>, taken: seq<M>, ahead: seq<T>, text: T)
    requires Opened(link, sent) == taken + Opened(link, [text] + ahead)
    ensures Opened(link, sent) == (taken + Open(link, text)) + Opened(link, ahead)
  {
    OpenedOne(link, ahead, text);
  }

  lemma TakeFirst<M, T>(link: Link<M, T>, ms: seq<M>)
    requires ms != []
    ensures Sealed(link, ms) == DispatchHand(link, Dispatcher.InHand(ms[0])) + Sealed(link, ms[1..])
  {}

  /** The dispatcher takes from the queue and puts on the wire, and loses nothing. */
  lemma DispatchBehind<M, T>(link: Link<M, T>, s: State<M, T>)
    requires Enabled(s, Dispatch)
    ensures var s' := DispatchStep(link, s);
      && s'.sent + Behind(link, s') == s.sent + Behind(link, s)
      && (s'.dispatcher.AtPop? ==> s'.sendQueue != [])
  {
    match s.dispatcher
    case AtFlag =>
    case AtTest =>
    case AtPop => TakeFirst(link, s.sendQueue);
    case InHand(msg) =>
      assert (s.sent + [link.write(msg)]) + Sealed(link, s.sendQueue)
        == s.sent + ([link.write(msg)] + Sealed(link, s.sendQueue));
  }

  lemma DispatchAhead<M, T>(link: Link<M, T>, s: State<M, T>)
    requires Enabled(s, Dispatch)
    ensures var s' := DispatchStep(link, s);
      && s'.pushed == s.pushed && s'.pulled == s.pulled && s'.receiveQueue == s.receiveQueue
      && (if s.dispatcher.InHand? then
            var text := link.write(s.dispatcher.msg);
            Ahead(s') == Ahead(s) + [text] && s'.sent == s.sent + [text]
          else Ahead(s') == Ahead(s) && s'.sent == s.sent)
  {}

  lemma DispatchChannel<M, T>(link: Link<M, T>, s: State<M, T>)
    requires Channel(link, s) && Enabled(s, Dispatch)
    ensures Channel(link, DispatchStep(link, s))
  {
    DispatchBehind(link, s);
    DispatchAhead(link, s);
    if s.dispatcher.InHand? {
      WireGrows(link, s.sent, s.pulled + s.receiveQueue, Ahead(s), link.write(s.dispatcher.msg));
    }
  }

  lemma ReceiveBehind<M, T>(link: Link<M, T>, s: State<M, T>, arrived: bool)
    requires Enabled(s, Receive(arrived))
    ensures var s' := ReceiveStep(link, s, arrived);
      && s'.pushed == s.pushed && s'.sent == s.sent && s'.sendQueue == s.sendQueue && s'.dispatcher == s.dispatcher
      && s'.pulled == s.pulled && s'.sending == s.sending && s'.stopper == s.stopper && s'.seen == s.seen
  {}

  lemma ReceiveChannel<M, T>(link: Link<M, T>, s: State<M, T>, arrived: bool)
    requires Channel(link, s) && Enabled(s, Receive(arrived))
    ensures Channel(link, ReceiveStep(link, s, arrived))
  {
    var s' := ReceiveStep(link, s, arrived);
    ReceiveBehind(link, s, arrived);
    if s.receiver.InHand? {
      var text := s.receiver.text;
      assert Ahead(s) == [text] + Ahead(s');
      WireShrinks(link, s.sent, s.pulled + s.receiveQueue, Ahead(s'), text);
      assert s'.pulled + s'.receiveQueue == (s.pulled + s.receiveQueue) + Open(link, text);
    } else {
      assert Ahead(s') == Ahead(s);
    }
  }

  lemma ChannelStep<M, T>(link: Link<M, T>, s: State<M, T>, m: Move<M>)
    requires Channel(link, s) && Enabled(s, m)
    ensures Channel(link, Next(link, s, m))
  {
    match m
    case Push(msg) => PushChannel(link, s, msg);
    case Dispatch => DispatchChannel(link, s);
    case Receive(arrived) => ReceiveChannel(link, s, arrived);
    case Pull =>
      var s' := Next(link, s, Pull);
      assert s'.pulled + s'.receiveQueue == s.pulled + s.receiveQueue;
    case _ =>
  }

  lemma StopStepStops<M, T>(link: Link<M, T>, s: State<M, T>)
    requires Channel(link, s) && Stops(link, s) && Enabled(s, StopperStep)
    ensures Stops(link, StopStep(s))
  {
    SealedLength(link, s.pushed);
    SealedLength(link, s.sendQueue);
  }

  lemma DispatchStops<M, T>(link: Link<M, T>, s: State<M, T>)
    requires Stops(link, s) && Enabled(s, Dispatch)
    ensures Stops(link, DispatchStep(link, s))
  {
    match s.dispatcher
    case AtFlag =>
    case AtTest =>
    case AtPop =>
    case InHand(_) =>
  }

  lemma StopsStep<M, T>(link: Link<M, T>, s: State<M, T>, m: Move<M>)
    requires Channel(link, s) && Stops(link, s) && Enabled(s, m)
    ensures Stops(link, Next(link, s, m))
  {
    match m
    case Push(_) =>
    case Dispatch => DispatchStops(link, s);
    case Receive(arrived) => ReceiveBehind(link, s, arrived);
    case Pull =>
    case Stop =>
    case StopWhenQueueEmpty =>
    case StopperStep => StopStepStops(link, s);
    case StopReceiving =>
  }

  lemma {:induction false} RunKeeps<M, T>(link: Link<M, T>, s: State<M, T>, run: seq<Move<M>>)
    requires Channel(link, s) && Stops(link, s) && Possible(link, s, run)
    ensures var t := Run(link, s, run); Channel(link, t) && Stops(link, t)
    decreases |run|
  {
    if run != [] {
      ChannelStep(link, s, run[0]);
      StopsStep(link, s, run[0]);
      RunKeeps(link, Next(link, s, run[0]), run[1..]);
    }
  }

  lemma StartKeeps<M, T>(link: Link<M, T>, run: seq<Move<M>>)
    requires Possible(link, Start(), run)
    ensures var t := Run(link, Start(), run); Channel(link, t) && Stops(link, t)
  {
    var s: State<M, T> := Start();
    assert Ahead(s) == [] && Behind(link, s) == [];
    RunKeeps(link, s, run);
  }

  // ---------------------------------------------------------------- main results

  function Everything<M, T>(link: Link<M, T>, t: State<M, T>): seq<M> {
    (t.pulled + t.receiveQueue)
    + ((Opened(link, ReceiveHand(t.receiver)) + Opened(link, t.wire))
       + (Opened(link, DispatchHand(link, t.dispatcher)) + Arriving(link, t.sendQueue)))
  }

  lemma ChannelIsEverything<M, T>(link: Link<M, T>, t: State<M, T>)
    requires Channel(link, t)
    ensures Arriving(link, t.pushed) == Everything(link, t) && t.pulled <= Arriving(link, t.pushed)
  {
    OpenedConcat(link, t.sent, Behind(link, t));
    OpenedConcat(link, ReceiveHand(t.receiver), t.wire);
    OpenedConcat(link, DispatchHand(link, t.dispatcher), Sealed(link, t.sendQueue));
    var ahead, behind := Opened(link, Ahead(t)), Opened(link, Behind(link, t));
    assert ((t.pulled + t.receiveQueue) + ahead) + behind == (t.pulled + t.receiveQueue) + (ahead + behind);
  }

  /** In every run the pushed messages are, in order and after decoding, the pulled ones and
      those in the receive queue, the receiver's hand, the wire, the dispatcher's hand and the
      send queue. */
  lemma FirstInFirstOut<M, T>(link: Link<M, T>, run: seq<Move<M>>)
    requires Possible(link, Start(), run)
    ensures var t := Run(link, Start(), run);
      && Arriving(link, t.pushed) == Everything(link, t)
      && t.pulled <= Arriving(link, t.pushed)
  {
    StartKeeps(link, run);
    ChannelIsEverything(link, Run(link, Start(), run));
  }

  /** The dispatch thread never blocks in wait_and_pop: it can always take its next step. */
  lemma DispatcherNeverBlocks<M, T>(link: Link<M, T>, run: seq<Move<M>>)
    requires Possible(link, Start(), run)
    ensures var t := Run(link, Start(), run); Enabled(t, Dispatch) <==> !t.dispatcher.Ended?
  {
    StartKeeps(link, run);
  }

  /** When stop() or stopWhenQueueEmpty() has returned, what has not been sent is exactly what
      is left in the queue, and everything that had been pushed when the draining caller last
      found the queue empty has been sent. */
  lemma StoppedHasSent<M, T>(link: Link<M, T>, run: seq<Move<M>>)
    requires Possible(link, Start(), run) && Run(link, Start(), run).stopper.Returned?
    ensures var t := Run(link, Start(), run);
      && t.dispatcher.Ended?
      && Sealed(link, t.pushed) == t.sent + Sealed(link, t.sendQueue)
      && (t.sent == Sealed(link, t.pushed) <==> t.sendQueue == [])
      && t.seen <= |t.pushed| && Sealed(link, t.pushed[..t.seen]) <= t.sent
  {
    StartKeeps(link, run);
    var t := Run(link, Start(), run);
    assert Behind(link, t) == Sealed(link, t.sendQueue);
    SealedLength(link, t.sendQueue);
    SealedPrefix(link, t.pushed, t.seen, t.sent, Sealed(link, t.sendQueue));
  }

  lemma SealedPrefix<M, T>(link: Link<M, T>, ms: seq<M>, n: nat, a: seq<T>, b: seq<T>)
    requires n <= |ms| && Sealed(link, ms) == a + b && n <= |a|
    ensures Sealed(link, ms[..n]) <= a
  {
    SealedConcat(link, ms[..n], ms[n..]);
    assert ms[..n] + ms[n..] == ms;
    SealedLength(link, ms[..n]);
    assert (a + b)[..n] == a[..n];
  }

  predicate NoPush<M>(run: seq<Move<M>>) { forall i :: 0 <= i < |run| ==> !run[i].Push? }

  /** A draining caller without other producers: until it returns nothing more is pushed, and
      once it has found the queue empty that is all there is. */
  ghost predicate Drains<M, T>(s: State<M, T>, all: seq<M>) {
    && s.pushed == all
    && !s.stopper.Working?
    && (!s.stopper.Draining? ==> s.seen == |all|)
  }

  lemma {:induction false} RunDrains<M, T>(link: Link<M, T>, s: State<M, T>, run: seq<Move<M>>, all: seq<M>)
    requires Possible(link, s, run) && NoPush(run) && Drains(s, all)
    ensures Drains(Run(link, s, run), all)
    decreases |run|
  {
    if run != [] {
      assert !run[0].Push?;
      assert forall i :: 0 <= i < |run[1..]| ==> run[1..][i] == run[i + 1];
      RunDrains(link, Next(link, s, run[0]), run[1..], all);
    }
  }

  /** The draining stop: with no concurrent pushes, once stopWhenQueueEmpty() has returned,
      everything that was ever pushed has been sent and the queue is empty. */
  lemma DrainingStopSendsAll<M, T>(link: Link<M, T>, before: seq<Move<M>>, after: seq<Move<M>>)
    requires Possible(link, Start(), before)
    requires var s := Run(link, Start(), before);
      s.stopper.Working? && NoPush(after) && Possible(link, Next(link, s, StopWhenQueueEmpty), after)
    requires Run(link, Next(link, Run(link, Start(), before), StopWhenQueueEmpty), after).stopper.Returned?
    ensures var s := Run(link, Start(), before);
      var t := Run(link, Next(link, s, StopWhenQueueEmpty), after);
      t.pushed == s.pushed && t.sendQueue == [] && t.sent == Sealed(link, s.pushed)
  {
    var s := Run(link, Start(), before);
    var call := Next(link, s, StopWhenQueueEmpty);
    StartKeeps(link, before);
    ChannelStep(link, s, StopWhenQueueEmpty);
    StopsStep(link, s, StopWhenQueueEmpty);
    RunKeeps(link, call, after);
    RunDrains(link, call, after, s.pushed);
    var t := Run(link, call, after);
    SealedLength(link, t.pushed);
    SealedLength(link, t.sendQueue);
  }

  // ---------------------------------------------------------------- both loops come to an end

  function DispatcherDistance<M>(d: Dispatcher<M>): nat {
    match d
    case Ended => 0
    case AtFlag => 1
    case InHand(_) => 2
    case AtPop => 3
    case AtTest => 4
  }

  /** How many steps of a run are the dispatch loop's. */
  function Dispatches<M>(run: seq<Move<M>>): nat {
    if run == [] then 0 else (if run[0].Dispatch? then 1 else 0) + Dispatches(run[1..])
  }

  lemma {:induction false} ClearedFlagRun<M, T>(link: Link<M, T>, s: State<M, T>, run: seq<Move<M>>)
    requires Possible(link, s, run) && !s.sending
    ensures DispatcherDistance(Run(link, s, run).dispatcher) + Dispatches(run) <= DispatcherDistance(s.dispatcher)
    decreases |run|
  {
    if run != [] {
      ClearedFlagRun(link, Next(link, s, run[0]), run[1..]);
    }
  }

  /** With the flag cleared the dispatch loop has at most four steps left, whatever is still
      pushed: after the fourth, if not before, it has ended. */
  lemma ClearedFlagEnds<M, T>(link: Link<M, T>, s: State<M, T>, run: seq<Move<M>>)
    requires Possible(link, s, run) && !s.sending
    ensures Dispatches(run) <= 4
    ensures Dispatches(run) == 4 ==> Run(link, s, run).dispatcher.Ended?
  {
    ClearedFlagRun(link, s, run);
  }

  /** How far the dispatcher is from having emptied the queue. */
  function DrainDistance<M, T>(s: State<M, T>): nat {
    4 * |s.sendQueue|
      + (match s.dispatcher
         case Ended => 0
         case AtFlag => 2
         case AtTest => 1
         case AtPop => 0
         case InHand(_) => 3)
  }

  lemma {:induction false} DrainProgress<M, T>(link: Link<M, T>, s: State<M, T>, run: seq<Move<M>>)
    requires Possible(link, s, run) && NoPush(run) && (s.sendQueue != [] ==> s.sending && s.stopper.Draining?)
    ensures var t := Run(link, s, run);
      t.sendQueue == [] || DrainDistance(t) + Dispatches(run) <= DrainDistance(s)
    decreases |run|
  {
    if run != [] {
      assert !run[0].Push?;
      assert forall i :: 0 <= i < |run[1..]| ==> run[1..][i] == run[i + 1];
      DrainProgress(link, Next(link, s, run[0]), run[1..]);
    }
  }

  /** A draining caller without other producers: four steps of the dispatch loop for every
      message that was in the queue, and three more, have emptied it. */
  lemma DrainingEnds<M, T>(link: Link<M, T>, before: seq<Move<M>>, after: seq<Move<M>>)
    requires Possible(link, Start(), before)
    requires var s := Run(link, Start(), before);
      && s.stopper.Working? && NoPush(after) && Possible(link, Next(link, s, StopWhenQueueEmpty), after)
      && Dispatches(after) >= 4 * |s.sendQueue| + 3
    ensures Run(link, Next(link, Run(link, Start(), before), StopWhenQueueEmpty), after).sendQueue == []
  {
    StartKeeps(link, before);
    DrainProgress(link, Next(link, Run(link, Start(), before), StopWhenQueueEmpty), after);
  }
}

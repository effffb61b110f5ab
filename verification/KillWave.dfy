/**
The kill wave.  A process that handles a kill signal passes it on and stops; its
destructors send it twice more to every child it still has a handle on.  Any traffic may
be mixed in, including sweeps that erase children and commands that create some.

The invariant counts exactly: the kill signals a child process has been sent are the ones
waiting on its link and the one it has handled.
*/
module KillWave {
  import opened NodeSpec
  import opened TreeSystem
  import opened Termination
  import Sweep

  function Kills(down: seq<Order>): nat {
    if down == [] then 0 else (if down[0].Kill? then 1 else 0) + Kills(down[1..])
  }

  /** Kill signals that have come down the link to this process. */
  function Received(t: Tree): nat {
    Kills(t.down) + if t.node.running then 0 else 1
  }

  /** A child has received what its parent has pushed to it: one kill signal from the handler,
      two from the destructors, one from the sweep that takes its handle away. */
  predicate Agrees(t: Tree, kid: Tree) {
    if !kid.attached then Received(kid) == 1 || (Received(kid) == 2 && !t.node.running)
    else Received(kid) == if t.exited then 3 else if !t.node.running then 1 else 0
  }

  predicate Inv(t: Tree)
    decreases t
  {
    && (t.exited ==> !t.node.running)
    && forall i :: 0 <= i < |t.kids| ==> Agrees(t, t.kids[i]) && Inv(t.kids[i])
  }

  predicate AllStopped(t: Tree)
    decreases t
  {
    !t.node.running && forall i :: 0 <= i < |t.kids| ==> AllStopped(t.kids[i])
  }

  /** No running process has an order left to handle. */
  predicate Delivered(t: Tree)
    decreases t
  {
    (t.node.running ==> t.down == []) && forall i :: 0 <= i < |t.kids| ==> Delivered(t.kids[i])
  }

  /** The tree before anybody has been killed. */
  predicate Untouched(t: Tree)
    decreases t
  {
    && t.node.running && !t.exited
    && forall i :: 0 <= i < |t.kids| ==>
         t.kids[i].attached && Kills(t.kids[i].down) == 0 && Untouched(t.kids[i])
  }

  lemma {:induction false} UntouchedInv(t: Tree)
    requires Untouched(t)
    ensures Inv(t)
    decreases t
  {
    forall i | 0 <= i < |t.kids| ensures Inv(t.kids[i]) {
      UntouchedInv(t.kids[i]);
    }
  }

  // ---------------------------------------------------------------- counting

  lemma {:induction false} KillsConcat(a: seq<Order>, b: seq<Order>)
    ensures Kills(a + b) == Kills(a) + Kills(b)
  {
    if a == [] {
      assert a + b == b;
    } else {
      assert (a + b)[1..] == a[1..] + b;
      KillsConcat(a[1..], b);
    }
  }

  /** Orders sent to one child. */
  lemma SentTo(kid: Tree, orders: seq<Order>)
    requires Inv(kid)
    ensures Inv(Send(kid, orders)) && Send(kid, orders).attached == kid.attached
    ensures Received(Send(kid, orders)) == Received(kid) + if kid.attached then Kills(orders) else 0
  {
    KillsConcat(kid.down, orders);
  }

  lemma {:induction false} DetachedAt(kids: seq<Tree>, erased: seq<bool>, i: nat)
    requires AttachedCount(kids) == |erased| && i < |kids|
    ensures var kid := Detach(kids, erased)[i];
      kid == kids[i] || (kids[i].attached && kid == Send(kids[i], [Kill]).(attached := false))
  {
    if i > 0 {
      DetachedAt(kids[1..], if kids[0].attached then erased[1..] else erased, i - 1);
    }
  }

  // ---------------------------------------------------------------- one move

  /** No move of a process changes how many kill signals it has received: handling one stops it. */
  lemma MoveReceives(t: Tree, m: Move)
    requires Enabled(t, m)
    ensures Received(Apply(t, m)) == Received(t) && Apply(t, m).attached == t.attached
  {
    match m
    case Count(i) =>
      assert OnResponse(t.node, t.kids[i].up[0]).node.running == t.node.running;
    case _ =>
  }

  lemma OrderKills(s: NodeState, o: Order)
    ensures var e := OnOrder(s, o);
      && e.node.running == (s.running && !o.Kill?)
      && Kills(e.down) == (if o.Kill? then 1 else 0)
  {
    var e := OnOrder(s, o);
    if e.down != [] {
      assert e.down == [o] && e.down[1..] == [];
    }
  }

  lemma TakeKid(t: Tree, t': Tree, i: nat, orders: seq<Order>)
    requires Inv(t) && t.node.running && i < |t.kids|
    requires t'.exited == t.exited && (t'.node.running <==> Kills(orders) == 0) && Kills(orders) <= 1
    ensures var kid := Send(t.kids[i], orders);
      Agrees(t', kid) && Inv(kid)
  {
    SentTo(t.kids[i], orders);
  }

  lemma TakeKeeps(t: Tree)
    requires Inv(t) && Enabled(t, Take)
    ensures Inv(ApplyTake(t))
  {
    var t' := ApplyTake(t);
    var e := OnOrder(t.node, t.down[0]);
    OrderKills(t.node, t.down[0]);
    forall i | 0 <= i < |t'.kids| ensures Agrees(t', t'.kids[i]) && Inv(t'.kids[i]) {
      if i < |t.kids| {
        TakeKid(t, t', i, e.down);
      } else {
        assert t'.kids[i] == Leaf(e.node.children[|t.node.children|].id);
        assert !t.down[0].Kill?;
      }
    }
  }

  lemma SweepKeeps(t: Tree, late: seq<bool>)
    requires Inv(t) && Enabled(t, Move.Sweep(late))
    ensures Inv(ApplySweep(t, late))
  {
    var erased := Sweep.Erased(late).value;
    var t' := ApplySweep(t, late);
    forall i | 0 <= i < |t'.kids| ensures Agrees(t', t'.kids[i]) && Inv(t'.kids[i]) {
      DetachedAt(t.kids, erased, i);
      SentTo(t.kids[i], [Kill]);
      assert [Kill][1..] == [];
    }
  }

  lemma ExitKeeps(t: Tree)
    requires Inv(t) && Enabled(t, Exit)
    ensures Inv(ApplyExit(t))
  {
    var t' := ApplyExit(t);
    forall i | 0 <= i < |t'.kids| ensures Agrees(t', t'.kids[i]) && Inv(t'.kids[i]) {
      SentTo(t.kids[i], [Kill, Kill]);
      assert [Kill, Kill][1..] == [Kill] && [Kill][1..] == [];
    }
  }

  lemma CountKeeps(t: Tree, i: nat)
    requires Inv(t) && Enabled(t, Count(i))
    ensures Inv(ApplyCount(t, i))
  {
    var t' := ApplyCount(t, i);
    assert t'.node.running == t.node.running;
    assert Inv(Pop(t.kids[i]));
  }

  lemma {:induction false} Step(t: Tree, m: Move)
    requires Inv(t) && Enabled(t, m)
    ensures Inv(Apply(t, m))
    decreases m
  {
    match m
    case Take => TakeKeeps(t);
    case Count(i) => CountKeeps(t, i);
    case Inside(i, m') =>
      Step(t.kids[i], m');
      MoveReceives(t.kids[i], m');
    case Beat(_) =>
    case Sweep(late) => SweepKeeps(t, late);
    case Exit => ExitKeeps(t);
  }

  lemma {:induction false} RunKeeps(t: Tree, ms: seq<Move>)
    requires Inv(t) && Possible(t, ms)
    ensures Inv(Run(t, ms))
    ensures Received(Run(t, ms)) == Received(t)
    decreases |ms|
  {
    if ms != [] {
      Step(t, ms[0]);
      MoveReceives(t, ms[0]);
      RunKeeps(Apply(t, ms[0]), ms[1..]);
    }
  }

  // ---------------------------------------------------------------- main results

  /** A stopped or doomed process dooms everything below it. */
  lemma {:induction false} WaveComplete(t: Tree)
    requires Inv(t) && Delivered(t) && Received(t) > 0
    ensures AllStopped(t)
    decreases t
  {
    forall i | 0 <= i < |t.kids| ensures AllStopped(t.kids[i]) {
      WaveComplete(t.kids[i]);
    }
  }

  /** Once a kill signal is on the link to a process, every run in which the orders sent have
      been delivered ends with that process and all processes ever started below it stopped. */
  lemma KillStopsSubtree(t: Tree, ms: seq<Move>)
    requires Inv(t) && Received(t) > 0 && Possible(t, ms) && Delivered(Run(t, ms))
    ensures AllStopped(Run(t, ms))
  {
    RunKeeps(t, ms);
    WaveComplete(Run(t, ms));
  }

  /** As long as a process is left, the wave can go on. */
  lemma {:induction false} WaveGoesOn(t: Tree) returns (m: Move)
    requires Inv(t) && Received(t) > 0 && !AllStopped(t)
    ensures Enabled(t, m) && HandlesOrder(m)
    decreases t
  {
    if t.node.running {
      m := Take;
    } else {
      var i :| 0 <= i < |t.kids| && !AllStopped(t.kids[i]);
      var m' := WaveGoesOn(t.kids[i]);
      m := Inside(i, m');
    }
  }

  predicate HandlesOrder(m: Move) {
    match m
    case Inside(_, m') => HandlesOrder(m')
    case Take => true
    case _ => false
  }

  /** Nothing but kill signals waits on the links downwards. */
  predicate OnlyKills(t: Tree)
    decreases t
  {
    (forall o :: o in t.down ==> o.Kill?) && forall i :: 0 <= i < |t.kids| ==> OnlyKills(t.kids[i])
  }

  /** What is left to do in a kill wave: stop and exit every process, and bring every response,
      with a report of its death for every handle, up the d links above it. */
  function WaveCost(t: Tree, d: nat): nat
    decreases t
  {
    (if t.node.running then 1 else 0) + (if t.exited then 0 else 1)
    + Times(|t.up|, d) + Times(AttachedCount(t.kids), d) + WaveCostAll(t.kids, d + 1)
  }

  function WaveCostAll(ts: seq<Tree>, d: nat): nat
    decreases ts
  {
    if ts == [] then 0 else WaveCost(ts[0], d) + WaveCostAll(ts[1..], d)
  }

  /** What the timers of a process add to that. */
  function TimerCost(m: Move, d: nat): nat {
    match m
    case Inside(_, m') => TimerCost(m', d + 1)
    case Beat(_) => d + 1
    case Sweep(_) => 1
    case _ => 0
  }

  function TimerCosts(ms: seq<Move>): nat {
    if ms == [] then 0 else TimerCost(ms[0], 0) + TimerCosts(ms[1..])
  }

  lemma {:induction false} WaveHandedOut(ts: seq<Tree>, orders: seq<Order>, d: nat)
    ensures WaveCostAll(Broadcast(ts, orders), d) == WaveCostAll(ts, d)
    ensures AttachedCount(Broadcast(ts, orders)) == AttachedCount(ts)
  {
    if ts != [] {
      assert Broadcast(ts, orders)[1..] == Broadcast(ts[1..], orders);
      WaveHandedOut(ts[1..], orders, d);
    }
  }

  lemma {:induction false} WaveUpdate(ts: seq<Tree>, i: nat, kid: Tree, d: nat)
    requires i < |ts| && kid.attached == ts[i].attached
    ensures WaveCostAll(ts[i := kid], d) == WaveCostAll(ts, d) - WaveCost(ts[i], d) + WaveCost(kid, d)
    ensures AttachedCount(ts[i := kid]) == AttachedCount(ts)
  {
    if i == 0 {
      assert ts[i := kid][1..] == ts[1..];
    } else {
      assert ts[i := kid][1..] == ts[1..][i - 1 := kid];
      WaveUpdate(ts[1..], i - 1, kid, d);
    }
  }

  /** Every handle that a sweep takes away gives one report. */
  lemma {:induction false} WaveDetached(ts: seq<Tree>, children: seq<Child>, erased: seq<bool>, d: nat)
    requires AttachedCount(ts) == |erased| == |children|
    ensures WaveCostAll(Detach(ts, erased), d) == WaveCostAll(ts, d)
    ensures AttachedCount(Detach(ts, erased)) + |Reports(children, erased)| == AttachedCount(ts)
  {
    if ts != [] {
      if ts[0].attached {
        WaveDetached(ts[1..], children[1..], erased[1..], d);
      } else {
        WaveDetached(ts[1..], children, erased, d);
      }
    }
  }

  lemma WaveTake(t: Tree, d: nat)
    requires Enabled(t, Take) && OnlyKills(t)
    ensures OnlyKills(ApplyTake(t)) && WaveCost(ApplyTake(t), d) < WaveCost(t, d)
  {
    assert t.down[0] in t.down;
    WaveHandedOut(t.kids, [Kill], d + 1);
    assert ApplyTake(t).kids == Broadcast(t.kids, [Kill]);
  }

  /** Child i is replaced. */
  lemma WaveWith(t: Tree, t': Tree, i: nat, kid: Tree, d: nat)
    requires OnlyKills(t) && i < |t.kids| && t'.kids == t.kids[i := kid] && t'.down == t.down
    requires t'.node.running == t.node.running && t'.exited == t.exited
    requires OnlyKills(kid) && kid.attached == t.kids[i].attached
    ensures OnlyKills(t')
    ensures WaveCost(t', d) + Times(|t.up|, d) + WaveCost(t.kids[i], d + 1)
      == WaveCost(t, d) + Times(|t'.up|, d) + WaveCost(kid, d + 1)
  {
    WaveUpdate(t.kids, i, kid, d + 1);
  }

  lemma PoppedCost(kid: Tree, d: nat)
    requires OnlyKills(kid) && kid.up != []
    ensures OnlyKills(Pop(kid)) && WaveCost(Pop(kid), d) + d == WaveCost(kid, d)
  {
    TimesNext(|kid.up| - 1, d);
  }

  lemma WaveCount(t: Tree, i: nat, d: nat)
    requires Enabled(t, Count(i)) && OnlyKills(t)
    ensures OnlyKills(ApplyCount(t, i)) && WaveCost(ApplyCount(t, i), d) < WaveCost(t, d)
  {
    var e := OnResponse(t.node, t.kids[i].up[0]);
    assert |e.up| <= 1 && e.node.running == t.node.running;
    PoppedCost(t.kids[i], d + 1);
    WaveWith(t, ApplyCount(t, i), i, Pop(t.kids[i]), d);
    TimesNext(|t.up|, d);
  }

  lemma WaveSweep(t: Tree, late: seq<bool>, d: nat)
    requires Enabled(t, Move.Sweep(late)) && OnlyKills(t)
    ensures OnlyKills(ApplySweep(t, late)) && WaveCost(ApplySweep(t, late), d) == WaveCost(t, d)
  {
    var erased, t' := Sweep.Erased(late).value, ApplySweep(t, late);
    WaveDetached(t.kids, t.node.children, erased, d + 1);
    TimesPlus(|t.up|, |Reports(t.node.children, erased)|, d);
    TimesPlus(AttachedCount(t'.kids), |Reports(t.node.children, erased)|, d);
    forall i | 0 <= i < |t'.kids| ensures OnlyKills(t'.kids[i]) {
      DetachedAt(t.kids, erased, i);
    }
  }

  lemma WaveExit(t: Tree, d: nat)
    requires Enabled(t, Exit) && OnlyKills(t)
    ensures OnlyKills(ApplyExit(t)) && WaveCost(ApplyExit(t), d) < WaveCost(t, d)
  {
    WaveHandedOut(t.kids, [Kill, Kill], d + 1);
  }

  lemma {:induction false} WaveStep(t: Tree, m: Move, d: nat)
    requires Enabled(t, m) && OnlyKills(t)
    ensures OnlyKills(Apply(t, m)) && WaveCost(Apply(t, m), d) < WaveCost(t, d) + TimerCost(m, d)
    decreases m
  {
    match m
    case Take => WaveTake(t, d);
    case Count(i) => WaveCount(t, i, d);
    case Inside(i, m') =>
      WaveStep(t.kids[i], m', d + 1);
      MoveReceives(t.kids[i], m');
      WaveWith(t, Apply(t, m), i, Apply(t.kids[i], m'), d);
    case Beat(_) => TimesNext(|t.up|, d);
    case Sweep(late) => WaveSweep(t, late, d);
    case Exit => WaveExit(t, d);
  }

  /** The wave is short: stopping, exiting and bringing the last responses up takes no more
      moves than the measure at its start and the heartbeats and sweeps meanwhile allow. */
  lemma {:induction false} WaveEnds(t: Tree, ms: seq<Move>)
    requires Possible(t, ms) && OnlyKills(t)
    ensures |ms| + WaveCost(Run(t, ms), 0) <= WaveCost(t, 0) + TimerCosts(ms)
    decreases |ms|
  {
    if ms != [] {
      WaveStep(t, ms[0], 0);
      WaveEnds(Apply(t, ms[0]), ms[1..]);
    }
  }

  /** The link into every child process: how many kill signals have been pushed on it. */
  predicate LinksAtMost(t: Tree, n: nat)
    decreases t
  {
    forall i :: 0 <= i < |t.kids| ==> Received(t.kids[i]) <= n && LinksAtMost(t.kids[i], n)
  }

  lemma {:induction false} ThreeSuffice(t: Tree)
    requires Inv(t)
    ensures LinksAtMost(t, 3)
    decreases t
  {
    forall i | 0 <= i < |t.kids| ensures LinksAtMost(t.kids[i], 3) {
      ThreeSuffice(t.kids[i]);
    }
  }

  /** At no time in any run have more than three kill signals crossed a link below the root. */
  lemma AtMostThreeKills(t: Tree, ms: seq<Move>)
    requires Inv(t) && Possible(t, ms)
    ensures LinksAtMost(Run(t, ms), 3)
  {
    RunKeeps(t, ms);
    ThreeSuffice(Run(t, ms));
  }

  /** How many kill signals have crossed the link to each child: none while the parent runs, one
      when it has stopped, three when it has exited; a child whose handle was erased has got the
      one of its handle, and that of the handler if both fell into the last pass of the loop. */
  predicate LinksExact(t: Tree)
    decreases t
  {
    forall i :: 0 <= i < |t.kids| ==>
      && LinksExact(t.kids[i])
      && if t.kids[i].attached then Received(t.kids[i]) == if t.exited then 3 else if t.node.running then 0 else 1
         else Received(t.kids[i]) == 1 || (Received(t.kids[i]) == 2 && !t.node.running)
  }

  lemma {:induction false} InvExact(t: Tree)
    requires Inv(t)
    ensures LinksExact(t)
    decreases t
  {
    forall i | 0 <= i < |t.kids| ensures LinksExact(t.kids[i]) {
      InvExact(t.kids[i]);
    }
  }

  /** In every run of a tree in which nobody has been killed yet. */
  lemma KillsExactly(t: Tree, ms: seq<Move>)
    requires Untouched(t) && Possible(t, ms)
    ensures LinksExact(Run(t, ms))
  {
    UntouchedInv(t);
    RunKeeps(t, ms);
    InvExact(Run(t, ms));
  }

  predicate AllExited(t: Tree)
    decreases t
  {
    t.exited && forall i :: 0 <= i < |t.kids| ==> AllExited(t.kids[i])
  }

  /** The move stops a process or is its exit. */
  predicate StopsOne(m: Move) {
    match m
    case Inside(_, m') => StopsOne(m')
    case Take => true
    case Exit => true
    case _ => false
  }

  /** Until every process has exited, some process can handle an order or exit. */
  lemma {:induction false} ExitGoesOn(t: Tree) returns (m: Move)
    requires Inv(t) && Received(t) > 0 && !AllExited(t)
    ensures Enabled(t, m) && StopsOne(m)
    decreases t
  {
    if t.node.running {
      m := Take;
    } else if !t.exited {
      m := Exit;
    } else {
      var i :| 0 <= i < |t.kids| && !AllExited(t.kids[i]);
      var m' := ExitGoesOn(t.kids[i]);
      m := Inside(i, m');
    }
  }

  /** The process reached over these positions has been started and has stopped. */
  predicate StoppedAt(t: Tree, way: seq<nat>)
    decreases way
  {
    if way == [] then !t.node.running else way[0] < |t.kids| && StoppedAt(t.kids[way[0]], way[1..])
  }

  /** The move is the kill handler of that process. */
  predicate KillAt(t: Tree, m: Move, way: seq<nat>)
    requires Enabled(t, m)
    decreases way
  {
    if way == [] then m.Take? && t.down[0].Kill?
    else m.Inside? && m.i == way[0] && KillAt(t.kids[m.i], m.m, way[1..])
  }

  function KillsAt(t: Tree, ms: seq<Move>, way: seq<nat>): nat
    requires Possible(t, ms)
    decreases |ms|
  {
    if ms == [] then 0 else (if KillAt(t, ms[0], way) then 1 else 0) + KillsAt(Apply(t, ms[0]), ms[1..], way)
  }

  /** Messages and handles aside, the same process with the same processes below it. */
  predicate SameProcess(t: Tree, t': Tree) {
    t'.node.running == t.node.running && t'.kids == t.kids
  }

  /** A move of a process does nothing to the processes below it but start one. */
  lemma KidsAsBefore(t: Tree, m: Move, i: nat)
    requires Enabled(t, m) && !m.Inside?
    ensures var t' := Apply(t, m);
      if i < |t.kids| then i < |t'.kids| && SameProcess(t.kids[i], t'.kids[i])
      else i < |t'.kids| ==> t'.kids[i].node.running && t'.kids[i].kids == []
  {
    if m.Sweep? && i < |t.kids| {
      DetachedAt(t.kids, Sweep.Erased(m.late).value, i);
    }
  }

  lemma RootStops(t: Tree, m: Move)
    requires Enabled(t, m)
    ensures !Apply(t, m).node.running <==> !t.node.running || (m.Take? && t.down[0].Kill?)
    ensures m.Take? ==> t.node.running
  {
    if m.Count? {
      assert OnResponse(t.node, t.kids[m.i].up[0]).node.running == t.node.running;
    }
  }

  lemma SameStopped(t: Tree, t': Tree, way: seq<nat>)
    requires SameProcess(t, t')
    ensures StoppedAt(t', way) == StoppedAt(t, way)
  {
  }

  lemma NewRuns(t: Tree, way: seq<nat>)
    requires t.node.running && t.kids == []
    ensures !StoppedAt(t, way)
  {
  }

  /** A process stops by its kill handler only, and a stopped one runs no handler. */
  lemma {:induction false} StopsByKill(t: Tree, m: Move, way: seq<nat>)
    requires Enabled(t, m)
    ensures StoppedAt(Apply(t, m), way) <==> StoppedAt(t, way) || KillAt(t, m, way)
    ensures !(StoppedAt(t, way) && KillAt(t, m, way))
    decreases way
  {
    if way == [] {
      RootStops(t, m);
    } else if m.Inside? {
      if m.i == way[0] {
        StopsByKill(t.kids[m.i], m.m, way[1..]);
      }
    } else {
      KidsAsBefore(t, m, way[0]);
      if way[0] < |t.kids| {
        SameStopped(t.kids[way[0]], Apply(t, m).kids[way[0]], way[1..]);
      } else if way[0] < |Apply(t, m).kids| {
        NewRuns(Apply(t, m).kids[way[0]], way[1..]);
      }
    }
  }

  /** Every process runs its kill handler at most once in any run, and it does so in the run
      exactly if it had not stopped before and has stopped afterwards. */
  lemma {:induction false} KilledOnce(t: Tree, ms: seq<Move>, way: seq<nat>)
    requires Possible(t, ms)
    ensures KillsAt(t, ms, way) == if StoppedAt(Run(t, ms), way) && !StoppedAt(t, way) then 1 else 0
    ensures StoppedAt(t, way) ==> StoppedAt(Run(t, ms), way)
    decreases |ms|
  {
    if ms != [] {
      StopsByKill(t, ms[0], way);
      KilledOnce(Apply(t, ms[0]), ms[1..], way);
    }
  }
}

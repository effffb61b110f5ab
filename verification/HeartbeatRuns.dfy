/**
The heartbeat events are what the handlers do: every run of a tree is, at its root, a
history of starts, heartbeats and sweeps, so that what is late and what is erased in the
run is judged by the heartbeats that the children have really sent.
*/
module HeartbeatRuns {
  import opened Messages
  import opened NodeSpec
  import opened TreeSystem
  import opened Heartbeats
  import DeathReports
  import Sweep

  // ---------------------------------------------------------------- the handler

  /** Child i is the first one with the id. */
  predicate FirstWith(children: seq<Child>, id: nat, i: nat)
    requires i < |children|
  {
    children[i].id == id && forall j :: 0 <= j < i ==> children[j].id != id
  }

  lemma {:induction false} StampFirst(children: seq<Child>, id: nat, time: int, i: nat)
    requires i < |children|
    ensures Stamp(children, id, time)[i].lastBeat == if FirstWith(children, id, i) then time else children[i].lastBeat
  {
    if i > 0 && children[0].id != id {
      StampFirst(children[1..], id, time, i - 1);
      assert FirstWith(children, id, i) <==> FirstWith(children[1..], id, i - 1) by {
        assert forall j :: 0 < j < i ==> children[j] == children[1..][j - 1];
      }
    }
  }

  /** Handling a heartbeat: the first child with the id gets its time, every other child keeps
      the one it had, and nothing else changes or is sent. */
  lemma BeatHandled(s: NodeState, id: nat, time: int)
    ensures LookupOk(s, Heartbeat(id, time))
    ensures var e := OnResponse(s, Heartbeat(id, time));
      && e.up == [] && e.down == [] && e.node == s.(children := e.node.children)
      && |e.node.children| == |s.children|
      && forall i :: 0 <= i < |s.children| ==>
           && e.node.children[i].id == s.children[i].id && e.node.children[i].pid == s.children[i].pid
           && e.node.children[i].lastBeat == if FirstWith(s.children, id, i) then time else s.children[i].lastBeat
  {
    var e := OnResponse(s, Heartbeat(id, time));
    forall i | 0 <= i < |s.children|
      ensures e.node.children[i].lastBeat == if FirstWith(s.children, id, i) then time else s.children[i].lastBeat
    {
      StampFirst(s.children, id, time, i);
    }
  }

  // ---------------------------------------------------------------- events are handlers

  lemma HandledIsHandler(s: NodeState, es: seq<Event>, id: nat, period: int)
    requires Heartbeats.Possible(es, s.children, Handled(id), period)
    ensures Next(es, s.children, Handled(id), period)
      == OnResponse(s, Heartbeat(id, Beats(es, id)[HandledCount(es, id)])).node.children
  {
  }

  /** A create command that the process accepts and whose fork works. */
  lemma StartedIsHandler(s: NodeState, es: seq<Event>, id: nat, pid: nat, at: int, period: int)
    requires id != s.id
    ensures Next(es, s.children, Event.Started(id, pid, at), period)
      == OnOrder(s, Do(Create(id, s.id), Forked(pid, at))).node.children
  {
  }

  lemma CheckedIsSweep(t: Tree, es: seq<Event>, clock: seq<int>, period: int)
    requires |clock| == |t.node.children| && Enabled(t, Move.Sweep(Late(t.node.children, clock, period)))
    ensures Heartbeats.Possible(es, t.node.children, Checked(clock), period)
    ensures Next(es, t.node.children, Checked(clock), period)
      == Apply(t, Move.Sweep(Late(t.node.children, clock, period))).node.children
  {
  }

  // ---------------------------------------------------------------- runs

  /** A move of a tree; when it is a sweep of the root, with the clock readings. */
  datatype Timed = Timed(m: Move, clock: seq<int>)

  predicate Fits(t: Tree, x: Timed, period: int) {
    && Enabled(t, x.m)
    && (x.m.Sweep? ==> |x.clock| == |t.node.children| && x.m.late == Late(t.node.children, x.clock, period))
  }

  predicate TimedRun(t: Tree, xs: seq<Timed>, period: int)
    decreases |xs|
  {
    xs != [] ==> Fits(t, xs[0], period) && TimedRun(Apply(t, xs[0].m), xs[1..], period)
  }

  function After(t: Tree, xs: seq<Timed>, period: int): Tree
    requires TimedRun(t, xs, period)
    decreases |xs|
  {
    if xs == [] then t else After(Apply(t, xs[0].m), xs[1..], period)
  }

  /** What a move is to the root and to the links from its children. */
  function EventOf(t: Tree, x: Timed): seq<Event>
    requires Enabled(t, x.m)
  {
    match x.m
    case Take =>
      (match t.down[0]
       case Do(Create(id, parentId), Forked(pid, at)) =>
         if id != t.node.id && parentId == t.node.id then [Event.Started(id, pid, at)] else []
       case _ => [])
    case Count(i) => if t.kids[i].up[0].Heartbeat? then [Handled(t.kids[i].up[0].id)] else []
    case Inside(i, Beat(time)) => [Sent(t.kids[i].node.id, time)]
    case Sweep(_) => [Checked(x.clock)]
    case _ => []
  }

  function Events(t: Tree, xs: seq<Timed>, period: int): seq<Event>
    requires TimedRun(t, xs, period)
    decreases |xs|
  {
    if xs == [] then [] else EventOf(t, xs[0]) + Events(Apply(t, xs[0].m), xs[1..], period)
  }

  /** Every event can happen, at whatever point the other processes are: a running node can send, a
      response at the head of a link that finds its record can be handled, a create command at the
      head of the link from above can start a child, and a sweep is possible exactly if it does not
      step past the end of the list. */
  lemma EventsHappen(t: Tree, i: nat, m: Move, time: int, clock: seq<int>, es: seq<Event>, period: int)
    requires i < |t.kids|
    ensures t.kids[i].node.running && !t.kids[i].node.manager ==>
      && Fits(t, Timed(Inside(i, Beat(time)), []), period)
      && EventOf(t, Timed(Inside(i, Beat(time)), [])) == [Sent(t.kids[i].node.id, time)]
    ensures t.node.running && t.kids[i].up != [] && LookupOk(t.node, t.kids[i].up[0]) ==>
      Fits(t, Timed(Count(i), []), period)
    ensures t.node.running && t.kids[i].up != [] && t.kids[i].up[0].Heartbeat? ==>
      Fits(t, Timed(Count(i), []), period) && EventOf(t, Timed(Count(i), [])) == [Handled(t.kids[i].up[0].id)]
    ensures Enabled(t.kids[i], m) ==> Fits(t, Timed(Inside(i, m), []), period)
    ensures t.node.running && t.down != [] ==> Fits(t, Timed(Take, []), period)
    ensures !t.exited && |clock| == |t.node.children| == AttachedCount(t.kids) ==>
      (Fits(t, Timed(Move.Sweep(Late(t.node.children, clock, period)), clock), period)
       <==> Heartbeats.Possible(es, t.node.children, Checked(clock), period))
  {
  }

  // ---------------------------------------------------------------- the links from the children

  /** The times of the heartbeats on a link, in order. */
  function Times(up: seq<Response>): seq<int> {
    if up == [] then [] else (if up[0].Heartbeat? then [up[0].time] else []) + Times(up[1..])
  }

  lemma {:induction false} TimesConcat(a: seq<Response>, b: seq<Response>)
    ensures Times(a + b) == Times(a) + Times(b)
  {
    if a == [] {
      assert a + b == b;
    } else {
      var head := if a[0].Heartbeat? then [a[0].time] else [];
      assert (a + b)[1..] == a[1..] + b && (a + b)[0] == a[0];
      TimesConcat(a[1..], b);
      assert Times(a + b) == head + (Times(a[1..]) + Times(b));
      assert head + (Times(a[1..]) + Times(b)) == (head + Times(a[1..])) + Times(b);
    }
  }

  lemma {:induction false} NoTimes(up: seq<Response>)
    requires forall r :: r in up ==> !r.Heartbeat?
    ensures Times(up) == []
  {
    if up != [] {
      NoTimes(up[1..]);
    }
  }

  /** What a move of a process adds to its link: its heartbeat, if that is the move. */
  lemma LinkGains(t: Tree, m: Move) returns (more: seq<Response>)
    requires Enabled(t, m)
    ensures var t' := Apply(t, m);
      && t'.up == t.up + more && t'.node.id == t.node.id
      && (if m.Beat? then more == [Heartbeat(t.node.id, m.time)] else forall r :: r in more ==> !r.Heartbeat?)
  {
    match m
    case Take =>
      more := OnOrder(t.node, t.down[0]).up;
      DeathReports.OrderBeats(t.node, t.down[0]);
    case Count(i) =>
      more := OnResponse(t.node, t.kids[i].up[0]).up;
    case Inside(_, _) =>
      more := [];
    case Beat(time) =>
      more := [Heartbeat(t.node.id, time)];
    case Sweep(late) =>
      more := Reports(t.node.children, Sweep.Erased(late).value);
      DeathReports.ReportsNoBeats(t.node.children, Sweep.Erased(late).value);
    case Exit =>
      more := [];
  }

  /** The heartbeats on a link are those that have been sent and not handled, in order. */
  ghost predicate LinkOk(kid: Tree, es: seq<Event>) {
    var id := kid.node.id;
    && HasStarted(es, id)
    && HandledCount(es, id) <= |Beats(es, id)|
    && Times(kid.up) == Beats(es, id)[HandledCount(es, id)..]
    && forall r :: r in kid.up && r.Heartbeat? ==> r.id == id
  }

  predicate DistinctKids(kids: seq<Tree>) {
    forall i, j :: 0 <= i < j < |kids| ==> kids[i].node.id != kids[j].node.id
  }

  /** The events so far and the root agree. */
  ghost predicate Agrees(t: Tree, es: seq<Event>, period: int) {
    && History(es, period) && ChildrenAfter(es, period) == t.node.children
    && DistinctKids(t.kids)
    && (forall i :: 0 <= i < |t.kids| ==> LinkOk(t.kids[i], es))
    && (forall e :: e in es && (e.Sent? || e.Handled?) ==> HasStarted(es, e.id))
  }

  lemma HistoryGrows(es: seq<Event>, e: Event, period: int)
    requires History(es, period) && Heartbeats.Possible(es, ChildrenAfter(es, period), e, period)
    ensures History(es + [e], period)
    ensures ChildrenAfter(es + [e], period) == Next(es, ChildrenAfter(es, period), e, period)
  {
    assert (es + [e])[..|es|] == es;
  }

  lemma KnownIds(es: seq<Event>, e: Event)
    requires forall x :: x in es && (x.Sent? || x.Handled?) ==> HasStarted(es, x.id)
    requires e.Sent? || e.Handled? ==> HasStarted(es, e.id)
    ensures forall x :: x in es + [e] && (x.Sent? || x.Handled?) ==> HasStarted(es + [e], x.id)
  {
    forall x | x in es + [e] && (x.Sent? || x.Handled?) ensures HasStarted(es + [e], x.id) {
      StartsStay(es, e, x.id, 0);
    }
  }

  /** A link that an event does not concern. */
  lemma LinkStays(kid: Tree, kid': Tree, es: seq<Event>, e: Event)
    requires LinkOk(kid, es) && kid'.up == kid.up && kid'.node.id == kid.node.id
    requires (e.Sent? || e.Handled?) ==> e.id != kid.node.id
    ensures LinkOk(kid', es + [e])
  {
    OneMoreEvent(es, e, kid.node.id);
    StartsStay(es, e, kid.node.id, 0);
  }

  lemma {:induction false} NeverSent(es: seq<Event>, id: nat)
    requires forall e :: e in es && (e.Sent? || e.Handled?) ==> e.id != id
    ensures Beats(es, id) == [] && HandledCount(es, id) == 0
  {
    if es != [] {
      var before, e := es[..|es| - 1], es[|es| - 1];
      assert forall x :: x in before ==> x in es;
      NeverSent(before, id);
    }
  }

  // ---------------------------------------------------------------- moves

  /** A move that is no event. */
  lemma NoEvent(t: Tree, t': Tree, es: seq<Event>, period: int)
    requires Agrees(t, es, period) && t'.node.children == t.node.children && |t'.kids| == |t.kids|
    requires forall i :: 0 <= i < |t.kids| ==>
      && t'.kids[i].node.id == t.kids[i].node.id && Times(t'.kids[i].up) == Times(t.kids[i].up)
      && forall r :: r in t'.kids[i].up && r.Heartbeat? ==> r in t.kids[i].up || r.id == t.kids[i].node.id
    ensures Agrees(t', es, period)
  {
    forall i | 0 <= i < |t.kids| ensures LinkOk(t'.kids[i], es) {
      assert LinkOk(t.kids[i], es);
    }
  }

  /** A started child is new. */
  lemma NewId(es: seq<Event>, e: Event)
    requires e.Started? && DistinctIds(es + [e])
    ensures !HasStarted(es, e.id)
  {
    forall k | 0 <= k < |es| && es[k].Started? ensures es[k].id != e.id {
      assert (es + [e])[k] == es[k] && (es + [e])[|es|] == e;
    }
  }

  lemma StartStep(t: Tree, t': Tree, es: seq<Event>, e: Event, period: int)
    requires Agrees(t, es, period) && e.Started? && DistinctIds(es + [e])
    requires t'.node.children == Next(es, t.node.children, e, period)
    requires |t'.kids| == |t.kids| + 1 && t'.kids[|t.kids|] == Leaf(e.id)
    requires forall i :: 0 <= i < |t.kids| ==> t'.kids[i].node.id == t.kids[i].node.id && t'.kids[i].up == t.kids[i].up
    ensures Agrees(t', es + [e], period)
  {
    NewId(es, e);
    HistoryGrows(es, e, period);
    KnownIds(es, e);
    forall i | 0 <= i < |t'.kids| ensures LinkOk(t'.kids[i], es + [e]) {
      if i < |t.kids| {
        LinkStays(t.kids[i], t'.kids[i], es, e);
      } else {
        assert (es + [e])[|es|] == e;
        NeverSent(es, e.id);
        OneMoreEvent(es, e, e.id);
      }
    }
    assert forall i :: 0 <= i < |t.kids| ==> LinkOk(t.kids[i], es);
  }

  lemma TakeAgrees(t: Tree, es: seq<Event>, period: int)
    requires Agrees(t, es, period) && Enabled(t, Take) && DistinctIds(es + EventOf(t, Timed(Take, [])))
    ensures Agrees(ApplyTake(t), es + EventOf(t, Timed(Take, [])), period)
  {
    var t', ev := ApplyTake(t), EventOf(t, Timed(Take, []));
    if ev != [] {
      var id, pid, at := ev[0].id, ev[0].pid, ev[0].at;
      StartedIsHandler(t.node, es, id, pid, at, period);
      assert OnOrder(t.node, t.down[0]).node.children == t.node.children + [Child(id, pid, at)];
      StartStep(t, t', es, ev[0], period);
    } else {
      TakeNoChild(t);
      NoEvent(t, t', es, period);
      assert es + [] == es;
    }
  }

  lemma TakeNoChild(t: Tree)
    requires Enabled(t, Take) && EventOf(t, Timed(Take, [])) == []
    ensures ApplyTake(t).node.children == t.node.children && |ApplyTake(t).kids| == |t.kids|
  {
  }

  lemma HandleStep(t: Tree, i: nat, es: seq<Event>, period: int)
    requires Agrees(t, es, period) && Enabled(t, Count(i)) && t.kids[i].up[0].Heartbeat?
    ensures Agrees(ApplyCount(t, i), es + [Handled(t.kids[i].up[0].id)], period)
  {
    var kid, t' := t.kids[i], ApplyCount(t, i);
    var id, time, e := kid.up[0].id, kid.up[0].time, Handled(kid.up[0].id);
    assert LinkOk(kid, es) && kid.up[0] in kid.up;
    assert Times(kid.up) == [time] + Times(kid.up[1..]);
    assert Beats(es, id)[HandledCount(es, id)] == Beats(es, id)[HandledCount(es, id)..][0] == time;
    HandledIsHandler(t.node, es, id, period);
    HistoryGrows(es, e, period);
    KnownIds(es, e);
    forall k | 0 <= k < |t.kids| ensures LinkOk(t'.kids[k], es + [e]) {
      assert LinkOk(t.kids[k], es);
      if k != i {
        LinkStays(t.kids[k], t'.kids[k], es, e);
      } else {
        PopLink(kid, es);
      }
    }
  }

  lemma PopLink(kid: Tree, es: seq<Event>)
    requires LinkOk(kid, es) && kid.up != [] && kid.up[0].Heartbeat?
    ensures LinkOk(Pop(kid), es + [Handled(kid.node.id)])
  {
    var id := kid.node.id;
    OneMoreEvent(es, Handled(id), id);
    StartsStay(es, Handled(id), id, 0);
    assert Times(kid.up)[1..] == Times(kid.up[1..]);
    assert Beats(es, id)[HandledCount(es, id)..][1..] == Beats(es, id)[HandledCount(es, id) + 1..];
  }

  lemma CountAgrees(t: Tree, i: nat, es: seq<Event>, period: int)
    requires Agrees(t, es, period) && Enabled(t, Count(i))
    ensures Agrees(ApplyCount(t, i), es + EventOf(t, Timed(Count(i), [])), period)
  {
    if t.kids[i].up[0].Heartbeat? {
      HandleStep(t, i, es, period);
    } else {
      CountNoBeat(t, i);
      NoEvent(t, ApplyCount(t, i), es, period);
      assert es + [] == es;
    }
  }

  lemma CountNoBeat(t: Tree, i: nat)
    requires Enabled(t, Count(i)) && !t.kids[i].up[0].Heartbeat?
    ensures ApplyCount(t, i).node.children == t.node.children && Times(t.kids[i].up[1..]) == Times(t.kids[i].up)
  {
  }

  lemma SentStep(t: Tree, t': Tree, i: nat, time: int, es: seq<Event>, period: int)
    requires Agrees(t, es, period) && i < |t.kids|
    requires t'.node == t.node && |t'.kids| == |t.kids| && t'.kids == t.kids[i := t'.kids[i]]
    requires t'.kids[i].node.id == t.kids[i].node.id
    requires t'.kids[i].up == t.kids[i].up + [Heartbeat(t.kids[i].node.id, time)]
    ensures Agrees(t', es + [Sent(t.kids[i].node.id, time)], period)
  {
    var kid := t.kids[i];
    var id, e := kid.node.id, Sent(kid.node.id, time);
    assert LinkOk(kid, es);
    HistoryGrows(es, e, period);
    KnownIds(es, e);
    forall k | 0 <= k < |t.kids| ensures LinkOk(t'.kids[k], es + [e]) {
      assert LinkOk(t.kids[k], es);
      if k != i {
        LinkStays(t.kids[k], t'.kids[k], es, e);
      } else {
        SentLink(kid, t'.kids[i], time, es);
      }
    }
  }

  lemma SentLink(kid: Tree, kid': Tree, time: int, es: seq<Event>)
    requires LinkOk(kid, es) && kid'.node.id == kid.node.id && kid'.up == kid.up + [Heartbeat(kid.node.id, time)]
    ensures LinkOk(kid', es + [Sent(kid.node.id, time)])
  {
    var id := kid.node.id;
    OneMoreEvent(es, Sent(id, time), id);
    StartsStay(es, Sent(id, time), id, 0);
    TimesConcat(kid.up, [Heartbeat(id, time)]);
    assert [Heartbeat(id, time)][1..] == [];
    assert (Beats(es, id) + [time])[HandledCount(es, id)..] == Beats(es, id)[HandledCount(es, id)..] + [time];
  }

  lemma InsideAgrees(t: Tree, i: nat, m: Move, es: seq<Event>, period: int)
    requires Agrees(t, es, period) && Enabled(t, Inside(i, m))
    ensures Agrees(Apply(t, Inside(i, m)), es + EventOf(t, Timed(Inside(i, m), [])), period)
  {
    var t', kid := Apply(t, Inside(i, m)), t.kids[i];
    var more := LinkGains(kid, m);
    if m.Beat? {
      SentStep(t, t', i, m.time, es, period);
    } else {
      NoTimes(more);
      TimesConcat(kid.up, more);
      NoEvent(t, t', es, period);
      assert es + [] == es;
    }
  }

  lemma SweepAgrees(t: Tree, x: Timed, es: seq<Event>, period: int)
    requires Agrees(t, es, period) && Fits(t, x, period) && x.m.Sweep?
    ensures Agrees(Apply(t, x.m), es + [Checked(x.clock)], period)
  {
    var t', e := Apply(t, x.m), Checked(x.clock);
    CheckedIsSweep(t, es, x.clock, period);
    HistoryGrows(es, e, period);
    KnownIds(es, e);
    forall i | 0 <= i < |t.kids|
      ensures t'.kids[i].node == t.kids[i].node && t'.kids[i].up == t.kids[i].up && LinkOk(t'.kids[i], es + [e])
    {
      DeathReports.DetachSame(t.kids, Sweep.Erased(x.m.late).value, i);
      DeathReports.DetachNode(t.kids, Sweep.Erased(x.m.late).value, i);
      LinkStays(t.kids[i], t'.kids[i], es, e);
    }
  }

  lemma StepAgrees(t: Tree, x: Timed, es: seq<Event>, period: int)
    requires Agrees(t, es, period) && Fits(t, x, period) && DistinctIds(es + EventOf(t, x))
    ensures Agrees(Apply(t, x.m), es + EventOf(t, x), period)
  {
    match x.m
    case Take => TakeAgrees(t, es, period);
    case Count(i) => CountAgrees(t, i, es, period);
    case Inside(i, m) => InsideAgrees(t, i, m, es, period);
    case Sweep(_) => SweepAgrees(t, x, es, period);
    case Beat(_) =>
      NoEvent(t, Apply(t, x.m), es, period);
      assert es + [] == es;
    case Exit =>
      NoEvent(t, Apply(t, x.m), es, period);
      assert es + [] == es;
  }

  lemma DistinctBefore(a: seq<Event>, b: seq<Event>)
    requires DistinctIds(a + b)
    ensures DistinctIds(a)
  {
    assert forall i :: 0 <= i < |a| ==> (a + b)[i] == a[i];
  }

  lemma {:induction false} RunAgrees(t: Tree, xs: seq<Timed>, es: seq<Event>, period: int)
    requires Agrees(t, es, period) && TimedRun(t, xs, period) && DistinctIds(es + Events(t, xs, period))
    ensures Agrees(After(t, xs, period), es + Events(t, xs, period), period)
    decreases |xs|
  {
    if xs == [] {
      assert es + [] == es;
    } else {
      var ev, rest := EventOf(t, xs[0]), Events(Apply(t, xs[0].m), xs[1..], period);
      assert es + (ev + rest) == (es + ev) + rest;
      DistinctBefore(es + ev, rest);
      StepAgrees(t, xs[0], es, period);
      RunAgrees(Apply(t, xs[0].m), xs[1..], es + ev, period);
    }
  }

  // ---------------------------------------------------------------- main results

  /** A process that has no children yet. */
  predicate Childless(t: Tree) {
    t.node.children == [] && t.kids == []
  }

  /** Whatever else goes on in the tree: the children's time stamps after a run are those after
      the starts, heartbeats and sweeps in it. */
  lemma RunIsHistory(t: Tree, xs: seq<Timed>, period: int)
    requires Childless(t) && TimedRun(t, xs, period) && DistinctIds(Events(t, xs, period))
    ensures History(Events(t, xs, period), period)
    ensures ChildrenAfter(Events(t, xs, period), period) == After(t, xs, period).node.children
  {
    assert [] + Events(t, xs, period) == Events(t, xs, period);
    RunAgrees(t, xs, [], period);
  }

  /** In any run a child is late at a clock reading exactly when every heartbeat of it that the
      parent has handled, or else its start, lies before the period. */
  lemma LateInRun(t: Tree, xs: seq<Timed>, period: int, i: nat, clock: seq<int>)
    requires Childless(t) && TimedRun(t, xs, period)
    requires DistinctIds(Events(t, xs, period)) && Monotone(Events(t, xs, period))
    requires |clock| == |After(t, xs, period).node.children| && i < |clock|
    ensures var es, children := Events(t, xs, period), After(t, xs, period).node.children;
      Late(children, clock, period)[i] <==>
        if HandledBeats(es, children[i].id) == []
        then children[i].lastBeat < clock[i] - period && StartedAt(es, children[i].id, children[i].lastBeat)
        else forall time :: time in HandledBeats(es, children[i].id) ==> time < clock[i] - period
  {
    RunIsHistory(t, xs, period);
    LateIff(Events(t, xs, period), period, i, clock);
  }

  /** A child that a sweep erases has not been heard of within the period. */
  lemma ErasedInRun(t: Tree, xs: seq<Timed>, period: int, i: nat, clock: seq<int>)
    requires Childless(t) && TimedRun(t, xs, period)
    requires DistinctIds(Events(t, xs, period)) && Monotone(Events(t, xs, period))
    requires var u := After(t, xs, period);
      && |clock| == |u.node.children| && i < |clock|
      && Enabled(u, Move.Sweep(Late(u.node.children, clock, period)))
      && Sweep.Erased(Late(u.node.children, clock, period)).value[i]
    ensures var es, children := Events(t, xs, period), After(t, xs, period).node.children;
      forall time :: time in HandledBeats(es, children[i].id) ==> time < clock[i] - period
  {
    RunIsHistory(t, xs, period);
    CheckedIsSweep(After(t, xs, period), Events(t, xs, period), clock, period);
    ErasedAreSilent(Events(t, xs, period), period, i, clock);
  }
}

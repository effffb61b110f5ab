/**
What being late means.  A parent only keeps the time stamp of the last heartbeat it has
handled; because links are first-in first-out and clocks do not run backwards that is
enough to judge by all heartbeats it has handled.
*/
module Heartbeats {
  import opened NodeSpec
  import Sweep
  import SweepRuns

  /** What happens at a parent and on the links from its children. */
  datatype Event =
    | Started(id: nat, pid: nat, at: int)  // a create command has started a child
    | Sent(id: nat, time: int)             // a process puts a heartbeat on its link
    | Handled(id: nat)                     // the parent handles the oldest one on that link
    | Checked(clock: seq<int>)             // a sweep, with its clock readings

  /** The time stamps of all heartbeats sent by the process with an id, in order. */
  function Beats(es: seq<Event>, id: nat): seq<int> {
    if es == [] then []
    else
      var e := es[|es| - 1];
      Beats(es[..|es| - 1], id) + if e.Sent? && e.id == id then [e.time] else []
  }

  /** How many of them the parent has handled. */
  function HandledCount(es: seq<Event>, id: nat): nat {
    if es == [] then 0
    else
      var e := es[|es| - 1];
      HandledCount(es[..|es| - 1], id) + if e.Handled? && e.id == id then 1 else 0
  }

  predicate HasStarted(es: seq<Event>, id: nat) {
    exists k :: 0 <= k < |es| && es[k].Started? && es[k].id == id
  }

  predicate Possible(es: seq<Event>, children: seq<Child>, e: Event, period: int) {
    match e
    case Started(_, _, _) => true
    case Sent(_, _) => true
    case Handled(id) => HasStarted(es, id) && HandledCount(es, id) < |Beats(es, id)|
    case Checked(clock) => |clock| == |children| && Sweep.Erased(Late(children, clock, period)).Ok?
  }

  function Next(es: seq<Event>, children: seq<Child>, e: Event, period: int): seq<Child>
    requires Possible(es, children, e, period)
  {
    match e
    case Started(id, pid, at) => children + [Child(id, pid, at)]
    case Sent(_, _) => children
    case Handled(id) => Stamp(children, id, Beats(es, id)[HandledCount(es, id)])
    case Checked(clock) => Sweep.Pick(children, Sweep.Erased(Late(children, clock, period)).value, false)
  }

  predicate History(es: seq<Event>, period: int)
    decreases |es|, 0
  {
    es != [] ==>
      var before := es[..|es| - 1];
      History(before, period) && Possible(before, ChildrenAfter(before, period), es[|es| - 1], period)
  }

  /** The child list of a process that starts without children. */
  function ChildrenAfter(es: seq<Event>, period: int): seq<Child>
    requires History(es, period)
    decreases |es|, 1
  {
    if es == [] then []
    else
      var before := es[..|es| - 1];
      Next(before, ChildrenAfter(before, period), es[|es| - 1], period)
  }

  /** The clock does not run backwards between heartbeats of the same process. */
  predicate Monotone(es: seq<Event>) {
    forall i, j :: 0 <= i < j < |es| && es[i].Sent? && es[j].Sent? && es[i].id == es[j].id ==> es[i].time <= es[j].time
  }

  /** No id is given to two children. */
  predicate DistinctIds(es: seq<Event>) {
    forall i, j :: 0 <= i < j < |es| && es[i].Started? && es[j].Started? ==> es[i].id != es[j].id
  }

  predicate StartedAt(es: seq<Event>, id: nat, at: int) {
    exists k :: 0 <= k < |es| && es[k].Started? && es[k].id == id && es[k].at == at
  }

  // ---------------------------------------------------------------- the links

  lemma {:induction false} BeatsAreSent(es: seq<Event>, id: nat, k: nat)
    requires k < |Beats(es, id)|
    ensures exists i :: 0 <= i < |es| && es[i] == Sent(id, Beats(es, id)[k])
  {
    var before := es[..|es| - 1];
    if k < |Beats(before, id)| {
      BeatsAreSent(before, id, k);
      var i :| 0 <= i < |before| && before[i] == Sent(id, Beats(before, id)[k]);
      assert es[i] == before[i];
    } else {
      assert es[|es| - 1] == Sent(id, Beats(es, id)[k]);
    }
  }

  /** First-in first-out and a monotone clock: time stamps ascend along a link. */
  lemma {:induction false} BeatsAscend(es: seq<Event>, id: nat)
    requires Monotone(es)
    ensures forall i, j :: 0 <= i < j < |Beats(es, id)| ==> Beats(es, id)[i] <= Beats(es, id)[j]
  {
    if es != [] {
      var before, e := es[..|es| - 1], es[|es| - 1];
      BeatsAscend(before, id);
      if e.Sent? && e.id == id {
        forall i | 0 <= i < |Beats(before, id)| ensures Beats(before, id)[i] <= e.time {
          BeatsAreSent(before, id, i);
          var k :| 0 <= k < |before| && before[k] == Sent(id, Beats(before, id)[i]);
          assert es[k] == before[k];
        }
      }
    }
  }

  lemma {:induction false} HandledAreSent(es: seq<Event>, id: nat, period: int)
    requires History(es, period)
    ensures HandledCount(es, id) <= |Beats(es, id)|
  {
    if es != [] {
      HandledAreSent(es[..|es| - 1], id, period);
    }
  }

  /** The heartbeats of a process that its parent has handled. */
  function HandledBeats(es: seq<Event>, id: nat): seq<int> {
    if HandledCount(es, id) <= |Beats(es, id)| then Beats(es, id)[..HandledCount(es, id)] else []
  }

  // ---------------------------------------------------------------- the invariant

  /** The stamp of a child is its last handled heartbeat, or else the time of its start. */
  predicate StampOk(c: Child, es: seq<Event>) {
    && HasStarted(es, c.id)
    && var beats := HandledBeats(es, c.id);
       if beats == [] then StartedAt(es, c.id, c.lastBeat) else c.lastBeat == beats[|beats| - 1]
  }

  predicate DistinctChildren(children: seq<Child>) {
    forall i, j :: 0 <= i < j < |children| ==> children[i].id != children[j].id
  }

  predicate Kept(children: seq<Child>, es: seq<Event>) {
    DistinctChildren(children) && forall c :: c in children ==> StampOk(c, es)
  }

  /** Stamping changes the one child with the id, if there is one. */
  lemma {:induction false} StampEffect(cs: seq<Child>, id: nat, time: int, c: Child)
    requires c in Stamp(cs, id, time) && forall i, j :: 0 <= i < j < |cs| ==> cs[i].id != cs[j].id
    ensures if c.id == id then c.lastBeat == time && exists d :: d in cs && d.id == id else c in cs
  {
    if cs != [] && c != Stamp(cs, id, time)[0] {
      var tail := cs[1..];
      if cs[0].id != id {
        assert c in Stamp(tail, id, time);
        StampEffect(tail, id, time, c);
        assert forall d :: d in tail ==> d in cs;
      } else {
        assert c in tail;
      }
    } else if cs != [] {
      assert cs[0] in cs;
    }
  }

  lemma StartsStay(es: seq<Event>, e: Event, id: nat, at: int)
    ensures HasStarted(es, id) ==> HasStarted(es + [e], id)
    ensures StartedAt(es, id, at) ==> StartedAt(es + [e], id, at)
  {
    if HasStarted(es, id) {
      var k :| 0 <= k < |es| && es[k].Started? && es[k].id == id;
      assert (es + [e])[k] == es[k];
    }
    if StartedAt(es, id, at) {
      var k :| 0 <= k < |es| && es[k].Started? && es[k].id == id && es[k].at == at;
      assert (es + [e])[k] == es[k];
    }
  }

  lemma OneMoreEvent(es: seq<Event>, e: Event, id: nat)
    ensures Beats(es + [e], id) == Beats(es, id) + if e.Sent? && e.id == id then [e.time] else []
    ensures HandledCount(es + [e], id) == HandledCount(es, id) + if e.Handled? && e.id == id then 1 else 0
  {
    assert (es + [e])[..|es|] == es;
  }

  /** An event that is not about handling a heartbeat of the child. */
  lemma StampStays(c: Child, es: seq<Event>, e: Event)
    requires StampOk(c, es) && HandledCount(es, c.id) <= |Beats(es, c.id)| && (e.Handled? ==> e.id != c.id)
    ensures StampOk(c, es + [e])
  {
    OneMoreEvent(es, e, c.id);
    StartsStay(es, e, c.id, c.lastBeat);
    assert HandledBeats(es + [e], c.id) == HandledBeats(es, c.id);
  }

  /** Handling a heartbeat of the child. */
  lemma StampMoves(c: Child, es: seq<Event>, e: Event)
    requires e == Handled(c.id) && HasStarted(es, c.id) && HandledCount(es, c.id) < |Beats(es, c.id)|
    requires c.lastBeat == Beats(es, c.id)[HandledCount(es, c.id)]
    ensures StampOk(c, es + [e])
  {
    OneMoreEvent(es, e, c.id);
    StartsStay(es, e, c.id, c.lastBeat);
  }

  lemma KeptHandled(cs: seq<Child>, es: seq<Event>, id: nat)
    requires Kept(cs, es) && HasStarted(es, id) && HandledCount(es, id) < |Beats(es, id)|
    requires forall c :: c in cs ==> HandledCount(es, c.id) <= |Beats(es, c.id)|
    ensures Kept(Stamp(cs, id, Beats(es, id)[HandledCount(es, id)]), es + [Handled(id)])
  {
    var time := Beats(es, id)[HandledCount(es, id)];
    forall c | c in Stamp(cs, id, time) ensures StampOk(c, es + [Handled(id)]) {
      StampEffect(cs, id, time, c);
      if c.id == id {
        StampMoves(c, es, Handled(id));
      } else {
        StampStays(c, es, Handled(id));
      }
    }
  }

  lemma NotHandledYet(es: seq<Event>, e: Event, period: int)
    requires History(es, period) && e.Started? && DistinctIds(es + [e])
    ensures !HasStarted(es, e.id) && HandledCount(es, e.id) == 0
  {
    forall k | 0 <= k < |es| && es[k].Started? ensures es[k].id != e.id {
      assert (es + [e])[k] == es[k] && (es + [e])[|es|] == e;
    }
    OnlyAfterStart(es, e.id, period);
  }

  lemma {:induction false} OnlyAfterStart(es: seq<Event>, id: nat, period: int)
    requires History(es, period) && !HasStarted(es, id)
    ensures HandledCount(es, id) == 0
  {
    if es != [] {
      var before, last := es[..|es| - 1], es[|es| - 1];
      assert es == before + [last];
      StartsStay(before, last, id, 0);
      OnlyAfterStart(before, id, period);
    }
  }

  lemma KeptStarted(cs: seq<Child>, es: seq<Event>, e: Event)
    requires Kept(cs, es) && e.Started? && !HasStarted(es, e.id) && HandledCount(es, e.id) == 0
    requires forall c :: c in cs ==> HandledCount(es, c.id) <= |Beats(es, c.id)|
    ensures Kept(cs + [Child(e.id, e.pid, e.at)], es + [e])
  {
    var born := Child(e.id, e.pid, e.at);
    OneMoreEvent(es, e, e.id);
    assert (es + [e])[|es|] == e;
    assert StampOk(born, es + [e]);
    forall c | c in cs ensures StampOk(c, es + [e]) && c.id != e.id {
      StampStays(c, es, e);
    }
  }

  lemma {:induction false} PickSome(cs: seq<Child>, flags: seq<bool>)
    requires |cs| == |flags| && DistinctChildren(cs)
    ensures var kept := Sweep.Pick(cs, flags, false);
      DistinctChildren(kept) && forall c :: c in kept ==> c in cs
  {
    if cs != [] {
      PickSome(cs[1..], flags[1..]);
      assert forall c :: c in cs[1..] ==> c in cs && c.id != cs[0].id;
    }
  }

  lemma {:induction false} HistoryKeeps(es: seq<Event>, period: int)
    requires History(es, period) && DistinctIds(es)
    ensures Kept(ChildrenAfter(es, period), es)
    decreases |es|
  {
    if es != [] {
      var before, e := es[..|es| - 1], es[|es| - 1];
      assert es == before + [e];
      HistoryKeeps(before, period);
      var cs := ChildrenAfter(before, period);
      forall c | c in cs ensures HandledCount(before, c.id) <= |Beats(before, c.id)| {
        HandledAreSent(before, c.id, period);
      }
      match e
      case Started(_, _, _) =>
        NotHandledYet(before, e, period);
        KeptStarted(cs, before, e);
      case Sent(_, _) =>
        forall c | c in cs ensures StampOk(c, es) { StampStays(c, before, e); }
      case Handled(id) =>
        KeptHandled(cs, before, id);
      case Checked(clock) =>
        PickSome(cs, Sweep.Erased(Late(cs, clock, period)).value);
        forall c | c in cs ensures StampOk(c, es) { StampStays(c, before, e); }
    }
  }

  // ---------------------------------------------------------------- main results

  /** The last of some ascending times is old exactly when all are. */
  lemma LastIsOld(ts: seq<int>, limit: int)
    requires ts != [] && forall i, j :: 0 <= i < j < |ts| ==> ts[i] <= ts[j]
    ensures ts[|ts| - 1] < limit <==> forall t :: t in ts ==> t < limit
  {
    assert ts[|ts| - 1] in ts;
    forall t | t in ts ensures t <= ts[|ts| - 1] {
      var k :| 0 <= k < |ts| && ts[k] == t;
    }
  }

  /** A child is late at a clock reading exactly when every heartbeat handled from it is stamped
      before the period, or, none having been handled, its start lies before the period. */
  lemma LateIff(es: seq<Event>, period: int, i: nat, clock: seq<int>)
    requires History(es, period) && DistinctIds(es) && Monotone(es)
    requires |clock| == |ChildrenAfter(es, period)| && i < |clock|
    ensures var c := ChildrenAfter(es, period)[i];
      Late(ChildrenAfter(es, period), clock, period)[i] <==>
        if HandledBeats(es, c.id) == []
        then c.lastBeat < clock[i] - period && StartedAt(es, c.id, c.lastBeat)
        else forall t :: t in HandledBeats(es, c.id) ==> t < clock[i] - period
  {
    HistoryKeeps(es, period);
    var c := ChildrenAfter(es, period)[i];
    assert c in ChildrenAfter(es, period);
    BeatsAscend(es, c.id);
    assert Late(ChildrenAfter(es, period), clock, period)[i] == (c.lastBeat < clock[i] - period);
    if HandledBeats(es, c.id) != [] {
      LastIsOld(HandledBeats(es, c.id), clock[i] - period);
    }
  }

  /** A child is only erased when no heartbeat stamped within the last period has been handled. */
  lemma ErasedAreSilent(es: seq<Event>, period: int, i: nat, clock: seq<int>)
    requires History(es, period) && DistinctIds(es) && Monotone(es)
    requires Possible(es, ChildrenAfter(es, period), Checked(clock), period) && i < |clock|
    requires Sweep.Erased(Late(ChildrenAfter(es, period), clock, period)).value[i]
    ensures forall t :: t in HandledBeats(es, ChildrenAfter(es, period)[i].id) ==> t < clock[i] - period
  {
    SweepRuns.ErasedAreLate(Late(ChildrenAfter(es, period), clock, period), i);
    LateIff(es, period, i, clock);
  }
}

/**
One command never gets stuck: no lookup fails, some message can always be handled until
nothing is under way, and every run without end sends heartbeats without end.
*/
module Liveness {
  import opened Messages
  import opened NodeSpec
  import opened TreeSystem
  import opened SingleCommand
  import opened OneAnswer
  import opened Growth
  import opened Termination

  /** Every response that is next on a link finds the record it is looked up in. */
  predicate NoLookupFails(t: Tree)
    decreases t
  {
    forall i :: 0 <= i < |t.kids| ==>
      && (t.kids[i].up != [] ==> LookupOk(t.node, t.kids[i].up[0]))
      && NoLookupFails(t.kids[i])
  }

  /** Every process is running. */
  predicate Live(t: Tree)
    decreases t
  {
    t.node.running && forall i :: 0 <= i < |t.kids| ==> Live(t.kids[i])
  }

  lemma {:induction false} LookupsSafe(t: Tree, j: Job)
    requires IsJob(j) && Inv(t, j)
    ensures NoLookupFails(t) && Live(t)
    decreases t
  {
    forall i | 0 <= i < |t.kids|
      ensures t.kids[i].up != [] ==> LookupOk(t.node, t.kids[i].up[0])
      ensures NoLookupFails(t.kids[i]) && Live(t.kids[i])
    {
      if t.kids[i].up != [] {
        LookupSafe(t, i, j);
      }
      LookupsSafe(t.kids[i], j);
    }
  }

  lemma {:induction false} InvPlaced(t: Tree, j: Job)
    requires IsJob(j) && Inv(t, j)
    ensures Placed(t, j)
    decreases t
  {
    forall i | 0 <= i < |t.kids| ensures Placed(t.kids[i], j) && (t.down != [] ==> NoOrders(t.kids[i])) {
      InvPlaced(t.kids[i], j);
      if t.down != [] {
        IdleNoOrders(t.kids[i], JobKind(j), j.clean);
      }
    }
  }

  lemma {:induction false} PlacedAttached(t: Tree, j: Job)
    requires Placed(t, j)
    ensures AllAttached(t)
    decreases t
  {
    forall i | 0 <= i < |t.kids| ensures AllAttached(t.kids[i]) {
      if t.down != [] {
        NoOrdersPlan(t.kids[i], j);
      }
      PlacedAttached(t.kids[i], j);
    }
  }

  lemma {:induction false} PlacedRoomy(t: Tree, m: Move, j: Job)
    requires Placed(t, j) && Enabled(t, m) && Calm(m)
    ensures Roomy(t, m)
    decreases m
  {
    match m
    case Inside(i, m') =>
      if t.down != [] {
        NoOrdersStep(t.kids[i], m', j);
        NoOrdersPlan(t.kids[i], j);
      }
      PlacedRoomy(t.kids[i], m', j);
    case _ =>
  }

  /** One move brings the run nearer to its end. */
  lemma MoveCosts(t: Tree, m: Move, j: Job)
    requires Placed(t, j) && Enabled(t, m) && Calm(m)
    ensures Cost(Apply(t, m), 0) < Cost(t, 0) + BeatCost(m, 0)
  {
    PlacedRoomy(t, m, j);
    PlacedAttached(t, j);
    CostStep(t, m, 0);
  }

  /** A run is no longer than the measure at its start and the heartbeats sent in it allow. */
  lemma {:induction false} RunEnds(t: Tree, ms: seq<Move>, j: Job)
    requires IsJob(j) && Placed(t, j) && Possible(t, ms) && AllCalm(ms)
    ensures |ms| + Cost(Run(t, ms), 0) <= Cost(t, 0) + BeatCosts(ms)
    decreases |ms|
  {
    if ms != [] {
      MoveCosts(t, ms[0], j);
      StepPlan(t, ms[0], j);
      RunEnds(Apply(t, ms[0]), ms[1..], j);
    }
  }

  predicate IsBeat(m: Move) {
    match m
    case Inside(_, m') => IsBeat(m')
    case Beat(_) => true
    case _ => false
  }

  /** As long as an order or an answer is under way some message can be handled. */
  lemma {:induction false} Progress(t: Tree) returns (m: Move)
    requires Live(t) && NoLookupFails(t) && !Quiet(t)
    ensures Enabled(t, m) && Calm(m) && !IsBeat(m)
    decreases t
  {
    if t.down != [] {
      m := Take;
    } else {
      var i :| 0 <= i < |t.kids| && !(Quiet(t.kids[i]) && AllBeats(t.kids[i].up));
      if t.kids[i].up != [] {
        m := Count(i);
      } else {
        var m' := Progress(t.kids[i]);
        m := Inside(i, m');
      }
    }
  }

  /** The three together, for a command put before the manager of a tree at rest. */
  lemma CommandIsLive(t: Tree, j: Job, ms: seq<Move>) returns (next: Option<Move>)
    requires IsJob(j) && AtRest(t, JobKind(j), j.clean) && Clear(t, j)
    requires Hits(t, j) <= if j.clean then 1 else 0
    requires Possible(t.(down := [Do(j.cmd, j.fork)]), ms) && AllCalm(ms)
    ensures var start := t.(down := [Do(j.cmd, j.fork)]);
      var t' := Run(start, ms);
      && NoLookupFails(t')
      && |ms| <= Cost(start, 0) + BeatCosts(ms)
      && (next.None? ==> Quiet(t'))
      && (next.Some? ==> Enabled(t', next.value) && Calm(next.value) && !IsBeat(next.value))
  {
    var start := t.(down := [Do(j.cmd, j.fork)]);
    StartOwes(t, j);
    StartPlaced(t, j);
    RunKeeps(start, ms, j);
    RunEnds(start, ms, j);
    var t' := Run(start, ms);
    LookupsSafe(t', j);
    if Quiet(t') {
      next := None;
    } else {
      var m := Progress(t');
      next := Some(m);
    }
  }
}

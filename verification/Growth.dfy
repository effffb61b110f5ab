/**
How one command changes the shape of the tree: a create that works adds its node as the
last child of the parent, everything else leaves the tree of ids as it was.
*/
module Growth {
  import opened Messages
  import opened NodeSpec
  import opened TreeSystem
  import opened Shapes
  import opened SingleCommand
  import opened OneAnswer

  /** The shape after the command, by the requirement. */
  function Plan(s: Shape, j: Job): Shape {
    if j.cmd.Create? && j.fork.Forked? then Grown(s, j.cmd.newNodeId, j.cmd.parentId) else s
  }

  function PlanAll(ss: seq<Shape>, j: Job): seq<Shape> {
    if j.cmd.Create? && j.fork.Forked? then GrownAll(ss, j.cmd.newNodeId, j.cmd.parentId) else ss
  }

  /** The shape a subtree will have once the command has gone through it. */
  function Planned(t: Tree, j: Job): Shape
    decreases t
  {
    if t.down != [] then Plan(ShapeOf(t), j) else Shape(t.node.id, PlannedAll(t.kids, j))
  }

  function PlannedAll(ts: seq<Tree>, j: Job): seq<Shape>
    decreases ts
  {
    if ts == [] then [] else [Planned(ts[0], j)] + PlannedAll(ts[1..], j)
  }

  /** A sound tree in which no order waits. */
  predicate NoOrders(t: Tree)
    decreases t
  {
    Sound(t) && t.down == [] && forall i :: 0 <= i < |t.kids| ==> NoOrders(t.kids[i])
  }

  /** A sound tree in which the command waits here and there, and below it nothing does.  What
      the records and the responses under way are plays no part in this. */
  predicate Placed(t: Tree, j: Job)
    decreases t
  {
    && Sound(t)
    && if t.down == [] then forall i :: 0 <= i < |t.kids| ==> Placed(t.kids[i], j)
       else
         && t.down == [Do(j.cmd, j.fork)] && Clear(t, j)
         && forall i :: 0 <= i < |t.kids| ==> NoOrders(t.kids[i])
  }

  lemma {:induction false} IdleNoOrders(t: Tree, kind: Kind, clean: bool)
    requires Idle(t, kind, clean)
    ensures NoOrders(t)
    decreases t
  {
    forall i | 0 <= i < |t.kids| ensures NoOrders(t.kids[i]) {
      IdleNoOrders(t.kids[i], kind, clean);
    }
  }

  lemma {:induction false} NoOrdersPlan(t: Tree, j: Job)
    requires NoOrders(t)
    ensures Planned(t, j) == ShapeOf(t) && Placed(t, j)
    decreases t
  {
    NoOrdersPlanAll(t.kids, j);
  }

  lemma {:induction false} NoOrdersPlanAll(ts: seq<Tree>, j: Job)
    requires forall i :: 0 <= i < |ts| ==> NoOrders(ts[i])
    ensures PlannedAll(ts, j) == ShapesOf(ts)
    ensures forall i :: 0 <= i < |ts| ==> Placed(ts[i], j)
    decreases ts
  {
    if ts != [] {
      NoOrdersPlan(ts[0], j);
      NoOrdersPlanAll(ts[1..], j);
      assert forall i :: 0 < i < |ts| ==> ts[i] == ts[1..][i - 1];
    }
  }

  lemma {:induction false} QuietPlan(t: Tree, j: Job)
    requires Quiet(t)
    ensures Planned(t, j) == ShapeOf(t)
    decreases t
  {
    QuietPlanAll(t.kids, j);
  }

  lemma {:induction false} QuietPlanAll(ts: seq<Tree>, j: Job)
    requires forall i :: 0 <= i < |ts| ==> Quiet(ts[i])
    ensures PlannedAll(ts, j) == ShapesOf(ts)
    decreases ts
  {
    if ts != [] {
      QuietPlan(ts[0], j);
      QuietPlanAll(ts[1..], j);
    }
  }

  lemma {:induction false} PlanHandedOut(ts: seq<Tree>, j: Job)
    requires forall i :: 0 <= i < |ts| ==> ts[i].attached && ts[i].down == []
    ensures PlannedAll(Broadcast(ts, [Do(j.cmd, j.fork)]), j) == PlanAll(ShapesOf(ts), j)
  {
    var o := [Do(j.cmd, j.fork)];
    if ts != [] {
      assert Broadcast(ts, o)[1..] == Broadcast(ts[1..], o);
      PlanHandedOut(ts[1..], j);
      assert ShapesOf(ts)[1..] == ShapesOf(ts[1..]);
      assert ts[0].down + o == o;
    }
  }

  lemma {:induction false} PlannedConcat(a: seq<Tree>, b: seq<Tree>, j: Job)
    ensures PlannedAll(a + b, j) == PlannedAll(a, j) + PlannedAll(b, j)
  {
    if a == [] {
      assert a + b == b;
    } else {
      assert (a + b)[1..] == a[1..] + b;
      PlannedConcat(a[1..], b, j);
    }
  }

  lemma {:induction false} PlannedUpdate(ts: seq<Tree>, i: nat, t: Tree, j: Job)
    requires i < |ts| && Planned(t, j) == Planned(ts[i], j)
    ensures PlannedAll(ts[i := t], j) == PlannedAll(ts, j)
  {
    if i == 0 {
      assert ts[i := t][1..] == ts[1..];
    } else {
      assert ts[i := t][1..] == ts[1..][i - 1 := t];
      PlannedUpdate(ts[1..], i - 1, t, j);
    }
  }

  /** What a calm move keeps. */
  ghost predicate PlanKept(t: Tree, t': Tree, j: Job) {
    && Placed(t', j) && Planned(t', j) == Planned(t, j)
    && t'.node.id == t.node.id && t'.attached == t.attached
  }

  lemma PlanYes(t: Tree, t': Tree, j: Job)
    requires IsJob(j) && Placed(t, j) && t.down != [] && Decide(t.node, j).SayYes?
    requires Sound(t') && t'.down == [] && t'.node.id == t.node.id && t'.attached == t.attached
    requires t'.kids == t.kids + Born(j)
    ensures PlanKept(t, t', j)
  {
    NoOrdersPlanAll(t.kids, j);
    PlannedConcat(t.kids, Born(j), j);
    if j.cmd.Create? {
      assert Born(j)[1..] == [];
      assert PlannedAll(Born(j), j) == [Shape(j.cmd.newNodeId, [])];
      NoOrdersPlan(Born(j)[0], j);
    } else {
      assert t.kids + [] == t.kids;
    }
  }

  lemma PlanNo(t: Tree, t': Tree, j: Job)
    requires IsJob(j) && Placed(t, j) && t.down != [] && Decide(t.node, j).SayNo?
    requires Sound(t') && t'.down == [] && t'.node.id == t.node.id && t'.attached == t.attached && t'.kids == t.kids
    ensures PlanKept(t, t', j)
  {
    NoOrdersPlanAll(t.kids, j);
  }

  lemma PlanAsk(t: Tree, t': Tree, j: Job)
    requires IsJob(j) && Placed(t, j) && t.down != [] && Decide(t.node, j).Ask?
    requires Sound(t') && t'.down == [] && t'.node.id == t.node.id && t'.attached == t.attached
    requires t'.kids == Broadcast(t.kids, [Do(j.cmd, j.fork)])
    ensures PlanKept(t, t', j)
  {
    PlanHandedOut(t.kids, j);
    forall i | 0 <= i < |t'.kids| ensures Placed(t'.kids[i], j) {
      var kid := t.kids[i];
      assert t'.kids[i] == kid.(down := kid.down + [Do(j.cmd, j.fork)]);
      assert kid.down + [Do(j.cmd, j.fork)] == [Do(j.cmd, j.fork)];
      assert Clear(kid, j);
    }
  }

  lemma TakePlan(t: Tree, j: Job)
    requires IsJob(j) && Placed(t, j) && t.down != []
    ensures PlanKept(t, ApplyTake(t), j)
  {
    TakeShape(t, j);
    TakeEffect(t, j);
    var t' := ApplyTake(t);
    match Decide(t.node, j)
    case SayYes =>
      assert Sound(t');
      PlanYes(t, t', j);
    case SayNo => PlanNo(t, t', j);
    case Ask => PlanAsk(t, t', j);
  }

  /** Counting a response changes nothing that matters for the shape. */
  lemma CountedKids(t: Tree, i: nat)
    requires Sound(t) && Enabled(t, Count(i))
    ensures var t' := ApplyCount(t, i);
      && Sound(t') && t'.node.id == t.node.id && t'.down == t.down && t'.attached == t.attached
      && t'.kids == t.kids[i := Pop(t.kids[i])]
  {
  }

  lemma PoppedShape(kid: Tree, j: Job)
    requires kid.up != []
    ensures ShapeOf(Pop(kid)) == ShapeOf(kid) && Planned(Pop(kid), j) == Planned(kid, j)
    ensures NoOrders(kid) ==> NoOrders(Pop(kid))
    ensures Placed(kid, j) ==> Placed(Pop(kid), j)
    ensures Clear(kid, j) ==> Clear(Pop(kid), j)
  {
  }

  /** One child is replaced by one of the same shape. */
  lemma NoOrdersWith(t: Tree, t': Tree, i: nat, kid: Tree, j: Job)
    requires NoOrders(t) && i < |t.kids| && t'.kids == t.kids[i := kid]
    requires Sound(t') && t'.down == [] && t'.node.id == t.node.id
    requires NoOrders(kid) && ShapeOf(kid) == ShapeOf(t.kids[i]) && (Clear(t.kids[i], j) ==> Clear(kid, j))
    ensures NoOrders(t') && ShapeOf(t') == ShapeOf(t) && (Clear(t, j) ==> Clear(t', j))
  {
    ShapesSame(t.kids, i, kid);
  }

  lemma {:induction false} NoOrdersStep(t: Tree, m: Move, j: Job)
    requires NoOrders(t) && Enabled(t, m) && Calm(m)
    ensures var t' := Apply(t, m);
      && NoOrders(t') && ShapeOf(t') == ShapeOf(t) && t'.node.id == t.node.id && t'.attached == t.attached
      && (Clear(t, j) ==> Clear(t', j))
    decreases m
  {
    match m
    case Take =>
    case Count(i) =>
      CountedKids(t, i);
      PoppedShape(t.kids[i], j);
      NoOrdersWith(t, ApplyCount(t, i), i, Pop(t.kids[i]), j);
    case Beat(time) =>
    case Inside(i, m') =>
      NoOrdersStep(t.kids[i], m', j);
      NoOrdersWith(t, Apply(t, m), i, Apply(t.kids[i], m'), j);
    case Sweep(_) =>
    case Exit =>
  }

  lemma PlanWith(t: Tree, t': Tree, i: nat, kid: Tree, j: Job)
    requires Placed(t, j) && t.down == [] && i < |t.kids| && t'.kids == t.kids[i := kid]
    requires Sound(t') && t'.down == [] && t'.node.id == t.node.id && t'.attached == t.attached
    requires Placed(kid, j) && Planned(kid, j) == Planned(t.kids[i], j)
    ensures PlanKept(t, t', j)
  {
    PlannedUpdate(t.kids, i, kid, j);
  }

  /** Below a process that still has the command in front of it. */
  lemma PlanUnder(t: Tree, t': Tree, i: nat, kid: Tree, j: Job)
    requires Placed(t, j) && t.down != [] && i < |t.kids| && t'.kids == t.kids[i := kid]
    requires Sound(t') && t'.down == t.down && t'.node.id == t.node.id && t'.attached == t.attached
    requires NoOrders(kid) && ShapeOf(kid) == ShapeOf(t.kids[i]) && (Clear(t.kids[i], j) ==> Clear(kid, j))
    ensures PlanKept(t, t', j)
  {
    ShapesSame(t.kids, i, kid);
  }

  lemma CountPlan(t: Tree, i: nat, j: Job)
    requires Placed(t, j) && Enabled(t, Count(i))
    ensures PlanKept(t, ApplyCount(t, i), j)
  {
    CountedKids(t, i);
    PoppedShape(t.kids[i], j);
    if t.down == [] {
      PlanWith(t, ApplyCount(t, i), i, Pop(t.kids[i]), j);
    } else {
      PlanUnder(t, ApplyCount(t, i), i, Pop(t.kids[i]), j);
    }
  }

  lemma {:induction false} StepPlan(t: Tree, m: Move, j: Job)
    requires IsJob(j) && Placed(t, j) && Enabled(t, m) && Calm(m)
    ensures PlanKept(t, Apply(t, m), j)
    decreases m
  {
    match m
    case Take => TakePlan(t, j);
    case Count(i) => CountPlan(t, i, j);
    case Beat(time) =>
    case Inside(i, m') =>
      if t.down != [] {
        NoOrdersStep(t.kids[i], m', j);
        PlanUnder(t, Apply(t, m), i, Apply(t.kids[i], m'), j);
      } else {
        StepPlan(t.kids[i], m', j);
        PlanWith(t, Apply(t, m), i, Apply(t.kids[i], m'), j);
      }
    case Sweep(_) =>
    case Exit =>
  }

  lemma {:induction false} RunPlan(t: Tree, ms: seq<Move>, j: Job)
    requires IsJob(j) && Placed(t, j) && Possible(t, ms) && AllCalm(ms)
    ensures PlanKept(t, Run(t, ms), j)
    decreases |ms|
  {
    if ms != [] {
      StepPlan(t, ms[0], j);
      RunPlan(Apply(t, ms[0]), ms[1..], j);
    }
  }

  /** The command in front of a tree at rest. */
  lemma StartPlaced(t: Tree, j: Job)
    requires IsJob(j) && AtRest(t, JobKind(j), j.clean) && Clear(t, j)
    ensures var start := t.(down := [Do(j.cmd, j.fork)]);
      Placed(start, j) && Planned(start, j) == Plan(ShapeOf(t), j)
  {
    var start := t.(down := [Do(j.cmd, j.fork)]);
    IdleNoOrders(t, JobKind(j), j.clean);
    assert Clear(start, j) && ShapeOf(start) == ShapeOf(t);
  }

  /** At rest the tree has the planned shape, whatever records it started with. */
  lemma RestShape(t: Tree, j: Job, ms: seq<Move>)
    requires IsJob(j) && AtRest(t, JobKind(j), j.clean) && Clear(t, j)
    requires Possible(t.(down := [Do(j.cmd, j.fork)]), ms) && AllCalm(ms)
    requires Quiet(Run(t.(down := [Do(j.cmd, j.fork)]), ms))
    ensures ShapeOf(Run(t.(down := [Do(j.cmd, j.fork)]), ms)) == Plan(ShapeOf(t), j)
  {
    var start := t.(down := [Do(j.cmd, j.fork)]);
    StartPlaced(t, j);
    RunPlan(start, ms, j);
    QuietPlan(Run(start, ms), j);
  }

  /** Create with a fresh id: in every run that has come to rest the new node is the last
      child of its parent and nothing else has changed, or nothing has changed at all; ids
      are still distinct. */
  lemma CreateGrowsTree(t: Tree, x: nat, p: nat, fork: Fork, ms: seq<Move>)
    requires Ready(t, CreateKind) && Places(ShapeOf(t), x) == 0
    requires Possible(t.(down := [Do(Create(x, p), fork)]), ms) && AllCalm(ms)
    requires Quiet(Run(t.(down := [Do(Create(x, p), fork)]), ms))
    ensures var t' := Run(t.(down := [Do(Create(x, p), fork)]), ms);
      && ShapeOf(t') == (if fork.Forked? && Places(ShapeOf(t), p) > 0 then Grown(ShapeOf(t), x, p) else ShapeOf(t))
      && (t'.up == [GoodCreateResp(x, if fork.Forked? then fork.pid else 0)] <==> ShapeOf(t') != ShapeOf(t))
      && Distinct(ShapeOf(t'))
  {
    var j := Job(Create(x, p), fork, true);
    var start := t.(down := [Do(Create(x, p), fork)]);
    FreshIsClear(t, j);
    IdleSound(t, CreateKind, true);
    if fork.Forked? {
      CreateHits(t, j);
      assert Places(ShapeOf(t), p) <= 1;
    } else {
      FailedHits(t, j);
    }
    RestShape(t, j, ms);
    CreateAnsweredOnce(t, x, p, fork, ms);
    GrowthIsSeen(ShapeOf(t), x, p);
  }

  lemma GrowthIsSeen(s: Shape, x: nat, p: nat)
    requires Distinct(s) && Places(s, x) == 0
    ensures Places(s, p) > 0 ==> Grown(s, x, p) != s
    ensures Places(s, p) == 0 ==> Grown(s, x, p) == s
    ensures Distinct(Grown(s, x, p))
  {
    assert Places(s, p) <= 1;
    GrownPlaces(s, x, p, x);
    GrownDistinct(s, x, p);
    if Places(s, p) == 0 {
      GrownNowhere(s, x, p);
    }
  }
}

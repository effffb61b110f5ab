/**
Runs end: a measure on the messages under way that every calm move decreases, except that
sending a heartbeat adds the cost of delivering it.
*/
module Termination {
  import opened NodeSpec
  import opened TreeSystem
  import opened Shapes

  /** What it costs at most to deal with one order that arrives at a process at depth d:
      handle it, bring one response d links up, and deal with it in every child. */
  function Work(s: Shape, d: nat): nat
    decreases s
  {
    1 + d + WorkAll(s.kids, d + 1)
  }

  function WorkAll(ss: seq<Shape>, d: nat): nat
    decreases ss
  {
    if ss == [] then 0 else Work(ss[0], d) + WorkAll(ss[1..], d)
  }

  function Times(n: nat, c: nat): nat {
    if n == 0 then 0 else c + Times(n - 1, c)
  }

  function Cost(t: Tree, d: nat): nat
    decreases t
  {
    Times(|t.up|, d) + Times(|t.down|, Work(ShapeOf(t), d)) + CostAll(t.kids, d + 1)
  }

  function CostAll(ts: seq<Tree>, d: nat): nat
    decreases ts
  {
    if ts == [] then 0 else Cost(ts[0], d) + CostAll(ts[1..], d)
  }

  /** Sending a heartbeat from depth d puts one message at that depth on its way. */
  function BeatCost(m: Move, d: nat): nat {
    match m
    case Inside(_, m') => BeatCost(m', d + 1)
    case Beat(_) => d + 1
    case _ => 0
  }

  function BeatCosts(ms: seq<Move>): nat {
    if ms == [] then 0 else BeatCost(ms[0], 0) + BeatCosts(ms[1..])
  }

  /** A fork only happens where no further order waits above the new process. */
  predicate Roomy(t: Tree, m: Move)
    requires Enabled(t, m) && Calm(m)
    decreases m
  {
    match m
    case Take => |t.down| == 1 || ShapeOf(ApplyTake(t)) == ShapeOf(t)
    case Inside(i, m') => Roomy(t.kids[i], m') && (t.down == [] || ShapeOf(Apply(t.kids[i], m')) == ShapeOf(t.kids[i]))
    case _ => true
  }

  predicate AllAttached(t: Tree)
    decreases t
  {
    forall i :: 0 <= i < |t.kids| ==> t.kids[i].attached && AllAttached(t.kids[i])
  }

  lemma {:induction false} CostUpdate(ts: seq<Tree>, i: nat, t: Tree, d: nat)
    requires i < |ts|
    ensures CostAll(ts[i := t], d) == CostAll(ts, d) - Cost(ts[i], d) + Cost(t, d)
  {
    if i == 0 {
      assert ts[i := t][1..] == ts[1..];
    } else {
      assert ts[i := t][1..] == ts[1..][i - 1 := t];
      CostUpdate(ts[1..], i - 1, t, d);
    }
  }

  lemma {:induction false} CostConcat(a: seq<Tree>, b: seq<Tree>, d: nat)
    ensures CostAll(a + b, d) == CostAll(a, d) + CostAll(b, d)
  {
    if a == [] {
      assert a + b == b;
    } else {
      assert (a + b)[1..] == a[1..] + b;
      CostConcat(a[1..], b, d);
    }
  }

  lemma {:induction false} TimesPlus(m: nat, n: nat, c: nat)
    ensures Times(m + n, c) == Times(m, c) + Times(n, c)
  {
    if m > 0 {
      TimesPlus(m - 1, n, c);
    }
  }

  /** Handing one order to every child. */
  lemma {:induction false} CostHandedOut(ts: seq<Tree>, o: Order, d: nat)
    requires forall i :: 0 <= i < |ts| ==> ts[i].attached
    ensures CostAll(Broadcast(ts, [o]), d) == CostAll(ts, d) + WorkAll(ShapesOf(ts), d)
  {
    if ts != [] {
      assert Broadcast(ts, [o])[1..] == Broadcast(ts[1..], [o]);
      CostHandedOut(ts[1..], o, d);
      assert ShapesOf(ts)[1..] == ShapesOf(ts[1..]);
      TimesPlus(|ts[0].down|, 1, Work(ShapeOf(ts[0]), d));
      assert Times(1, Work(ShapeOf(ts[0]), d)) == Work(ShapeOf(ts[0]), d) + Times(0, 0);
    }
  }

  /** A handler either answers once or asks its children, never both. */
  lemma OrderEffect(s: NodeState, o: Order)
    ensures var e := OnOrder(s, o);
      && |e.up| + |e.down| <= 1
      && (|s.children| < |e.node.children| ==> e.down == [])
  {
  }

  lemma TakeKidsCost(t: Tree, d: nat)
    requires Enabled(t, Take) && AllAttached(t)
    ensures var e := OnOrder(t.node, t.down[0]);
      && |e.up| + |e.down| <= 1
      && CostAll(ApplyTake(t).kids, d) == CostAll(t.kids, d) + if e.down == [] then 0 else WorkAll(ShapesOf(t.kids), d)
  {
    var e := OnOrder(t.node, t.down[0]);
    OrderEffect(t.node, t.down[0]);
    var born := Forks(t.node, e.node);
    CostConcat(Broadcast(t.kids, e.down), born, d);
    assert CostAll(born, d) == 0 by {
      if born != [] {
        assert born[1..] == [];
        assert Cost(born[0], d) == 0;
      }
    }
    if e.down == [] {
      BroadcastNothing(t.kids);
    } else {
      assert e.down == [e.down[0]];
      CostHandedOut(t.kids, e.down[0], d);
    }
  }

  lemma TimesNext(n: nat, c: nat)
    ensures Times(n + 1, c) == Times(n, c) + c
  {
  }

  lemma OneOrderLess(t: Tree, t': Tree, d: nat, out: nat, asked: bool)
    requires t.down != [] && |t'.down| == |t.down| - 1 && |t'.up| == |t.up| + out
    requires t'.down == [] || ShapeOf(t') == ShapeOf(t)
    requires out + (if asked then 1 else 0) <= 1
    requires CostAll(t'.kids, d + 1) == CostAll(t.kids, d + 1) + if asked then WorkAll(ShapesOf(t.kids), d + 1) else 0
    ensures Cost(t', d) < Cost(t, d)
  {
    var w := Work(ShapeOf(t), d);
    TimesNext(|t.down| - 1, w);
    TimesNext(|t.up|, d);
    assert Times(|t'.down|, Work(ShapeOf(t'), d)) == Times(|t.down| - 1, w);
  }

  lemma TakeCost(t: Tree, d: nat)
    requires Enabled(t, Take) && Roomy(t, Take) && AllAttached(t)
    ensures Cost(ApplyTake(t), d) < Cost(t, d)
  {
    var e := OnOrder(t.node, t.down[0]);
    TakeKidsCost(t, d + 1);
    OneOrderLess(t, ApplyTake(t), d, |e.up|, e.down != []);
  }

  lemma OneResponseLess(t: Tree, t': Tree, i: nat, d: nat, out: nat)
    requires i < |t.kids| && t.kids[i].up != [] && t'.kids == t.kids[i := Pop(t.kids[i])]
    requires t'.node.id == t.node.id && t'.down == t.down && |t'.up| == |t.up| + out && out <= 1
    ensures Cost(t', d) < Cost(t, d)
  {
    var kid := t.kids[i];
    PopCost(kid, d + 1);
    CostUpdate(t.kids, i, Pop(kid), d + 1);
    ShapesSame(t.kids, i, Pop(kid));
    TimesNext(|t.up|, d);
    assert ShapeOf(t') == ShapeOf(t);
  }

  lemma PopCost(kid: Tree, d: nat)
    requires kid.up != []
    ensures ShapeOf(Pop(kid)) == ShapeOf(kid) && Cost(Pop(kid), d) + d == Cost(kid, d)
  {
    TimesNext(|kid.up| - 1, d);
  }

  lemma CountCost(t: Tree, i: nat, d: nat)
    requires Enabled(t, Count(i))
    ensures Cost(ApplyCount(t, i), d) < Cost(t, d)
  {
    var e := OnResponse(t.node, t.kids[i].up[0]);
    assert |e.up| <= 1 && e.node.id == t.node.id;
    OneResponseLess(t, ApplyCount(t, i), i, d, |e.up|);
  }

  /** Every calm move but sending a heartbeat brings the end nearer. */
  lemma {:induction false} CostStep(t: Tree, m: Move, d: nat)
    requires Enabled(t, m) && Calm(m) && Roomy(t, m) && AllAttached(t)
    ensures Cost(Apply(t, m), d) < Cost(t, d) + BeatCost(m, d)
    decreases m
  {
    match m
    case Take => TakeCost(t, d);
    case Count(i) => CountCost(t, i, d);
    case Beat(time) =>
      TimesPlus(|t.up|, 1, d);
      assert Times(1, d) == d + Times(0, d);
    case Inside(i, m') =>
      var kid := Apply(t.kids[i], m');
      CostStep(t.kids[i], m', d + 1);
      CostUpdate(t.kids, i, kid, d + 1);
      if t.down != [] {
        ShapesSame(t.kids, i, kid);
      }
    case Sweep(_) =>
    case Exit =>
  }
}

/**
The results about pipelined commands on a chain, and what the sequential specification
means in terms of the ids.
*/
module ChainResults {
  import opened Messages
  import opened NodeSpec
  import opened Records
  import opened TreeSystem
  import opened SingleCommand
  import opened OneAnswer
  import opened Termination
  import opened Liveness
  import opened Chain

  // ---------------------------------------------------------------- the specification, read by ids

  /** Position of the first occurrence; |ids| when there is none. */
  function IndexOf(ids: seq<nat>, id: nat): (i: nat)
    ensures i <= |ids|
    ensures i < |ids| ==> ids[i] == id
    ensures forall k :: 0 <= k < i ==> ids[k] != id
  {
    if ids == [] || ids[0] == id then 0 else 1 + IndexOf(ids[1..], id)
  }

  /** Exec is good exactly when a node has the id; the manager does not count. */
  lemma {:induction false} ExecServed(ids: seq<nat>, manager: bool, id: nat, k: seq<real>, fork: Fork)
    requires ids != []
    ensures var s := Serve(ids, manager, Do(Exec(id, k), fork));
      && s.ids == ids && s.ok
      && s.answer == if id in (if manager then ids[1..] else ids) then GoodExecResp(id, Sum(k)) else BadExecResp(id)
    decreases |ids|
  {
    if |ids| > 1 {
      ExecServed(ids[1..], false, id, k, fork);
      assert ids == [ids[0]] + ids[1..];
    }
  }

  /** Create meets the new id or the parent, whichever is nearer to the manager. */
  lemma {:induction false} CreateServed(ids: seq<nat>, manager: bool, x: nat, p: nat, fork: Fork)
    requires ids != []
    ensures var s := Serve(ids, manager, Do(Create(x, p), fork));
      var i, j := IndexOf(ids, x), IndexOf(ids, p);
      if i < |ids| && i <= j then s == Served(ids, NodeExistResponse(x), true)
      else if j < |ids| && fork.Forked? then
        s == Served(ids + [x], GoodCreateResp(x, fork.pid), j == |ids| - 1)
      else s == Served(ids, BadCreateResp(p, x), true)
    decreases |ids|
  {
    if |ids| > 1 && ids[0] != x && ids[0] != p {
      CreateServed(ids[1..], false, x, p, fork);
      assert ids == [ids[0]] + ids[1..];
      assert ids + [x] == [ids[0]] + (ids[1..] + [x]);
    }
  }

  // ---------------------------------------------------------------- quiet chains

  function ChainIds(t: Tree): seq<nat>
    requires Shaped(t)
    decreases t
  {
    [t.node.id] + if t.kids == [] then [] else ChainIds(t.kids[0])
  }

  lemma {:induction false} BeatsOnly(up: seq<Response>)
    requires AllBeats(up)
    ensures Answers(up) == multiset{} && AnswersOf(up, ExecKind) == 0 && AnswersOf(up, CreateKind) == 0
  {
    if up != [] {
      assert up[0] in up;
      BeatsOnly(up[1..]);
    }
  }

  lemma {:induction false} NoBeats(up: seq<Response>)
    requires forall r :: r in up ==> !r.Heartbeat?
    ensures Answers(up) == multiset(up)
  {
    if up != [] {
      assert up == [up[0]] + up[1..];
      assert up[0] in up;
      NoBeats(up[1..]);
    }
  }

  lemma {:induction false} QuietFlush(t: Tree)
    requires Shaped(t) && Quiet(t)
    ensures FlushedIds(t) == ChainIds(t) && FlushedAnswers(t) == Answers(t.up) && FlushedOk(t)
    ensures Flight(t, ExecKind) == AnswersOf(t.up, ExecKind) && Flight(t, CreateKind) == AnswersOf(t.up, CreateKind)
    decreases t
  {
    if t.kids != [] {
      QuietFlush(t.kids[0]);
      BeatsOnly(t.kids[0].up);
    }
  }

  /** A chain on which nothing is under way, with the manager at its head. */
  ghost predicate QuietChain(t: Tree) {
    && t.node.manager && t.up == [] && Quiet(t) && Shaped(t) && Resting(t)
  }

  predicate Resting(t: Tree)
    decreases t
  {
    && Sound(t) && AllFresh(t.node.records) && UpAnswers(t.up)
    && forall i :: 0 <= i < |t.kids| ==> !t.kids[i].node.manager && Resting(t.kids[i])
  }

  lemma {:induction false} RestingInv(t: Tree)
    requires Resting(t) && Shaped(t) && Quiet(t)
    ensures Chain.Inv(t)
    decreases t
  {
    if t.kids != [] {
      RestingInv(t.kids[0]);
      QuietFlush(t.kids[0]);
      BeatsOnly(t.kids[0].up);
    }
  }

  lemma BeginFlight(t: Tree, orders: seq<Order>, kind: Kind)
    requires QuietChain(t) && Requests(orders)
    ensures Flight(t.(down := orders), kind) == OrdersOf(orders, kind)
  {
    QuietFlush(t);
    if t.kids != [] {
      QuietFlush(t.kids[0]);
      BeatsOnly(t.kids[0].up);
    }
  }

  lemma Begin(t: Tree, orders: seq<Order>)
    requires QuietChain(t) && Requests(orders) && StaysChain(ChainIds(t), true, orders)
    ensures var start := t.(down := orders);
      && Chain.Inv(start) && Shaped(start) && FlushedOk(start)
      && FlushedIds(start) == IdsAfter(ChainIds(t), true, orders)
      && FlushedAnswers(start) == AnswersTo(ChainIds(t), true, orders)
      && Flight(start, ExecKind) == OrdersOf(orders, ExecKind)
      && Flight(start, CreateKind) == OrdersOf(orders, CreateKind)
  {
    var start := t.(down := orders);
    RestingInv(t);
    QuietFlush(t);
    assert Base(start) == ChainIds(t);
    BeginFlight(t, orders, ExecKind);
    BeginFlight(t, orders, CreateKind);
  }

  // ---------------------------------------------------------------- main results

  lemma {:induction false} LookupsSafe(t: Tree)
    requires Chain.Inv(t) && Shaped(t) && FlushedOk(t)
    ensures NoLookupFails(t)
    decreases t
  {
    if t.kids != [] {
      if t.kids[0].up != [] {
        Chain.LookupSafe(t);
      }
      LookupsSafe(t.kids[0]);
    }
  }

  /** Any commands that keep the chain a chain, issued without waiting, in any interleaving:
      at every moment the commands of each type are accounted for by the answers delivered
      and what is still under way, and no lookup fails; at rest the answers, as a multiset,
      and the chain itself are those of serving the commands one after another. */
  lemma ChainIsLinearizable(t: Tree, orders: seq<Order>, ms: seq<Move>)
    requires QuietChain(t) && Requests(orders) && StaysChain(ChainIds(t), true, orders)
    requires Possible(t.(down := orders), ms) && AllCalm(ms)
    ensures var t' := Run(t.(down := orders), ms);
      && Shaped(t') && NoLookupFails(t')
      && Flight(t', ExecKind) == OrdersOf(orders, ExecKind)
      && Flight(t', CreateKind) == OrdersOf(orders, CreateKind)
      && multiset(t'.up) <= AnswersTo(ChainIds(t), true, orders)
      && (Quiet(t') ==>
            && multiset(t'.up) == AnswersTo(ChainIds(t), true, orders)
            && ChainIds(t') == IdsAfter(ChainIds(t), true, orders))
  {
    var start := t.(down := orders);
    Begin(t, orders);
    Chain.RunKeeps(start, ms);
    ManagerRun(start, ms);
    var t' := Run(start, ms);
    LookupsSafe(t');
    NoBeats(t'.up);
    if Quiet(t') {
      QuietFlush(t');
    }
  }

  /** As many answers as commands. */
  lemma {:induction false} OneAnswerEach(ids: seq<nat>, manager: bool, orders: seq<Order>)
    requires ids != [] && Requests(orders)
    ensures |AnswersTo(ids, manager, orders)| == |orders|
    decreases |orders|
  {
    if orders != [] {
      OneAnswerEach(Serve(ids, manager, orders[0]).ids, manager, orders[1..]);
    }
  }

  // ---------------------------------------------------------------- runs end

  /** At depth d of a chain that will be n long: a response is d links from the client, an
      order may go down to the end and its answer all the way back. */
  function Distance(t: Tree, d: nat, n: nat): nat
    requires Shaped(t)
    decreases t
  {
    Times(|t.up|, d) + Times(|t.down|, OrderCost(d, n))
    + if t.kids == [] then 0 else Distance(t.kids[0], d + 1, n)
  }

  lemma {:induction false} IdsGrow(ids: seq<nat>, manager: bool, orders: seq<Order>)
    requires ids != [] && Requests(orders)
    ensures |ids| <= |IdsAfter(ids, manager, orders)|
    decreases |orders|
  {
    if orders != [] {
      IdsGrowOne(ids, manager, orders[0]);
      IdsGrow(Serve(ids, manager, orders[0]).ids, manager, orders[1..]);
    }
  }

  lemma {:induction false} IdsGrowOne(ids: seq<nat>, manager: bool, o: Order)
    requires ids != [] && IsRequest(o)
    ensures |ids| <= |Serve(ids, manager, o).ids|
    decreases |ids|
  {
    if |ids| > 1 {
      IdsGrowOne(ids[1..], false, o);
    }
  }

  function OrderCost(d: nat, n: nat): nat {
    if d <= n then 2 * n - d + 1 else 0
  }

  /** Distance, put together from its parts. */
  lemma DistanceParts(t: Tree, d: nat, n: nat, ups: nat, downs: nat, below: nat)
    requires Shaped(t) && ups == |t.up| && downs == |t.down|
    requires below == if t.kids == [] then 0 else Distance(t.kids[0], d + 1, n)
    ensures Distance(t, d, n) == Times(ups, d) + Times(downs, OrderCost(d, n)) + below
  {
  }

  lemma LocalNearer(t: Tree, t': Tree, d: nat, n: nat)
    requires Shaped(t) && Shaped(t') && t.down != [] && d <= n
    requires |t'.up| == |t.up| + 1 && |t'.down| == |t.down| - 1
    requires t'.kids == t.kids || (t.kids == [] && exists x :: t'.kids == [Leaf(x)])
    ensures Distance(t', d, n) < Distance(t, d, n)
  {
    var below := if t.kids == [] then 0 else Distance(t.kids[0], d + 1, n);
    DistanceParts(t, d, n, |t.up|, |t.down|, below);
    DistanceParts(t', d, n, |t.up| + 1, |t.down| - 1, below);
    TimesNext(|t.down| - 1, OrderCost(d, n));
    TimesNext(|t.up|, d);
  }

  lemma SentNearer(t: Tree, t': Tree, d: nat, n: nat)
    requires Shaped(t) && Shaped(t') && t.down != [] && d <= n && t.kids != []
    requires t'.up == t.up && |t'.down| == |t.down| - 1 && t.kids[0].attached
    requires t'.kids == [Send(t.kids[0], [t.down[0]])]
    ensures Distance(t', d, n) < Distance(t, d, n)
  {
    var kid, kid' := t.kids[0], t'.kids[0];
    var deeper := if kid.kids == [] then 0 else Distance(kid.kids[0], d + 2, n);
    DistanceParts(kid, d + 1, n, |kid.up|, |kid.down|, deeper);
    DistanceParts(kid', d + 1, n, |kid.up|, |kid.down| + 1, deeper);
    TimesNext(|kid.down|, OrderCost(d + 1, n));
    DistanceParts(t, d, n, |t.up|, |t.down|, Distance(kid, d + 1, n));
    DistanceParts(t', d, n, |t.up|, |t.down| - 1, Distance(kid', d + 1, n));
    TimesNext(|t.down| - 1, OrderCost(d, n));
  }

  lemma TakeNearer(t: Tree, d: nat, n: nat)
    requires Chain.Inv(t) && Shaped(t) && FlushedOk(t) && t.down != [] && d <= n
    ensures Shaped(ApplyTake(t)) && Distance(ApplyTake(t), d, n) < Distance(t, d, n)
  {
    var t' := ApplyTake(t);
    assert t.down[0] in t.down;
    Chain.TakeKeeps(t);
    if Local(t) {
      LocalEffect(t);
      LocalShape(t);
      LocalNearer(t, t', d, n);
    } else {
      PassedEffect(t);
      PassedShape(t);
      assert t'.kids == [Send(t.kids[0], [t.down[0]])] && t'.up == t.up;
      SentNearer(t, t', d, n);
    }
  }

  lemma PopNearer(t: Tree, t': Tree, d: nat, n: nat, out: nat)
    requires Shaped(t) && Shaped(t') && t.kids != [] && t.kids[0].up != [] && t'.kids == [Pop(t.kids[0])]
    requires t'.down == t.down && |t'.up| == |t.up| + out && out <= 1
    ensures Distance(t', d, n) < Distance(t, d, n)
  {
    TimesNext(|t.kids[0].up| - 1, d + 1);
    TimesNext(|t.up|, d);
  }

  lemma CountNearer(t: Tree, i: nat, d: nat, n: nat)
    requires Chain.Inv(t) && Shaped(t) && FlushedOk(t) && Enabled(t, Count(i))
    ensures Shaped(ApplyCount(t, i)) && Distance(ApplyCount(t, i), d, n) < Distance(t, d, n)
  {
    CountStep(t, i);
    CountEffect(t, i);
    PopNearer(t, ApplyCount(t, i), d, n, if t.kids[0].up[0].Heartbeat? then 0 else 1);
  }

  lemma BeatNearer(t: Tree, time: int, d: nat, n: nat)
    requires Shaped(t)
    ensures var t' := t.(up := t.up + [Heartbeat(t.node.id, time)]);
      Shaped(t') && Distance(t', d, n) == Distance(t, d, n) + d
  {
    TimesNext(|t.up|, d);
  }

  lemma InsideNearer(t: Tree, kid: Tree, d: nat, n: nat, less: nat)
    requires Shaped(t) && t.kids != [] && Shaped(kid) && Distance(kid, d + 1, n) < Distance(t.kids[0], d + 1, n) + less
    ensures var t' := t.(kids := t.kids[0 := kid]);
      Shaped(t') && Distance(t', d, n) < Distance(t, d, n) + less
  {
  }

  lemma DeeperFits(t: Tree, d: nat, n: nat)
    requires Shaped(t) && t.kids != [] && d + |FlushedIds(t)| <= n
    ensures d + 1 + |FlushedIds(t.kids[0])| <= n
  {
    IdsGrow(Base(t), t.node.manager, t.down);
  }

  /** Every calm move but a heartbeat brings the end nearer. */
  lemma {:induction false} Nearer(t: Tree, m: Move, d: nat, n: nat)
    requires Chain.Inv(t) && Shaped(t) && FlushedOk(t) && Enabled(t, m) && Calm(m) && d + |FlushedIds(t)| <= n
    ensures Shaped(Apply(t, m)) && Distance(Apply(t, m), d, n) < Distance(t, d, n) + BeatCost(m, d)
    decreases m
  {
    match m
    case Take => TakeNearer(t, d, n);
    case Count(i) => CountNearer(t, i, d, n);
    case Beat(time) => BeatNearer(t, time, d, n);
    case Inside(i, m') =>
      DeeperFits(t, d, n);
      Nearer(t.kids[0], m', d + 1, n);
      InsideNearer(t, Apply(t.kids[0], m'), d, n, BeatCost(m', d + 1));
    case Sweep(_) =>
    case Exit =>
  }

  /** A run on a chain is bounded by the commands, the final length and the heartbeats. */
  lemma {:induction false} ChainRunEnds(t: Tree, ms: seq<Move>, n: nat)
    requires Chain.Inv(t) && Shaped(t) && FlushedOk(t) && Possible(t, ms) && AllCalm(ms) && |FlushedIds(t)| <= n
    ensures |ms| <= Distance(t, 0, n) + BeatCosts(ms)
    decreases |ms|
  {
    if ms != [] {
      Chain.Step(t, ms[0]);
      Nearer(t, ms[0], 0, n);
      ChainRunEnds(Apply(t, ms[0]), ms[1..], n);
    }
  }

  /** Until the chain is at rest some message can be handled. */
  lemma {:induction false} ChainProgress(t: Tree) returns (m: Move)
    requires Chain.Inv(t) && Shaped(t) && FlushedOk(t) && !Quiet(t)
    ensures Enabled(t, m) && Calm(m) && !IsBeat(m)
    decreases t
  {
    if t.down != [] {
      m := Take;
    } else if t.kids[0].up != [] {
      Chain.LookupSafe(t);
      m := Count(0);
    } else {
      var m' := ChainProgress(t.kids[0]);
      m := Inside(0, m');
    }
  }
}

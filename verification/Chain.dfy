/**
Commands on a chain, where every process has at most one child, may be pipelined without
any restriction on their overlap: the concurrent tree is linearizable.

`Serve` is the sequential specification: one command at a time on the list of ids from the
manager down.  `FlushedIds` and `FlushedAnswers` say what a state of the concurrent chain
amounts to once everything under way has been dealt with, older commands (those further
down) first.  No move changes either of them.
*/
module Chain {
  import opened Messages
  import opened NodeSpec
  import opened Records
  import opened TreeSystem
  import opened SingleCommand

  predicate IsRequest(o: Order) {
    o.Do? && (o.cmd.Exec? || o.cmd.Create?)
  }

  function OrderKind(o: Order): Kind
    requires IsRequest(o)
  {
    if o.cmd.Exec? then ExecKind else CreateKind
  }

  // ---------------------------------------------------------------- the sequential chain

  /** What becomes of a command on a quiet chain: the ids afterwards, the answer, and whether
      the chain has stayed a chain. */
  datatype Served = Served(ids: seq<nat>, answer: Response, ok: bool)

  function Serve(ids: seq<nat>, manager: bool, o: Order): (s: Served)
    requires ids != [] && IsRequest(o)
    ensures s.ids != []
  {
    match o.cmd
    case Exec(id, k) =>
      if !manager && id == ids[0] then Served(ids, GoodExecResp(id, Sum(k)), true)
      else if |ids| == 1 then Served(ids, BadExecResp(id), true)
      else Below(ids, Serve(ids[1..], false, o))
    case Create(x, p) =>
      if x == ids[0] then Served(ids, NodeExistResponse(x), true)
      else if p == ids[0] then
        match o.fork
        case ForkFailed => Served(ids, BadCreateResp(p, x), true)
        case Forked(pid, _) => Served(ids + [x], GoodCreateResp(x, pid), |ids| == 1)
      else if |ids| == 1 then Served(ids, BadCreateResp(p, x), true)
      else Below(ids, Serve(ids[1..], false, o))
    case PrintTree => Served(ids, InvalidRequest, true)
  }

  function Below(ids: seq<nat>, s: Served): Served
    requires ids != []
  {
    Served([ids[0]] + s.ids, s.answer, s.ok)
  }

  predicate Requests(orders: seq<Order>) {
    forall o :: o in orders ==> IsRequest(o)
  }

  function IdsAfter(ids: seq<nat>, manager: bool, orders: seq<Order>): (r: seq<nat>)
    requires ids != [] && Requests(orders)
    ensures r != []
    decreases |orders|
  {
    if orders == [] then ids else IdsAfter(Serve(ids, manager, orders[0]).ids, manager, orders[1..])
  }

  function AnswersTo(ids: seq<nat>, manager: bool, orders: seq<Order>): multiset<Response>
    requires ids != [] && Requests(orders)
    decreases |orders|
  {
    if orders == [] then multiset{}
    else
      var s := Serve(ids, manager, orders[0]);
      multiset{s.answer} + AnswersTo(s.ids, manager, orders[1..])
  }

  /** Serving the commands in order, every new node goes under the last one. */
  predicate StaysChain(ids: seq<nat>, manager: bool, orders: seq<Order>)
    requires ids != [] && Requests(orders)
    decreases |orders|
  {
    orders != [] ==>
      var s := Serve(ids, manager, orders[0]);
      s.ok && StaysChain(s.ids, manager, orders[1..])
  }

  lemma {:induction false} OneMoreOrder(ids: seq<nat>, manager: bool, orders: seq<Order>, o: Order)
    requires ids != [] && Requests(orders) && IsRequest(o)
    ensures Requests(orders + [o])
    ensures var last := Serve(IdsAfter(ids, manager, orders), manager, o);
      && IdsAfter(ids, manager, orders + [o]) == last.ids
      && AnswersTo(ids, manager, orders + [o]) == AnswersTo(ids, manager, orders) + multiset{last.answer}
      && (StaysChain(ids, manager, orders + [o]) <==> StaysChain(ids, manager, orders) && last.ok)
    decreases |orders|
  {
    if orders == [] {
      assert [o][1..] == [];
      assert orders + [o] == [o];
    } else {
      assert (orders + [o])[1..] == orders[1..] + [o];
      OneMoreOrder(Serve(ids, manager, orders[0]).ids, manager, orders[1..], o);
    }
  }

  // ---------------------------------------------------------------- what a state amounts to

  predicate Shaped(t: Tree)
    decreases t
  {
    && |t.kids| <= 1 && Requests(t.down)
    && forall i :: 0 <= i < |t.kids| ==> Shaped(t.kids[i])
  }

  /** The ids from this process down, once everything below has been dealt with. */
  ghost function Base(t: Tree): (r: seq<nat>)
    requires Shaped(t)
    ensures r != []
    decreases t, 0
  {
    if t.kids == [] then [t.node.id] else [t.node.id] + FlushedIds(t.kids[0])
  }

  ghost function FlushedIds(t: Tree): (r: seq<nat>)
    requires Shaped(t)
    ensures r != []
    decreases t, 1
  {
    IdsAfter(Base(t), t.node.manager, t.down)
  }

  /** The responses that are not heartbeats. */
  function Answers(up: seq<Response>): multiset<Response> {
    if up == [] then multiset{}
    else (if up[0].Heartbeat? then multiset{} else multiset{up[0]}) + Answers(up[1..])
  }

  ghost function FlushedAnswers(t: Tree): multiset<Response>
    requires Shaped(t)
    decreases t
  {
    Answers(t.up)
    + (if t.kids == [] then multiset{} else FlushedAnswers(t.kids[0]))
    + AnswersTo(Base(t), t.node.manager, t.down)
  }

  ghost predicate FlushedOk(t: Tree)
    requires Shaped(t)
    decreases t
  {
    && StaysChain(Base(t), t.node.manager, t.down)
    && (t.kids != [] ==> FlushedOk(t.kids[0]))
  }

  // ---------------------------------------------------------------- the invariant

  function AnswersOf(up: seq<Response>, kind: Kind): nat {
    if up == [] then 0 else (if IsAnswer(up[0]) && KindOf(up[0]) == kind then 1 else 0) + AnswersOf(up[1..], kind)
  }

  function OrdersOf(down: seq<Order>, kind: Kind): nat
    requires Requests(down)
  {
    if down == [] then 0 else (if OrderKind(down[0]) == kind then 1 else 0) + OrdersOf(down[1..], kind)
  }

  /** Commands of a kind that a subtree was given and whose answer the parent has not counted. */
  function Flight(t: Tree, kind: Kind): nat
    requires Shaped(t)
    decreases t
  {
    AnswersOf(t.up, kind) + OrdersOf(t.down, kind) + if t.kids == [] then 0 else Flight(t.kids[0], kind)
  }

  predicate UpAnswers(up: seq<Response>) {
    forall r :: r in up ==> r.Heartbeat? || IsAnswer(r)
  }

  ghost predicate Inv(t: Tree)
    decreases t
  {
    && Sound(t) && |t.kids| <= 1 && Requests(t.down) && UpAnswers(t.up)
    && AllFresh(t.node.records)
    && forall i :: 0 <= i < |t.kids| ==>
         && !t.kids[i].node.manager && Inv(t.kids[i]) && Shaped(t.kids[i])
         && Flight(t.kids[i], ExecKind) <= |Of(t.node.records, ExecKind)|
         && Flight(t.kids[i], CreateKind) <= |Of(t.node.records, CreateKind)|
  }

  ghost predicate Kept(t: Tree, t': Tree)
    requires Shaped(t)
  {
    && Inv(t') && Shaped(t')
    && t'.node.id == t.node.id && t'.node.manager == t.node.manager && t'.attached == t.attached
    && FlushedIds(t') == FlushedIds(t)
    && FlushedAnswers(t') == FlushedAnswers(t)
    && FlushedOk(t')
    && Flight(t', ExecKind) == Flight(t, ExecKind)
    && Flight(t', CreateKind) == Flight(t, CreateKind)
  }

  // ---------------------------------------------------------------- small facts

  lemma {:induction false} AddedAnswer(up: seq<Response>, r: Response, kind: Kind)
    ensures Answers(up + [r]) == Answers(up) + if r.Heartbeat? then multiset{} else multiset{r}
    ensures AnswersOf(up + [r], kind) == AnswersOf(up, kind) + if IsAnswer(r) && KindOf(r) == kind then 1 else 0
  {
    if up == [] {
      assert up + [r] == [r];
      assert [r][1..] == [];
    } else {
      assert (up + [r])[1..] == up[1..] + [r];
      AddedAnswer(up[1..], r, kind);
    }
  }

  lemma {:induction false} AddedOrder(down: seq<Order>, o: Order, kind: Kind)
    requires Requests(down) && IsRequest(o)
    ensures Requests(down + [o])
    ensures OrdersOf(down + [o], kind) == OrdersOf(down, kind) + if OrderKind(o) == kind then 1 else 0
  {
    if down == [] {
      assert down + [o] == [o];
      assert [o][1..] == [];
    } else {
      assert (down + [o])[1..] == down[1..] + [o];
      AddedOrder(down[1..], o, kind);
    }
  }

  // ---------------------------------------------------------------- handling an order

  /** The process decides the command itself, or there is nobody to pass it on to. */
  predicate Local(t: Tree)
    requires t.down != [] && IsRequest(t.down[0])
  {
    var c := t.down[0].cmd;
    || t.kids == []
    || (c.Exec? && !t.node.manager && c.nodeId == t.node.id)
    || (c.Create? && (c.newNodeId == t.node.id || c.parentId == t.node.id))
  }

  lemma LocalEffect(t: Tree)
    requires Inv(t) && Shaped(t) && t.down != [] && IsRequest(t.down[0]) && Local(t) && FlushedOk(t)
    ensures var o := t.down[0];
      var s := Serve(Base(t), t.node.manager, o);
      var e := OnOrder(t.node, o);
      && e.up == [s.answer] && e.down == [] && IsAnswer(s.answer) && KindOf(s.answer) == OrderKind(o)
      && e.node == t.node.(records := e.node.records, children := e.node.children)
      && (e.node.records == t.node.records || e.node.records == t.node.records + [Fresh(OrderKind(o))])
      && ((e.node.children == t.node.children && s.ids == Base(t))
          || (&& t.kids == [] && o.cmd.Create? && s.ids == [t.node.id, o.cmd.newNodeId]
              && e.node.children == [Child(o.cmd.newNodeId, o.fork.pid, o.fork.at)]))
  {
  }

  lemma PassedEffect(t: Tree)
    requires Inv(t) && Shaped(t) && t.down != [] && IsRequest(t.down[0]) && !Local(t)
    ensures var o := t.down[0];
      var e := OnOrder(t.node, o);
      && e.up == [] && e.down == [o]
      && e.node == t.node.(records := t.node.records + [Fresh(OrderKind(o))])
      && Serve(Base(t), t.node.manager, o) == Below(Base(t), Serve(FlushedIds(t.kids[0]), false, o))
  {
    assert Base(t)[1..] == FlushedIds(t.kids[0]);
  }

  lemma LeafFacts(id: nat)
    ensures Inv(Leaf(id)) && Shaped(Leaf(id)) && FlushedIds(Leaf(id)) == [id]
    ensures FlushedAnswers(Leaf(id)) == multiset{} && FlushedOk(Leaf(id))
    ensures Flight(Leaf(id), ExecKind) == 0 && Flight(Leaf(id), CreateKind) == 0
  {
  }

  /** The tree after its first order. */
  ghost function AfterTake(t: Tree, node: NodeState, up: seq<Response>, kids: seq<Tree>): Tree
    requires t.down != []
  {
    Tree(node, t.attached, t.exited, t.down[1..], t.up + up, kids, t.counted, t.relayed)
  }

  lemma AppendFresh(records: seq<Record>, kind: Kind, other: Kind)
    requires AllFresh(records)
    ensures AllFresh(records + [Fresh(kind)])
    ensures |Of(records + [Fresh(kind)], other)| == |Of(records, other)| + if other == kind then 1 else 0
  {
    AppendedOf(records, kind, other);
  }

  /** What is flushed and in flight, given the parts of a tree. */
  ghost predicate Totals(t: Tree, base: seq<nat>, below: multiset<Response>, ok: bool, ex: nat, cr: nat)
    requires Shaped(t) && base != []
  {
    && FlushedIds(t) == IdsAfter(base, t.node.manager, t.down)
    && FlushedAnswers(t) == Answers(t.up) + below + AnswersTo(base, t.node.manager, t.down)
    && (FlushedOk(t) <==> StaysChain(base, t.node.manager, t.down) && ok)
    && Flight(t, ExecKind) == AnswersOf(t.up, ExecKind) + OrdersOf(t.down, ExecKind) + ex
    && Flight(t, CreateKind) == AnswersOf(t.up, CreateKind) + OrdersOf(t.down, CreateKind) + cr
  }

  lemma LastTotals(t: Tree)
    requires Shaped(t) && t.kids == []
    ensures Base(t) == [t.node.id] && Totals(t, [t.node.id], multiset{}, true, 0, 0)
  {
  }

  lemma InnerTotals(t: Tree)
    requires Shaped(t) && t.kids != []
    ensures var kid := t.kids[0];
      && Base(t) == [t.node.id] + FlushedIds(kid)
      && Totals(t, Base(t), FlushedAnswers(kid), FlushedOk(kid), Flight(kid, ExecKind), Flight(kid, CreateKind))
  {
  }

  lemma AnsweredFlight(up: seq<Response>, down: seq<Order>, a: Response, kind: Kind)
    requires Requests(down) && down != [] && IsAnswer(a) && KindOf(a) == OrderKind(down[0])
    ensures AnswersOf(up + [a], kind) + OrdersOf(down[1..], kind) == AnswersOf(up, kind) + OrdersOf(down, kind)
  {
    AddedAnswer(up, a, kind);
  }

  lemma AnsweredList(base: seq<nat>, manager: bool, down: seq<Order>, up: seq<Response>, below: multiset<Response>)
    requires base != [] && Requests(down) && down != []
    requires !Serve(base, manager, down[0]).answer.Heartbeat?
    ensures var s := Serve(base, manager, down[0]);
      && IdsAfter(base, manager, down) == IdsAfter(s.ids, manager, down[1..])
      && (StaysChain(base, manager, down) ==> StaysChain(s.ids, manager, down[1..]))
      && Answers(up) + below + AnswersTo(base, manager, down)
        == Answers(up + [s.answer]) + below + AnswersTo(s.ids, manager, down[1..])
  {
    AddedAnswer(up, Serve(base, manager, down[0]).answer, ExecKind);
  }

  /** Two states of a process, the first with an order in front that the second has answered. */
  ghost predicate Answered(t: Tree, t': Tree, base: seq<nat>, base': seq<nat>)
    requires base != []
  {
    && t.down != [] && IsRequest(t.down[0]) && t'.down == t.down[1..] && t'.node.manager == t.node.manager
    && var s := Serve(base, t.node.manager, t.down[0]);
       && t'.up == t.up + [s.answer] && s.ids == base'
       && IsAnswer(s.answer) && KindOf(s.answer) == OrderKind(t.down[0])
  }

  lemma AnsweredFlights(t: Tree, t': Tree, base: seq<nat>, base': seq<nat>, below: multiset<Response>,
                        ok: bool, ex: nat, cr: nat)
    requires Shaped(t) && Shaped(t') && base != [] && base' != [] && Answered(t, t', base, base')
    requires Totals(t, base, below, ok, ex, cr) && Totals(t', base', below, ok, ex, cr)
    ensures Flight(t', ExecKind) == Flight(t, ExecKind) && Flight(t', CreateKind) == Flight(t, CreateKind)
  {
    var a := Serve(base, t.node.manager, t.down[0]).answer;
    AnsweredFlight(t.up, t.down, a, ExecKind);
    AnsweredFlight(t.up, t.down, a, CreateKind);
  }

  lemma AnsweredFlushed(t: Tree, t': Tree, base: seq<nat>, base': seq<nat>, below: multiset<Response>,
                        ok: bool, ex: nat, cr: nat)
    requires Shaped(t) && Shaped(t') && base != [] && base' != [] && Answered(t, t', base, base')
    requires Totals(t, base, below, ok, ex, cr) && Totals(t', base', below, ok, ex, cr) && FlushedOk(t)
    ensures FlushedIds(t') == FlushedIds(t) && FlushedAnswers(t') == FlushedAnswers(t) && FlushedOk(t')
  {
    AnsweredList(base, t.node.manager, t.down, t.up, below);
  }

  /** Taking one order off the front, its answer already on the link up. */
  lemma AnsweredTotals(t: Tree, t': Tree, o: Order, a: Response,
                       base: seq<nat>, base': seq<nat>, below: multiset<Response>, ok: bool, ex: nat, cr: nat)
    requires Shaped(t) && Shaped(t') && base != [] && base' != [] && IsRequest(o)
    requires t.down != [] && t.down[0] == o && t'.down == t.down[1..] && t'.up == t.up + [a]
    requires t'.node.manager == t.node.manager
    requires var s := Serve(base, t.node.manager, o); s.answer == a && s.ids == base'
    requires IsAnswer(a) && KindOf(a) == OrderKind(o)
    requires Totals(t, base, below, ok, ex, cr) && Totals(t', base', below, ok, ex, cr) && FlushedOk(t)
    ensures FlushedIds(t') == FlushedIds(t) && FlushedAnswers(t') == FlushedAnswers(t) && FlushedOk(t')
    ensures Flight(t', ExecKind) == Flight(t, ExecKind) && Flight(t', CreateKind) == Flight(t, CreateKind)
  {
    AnsweredFlights(t, t', base, base', below, ok, ex, cr);
    AnsweredFlushed(t, t', base, base', below, ok, ex, cr);
  }

  lemma LocalInv(t: Tree, t': Tree, kind: Kind)
    requires Inv(t) && Shaped(t) && t'.kids == t.kids && Requests(t'.down) && Sound(t') && UpAnswers(t'.up)
    requires t'.node.records == t.node.records || t'.node.records == t.node.records + [Fresh(kind)]
    ensures Inv(t') && Shaped(t')
  {
    AppendFresh(t.node.records, kind, ExecKind);
    AppendFresh(t.node.records, kind, CreateKind);
  }

  /** A command that is answered here while the chain below stays. */
  lemma TakeLocal(t: Tree, node: NodeState)
    requires Inv(t) && Shaped(t) && FlushedOk(t) && t.down != [] && IsRequest(t.down[0])
    requires node == t.node.(records := node.records)
    requires node.records == t.node.records || node.records == t.node.records + [Fresh(OrderKind(t.down[0]))]
    requires var s := Serve(Base(t), t.node.manager, t.down[0]);
      IsAnswer(s.answer) && KindOf(s.answer) == OrderKind(t.down[0]) && s.ids == Base(t)
    ensures Kept(t, AfterTake(t, node, [Serve(Base(t), t.node.manager, t.down[0]).answer], t.kids))
  {
    var o := t.down[0];
    var a := Serve(Base(t), t.node.manager, o).answer;
    var t' := AfterTake(t, node, [a], t.kids);
    LocalInv(t, t', OrderKind(o));
    if t.kids == [] {
      LastTotals(t);
      LastTotals(t');
      AnsweredTotals(t, t', o, a, Base(t), Base(t), multiset{}, true, 0, 0);
    } else {
      var kid := t.kids[0];
      InnerTotals(t);
      InnerTotals(t');
      AnsweredTotals(t, t', o, a, Base(t), Base(t),
                     FlushedAnswers(kid), FlushedOk(kid), Flight(kid, ExecKind), Flight(kid, CreateKind));
    }
  }

  /** A command that makes the last process of the chain start the next one. */
  lemma TakeFork(t: Tree, node: NodeState, x: nat)
    requires Inv(t) && Shaped(t) && FlushedOk(t) && t.down != [] && t.kids == [] && IsRequest(t.down[0])
    requires node == t.node.(children := node.children)
    requires |node.children| == 1 && node.children[0].id == x
    requires var s := Serve(Base(t), t.node.manager, t.down[0]);
      IsAnswer(s.answer) && KindOf(s.answer) == OrderKind(t.down[0]) && s.ids == [t.node.id, x]
    ensures Kept(t, AfterTake(t, node, [Serve(Base(t), t.node.manager, t.down[0]).answer], [Leaf(x)]))
  {
    var o := t.down[0];
    var a := Serve(Base(t), t.node.manager, o).answer;
    var t' := AfterTake(t, node, [a], [Leaf(x)]);
    LeafFacts(x);
    LastTotals(t);
    assert Inv(t') && Shaped(t');
    InnerTotals(t');
    assert Base(t') == [t.node.id, x];
    AnsweredTotals(t, t', o, a, Base(t), Base(t'), multiset{}, true, 0, 0);
  }

  /** One more order for a subtree. */
  lemma GivenOrder(kid: Tree, o: Order)
    requires Inv(kid) && Shaped(kid) && FlushedOk(kid) && kid.attached && IsRequest(o) && !kid.node.manager
    ensures var kid' := Send(kid, [o]);
      var s := Serve(FlushedIds(kid), false, o);
      && Inv(kid') && Shaped(kid')
      && FlushedIds(kid') == s.ids
      && FlushedAnswers(kid') == FlushedAnswers(kid) + multiset{s.answer}
      && (FlushedOk(kid') <==> s.ok)
      && Flight(kid', ExecKind) == Flight(kid, ExecKind) + (if OrderKind(o) == ExecKind then 1 else 0)
      && Flight(kid', CreateKind) == Flight(kid, CreateKind) + (if OrderKind(o) == CreateKind then 1 else 0)
  {
    var kid' := Send(kid, [o]);
    OneMoreOrder(Base(kid), false, kid.down, o);
    AddedOrder(kid.down, o, ExecKind);
    AddedOrder(kid.down, o, CreateKind);
    assert Base(kid') == Base(kid);
  }

  lemma PassedInv(t: Tree, t': Tree, kid: Tree, kind: Kind)
    requires Inv(t) && Shaped(t) && t.kids != [] && t'.kids == [kid]
    requires Requests(t'.down) && Sound(t') && UpAnswers(t'.up)
    requires Inv(kid) && Shaped(kid) && !kid.node.manager
    requires t'.node.records == t.node.records + [Fresh(kind)]
    requires Flight(kid, ExecKind) == Flight(t.kids[0], ExecKind) + (if kind == ExecKind then 1 else 0)
    requires Flight(kid, CreateKind) == Flight(t.kids[0], CreateKind) + (if kind == CreateKind then 1 else 0)
    ensures Inv(t') && Shaped(t')
  {
    AppendFresh(t.node.records, kind, ExecKind);
    AppendFresh(t.node.records, kind, CreateKind);
  }

  /** What serving the first order of a list contributes. */
  lemma FirstServed(base: seq<nat>, manager: bool, down: seq<Order>)
    requires base != [] && Requests(down) && down != []
    ensures IsRequest(down[0])
    ensures var s := Serve(base, manager, down[0]);
      && IdsAfter(base, manager, down) == IdsAfter(s.ids, manager, down[1..])
      && AnswersTo(base, manager, down) == multiset{s.answer} + AnswersTo(s.ids, manager, down[1..])
      && (StaysChain(base, manager, down) <==> s.ok && StaysChain(s.ids, manager, down[1..]))
      && OrdersOf(down, ExecKind) == OrdersOf(down[1..], ExecKind) + (if OrderKind(down[0]) == ExecKind then 1 else 0)
      && OrdersOf(down, CreateKind)
           == OrdersOf(down[1..], CreateKind) + (if OrderKind(down[0]) == CreateKind then 1 else 0)
  {
    assert down[0] in down;
  }

  lemma Regroup(a: multiset<Response>, b: multiset<Response>, m: multiset<Response>, r: multiset<Response>)
    ensures a + b + (m + r) == a + (b + m) + r
  {
  }

  /** Taking one order off the front that now waits one process further down. */
  lemma PassedAnswers(t: Tree, t': Tree, base: seq<nat>, below: multiset<Response>)
    requires base != [] && Requests(t.down) && t.down != [] && IsRequest(t.down[0])
    requires t'.down == t.down[1..] && t'.up == t.up && t'.node.manager == t.node.manager
    ensures var s := Serve(base, t.node.manager, t.down[0]);
      Answers(t.up) + below + AnswersTo(base, t.node.manager, t.down)
      == Answers(t'.up) + (below + multiset{s.answer}) + AnswersTo(s.ids, t'.node.manager, t'.down)
  {
    var s := Serve(base, t.node.manager, t.down[0]);
    FirstServed(base, t.node.manager, t.down);
    Regroup(Answers(t.up), below, multiset{s.answer}, AnswersTo(s.ids, t.node.manager, t.down[1..]));
  }

  lemma PassedRest(down: seq<Order>, manager: bool, base: seq<nat>, ok: bool)
    requires base != [] && Requests(down) && down != [] && IsRequest(down[0])
    requires StaysChain(base, manager, down)
    requires Serve(base, manager, down[0]).ok ==> ok
    ensures var s := Serve(base, manager, down[0]);
      && IdsAfter(s.ids, manager, down[1..]) == IdsAfter(base, manager, down)
      && StaysChain(s.ids, manager, down[1..]) && ok
  {
    FirstServed(base, manager, down);
  }

  /** A command that is passed on. */
  ghost predicate PassOn(t: Tree, t': Tree) {
    && Inv(t) && Shaped(t) && FlushedOk(t) && t.down != [] && t.kids != [] && IsRequest(t.down[0])
    && t' == AfterTake(t, t.node.(records := t.node.records + [Fresh(OrderKind(t.down[0]))]), [],
                       Broadcast(t.kids, [t.down[0]]))
    && Serve(Base(t), t.node.manager, t.down[0])
         == Below(Base(t), Serve(FlushedIds(t.kids[0]), false, t.down[0]))
  }

  lemma PassOnParts(t: Tree, t': Tree)
    requires PassOn(t, t')
    ensures var o := t.down[0];
      var kid := Send(t.kids[0], [o]);
      var s := Serve(Base(t), t.node.manager, o);
      && Inv(t') && Shaped(t') && t'.kids == [kid] && t'.up == t.up && Shaped(kid)
      && Base(t') == s.ids
      && FlushedAnswers(kid) == FlushedAnswers(t.kids[0]) + multiset{s.answer}
      && (FlushedOk(kid) <==> s.ok)
      && Flight(kid, ExecKind) == Flight(t.kids[0], ExecKind) + (if OrderKind(o) == ExecKind then 1 else 0)
      && Flight(kid, CreateKind) == Flight(t.kids[0], CreateKind) + (if OrderKind(o) == CreateKind then 1 else 0)
  {
    var o := t.down[0];
    var kid := Send(t.kids[0], [o]);
    assert t'.kids == [kid] && t'.up == t.up;
    GivenOrder(t.kids[0], o);
    PassedInv(t, t', kid, OrderKind(o));
  }

  lemma PassOnIds(t: Tree, t': Tree)
    requires PassOn(t, t')
    ensures Shaped(t') && FlushedIds(t') == FlushedIds(t) && FlushedOk(t')
  {
    PassOnParts(t, t');
    PassedRest(t.down, t.node.manager, Base(t), FlushedOk(t'.kids[0]));
  }

  lemma PassOnAnswers(t: Tree, t': Tree)
    requires PassOn(t, t')
    ensures Shaped(t') && FlushedAnswers(t') == FlushedAnswers(t)
  {
    PassOnParts(t, t');
    PassedAnswers(t, t', Base(t), FlushedAnswers(t.kids[0]));
  }

  lemma PassOnFlight(t: Tree, t': Tree)
    requires PassOn(t, t')
    ensures Shaped(t')
    ensures Flight(t', ExecKind) == Flight(t, ExecKind) && Flight(t', CreateKind) == Flight(t, CreateKind)
  {
    PassOnParts(t, t');
    FirstServed(Base(t), t.node.manager, t.down);
  }

  lemma TakePassed(t: Tree, t': Tree)
    requires PassOn(t, t')
    ensures Kept(t, t')
  {
    PassOnParts(t, t');
    PassOnIds(t, t');
    PassOnAnswers(t, t');
    PassOnFlight(t, t');
  }

  lemma LocalShape(t: Tree)
    requires Inv(t) && Shaped(t) && FlushedOk(t) && t.down != [] && IsRequest(t.down[0]) && Local(t)
    ensures var e := OnOrder(t.node, t.down[0]);
      ApplyTake(t) == AfterTake(t, e.node, e.up,
        if e.node.children == t.node.children then t.kids else [Leaf(t.down[0].cmd.newNodeId)])
  {
    LocalEffect(t);
    BroadcastNothing(t.kids);
  }

  lemma PassedShape(t: Tree)
    requires Inv(t) && Shaped(t) && t.down != [] && IsRequest(t.down[0]) && !Local(t)
    ensures ApplyTake(t) == AfterTake(t, OnOrder(t.node, t.down[0]).node, [], Broadcast(t.kids, [t.down[0]]))
  {
    PassedEffect(t);
  }

  lemma TakeKeeps(t: Tree)
    requires Inv(t) && Shaped(t) && FlushedOk(t) && t.down != []
    ensures Kept(t, ApplyTake(t))
  {
    var o := t.down[0];
    assert o in t.down;
    var node := OnOrder(t.node, o).node;
    if !Local(t) {
      PassedEffect(t);
      PassedShape(t);
      TakePassed(t, ApplyTake(t));
    } else {
      LocalEffect(t);
      LocalShape(t);
      if node.children == t.node.children {
        TakeLocal(t, node);
      } else {
        TakeFork(t, node, o.cmd.newNodeId);
      }
    }
  }

  // ---------------------------------------------------------------- counting a response

  /** With a single child every answer fills a fresh record, removes it and goes on. */
  lemma AnswerEffect(s: NodeState, r: Response)
    requires IsAnswer(r) && LookupOk(s, r) && |s.children| == 1 && AllFresh(s.records)
    ensures var e := OnResponse(s, r);
      && e.up == [r] && e.node == s.(records := e.node.records) && AllFresh(e.node.records)
      && |Of(e.node.records, ExecKind)| == |Of(s.records, ExecKind)| - (if KindOf(r) == ExecKind then 1 else 0)
      && |Of(e.node.records, CreateKind)| == |Of(s.records, CreateKind)| - (if KindOf(r) == CreateKind then 1 else 0)
  {
    var i := Find(s.records, KindOf(r));
    assert s.records[i] in s.records;
    var other := if KindOf(r) == ExecKind then CreateKind else ExecKind;
    HeadOf(s.records, KindOf(r), Fresh(KindOf(r)), other);
  }

  /** What a tree owes apart from the responses on its own link up. */
  ghost function Pending(t: Tree): multiset<Response>
    requires Shaped(t)
  {
    (if t.kids == [] then multiset{} else FlushedAnswers(t.kids[0])) + AnswersTo(Base(t), t.node.manager, t.down)
  }

  /** Two trees that differ in their link up only. */
  ghost predicate OnlyUp(t: Tree, t': Tree) {
    && t'.kids == t.kids && t'.down == t.down && t'.attached == t.attached && t'.exited == t.exited
    && t'.node == t.node
  }

  lemma SameBelow(t: Tree, t': Tree)
    requires Shaped(t) && OnlyUp(t, t')
    ensures Shaped(t') && FlushedIds(t') == FlushedIds(t) && (FlushedOk(t') <==> FlushedOk(t))
    ensures Pending(t') == Pending(t)
    ensures FlushedAnswers(t) == Answers(t.up) + Pending(t) && FlushedAnswers(t') == Answers(t'.up) + Pending(t)
  {
    assert Base(t') == Base(t);
  }

  lemma SameFlight(t: Tree, t': Tree, kind: Kind)
    requires Shaped(t) && OnlyUp(t, t') && Shaped(t')
    ensures Flight(t', kind) - AnswersOf(t'.up, kind) == Flight(t, kind) - AnswersOf(t.up, kind)
  {
  }

  lemma SameInv(t: Tree, t': Tree)
    requires Inv(t) && OnlyUp(t, t') && UpAnswers(t'.up)
    ensures Inv(t')
  {
  }

  /** A subtree after its parent has taken one response. */
  lemma Popped(kid: Tree)
    requires Inv(kid) && Shaped(kid) && FlushedOk(kid) && kid.up != []
    ensures var r := kid.up[0];
      && Inv(Pop(kid)) && Shaped(Pop(kid)) && FlushedOk(Pop(kid)) && (r.Heartbeat? || IsAnswer(r))
      && FlushedIds(Pop(kid)) == FlushedIds(kid)
      && FlushedAnswers(kid) == (if r.Heartbeat? then multiset{} else multiset{r}) + FlushedAnswers(Pop(kid))
      && (IsAnswer(r) ==> Flight(kid, KindOf(r)) > 0)
      && Flight(Pop(kid), ExecKind) == Flight(kid, ExecKind) - (if IsAnswer(r) && KindOf(r) == ExecKind then 1 else 0)
      && Flight(Pop(kid), CreateKind)
           == Flight(kid, CreateKind) - (if IsAnswer(r) && KindOf(r) == CreateKind then 1 else 0)
  {
    assert kid.up[0] in kid.up;
    SameInv(kid, Pop(kid));
    SameBelow(kid, Pop(kid));
    SameFlight(kid, Pop(kid), ExecKind);
    SameFlight(kid, Pop(kid), CreateKind);
  }

  lemma LookupSafe(t: Tree)
    requires Inv(t) && Shaped(t) && FlushedOk(t) && t.kids != [] && t.kids[0].up != []
    ensures LookupOk(t.node, t.kids[0].up[0])
  {
    Popped(t.kids[0]);
    if IsAnswer(t.kids[0].up[0]) {
      Missing(t.node.records, KindOf(t.kids[0].up[0]));
    }
  }

  /** The tree after the response of its child was counted. */
  ghost predicate CountedTo(t: Tree, t': Tree, up: seq<Response>) {
    && t.kids != [] && t.kids[0].up != []
    && t'.kids == [Pop(t.kids[0])] && t'.up == t.up + up && t'.down == t.down
    && t'.node.id == t.node.id && t'.node.manager == t.node.manager && t'.attached == t.attached
  }

  lemma CountInv(t: Tree, t': Tree, up: seq<Response>)
    requires Inv(t) && Shaped(t) && FlushedOk(t) && CountedTo(t, t', up) && Sound(t')
    requires AllFresh(t'.node.records)
    requires var r := t.kids[0].up[0];
      && up == (if r.Heartbeat? then [] else [r])
      && |Of(t'.node.records, ExecKind)|
           == |Of(t.node.records, ExecKind)| - (if IsAnswer(r) && KindOf(r) == ExecKind then 1 else 0)
      && |Of(t'.node.records, CreateKind)|
           == |Of(t.node.records, CreateKind)| - (if IsAnswer(r) && KindOf(r) == CreateKind then 1 else 0)
    ensures Inv(t') && Shaped(t')
  {
    Popped(t.kids[0]);
  }

  lemma CountIds(t: Tree, t': Tree, up: seq<Response>)
    requires Inv(t) && Shaped(t) && FlushedOk(t) && CountedTo(t, t', up) && Shaped(t')
    ensures FlushedIds(t') == FlushedIds(t) && FlushedOk(t')
  {
    Popped(t.kids[0]);
    assert Base(t') == Base(t);
  }

  lemma FlightMoves(t: Tree, t': Tree, kind: Kind, moved: nat)
    requires Shaped(t) && t.kids != [] && Shaped(t') && t'.kids != [] && t'.down == t.down
    requires Flight(t'.kids[0], kind) == Flight(t.kids[0], kind) - moved
    requires AnswersOf(t'.up, kind) == AnswersOf(t.up, kind) + moved
    ensures Flight(t', kind) == Flight(t, kind)
  {
  }

  lemma CountFlight(t: Tree, t': Tree, up: seq<Response>, kind: Kind)
    requires Inv(t) && Shaped(t) && FlushedOk(t) && CountedTo(t, t', up) && Shaped(t')
    requires up == (if t.kids[0].up[0].Heartbeat? then [] else [t.kids[0].up[0]])
    ensures Flight(t', kind) == Flight(t, kind)
  {
    var r := t.kids[0].up[0];
    Popped(t.kids[0]);
    AddedAnswer(t.up, r, kind);
    assert t.up + [] == t.up;
    FlightMoves(t, t', kind, if IsAnswer(r) && KindOf(r) == kind then 1 else 0);
  }

  lemma CountAnswers(t: Tree, t': Tree, up: seq<Response>)
    requires Inv(t) && Shaped(t) && FlushedOk(t) && CountedTo(t, t', up) && Shaped(t')
    requires up == (if t.kids[0].up[0].Heartbeat? then [] else [t.kids[0].up[0]])
    ensures FlushedAnswers(t') == FlushedAnswers(t)
  {
    var r := t.kids[0].up[0];
    var m := if r.Heartbeat? then multiset{} else multiset{r};
    Popped(t.kids[0]);
    assert Base(t') == Base(t);
    AddedAnswer(t.up, r, ExecKind);
    assert t.up + [] == t.up;
    assert Answers(t'.up) == Answers(t.up) + m;
  }

  lemma BeatShape(t: Tree, i: nat)
    requires Enabled(t, Count(i)) && i == 0 && |t.kids| == 1 && t.kids[0].up[0].Heartbeat? && Sound(t)
    ensures CountedTo(t, ApplyCount(t, 0), []) && Sound(ApplyCount(t, 0))
    ensures ApplyCount(t, 0).node.records == t.node.records
  {
  }

  lemma AnswerShape(t: Tree, i: nat, records: seq<Record>)
    requires Enabled(t, Count(i)) && i == 0 && |t.kids| == 1 && Sound(t)
    requires var e := OnResponse(t.node, t.kids[0].up[0]);
      e.up == [t.kids[0].up[0]] && e.node == t.node.(records := records)
    ensures CountedTo(t, ApplyCount(t, 0), [t.kids[0].up[0]]) && Sound(ApplyCount(t, 0))
    ensures ApplyCount(t, 0).node.records == records
  {
  }

  lemma CountEffect(t: Tree, i: nat)
    requires Inv(t) && Shaped(t) && FlushedOk(t) && Enabled(t, Count(i))
    ensures var r := t.kids[0].up[0];
      var t' := ApplyCount(t, i);
      var up := if r.Heartbeat? then [] else [r];
      && CountedTo(t, t', up) && Sound(t') && AllFresh(t'.node.records)
      && |Of(t'.node.records, ExecKind)|
           == |Of(t.node.records, ExecKind)| - (if IsAnswer(r) && KindOf(r) == ExecKind then 1 else 0)
      && |Of(t'.node.records, CreateKind)|
           == |Of(t.node.records, CreateKind)| - (if IsAnswer(r) && KindOf(r) == CreateKind then 1 else 0)
  {
    var r := t.kids[0].up[0];
    assert r in t.kids[0].up;
    if r.Heartbeat? {
      BeatShape(t, i);
    } else {
      AnswerEffect(t.node, r);
      AnswerShape(t, i, OnResponse(t.node, r).node.records);
    }
  }

  lemma CountKeeps(t: Tree, t': Tree, up: seq<Response>)
    requires Inv(t) && Shaped(t) && FlushedOk(t) && CountedTo(t, t', up) && Inv(t') && Shaped(t')
    requires up == (if t.kids[0].up[0].Heartbeat? then [] else [t.kids[0].up[0]])
    ensures Kept(t, t')
  {
    CountIds(t, t', up);
    CountFlight(t, t', up, ExecKind);
    CountFlight(t, t', up, CreateKind);
    CountAnswers(t, t', up);
  }

  lemma CountStep(t: Tree, i: nat)
    requires Inv(t) && Shaped(t) && FlushedOk(t) && Enabled(t, Count(i))
    ensures Kept(t, ApplyCount(t, i))
  {
    var r := t.kids[0].up[0];
    var up := if r.Heartbeat? then [] else [r];
    CountEffect(t, i);
    CountInv(t, ApplyCount(t, i), up);
    CountKeeps(t, ApplyCount(t, i), up);
  }

  lemma BeatAnswers(up: seq<Response>, id: nat, time: int)
    ensures var up' := up + [Heartbeat(id, time)];
      && Answers(up') == Answers(up)
      && AnswersOf(up', ExecKind) == AnswersOf(up, ExecKind)
      && AnswersOf(up', CreateKind) == AnswersOf(up, CreateKind)
      && (UpAnswers(up) ==> UpAnswers(up'))
  {
    AddedAnswer(up, Heartbeat(id, time), ExecKind);
    AddedAnswer(up, Heartbeat(id, time), CreateKind);
  }

  lemma BeatKeeps(t: Tree, t': Tree)
    requires Inv(t) && Shaped(t) && FlushedOk(t) && OnlyUp(t, t') && UpAnswers(t'.up)
    requires Answers(t'.up) == Answers(t.up)
    requires AnswersOf(t'.up, ExecKind) == AnswersOf(t.up, ExecKind)
    requires AnswersOf(t'.up, CreateKind) == AnswersOf(t.up, CreateKind)
    ensures Kept(t, t')
  {
    SameInv(t, t');
    SameBelow(t, t');
    SameFlight(t, t', ExecKind);
    SameFlight(t, t', CreateKind);
  }

  lemma InsideKeeps(t: Tree, kid: Tree)
    requires Inv(t) && Shaped(t) && FlushedOk(t) && t.kids != [] && Kept(t.kids[0], kid)
    ensures Kept(t, t.(kids := t.kids[0 := kid]))
  {
    var t' := t.(kids := t.kids[0 := kid]);
    assert t'.kids == [kid];
    InnerTotals(t);
    InnerTotals(t');
  }

  lemma {:induction false} Step(t: Tree, m: Move)
    requires Inv(t) && Shaped(t) && FlushedOk(t) && Enabled(t, m) && Calm(m)
    ensures Kept(t, Apply(t, m))
    decreases m
  {
    match m
    case Take => TakeKeeps(t);
    case Count(i) => CountStep(t, i);
    case Beat(time) =>
      BeatAnswers(t.up, t.node.id, time);
      BeatKeeps(t, Apply(t, m));
    case Inside(i, m') =>
      Step(t.kids[0], m');
      InsideKeeps(t, Apply(t.kids[0], m'));
    case Sweep(_) =>
    case Exit =>
  }

  lemma {:induction false} RunKeeps(t: Tree, ms: seq<Move>)
    requires Inv(t) && Shaped(t) && FlushedOk(t) && Possible(t, ms) && AllCalm(ms)
    ensures Kept(t, Run(t, ms))
    decreases |ms|
  {
    if ms != [] {
      Step(t, ms[0]);
      RunKeeps(Apply(t, ms[0]), ms[1..]);
    }
  }
}

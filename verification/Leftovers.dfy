/**
A dead end answers and leaves its record behind.  Such leftover fresh records at the end of
the list are never noticed: a process that has them behaves like one that has not.
*/
module Leftovers {
  import opened Messages
  import opened NodeSpec
  import opened Records

  datatype Event = Ordered(o: Order) | Answered(r: Response) | Children(children: seq<Child>)

  function Freshes(kind: Kind, k: nat): (q: seq<Record>)
    ensures |q| == k && forall r :: r in q ==> r == Fresh(kind)
  {
    seq(k, i => Fresh(kind))
  }

  /** b is like a, with further fresh records of each type behind a's. */
  ghost predicate Extends(a: NodeState, b: NodeState, exec: nat, create: nat) {
    && b == a.(records := b.records)
    && Of(b.records, ExecKind) == Of(a.records, ExecKind) + Freshes(ExecKind, exec)
    && Of(b.records, CreateKind) == Of(a.records, CreateKind) + Freshes(CreateKind, create)
  }

  predicate Allowed(s: NodeState, e: Event) {
    e.Answered? ==> LookupOk(s, e.r)
  }

  function Handle(s: NodeState, e: Event): Effect
    requires Allowed(s, e)
  {
    match e
    case Ordered(o) => OnOrder(s, o)
    case Answered(r) => OnResponse(s, r)
    case Children(children) => Effect(s.(children := children), [], [])
  }

  lemma MoveFresh(q: seq<Record>, kind: Kind, k: nat)
    ensures q + Freshes(kind, k) + [Fresh(kind)] == q + [Fresh(kind)] + Freshes(kind, k)
  {
    assert Freshes(kind, k) + [Fresh(kind)] == [Fresh(kind)] + Freshes(kind, k);
    assert q + Freshes(kind, k) + [Fresh(kind)] == q + (Freshes(kind, k) + [Fresh(kind)]);
  }

  lemma AppendBoth(a: NodeState, b: NodeState, exec: nat, create: nat, kind: Kind)
    requires Extends(a, b, exec, create)
    ensures Extends(a.(records := a.records + [Fresh(kind)]), b.(records := b.records + [Fresh(kind)]), exec, create)
  {
    AppendedOf(a.records, kind, ExecKind);
    AppendedOf(a.records, kind, CreateKind);
    AppendedOf(b.records, kind, ExecKind);
    AppendedOf(b.records, kind, CreateKind);
    MoveFresh(Of(a.records, ExecKind), ExecKind, exec);
    MoveFresh(Of(a.records, CreateKind), CreateKind, create);
  }

  lemma OrderBoth(a: NodeState, b: NodeState, exec: nat, create: nat, o: Order)
    requires Extends(a, b, exec, create)
    ensures var ea, eb := OnOrder(a, o), OnOrder(b, o);
      ea.up == eb.up && ea.down == eb.down && Extends(ea.node, eb.node, exec, create)
  {
    match o
    case Do(Exec(_, _), _) => AppendBoth(a, b, exec, create, ExecKind);
    case Do(Create(_, _), _) => AppendBoth(a, b, exec, create, CreateKind);
    case _ =>
  }

  /** A list and the same list with a tail have the same head. */
  lemma HeadAndTail(q: seq<Record>, tail: seq<Record>, rec: Record)
    requires q != []
    ensures (q + tail)[0] == q[0] && (q + tail)[1..] == q[1..] + tail
    ensures [rec] + (q + tail)[1..] == [rec] + q[1..] + tail
  {
  }

  lemma CountBoth(a: NodeState, b: NodeState, exec: nat, create: nat, r: Response)
    requires Extends(a, b, exec, create) && (IsGood(r) || IsBad(r)) && LookupOk(a, r)
    ensures LookupOk(b, r)
    ensures var ea, eb := OnResponse(a, r), OnResponse(b, r);
      ea.up == eb.up && ea.down == eb.down && Extends(ea.node, eb.node, exec, create)
  {
    var kind := KindOf(r);
    var other := if kind == ExecKind then CreateKind else ExecKind;
    Missing(a.records, kind);
    Missing(b.records, kind);
    var q := Of(a.records, kind);
    HeadAndTail(q, if kind == ExecKind then Freshes(kind, exec) else Freshes(kind, create), Counted(q[0], IsGood(r)));
    CountedOf(a, r, other);
    CountedOf(b, r, other);
  }

  lemma ExistBoth(a: NodeState, b: NodeState, exec: nat, create: nat, r: Response)
    requires Extends(a, b, exec, create) && r.NodeExistResponse? && LookupOk(a, r)
    ensures LookupOk(b, r)
    ensures var ea, eb := OnResponse(a, r), OnResponse(b, r);
      ea.up == eb.up && ea.down == eb.down && Extends(ea.node, eb.node, exec, create)
  {
    Missing(a.records, CreateKind);
    Missing(b.records, CreateKind);
    var q := Of(a.records, CreateKind);
    HeadAndTail(q, Freshes(CreateKind, create), q[0]);
    NodeExistOf(a, r);
    NodeExistOf(b, r);
  }

  /** One event: the same messages go out, and the difference stays what it was. */
  lemma EventBoth(a: NodeState, b: NodeState, exec: nat, create: nat, e: Event)
    requires Extends(a, b, exec, create) && Allowed(a, e)
    ensures Allowed(b, e)
    ensures var ea, eb := Handle(a, e), Handle(b, e);
      ea.up == eb.up && ea.down == eb.down && Extends(ea.node, eb.node, exec, create)
  {
    match e
    case Ordered(o) => OrderBoth(a, b, exec, create, o);
    case Answered(r) =>
      if IsGood(r) || IsBad(r) {
        CountBoth(a, b, exec, create, r);
      } else if r.NodeExistResponse? {
        ExistBoth(a, b, exec, create, r);
      }
    case Children(_) =>
  }

  predicate AllAllowed(s: NodeState, es: seq<Event>)
    decreases |es|
  {
    es != [] ==> Allowed(s, es[0]) && AllAllowed(Handle(s, es[0]).node, es[1..])
  }

  /** The messages a process pushes to its ancestor and to its children over a history. */
  function Pushed(s: NodeState, es: seq<Event>): seq<(seq<Response>, seq<Order>)>
    requires AllAllowed(s, es)
    decreases |es|
  {
    if es == [] then []
    else
      var h := Handle(s, es[0]);
      [(h.up, h.down)] + Pushed(h.node, es[1..])
  }

  /** Over any history in which the shorter list never lacks a record, and in which the child
      list may change in any way, nobody outside can tell the two processes apart. */
  lemma {:induction false} LeftoversUnobservable(a: NodeState, b: NodeState, exec: nat, create: nat, es: seq<Event>)
    requires Extends(a, b, exec, create) && AllAllowed(a, es)
    ensures AllAllowed(b, es) && Pushed(b, es) == Pushed(a, es)
    decreases |es|
  {
    if es != [] {
      EventBoth(a, b, exec, create, es[0]);
      LeftoversUnobservable(Handle(a, es[0]).node, Handle(b, es[0]).node, exec, create, es[1..]);
    }
  }

  /** A process without children answers an exec and a create with their bad response, the ids of
      the latter the other way round, and nothing else. */
  lemma DeadEndAnswers(s: NodeState, c: Command, fork: Fork, kind: Kind)
    requires s.children == []
    ensures var e := Redirect(s, c, fork, kind);
      && e.down == []
      && (c.Exec? ==> e.up == [BadExecResp(c.nodeId)])
      && (c.Create? ==> e.up == [BadCreateResp(c.parentId, c.newNodeId)])
      && (c.PrintTree? ==> e.up == [])
  {
  }

  /** What a dead end leaves is such a leftover. */
  lemma DeadEndLeaves(s: NodeState, c: Command, fork: Fork, kind: Kind)
    requires s.children == []
    ensures var e := Redirect(s, c, fork, kind);
      if kind == ExecKind then Extends(s, e.node, 1, 0) else Extends(s, e.node, 0, 1)
  {
    AppendedOf(s.records, kind, ExecKind);
    AppendedOf(s.records, kind, CreateKind);
    assert Freshes(kind, 1) == [Fresh(kind)];
    assert Of(s.records, ExecKind) + Freshes(ExecKind, 0) == Of(s.records, ExecKind);
    assert Of(s.records, CreateKind) + Freshes(CreateKind, 0) == Of(s.records, CreateKind);
  }
}

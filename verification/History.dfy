/**
Whole histories of commands, each given when the one before it has come to rest: whatever
they were, the tree they lead to is one that the results about the next command speak of.
*/
module History {
  import opened Messages
  import opened NodeSpec
  import opened Records
  import opened TreeSystem
  import opened Shapes
  import opened SingleCommand
  import opened OneAnswer
  import opened Growth
  import opened Reachability
  import opened HitWay
  import opened HitRuns
  import opened NextCommand

  // ---------------------------------------------------------------- commands of the other kind

  predicate OtherOrder(o: Order, kind: Kind) {
    && o.Do?
    && (o.cmd.Exec? ==> kind == CreateKind) && (o.cmd.Create? ==> kind == ExecKind)
  }

  predicate OtherResponse(r: Response, kind: Kind) {
    IsAnswer(r) ==> KindOf(r) != kind
  }

  /** Nothing of the kind is under way, and the records of the kind are at rest. */
  predicate Aside(t: Tree, kind: Kind)
    decreases t
  {
    && (forall o :: o in t.down ==> OtherOrder(o, kind))
    && (forall r :: r in t.up ==> OtherResponse(r, kind))
    && Rested(Of(t.node.records, kind), |t.kids|, false)
    && forall i :: 0 <= i < |t.kids| ==> Aside(t.kids[i], kind)
  }

  /** A handler for something else leaves the records of the kind alone. */
  lemma OrderAside(s: NodeState, o: Order, kind: Kind)
    requires OtherOrder(o, kind)
    ensures var e := OnOrder(s, o);
      && Of(e.node.records, kind) == Of(s.records, kind)
      && (forall r :: r in e.up ==> OtherResponse(r, kind)) && (e.down == [] || e.down == [o])
  {
    match o.cmd
    case Exec(_, _) =>
      AppendedOf(s.records, ExecKind, kind);
      ExecAside(s, o.cmd, o.fork, kind);
    case Create(_, _) =>
      AppendedOf(s.records, CreateKind, kind);
      CreateAside(s, o.cmd, o.fork, kind);
    case PrintTree =>
  }

  lemma ExecAside(s: NodeState, c: Command, fork: Fork, kind: Kind)
    requires c.Exec? && kind == CreateKind
    ensures var e := OnExec(s, c, fork);
      && (e.node.records == s.records || e.node.records == s.records + [Fresh(ExecKind)])
      && (forall r :: r in e.up ==> OtherResponse(r, kind)) && (e.down == [] || e.down == [Do(c, fork)])
  {
  }

  lemma CreateAside(s: NodeState, c: Command, fork: Fork, kind: Kind)
    requires c.Create? && kind == ExecKind
    ensures var e := OnCreate(s, c, fork);
      && (e.node.records == s.records || e.node.records == s.records + [Fresh(CreateKind)])
      && (forall r :: r in e.up ==> OtherResponse(r, kind)) && (e.down == [] || e.down == [Do(c, fork)])
  {
  }

  lemma ResponseAside(s: NodeState, r: Response, kind: Kind)
    requires LookupOk(s, r) && OtherResponse(r, kind)
    ensures var e := OnResponse(s, r);
      Of(e.node.records, kind) == Of(s.records, kind) && (forall x :: x in e.up ==> x == r)
  {
    if IsGood(r) || IsBad(r) {
      CountedOf(s, r, kind);
    } else if r.NodeExistResponse? {
      HeadOf(s.records, CreateKind, Fresh(CreateKind), kind);
    }
  }

  /** A process that gets a further child has room for what it has counted. */
  lemma MoreChildren(q: seq<Record>, n: nat, more: nat)
    requires Rested(q, n, false) && n <= more
    ensures Rested(q, more, false)
  {
  }

  lemma SentAside(kid: Tree, orders: seq<Order>, kind: Kind)
    requires Aside(kid, kind) && forall o :: o in orders ==> OtherOrder(o, kind)
    ensures Aside(Send(kid, orders), kind)
  {
  }

  lemma TakeAside(t: Tree, kind: Kind)
    requires Enabled(t, Take) && Aside(t, kind)
    ensures Aside(ApplyTake(t), kind)
  {
    var e, t' := OnOrder(t.node, t.down[0]), ApplyTake(t);
    assert t.down[0] in t.down;
    OrderAside(t.node, t.down[0], kind);
    MoreChildren(Of(t.node.records, kind), |t.kids|, |t'.kids|);
    forall i | 0 <= i < |t'.kids| ensures Aside(t'.kids[i], kind) {
      if i < |t.kids| {
        SentAside(t.kids[i], e.down, kind);
      } else {
        assert t'.kids[i] == Leaf(e.node.children[|t.node.children|].id);
      }
    }
  }

  lemma CountAside(t: Tree, i: nat, kind: Kind)
    requires Enabled(t, Count(i)) && Aside(t, kind)
    ensures Aside(ApplyCount(t, i), kind)
  {
    assert Aside(t.kids[i], kind) && t.kids[i].up[0] in t.kids[i].up;
    ResponseAside(t.node, t.kids[i].up[0], kind);
    assert Aside(Pop(t.kids[i]), kind);
  }

  lemma {:induction false} StepAside(t: Tree, m: Move, kind: Kind)
    requires Enabled(t, m) && Calm(m) && Aside(t, kind)
    ensures Aside(Apply(t, m), kind)
    decreases m
  {
    match m
    case Take => TakeAside(t, kind);
    case Count(i) => CountAside(t, i, kind);
    case Inside(i, m') => StepAside(t.kids[i], m', kind);
    case Beat(_) =>
    case Sweep(_) =>
    case Exit =>
  }

  /** Any commands of the other kind, overlapped or not, leave the records of this one at rest. */
  lemma {:induction false} RunAside(t: Tree, ms: seq<Move>, kind: Kind)
    requires Possible(t, ms) && AllCalm(ms) && Aside(t, kind)
    ensures Aside(Run(t, ms), kind)
    decreases |ms|
  {
    if ms != [] {
      StepAside(t, ms[0], kind);
      RunAside(Apply(t, ms[0]), ms[1..], kind);
    }
  }

  lemma {:induction false} IdleAside(t: Tree, kind: Kind)
    requires Idle(t, kind, false)
    ensures Aside(t, kind)
    decreases t
  {
    forall i | 0 <= i < |t.kids| ensures Aside(t.kids[i], kind) {
      IdleAside(t.kids[i], kind);
    }
  }

  lemma {:induction false} AsideIdle(t: Tree, kind: Kind, other: Kind)
    requires Aside(t, kind) && Idle(t, other, false)
    ensures Idle(t, kind, false)
    decreases t
  {
    forall i | 0 <= i < |t.kids| ensures Idle(t.kids[i], kind, false) {
      AsideIdle(t.kids[i], kind, other);
    }
  }

  // ---------------------------------------------------------------- both kinds

  ghost predicate BothAtRest(t: Tree) {
    AtRest(t, ExecKind, false) && AtRest(t, CreateKind, false)
  }

  function OtherKind(j: Job): Kind {
    if j.cmd.Exec? then CreateKind else ExecKind
  }

  lemma {:induction false} ClearPlaces(t: Tree, j: Job)
    requires j.cmd.Create? && Clear(t, j)
    ensures Places(ShapeOf(t), j.cmd.newNodeId) == 0
    decreases t
  {
    ClearPlacesAll(t.kids, j);
  }

  lemma {:induction false} ClearPlacesAll(ts: seq<Tree>, j: Job)
    requires j.cmd.Create? && forall i :: 0 <= i < |ts| ==> Clear(ts[i], j)
    ensures PlacesAll(ShapesOf(ts), j.cmd.newNodeId) == 0
    decreases ts
  {
    if ts != [] {
      ClearPlaces(ts[0], j);
      ClearPlacesAll(ts[1..], j);
      assert ShapesOf(ts)[1..] == ShapesOf(ts[1..]);
    }
  }

  /** The results about the next command apply. */
  lemma CommandFits(t: Tree, j: Job)
    requires BothAtRest(t) && Unclean(j) && Clear(t, j)
    ensures Given(t, j) && Hits(t, j) <= 1 && Distinct(Plan(ShapeOf(t), j))
  {
    if j.cmd.Exec? {
      ExecGiven(t, j);
    } else {
      ClearPlaces(t, j);
      CreateGiven(t, j.cmd.newNodeId, j.cmd.parentId, j.fork);
    }
  }

  /** One command, an exec or a create with a fresh id, and the tree is at rest again, for
      either kind of command. */
  lemma BothAgain(t: Tree, j: Job, ms: seq<Move>)
    requires BothAtRest(t) && Unclean(j) && Clear(t, j)
    requires Possible(Issued(t, j), ms) && AllCalm(ms) && Quiet(Run(Issued(t, j), ms))
    ensures BothAtRest(Run(Issued(t, j), ms).(up := []))
  {
    var after := Run(Issued(t, j), ms);
    CommandFits(t, j);
    RestAgain(t, j, ms);
    IdleAside(t, OtherKind(j));
    RunAside(Issued(t, j), ms, OtherKind(j));
    AsideIdle(after.(up := []), OtherKind(j), JobKind(j));
  }

  /** Commands, each given when the one before it has come to rest and the client has taken its
      answers: some runs give these answers and end in this tree. */
  ghost predicate Past(t: Tree, js: seq<Job>, ups: seq<seq<Response>>, end: Tree)
    decreases |js|
  {
    && |ups| == |js|
    && if js == [] then end == t
       else exists t' :: RunsTo(t, js[0], ups[0], t') && Past(t'.(up := []), js[1..], ups[1..], end)
  }

  /** Any exec command, or a create command with an id that no process has. */
  ghost predicate RunsTo(t: Tree, j: Job, up: seq<Response>, t': Tree) {
    && Unclean(j) && Clear(t, j)
    && Reaches(Issued(t, j), t') && Quiet(t') && t'.up == up
  }

  /** Every history of commands leads from a tree at rest to a tree at rest. */
  lemma {:induction false} HistoryRests(t: Tree, js: seq<Job>, ups: seq<seq<Response>>, end: Tree)
    requires BothAtRest(t) && Past(t, js, ups, end)
    ensures BothAtRest(end)
    decreases |js|
  {
    if js != [] {
      var t' :| RunsTo(t, js[0], ups[0], t') && Past(t'.(up := []), js[1..], ups[1..], end);
      var ms :| Possible(Issued(t, js[0]), ms) && AllCalm(ms) && Run(Issued(t, js[0]), ms) == t';
      BothAgain(t, js[0], ms);
      HistoryRests(t'.(up := []), js[1..], ups[1..], end);
    }
  }

  // ---------------------------------------------------------------- from the start

  /** The manager when the program starts. */
  function NewManager(): Tree {
    Tree(NodeState(0, true, true, [], []), true, false, [], [], [], [], [])
  }

  /** After any history from the start of the program: exactly when is the next command served
      right in every run, whichever command it is? */
  lemma AfterAnyHistory(js: seq<Job>, ups: seq<seq<Response>>, t: Tree, j: Job)
    requires Past(NewManager(), js, ups, t) && Unclean(j) && Clear(t, j)
    ensures BothAtRest(t)
    ensures ServedRight(t, j) <==> !Fails(t, j) && Misses(t, j) == 1 - Hits(t, j)
  {
    HistoryRests(NewManager(), js, ups, t);
    CommandFits(t, j);
    ServedRightIff(t, j);
  }
}

/**
The results about a single command, in terms of the ids in the tree: exactly one answer,
which one it is, and how the tree has grown.
*/
module OneAnswer {
  import opened Messages
  import opened NodeSpec
  import opened TreeSystem
  import opened Shapes
  import opened SingleCommand

  /** No process below is a manager. */
  predicate Workers(t: Tree)
    decreases t
  {
    !t.node.manager && forall i :: 0 <= i < |t.kids| ==> Workers(t.kids[i])
  }

  /** The manager's tree between two commands: nothing of the kind is under way, ids are
      distinct and the client's link is empty. */
  ghost predicate AtRest(t: Tree, kind: Kind, clean: bool) {
    && t.node.manager && t.node.id == 0
    && (forall i :: 0 <= i < |t.kids| ==> Workers(t.kids[i]))
    && Idle(t, kind, clean) && t.up == []
    && Distinct(ShapeOf(t))
  }

  /** The same with fresh records only. */
  ghost predicate Ready(t: Tree, kind: Kind) {
    AtRest(t, kind, true)
  }

  /** Nothing but heartbeats is under way below the root. */
  predicate Quiet(t: Tree)
    decreases t
  {
    t.down == [] && forall i :: 0 <= i < |t.kids| ==> Quiet(t.kids[i]) && AllBeats(t.kids[i].up)
  }

  /** A calculation node, as opposed to the manager, has the id. */
  predicate IsNode(t: Tree, id: nat) {
    PlacesAll(ShapesOf(t.kids), id) > 0
  }

  // ---------------------------------------------------------------- who says yes

  /** An exec command is answered by the process with its id. */
  lemma {:induction false} ExecHits(t: Tree, j: Job)
    requires j.cmd.Exec? && Workers(t) && Linked(t)
    ensures Hits(t, j) <= Places(ShapeOf(t), j.cmd.nodeId)
    ensures Hits(t, j) == 0 ==> Places(ShapeOf(t), j.cmd.nodeId) == 0
    decreases t
  {
    ExecHitsAll(t.kids, j);
  }

  /** The child handles match the child processes, all the way down. */
  predicate Linked(t: Tree)
    decreases t
  {
    |t.node.children| == |t.kids| && forall i :: 0 <= i < |t.kids| ==> Linked(t.kids[i])
  }

  lemma {:induction false} ExecHitsAll(ts: seq<Tree>, j: Job)
    requires j.cmd.Exec? && forall i :: 0 <= i < |ts| ==> Workers(ts[i]) && Linked(ts[i])
    ensures HitsAll(ts, j) <= PlacesAll(ShapesOf(ts), j.cmd.nodeId)
    ensures HitsAll(ts, j) == 0 ==> PlacesAll(ShapesOf(ts), j.cmd.nodeId) == 0
    decreases ts
  {
    if ts != [] {
      ExecHits(ts[0], j);
      ExecHitsAll(ts[1..], j);
      assert ShapesOf(ts)[1..] == ShapesOf(ts[1..]);
    }
  }

  /** A create command whose fork works is answered by the process with the parent's id. */
  lemma {:induction false} CreateHits(t: Tree, j: Job)
    requires j.cmd.Create? && j.fork.Forked? && Linked(t)
    ensures Hits(t, j) <= Places(ShapeOf(t), j.cmd.parentId)
    ensures Hits(t, j) == 0 ==> Places(ShapeOf(t), j.cmd.parentId) == 0
    decreases t
  {
    CreateHitsAll(t.kids, j);
  }

  lemma {:induction false} CreateHitsAll(ts: seq<Tree>, j: Job)
    requires j.cmd.Create? && j.fork.Forked? && forall i :: 0 <= i < |ts| ==> Linked(ts[i])
    ensures HitsAll(ts, j) <= PlacesAll(ShapesOf(ts), j.cmd.parentId)
    ensures HitsAll(ts, j) == 0 ==> PlacesAll(ShapesOf(ts), j.cmd.parentId) == 0
    decreases ts
  {
    if ts != [] {
      CreateHits(ts[0], j);
      CreateHitsAll(ts[1..], j);
      assert ShapesOf(ts)[1..] == ShapesOf(ts[1..]);
    }
  }

  /** When the fork fails nobody says yes. */
  lemma {:induction false} FailedHits(t: Tree, j: Job)
    requires j.cmd.Create? && j.fork.ForkFailed?
    ensures Hits(t, j) == 0
    decreases t
  {
    FailedHitsAll(t.kids, j);
  }

  lemma {:induction false} FailedHitsAll(ts: seq<Tree>, j: Job)
    requires j.cmd.Create? && j.fork.ForkFailed?
    ensures HitsAll(ts, j) == 0
    decreases ts
  {
    if ts != [] {
      FailedHits(ts[0], j);
      FailedHitsAll(ts[1..], j);
    }
  }

  lemma {:induction false} IdleSound(t: Tree, kind: Kind, clean: bool)
    requires Idle(t, kind, clean)
    ensures Linked(t)
    decreases t
  {
    forall i | 0 <= i < |t.kids| ensures Linked(t.kids[i]) {
      IdleSound(t.kids[i], kind, clean);
    }
  }

  /** A fresh id is nobody's id. */
  lemma {:induction false} FreshIsClear(t: Tree, j: Job)
    requires j.cmd.Create? ==> Places(ShapeOf(t), j.cmd.newNodeId) == 0
    ensures Clear(t, j)
    decreases t
  {
    forall i | 0 <= i < |t.kids| ensures Clear(t.kids[i], j) {
      ShapesAt(t.kids, i);
      if j.cmd.Create? {
        PlacesMember(ShapesOf(t.kids), i, j.cmd.newNodeId);
      }
      FreshIsClear(t.kids[i], j);
    }
  }

  lemma {:induction false} PlacesMember(ss: seq<Shape>, i: nat, id: nat)
    requires i < |ss|
    ensures Places(ss[i], id) <= PlacesAll(ss, id)
  {
    if i > 0 {
      PlacesMember(ss[1..], i - 1, id);
    }
  }

  // ---------------------------------------------------------------- the client's link

  lemma OrderSendsNoBeat(s: NodeState, o: Order)
    ensures forall x :: x in OnOrder(s, o).up ==> !x.Heartbeat?
    ensures OnOrder(s, o).node.manager == s.manager
  {
  }

  lemma CountSendsNoBeat(s: NodeState, r: Response)
    requires LookupOk(s, r)
    ensures forall x :: x in OnResponse(s, r).up ==> !x.Heartbeat?
    ensures OnResponse(s, r).node.manager == s.manager
  {
  }

  /** The manager passes no heartbeat on and sends none. */
  lemma ManagerSendsNoBeat(t: Tree, m: Move)
    requires t.node.manager && Enabled(t, m) && Calm(m)
    requires forall r :: r in t.up ==> !r.Heartbeat?
    ensures var t' := Apply(t, m);
      t'.node.manager && forall r :: r in t'.up ==> !r.Heartbeat?
  {
    match m
    case Take => OrderSendsNoBeat(t.node, t.down[0]);
    case Count(i) => CountSendsNoBeat(t.node, t.kids[i].up[0]);
    case _ =>
  }

  lemma {:induction false} ManagerRun(t: Tree, ms: seq<Move>)
    requires t.node.manager && Possible(t, ms) && AllCalm(ms)
    requires forall r :: r in t.up ==> !r.Heartbeat?
    ensures forall r :: r in Run(t, ms).up ==> !r.Heartbeat?
    decreases |ms|
  {
    if ms != [] {
      ManagerSendsNoBeat(t, ms[0]);
      ManagerRun(Apply(t, ms[0]), ms[1..]);
    }
  }

  lemma {:induction false} QuietOwesNothing(t: Tree, j: Job)
    requires IsJob(j) && Quiet(t)
    ensures OwedYes(t, j) == multiset(t.up)[Yes(j)]
    ensures OwedNo(t, j) == multiset(t.up)[No(j)]
    decreases t
  {
    QuietSums(t.kids, j);
  }

  lemma {:induction false} QuietSums(ts: seq<Tree>, j: Job)
    requires IsJob(j) && forall i :: 0 <= i < |ts| ==> Quiet(ts[i]) && AllBeats(ts[i].up)
    ensures SumYes(ts, j) == 0 && SumNo(ts, j) == 0
    decreases ts
  {
    if ts != [] {
      QuietOwesNothing(ts[0], j);
      NoAnswers(ts[0].up, j);
      QuietSums(ts[1..], j);
    }
  }

  /** A link that carries only the two answers, by their numbers. */
  lemma {:induction false} LinkByNumbers(up: seq<Response>, j: Job)
    requires IsJob(j) && forall r :: r in up ==> r == Yes(j) || r == No(j)
    ensures |up| == multiset(up)[Yes(j)] + multiset(up)[No(j)]
  {
    if up != [] {
      assert up == [up[0]] + up[1..];
      assert multiset(up) == multiset([up[0]]) + multiset(up[1..]);
      forall r | r in up[1..] ensures r == Yes(j) || r == No(j) {
        assert r in up;
      }
      assert up[0] in up;
      LinkByNumbers(up[1..], j);
    }
  }

  /** A command to print the tree is taken off the link and has no effect. */
  lemma PrintIsDropped(t: Tree, fork: Fork)
    requires t.node.running && t.down != [] && t.down[0] == Do(PrintTree, fork)
    ensures Enabled(t, Take) && Apply(t, Take) == t.(down := t.down[1..])
  {
    BroadcastNothing(t.kids);
    assert t.up + [] == t.up && t.kids + [] == t.kids;
  }

  // ---------------------------------------------------------------- main results

  /** What the tree tells the client about the command. */
  function Expected(t: Tree, j: Job): seq<Response> {
    if Hits(t, j) > 0 then [Yes(j)] else if Misses(t, j) > 0 then [No(j)] else []
  }

  /** Owing at most one answer in all, the root's link carries that answer or nothing yet. */
  lemma OneOwed(t: Tree, j: Job, yes: nat, no: nat)
    requires IsJob(j) && Inv(t, j)
    requires forall r :: r in t.up ==> !r.Heartbeat?
    requires OwedYes(t, j) == yes && OwedNo(t, j) == no && yes + no <= 1
    ensures t.up == [] || t.up == (if yes > 0 then [Yes(j)] else if no > 0 then [No(j)] else [])
    ensures Quiet(t) ==> t.up == if yes > 0 then [Yes(j)] else if no > 0 then [No(j)] else []
  {
    LinkByNumbers(t.up, j);
    if t.up != [] {
      assert t.up[0] in t.up;
      assert multiset(t.up)[t.up[0]] > 0;
    }
    if Quiet(t) {
      QuietOwesNothing(t, j);
    }
  }

  /** Any run from a tree at rest with one waiting command: at most one answer at any time,
      always the right one, and once nothing is under way the one that is due, if any. */
  lemma AtMostOneAnswer(t: Tree, j: Job, ms: seq<Move>)
    requires IsJob(j) && AtRest(t, JobKind(j), j.clean) && Clear(t, j)
    requires Hits(t, j) <= if j.clean then 1 else 0
    requires Possible(t.(down := [Do(j.cmd, j.fork)]), ms) && AllCalm(ms)
    ensures var t' := Run(t.(down := [Do(j.cmd, j.fork)]), ms);
      && Inv(t', j)
      && (t'.up == [] || t'.up == Expected(t, j))
      && (Quiet(t') ==> t'.up == Expected(t, j))
  {
    var start := t.(down := [Do(j.cmd, j.fork)]);
    StartOwes(t, j);
    RunKeeps(start, ms, j);
    ManagerRun(start, ms);
    if j.clean {
      FreshAnswers(t, j);
    }
    OneOwed(Run(start, ms), j, Hits(t, j), Misses(t, j));
  }

  lemma StartOwes(t: Tree, j: Job)
    requires IsJob(j) && AtRest(t, JobKind(j), j.clean) && Clear(t, j)
    requires Hits(t, j) <= if j.clean then 1 else 0
    ensures var start := t.(down := [Do(j.cmd, j.fork)]);
      Inv(start, j) && OwedYes(start, j) == Hits(t, j) && OwedNo(start, j) == Misses(t, j)
  {
    var start := t.(down := [Do(j.cmd, j.fork)]);
    assert Hits(start, j) == Hits(t, j) && Misses(start, j) == Misses(t, j);
    assert Clear(start, j);
    WaitingOwes(start, j);
  }

  /** At most one process says yes to an exec command, the node with its id. */
  lemma ExecHitsNode(t: Tree, j: Job)
    requires AtRest(t, ExecKind, j.clean) && j.cmd.Exec?
    ensures Clear(t, j) && Hits(t, j) == if IsNode(t, j.cmd.nodeId) then 1 else 0
  {
    IdleSound(t, ExecKind, j.clean);
    ExecHitsAll(t.kids, j);
    assert Places(ShapeOf(t), j.cmd.nodeId) <= 1;
    FreshIsClear(t, j);
  }

  /** Exec: whatever the interleaving, the client gets one answer, good exactly when a node
      of the tree has the id. */
  lemma ExecAnsweredOnce(t: Tree, id: nat, k: seq<real>, ms: seq<Move>)
    requires Ready(t, ExecKind)
    requires Possible(t.(down := [Do(Exec(id, k), ForkFailed)]), ms) && AllCalm(ms)
    ensures var t' := Run(t.(down := [Do(Exec(id, k), ForkFailed)]), ms);
      var answer := if IsNode(t, id) then GoodExecResp(id, Sum(k)) else BadExecResp(id);
      && (t'.up == [] || t'.up == [answer])
      && (Quiet(t') ==> t'.up == [answer])
  {
    var j := Job(Exec(id, k), ForkFailed, true);
    ExecHitsNode(t, j);
    FreshAnswers(t, j);
    AtMostOneAnswer(t, j, ms);
  }

  /** Create with a fresh id: one answer, good exactly when the parent exists and the fork works. */
  lemma CreateAnsweredOnce(t: Tree, x: nat, p: nat, fork: Fork, ms: seq<Move>)
    requires Ready(t, CreateKind) && Places(ShapeOf(t), x) == 0
    requires Possible(t.(down := [Do(Create(x, p), fork)]), ms) && AllCalm(ms)
    ensures var t' := Run(t.(down := [Do(Create(x, p), fork)]), ms);
      var answer := if fork.Forked? && Places(ShapeOf(t), p) > 0
                    then GoodCreateResp(x, fork.pid) else BadCreateResp(p, x);
      && (t'.up == [] || t'.up == [answer])
      && (Quiet(t') ==> t'.up == [answer])
  {
    var j := Job(Create(x, p), fork, true);
    IdleSound(t, CreateKind, true);
    if fork.Forked? {
      CreateHits(t, j);
      assert Places(ShapeOf(t), p) <= 1;
    } else {
      FailedHits(t, j);
    }
    FreshIsClear(t, j);
    FreshAnswers(t, j);
    AtMostOneAnswer(t, j, ms);
  }
}

/**
When a create command for an id that exists makes a lookup fail: the run that does it, and
the exact condition on the tree.
*/
module ExistingIdRuns {
  import opened Messages
  import opened NodeSpec
  import opened Records
  import opened TreeSystem
  import opened Shapes
  import opened SingleCommand
  import opened OneAnswer
  import opened Liveness
  import opened Reachability
  import opened Ways
  import opened ExistingId

  // ---------------------------------------------------------------- pieces of the run

  /** NodeExist at the head of the link from the way: the record goes, the answer goes up. */
  lemma TakeExist(t: Tree, i: nat, j: Job)
    requires IsCreate(j) && t.node.running && i < |t.kids| && t.kids[i].up != [] && t.kids[i].up[0] == Exists(j)
    requires Of(t.node.records, CreateKind) != []
    ensures Enabled(t, Count(i))
    ensures var t' := Apply(t, Count(i));
      && t'.up == t.up + [Exists(j)]
      && Of(t'.node.records, CreateKind) == Of(t.node.records, CreateKind)[1..]
      && t'.node.running && |t'.kids| == |t.kids|
      && forall k :: 0 <= k < |t.kids| && k != i ==> t'.kids[k] == t.kids[k]
  {
    Missing(t.node.records, CreateKind);
    NodeExistOf(t.node, Exists(j));
  }

  /** A process on the way once its child on the way has answered and the answer has been
      passed on; the other children have not moved. */
  ghost predicate PassedUp(t: Tree, t': Tree, on: nat, j: Job)
    requires IsCreate(j)
  {
    && t'.node.running && |t'.kids| == |t.kids| && on < |t.kids|
    && t'.up == t.up + [Exists(j)]
    && |Of(t'.node.records, CreateKind)| == |Of(t.node.records, CreateKind)|
    && forall k :: 0 <= k < |t.kids| && k != on ==> t'.kids[k] == Send(t.kids[k], [Do(j.cmd, j.fork)])
  }

  /** A process on the way passes the command on, and its child on the way moves. */
  lemma ReachesAround(t: Tree, way: seq<nat>, kid: Tree, j: Job)
    requires IsCreate(j) && Sound(t) && WayWaiting(t, way, j) && way != []
    requires Reaches(Send(t.kids[way[0]], [Do(j.cmd, j.fork)]), kid)
    ensures var passed := PassedOn(t, j);
      Reaches(t, passed.(kids := passed.kids[way[0] := kid]))
  {
    var passed := PassedOn(t, j);
    TakeOnWay(t, way, j);
    ReachesSelf(t);
    ReachesNext(t, t, Take);
    ReachesBelow(passed, way[0], kid);
    ReachesOn(t, passed, passed.(kids := passed.kids[way[0] := kid]));
  }

  /** From a process on the way that still waits, given that the child on the way can answer. */
  lemma ReachesPassedUp(t: Tree, way: seq<nat>, kid: Tree, j: Job) returns (t': Tree)
    requires IsCreate(j) && Sound(t) && WayWaiting(t, way, j) && way != []
    requires Reaches(Send(t.kids[way[0]], [Do(j.cmd, j.fork)]), kid) && Exists(j) in kid.up && UpFits(kid.up, j)
    ensures Reaches(t, t') && PassedUp(t, t', way[0], j)
  {
    var i := way[0];
    var passed := PassedOn(t, j);
    var around := passed.(kids := passed.kids[i := kid]);
    ReachesAround(t, way, kid, j);
    var head := ReachesHead(around, i, Exists(j));
    ReachesOn(t, around, head);
    AppendedOf(t.node.records, CreateKind, CreateKind);
    TakeExist(head, i, j);
    ReachesNext(t, head, Count(i));
    t' := Apply(head, Count(i));
    assert t.up + [] == t.up;
  }

  /** The process with the id answers, and every process on the way can pass that on first. */
  lemma {:induction false} ReachesExist(t: Tree, way: seq<nat>, j: Job) returns (t': Tree)
    requires IsCreate(j) && Sound(t) && WayWaiting(t, way, j)
    ensures Reaches(t, t') && Exists(j) in t'.up && UpFits(t'.up, j)
    decreases way
  {
    NoExist(t.up, j);
    if way == [] {
      TakeOnWay(t, way, j);
      ReachesSelf(t);
      ReachesNext(t, t, Take);
      t' := Apply(t, Take);
    } else {
      HandedOn(t.kids[way[0]], way[1..], j);
      var kid := ReachesExist(Send(t.kids[way[0]], [Do(j.cmd, j.fork)]), way[1..], j);
      t' := ReachesPassedUp(t, way, kid, j);
    }
  }

  // ---------------------------------------------------------------- the lookup that fails

  /** A bad answer at the head of a link, and no create record. */
  lemma HeadFails(t: Tree, i: nat, j: Job)
    requires IsCreate(j) && i < |t.kids| && t.kids[i].up != [] && t.kids[i].up[0] == No(j)
    requires Of(t.node.records, CreateKind) == []
    ensures !NoLookupFails(t)
  {
    Missing(t.node.records, CreateKind);
  }

  /** An idle subtree off the way that got the command can give its bad answer. */
  lemma ReachesNo(t: Tree, j: Job) returns (rest: Tree)
    requires IsCreate(j) && Inv(t, j) && OwedYes(t, j) == 0 && OwedNo(t, j) == 1
    ensures Reaches(t, rest) && No(j) in rest.up && forall r :: r in rest.up ==> r.Heartbeat? || r == No(j)
  {
    rest := ReachesQuiet(t, j);
    QuietOwesNothing(rest, j);
    assert forall r :: r in rest.up ==> multiset(rest.up)[r] > 0;
  }

  /** A process with several children and no old create record: NodeExist comes first. */
  lemma ReachesFailureHere(t: Tree, way: seq<nat>, j: Job) returns (t': Tree)
    requires IsCreate(j) && Sound(t) && WayWaiting(t, way, j) && way != []
    requires |t.kids| >= 2 && Of(t.node.records, CreateKind) == []
    ensures Reaches(t, t') && !NoLookupFails(t')
  {
    HandedOn(t.kids[way[0]], way[1..], j);
    var kid := ReachesExist(Send(t.kids[way[0]], [Do(j.cmd, j.fork)]), way[1..], j);
    var passed := ReachesPassedUp(t, way, kid, j);
    var k := if way[0] == 0 then 1 else 0;
    HandedOff(t.kids[k], j);
    var rest := ReachesNo(passed.kids[k], j);
    ReachesBelow(passed, k, rest);
    var around := passed.(kids := passed.kids[k := rest]);
    ReachesOn(t, passed, around);
    t' := ReachesHead(around, k, No(j));
    ReachesOn(t, around, t');
    HeadFails(t', k, j);
  }

  lemma {:induction false} ReachesFailure(t: Tree, way: seq<nat>, j: Job) returns (t': Tree)
    requires IsCreate(j) && Sound(t) && WayWaiting(t, way, j) && !Spared(t, way)
    ensures Reaches(t, t') && !NoLookupFails(t')
    decreases way
  {
    var i := way[0];
    if |t.kids| >= 2 && Of(t.node.records, CreateKind) == [] {
      t' := ReachesFailureHere(t, way, j);
    } else {
      var passed := PassedOn(t, j);
      HandedOn(t.kids[i], way[1..], j);
      var kid := ReachesFailure(passed.kids[i], way[1..], j);
      ReachesAround(t, way, kid, j);
      t' := passed.(kids := passed.kids[i := kid]);
      assert t'.kids[i] == kid;
    }
  }

  // ---------------------------------------------------------------- the condition on the tree

  /** Between the root and the process with the id, every process that has several children
      also has an old create record. */
  predicate Spare(t: Tree, x: nat)
    decreases t
  {
    Places(ShapeOf(t), x) > 0 && t.node.id != x ==>
      && (|t.kids| >= 2 ==> Of(t.node.records, CreateKind) != [])
      && forall i :: 0 <= i < |t.kids| ==> Spare(t.kids[i], x)
  }

  /** The child through which the way goes. */
  lemma {:induction false} PlaceBelow(ts: seq<Tree>, x: nat) returns (i: nat)
    requires PlacesAll(ShapesOf(ts), x) == 1
    ensures i < |ts| && Places(ShapeOf(ts[i]), x) == 1
    ensures forall k :: 0 <= k < |ts| && k != i ==> Places(ShapeOf(ts[k]), x) == 0
  {
    assert ShapesOf(ts)[1..] == ShapesOf(ts[1..]);
    if Places(ShapeOf(ts[0]), x) == 1 {
      i := 0;
      forall k | 1 <= k < |ts| ensures Places(ShapeOf(ts[k]), x) == 0 {
        NoPlace(ts[1..], k - 1, x);
      }
    } else {
      var i' := PlaceBelow(ts[1..], x);
      i := i' + 1;
    }
  }

  lemma NoPlace(ts: seq<Tree>, i: nat, x: nat)
    requires i < |ts| && PlacesAll(ShapesOf(ts), x) == 0
    ensures Places(ShapeOf(ts[i]), x) == 0
  {
    ShapesAt(ts, i);
    PlacesMember(ShapesOf(ts), i, x);
  }

  lemma {:induction false} NobodyIsParent(t: Tree, j: Job)
    requires IsCreate(j) && Places(ShapeOf(t), j.cmd.parentId) == 0
    ensures Absent(t, j)
    decreases t
  {
    forall i | 0 <= i < |t.kids| ensures Absent(t.kids[i], j) {
      NoPlace(t.kids, i, j.cmd.parentId);
      NobodyIsParent(t.kids[i], j);
    }
  }

  /** The way to the process with the id. */
  lemma {:induction false} WayTo(t: Tree, j: Job) returns (way: seq<nat>)
    requires IsCreate(j) && Places(ShapeOf(t), j.cmd.newNodeId) == 1 && Places(ShapeOf(t), j.cmd.parentId) == 0
    ensures Leads(t, way, j) && Spared(t, way) == Spare(t, j.cmd.newNodeId)
    decreases t
  {
    var x := j.cmd.newNodeId;
    if t.node.id == x {
      way := [];
    } else {
      var i := PlaceBelow(t.kids, x);
      NoPlace(t.kids, i, j.cmd.parentId);
      var rest := WayTo(t.kids[i], j);
      way := [i] + rest;
      assert way[1..] == rest;
      forall k | 0 <= k < |t.kids| && k != i
        ensures Clear(t.kids[k], j) && Absent(t.kids[k], j) && Spare(t.kids[k], x)
      {
        FreshIsClear(t.kids[k], j);
        NoPlace(t.kids, k, j.cmd.parentId);
        NobodyIsParent(t.kids[k], j);
      }
    }
  }

  // ---------------------------------------------------------------- main results

  lemma StartWaits(t: Tree, way: seq<nat>, j: Job)
    requires IsCreate(j) && Ready(t, CreateKind) && Leads(t, way, j)
    ensures var start := t.(down := [Do(j.cmd, j.fork)]);
      && Sound(start) && WayWaiting(start, way, j)
      && Spared(start, way) == Spared(t, way)
      && OwedExist(start, way, j) == 1 && (Spared(t, way) ==> Way(start, way, j))
  {
    var start := t.(down := [Do(j.cmd, j.fork)]);
    SameSelf(t);
    SameWay(t, start, way, j);
    NoExist(t.up, j);
  }

  /** Creating an id that exists, under a parent that does not: some run makes a lookup fail
      if and only if some process between the manager and the node with that id has several
      children and no old create record. */
  lemma LookupCanFailIff(t: Tree, x: nat, p: nat, fork: Fork)
    requires Ready(t, CreateKind) && Places(ShapeOf(t), x) == 1 && Places(ShapeOf(t), p) == 0
    ensures (exists t' :: Reaches(t.(down := [Do(Create(x, p), fork)]), t') && !NoLookupFails(t')) <==> !Spare(t, x)
  {
    var j := Job(Create(x, p), fork, true);
    var start := t.(down := [Do(Create(x, p), fork)]);
    var way := WayTo(t, j);
    StartWaits(t, way, j);
    if Spare(t, x) {
      forall t' | Reaches(start, t') ensures NoLookupFails(t') {
        var ms :| Possible(start, ms) && AllCalm(ms) && Run(start, ms) == t';
        WayRun(start, ms, way, j);
        WayLookups(t', way, j);
      }
    } else {
      var t' := ReachesFailure(start, way, j);
    }
  }

  lemma {:induction false} QuietExist(t: Tree, way: seq<nat>, j: Job)
    requires IsCreate(j) && Quiet(t)
    ensures OwedExist(t, way, j) == multiset(t.up)[Exists(j)]
    decreases way
  {
    if way != [] && way[0] < |t.kids| {
      NoExist(t.kids[way[0]].up, j);
      QuietExist(t.kids[way[0]], way[1..], j);
    }
  }

  lemma {:induction false} OnlyOne(up: seq<Response>, r: Response)
    requires forall x :: x in up ==> x == r
    ensures |up| == multiset(up)[r]
  {
    if up != [] {
      assert up == [up[0]] + up[1..];
      assert multiset(up) == multiset([up[0]]) + multiset(up[1..]);
      assert up[0] in up && forall x :: x in up[1..] ==> x in up;
      OnlyOne(up[1..], r);
    }
  }

  /** Under that condition the client gets one answer in every run: that the node exists. */
  lemma ExistingAnsweredOnce(t: Tree, x: nat, p: nat, fork: Fork, ms: seq<Move>)
    requires Ready(t, CreateKind) && Places(ShapeOf(t), x) == 1 && Places(ShapeOf(t), p) == 0 && Spare(t, x)
    requires Possible(t.(down := [Do(Create(x, p), fork)]), ms) && AllCalm(ms)
    ensures var t' := Run(t.(down := [Do(Create(x, p), fork)]), ms);
      && (t'.up == [] || t'.up == [NodeExistResponse(x)])
      && (Quiet(t') ==> t'.up == [NodeExistResponse(x)])
  {
    var j := Job(Create(x, p), fork, true);
    var start := t.(down := [Do(Create(x, p), fork)]);
    var way := WayTo(t, j);
    StartWaits(t, way, j);
    WayRun(start, ms, way, j);
    ManagerRun(start, ms);
    var t' := Run(start, ms);
    OnlyOne(t'.up, Exists(j));
    if t'.up != [] {
      assert t'.up[0] in t'.up;
    }
    if Quiet(t') {
      QuietExist(t', way, j);
    }
  }
}

/**
A create command for an id that a process of the tree already has, under a parent that no
process is: the way from the manager to that process, what travels along it, and why no
lookup fails as long as every process on the way that has more than one child also has an
old create record to give away.
*/
module ExistingId {
  import opened Messages
  import opened NodeSpec
  import opened Records
  import opened TreeSystem
  import opened SingleCommand
  import opened Liveness
  import opened Ways

  /** A create command; the fork plays no part, as nobody is the parent. */
  predicate IsCreate(j: Job) {
    j.cmd.Create? && j.clean
  }

  function Exists(j: Job): Response
    requires IsCreate(j)
  {
    NodeExistResponse(j.cmd.newNodeId)
  }

  // ---------------------------------------------------------------- the way to the process

  /** The way, by the positions of the children, leads to the process with the id, and no
      process off the way has it; no process at all has the parent's id. */
  predicate Leads(t: Tree, way: seq<nat>, j: Job)
    requires IsCreate(j)
    decreases way
  {
    && t.node.id != j.cmd.parentId
    && if way == [] then t.node.id == j.cmd.newNodeId
       else
         && t.node.id != j.cmd.newNodeId && way[0] < |t.kids|
         && (forall i :: 0 <= i < |t.kids| && i != way[0] ==> Clear(t.kids[i], j) && Absent(t.kids[i], j))
         && Leads(t.kids[way[0]], way[1..], j)
  }

  predicate Absent(t: Tree, j: Job)
    requires IsCreate(j)
    decreases t
  {
    t.node.id != j.cmd.parentId && forall i :: 0 <= i < |t.kids| ==> Absent(t.kids[i], j)
  }

  /** Every process on the way that has several children has an old create record. */
  predicate Spared(t: Tree, way: seq<nat>)
    decreases way
  {
    way != [] && way[0] < |t.kids| ==>
      && (|t.kids| >= 2 ==> Of(t.node.records, CreateKind) != [])
      && Spared(t.kids[way[0]], way[1..])
  }

  /** Nobody says yes, so an idle tree says no. */
  lemma {:induction false} AbsentHits(t: Tree, j: Job)
    requires IsCreate(j) && Absent(t, j)
    ensures Hits(t, j) == 0
    decreases t
  {
    AbsentHitsAll(t.kids, j);
  }

  lemma {:induction false} AbsentHitsAll(ts: seq<Tree>, j: Job)
    requires IsCreate(j) && forall i :: 0 <= i < |ts| ==> Absent(ts[i], j)
    ensures HitsAll(ts, j) == 0
    decreases ts
  {
    if ts != [] {
      AbsentHits(ts[0], j);
      AbsentHitsAll(ts[1..], j);
    }
  }

  // ---------------------------------------------------------------- the same processes

  lemma {:induction false} SameNoId(t: Tree, t': Tree, j: Job)
    requires IsCreate(j) && Same(t, t')
    ensures Clear(t', j) == Clear(t, j) && Absent(t', j) == Absent(t, j)
    decreases t
  {
    forall i | 0 <= i < |t.kids|
      ensures Clear(t'.kids[i], j) == Clear(t.kids[i], j) && Absent(t'.kids[i], j) == Absent(t.kids[i], j)
    {
      SameNoId(t.kids[i], t'.kids[i], j);
    }
  }

  lemma {:induction false} SameWay(t: Tree, t': Tree, way: seq<nat>, j: Job)
    requires IsCreate(j) && Same(t, t')
    ensures Leads(t, way, j) ==> Leads(t', way, j)
    ensures Spared(t', way) == Spared(t, way)
    decreases way
  {
    if way != [] && way[0] < |t.kids| {
      SameWay(t.kids[way[0]], t'.kids[way[0]], way[1..], j);
      forall i | 0 <= i < |t.kids|
        ensures Clear(t'.kids[i], j) == Clear(t.kids[i], j) && Absent(t'.kids[i], j) == Absent(t.kids[i], j)
      {
        SameNoId(t.kids[i], t'.kids[i], j);
      }
    }
  }

  // ---------------------------------------------------------------- the invariant along the way

  predicate UpFits(up: seq<Response>, j: Job)
    requires IsCreate(j)
  {
    forall r :: r in up ==> r.Heartbeat? || r == Exists(j)
  }

  /** How many NodeExist answers a subtree on the way still has to hand to its parent. */
  ghost function OwedExist(t: Tree, way: seq<nat>, j: Job): nat
    requires IsCreate(j)
    decreases way
  {
    multiset(t.up)[Exists(j)] +
    if t.down != [] then 1
    else if way == [] || way[0] >= |t.kids| then 0
    else OwedExist(t.kids[way[0]], way[1..], j)
  }

  /** The records, with so many bad answers to come and NodeExist to come or not.  The bad
      answers never fill a record: one child gives NodeExist instead. */
  predicate WayTally(q: seq<Record>, n: nat, no: int, exist: nat) {
    && 0 <= no
    && (q == [] ==> no == 0 && exist == 0)
    && (q != [] ==>
          && AllFresh(q[1..]) && !q[0].good
          && q[0].count + no <= n - 1
          && (exist > 0 ==> q[0].count + no == n - 1 && (n >= 2 ==> |q| >= 2)))
  }

  /** The command waits in front of an idle subtree. */
  ghost predicate WayWaiting(t: Tree, way: seq<nat>, j: Job)
    requires IsCreate(j)
  {
    && t.down == [Do(j.cmd, j.fork)] && AllBeats(t.up)
    && AllFresh(Of(t.node.records, CreateKind))
    && (forall i :: 0 <= i < |t.kids| ==> Idle(t.kids[i], CreateKind, true))
    && Leads(t, way, j)
  }

  ghost predicate Way(t: Tree, way: seq<nat>, j: Job)
    requires IsCreate(j)
    decreases way
  {
    && Sound(t) && UpFits(t.up, j)
    && if t.down != [] then WayWaiting(t, way, j) && Spared(t, way)
       else if way == [] then forall i :: 0 <= i < |t.kids| ==> Idle(t.kids[i], CreateKind, true)
       else
         && way[0] < |t.kids| && OffWay(t, way[0], j)
         && Way(t.kids[way[0]], way[1..], j)
         && OwedExist(t.kids[way[0]], way[1..], j) <= 1
         && WayTally(Of(t.node.records, CreateKind), |t.kids|, OffNo(t, way[0], j),
                     OwedExist(t.kids[way[0]], way[1..], j))
  }

  lemma NoExist(up: seq<Response>, j: Job)
    requires IsCreate(j) && AllBeats(up)
    ensures multiset(up)[Exists(j)] == 0 && UpFits(up, j)
  {
    assert Exists(j) !in up;
  }

  /** A tree whose command has been passed on meets the invariant when its parts do. */
  lemma WayFrom(t: Tree, way: seq<nat>, j: Job, no: int, exist: nat)
    requires IsCreate(j) && Sound(t) && t.down == [] && UpFits(t.up, j)
    requires way != [] && way[0] < |t.kids| && OffWay(t, way[0], j) && OffNo(t, way[0], j) == no
    requires Way(t.kids[way[0]], way[1..], j) && OwedExist(t.kids[way[0]], way[1..], j) == exist <= 1
    requires WayTally(Of(t.node.records, CreateKind), |t.kids|, no, exist)
    ensures Way(t, way, j) && OwedExist(t, way, j) == multiset(t.up)[Exists(j)] + exist
  {
  }

  /** The parts, and what is owed. */
  lemma WayParts(t: Tree, way: seq<nat>, j: Job)
    requires IsCreate(j) && Way(t, way, j) && t.down == [] && way != []
    ensures Sound(t) && UpFits(t.up, j) && way[0] < |t.kids| && OffWay(t, way[0], j)
    ensures var exist := OwedExist(t.kids[way[0]], way[1..], j);
      && Way(t.kids[way[0]], way[1..], j) && exist <= 1
      && WayTally(Of(t.node.records, CreateKind), |t.kids|, OffNo(t, way[0], j), exist)
      && OwedExist(t, way, j) == multiset(t.up)[Exists(j)] + exist
  {
  }

  // ---------------------------------------------------------------- handing the command out

  lemma {:induction false} SumOnes(ts: seq<Tree>, j: Job)
    requires forall i :: 0 <= i < |ts| ==> OwedNo(ts[i], j) == 1
    ensures SumNo(ts, j) == |ts|
  {
    if ts != [] {
      SumOnes(ts[1..], j);
    }
  }

  lemma {:induction false} SumButOne(ts: seq<Tree>, i: nat, j: Job)
    requires i < |ts| && forall k :: 0 <= k < |ts| && k != i ==> OwedNo(ts[k], j) == 1
    ensures SumNo(ts, j) - OwedNo(ts[i], j) == |ts| - 1
  {
    if i == 0 {
      SumOnes(ts[1..], j);
    } else {
      SumButOne(ts[1..], i - 1, j);
    }
  }

  /** A child off the way gets the command. */
  lemma HandedOff(t: Tree, j: Job)
    requires IsCreate(j) && Idle(t, CreateKind, true) && t.attached && Clear(t, j) && Absent(t, j)
    ensures var after := Send(t, [Do(j.cmd, j.fork)]);
      Inv(after, j) && OwedYes(after, j) == 0 && OwedNo(after, j) == 1
  {
    AbsentHits(t, j);
    FreshAnswers(t, j);
    HandedOne(t, j);
  }

  /** The child on the way gets it. */
  lemma HandedOn(t: Tree, way: seq<nat>, j: Job)
    requires IsCreate(j) && Idle(t, CreateKind, true) && t.attached && Leads(t, way, j)
    ensures var after := Send(t, [Do(j.cmd, j.fork)]);
      && Sound(after) && WayWaiting(after, way, j) && Spared(after, way) == Spared(t, way)
      && OwedExist(after, way, j) == 1 && UpFits(after.up, j)
  {
    var after := Send(t, [Do(j.cmd, j.fork)]);
    assert after.down == [Do(j.cmd, j.fork)];
    NoExist(t.up, j);
    SameSelf(t);
    SameWay(t, after, way, j);
  }

  /** A process on the way passes the command on, the process with the id answers it. */
  lemma TakeOnWay(t: Tree, way: seq<nat>, j: Job)
    requires IsCreate(j) && Sound(t) && WayWaiting(t, way, j)
    ensures ApplyTake(t) == if way == [] then Handled(t, t.node, [Exists(j)], t.kids) else PassedOn(t, j)
  {
    if way == [] {
      BroadcastNothing(t.kids);
    }
  }

  lemma PassedKids(t: Tree, way: seq<nat>, j: Job)
    requires IsCreate(j) && Sound(t) && WayWaiting(t, way, j) && way != []
    ensures var t' := PassedOn(t, j);
      && OffWay(t', way[0], j) && OffNo(t', way[0], j) == |t.kids| - 1
      && t'.kids[way[0]] == Send(t.kids[way[0]], [Do(j.cmd, j.fork)])
  {
    var t' := PassedOn(t, j);
    forall k | 0 <= k < |t.kids| && k != way[0]
      ensures Inv(t'.kids[k], j) && OwedYes(t'.kids[k], j) == 0 && OwedNo(t'.kids[k], j) == 1
    {
      HandedOff(t.kids[k], j);
    }
    SumButOne(t'.kids, way[0], j);
  }

  lemma PassedTally(records: seq<Record>, n: nat)
    requires AllFresh(Of(records, CreateKind)) && n > 0 && (n >= 2 ==> Of(records, CreateKind) != [])
    ensures WayTally(Of(records + [Fresh(CreateKind)], CreateKind), n, n - 1, 1)
  {
    AppendedOf(records, CreateKind, CreateKind);
    var q := Of(records, CreateKind);
    if q != [] {
      assert (q + [Fresh(CreateKind)])[1..] == q[1..] + [Fresh(CreateKind)];
      assert q[0] in q;
    }
  }

  /** What a calm move keeps on the way. */
  ghost predicate WayKept(t: Tree, t': Tree, way: seq<nat>, j: Job)
    requires IsCreate(j)
  {
    && Way(t', way, j)
    && t'.node.id == t.node.id && t'.attached == t.attached
    && OwedExist(t', way, j) == OwedExist(t, way, j)
  }

  lemma PassedWay(t: Tree, way: seq<nat>, j: Job)
    requires IsCreate(j) && Sound(t) && WayWaiting(t, way, j) && Spared(t, way) && way != []
    ensures Way(PassedOn(t, j), way, j) && OwedExist(PassedOn(t, j), way, j) == 1
  {
    PassedKids(t, way, j);
    PassedTally(t.node.records, |t.kids|);
    HandedOn(t.kids[way[0]], way[1..], j);
    NoExist(t.up, j);
    assert t.up + [] == t.up;
    WayFrom(PassedOn(t, j), way, j, |t.kids| - 1, 1);
  }

  lemma AnsweredHere(t: Tree, way: seq<nat>, j: Job)
    requires IsCreate(j) && Sound(t) && WayWaiting(t, way, j) && way == []
    ensures var t' := Handled(t, t.node, [Exists(j)], t.kids);
      Way(t', way, j) && OwedExist(t', way, j) == 1
  {
    NoExist(t.up, j);
    UpGains(t.up, Exists(j), Exists(j));
  }

  lemma TakeWay(t: Tree, way: seq<nat>, j: Job)
    requires IsCreate(j) && Way(t, way, j) && t.down != []
    ensures WayKept(t, ApplyTake(t), way, j)
  {
    TakeOnWay(t, way, j);
    NoExist(t.up, j);
    if way == [] {
      AnsweredHere(t, way, j);
    } else {
      PassedWay(t, way, j);
    }
  }

  // ---------------------------------------------------------------- moves while the command waits

  /** An idle subtree is replaced below a process that still has the command in front of it. */
  lemma WayReplaced(t: Tree, t': Tree, i: nat, kid: Tree, way: seq<nat>, j: Job)
    requires IsCreate(j) && Way(t, way, j) && t.down != [] && i < |t.kids|
    requires Idle(kid, CreateKind, true) && Same(t.kids[i], kid) && t'.kids == t.kids[i := kid]
    requires SameNode(t.node, t'.node)
    requires t'.down == t.down && t'.up == t.up && t'.attached == t.attached && Sound(t')
    ensures WayKept(t, t', way, j)
  {
    SameBut(t, t', i, kid);
    SameWay(t, t', way, j);
  }

  lemma CountWaiting(t: Tree, i: nat, way: seq<nat>, j: Job)
    requires IsCreate(j) && Way(t, way, j) && t.down != [] && Enabled(t, Count(i))
    ensures WayKept(t, ApplyCount(t, i), way, j)
  {
    var r := t.kids[i].up[0];
    assert r in t.kids[i].up && r.Heartbeat?;
    CountShape(t, i);
    StampedSound(t, i, OnResponse(t.node, r).node.children);
    SamePop(t.kids[i]);
    PoppedIdle(t.kids[i], j);
    WayReplaced(t, ApplyCount(t, i), i, Pop(t.kids[i]), way, j);
  }

  lemma InsideWaitingWay(t: Tree, i: nat, m: Move, way: seq<nat>, j: Job)
    requires IsCreate(j) && Way(t, way, j) && t.down != [] && i < |t.kids| && Enabled(t.kids[i], m) && Calm(m)
    ensures WayKept(t, t.(kids := t.kids[i := Apply(t.kids[i], m)]), way, j)
  {
    IdleStep(t.kids[i], m, j);
    IdleSame(t.kids[i], m, CreateKind, true);
    WayReplaced(t, t.(kids := t.kids[i := Apply(t.kids[i], m)]), i, Apply(t.kids[i], m), way, j);
  }

  // ---------------------------------------------------------------- moves after it was passed on

  lemma WayPop(kid: Tree, way: seq<nat>, j: Job)
    requires IsCreate(j) && Way(kid, way, j) && kid.up != []
    ensures Way(Pop(kid), way, j)
    ensures OwedExist(Pop(kid), way, j) == OwedExist(kid, way, j) - if kid.up[0] == Exists(j) then 1 else 0
  {
    assert kid.up == [kid.up[0]] + kid.up[1..];
    assert multiset(kid.up) == multiset([kid.up[0]]) + multiset(kid.up[1..]);
    if kid.down != [] {
      SamePop(kid);
      SameWay(kid, Pop(kid), way, j);
    }
  }

  /** One child subtree off the way is replaced. */
  lemma OffSettled(t: Tree, t': Tree, i: nat, kid: Tree, way: seq<nat>, j: Job, no: int)
    requires IsCreate(j) && Way(t, way, j) && t.down == [] && way != [] && i < |t.kids| && i != way[0]
    requires Sound(t') && t'.down == [] && t'.up == t.up && t'.kids == t.kids[i := kid]
    requires t'.node.id == t.node.id && t'.attached == t.attached
    requires Inv(kid, j) && OwedYes(kid, j) == 0 && OwedNo(kid, j) == OwedNo(t.kids[i], j) - OffNo(t, way[0], j) + no
    requires WayTally(Of(t'.node.records, CreateKind), |t'.kids|, no, OwedExist(t.kids[way[0]], way[1..], j))
    ensures WayKept(t, t', way, j)
  {
    WayParts(t, way, j);
    OffReplaced(t, t', i, kid, way[0], j);
    WayFrom(t', way, j, no, OwedExist(t.kids[way[0]], way[1..], j));
  }

  /** The child subtree on the way is replaced. */
  lemma OnSettled(t: Tree, t': Tree, kid: Tree, way: seq<nat>, j: Job, exist: nat)
    requires IsCreate(j) && Way(t, way, j) && t.down == [] && way != []
    requires Sound(t') && t'.down == [] && UpFits(t'.up, j) && t'.kids == t.kids[way[0] := kid]
    requires t'.node.id == t.node.id && t'.attached == t.attached
    requires Way(kid, way[1..], j) && OwedExist(kid, way[1..], j) == exist <= 1
    requires WayTally(Of(t'.node.records, CreateKind), |t'.kids|, OffNo(t, way[0], j), exist)
    requires multiset(t'.up)[Exists(j)] + exist
      == multiset(t.up)[Exists(j)] + OwedExist(t.kids[way[0]], way[1..], j)
    ensures WayKept(t, t', way, j)
  {
    WayParts(t, way, j);
    OffReplaced(t, t', way[0], kid, way[0], j);
    WayFrom(t', way, j, OffNo(t, way[0], j), exist);
  }

  /** The link of the child on the way. */
  lemma CountOnWay(t: Tree, way: seq<nat>, j: Job)
    requires IsCreate(j) && Way(t, way, j) && t.down == [] && way != [] && Enabled(t, Count(way[0]))
    ensures WayKept(t, ApplyCount(t, way[0]), way, j)
  {
    var i := way[0];
    var kid := t.kids[i];
    assert kid.up[0] in kid.up;
    WayParts(t, way, j);
    WayPop(kid, way[1..], j);
    CountShape(t, i);
    if kid.up[0].Heartbeat? {
      StampedSound(t, i, OnResponse(t.node, kid.up[0]).node.children);
      OnSettled(t, ApplyCount(t, i), Pop(kid), way, j, OwedExist(Pop(kid), way[1..], j));
    } else {
      CountExist(t, way, j);
    }
  }

  lemma CountExist(t: Tree, way: seq<nat>, j: Job)
    requires IsCreate(j) && Way(t, way, j) && t.down == [] && way != []
    requires Enabled(t, Count(way[0])) && t.kids[way[0]].up[0] == Exists(j)
    ensures WayKept(t, ApplyCount(t, way[0]), way, j)
  {
    var i := way[0];
    var e := OnResponse(t.node, Exists(j));
    WayParts(t, way, j);
    WayPop(t.kids[i], way[1..], j);
    CountShape(t, i);
    NodeExistOf(t.node, Exists(j));
    CountedSound(t, i, e.node, e.up);
    UpGains(t.up, Exists(j), Exists(j));
    ExistTally(Of(t.node.records, CreateKind), |t.kids|, OffNo(t, i, j));
    OnSettled(t, ApplyCount(t, i), Pop(t.kids[i]), way, j, 0);
  }

  /** NodeExist takes the first record away; with several children there is a second one. */
  lemma ExistTally(q: seq<Record>, n: nat, no: int)
    requires WayTally(q, n, no, 1)
    ensures q != [] && WayTally(q[1..], n, no, 0)
  {
    if |q| >= 2 {
      assert q[1..][0] in q[1..];
      assert forall r :: r in q[1..][1..] ==> r in q[1..];
    }
  }

  lemma NoTally(q: seq<Record>, q': seq<Record>, n: nat, no: int, exist: nat)
    requires WayTally(q, n, no, exist) && no > 0 && q != [] && q' == [Counted(q[0], false)] + q[1..]
    ensures WayTally(q', n, no - 1, exist)
  {
    assert q'[1..] == q[1..];
  }

  /** A bad answer off the way: it is counted, fills no record and goes no further. */
  lemma CountNoOffWay(t: Tree, i: nat, way: seq<nat>, j: Job)
    requires IsCreate(j) && Way(t, way, j) && t.down == [] && way != [] && i != way[0]
    requires Enabled(t, Count(i)) && t.kids[i].up[0] == No(j)
    ensures WayKept(t, ApplyCount(t, i), way, j)
  {
    var kid := t.kids[i];
    WayParts(t, way, j);
    PopChild(kid, j);
    NoOffWay(t, i, way[0], j);
    CountedOf(t.node, No(j), CreateKind);
    var e := OnResponse(t.node, No(j));
    CountShape(t, i);
    CountedSound(t, i, e.node, e.up);
    var exist := OwedExist(t.kids[way[0]], way[1..], j);
    NoTally(Of(t.node.records, CreateKind), Of(e.node.records, CreateKind), |t.kids|, OffNo(t, way[0], j), exist);
    OffSettled(t, ApplyCount(t, i), i, Pop(kid), way, j, OffNo(t, way[0], j) - 1);
  }

  lemma CountOffWay(t: Tree, i: nat, way: seq<nat>, j: Job)
    requires IsCreate(j) && Way(t, way, j) && t.down == [] && way != [] && i != way[0] && Enabled(t, Count(i))
    ensures WayKept(t, ApplyCount(t, i), way, j)
  {
    var kid := t.kids[i];
    var r := kid.up[0];
    assert r in kid.up;
    if r.Heartbeat? {
      CountBeatOffWay(t, i, way, j);
    } else {
      assert multiset(kid.up)[r] > 0;
      assert r == No(j);
      CountNoOffWay(t, i, way, j);
    }
  }

  lemma CountBeatOffWay(t: Tree, i: nat, way: seq<nat>, j: Job)
    requires IsCreate(j) && Way(t, way, j) && t.down == [] && way != [] && i != way[0]
    requires Enabled(t, Count(i)) && t.kids[i].up[0].Heartbeat?
    ensures WayKept(t, ApplyCount(t, i), way, j)
  {
    PopChild(t.kids[i], j);
    CountShape(t, i);
    StampedSound(t, i, OnResponse(t.node, t.kids[i].up[0]).node.children);
    WayParts(t, way, j);
    OffSettled(t, ApplyCount(t, i), i, Pop(t.kids[i]), way, j, OffNo(t, way[0], j));
  }

  /** Below the process with the id nothing but heartbeats moves. */
  lemma CountBelow(t: Tree, i: nat, way: seq<nat>, j: Job)
    requires IsCreate(j) && Way(t, way, j) && way == [] && t.down == [] && Enabled(t, Count(i))
    ensures WayKept(t, ApplyCount(t, i), way, j)
  {
    var r := t.kids[i].up[0];
    assert r in t.kids[i].up && r.Heartbeat?;
    CountShape(t, i);
    StampedSound(t, i, OnResponse(t.node, r).node.children);
    PoppedIdle(t.kids[i], j);
  }

  lemma InsideBelow(t: Tree, i: nat, kid: Tree, way: seq<nat>, j: Job)
    requires IsCreate(j) && Way(t, way, j) && way == [] && t.down == [] && i < |t.kids|
    requires Idle(kid, CreateKind, true) && kid.node.id == t.kids[i].node.id && kid.attached == t.kids[i].attached
    ensures WayKept(t, t.(kids := t.kids[i := kid]), way, j)
  {
  }

  lemma CountWay(t: Tree, i: nat, way: seq<nat>, j: Job)
    requires IsCreate(j) && Way(t, way, j) && Enabled(t, Count(i))
    ensures WayKept(t, ApplyCount(t, i), way, j)
  {
    if t.down != [] {
      CountWaiting(t, i, way, j);
    } else if way == [] {
      CountBelow(t, i, way, j);
    } else if i == way[0] {
      CountOnWay(t, way, j);
    } else {
      CountOffWay(t, i, way, j);
    }
  }

  lemma BeatWaiting(t: Tree, t': Tree, way: seq<nat>, j: Job)
    requires IsCreate(j) && WayWaiting(t, way, j) && Spared(t, way)
    requires t' == t.(up := t'.up) && AllBeats(t'.up)
    ensures WayWaiting(t', way, j) && Spared(t', way)
  {
    SameSelf(t);
    SameWay(t, t', way, j);
  }

  lemma BeatWay(t: Tree, beat: Response, way: seq<nat>, j: Job)
    requires IsCreate(j) && Way(t, way, j) && beat.Heartbeat?
    ensures WayKept(t, t.(up := t.up + [beat]), way, j)
  {
    var t' := t.(up := t.up + [beat]);
    UpGains(t.up, beat, Exists(j));
    if t.down != [] {
      BeatWaiting(t, t', way, j);
    } else if way != [] {
      WayParts(t, way, j);
      WayFrom(t', way, j, OffNo(t, way[0], j), OwedExist(t.kids[way[0]], way[1..], j));
    }
  }

  lemma InsideOff(t: Tree, i: nat, kid: Tree, way: seq<nat>, j: Job)
    requires IsCreate(j) && Way(t, way, j) && t.down == [] && way != [] && i < |t.kids| && i != way[0]
    requires Kept(t.kids[i], kid, j)
    ensures WayKept(t, t.(kids := t.kids[i := kid]), way, j)
  {
    WayParts(t, way, j);
    OffSettled(t, t.(kids := t.kids[i := kid]), i, kid, way, j, OffNo(t, way[0], j));
  }

  lemma InsideOn(t: Tree, kid: Tree, way: seq<nat>, j: Job)
    requires IsCreate(j) && Way(t, way, j) && t.down == [] && way != [] && WayKept(t.kids[way[0]], kid, way[1..], j)
    ensures WayKept(t, t.(kids := t.kids[way[0] := kid]), way, j)
  {
    WayParts(t, way, j);
    OnSettled(t, t.(kids := t.kids[way[0] := kid]), kid, way, j, OwedExist(kid, way[1..], j));
  }

  /** Every calm move keeps what travels on the way. */
  lemma {:induction false} WayStep(t: Tree, m: Move, way: seq<nat>, j: Job)
    requires IsCreate(j) && Way(t, way, j) && Enabled(t, m) && Calm(m)
    ensures WayKept(t, Apply(t, m), way, j)
    decreases m
  {
    match m
    case Take => TakeWay(t, way, j);
    case Count(i) => CountWay(t, i, way, j);
    case Beat(time) => BeatWay(t, Heartbeat(t.node.id, time), way, j);
    case Inside(i, m') =>
      if t.down != [] {
        InsideWaitingWay(t, i, m', way, j);
      } else if way == [] {
        IdleStep(t.kids[i], m', j);
        InsideBelow(t, i, Apply(t.kids[i], m'), way, j);
      } else if i == way[0] {
        WayStep(t.kids[i], m', way[1..], j);
        InsideOn(t, Apply(t.kids[i], m'), way, j);
      } else {
        Step(t.kids[i], m', j);
        InsideOff(t, i, Apply(t.kids[i], m'), way, j);
      }
    case Sweep(_) =>
    case Exit =>
  }

  lemma {:induction false} WayRun(t: Tree, ms: seq<Move>, way: seq<nat>, j: Job)
    requires IsCreate(j) && Way(t, way, j) && Possible(t, ms) && AllCalm(ms)
    ensures WayKept(t, Run(t, ms), way, j)
    decreases |ms|
  {
    if ms != [] {
      WayStep(t, ms[0], way, j);
      WayRun(Apply(t, ms[0]), ms[1..], way, j);
    }
  }

  // ---------------------------------------------------------------- lookups on the way

  /** A link off the way, while the command is being followed. */
  lemma HeadOff(t: Tree, i: nat, on: nat, j: Job)
    requires IsCreate(j) && OffWay(t, on, j) && on < |t.kids| && i < |t.kids| && i != on && t.kids[i].up != []
    requires OffNo(t, on, j) > 0 ==> Of(t.node.records, CreateKind) != []
    ensures LookupOk(t.node, t.kids[i].up[0])
  {
    var r := t.kids[i].up[0];
    assert r in t.kids[i].up && UpOk(t.kids[i].up, j);
    assert multiset(t.kids[i].up)[r] > 0;
    if r == No(j) {
      NoOffWay(t, i, on, j);
    }
    Missing(t.node.records, CreateKind);
  }

  /** The link on the way. */
  lemma HeadOn(t: Tree, i: nat, way: seq<nat>, j: Job)
    requires IsCreate(j) && i < |t.kids| && t.kids[i].up != [] && UpFits(t.kids[i].up, j)
    requires OwedExist(t.kids[i], way, j) > 0 ==> Of(t.node.records, CreateKind) != []
    ensures LookupOk(t.node, t.kids[i].up[0])
  {
    var r := t.kids[i].up[0];
    assert r in t.kids[i].up;
    assert multiset(t.kids[i].up)[r] > 0;
    Missing(t.node.records, CreateKind);
  }

  /** A head of a link finds its record. */
  lemma HeadFinds(t: Tree, i: nat, way: seq<nat>, j: Job)
    requires IsCreate(j) && Way(t, way, j) && i < |t.kids| && t.kids[i].up != []
    ensures LookupOk(t.node, t.kids[i].up[0])
  {
    if t.down != [] || way == [] {
      assert Idle(t.kids[i], CreateKind, true);
      assert t.kids[i].up[0] in t.kids[i].up;
    } else if i == way[0] {
      HeadOn(t, i, way[1..], j);
    } else {
      HeadOff(t, i, way[0], j);
    }
  }

  lemma {:induction false} WayLookups(t: Tree, way: seq<nat>, j: Job)
    requires IsCreate(j) && Way(t, way, j)
    ensures NoLookupFails(t)
    decreases t
  {
    forall i | 0 <= i < |t.kids|
      ensures t.kids[i].up != [] ==> LookupOk(t.node, t.kids[i].up[0])
      ensures NoLookupFails(t.kids[i])
    {
      if t.kids[i].up != [] {
        HeadFinds(t, i, way, j);
      }
      if t.down == [] && way != [] && i == way[0] {
        WayLookups(t.kids[i], way[1..], j);
      } else {
        if t.down != [] || way == [] {
          IdleOwesNothing(t.kids[i], j);
        }
        LookupsSafe(t.kids[i], j);
      }
    }
  }
}

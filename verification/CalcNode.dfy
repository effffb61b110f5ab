/**
The process itself: the handlers of CalcTreeNode, and of the manager CalcTree, as methods
that update the record list, the child list and the outgoing queues in place.  Every
handler is shown to do what NodeSpec says.
*/
module CalcNode {
  import opened Messages
  import opened NodeSpec
  import Sweep

  /** The parent's handle on one child: its link, and when it was last heard of. */
  class CalcNodeRoot {
    const id: nat
    const pid: nat
    var lastHeartBeat: int
    var pusher: seq<Order>

    constructor (id: nat, pid: nat, now: int)
      ensures this.id == id && this.pid == pid && lastHeartBeat == now && pusher == []
    {
      this.id, this.pid, lastHeartBeat, pusher := id, pid, now, [];
    }

    method Push(o: Order)
      modifies this`pusher
      ensures pusher == old(pusher) + [o]
    {
      pusher := pusher + [o];
    }
  }

  ghost function Handle(c: CalcNodeRoot): Child
    reads c
  {
    Child(c.id, c.pid, c.lastHeartBeat)
  }

  ghost function Handles(cs: seq<CalcNodeRoot>): (r: seq<Child>)
    reads cs
    ensures |r| == |cs| && forall i :: 0 <= i < |cs| ==> r[i] == Handle(cs[i])
  {
    if cs == [] then [] else [Handle(cs[0])] + Handles(cs[1..])
  }

  ghost function Links(cs: seq<CalcNodeRoot>): (r: seq<seq<Order>>)
    reads cs
    ensures |r| == |cs| && forall i :: 0 <= i < |cs| ==> r[i] == cs[i].pusher
  {
    if cs == [] then [] else [cs[0].pusher] + Links(cs[1..])
  }

  /** The handles during a sweep that has got to child j. */
  ghost predicate SweptTo(all: seq<CalcNodeRoot>, hs: seq<Child>, links: seq<seq<Order>>, erased: seq<bool>, j: nat)
    requires |all| == |hs| == |links| == |erased|
    reads all
  {
    forall k :: 0 <= k < |all| ==>
      && Handle(all[k]) == hs[k]
      && all[k].pusher == links[k] + if k < j && erased[k] then [Kill] else []
  }

  /** The pid that the search for an id yields. */
  ghost function PidLookup(hs: seq<Child>, id: nat): Result<nat> {
    if exists c :: c in hs && c.id == id then Ok(PidOf(hs, id)) else Thrown
  }

  lemma NextHandle(hs: seq<Child>, id: nat)
    requires hs != []
    ensures PidLookup(hs, id) == if hs[0].id == id then Ok(hs[0].pid) else PidLookup(hs[1..], id)
  {
    if hs[0].id == id {
      assert hs[0] in hs;
    } else {
      assert forall c :: c in hs <==> c == hs[0] || c in hs[1..];
    }
  }

  lemma LastHandle(hs: seq<Child>, c: Child)
    ensures var more := hs + [c];
      (exists d :: d in more && d.id == c.id) && PidLookup(more, c.id) == Ok(PidOf(more, c.id))
  {
    assert c in hs + [c];
  }

  lemma StartedWith(s: NodeState, newNodeId: nat, pid: nat, at: int)
    ensures var more := s.children + [Child(newNodeId, pid, at)];
      && (exists c :: c in more && c.id == newNodeId)
      && Started(s, newNodeId, Forked(pid, at))
         == Effect(s.(children := more), [GoodCreateResp(newNodeId, PidOf(more, newNodeId))], [])
  {
    assert Child(newNodeId, pid, at) in s.children + [Child(newNodeId, pid, at)];
  }

  class CalcTreeNode {
    const id: nat
    const manager: bool
    const checkingHeartbeatPeriod: int
    var keepRunning: bool
    var children: seq<CalcNodeRoot>
    var commandRecordsList: seq<Record>
    var ancestorPusher: seq<Response>

    ghost predicate Valid()
      reads this
    {
      forall i, j :: 0 <= i < j < |children| ==> children[i] != children[j]
    }

    /** The state as NodeSpec sees it. */
    ghost function View(): NodeState
      reads this, children
    {
      NodeState(id, manager, keepRunning, Handles(children), commandRecordsList)
    }

    /** What a handler with effect e has done: to the state, to the link to the ancestor, and
        to the link of every child there was `before`. */
    twostate predicate Did(before: seq<CalcNodeRoot>, e: Effect)
      reads this, children, before
    {
      && Valid()
      && View() == e.node
      && ancestorPusher == old(ancestorPusher) + e.up
      && (forall c :: c in before ==> c.pusher == old(c.pusher) + e.down)
      && Grew(before)
    }

    /** The same children as before, and perhaps new ones whose links are empty. */
    ghost predicate Grew(before: seq<CalcNodeRoot>)
      reads this, children
    {
      before <= children && forall c :: c in children[|before|..] ==> c.pusher == []
    }

    constructor (id: nat, manager: bool, period: int)
      ensures Valid() && View() == NodeState(id, manager, true, [], []) && ancestorPusher == []
      ensures checkingHeartbeatPeriod == period
    {
      this.id, this.manager, checkingHeartbeatPeriod := id, manager, period;
      keepRunning, children, commandRecordsList, ancestorPusher := true, [], [], [];
    }

    method RedirectToAncestor(r: Response)
      modifies this`ancestorPusher
      ensures ancestorPusher == old(ancestorPusher) + [r]
    {
      ancestorPusher := ancestorPusher + [r];
    }

    /** A dead end answers for the subtree that is not there. */
    method HandleDeadEnd(o: Order)
      modifies this`ancestorPusher
      ensures ancestorPusher == old(ancestorPusher) + if o.Do? then DeadEnd(o.cmd) else []
    {
      match o
      case Do(Exec(target, _), _) => RedirectToAncestor(BadExecResp(target));
      case Do(Create(newNodeId, parentId), _) => RedirectToAncestor(BadCreateResp(parentId, newNodeId));
      case _ =>
    }

    /** Push to every child, or meet a dead end. */
    method RedirectToNodes(o: Order)
      requires Valid()
      modifies this`ancestorPusher, children
      ensures Valid() && View() == old(View())
      ensures forall c :: c in children ==> c.pusher == old(c.pusher) + [o]
      ensures ancestorPusher == old(ancestorPusher) + if children == [] && o.Do? then DeadEnd(o.cmd) else []
    {
      if children == [] {
        HandleDeadEnd(o);
      } else {
        var i := 0;
        while i < |children|
          invariant 0 <= i <= |children|
          invariant forall k :: 0 <= k < |children| ==> Handle(children[k]) == old(Handle(children[k]))
          invariant forall k :: 0 <= k < i ==> children[k].pusher == old(children[k].pusher) + [o]
          invariant forall k :: i <= k < |children| ==> children[k].pusher == old(children[k].pusher)
          invariant ancestorPusher == old(ancestorPusher)
        {
          children[i].Push(o);
          i := i + 1;
        }
        assert Handles(children) == old(Handles(children));
      }
    }

    // -------------------------------------------------------------- records

    /** The search walks until it meets the type: a record of it must be there. */
    method FindRecord(kind: Kind) returns (i: nat)
      requires Find(commandRecordsList, kind) < |commandRecordsList|
      ensures i == Find(commandRecordsList, kind)
    {
      i := 0;
      while commandRecordsList[i].kind != kind
        invariant i <= Find(commandRecordsList, kind)
        decreases Find(commandRecordsList, kind) - i
      {
        i := i + 1;
      }
    }

    method AccountBadResp(r: Response)
      requires Valid() && IsBad(r) && LookupOk(View(), r)
      modifies this`commandRecordsList, this`ancestorPusher
      ensures Did(old(children), OnResponse(old(View()), r))
    {
      var i := FindRecord(KindOf(r));
      var rec := commandRecordsList[i];
      commandRecordsList := commandRecordsList[i := Record(rec.kind, rec.count + 1, rec.good)];
      if commandRecordsList[i].count == |children| && !commandRecordsList[i].good {
        commandRecordsList := commandRecordsList[..i] + commandRecordsList[i + 1..];
        RedirectToAncestor(r);
        assert commandRecordsList == Without(old(commandRecordsList), i);
      }
    }

    method AccountGoodResp(r: Response)
      requires Valid() && IsGood(r) && LookupOk(View(), r)
      modifies this`commandRecordsList, this`ancestorPusher
      ensures Did(old(children), OnResponse(old(View()), r))
    {
      var i := FindRecord(KindOf(r));
      var rec := commandRecordsList[i];
      commandRecordsList := commandRecordsList[i := Record(rec.kind, rec.count + 1, true)];
      if commandRecordsList[i].count == |children| {
        commandRecordsList := commandRecordsList[..i] + commandRecordsList[i + 1..];
        assert commandRecordsList == Without(old(commandRecordsList), i);
      }
      RedirectToAncestor(r);
    }

    method CloseRecordAndRedirectResp(r: Response)
      requires Valid() && r.NodeExistResponse? && LookupOk(View(), r)
      modifies this`commandRecordsList, this`ancestorPusher
      ensures Did(old(children), OnResponse(old(View()), r))
    {
      var i := FindRecord(CreateKind);
      commandRecordsList := commandRecordsList[..i] + commandRecordsList[i + 1..];
      assert commandRecordsList == Without(old(commandRecordsList), i);
      RedirectToAncestor(r);
    }

    /** The first child with the id gets the time stamp; an unknown id is ignored. */
    method HandleHeartbeat(nodeId: nat, time: int)
      requires Valid()
      modifies children`lastHeartBeat
      ensures Valid() && View() == old(View()).(children := Stamp(old(Handles(children)), nodeId, time))
    {
      var i := 0;
      while i < |children|
        invariant 0 <= i <= |children|
        invariant forall k :: 0 <= k < |children| ==> Handle(children[k]) == old(Handle(children[k]))
        invariant forall k :: 0 <= k < i ==> children[k].id != nodeId
      {
        if children[i].id == nodeId {
          ghost var before := old(Handles(children));
          StampAt(before, nodeId, time, i);
          children[i].lastHeartBeat := time;
          assert Handles(children) == before[i := before[i].(lastBeat := time)];
          return;
        }
        i := i + 1;
      }
      assert Handles(children) == old(Handles(children));
      StampAt(Handles(children), nodeId, time, |children|);
    }

    method HandleResponse(r: Response)
      requires Valid() && LookupOk(View(), r)
      modifies this`commandRecordsList, this`ancestorPusher, children`lastHeartBeat
      ensures Did(old(children), OnResponse(old(View()), r))
    {
      match r
      case BadExecResp(_) => AccountBadResp(r);
      case GoodExecResp(_, _) => AccountGoodResp(r);
      case BadCreateResp(_, _) => AccountBadResp(r);
      case GoodCreateResp(_, _) => AccountGoodResp(r);
      case NodeExistResponse(_) => CloseRecordAndRedirectResp(r);
      case Heartbeat(nodeId, time) => HandleHeartbeat(nodeId, time);
      case _ => RedirectToAncestor(r);
    }

    // -------------------------------------------------------------- commands

    method ExecuteHere(k: seq<real>)
      requires Valid()
      modifies this`ancestorPusher
      ensures ancestorPusher == old(ancestorPusher) + [GoodExecResp(id, Sum(k))]
    {
      var sum := 0.0;
      var i := 0;
      while i < |k|
        invariant 0 <= i <= |k|
        invariant sum == Sum(k[..i])
      {
        sum := sum + k[i];
        assert k[..i + 1][..i] == k[..i];
        i := i + 1;
      }
      assert k[..i] == k;
      RedirectToAncestor(GoodExecResp(id, sum));
    }

    /** Pass the command on to the children and remember it. */
    method RedirectAndRecord(c: Command, fork: Fork, kind: Kind)
      requires Valid()
      modifies this`commandRecordsList, this`ancestorPusher, children
      ensures Did(old(children), Redirect(old(View()), c, fork, kind))
    {
      RedirectToNodes(Do(c, fork));
      commandRecordsList := commandRecordsList + [Fresh(kind)];
    }

    method HandleExec(c: Command, fork: Fork)
      requires Valid() && c.Exec?
      modifies this`commandRecordsList, this`ancestorPusher, children
      ensures Did(old(children), OnExec(old(View()), c, fork))
    {
      if !manager && c.nodeId == id {
        ExecuteHere(c.k);
      } else {
        RedirectAndRecord(c, fork, ExecKind);
      }
    }

    /** The pid of the first child with the id; throws when no child has it. */
    method GetProcessPidByNodeId(nodeId: nat) returns (pid: Result<nat>)
      ensures pid == PidLookup(Handles(children), nodeId)
    {
      var i := 0;
      ghost var hs := Handles(children);
      while i < |children|
        invariant i <= |children|
        invariant PidLookup(hs, nodeId) == PidLookup(hs[i..], nodeId)
      {
        NextHandle(hs[i..], nodeId);
        if children[i].id == nodeId {
          return Ok(children[i].pid);
        }
        assert hs[i..][1..] == hs[i + 1..];
        i := i + 1;
      }
      return Thrown;
    }

    /** The handle of a child that has been started. */
    method PushBackNewNode(newNodeId: nat, pid: nat, at: int)
      requires Valid()
      modifies this`children
      ensures Valid() && View() == old(View()).(children := old(Handles(children)) + [Child(newNodeId, pid, at)])
      ensures Grew(old(children))
    {
      var handle := new CalcNodeRoot(newNodeId, pid, at);
      children := children + [handle];
    }

    /** The answer carries the pid found for the id of the new child. */
    method ReportPid(newNodeId: nat)
      requires exists c :: c in Handles(children) && c.id == newNodeId
      modifies this`ancestorPusher
      ensures ancestorPusher == old(ancestorPusher) + [GoodCreateResp(newNodeId, PidOf(Handles(children), newNodeId))]
    {
      var p := GetProcessPidByNodeId(newNodeId);
      RedirectToAncestor(GoodCreateResp(newNodeId, p.value));
    }

    /** The handle is there, and the answer is on its way. */
    method AddNewNode(newNodeId: nat, pid: nat, at: int)
      requires Valid()
      modifies this`children, this`ancestorPusher
      ensures Valid() && View() == Started(old(View()), newNodeId, Forked(pid, at)).node
      ensures ancestorPusher == old(ancestorPusher) + Started(old(View()), newNodeId, Forked(pid, at)).up
      ensures Grew(old(children))
    {
      ghost var before := View();
      PushBackNewNode(newNodeId, pid, at);
      LastHandle(before.children, Child(newNodeId, pid, at));
      StartedWith(before, newNodeId, pid, at);
      ReportPid(newNodeId);
    }

    /** `fork` is what starting the new process comes to. */
    method TryPushBackNewNode(newNodeId: nat, fork: Fork)
      requires Valid()
      modifies this`children, this`ancestorPusher
      ensures Did(old(children), Started(old(View()), newNodeId, fork))
    {
      match fork
      case ForkFailed => RedirectToAncestor(BadCreateResp(id, newNodeId));
      case Forked(pid, at) => AddNewNode(newNodeId, pid, at);
    }

    method HandleCreate(c: Command, fork: Fork)
      requires Valid() && c.Create?
      modifies this`commandRecordsList, this`children, this`ancestorPusher, children
      ensures Did(old(children), OnCreate(old(View()), c, fork))
    {
      if c.newNodeId == id {
        RedirectToAncestor(NodeExistResponse(id));
      } else if c.parentId == id {
        TryPushBackNewNode(c.newNodeId, fork);
      } else {
        RedirectAndRecord(c, fork, CreateKind);
      }
    }

    method HandleKillSignal()
      requires Valid()
      modifies this`keepRunning, this`ancestorPusher, children
      ensures Did(old(children), OnOrder(old(View()), Kill))
    {
      RedirectToNodes(Kill);
      keepRunning := false;
    }

    // -------------------------------------------------------------- the heartbeat sweep

    /** `clock` holds the reading taken at each child.  Stepping on after an erase skips the
        child behind; after erasing the last child it would leave the list, so the caller
        must not let it come to that. */
    method CheckHeartbeat(clock: seq<int>)
      requires Valid() && |clock| == |children|
      requires Sweep.Erased(Late(Handles(children), clock, checkingHeartbeatPeriod)).Ok?
      modifies this`children, this`ancestorPusher, children`pusher
      ensures Valid()
      ensures var erased := Sweep.Erased(old(Late(Handles(children), clock, checkingHeartbeatPeriod))).value;
        && children == Sweep.Pick(old(children), erased, false)
        && ancestorPusher == old(ancestorPusher) + Reports(old(Handles(children)), erased)
        && SweptTo(old(children), old(Handles(children)), old(Links(children)), erased, |old(children)|)
    {
      ghost var all, hs, links := children, Handles(children), Links(children);
      ghost var late := Late(hs, clock, checkingHeartbeatPeriod);
      ghost var erased := Sweep.Erased(late).value;
      MidwayStart(all, hs, late, erased);
      var i, j := Walk(clock, all, hs, links, late, erased);
      MidwayDone(all, hs, late, erased, i, j);
      PickDistinct(all, erased);
    }

    /** The loop: i is where the iterator stands, j which child that was to begin with. */
    method Walk(clock: seq<int>, ghost all: seq<CalcNodeRoot>, ghost hs: seq<Child>,
                ghost links: seq<seq<Order>>, ghost late: seq<bool>, ghost erased: seq<bool>) returns (i: nat, j: nat)
      requires |all| == |hs| == |links| == |erased| == |clock|
      requires forall k, l :: 0 <= k < l < |all| ==> all[k] != all[l]
      requires Midway(all, hs, late, erased, 0, 0) && SweptTo(all, hs, links, erased, 0)
      requires late == Late(hs, clock, checkingHeartbeatPeriod)
      modifies this`children, this`ancestorPusher, all`pusher
      ensures Midway(all, hs, late, erased, i, j) && SweptTo(all, hs, links, erased, j) && i >= |children|
      ensures ancestorPusher == old(ancestorPusher) + Reports(hs[..j], erased[..j])
    {
      i, j := 0, 0;
      while i < |children|
        invariant Midway(all, hs, late, erased, i, j)
        invariant ancestorPusher == old(ancestorPusher) + Reports(hs[..j], erased[..j])
        invariant SweptTo(all, hs, links, erased, j)
        decreases |all| - j
      {
        MidwayHead(all, hs, late, erased, i, j);
        assert Handle(children[i]) == hs[j];
        var dead := checkingHeartbeatPeriod < clock[j] - children[i].lastHeartBeat;
        j := Visit(i, j, dead, all, hs, links, late, erased);
        i := i + 1;
      }
    }

    lemma MidwayStart(all: seq<CalcNodeRoot>, hs: seq<Child>, late: seq<bool>, erased: seq<bool>)
      requires all == children && |all| == |hs| == |late| && Sweep.Erased(late) == Ok(erased)
      ensures Midway(all, hs, late, erased, 0, 0) && Reports(hs[..0], erased[..0]) == []
    {
      assert late[0..] == late && erased[0..] == erased && all[0..] == all;
    }

    /** The child list and the iterator while the walk stands in front of child j. */
    ghost predicate Midway(all: seq<CalcNodeRoot>, hs: seq<Child>, late: seq<bool>, erased: seq<bool>, i: nat, j: nat)
      reads this
    {
      && |all| == |hs| == |late| == |erased| && j <= |all|
      && Sweep.Erased(late[j..]).Ok? && erased[j..] == Sweep.Erased(late[j..]).value
      && i == |Sweep.Pick(all[..j], erased[..j], false)|
      && children == Sweep.Pick(all[..j], erased[..j], false) + all[j..]
    }

    lemma MidwayHead(all: seq<CalcNodeRoot>, hs: seq<Child>, late: seq<bool>, erased: seq<bool>, i: nat, j: nat)
      requires Midway(all, hs, late, erased, i, j) && i < |children|
      ensures j < |all| && children[i] == all[j]
    {
    }

    lemma MidwayDone(all: seq<CalcNodeRoot>, hs: seq<Child>, late: seq<bool>, erased: seq<bool>, i: nat, j: nat)
      requires Midway(all, hs, late, erased, i, j) && i >= |children|
      ensures j == |all| && all[..j] == all && erased[..j] == erased && hs[..j] == hs
      ensures children == Sweep.Pick(all, erased, false)
    {
      assert all[..j] == all && erased[..j] == erased && hs[..j] == hs;
    }

    /** One step of the walk: erase the child and skip the next, or pass on. */
    method Visit(i: nat, j: nat, dead: bool, ghost all: seq<CalcNodeRoot>, ghost hs: seq<Child>,
                 ghost links: seq<seq<Order>>, ghost late: seq<bool>, ghost erased: seq<bool>) returns (j': nat)
      requires |all| == |hs| == |links| == |erased| && forall k, l :: 0 <= k < l < |all| ==> all[k] != all[l]
      requires i < |children| && Midway(all, hs, late, erased, i, j) && SweptTo(all, hs, links, erased, j)
      requires j < |all| && dead == late[j]
      modifies this`children, this`ancestorPusher, all`pusher
      ensures Midway(all, hs, late, erased, i + 1, j') && SweptTo(all, hs, links, erased, j')
      ensures j < j' && Reports(hs[..j'], erased[..j']) == Reports(hs[..j], erased[..j])
                        + (if dead then [NodeIsDeadResponse(hs[j].id)] else [])
      ensures ancestorPusher == old(ancestorPusher) + if dead then [NodeIsDeadResponse(hs[j].id)] else []
    {
      MidwayHead(all, hs, late, erased, i, j);
      Splice(Sweep.Pick(all[..j], erased[..j], false), all, j);
      assert Handle(children[i]) == hs[j];
      if dead {
        ErasesTwo(all, hs, late, erased, j);
        EraseAt(i);
        j' := j + 2;
      } else {
        KeepsOne(all, hs, late, erased, j);
        j' := j + 1;
      }
    }

    /** Report a child, push it a kill signal from the handle's destructor, and drop the handle. */
    method EraseAt(i: nat)
      requires i < |children|
      modifies this`children, this`ancestorPusher, {children[i]}`pusher
      ensures children == old(children)[..i] + old(children)[i + 1..]
      ensures ancestorPusher == old(ancestorPusher) + [NodeIsDeadResponse(old(children[i].id))]
      ensures old(children)[i].pusher == old(children[i].pusher) + [Kill]
    {
      RedirectToAncestor(NodeIsDeadResponse(children[i].id));
      children[i].Push(Kill);
      children := children[..i] + children[i + 1..];
    }

    /** Everything that comes from the ancestor. */
    method HandleOrder(o: Order)
      requires Valid()
      modifies this, children
      ensures Did(old(children), OnOrder(old(View()), o))
    {
      match o
      case Kill => HandleKillSignal();
      case Do(Exec(_, _), fork) => HandleExec(o.cmd, fork);
      case Do(Create(_, _), fork) => HandleCreate(o.cmd, fork);
      case Do(PrintTree, _) =>
    }
  }

  lemma {:induction false} StampAt(cs: seq<Child>, id: nat, time: int, i: nat)
    requires i <= |cs| && (i < |cs| ==> cs[i].id == id) && forall k :: 0 <= k < i ==> cs[k].id != id
    ensures Stamp(cs, id, time) == if i == |cs| then cs else cs[i := cs[i].(lastBeat := time)]
  {
    if i > 0 {
      StampAt(cs[1..], id, time, i - 1);
      assert cs == [cs[0]] + cs[1..];
    }
  }

  lemma {:induction false} PickConcat<T>(a: seq<T>, b: seq<T>, f: seq<bool>, g: seq<bool>, flag: bool)
    requires |a| == |f| && |b| == |g|
    ensures Sweep.Pick(a + b, f + g, flag) == Sweep.Pick(a, f, flag) + Sweep.Pick(b, g, flag)
  {
    if a == [] {
      assert a + b == b && f + g == g;
    } else {
      assert (a + b)[1..] == a[1..] + b && (f + g)[1..] == f[1..] + g;
      assert (a + b)[0] == a[0] && (f + g)[0] == f[0];
      PickConcat(a[1..], b, f[1..], g, flag);
    }
  }

  lemma {:induction false} ReportsConcat(a: seq<Child>, b: seq<Child>, f: seq<bool>, g: seq<bool>)
    requires |a| == |f| && |b| == |g|
    ensures Reports(a + b, f + g) == Reports(a, f) + Reports(b, g)
  {
    if a == [] {
      assert a + b == b && f + g == g;
    } else {
      assert (a + b)[1..] == a[1..] + b && (f + g)[1..] == f[1..] + g;
      assert (a + b)[0] == a[0] && (f + g)[0] == f[0];
      ReportsConcat(a[1..], b, f[1..], g);
      var head := if f[0] then [NodeIsDeadResponse(a[0].id)] else [];
      assert head + (Reports(a[1..], f[1..]) + Reports(b, g)) == (head + Reports(a[1..], f[1..])) + Reports(b, g);
    }
  }

  /** Position j, whatever became of it, added to what is done. */
  lemma OneMore<T>(all: seq<T>, hs: seq<Child>, erased: seq<bool>, j: nat)
    requires |all| == |hs| == |erased| && j < |all|
    ensures Sweep.Pick(all[..j + 1], erased[..j + 1], false)
      == Sweep.Pick(all[..j], erased[..j], false) + if erased[j] then [] else [all[j]]
    ensures Reports(hs[..j + 1], erased[..j + 1])
      == Reports(hs[..j], erased[..j]) + if erased[j] then [NodeIsDeadResponse(hs[j].id)] else []
  {
    assert all[..j + 1] == all[..j] + [all[j]] && erased[..j + 1] == erased[..j] + [erased[j]];
    assert hs[..j + 1] == hs[..j] + [hs[j]];
    PickConcat(all[..j], [all[j]], erased[..j], [erased[j]], false);
    ReportsConcat(hs[..j], [hs[j]], erased[..j], [erased[j]]);
    assert [all[j]][1..] == [] && [erased[j]][1..] == [] && [hs[j]][1..] == [];
  }

  lemma KeepsOne<T>(all: seq<T>, hs: seq<Child>, late: seq<bool>, erased: seq<bool>, j: nat)
    requires |all| == |hs| == |late| == |erased| && j < |all| && !late[j]
    requires Sweep.Erased(late[j..]).Ok? && erased[j..] == Sweep.Erased(late[j..]).value
    ensures !erased[j]
    ensures Sweep.Erased(late[j + 1..]).Ok? && erased[j + 1..] == Sweep.Erased(late[j + 1..]).value
    ensures Sweep.Pick(all[..j + 1], erased[..j + 1], false) == Sweep.Pick(all[..j], erased[..j], false) + [all[j]]
    ensures Reports(hs[..j + 1], erased[..j + 1]) == Reports(hs[..j], erased[..j])
  {
    assert late[j..][1..] == late[j + 1..];
    assert erased[j] == erased[j..][0] && erased[j + 1..] == erased[j..][1..];
    OneMore(all, hs, erased, j);
  }

  lemma ErasesTwo<T>(all: seq<T>, hs: seq<Child>, late: seq<bool>, erased: seq<bool>, j: nat)
    requires |all| == |hs| == |late| == |erased| && j < |all| && late[j]
    requires Sweep.Erased(late[j..]).Ok? && erased[j..] == Sweep.Erased(late[j..]).value
    ensures j + 1 < |all| && erased[j] && !erased[j + 1]
    ensures Sweep.Erased(late[j + 2..]).Ok? && erased[j + 2..] == Sweep.Erased(late[j + 2..]).value
    ensures Sweep.Pick(all[..j + 2], erased[..j + 2], false) == Sweep.Pick(all[..j], erased[..j], false) + [all[j + 1]]
    ensures Reports(hs[..j + 2], erased[..j + 2])
      == Reports(hs[..j], erased[..j]) + [NodeIsDeadResponse(hs[j].id)]
  {
    assert late[j..][2..] == late[j + 2..];
    assert erased[j] == erased[j..][0] && erased[j + 1] == erased[j..][1] && erased[j + 2..] == erased[j..][2..];
    OneMore(all, hs, erased, j);
    OneMore(all, hs, erased, j + 1);
  }

  lemma {:induction false} PickDistinct<T>(all: seq<T>, erased: seq<bool>)
    requires |all| == |erased| && forall i, j :: 0 <= i < j < |all| ==> all[i] != all[j]
    ensures var kept := Sweep.Pick(all, erased, false);
      && (forall x :: x in kept ==> x in all)
      && forall i, j :: 0 <= i < j < |kept| ==> kept[i] != kept[j]
  {
    if all != [] {
      PickDistinct(all[1..], erased[1..]);
      assert forall x :: x in all[1..] ==> x in all;
      assert all[0] !in all[1..];
    }
  }

  /** The list with the first unvisited element gone, or passed. */
  lemma Splice<T>(kept: seq<T>, all: seq<T>, j: nat)
    requires j < |all|
    ensures var list := kept + all[j..];
      && list == (kept + [all[j]]) + all[j + 1..]
      && (j + 1 < |all| ==> list[..|kept|] + list[|kept| + 1..] == (kept + [all[j + 1]]) + all[j + 2..])
  {
  }
}

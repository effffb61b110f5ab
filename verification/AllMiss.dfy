/**
Pipelined exec commands that no node answers: any number of them, overlapped in any way,
on a stable tree of any shape.  The responses of different commands are mixed up in the
records, but their number comes out right: n commands, n bad answers.

The conserved quantity `Due` counts the bad answers a subtree still has to deliver.  At a
process with n children, n responses make one answer, so what its children owe and what
its first record has counted is a multiple of n.
*/
module AllMiss {
  import opened Messages
  import opened NodeSpec
  import opened Records
  import opened TreeSystem
  import opened Shapes
  import opened SingleCommand
  import opened OneAnswer
  import opened RecordsAfter
  import opened Termination
  import opened Liveness

  predicate IsMiss(r: Response, ids: set<nat>) {
    r.BadExecResp? && r.id in ids
  }

  /** The bad answers among some responses. */
  function Misses(rs: seq<Response>, ids: set<nat>): nat {
    if rs == [] then 0 else (if IsMiss(rs[0], ids) then 1 else 0) + Misses(rs[1..], ids)
  }

  /** How far the first exec record has counted. */
  function Progressed(t: Tree): nat {
    var q := Of(t.node.records, ExecKind);
    if q == [] then 0 else q[0].count
  }

  /** How many full shares of n there are in a. */
  function Shares(a: nat, n: nat): nat
    requires n > 0
  {
    if a < n then 0 else 1 + Shares(a - n, n)
  }

  /** a is made of full shares of n. */
  predicate Even(a: nat, n: nat)
    requires n > 0
  {
    if a < n then a == 0 else Even(a - n, n)
  }

  /** The bad answers that a subtree owes its parent. */
  ghost function Due(t: Tree, ids: set<nat>): nat
    decreases t
  {
    Misses(t.up, ids) + |t.down| + if t.kids == [] then 0 else Shares(Progressed(t) + DueAll(t.kids, ids), |t.kids|)
  }

  ghost function DueAll(ts: seq<Tree>, ids: set<nat>): nat
    decreases ts
  {
    if ts == [] then 0 else Due(ts[0], ids) + DueAll(ts[1..], ids)
  }

  // ---------------------------------------------------------------- the invariant

  /** An exec command that no node of the tree answers. */
  predicate MissOrder(o: Order, t: Tree, ids: set<nat>) {
    && o.Do? && o.cmd.Exec? && o.cmd.nodeId in ids
    && PlacesAll(ShapesOf(t.kids), o.cmd.nodeId) == 0
    && (t.node.manager || t.node.id != o.cmd.nodeId)
  }

  predicate Counter(q: seq<Record>, n: nat, due: nat)
    requires n > 0
  {
    var c := if q == [] then 0 else q[0].count;
    && c < n
    && (q != [] ==> !q[0].good && AllFresh(q[1..]))
    && Even(c + due, n)
    && Shares(c + due, n) <= |q|
  }

  predicate Orders(t: Tree, ids: set<nat>) {
    forall o :: o in t.down ==> MissOrder(o, t, ids)
  }

  predicate Responses(up: seq<Response>, ids: set<nat>) {
    forall r :: r in up ==> r.Heartbeat? || IsMiss(r, ids)
  }

  ghost predicate Inv(t: Tree, ids: set<nat>)
    decreases t
  {
    && Sound(t)
    && Orders(t, ids) && Responses(t.up, ids)
    && (forall i :: 0 <= i < |t.kids| ==> !t.kids[i].node.manager && Inv(t.kids[i], ids))
    && var q := Of(t.node.records, ExecKind);
       if t.kids == [] then AllFresh(q)
       else
         && Counter(q, |t.kids|, DueAll(t.kids, ids))
         && Misses(t.counted, ids) == Times(Misses(t.relayed, ids), |t.kids|) + Progressed(t)
  }

  ghost predicate KidsInv(kids: seq<Tree>, ids: set<nat>) {
    forall i :: 0 <= i < |kids| ==> !kids[i].node.manager && Inv(kids[i], ids)
  }

  ghost predicate Kept(t: Tree, t': Tree, ids: set<nat>) {
    && Inv(t', ids) && Due(t', ids) == Due(t, ids)
    && ShapeOf(t') == ShapeOf(t)
    && t'.node.manager == t.node.manager && t'.attached == t.attached
  }

  // ---------------------------------------------------------------- counting

  lemma {:induction false} MissesConcat(a: seq<Response>, b: seq<Response>, ids: set<nat>)
    ensures Misses(a + b, ids) == Misses(a, ids) + Misses(b, ids)
  {
    if a == [] {
      assert a + b == b;
    } else {
      assert (a + b)[1..] == a[1..] + b;
      MissesConcat(a[1..], b, ids);
    }
  }

  lemma MissesAdded(a: seq<Response>, r: Response, ids: set<nat>)
    ensures Misses(a + [r], ids) == Misses(a, ids) + if IsMiss(r, ids) then 1 else 0
  {
    MissesConcat(a, [r], ids);
    assert [r][1..] == [];
  }

  lemma {:induction false} DueUpdate(ts: seq<Tree>, i: nat, t: Tree, ids: set<nat>)
    requires i < |ts|
    ensures DueAll(ts[i := t], ids) == DueAll(ts, ids) - Due(ts[i], ids) + Due(t, ids)
  {
    if i == 0 {
      assert ts[i := t][1..] == ts[1..];
    } else {
      assert ts[i := t][1..] == ts[1..][i - 1 := t];
      DueUpdate(ts[1..], i - 1, t, ids);
    }
  }

  lemma {:induction false} DueMember(ts: seq<Tree>, i: nat, ids: set<nat>)
    requires i < |ts|
    ensures Due(ts[i], ids) <= DueAll(ts, ids)
  {
    if i > 0 {
      DueMember(ts[1..], i - 1, ids);
    }
  }

  /** Handing out one more command adds one to what every child owes. */
  lemma {:induction false} DueHandedOut(ts: seq<Tree>, o: Order, ids: set<nat>)
    requires forall i :: 0 <= i < |ts| ==> ts[i].attached
    ensures DueAll(Broadcast(ts, [o]), ids) == DueAll(ts, ids) + |ts|
  {
    if ts != [] {
      assert Broadcast(ts, [o])[1..] == Broadcast(ts[1..], [o]);
      DueHandedOut(ts[1..], o, ids);
    }
  }

  // ---------------------------------------------------------------- one move

  /** The order is passed on, or answered at a dead end. */
  lemma TakeEffect(t: Tree, ids: set<nat>)
    requires Inv(t, ids) && t.down != []
    ensures var o := t.down[0];
      var e := OnOrder(t.node, o);
      && o.Do? && o.cmd.Exec? && o.cmd.nodeId in ids
      && e.node == t.node.(records := t.node.records + [Fresh(ExecKind)])
      && (t.kids == [] ==> e.up == [BadExecResp(o.cmd.nodeId)] && e.down == [])
      && (t.kids != [] ==> e.up == [] && e.down == [o])
  {
    assert MissOrder(t.down[0], t, ids);
  }

  lemma MissBelow(o: Order, t: Tree, i: nat, ids: set<nat>)
    requires MissOrder(o, t, ids) && i < |t.kids|
    ensures MissOrder(o, t.kids[i], ids)
  {
    ShapesAt(t.kids, i);
    PlacesMember(ShapesOf(t.kids), i, o.cmd.nodeId);
  }

  /** A process without children, from the state of its parts. */
  lemma BuiltLeaf(t: Tree, ids: set<nat>)
    requires Sound(t) && t.kids == [] && AllFresh(Of(t.node.records, ExecKind))
    requires Orders(t, ids) && Responses(t.up, ids)
    ensures Inv(t, ids) && Due(t, ids) == Misses(t.up, ids) + |t.down|
  {
  }

  lemma TakeLeaf(t: Tree, ids: set<nat>)
    requires Inv(t, ids) && t.down != [] && t.kids == []
    ensures Kept(t, ApplyTake(t), ids)
  {
    TakeEffect(t, ids);
    var t' := ApplyTake(t);
    assert t'.kids == [];
    AppendedOf(t.node.records, ExecKind, ExecKind);
    MissesAdded(t.up, BadExecResp(t.down[0].cmd.nodeId), ids);
    OrdersStay(t, t', ids);
    BuiltLeaf(t', ids);
  }

  /** One more order on the link to a process. */
  lemma SentKeeps(t: Tree, o: Order, ids: set<nat>)
    requires Inv(t, ids) && MissOrder(o, t, ids)
    ensures Inv(t.(down := t.down + [o]), ids)
  {
    var t' := t.(down := t.down + [o]);
    forall p | p in t'.down ensures MissOrder(p, t', ids) {
      assert p in t.down || p == o;
    }
    if t.kids == [] {
      BuiltLeaf(t', ids);
    } else {
      Unbuilt(t, ids);
      Built(t', ids, DueAll(t.kids, ids));
    }
  }

  lemma KidsAfterTake(t: Tree, ids: set<nat>)
    requires Inv(t, ids) && t.down != [] && t.kids != []
    ensures var kids := Broadcast(t.kids, [t.down[0]]);
      && KidsInv(kids, ids)
      && DueAll(kids, ids) == DueAll(t.kids, ids) + |t.kids|
      && ShapesOf(kids) == ShapesOf(t.kids)
  {
    var o := t.down[0];
    assert MissOrder(o, t, ids);
    DueHandedOut(t.kids, o, ids);
    ShapesBroadcast(t.kids, [o]);
    forall i | 0 <= i < |t.kids| ensures Inv(Send(t.kids[i], [o]), ids) {
      MissBelow(o, t, i, ids);
      SentKeeps(t.kids[i], o, ids);
    }
  }

  lemma CounterTakes(q: seq<Record>, n: nat, due: nat)
    requires n > 0 && Counter(q, n, due)
    ensures Counter(q + [Fresh(ExecKind)], n, due + n)
    ensures var c := if q == [] then 0 else q[0].count;
      Shares(c + due + n, n) == Shares(c + due, n) + 1
  {
    var c := if q == [] then 0 else q[0].count;
    var q' := q + [Fresh(ExecKind)];
    assert q != [] ==> q'[1..] == q[1..] + [Fresh(ExecKind)];
    assert q == [] ==> q'[1..] == [];
    assert c + due + n - n == c + due;
  }

  /** A process with children, from the state of its parts. */
  lemma Built(t: Tree, ids: set<nat>, due: nat)
    requires Sound(t) && Counts(t, ids, due) && due == DueAll(t.kids, ids)
    requires Orders(t, ids) && Responses(t.up, ids)
    requires KidsInv(t.kids, ids)
    ensures Inv(t, ids) && Due(t, ids) == Misses(t.up, ids) + Owes(t, due)
  {
  }

  lemma Unbuilt(t: Tree, ids: set<nat>)
    requires Inv(t, ids) && t.kids != []
    ensures Counts(t, ids, DueAll(t.kids, ids)) && Due(t, ids) == Misses(t.up, ids) + Owes(t, DueAll(t.kids, ids))
  {
  }

  ghost function AfterTake(t: Tree, node: NodeState, kids: seq<Tree>): Tree
    requires t.down != []
  {
    Tree(node, t.attached, t.exited, t.down[1..], t.up, kids, t.counted, t.relayed)
  }

  lemma TakeShape(t: Tree, ids: set<nat>)
    requires Inv(t, ids) && t.down != [] && t.kids != []
    ensures ApplyTake(t)
      == AfterTake(t, t.node.(records := t.node.records + [Fresh(ExecKind)]), Broadcast(t.kids, [t.down[0]]))
  {
    TakeEffect(t, ids);
  }

  lemma OrdersStay(t: Tree, t': Tree, ids: set<nat>)
    requires Inv(t, ids)
    requires forall o :: o in t'.down ==> o in t.down
    requires ShapesOf(t'.kids) == ShapesOf(t.kids)
    requires t'.node.id == t.node.id && t'.node.manager == t.node.manager
    ensures Orders(t', ids)
    ensures ShapeOf(t') == ShapeOf(t)
  {
  }

  lemma TakeInner(t: Tree, ids: set<nat>, node: NodeState)
    requires Inv(t, ids) && t.down != [] && t.kids != []
    requires node == t.node.(records := t.node.records + [Fresh(ExecKind)])
    ensures Kept(t, AfterTake(t, node, Broadcast(t.kids, [t.down[0]])), ids)
  {
    KidsAfterTake(t, ids);
    var t' := AfterTake(t, node, Broadcast(t.kids, [t.down[0]]));
    OrdersStay(t, t', ids);
    AppendedOf(t.node.records, ExecKind, ExecKind);
    Unbuilt(t, ids);
    TakeInnerTally(t, t', ids, DueAll(t.kids, ids));
    Carried(t, t', ids, DueAll(t.kids, ids), DueAll(t.kids, ids) + |t.kids|, 0);
  }

  /** The counters of a process with children, and what they make it owe. */
  ghost predicate Counts(t: Tree, ids: set<nat>, due: nat) {
    && t.kids != []
    && Counter(Of(t.node.records, ExecKind), |t.kids|, due)
    && Misses(t.counted, ids) == Times(Misses(t.relayed, ids), |t.kids|) + Progressed(t)
  }

  function Owes(t: Tree, due: nat): nat
    requires t.kids != []
  {
    |t.down| + Shares(Progressed(t) + due, |t.kids|)
  }

  lemma TakeInnerTally(t: Tree, t': Tree, ids: set<nat>, due: nat)
    requires Counts(t, ids, due)
    requires |t'.kids| == |t.kids| && |t'.down| == |t.down| - 1
    requires t'.counted == t.counted && t'.relayed == t.relayed
    requires Of(t'.node.records, ExecKind) == Of(t.node.records, ExecKind) + [Fresh(ExecKind)]
    ensures Counts(t', ids, due + |t.kids|) && Owes(t', due + |t.kids|) == Owes(t, due)
  {
    var n, c := |t.kids|, Progressed(t);
    CounterTakes(Of(t.node.records, ExecKind), n, due);
    assert Progressed(t') == c;
    assert Owes(t', due + n) == |t.down| - 1 + Shares(c + due + n, n);
  }

  /** The same process with other responses on its link. */
  lemma OtherLink(t: Tree, up: seq<Response>, ids: set<nat>)
    requires Inv(t, ids) && forall r :: r in up ==> r.Heartbeat? || IsMiss(r, ids)
    ensures Inv(t.(up := up), ids)
    ensures Due(t.(up := up), ids) - Misses(up, ids) == Due(t, ids) - Misses(t.up, ids)
    ensures ShapeOf(t.(up := up)) == ShapeOf(t)
  {
    var t' := t.(up := up);
    OrdersStay(t, t', ids);
    if t.kids == [] {
      BuiltLeaf(t, ids);
      BuiltLeaf(t', ids);
    } else {
      Unbuilt(t, ids);
      SameTally(t, t', ids, DueAll(t.kids, ids));
      Built(t', ids, DueAll(t.kids, ids));
    }
  }

  lemma BeatKeeps(t: Tree, time: int, ids: set<nat>)
    requires Inv(t, ids)
    ensures Kept(t, t.(up := t.up + [Heartbeat(t.node.id, time)]), ids)
  {
    MissesAdded(t.up, Heartbeat(t.node.id, time), ids);
    OtherLink(t, t.up + [Heartbeat(t.node.id, time)], ids);
  }

  lemma PopChild(kid: Tree, ids: set<nat>)
    requires Inv(kid, ids) && kid.up != []
    ensures Inv(Pop(kid), ids)
    ensures Due(Pop(kid), ids) == Due(kid, ids) - if IsMiss(kid.up[0], ids) then 1 else 0
    ensures kid.up[0].Heartbeat? || IsMiss(kid.up[0], ids)
  {
    assert kid.up[0] in kid.up;
    assert forall r :: r in kid.up[1..] ==> r in kid.up;
    OtherLink(kid, kid.up[1..], ids);
  }

  lemma PopKids(t: Tree, i: nat, ids: set<nat>)
    requires Inv(t, ids) && i < |t.kids| && t.kids[i].up != []
    ensures var kids := t.kids[i := Pop(t.kids[i])];
      && KidsInv(kids, ids)
      && DueAll(kids, ids) == DueAll(t.kids, ids) - (if IsMiss(t.kids[i].up[0], ids) then 1 else 0)
      && ShapesOf(kids) == ShapesOf(t.kids)
  {
    PopChild(t.kids[i], ids);
    DueUpdate(t.kids, i, Pop(t.kids[i]), ids);
    ShapesSame(t.kids, i, Pop(t.kids[i]));
  }

  /** A response is due to a command, and the command has left its record. */
  lemma LookupSafe(t: Tree, i: nat, ids: set<nat>)
    requires Inv(t, ids) && i < |t.kids| && t.kids[i].up != []
    ensures LookupOk(t.node, t.kids[i].up[0])
    ensures IsMiss(t.kids[i].up[0], ids) ==> DueAll(t.kids, ids) > 0 && Of(t.node.records, ExecKind) != []
  {
    PopChild(t.kids[i], ids);
    DueMember(t.kids, i, ids);
    Missing(t.node.records, ExecKind);
  }

  /** Counting a bad response: the first record advances, or is full and lets it through. */
  lemma CounterCounts(q: seq<Record>, n: nat, due: nat)
    requires n > 0 && Counter(q, n, due) && q != [] && due > 0
    ensures var rec := Counted(q[0], false);
      if rec.count == n then
        && Counter(q[1..], n, due - 1)
        && Shares((if q[1..] == [] then 0 else q[1..][0].count) + due - 1, n) == Shares(q[0].count + due, n) - 1
        && (q[1..] != [] ==> q[1..][0].count == 0)
      else
        && Counter([rec] + q[1..], n, due - 1)
        && !rec.good
  {
    var rest := q[1..];
    assert rest != [] ==> rest[0] in q[1..];
    assert ([Counted(q[0], false)] + rest)[1..] == rest;
    assert forall r :: r in rest[if rest == [] then 0 else 1..] ==> r in rest;
  }

  /** What counting a bad response does to the records, and whether it lets it out. */
  predicate MissCounted(q: seq<Record>, q': seq<Record>, n: nat, out: nat) {
    && q != []
    && var rec := Counted(q[0], false);
       if rec.count == n then out == 1 && q' == q[1..] else out == 0 && q' == [rec] + q[1..]
  }

  /** The counters after a counted response, whatever the record list did. */
  lemma CountMissTally(t: Tree, t': Tree, ids: set<nat>, due: nat, out: nat)
    requires Counts(t, ids, due) && due > 0
    requires |t'.kids| == |t.kids| && t'.down == t.down && out <= 1
    requires Misses(t'.counted, ids) == Misses(t.counted, ids) + 1
    requires Misses(t'.relayed, ids) == Misses(t.relayed, ids) + out
    requires MissCounted(Of(t.node.records, ExecKind), Of(t'.node.records, ExecKind), |t.kids|, out)
    ensures Counts(t', ids, due - 1) && Owes(t', due - 1) + out == Owes(t, due)
  {
    CounterCounts(Of(t.node.records, ExecKind), |t.kids|, due);
  }

  lemma CountMissHere(t: Tree, t': Tree, ids: set<nat>, due: nat, out: nat)
    requires Inv(t, ids) && t.kids != [] && due == DueAll(t.kids, ids) && due > 0
    requires |t'.kids| == |t.kids| && t'.down == t.down && out <= 1
    requires Misses(t'.counted, ids) == Misses(t.counted, ids) + 1
    requires Misses(t'.relayed, ids) == Misses(t.relayed, ids) + out
    requires MissCounted(Of(t.node.records, ExecKind), Of(t'.node.records, ExecKind), |t.kids|, out)
    ensures Counts(t', ids, due - 1) && Owes(t', due - 1) + out == Owes(t, due)
  {
    Unbuilt(t, ids);
    CountMissTally(t, t', ids, due, out);
  }

  /** The links and the logs after response i was taken. */
  lemma CountLinks(t: Tree, i: nat, ids: set<nat>, node: NodeState, up: seq<Response>)
    requires Inv(t, ids) && i < |t.kids| && t.kids[i].up != []
    requires up == [] || (up == [t.kids[i].up[0]] && IsMiss(up[0], ids))
    requires node.id == t.node.id && node.manager == t.node.manager && node.running
    requires |node.children| == |t.node.children|
    requires forall k :: 0 <= k < |node.children| ==> node.children[k].id == t.node.children[k].id
    ensures var t' := AfterCount(t, i, node, up);
      && Sound(t') && Orders(t', ids) && Responses(t'.up, ids) && KidsInv(t'.kids, ids)
      && DueAll(t'.kids, ids) == DueAll(t.kids, ids) - (if IsMiss(t.kids[i].up[0], ids) then 1 else 0)
      && Misses(t'.counted, ids) == Misses(t.counted, ids) + (if IsMiss(t.kids[i].up[0], ids) then 1 else 0)
      && Misses(t'.relayed, ids) == Misses(t.relayed, ids) + |up|
      && Misses(t'.up, ids) == Misses(t.up, ids) + |up|
      && ShapeOf(t') == ShapeOf(t)
  {
    var t' := AfterCount(t, i, node, up);
    PopKids(t, i, ids);
    OrdersStay(t, t', ids);
    MissesAdded(t.counted, t.kids[i].up[0], ids);
    if up == [] {
      assert t.up + up == t.up && t.relayed + up == t.relayed;
    } else {
      MissesAdded(t.relayed, up[0], ids);
      MissesAdded(t.up, up[0], ids);
    }
  }

  /** A process with children after a move, from the state of its parts. */
  lemma Carried(t: Tree, t': Tree, ids: set<nat>, due: nat, due': nat, out: nat)
    requires Inv(t, ids) && t.kids != [] && due == DueAll(t.kids, ids)
    requires Sound(t') && Counts(t', ids, due') && due' == DueAll(t'.kids, ids)
    requires Orders(t', ids) && Responses(t'.up, ids)
    requires KidsInv(t'.kids, ids)
    requires Owes(t', due') + out == Owes(t, due) && Misses(t'.up, ids) == Misses(t.up, ids) + out
    requires ShapeOf(t') == ShapeOf(t) && t'.node.manager == t.node.manager && t'.attached == t.attached
    ensures Kept(t, t', ids)
  {
    Unbuilt(t, ids);
    Built(t', ids, due');
  }

  lemma CountMiss(t: Tree, i: nat, ids: set<nat>, node: NodeState, up: seq<Response>)
    requires Inv(t, ids) && i < |t.kids| && t.kids[i].up != [] && IsMiss(t.kids[i].up[0], ids)
    requires node == t.node.(records := node.records)
    requires up == [] || up == [t.kids[i].up[0]]
    requires MissCounted(Of(t.node.records, ExecKind), Of(node.records, ExecKind), |t.kids|, |up|)
    ensures Kept(t, AfterCount(t, i, node, up), ids)
  {
    var t' := AfterCount(t, i, node, up);
    var due := DueAll(t.kids, ids);
    LookupSafe(t, i, ids);
    CountLinks(t, i, ids, node, up);
    CountMissHere(t, t', ids, due, |up|);
    Carried(t, t', ids, due, due - 1, |up|);
  }

  lemma SameTally(t: Tree, t': Tree, ids: set<nat>, due: nat)
    requires Counts(t, ids, due)
    requires |t'.kids| == |t.kids| && t'.down == t.down && t'.node.records == t.node.records
    requires Misses(t'.counted, ids) == Misses(t.counted, ids)
    requires Misses(t'.relayed, ids) == Misses(t.relayed, ids)
    ensures Counts(t', ids, due) && Owes(t', due) == Owes(t, due)
  {
  }

  lemma CountBeat(t: Tree, i: nat, ids: set<nat>, node: NodeState)
    requires Inv(t, ids) && i < |t.kids| && t.kids[i].up != [] && t.kids[i].up[0].Heartbeat?
    requires node == t.node.(children := node.children) && |node.children| == |t.node.children|
    requires forall k :: 0 <= k < |node.children| ==> node.children[k].id == t.node.children[k].id
    ensures Kept(t, AfterCount(t, i, node, []), ids)
  {
    var t' := AfterCount(t, i, node, []);
    var due := DueAll(t.kids, ids);
    CountLinks(t, i, ids, node, []);
    Unbuilt(t, ids);
    SameTally(t, t', ids, due);
    Carried(t, t', ids, due, due, 0);
  }

  lemma CountKeeps(t: Tree, i: nat, ids: set<nat>)
    requires Inv(t, ids) && Enabled(t, Count(i))
    ensures Kept(t, ApplyCount(t, i), ids)
  {
    var r := t.kids[i].up[0];
    CountShape(t, i);
    PopChild(t.kids[i], ids);
    var e := OnResponse(t.node, r);
    if r.Heartbeat? {
      CountBeat(t, i, ids, e.node);
    } else {
      LookupSafe(t, i, ids);
      CountedOf(t.node, r, ExecKind);
      CountMiss(t, i, ids, e.node, e.up);
    }
  }

  lemma InsideKeeps(t: Tree, i: nat, kid: Tree, ids: set<nat>)
    requires Inv(t, ids) && i < |t.kids| && Kept(t.kids[i], kid, ids)
    ensures Kept(t, t.(kids := t.kids[i := kid]), ids)
  {
    var t' := t.(kids := t.kids[i := kid]);
    DueUpdate(t.kids, i, kid, ids);
    ShapesSame(t.kids, i, kid);
    OrdersStay(t, t', ids);
    Unbuilt(t, ids);
    SameTally(t, t', ids, DueAll(t.kids, ids));
    Carried(t, t', ids, DueAll(t.kids, ids), DueAll(t.kids, ids), 0);
  }

  lemma {:induction false} Step(t: Tree, m: Move, ids: set<nat>)
    requires Inv(t, ids) && Enabled(t, m) && Calm(m)
    ensures Kept(t, Apply(t, m), ids)
    decreases m
  {
    match m
    case Take =>
      if t.kids == [] {
        TakeLeaf(t, ids);
      } else {
        TakeShape(t, ids);
        TakeInner(t, ids, t.node.(records := t.node.records + [Fresh(ExecKind)]));
      }
    case Count(i) => CountKeeps(t, i, ids);
    case Beat(time) => BeatKeeps(t, time, ids);
    case Inside(i, m') =>
      Step(t.kids[i], m', ids);
      InsideKeeps(t, i, Apply(t.kids[i], m'), ids);
    case Sweep(_) =>
    case Exit =>
  }

  lemma {:induction false} RunKeeps(t: Tree, ms: seq<Move>, ids: set<nat>)
    requires Inv(t, ids) && Possible(t, ms) && AllCalm(ms)
    ensures Kept(t, Run(t, ms), ids)
    decreases |ms|
  {
    if ms != [] {
      Step(t, ms[0], ids);
      RunKeeps(Apply(t, ms[0]), ms[1..], ids);
    }
  }

  // ---------------------------------------------------------------- the runs end

  lemma {:induction false} LookupsSafe(t: Tree, ids: set<nat>)
    requires Inv(t, ids)
    ensures NoLookupFails(t) && AllAttached(t) && Live(t)
    decreases t
  {
    forall i | 0 <= i < |t.kids|
      ensures t.kids[i].up != [] ==> LookupOk(t.node, t.kids[i].up[0])
      ensures NoLookupFails(t.kids[i]) && AllAttached(t.kids[i]) && Live(t.kids[i])
    {
      if t.kids[i].up != [] {
        LookupSafe(t, i, ids);
      }
      LookupsSafe(t.kids[i], ids);
    }
  }

  lemma {:induction false} InvRoomy(t: Tree, m: Move, ids: set<nat>)
    requires Inv(t, ids) && Enabled(t, m) && Calm(m)
    ensures Roomy(t, m)
    decreases m
  {
    Step(t, m, ids);
    match m
    case Inside(i, m') =>
      InvRoomy(t.kids[i], m', ids);
      Step(t.kids[i], m', ids);
    case _ =>
  }

  lemma {:induction false} RunEnds(t: Tree, ms: seq<Move>, ids: set<nat>)
    requires Inv(t, ids) && Possible(t, ms) && AllCalm(ms)
    ensures |ms| + Cost(Run(t, ms), 0) <= Cost(t, 0) + BeatCosts(ms)
    decreases |ms|
  {
    if ms != [] {
      Step(t, ms[0], ids);
      InvRoomy(t, ms[0], ids);
      LookupsSafe(t, ids);
      CostStep(t, ms[0], 0);
      RunEnds(Apply(t, ms[0]), ms[1..], ids);
    }
  }

  // ---------------------------------------------------------------- main results

  lemma {:induction false} NoMisses(rs: seq<Response>, ids: set<nat>)
    requires AllBeats(rs)
    ensures Misses(rs, ids) == 0
  {
    if rs != [] {
      assert rs[0] in rs;
      NoMisses(rs[1..], ids);
    }
  }

  lemma {:induction false} IdleIsInv(t: Tree, ids: set<nat>)
    requires Idle(t, ExecKind, true) && forall i :: 0 <= i < |t.kids| ==> Workers(t.kids[i])
    requires EmptyLogs(t)
    ensures Inv(t, ids) && Due(t, ids) == 0
    decreases t
  {
    NoMisses(t.up, ids);
    IdleAllDue(t.kids, ids);
    var q := Of(t.node.records, ExecKind);
    assert q != [] ==> q[0] in q;
  }

  /** The histories start empty. */
  predicate EmptyLogs(t: Tree)
    decreases t
  {
    t.counted == [] && t.relayed == [] && forall i :: 0 <= i < |t.kids| ==> EmptyLogs(t.kids[i])
  }

  lemma {:induction false} IdleAllDue(ts: seq<Tree>, ids: set<nat>)
    requires forall i :: 0 <= i < |ts| ==> Idle(ts[i], ExecKind, true) && Workers(ts[i]) && EmptyLogs(ts[i])
    ensures DueAll(ts, ids) == 0 && forall i :: 0 <= i < |ts| ==> Inv(ts[i], ids)
    decreases ts
  {
    if ts != [] {
      IdleIsInv(ts[0], ids);
      IdleAllDue(ts[1..], ids);
      assert forall i :: 0 < i < |ts| ==> ts[i] == ts[1..][i - 1];
    }
  }

  lemma {:induction false} QuietDue(t: Tree, ids: set<nat>)
    requires Inv(t, ids) && Quiet(t)
    ensures Due(t, ids) == Misses(t.up, ids)
    decreases t
  {
    QuietDueAll(t.kids, ids);
  }

  lemma {:induction false} QuietDueAll(ts: seq<Tree>, ids: set<nat>)
    requires forall i :: 0 <= i < |ts| ==> Inv(ts[i], ids) && Quiet(ts[i]) && AllBeats(ts[i].up)
    ensures DueAll(ts, ids) == 0
    decreases ts
  {
    if ts != [] {
      QuietDue(ts[0], ids);
      NoMisses(ts[0].up, ids);
      QuietDueAll(ts[1..], ids);
    }
  }

  /** At every process with n children: the bad answers taken are n for each one passed on,
      and those the first record has counted; that is fewer than n, and all later records
      are fresh. */
  predicate Ledger(t: Tree, ids: set<nat>)
    decreases t
  {
    var q := Of(t.node.records, ExecKind);
    && (t.kids != [] ==>
          && Misses(t.counted, ids) == |t.kids| * Misses(t.relayed, ids) + Progressed(t)
          && Progressed(t) < |t.kids|
          && (q != [] ==> AllFresh(q[1..])))
    && forall i :: 0 <= i < |t.kids| ==> Ledger(t.kids[i], ids)
  }

  lemma {:induction false} TimesIsProduct(n: nat, c: nat)
    ensures Times(n, c) == c * n
  {
    if n > 0 {
      TimesIsProduct(n - 1, c);
    }
  }

  lemma {:induction false} LedgerHolds(t: Tree, ids: set<nat>)
    requires Inv(t, ids)
    ensures Ledger(t, ids)
    decreases t
  {
    TimesIsProduct(Misses(t.relayed, ids), |t.kids|);
    forall i | 0 <= i < |t.kids| ensures Ledger(t.kids[i], ids) {
      LedgerHolds(t.kids[i], ids);
    }
  }

  /** At rest the records are all fresh again. */
  lemma {:induction false} RestFresh(t: Tree, ids: set<nat>)
    requires Inv(t, ids) && Quiet(t)
    ensures AllRecordsFresh(t, ExecKind)
    decreases t
  {
    QuietDueAll(t.kids, ids);
    var q := Of(t.node.records, ExecKind);
    assert q != [] ==> forall r :: r in q ==> r == q[0] || r in q[1..];
    forall i | 0 <= i < |t.kids| ensures AllRecordsFresh(t.kids[i], ExecKind) {
      RestFresh(t.kids[i], ids);
    }
  }

  /** Exec commands for ids that no node has, all waiting at the manager. */
  ghost predicate Pipelined(t: Tree, orders: seq<Order>, ids: set<nat>) {
    && Ready(t, ExecKind) && EmptyLogs(t)
    && forall o :: o in orders ==> o.Do? && o.cmd.Exec? && o.cmd.nodeId in ids && !IsNode(t, o.cmd.nodeId)
  }

  lemma PipelinedInv(t: Tree, orders: seq<Order>, ids: set<nat>)
    requires Pipelined(t, orders, ids)
    ensures Inv(t.(down := orders), ids) && Due(t.(down := orders), ids) == |orders|
  {
    var start := t.(down := orders);
    IdleIsInv(t, ids);
    assert forall o :: o in orders ==> MissOrder(o, start, ids);
  }

  lemma {:induction false} AllMisses(rs: seq<Response>, ids: set<nat>)
    requires forall r :: r in rs ==> IsMiss(r, ids)
    ensures Misses(rs, ids) == |rs|
  {
    if rs != [] {
      assert rs[0] in rs;
      AllMisses(rs[1..], ids);
    }
  }

  /** However the commands and responses overlap: never more answers than commands, all of
      them bad answers for ids that were asked for, and as many answers as commands when
      nothing is under way any more.  The books of every process balance all the time, no
      lookup fails, and afterwards the tree is as ready as it was. */
  lemma MissesAllAnswered(t: Tree, orders: seq<Order>, ids: set<nat>, ms: seq<Move>)
    requires Pipelined(t, orders, ids)
    requires Possible(t.(down := orders), ms) && AllCalm(ms)
    ensures var t' := Run(t.(down := orders), ms);
      && |t'.up| <= |orders|
      && (forall r :: r in t'.up ==> r.BadExecResp? && r.id in ids)
      && (Quiet(t') ==> |t'.up| == |orders| && AllRecordsFresh(t', ExecKind))
      && Ledger(t', ids) && NoLookupFails(t')
      && ShapeOf(t') == ShapeOf(t)
  {
    var start := t.(down := orders);
    PipelinedInv(t, orders, ids);
    RunKeeps(start, ms, ids);
    ManagerRun(start, ms);
    var t' := Run(start, ms);
    AllMisses(t'.up, ids);
    LedgerHolds(t', ids);
    LookupsSafe(t', ids);
    if Quiet(t') {
      QuietDue(t', ids);
      RestFresh(t', ids);
    }
  }

  /** Such a run is bounded, and not stuck before everything is answered. */
  lemma MissesAreLive(t: Tree, orders: seq<Order>, ids: set<nat>, ms: seq<Move>) returns (next: Option<Move>)
    requires Pipelined(t, orders, ids)
    requires Possible(t.(down := orders), ms) && AllCalm(ms)
    ensures |ms| <= Cost(t.(down := orders), 0) + BeatCosts(ms)
    ensures next.None? ==> Quiet(Run(t.(down := orders), ms))
    ensures next.Some? ==> Enabled(Run(t.(down := orders), ms), next.value) && Calm(next.value) && !IsBeat(next.value)
  {
    var start := t.(down := orders);
    PipelinedInv(t, orders, ids);
    RunKeeps(start, ms, ids);
    RunEnds(start, ms, ids);
    if Quiet(Run(start, ms)) {
      next := None;
    } else {
      LookupsSafe(Run(start, ms), ids);
      var m := Progress(Run(start, ms));
      next := Some(m);
    }
  }
}

/**
Reports of dead children.  Under any traffic, every child that is erased anywhere in the
tree is reported to the client exactly once, also when the process that erased it, or a
process on the way, has lost its own parent's handle; and a heartbeat never travels
further than to the direct parent.
*/
module DeathReports {
  import opened Messages
  import opened NodeSpec
  import opened TreeSystem
  import Sweep

  /** The ids reported dead by some responses. */
  function Reported(rs: seq<Response>): multiset<nat> {
    if rs == [] then multiset{}
    else (if rs[0].NodeIsDeadResponse? then multiset{rs[0].id} else multiset{}) + Reported(rs[1..])
  }

  /** The reports that are on their way in the tree, its own link up included. */
  function OnTheWay(t: Tree): multiset<nat>
    decreases t
  {
    Reported(t.up) + AllOnTheWay(t.kids)
  }

  function AllOnTheWay(ts: seq<Tree>): multiset<nat>
    decreases ts
  {
    if ts == [] then multiset{} else OnTheWay(ts[0]) + AllOnTheWay(ts[1..])
  }

  function Ids(children: seq<Child>): multiset<nat> {
    if children == [] then multiset{} else multiset{children[0].id} + Ids(children[1..])
  }

  /** The children a move erases. */
  function ErasedBy(t: Tree, m: Move): multiset<nat>
    requires Enabled(t, m)
    decreases m
  {
    match m
    case Inside(i, m') => ErasedBy(t.kids[i], m')
    case Sweep(late) => Ids(Sweep.Pick(t.node.children, Sweep.Erased(late).value, true))
    case _ => multiset{}
  }

  function ErasedIn(t: Tree, ms: seq<Move>): multiset<nat>
    requires Possible(t, ms)
    decreases |ms|
  {
    if ms == [] then multiset{} else ErasedBy(t, ms[0]) + ErasedIn(Apply(t, ms[0]), ms[1..])
  }

  // ---------------------------------------------------------------- sums

  lemma {:induction false} ReportedConcat(a: seq<Response>, b: seq<Response>)
    ensures Reported(a + b) == Reported(a) + Reported(b)
  {
    if a == [] {
      assert a + b == b;
    } else {
      assert (a + b)[1..] == a[1..] + b;
      ReportedConcat(a[1..], b);
    }
  }

  /** Replacing one subtree, stated without subtraction. */
  lemma {:induction false} WayUpdate(ts: seq<Tree>, i: nat, t: Tree)
    requires i < |ts|
    ensures AllOnTheWay(ts[i := t]) + OnTheWay(ts[i]) == AllOnTheWay(ts) + OnTheWay(t)
  {
    if i == 0 {
      assert ts[i := t][1..] == ts[1..];
    } else {
      assert ts[i := t][1..] == ts[1..][i - 1 := t];
      WayUpdate(ts[1..], i - 1, t);
      Shuffle(OnTheWay(ts[0]), AllOnTheWay(ts[1..][i - 1 := t]), OnTheWay(ts[i]), AllOnTheWay(ts[1..]), OnTheWay(t));
    }
  }

  lemma Shuffle(f: multiset<nat>, a: multiset<nat>, x: multiset<nat>, b: multiset<nat>, y: multiset<nat>)
    requires a + x == b + y
    ensures (f + a) + x == (f + b) + y
  {
    assert (f + a) + x == f + (a + x);
    assert (f + b) + y == f + (b + y);
  }

  lemma {:induction false} WaySame(ts: seq<Tree>, us: seq<Tree>)
    requires |ts| == |us| && forall i :: 0 <= i < |ts| ==> ts[i].up == us[i].up && ts[i].kids == us[i].kids
    ensures AllOnTheWay(ts) == AllOnTheWay(us)
  {
    if ts != [] {
      WaySame(ts[1..], us[1..]);
    }
  }

  lemma {:induction false} WayConcat(a: seq<Tree>, b: seq<Tree>)
    ensures AllOnTheWay(a + b) == AllOnTheWay(a) + AllOnTheWay(b)
  {
    if a == [] {
      assert a + b == b;
    } else {
      assert (a + b)[1..] == a[1..] + b;
      WayConcat(a[1..], b);
    }
  }

  /** A sweep reports the ids of the children it erases. */
  lemma {:induction false} ReportsErased(children: seq<Child>, erased: seq<bool>)
    requires |children| == |erased|
    ensures Reported(Reports(children, erased)) == Ids(Sweep.Pick(children, erased, true))
  {
    if children != [] {
      ReportsErased(children[1..], erased[1..]);
      var head := if erased[0] then [NodeIsDeadResponse(children[0].id)] else [];
      var picked := if erased[0] then [children[0]] else [];
      ReportedConcat(head, Reports(children[1..], erased[1..]));
      assert Reported(head) == if erased[0] then multiset{children[0].id} else multiset{} by {
        if erased[0] {
          assert head[1..] == [];
        }
      }
      var rest := Sweep.Pick(children[1..], erased[1..], true);
      assert (picked + rest)[|picked|..] == rest;
    }
  }

  /** A sweep reports each erased child once, in the order of the list. */
  lemma {:induction false} ReportsInOrder(children: seq<Child>, erased: seq<bool>)
    requires |children| == |erased|
    ensures var gone := Sweep.Pick(children, erased, true);
      && |Reports(children, erased)| == |gone|
      && forall i :: 0 <= i < |gone| ==> Reports(children, erased)[i] == NodeIsDeadResponse(gone[i].id)
  {
    if children != [] {
      ReportsInOrder(children[1..], erased[1..]);
    }
  }

  /** Reports of deaths, and whatever else is no answer to a command and no heartbeat, pass. */
  lemma OthersPass(s: NodeState, r: Response)
    requires !IsAnswer(r) && !r.Heartbeat?
    ensures LookupOk(s, r) && OnResponse(s, r) == Effect(s, [r], [])
  {
  }

  // ---------------------------------------------------------------- one move

  lemma OrderReports(s: NodeState, o: Order)
    ensures Reported(OnOrder(s, o).up) == multiset{}
  {
    var e := OnOrder(s, o);
    if e.up != [] {
      assert e.up[1..] == [];
    }
  }

  lemma TakeReports(t: Tree)
    requires Enabled(t, Take)
    ensures OnTheWay(ApplyTake(t)) == OnTheWay(t)
  {
    var e := OnOrder(t.node, t.down[0]);
    var born := Forks(t.node, e.node);
    OrderReports(t.node, t.down[0]);
    ReportedConcat(t.up, e.up);
    WaySame(Broadcast(t.kids, e.down), t.kids);
    WayConcat(Broadcast(t.kids, e.down), born);
    if born != [] {
      assert born[1..] == [];
      assert OnTheWay(born[0]) == multiset{};
    }
  }

  /** A report is relayed, anything else reports nothing. */
  lemma ResponseReports(s: NodeState, r: Response)
    requires LookupOk(s, r)
    ensures Reported(OnResponse(s, r).up) == Reported([r])
  {
    var e := OnResponse(s, r);
    assert [r][1..] == [];
    if e.up != [] {
      assert e.up == [r];
    }
  }

  lemma PopReports(kid: Tree)
    requires kid.up != []
    ensures OnTheWay(kid) == Reported([kid.up[0]]) + OnTheWay(Pop(kid))
  {
    assert [kid.up[0]][1..] == [];
    assert kid.up == [kid.up[0]] + kid.up[1..];
    ReportedConcat([kid.up[0]], kid.up[1..]);
  }

  lemma CountReports(t: Tree, i: nat)
    requires Enabled(t, Count(i))
    ensures OnTheWay(ApplyCount(t, i)) == OnTheWay(t)
  {
    var kid := t.kids[i];
    var r := kid.up[0];
    var up := OnResponse(t.node, r).up;
    ResponseReports(t.node, r);
    ReportedConcat(t.up, up);
    WayUpdate(t.kids, i, Pop(kid));
    PopReports(kid);
    Cancel(AllOnTheWay(t.kids[i := Pop(kid)]), AllOnTheWay(t.kids), Reported([r]), OnTheWay(Pop(kid)));
    Regroup(Reported(t.up), Reported([r]), AllOnTheWay(t.kids[i := Pop(kid)]), AllOnTheWay(t.kids));
  }

  lemma Regroup(u: multiset<nat>, r: multiset<nat>, a: multiset<nat>, b: multiset<nat>)
    requires a + r == b
    ensures u + r + a == u + b
  {
    assert u + r + a == u + (a + r);
  }

  lemma Cancel(a: multiset<nat>, b: multiset<nat>, r: multiset<nat>, c: multiset<nat>)
    requires a + (r + c) == b + c
    ensures a + r == b
  {
    assert a + r + c == b + c;
    forall x ensures (a + r)[x] == b[x] {
      assert (a + r + c)[x] == (b + c)[x];
    }
  }

  lemma InsideReports(t: Tree, i: nat, kid: Tree, extra: multiset<nat>)
    requires i < |t.kids| && OnTheWay(kid) == OnTheWay(t.kids[i]) + extra
    ensures OnTheWay(t.(kids := t.kids[i := kid])) == OnTheWay(t) + extra
  {
    WayUpdate(t.kids, i, kid);
    var a, b, c := AllOnTheWay(t.kids[i := kid]), AllOnTheWay(t.kids), OnTheWay(t.kids[i]);
    assert a + c == b + (c + extra);
    forall x ensures a[x] == (b + extra)[x] {
      assert (a + c)[x] == (b + (c + extra))[x];
    }
    assert a == b + extra;
  }

  lemma {:induction false} DetachSame(kids: seq<Tree>, erased: seq<bool>, i: nat)
    requires AttachedCount(kids) == |erased| && i < |kids|
    ensures Detach(kids, erased)[i].up == kids[i].up && Detach(kids, erased)[i].kids == kids[i].kids
  {
    if i > 0 {
      DetachSame(kids[1..], if kids[0].attached then erased[1..] else erased, i - 1);
    }
  }

  lemma SweepReports(t: Tree, late: seq<bool>)
    requires Enabled(t, Move.Sweep(late))
    ensures OnTheWay(ApplySweep(t, late)) == OnTheWay(t) + ErasedBy(t, Move.Sweep(late))
  {
    var erased := Sweep.Erased(late).value;
    ReportsErased(t.node.children, erased);
    ReportedConcat(t.up, Reports(t.node.children, erased));
    forall i | 0 <= i < |t.kids|
      ensures Detach(t.kids, erased)[i].up == t.kids[i].up && Detach(t.kids, erased)[i].kids == t.kids[i].kids
    {
      DetachSame(t.kids, erased, i);
    }
    WaySame(Detach(t.kids, erased), t.kids);
  }

  lemma {:induction false} Step(t: Tree, m: Move)
    requires Enabled(t, m)
    ensures OnTheWay(Apply(t, m)) == OnTheWay(t) + ErasedBy(t, m)
    decreases m
  {
    match m
    case Take => TakeReports(t);
    case Count(i) => CountReports(t, i);
    case Inside(i, m') =>
      Step(t.kids[i], m');
      InsideReports(t, i, Apply(t.kids[i], m'), ErasedBy(t.kids[i], m'));
    case Beat(time) =>
      ReportedConcat(t.up, [Heartbeat(t.node.id, time)]);
      assert [Heartbeat(t.node.id, time)][1..] == [];
    case Sweep(late) => SweepReports(t, late);
    case Exit => WaySame(Broadcast(t.kids, [Kill, Kill]), t.kids);
  }

  // ---------------------------------------------------------------- main results

  /** In every run, whatever it consists of: the reports on their way at the end, those that
      have reached the client included, are the ones there were and one for every child
      erased, by id. */
  lemma {:induction false} EveryDeathReportedOnce(t: Tree, ms: seq<Move>)
    requires Possible(t, ms)
    ensures OnTheWay(Run(t, ms)) == OnTheWay(t) + ErasedIn(t, ms)
    decreases |ms|
  {
    if ms != [] {
      Step(t, ms[0]);
      EveryDeathReportedOnce(Apply(t, ms[0]), ms[1..]);
    }
  }

  /** No report is left on a link below the root. */
  predicate NoneBelow(t: Tree)
    decreases t
  {
    forall i :: 0 <= i < |t.kids| ==> Reported(t.kids[i].up) == multiset{} && NoneBelow(t.kids[i])
  }

  lemma {:induction false} NoneBelowAll(ts: seq<Tree>)
    requires forall i :: 0 <= i < |ts| ==> Reported(ts[i].up) == multiset{} && NoneBelow(ts[i])
    ensures AllOnTheWay(ts) == multiset{}
    decreases ts
  {
    if ts != [] {
      NoneBelowAll(ts[0].kids);
      NoneBelowAll(ts[1..]);
    }
  }

  /** When they have all arrived, the client has been told of exactly the erased children. */
  lemma ClientHearsOfEveryDeath(t: Tree, ms: seq<Move>)
    requires Possible(t, ms) && OnTheWay(t) == multiset{} && NoneBelow(Run(t, ms))
    ensures Reported(Run(t, ms).up) == ErasedIn(t, ms)
  {
    EveryDeathReportedOnce(t, ms);
    NoneBelowAll(Run(t, ms).kids);
    assert Reported(Run(t, ms).up) + multiset{} == Reported(Run(t, ms).up);
    assert multiset{} + ErasedIn(t, ms) == ErasedIn(t, ms);
  }

  // ---------------------------------------------------------------- heartbeats

  /** The heartbeats on a process's link are its own; the manager sends none. */
  predicate OwnBeats(t: Tree)
    decreases t
  {
    && (forall r :: r in t.up && r.Heartbeat? ==> r.id == t.node.id && !t.node.manager)
    && forall i :: 0 <= i < |t.kids| ==> OwnBeats(t.kids[i])
  }

  lemma OrderBeats(s: NodeState, o: Order)
    ensures var e := OnOrder(s, o);
      && (forall r :: r in e.up ==> !r.Heartbeat?)
      && e.node.id == s.id && e.node.manager == s.manager
  {
  }

  lemma TakeBeats(t: Tree)
    requires Enabled(t, Take) && OwnBeats(t)
    ensures OwnBeats(ApplyTake(t))
  {
    var t' := ApplyTake(t);
    OrderBeats(t.node, t.down[0]);
    forall i | 0 <= i < |t'.kids| ensures OwnBeats(t'.kids[i]) {
      if i < |t.kids| {
        assert OwnBeats(t.kids[i]);
      }
    }
  }

  lemma CountBeats(t: Tree, i: nat)
    requires Enabled(t, Count(i)) && OwnBeats(t)
    ensures OwnBeats(ApplyCount(t, i))
  {
    var e := OnResponse(t.node, t.kids[i].up[0]);
    assert e.node.id == t.node.id && e.node.manager == t.node.manager;
    assert forall r :: r in e.up ==> !r.Heartbeat?;
    assert OwnBeats(Pop(t.kids[i]));
  }

  lemma SweepBeats(t: Tree, late: seq<bool>)
    requires Enabled(t, Move.Sweep(late)) && OwnBeats(t)
    ensures OwnBeats(ApplySweep(t, late))
  {
    var erased := Sweep.Erased(late).value;
    var t' := ApplySweep(t, late);
    ReportsNoBeats(t.node.children, erased);
    forall i | 0 <= i < |t'.kids| ensures OwnBeats(t'.kids[i]) {
      DetachSame(t.kids, erased, i);
      DetachNode(t.kids, erased, i);
    }
  }

  lemma {:induction false} ReportsNoBeats(children: seq<Child>, erased: seq<bool>)
    requires |children| == |erased|
    ensures forall r :: r in Reports(children, erased) ==> r.NodeIsDeadResponse?
  {
    if children != [] {
      ReportsNoBeats(children[1..], erased[1..]);
    }
  }

  lemma {:induction false} DetachNode(kids: seq<Tree>, erased: seq<bool>, i: nat)
    requires AttachedCount(kids) == |erased| && i < |kids|
    ensures Detach(kids, erased)[i].node == kids[i].node
  {
    if i > 0 {
      DetachNode(kids[1..], if kids[0].attached then erased[1..] else erased, i - 1);
    }
  }

  lemma ExitBeats(t: Tree)
    requires OwnBeats(t)
    ensures OwnBeats(ApplyExit(t))
  {
    forall i | 0 <= i < |t.kids| ensures OwnBeats(Send(t.kids[i], [Kill, Kill])) {
      assert OwnBeats(t.kids[i]);
    }
  }

  lemma {:induction false} BeatsStep(t: Tree, m: Move)
    requires Enabled(t, m) && OwnBeats(t)
    ensures OwnBeats(Apply(t, m))
    decreases m
  {
    match m
    case Take => TakeBeats(t);
    case Count(i) => CountBeats(t, i);
    case Inside(i, m') => BeatsStep(t.kids[i], m');
    case Beat(_) =>
    case Sweep(late) => SweepBeats(t, late);
    case Exit => ExitBeats(t);
  }

  /** A heartbeat is consumed by the direct parent, in every run. */
  lemma {:induction false} BeatsStayLocal(t: Tree, ms: seq<Move>)
    requires Possible(t, ms) && OwnBeats(t)
    ensures OwnBeats(Run(t, ms))
    decreases |ms|
  {
    if ms != [] {
      BeatsStep(t, ms[0]);
      BeatsStayLocal(Apply(t, ms[0]), ms[1..]);
    }
  }
}

/**
The way from the manager to one process of the tree, given by the positions of children:
what does not change while only heartbeats move, and what the children off the way owe.
*/
module Ways {
  import opened NodeSpec
  import opened TreeSystem
  import opened SingleCommand

  // ---------------------------------------------------------------- idle moves

  predicate SameNode(s: NodeState, s': NodeState) {
    s'.id == s.id && s'.manager == s.manager && s'.records == s.records && |s'.children| == |s.children|
  }

  /** The same processes with the same records. */
  predicate Same(t: Tree, t': Tree)
    decreases t
  {
    && SameNode(t.node, t'.node) && t'.attached == t.attached && |t'.kids| == |t.kids|
    && forall i :: 0 <= i < |t.kids| ==> Same(t.kids[i], t'.kids[i])
  }

  lemma {:induction false} SameSelf(t: Tree)
    ensures Same(t, t)
    decreases t
  {
    forall i | 0 <= i < |t.kids| ensures Same(t.kids[i], t.kids[i]) {
      SameSelf(t.kids[i]);
    }
  }

  lemma SameBut(t: Tree, t': Tree, i: nat, kid: Tree)
    requires i < |t.kids| && Same(t.kids[i], kid) && t'.kids == t.kids[i := kid]
    requires SameNode(t.node, t'.node) && t'.attached == t.attached
    ensures Same(t, t')
  {
    forall k | 0 <= k < |t.kids| ensures Same(t.kids[k], t'.kids[k]) {
      SameSelf(t.kids[k]);
    }
  }

  lemma SamePop(kid: Tree)
    requires kid.up != []
    ensures Same(kid, Pop(kid))
  {
    SameSelf(kid);
  }

  lemma {:induction false} IdleSame(t: Tree, m: Move, kind: Kind, clean: bool)
    requires Idle(t, kind, clean) && Enabled(t, m) && Calm(m)
    ensures Same(t, Apply(t, m))
    decreases m
  {
    match m
    case Take =>
    case Count(i) =>
      assert t.kids[i].up[0] in t.kids[i].up;
      SamePop(t.kids[i]);
      SameBut(t, Apply(t, m), i, Pop(t.kids[i]));
    case Beat(time) => SameSelf(t);
    case Inside(i, m') =>
      IdleSame(t.kids[i], m', kind, clean);
      SameBut(t, Apply(t, m), i, Apply(t.kids[i], m'));
    case Sweep(_) =>
    case Exit =>
  }

  /** The tree once the command has been passed on. */
  ghost function PassedOn(t: Tree, j: Job): Tree {
    Handled(t, t.node.(records := t.node.records + [Fresh(JobKind(j))]), [], Broadcast(t.kids, [Do(j.cmd, j.fork)]))
  }

  // ---------------------------------------------------------------- off the way

  /** The bad answers that the children off the way still owe. */
  ghost function OffNo(t: Tree, i: nat, j: Job): int
    requires i < |t.kids|
  {
    SumNo(t.kids, j) - OwedNo(t.kids[i], j)
  }

  /** The subtrees off the way follow the command, and nobody in them says yes. */
  ghost predicate OffWay(t: Tree, i: nat, j: Job) {
    forall k :: 0 <= k < |t.kids| && k != i ==> Inv(t.kids[k], j) && OwedYes(t.kids[k], j) == 0
  }

  lemma OffReplaced(t: Tree, t': Tree, i: nat, kid: Tree, on: nat, j: Job)
    requires i < |t.kids| && on < |t.kids| && OffWay(t, on, j) && t'.kids == t.kids[i := kid]
    requires i == on || (Inv(kid, j) && OwedYes(kid, j) == 0)
    ensures OffWay(t', on, j)
    ensures OffNo(t', on, j) == OffNo(t, on, j) - if i == on then 0 else OwedNo(t.kids[i], j) - OwedNo(kid, j)
  {
    SumUpdate(t.kids, i, kid, j);
  }

  /** A bad answer on a link off the way is among those that are owed. */
  lemma NoOffWay(t: Tree, i: nat, on: nat, j: Job)
    requires i < |t.kids| && on < |t.kids| && i != on && No(j) in t.kids[i].up
    ensures OffNo(t, on, j) > 0
  {
    assert multiset(t.kids[i].up)[No(j)] > 0;
    TwoOwed(t.kids, i, on, j);
  }

  lemma {:induction false} TwoOwed(ts: seq<Tree>, i: nat, k: nat, j: Job)
    requires i < |ts| && k < |ts| && i != k
    ensures OwedNo(ts[i], j) + OwedNo(ts[k], j) <= SumNo(ts, j)
  {
    if i == 0 {
      SumMember(ts[1..], k - 1, j);
    } else if k == 0 {
      SumMember(ts[1..], i - 1, j);
    } else {
      TwoOwed(ts[1..], i - 1, k - 1, j);
    }
  }
}

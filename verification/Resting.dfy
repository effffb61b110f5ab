/** The tree after a command: what it leaves behind is a tree at rest again. */
module Resting {
  import opened NodeSpec
  import opened Records
  import opened TreeSystem
  import opened SingleCommand
  import opened OneAnswer

  /** What stays the same at the top of a tree. */
  predicate SameTop(t: Tree, t': Tree) {
    t'.node.manager == t.node.manager && ((forall i :: 0 <= i < |t.kids| ==> Workers(t.kids[i])) ==>
                                            forall i :: 0 <= i < |t'.kids| ==> Workers(t'.kids[i]))
  }

  /** No calm move makes a manager out of a node or the other way round. */
  lemma {:induction false} StepTop(t: Tree, m: Move)
    requires Enabled(t, m) && Calm(m)
    ensures SameTop(t, Apply(t, m))
    decreases m
  {
    match m
    case Take => OrderSendsNoBeat(t.node, t.down[0]);
    case Count(i) => CountSendsNoBeat(t.node, t.kids[i].up[0]);
    case Inside(i, m') => StepTop(t.kids[i], m');
    case Beat(_) =>
    case Sweep(_) =>
    case Exit =>
  }

  lemma {:induction false} RunTop(t: Tree, ms: seq<Move>)
    requires Possible(t, ms) && AllCalm(ms)
    ensures SameTop(t, Run(t, ms))
    decreases |ms|
  {
    if ms != [] {
      StepTop(t, ms[0]);
      RunTop(Apply(t, ms[0]), ms[1..]);
    }
  }

  /** With no answers to come, the records are fresh but for a first one that was begun. */
  lemma TallyRests(q: seq<Record>, n: nat, clean: bool)
    requires Tally(q, n, 0, 0, clean)
    ensures Rested(q, n, false)
  {
  }

  /** A subtree that has dealt with its command is at rest. */
  lemma {:induction false} QuietRests(t: Tree, j: Job)
    requires IsJob(j) && Inv(t, j) && Quiet(t)
    ensures Sound(t) && Rested(Of(t.node.records, JobKind(j)), |t.kids|, false)
    ensures forall i :: 0 <= i < |t.kids| ==> Idle(t.kids[i], JobKind(j), false)
    decreases t
  {
    QuietSums(t.kids, j);
    TallyRests(Of(t.node.records, JobKind(j)), |t.kids|, j.clean);
    forall i | 0 <= i < |t.kids| ensures Idle(t.kids[i], JobKind(j), false) {
      QuietRests(t.kids[i], j);
    }
  }

  lemma QuietIdle(t: Tree, j: Job)
    requires IsJob(j) && Inv(t, j) && Quiet(t) && AllBeats(t.up)
    ensures Idle(t, JobKind(j), false)
  {
    QuietRests(t, j);
  }
}

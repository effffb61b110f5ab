/** Which trees a tree can reach, and pieces that such runs are made of. */
module Reachability {
  import opened Messages
  import opened TreeSystem
  import opened SingleCommand
  import opened OneAnswer
  import opened Termination
  import opened Liveness

  // ---------------------------------------------------------------- reachability

  /** Some calm run leads from one tree to the other. */
  ghost predicate Reaches(t: Tree, t': Tree) {
    exists ms :: Possible(t, ms) && AllCalm(ms) && Run(t, ms) == t'
  }

  lemma ReachesSelf(t: Tree)
    ensures Reaches(t, t)
  {
    assert Possible(t, []);
  }

  lemma {:induction false} RunOn(t: Tree, ms: seq<Move>, m: Move)
    requires Possible(t, ms) && AllCalm(ms) && Enabled(Run(t, ms), m) && Calm(m)
    ensures Possible(t, ms + [m]) && AllCalm(ms + [m]) && Run(t, ms + [m]) == Apply(Run(t, ms), m)
    decreases |ms|
  {
    if ms == [] {
      assert [m][1..] == [] && [] + [m] == [m];
    } else {
      assert (ms + [m])[1..] == ms[1..] + [m];
      RunOn(Apply(t, ms[0]), ms[1..], m);
    }
  }

  lemma ReachesNext(t: Tree, mid: Tree, m: Move)
    requires Reaches(t, mid) && Enabled(mid, m) && Calm(m)
    ensures Reaches(t, Apply(mid, m))
  {
    var ms :| Possible(t, ms) && AllCalm(ms) && Run(t, ms) == mid;
    RunOn(t, ms, m);
  }

  lemma {:induction false} RunBoth(t: Tree, mid: Tree, ms: seq<Move>)
    requires Reaches(t, mid) && Possible(mid, ms) && AllCalm(ms)
    ensures Reaches(t, Run(mid, ms))
    decreases |ms|
  {
    if ms != [] {
      ReachesNext(t, mid, ms[0]);
      RunBoth(t, Apply(mid, ms[0]), ms[1..]);
    }
  }

  lemma ReachesOn(t: Tree, mid: Tree, t': Tree)
    requires Reaches(t, mid) && Reaches(mid, t')
    ensures Reaches(t, t')
  {
    var ms :| Possible(mid, ms) && AllCalm(ms) && Run(mid, ms) == t';
    RunBoth(t, mid, ms);
  }

  /** What a subtree reaches, the tree reaches around it. */
  lemma {:induction false} RunBelow(t: Tree, i: nat, kid: Tree, ms: seq<Move>)
    requires i < |t.kids| && Reaches(t, t.(kids := t.kids[i := kid])) && Possible(kid, ms) && AllCalm(ms)
    ensures Reaches(t, t.(kids := t.kids[i := Run(kid, ms)]))
    decreases |ms|
  {
    if ms != [] {
      var mid := t.(kids := t.kids[i := kid]);
      ReachesNext(t, mid, Inside(i, ms[0]));
      assert mid.kids[i := Apply(kid, ms[0])] == t.kids[i := Apply(kid, ms[0])];
      RunBelow(t, i, Apply(kid, ms[0]), ms[1..]);
    }
  }

  lemma ReachesBelow(t: Tree, i: nat, kid: Tree)
    requires i < |t.kids| && Reaches(t.kids[i], kid)
    ensures Reaches(t, t.(kids := t.kids[i := kid]))
  {
    var ms :| Possible(t.kids[i], ms) && AllCalm(ms) && Run(t.kids[i], ms) == kid;
    ReachesSelf(t);
    assert t.kids[i := t.kids[i]] == t.kids;
    RunBelow(t, i, t.kids[i], ms);
  }

  // ---------------------------------------------------------------- pieces of runs

  /** A subtree with a single command can come to rest. */
  lemma {:induction false} ReachesQuiet(t: Tree, j: Job) returns (rest: Tree)
    requires IsJob(j) && Inv(t, j)
    ensures Reaches(t, rest) && Quiet(rest) && Kept(t, rest, j)
    decreases Cost(t, 0)
  {
    if Quiet(t) {
      rest := t;
      ReachesSelf(t);
    } else {
      LookupsSafe(t, j);
      var m := Progress(t);
      Step(t, m, j);
      InvPlaced(t, j);
      MoveCosts(t, m, j);
      NoBeatCost(m, 0);
      rest := ReachesQuiet(Apply(t, m), j);
      ReachesSelf(t);
      ReachesNext(t, t, m);
      ReachesOn(t, Apply(t, m), rest);
    }
  }

  lemma {:induction false} NoBeatCost(m: Move, d: nat)
    requires !IsBeat(m)
    ensures BeatCost(m, d) == 0
    decreases m
  {
    if m.Inside? {
      NoBeatCost(m.m, d + 1);
    }
  }

  /** The tree with response r at the head of the link from child i; before that only
      heartbeats were taken off that link. */
  ghost predicate AtHead(t: Tree, t': Tree, i: nat, r: Response)
    requires i < |t.kids|
  {
    && t'.node == t.node.(children := t'.node.children) && |t'.node.children| == |t.node.children|
    && t'.up == t.up && t'.down == t.down
    && |t'.kids| == |t.kids| && (forall k :: 0 <= k < |t.kids| && k != i ==> t'.kids[k] == t.kids[k])
    && t'.kids[i].up != [] && t'.kids[i].up[0] == r
  }

  /** The heartbeats in front of a response can be taken. */
  lemma {:induction false} ReachesHead(t: Tree, i: nat, r: Response) returns (t': Tree)
    requires i < |t.kids| && t.node.running && r in t.kids[i].up && !r.Heartbeat?
    requires forall x :: x in t.kids[i].up ==> x.Heartbeat? || x == r
    ensures Reaches(t, t') && AtHead(t, t', i, r)
    decreases |t.kids[i].up|
  {
    var up := t.kids[i].up;
    ReachesSelf(t);
    if up[0] == r {
      t' := t;
    } else {
      assert up[0] in up && up == [up[0]] + up[1..];
      var mid := Apply(t, Count(i));
      assert mid.up == t.up + [] == t.up;
      ReachesNext(t, t, Count(i));
      t' := ReachesHead(mid, i, r);
      ReachesOn(t, mid, t');
    }
  }
}

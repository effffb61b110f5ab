/**
A command on any tree at rest: which answers the client gets when one process says yes,
when a lookup can fail, and that the tree is at rest again afterwards.
*/
module HitRuns {
  import opened NodeSpec
  import opened Records
  import opened TreeSystem
  import opened Shapes
  import opened SingleCommand
  import opened OneAnswer
  import opened Growth
  import opened Termination
  import opened Liveness
  import opened Reachability
  import opened Resting
  import opened Ways
  import opened HitWay

  // ---------------------------------------------------------------- lookups and progress

  /** The head of a link finds its record where that is safe. */
  lemma HeadFinds(t: Tree, i: nat, way: seq<nat>, j: Job, good: nat, off: int, on: nat)
    requires Unclean(j) && Stands(t, way, j, true, good, off, on) && i < |t.kids| && t.kids[i].up != []
    ensures LookupOk(t.node, t.kids[i].up[0])
  {
    var r := t.kids[i].up[0];
    assert r in t.kids[i].up;
    HeadKind(t, i, way, j, true, good, off, on);
    if r == No(j) {
      BadIsDue(t, i, way, j, true, good, off, on);
    }
    Missing(t.node.records, JobKind(j));
  }

  lemma IdleLookups(t: Tree, j: Job)
    requires IsJob(j) && Idle(t, JobKind(j), j.clean)
    ensures Live(t) && NoLookupFails(t) && (t.up != [] ==> t.up[0].Heartbeat?)
  {
    IdleOwesNothing(t, j);
    LookupsSafe(t, j);
    assert t.up != [] ==> t.up[0] in t.up;
  }

  lemma {:induction false} HitLookups(t: Tree, way: seq<nat>, j: Job, safe: bool)
    requires Unclean(j) && Way(t, way, j, safe)
    ensures Live(t) && (safe ==> NoLookupFails(t))
    decreases t
  {
    forall i | 0 <= i < |t.kids|
      ensures Live(t.kids[i])
      ensures safe ==> NoLookupFails(t.kids[i]) && (t.kids[i].up != [] ==> LookupOk(t.node, t.kids[i].up[0]))
    {
      if t.down != [] || way == [] {
        IdleLookups(t.kids[i], j);
      } else {
        KidLookups(t, i, way, j, safe);
        if i == way[0] {
          HitLookups(t.kids[i], way[1..], j, safe);
        }
      }
    }
  }

  lemma KidLookups(t: Tree, i: nat, way: seq<nat>, j: Job, safe: bool)
    requires Unclean(j) && Way(t, way, j, safe) && t.down == [] && way != [] && i < |t.kids|
    ensures i == way[0] ==> Way(t.kids[i], way[1..], j, safe)
    ensures i != way[0] ==> Live(t.kids[i]) && NoLookupFails(t.kids[i])
    ensures safe && t.kids[i].up != [] ==> LookupOk(t.node, t.kids[i].up[0])
  {
    var good, off, on := WayParts(t, way, j, safe);
    if safe && t.kids[i].up != [] {
      HeadFinds(t, i, way, j, good, off, on);
    }
    if i != way[0] {
      LookupsSafe(t.kids[i], j);
    }
  }

  lemma {:induction false} HitPlaced(t: Tree, way: seq<nat>, j: Job, safe: bool)
    requires Unclean(j) && Way(t, way, j, safe)
    ensures Placed(t, j)
    decreases t
  {
    forall i | 0 <= i < |t.kids| ensures Placed(t.kids[i], j) && (t.down != [] ==> NoOrders(t.kids[i])) {
      if t.down != [] || way == [] {
        IdleNoOrders(t.kids[i], JobKind(j), false);
        NoOrdersPlan(t.kids[i], j);
      } else if i == way[0] {
        HitPlaced(t.kids[i], way[1..], j, safe);
      } else {
        InvPlaced(t.kids[i], j);
      }
    }
  }

  /** The record of the command is lost while the good answer is still to come. */
  ghost predicate Lost(t: Tree, way: seq<nat>, j: Job) {
    && t.down == [] && way != [] && way[0] < |t.kids|
    && Of(t.node.records, JobKind(j)) == [] && GoodDue(t.kids[way[0]], way[1..], j) == 1
  }

  lemma LostHead(t: Tree, i: nat, way: seq<nat>, j: Job)
    requires Unclean(j) && Way(t, way, j, false) && Lost(t, way, j) && Enabled(t, Count(i))
    ensures t.kids[i].up[0].Heartbeat?
  {
    var good, off, on := WayParts(t, way, j, false);
    HeadKind(t, i, way, j, false, good, off, on);
    Missing(t.node.records, JobKind(j));
  }

  lemma LostStep(t: Tree, m: Move, way: seq<nat>, j: Job)
    requires Unclean(j) && Way(t, way, j, false) && Lost(t, way, j) && Enabled(t, m) && Calm(m)
    ensures Lost(Apply(t, m), way, j)
  {
    match m
    case Count(i) =>
      LostHead(t, i, way, j);
      var good, off, on := WayParts(t, way, j, false);
      CountBeatHit(t, i, way, j, false, good, off, on);
    case Inside(i, m') =>
      if i == way[0] {
        HitStep(t.kids[i], m', way[1..], j, false);
      }
    case Beat(_) =>
    case Sweep(_) =>
    case Exit =>
  }

  lemma {:induction false} QuietGood(t: Tree, way: seq<nat>, j: Job)
    requires IsJob(j) && Quiet(t)
    ensures GoodDue(t, way, j) == multiset(t.up)[Yes(j)]
    ensures AllBeats(t.up) ==> GoodDue(t, way, j) == 0
    decreases way
  {
    if AllBeats(t.up) {
      NoAnswers(t.up, j);
    }
    if way != [] && way[0] < |t.kids| {
      QuietGood(t.kids[way[0]], way[1..], j);
    }
  }

  /** A run goes on until everything has been handled or a lookup fails. */
  lemma {:induction false} ReachesStop(t: Tree, way: seq<nat>, j: Job, safe: bool, lost: bool) returns (t': Tree)
    requires Unclean(j) && Way(t, way, j, safe) && (lost ==> !safe && Lost(t, way, j))
    ensures Reaches(t, t') && Way(t', way, j, safe)
    ensures !NoLookupFails(t') || (Quiet(t') && !lost)
    decreases Cost(t, 0)
  {
    ReachesSelf(t);
    if lost && Quiet(t) {
      QuietGood(t.kids[way[0]], way[1..], j);
      assert false;
    }
    if Quiet(t) || !NoLookupFails(t) {
      t' := t;
    } else {
      HitLookups(t, way, j, safe);
      var m := Progress(t);
      HitStep(t, m, way, j, safe);
      HitPlaced(t, way, j, safe);
      MoveCosts(t, m, j);
      NoBeatCost(m, 0);
      if lost {
        LostStep(t, m, way, j);
      }
      t' := ReachesStop(Apply(t, m), way, j, safe, lost);
      ReachesNext(t, t, m);
      ReachesOn(t, Apply(t, m), t');
    }
  }

  // ---------------------------------------------------------------- filling the record

  lemma KeptOn(t: Tree, mid: Tree, t': Tree, way: seq<nat>, j: Job)
    requires HitKept(t, mid, way, j, false, true) && HitKept(mid, t', way, j, false, true)
    ensures HitKept(t, t', way, j, false, true)
  {
  }

  lemma StandsAgain(t: Tree, way: seq<nat>, j: Job, good: nat, off: int, on: nat)
    requires Way(t, way, j, false) && t.down == [] && Below(t, way, j, false, good, off, on)
    ensures Stands(t, way, j, false, good, off, on)
  {
    var g, f, o := WayParts(t, way, j, false);
  }

  lemma KeptSelf(t: Tree, way: seq<nat>, j: Job, good: nat, off: int, on: nat)
    requires Stands(t, way, j, false, good, off, on)
    ensures HitKept(t, t, way, j, false, true)
  {
    WayFrom(t, way, j, false, good, off, on);
  }

  /** Heartbeats were taken off links. */
  ghost predicate Drawn(t: Tree, t': Tree, way: seq<nat>, j: Job, good: nat, off: int, on: nat) {
    && Reaches(t, t') && HitKept(t, t', way, j, false, true) && Stands(t', way, j, false, good, off, on)
    && t'.node.records == t.node.records && t'.up == t.up && |t'.kids| == |t.kids|
  }

  lemma DrawnOn(t: Tree, mid: Tree, t': Tree, way: seq<nat>, j: Job, good: nat, off: int, on: nat)
    requires Drawn(t, mid, way, j, good, off, on) && Drawn(mid, t', way, j, good, off, on)
    ensures Drawn(t, t', way, j, good, off, on)
  {
    ReachesOn(t, mid, t');
    KeptOn(t, mid, t', way, j);
  }

  /** A heartbeat is taken off a link. */
  lemma TakeBeat(t: Tree, i: nat, way: seq<nat>, j: Job, good: nat, off: int, on: nat) returns (t': Tree)
    requires Unclean(j) && Stands(t, way, j, false, good, off, on) && i < |t.kids| && t.kids[i].up != []
    requires t.kids[i].up[0].Heartbeat?
    ensures Drawn(t, t', way, j, good, off, on) && i < |t'.kids| && t'.kids[i].up == t.kids[i].up[1..]
  {
    t' := Apply(t, Count(i));
    CountBeatHit(t, i, way, j, false, good, off, on);
    StandsAgain(t', way, j, good, off, on);
    ReachesSelf(t);
    ReachesNext(t, t, Count(i));
  }

  /** A bad answer under way comes to the head of its link: in front of it are heartbeats. */
  lemma {:induction false} HitHead(t: Tree, i: nat, way: seq<nat>, j: Job, good: nat, off: int, on: nat)
    returns (t': Tree)
    requires Unclean(j) && Stands(t, way, j, false, good, off, on) && i < |t.kids| && No(j) in t.kids[i].up
    ensures Drawn(t, t', way, j, good, off, on)
    ensures i < |t'.kids| && t'.kids[i].up != [] && t'.kids[i].up[0] == No(j)
    decreases |t.kids[i].up|
  {
    var up := t.kids[i].up;
    if up[0] == No(j) {
      t' := t;
      ReachesSelf(t);
      KeptSelf(t, way, j, good, off, on);
    } else {
      HeadKind(t, i, way, j, false, good, off, on);
      assert up == [up[0]] + up[1..];
      var mid := TakeBeat(t, i, way, j, good, off, on);
      t' := HitHead(mid, i, way, j, good, off, on);
      DrawnOn(t, mid, t', way, j, good, off, on);
    }
  }

  /** A child off the way that still owes a bad answer. */
  lemma {:induction false} OneOwes(ts: seq<Tree>, on: nat, j: Job) returns (k: nat)
    requires on < |ts| && SumNo(ts, j) - OwedNo(ts[on], j) > 0
    ensures k < |ts| && k != on && OwedNo(ts[k], j) > 0
  {
    if on > 0 && OwedNo(ts[0], j) > 0 {
      k := 0;
    } else if on > 0 {
      var k' := OneOwes(ts[1..], on - 1, j);
      k := k' + 1;
    } else {
      var k' := SomeOwes(ts[1..], j);
      k := k' + 1;
    }
  }

  lemma {:induction false} SomeOwes(ts: seq<Tree>, j: Job) returns (k: nat)
    requires SumNo(ts, j) > 0
    ensures k < |ts| && OwedNo(ts[k], j) > 0
  {
    if OwedNo(ts[0], j) > 0 {
      k := 0;
    } else {
      var k' := SomeOwes(ts[1..], j);
      k := k' + 1;
    }
  }

  lemma SameCounted(t: Tree, mid: Tree, t': Tree, j: Job, out: bool)
    requires mid.node.records == t.node.records && mid.up == t.up && |mid.kids| == |t.kids|
    requires BadCounted(mid, t', j, out)
    ensures BadCounted(t, t', j, out)
  {
  }

  /** The bad answer at the head of a link is counted. */
  lemma CountHead(t: Tree, i: nat, way: seq<nat>, j: Job, good: nat, off: int, on: nat)
    returns (t': Tree, out: bool, off': int, on': nat)
    requires Unclean(j) && Stands(t, way, j, false, good, off, on) && i < |t.kids|
    requires t.kids[i].up != [] && t.kids[i].up[0] == No(j) && Of(t.node.records, JobKind(j)) != []
    ensures Reaches(t, t') && HitKept(t, t', way, j, false, true) && |t'.kids| == |t.kids|
    ensures BadCounted(t, t', j, out) && Stands(t', way, j, false, good, off', on')
    ensures 0 <= off' && off' == off - (if i == way[0] then 0 else 1) && on' == on - if i == way[0] then 1 else 0
  {
    Missing(t.node.records, JobKind(j));
    t' := Apply(t, Count(i));
    out, off', on' := CountBad(t, i, way, j, false, good, off, on);
    ReachesSelf(t);
    ReachesNext(t, t, Count(i));
    StandsAgain(t', way, j, good, off', on');
  }

  /** A bad answer under way on one link can be counted. */
  lemma CountNext(t: Tree, i: nat, way: seq<nat>, j: Job, good: nat, off: int, on: nat)
    returns (t': Tree, out: bool, off': int, on': nat)
    requires Unclean(j) && Stands(t, way, j, false, good, off, on) && i < |t.kids|
    requires No(j) in t.kids[i].up && Of(t.node.records, JobKind(j)) != []
    ensures Reaches(t, t') && HitKept(t, t', way, j, false, true) && |t'.kids| == |t.kids|
    ensures BadCounted(t, t', j, out) && Stands(t', way, j, false, good, off', on')
    ensures 0 <= off' && off' == off - (if i == way[0] then 0 else 1) && on' == on - if i == way[0] then 1 else 0
  {
    var head := HitHead(t, i, way, j, good, off, on);
    t', out, off', on' := CountHead(head, i, way, j, good, off, on);
    ReachesOn(t, head, t');
    KeptOn(t, head, t', way, j);
    SameCounted(t, head, t', j, out);
  }

  /** What filling the first record comes to. */
  ghost predicate Filled(t: Tree, t': Tree, way: seq<nat>, j: Job) {
    && HitKept(t, t', way, j, false, true)
    && t'.down == [] && way != [] && way[0] < |t'.kids| && GoodDue(t'.kids[way[0]], way[1..], j) == 1
    && No(j) in t'.up
    && Of(t.node.records, JobKind(j)) != []
    && Of(t'.node.records, JobKind(j)) == Of(t.node.records, JobKind(j))[1..]
  }

  lemma FilledOn(t: Tree, mid: Tree, t': Tree, way: seq<nat>, j: Job)
    requires HitKept(t, mid, way, j, false, true) && Filled(mid, t', way, j)
    requires Of(t.node.records, JobKind(j)) != []
    requires Of(mid.node.records, JobKind(j))[1..] == Of(t.node.records, JobKind(j))[1..]
    ensures Filled(t, t', way, j)
  {
    KeptOn(t, mid, t', way, j);
  }

  lemma FilledNow(t: Tree, mid: Tree, t': Tree, way: seq<nat>, j: Job, off: int, on: nat)
    requires Unclean(j) && HitKept(t, mid, way, j, false, true) && HitKept(mid, t', way, j, false, true)
    requires BadCounted(mid, t', j, true) && Stands(t', way, j, false, 1, off, on)
    requires Of(mid.node.records, JobKind(j)) == Of(t.node.records, JobKind(j))
    ensures Filled(t, t', way, j)
  {
    KeptOn(t, mid, t', way, j);
    assert t'.up[|mid.up|] == No(j);
  }

  lemma FilledLater(t: Tree, mid: Tree, next: Tree, t': Tree, way: seq<nat>, j: Job)
    requires HitKept(t, mid, way, j, false, true) && HitKept(mid, next, way, j, false, true)
    requires BadCounted(mid, next, j, false) && Of(mid.node.records, JobKind(j)) == Of(t.node.records, JobKind(j))
    requires Reaches(t, next) && Reaches(next, t') && Filled(next, t', way, j)
    ensures Reaches(t, t') && Filled(t, t', way, j)
  {
    ReachesOn(t, next, t');
    KeptOn(t, mid, next, way, j);
    FilledOn(t, next, t', way, j);
  }

  /** A child off the way comes to rest with its bad answer on the link. */
  lemma RestOff(t: Tree, way: seq<nat>, j: Job, off: int, on: nat) returns (mid: Tree, k: nat)
    requires Unclean(j) && Stands(t, way, j, false, 1, off, on) && off > 0
    ensures Reaches(t, mid) && HitKept(t, mid, way, j, false, true) && Stands(mid, way, j, false, 1, off, on)
    ensures mid.node.records == t.node.records && |mid.kids| == |t.kids|
    ensures k < |mid.kids| && k != way[0] && No(j) in mid.kids[k].up
  {
    k := OneOwes(t.kids, way[0], j);
    var rest := ReachesQuiet(t.kids[k], j);
    QuietOwesNothing(rest, j);
    assert No(j) in rest.up;
    ReachesBelow(t, k, rest);
    mid := t.(kids := t.kids[k := rest]);
    InsideOff(t, k, rest, way, j, false, 1, off, on);
    StandsAgain(mid, way, j, 1, off, on);
  }

  /** When the bad answers to come fill the first record before the good answer comes, some run
      does so: the process passes a bad answer up. */
  lemma {:induction false} ReachesFill(t: Tree, way: seq<nat>, j: Job, off: int, on: nat) returns (t': Tree)
    requires Unclean(j) && Stands(t, way, j, false, 1, off, on)
    requires Fills(Of(t.node.records, JobKind(j)), off + on, |t.kids|)
    ensures Reaches(t, t') && Filled(t, t', way, j)
    decreases |way|, 1, off
  {
    var q := Of(t.node.records, JobKind(j));
    if off > 0 {
      var mid, k := RestOff(t, way, j, off, on);
      var next, out, less, same := CountNext(mid, k, way, j, 1, off, on);
      ReachesOn(t, mid, next);
      if out {
        t' := next;
        FilledNow(t, mid, t', way, j, less, same);
      } else {
        t' := ReachesFill(next, way, j, less, same);
        FilledLater(t, mid, next, t', way, j);
      }
    } else {
      var kid := ReachesBad(t.kids[way[0]], way[1..], j);
      t' := FillOn(t, way, j, kid, off, on);
    }
  }

  /** The child on the way hands over its bad answer, which fills the record. */
  lemma FillOn(t: Tree, way: seq<nat>, j: Job, kid: Tree, off: int, on: nat) returns (t': Tree)
    requires Unclean(j) && Stands(t, way, j, false, 1, off, on) && off == 0
    requires Fills(Of(t.node.records, JobKind(j)), off + on, |t.kids|)
    requires Reaches(t.kids[way[0]], kid) && HitKept(t.kids[way[0]], kid, way[1..], j, false, true) && No(j) in kid.up
    ensures Reaches(t, t') && Filled(t, t', way, j)
  {
    var mid := t.(kids := t.kids[way[0] := kid]);
    ReachesBelow(t, way[0], kid);
    InsideOn(t, kid, way, j, false, true, 1, off, on);
    StandsAgain(mid, way, j, 1, off, on);
    var out, off', on';
    t', out, off', on' := CountNext(mid, way[0], way, j, 1, off, on);
    ReachesOn(t, mid, t');
    FilledNow(t, mid, t', way, j, off', on');
  }

  /** A subtree that can hand over a bad answer before the good one does so in some run. */
  lemma {:induction false} ReachesBad(t: Tree, way: seq<nat>, j: Job) returns (t': Tree)
    requires Unclean(j) && Way(t, way, j, false) && BadDue(t, way, j) == 1
    ensures Reaches(t, t') && HitKept(t, t', way, j, false, true) && No(j) in t'.up
    decreases |way|, 2, 0
  {
    ReachesSelf(t);
    if No(j) in t.up {
      t' := t;
    } else {
      assert multiset(t.up)[No(j)] == 0;
      var asked := t;
      if t.down != [] {
        asked := Apply(t, Take);
        TakeHit(t, way, j, false);
        ReachesNext(t, t, Take);
        AskedLink(t, way, j);
      }
      var good, off, on := WayParts(asked, way, j, false);
      t' := ReachesFill(asked, way, j, off, on);
      ReachesOn(t, asked, t');
      KeptOn(t, asked, t', way, j);
    }
  }

  lemma AskedLink(t: Tree, way: seq<nat>, j: Job)
    requires Unclean(j) && Way(t, way, j, false) && BadDue(t, way, j) == 1 && t.down != []
    ensures way != [] && ApplyTake(t).up == t.up && multiset(t.up)[No(j)] == 0
  {
    TakeHit(t, way, j, false);
    AllBeatsLink(t, way, j);
    assert t.up + [] == t.up;
  }

  // ---------------------------------------------------------------- the lookup that fails

  /** A process on the way without an old record, all of whose children can give bad answers. */
  lemma ReachesFailureHere(t: Tree, way: seq<nat>, j: Job) returns (t': Tree)
    requires Unclean(j) && Sound(t) && HitWaiting(t, way, j) && way != []
    requires Of(t.node.records, JobKind(j)) == [] && |t.kids| <= MissesAll(t.kids, j)
    ensures Reaches(t, t') && !NoLookupFails(t')
  {
    var passed, on := PassedOn(t, j), Misses(t.kids[way[0]], j);
    var off := MissesAll(t.kids, j) - on;
    WaitingWay(t, way, j, false);
    TakeHit(t, way, j, false);
    PassedBelow(t, way, j, false);
    StandsAgain(passed, way, j, 1, off, on);
    AppendedOf(t.node.records, JobKind(j), JobKind(j));
    ReachesSelf(t);
    ReachesNext(t, t, Take);
    var filled := ReachesFill(passed, way, j, off, on);
    ReachesOn(t, passed, filled);
    assert Lost(filled, way, j);
    t' := ReachesStop(filled, way, j, false, true);
    ReachesOn(t, filled, t');
  }

  lemma {:induction false} ReachesFailure(t: Tree, way: seq<nat>, j: Job) returns (t': Tree)
    requires Unclean(j) && Sound(t) && HitWaiting(t, way, j) && Fails(t, j)
    ensures Reaches(t, t') && !NoLookupFails(t')
    decreases way
  {
    FailsBelow(t, way, j);
    if Of(t.node.records, JobKind(j)) == [] && |t.kids| <= MissesAll(t.kids, j) {
      t' := ReachesFailureHere(t, way, j);
    } else {
      var passed := PassedOn(t, j);
      ReachesPassed(t, way, j);
      HandedFails(t.kids[way[0]], j);
      var kid := ReachesFailure(passed.kids[way[0]], way[1..], j);
      ReachesBelow(passed, way[0], kid);
      t' := passed.(kids := passed.kids[way[0] := kid]);
      ReachesOn(t, passed, t');
      assert t'.kids[way[0]] == kid;
    }
  }

  lemma ReachesPassed(t: Tree, way: seq<nat>, j: Job)
    requires Unclean(j) && Sound(t) && HitWaiting(t, way, j) && way != []
    ensures var passed := PassedOn(t, j);
      && Reaches(t, passed) && way[0] < |passed.kids|
      && passed.kids[way[0]] == Send(t.kids[way[0]], [Do(j.cmd, j.fork)])
      && Sound(passed.kids[way[0]]) && HitWaiting(passed.kids[way[0]], way[1..], j)
  {
    WaitingWay(t, way, j, false);
    TakeHit(t, way, j, false);
    PassedKids(t, way, j);
    HandedOn(t.kids[way[0]], way[1..], j, false);
    ReachesSelf(t);
    ReachesNext(t, t, Take);
  }

  lemma HandedFails(t: Tree, j: Job)
    requires t.attached
    ensures Fails(Send(t, [Do(j.cmd, j.fork)]), j) == Fails(t, j)
  {
    SameSelf(t);
    assert Same(t, Send(t, [Do(j.cmd, j.fork)]));
    SameFails(t, Send(t, [Do(j.cmd, j.fork)]), j);
  }

  // ---------------------------------------------------------------- the way

  lemma {:induction false} HitBelow(ts: seq<Tree>, j: Job) returns (i: nat)
    requires HitsAll(ts, j) == 1
    ensures i < |ts| && Hits(ts[i], j) == 1
    ensures forall k :: 0 <= k < |ts| && k != i ==> Hits(ts[k], j) == 0
  {
    if Hits(ts[0], j) == 1 {
      i := 0;
      forall k | 1 <= k < |ts| ensures Hits(ts[k], j) == 0 {
        HitAt(ts[1..], k - 1, j);
      }
    } else {
      var i' := HitBelow(ts[1..], j);
      i := i' + 1;
    }
  }

  lemma {:induction false} HitAt(ts: seq<Tree>, k: nat, j: Job)
    requires k < |ts|
    ensures Hits(ts[k], j) <= HitsAll(ts, j)
  {
    if k > 0 {
      HitAt(ts[1..], k - 1, j);
    }
  }

  lemma {:induction false} WayTo(t: Tree, j: Job) returns (way: seq<nat>)
    requires Hits(t, j) == 1
    ensures Leads(t, way, j)
    decreases t
  {
    if Decide(t.node, j).SayYes? {
      way := [];
    } else {
      var i := HitBelow(t.kids, j);
      var rest := WayTo(t.kids[i], j);
      way := [i] + rest;
      assert way[1..] == rest;
    }
  }

  // ---------------------------------------------------------------- main results

  /** A command that no tree at rest need be fresh for. */
  ghost predicate Given(t: Tree, j: Job) {
    Unclean(j) && AtRest(t, JobKind(j), false) && Clear(t, j)
  }

  function Issued(t: Tree, j: Job): Tree {
    t.(down := [Do(j.cmd, j.fork)])
  }

  lemma StartWay(t: Tree, j: Job) returns (way: seq<nat>)
    requires Given(t, j) && Hits(t, j) == 1
    ensures var start := Issued(t, j);
      && Sound(start) && HitWaiting(start, way, j) && Fails(start, j) == Fails(t, j)
      && Way(start, way, j, !Fails(t, j)) && Way(start, way, j, false)
      && GoodDue(start, way, j) == 1 && BadDue(start, way, j) == Misses(t, j) <= 1
  {
    var start := Issued(t, j);
    way := WayTo(t, j);
    SameSelf(t);
    assert Same(t, start);
    SameLeads(t, start, way, j);
    SameAnswers(t, start, j);
    SameFails(t, start, j);
    WaitingWay(start, way, j, !Fails(t, j));
    WaitingWay(start, way, j, false);
  }

  /** The manager's link, by what is due. */
  lemma LinkIs(t: Tree, way: seq<nat>, j: Job, misses: nat)
    requires Unclean(j) && Way(t, way, j, false) && forall r :: r in t.up ==> !r.Heartbeat?
    requires GoodDue(t, way, j) == 1 && BadDue(t, way, j) <= misses <= 1
    ensures t.up in [[], [Yes(j)]] || (misses == 1 && t.up in [[No(j)], [No(j), Yes(j)]])
    ensures Quiet(t) ==> t.up == [Yes(j)] || t.up == [No(j), Yes(j)]
  {
    LinkByNumbers(t.up, j);
    if Quiet(t) {
      QuietGood(t, way, j);
    }
    if |t.up| == 1 {
      assert t.up == [t.up[0]];
      assert t.up[0] in t.up;
      assert multiset(t.up) == multiset{t.up[0]};
    } else if |t.up| == 2 {
      assert t.up == [t.up[0], t.up[1]];
      assert t.up[0] in t.up && t.up[1] in t.up;
      assert multiset(t.up) == multiset{t.up[0], t.up[1]};
    }
  }

  /** One process says yes.  In every run the client's link holds the good answer, before it
      perhaps a bad one, which needs that the tree can give one; nothing else.  At rest the
      good answer is there.  Where no lookup can fail, none does. */
  lemma HitAnswers(t: Tree, j: Job, ms: seq<Move>)
    requires Given(t, j) && Hits(t, j) == 1 && Possible(Issued(t, j), ms) && AllCalm(ms)
    ensures var t' := Run(Issued(t, j), ms);
      && (t'.up in [[], [Yes(j)]] || (Misses(t, j) == 1 && t'.up in [[No(j)], [No(j), Yes(j)]]))
      && (Quiet(t') ==> t'.up == [Yes(j)] || t'.up == [No(j), Yes(j)])
      && (!Fails(t, j) ==> NoLookupFails(t'))
  {
    var start := Issued(t, j);
    var way := StartWay(t, j);
    HitRun(start, ms, way, j, false);
    ManagerRun(start, ms);
    LinkIs(Run(start, ms), way, j, Misses(t, j));
    if !Fails(t, j) {
      HitRun(start, ms, way, j, true);
      HitLookups(Run(start, ms), way, j, true);
    }
  }

  /** Some run makes a lookup fail if and only if, on the way, some process without an old
      record can get a bad answer from all its children before the good one. */
  lemma HitLookupCanFailIff(t: Tree, j: Job)
    requires Given(t, j) && Hits(t, j) == 1
    ensures (exists t' :: Reaches(Issued(t, j), t') && !NoLookupFails(t')) <==> Fails(t, j)
  {
    var start := Issued(t, j);
    var way := StartWay(t, j);
    if Fails(t, j) {
      var t' := ReachesFailure(start, way, j);
    } else {
      forall t' | Reaches(start, t') ensures NoLookupFails(t') {
        var ms :| Possible(start, ms) && AllCalm(ms) && Run(start, ms) == t';
        HitAnswers(t, j, ms);
      }
    }
  }

  /** What has been pushed to the client stays on the link. */
  lemma {:induction false} LinkGrows(t: Tree, ms: seq<Move>)
    requires Possible(t, ms) && AllCalm(ms)
    ensures t.up <= Run(t, ms).up
    decreases |ms|
  {
    if ms != [] {
      assert t.up <= Apply(t, ms[0]).up;
      LinkGrows(Apply(t, ms[0]), ms[1..]);
    }
  }

  /** A tree that can give a bad answer before the good one does so in some run. */
  lemma SomeEarlyBad(t: Tree, j: Job) returns (t': Tree)
    requires Given(t, j) && Hits(t, j) == 1 && !Fails(t, j) && Misses(t, j) == 1
    ensures Reaches(Issued(t, j), t') && Quiet(t') && No(j) in t'.up
  {
    var start := Issued(t, j);
    var way := StartWay(t, j);
    var mid := ReachesBad(start, way, j);
    var ms :| Possible(start, ms) && AllCalm(ms) && Run(start, ms) == mid;
    HitRun(start, ms, way, j, true);
    t' := ReachesStop(mid, way, j, true, false);
    HitLookups(t', way, j, true);
    ReachesOn(start, mid, t');
    var more :| Possible(mid, more) && AllCalm(more) && Run(mid, more) == t';
    LinkGrows(mid, more);
  }

  /** Where no lookup can fail, some run ends with a bad answer in front of the good one if and
      only if the tree can give one. */
  lemma EarlyBadIff(t: Tree, j: Job)
    requires Given(t, j) && Hits(t, j) == 1 && !Fails(t, j)
    ensures (exists t' :: Reaches(Issued(t, j), t') && Quiet(t') && t'.up == [No(j), Yes(j)]) <==> Misses(t, j) == 1
  {
    if Misses(t, j) == 1 {
      var t' := SomeEarlyBad(t, j);
      var ms :| Possible(Issued(t, j), ms) && AllCalm(ms) && Run(Issued(t, j), ms) == t';
      HitAnswers(t, j, ms);
    } else {
      forall t' | Reaches(Issued(t, j), t') && Quiet(t') ensures t'.up != [No(j), Yes(j)] {
        var ms :| Possible(Issued(t, j), ms) && AllCalm(ms) && Run(Issued(t, j), ms) == t';
        HitAnswers(t, j, ms);
      }
    }
  }

  // ---------------------------------------------------------------- at rest again

  lemma QuietHit(t: Tree, way: seq<nat>, j: Job)
    requires Unclean(j) && Way(t, way, j, false) && Quiet(t) && way != []
    ensures way[0] < |t.kids| && Way(t.kids[way[0]], way[1..], j, false)
    ensures forall i :: 0 <= i < |t.kids| && i != way[0] ==> Idle(t.kids[i], JobKind(j), false)
    ensures Rested(Of(t.node.records, JobKind(j)), |t.kids|, false)
  {
    var good, off, on := WayParts(t, way, j, false);
    QuietGood(t.kids[way[0]], way[1..], j);
    forall i | 0 <= i < |t.kids| && i != way[0] ensures Idle(t.kids[i], JobKind(j), false) {
      QuietIdle(t.kids[i], j);
    }
  }

  lemma {:induction false} QuietHitRests(t: Tree, way: seq<nat>, j: Job)
    requires Unclean(j) && Way(t, way, j, false) && Quiet(t)
    ensures Sound(t) && Rested(Of(t.node.records, JobKind(j)), |t.kids|, false)
    ensures forall i :: 0 <= i < |t.kids| ==> Idle(t.kids[i], JobKind(j), false)
    decreases way
  {
    if way == [] {
      HereParts(t, way, j, false);
    } else {
      QuietHit(t, way, j);
      QuietHitRests(t.kids[way[0]], way[1..], j);
    }
  }

  /** Whatever the command, and whether somebody says yes or not: once it has come to rest and
      the client has taken the answers, the tree is at rest as before; its shape is the
      planned one. */
  lemma RestAgain(t: Tree, j: Job, ms: seq<Move>)
    requires Given(t, j) && Hits(t, j) <= 1 && Distinct(Plan(ShapeOf(t), j))
    requires Possible(Issued(t, j), ms) && AllCalm(ms) && Quiet(Run(Issued(t, j), ms))
    ensures var rest := Run(Issued(t, j), ms).(up := []);
      AtRest(rest, JobKind(j), false) && ShapeOf(rest) == Plan(ShapeOf(t), j)
  {
    var start := Issued(t, j);
    var after := Run(start, ms);
    RunTop(start, ms);
    RestShape(t, j, ms);
    StartPlaced(t, j);
    RunPlan(start, ms, j);
    if Hits(t, j) == 0 {
      AtMostOneAnswer(t, j, ms);
      QuietRests(after, j);
    } else {
      var way := StartWay(t, j);
      HitRun(start, ms, way, j, false);
      QuietHitRests(after, way, j);
    }
    assert ShapeOf(after.(up := [])) == ShapeOf(after);
  }
}

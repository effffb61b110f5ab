/**
A command to which one process says yes, on a tree in which earlier commands have left
records they had begun to count in: the way from the manager to that process and what
travels along it.  A process on the way can pass up a bad answer before the good one, when
the bad answers fill its old record; and it can lose the record of the command that way.
*/
module HitWay {
  import opened Messages
  import opened NodeSpec
  import opened Records
  import opened TreeSystem
  import opened SingleCommand
  import opened Ways

  predicate Unclean(j: Job) {
    IsJob(j) && !j.clean
  }

  // ---------------------------------------------------------------- the way and the condition

  /** The way leads to the one process that says yes. */
  predicate Leads(t: Tree, way: seq<nat>, j: Job)
    decreases way
  {
    if way == [] then Decide(t.node, j).SayYes?
    else
      && Decide(t.node, j).Ask? && way[0] < |t.kids|
      && (forall i :: 0 <= i < |t.kids| && i != way[0] ==> Hits(t.kids[i], j) == 0)
      && Leads(t.kids[way[0]], way[1..], j)
  }

  /** Somewhere on the way a process has no old record, and all its children can give it a bad
      answer: those off the way do, and the one on the way can do so before the good one. */
  predicate Fails(t: Tree, j: Job)
    decreases t
  {
    && Decide(t.node, j).Ask? && Hits(t, j) > 0
    && (|| (Of(t.node.records, JobKind(j)) == [] && |t.kids| <= MissesAll(t.kids, j))
        || exists i :: 0 <= i < |t.kids| && Fails(t.kids[i], j))
  }

  lemma {:induction false} SameAnswers(t: Tree, t': Tree, j: Job)
    requires Same(t, t')
    ensures Decide(t'.node, j) == Decide(t.node, j) && Clear(t', j) == Clear(t, j)
    ensures Hits(t', j) == Hits(t, j) && Misses(t', j) == Misses(t, j)
    decreases t
  {
    SameAllAnswers(t.kids, t'.kids, j);
  }

  lemma {:induction false} SameAllAnswers(ts: seq<Tree>, us: seq<Tree>, j: Job)
    requires |us| == |ts| && forall i :: 0 <= i < |ts| ==> Same(ts[i], us[i])
    ensures HitsAll(us, j) == HitsAll(ts, j) && MissesAll(us, j) == MissesAll(ts, j)
    ensures forall i :: 0 <= i < |ts| ==> Clear(us[i], j) == Clear(ts[i], j)
    decreases ts
  {
    if ts != [] {
      SameAnswers(ts[0], us[0], j);
      SameAllAnswers(ts[1..], us[1..], j);
      assert forall i :: 0 < i < |ts| ==> ts[i] == ts[1..][i - 1] && us[i] == us[1..][i - 1];
    }
  }

  lemma {:induction false} SameFails(t: Tree, t': Tree, j: Job)
    requires Same(t, t')
    ensures Fails(t', j) == Fails(t, j)
    decreases t
  {
    SameAnswers(t, t', j);
    SameAllAnswers(t.kids, t'.kids, j);
    forall i | 0 <= i < |t.kids| ensures Fails(t'.kids[i], j) == Fails(t.kids[i], j) {
      SameFails(t.kids[i], t'.kids[i], j);
    }
  }

  lemma {:induction false} SameLeads(t: Tree, t': Tree, way: seq<nat>, j: Job)
    requires Same(t, t') && Leads(t, way, j)
    ensures Leads(t', way, j)
    decreases way
  {
    SameAnswers(t, t', j);
    if way != [] {
      SameLeads(t.kids[way[0]], t'.kids[way[0]], way[1..], j);
      forall i | 0 <= i < |t.kids| ensures Hits(t'.kids[i], j) == Hits(t.kids[i], j) {
        SameAnswers(t.kids[i], t'.kids[i], j);
      }
    }
  }

  // ---------------------------------------------------------------- what is due

  /** The good answers that a subtree on the way still has to hand to its parent. */
  ghost function GoodDue(t: Tree, way: seq<nat>, j: Job): nat
    decreases way, 1
  {
    multiset(t.up)[Yes(j)] + GoodLater(t, way, j)
  }

  ghost function GoodLater(t: Tree, way: seq<nat>, j: Job): nat
    decreases way, 0
  {
    if t.down != [] then 1
    else if way == [] || way[0] >= |t.kids| then 0
    else GoodDue(t.kids[way[0]], way[1..], j)
  }

  /** Whether bad answers to come fill the first record before the good answer comes. */
  function Early(q: seq<Record>, n: nat, good: nat, bad: int): nat {
    if good > 0 && Fills(q, bad, n) then 1 else 0
  }

  /** The bad answers that it can still hand over. */
  ghost function BadDue(t: Tree, way: seq<nat>, j: Job): nat
    decreases way, 1
  {
    multiset(t.up)[No(j)] + BadLater(t, way, j)
  }

  ghost function BadLater(t: Tree, way: seq<nat>, j: Job): nat
    decreases way, 0
  {
    if t.down != [] then Misses(t, j)
    else if way == [] || way[0] >= |t.kids| then 0
    else
      Early(Of(t.node.records, JobKind(j)), |t.kids|, GoodDue(t.kids[way[0]], way[1..], j),
            OffNo(t, way[0], j) + BadDue(t.kids[way[0]], way[1..], j))
  }

  /** No bad answer comes behind the good one. */
  predicate NoneAfter(up: seq<Response>, j: Job) {
    forall i, k :: 0 <= i < k < |up| && up[i] == Yes(j) ==> up[k] != No(j)
  }

  // ---------------------------------------------------------------- the invariant

  /** The records of a process with n children on the way: `good` answers are to come from the
      child on the way, `on` bad ones from it and `off` bad ones from the others.  `safe`: the
      answers to come will find their records. */
  predicate WayTally(q: seq<Record>, n: nat, good: nat, off: int, on: nat, safe: bool) {
    && 0 <= off < n && good <= 1 && on <= 1
    && (q != [] ==> AllFresh(q[1..]))
    && if good == 0 then
         && on == 0
         && (if q == [] then safe ==> off == 0 else q[0].good || q[0].count + off < n)
       else if q == [] then !safe && off + on < n
       else if q[0].good then |q| >= 2
       else
         && q[0].count < n && q[0].count + off + on < 2 * n
         && (safe && Fills(q, off + on, n) ==> |q| >= 2)
  }

  /** The command waits in front of an idle subtree. */
  ghost predicate HitWaiting(t: Tree, way: seq<nat>, j: Job) {
    && t.down == [Do(j.cmd, j.fork)] && AllBeats(t.up)
    && Rested(Of(t.node.records, JobKind(j)), |t.kids|, false)
    && (forall i :: 0 <= i < |t.kids| ==> Idle(t.kids[i], JobKind(j), false))
    && Leads(t, way, j) && Clear(t, j)
  }

  /** What is due fits what is on the link. */
  ghost predicate Link(t: Tree, way: seq<nat>, j: Job) {
    && UpOk(t.up, j) && NoneAfter(t.up, j)
    && GoodDue(t, way, j) <= 1 && BadDue(t, way, j) <= 1
    && (GoodDue(t, way, j) == 0 ==> BadDue(t, way, j) == 0)
  }

  ghost predicate Way(t: Tree, way: seq<nat>, j: Job, safe: bool)
    decreases way
  {
    && Sound(t) && Link(t, way, j)
    && if t.down != [] then HitWaiting(t, way, j) && (safe ==> !Fails(t, j))
       else if way == [] then
         && Rested(Of(t.node.records, JobKind(j)), |t.kids|, false)
         && forall i :: 0 <= i < |t.kids| ==> Idle(t.kids[i], JobKind(j), false)
       else
         && way[0] < |t.kids| && OffWay(t, way[0], j) && Way(t.kids[way[0]], way[1..], j, safe)
         && WayTally(Of(t.node.records, JobKind(j)), |t.kids|, GoodDue(t.kids[way[0]], way[1..], j),
                     OffNo(t, way[0], j), BadDue(t.kids[way[0]], way[1..], j), safe)
  }

  /** What the children still have to give, when the command has been passed on. */
  ghost predicate Below(t: Tree, way: seq<nat>, j: Job, safe: bool, good: nat, off: int, on: nat) {
    && way != [] && way[0] < |t.kids| && OffWay(t, way[0], j) && OffNo(t, way[0], j) == off
    && Way(t.kids[way[0]], way[1..], j, safe)
    && GoodDue(t.kids[way[0]], way[1..], j) == good && BadDue(t.kids[way[0]], way[1..], j) == on
  }

  /** A tree whose command has been passed on meets the invariant when its parts do. */
  lemma WayFrom(t: Tree, way: seq<nat>, j: Job, safe: bool, good: nat, off: int, on: nat)
    requires Sound(t) && t.down == [] && UpOk(t.up, j) && NoneAfter(t.up, j)
    requires Below(t, way, j, safe, good, off, on)
    requires WayTally(Of(t.node.records, JobKind(j)), |t.kids|, good, off, on, safe)
    requires var goods := multiset(t.up)[Yes(j)] + good;
      var bads := multiset(t.up)[No(j)] + Early(Of(t.node.records, JobKind(j)), |t.kids|, good, off + on);
      goods <= 1 && bads <= 1 && (goods == 0 ==> bads == 0)
    ensures Way(t, way, j, safe)
    ensures GoodDue(t, way, j) == multiset(t.up)[Yes(j)] + good
    ensures BadDue(t, way, j)
      == multiset(t.up)[No(j)] + Early(Of(t.node.records, JobKind(j)), |t.kids|, good, off + on)
  {
  }

  /** A process on the way that has passed the command on, by its parts. */
  ghost predicate Stands(t: Tree, way: seq<nat>, j: Job, safe: bool, good: nat, off: int, on: nat) {
    && Sound(t) && t.down == [] && Link(t, way, j) && Below(t, way, j, safe, good, off, on)
    && WayTally(Of(t.node.records, JobKind(j)), |t.kids|, good, off, on, safe)
    && GoodDue(t, way, j) == multiset(t.up)[Yes(j)] + good
    && BadDue(t, way, j)
       == multiset(t.up)[No(j)] + Early(Of(t.node.records, JobKind(j)), |t.kids|, good, off + on)
  }

  lemma WayParts(t: Tree, way: seq<nat>, j: Job, safe: bool) returns (good: nat, off: int, on: nat)
    requires Way(t, way, j, safe) && t.down == [] && way != []
    ensures Stands(t, way, j, safe, good, off, on)
  {
    good, off := GoodDue(t.kids[way[0]], way[1..], j), OffNo(t, way[0], j);
    on := BadDue(t.kids[way[0]], way[1..], j);
  }

  /** The process at the end of the way, once it has answered. */
  lemma WayHere(t: Tree, way: seq<nat>, j: Job, safe: bool)
    requires Sound(t) && t.down == [] && way == [] && UpOk(t.up, j) && NoneAfter(t.up, j)
    requires Rested(Of(t.node.records, JobKind(j)), |t.kids|, false)
    requires forall i :: 0 <= i < |t.kids| ==> Idle(t.kids[i], JobKind(j), false)
    requires multiset(t.up)[Yes(j)] <= 1 && multiset(t.up)[No(j)] <= multiset(t.up)[Yes(j)]
    ensures Way(t, way, j, safe)
    ensures GoodDue(t, way, j) == multiset(t.up)[Yes(j)] && BadDue(t, way, j) == multiset(t.up)[No(j)]
  {
  }

  lemma HereParts(t: Tree, way: seq<nat>, j: Job, safe: bool)
    requires Way(t, way, j, safe) && t.down == [] && way == []
    ensures Sound(t) && UpOk(t.up, j) && NoneAfter(t.up, j)
    ensures Rested(Of(t.node.records, JobKind(j)), |t.kids|, false)
    ensures forall i :: 0 <= i < |t.kids| ==> Idle(t.kids[i], JobKind(j), false)
    ensures GoodDue(t, way, j) == multiset(t.up)[Yes(j)] <= 1
    ensures BadDue(t, way, j) == multiset(t.up)[No(j)] <= multiset(t.up)[Yes(j)]
  {
  }

  /** What a calm move keeps on the way; `same`: it does not lose a bad answer that was due. */
  ghost predicate HitKept(t: Tree, t': Tree, way: seq<nat>, j: Job, safe: bool, same: bool) {
    && Way(t', way, j, safe)
    && t'.node.id == t.node.id && t'.attached == t.attached
    && GoodDue(t', way, j) == GoodDue(t, way, j)
    && BadDue(t', way, j) <= BadDue(t, way, j)
    && (same ==> BadDue(t', way, j) == BadDue(t, way, j))
  }

  /** What the link and the records of t say is due. */
  ghost function Dues(t: Tree, j: Job, good: nat, bad: int): (nat, nat) {
    (multiset(t.up)[Yes(j)] + good, multiset(t.up)[No(j)] + Early(Of(t.node.records, JobKind(j)), |t.kids|, good, bad))
  }

  /** The tree after a move, from its new parts. */
  lemma Resettled(t: Tree, t': Tree, way: seq<nat>, j: Job, safe: bool, good: nat, off: int, on: nat, same: bool)
    requires Link(t, way, j) && t'.node.id == t.node.id && t'.attached == t.attached
    requires Sound(t') && t'.down == [] && UpOk(t'.up, j) && NoneAfter(t'.up, j)
    requires Below(t', way, j, safe, good, off, on)
    requires WayTally(Of(t'.node.records, JobKind(j)), |t'.kids|, good, off, on, safe)
    requires var (goods, bads) := Dues(t', j, good, off + on);
      goods == GoodDue(t, way, j) && bads <= BadDue(t, way, j) && (same ==> bads == BadDue(t, way, j))
    ensures HitKept(t, t', way, j, safe, same)
  {
    WayFrom(t', way, j, safe, good, off, on);
  }

  lemma DuesOf(t: Tree, way: seq<nat>, j: Job, safe: bool, good: nat, off: int, on: nat)
    requires Stands(t, way, j, safe, good, off, on)
    ensures WayTally(Of(t.node.records, JobKind(j)), |t.kids|, good, off, on, safe)
    ensures Dues(t, j, good, off + on) == (GoodDue(t, way, j), BadDue(t, way, j))
  {
  }

  lemma DuesSame(t: Tree, t': Tree, j: Job, good: nat, off: int, on: nat)
    requires t'.node.records == t.node.records && |t'.kids| == |t.kids|
    requires multiset(t'.up)[Yes(j)] == multiset(t.up)[Yes(j)] && multiset(t'.up)[No(j)] == multiset(t.up)[No(j)]
    ensures Dues(t', j, good, off + on) == Dues(t, j, good, off + on)
  {
  }

  /** A move that leaves records, answers on the link and what the children owe as they were. */
  lemma Unmoved(t: Tree, t': Tree, way: seq<nat>, j: Job, safe: bool, good: nat, off: int, on: nat)
    requires Stands(t, way, j, safe, good, off, on) && Below(t', way, j, safe, good, off, on)
    requires t'.node.id == t.node.id && t'.attached == t.attached
    requires t'.node.records == t.node.records && |t'.kids| == |t.kids|
    requires Sound(t') && t'.down == [] && UpOk(t'.up, j) && NoneAfter(t'.up, j)
    requires multiset(t'.up)[Yes(j)] == multiset(t.up)[Yes(j)] && multiset(t'.up)[No(j)] == multiset(t.up)[No(j)]
    ensures HitKept(t, t', way, j, safe, true)
  {
    DuesOf(t, way, j, safe, good, off, on);
    DuesSame(t, t', j, good, off, on);
    Resettled(t, t', way, j, safe, good, off, on, true);
  }

  /** A child off the way is replaced by one that still follows the command. */
  lemma BelowOff(t: Tree, t': Tree, i: nat, kid: Tree, way: seq<nat>, j: Job, safe: bool, good: nat, off: int, on: nat)
    requires Below(t, way, j, safe, good, off, on) && i < |t.kids| && i != way[0] && t'.kids == t.kids[i := kid]
    requires Inv(kid, j) && OwedYes(kid, j) == 0
    ensures Below(t', way, j, safe, good, off - OwedNo(t.kids[i], j) + OwedNo(kid, j), on)
  {
    OffReplaced(t, t', i, kid, way[0], j);
  }

  /** The child on the way is replaced. */
  lemma BelowOn(t: Tree, t': Tree, kid: Tree, way: seq<nat>, j: Job, safe: bool, good: nat, off: int, on: nat)
    requires Below(t, way, j, safe, good, off, on) && t'.kids == t.kids[way[0] := kid]
    requires Way(kid, way[1..], j, safe)
    ensures Below(t', way, j, safe, GoodDue(kid, way[1..], j), off, BadDue(kid, way[1..], j))
  {
    OffReplaced(t, t', way[0], kid, way[0], j);
  }

  // ---------------------------------------------------------------- handing the command out

  lemma {:induction false} SumsAgree(ts: seq<Tree>, us: seq<Tree>, j: Job)
    requires |us| == |ts| && forall i :: 0 <= i < |ts| ==> OwedNo(us[i], j) == Misses(ts[i], j)
    ensures SumNo(us, j) == MissesAll(ts, j)
  {
    if ts != [] {
      SumsAgree(ts[1..], us[1..], j);
    }
  }

  lemma {:induction false} SumsButOne(ts: seq<Tree>, us: seq<Tree>, i: nat, j: Job)
    requires |us| == |ts| && i < |ts|
    requires forall k :: 0 <= k < |ts| && k != i ==> OwedNo(us[k], j) == Misses(ts[k], j)
    ensures SumNo(us, j) - OwedNo(us[i], j) == MissesAll(ts, j) - Misses(ts[i], j)
  {
    if i == 0 {
      SumsAgree(ts[1..], us[1..], j);
    } else {
      SumsButOne(ts[1..], us[1..], i - 1, j);
    }
  }

  lemma {:induction false} OthersMiss(ts: seq<Tree>, i: nat, j: Job)
    requires i < |ts|
    ensures 0 <= MissesAll(ts, j) - Misses(ts[i], j) < |ts|
  {
    if i == 0 {
      MissesBound(ts[1..], j);
    } else {
      OthersMiss(ts[1..], i - 1, j);
    }
  }

  lemma AllBeatsLink(t: Tree, way: seq<nat>, j: Job)
    requires IsJob(j) && AllBeats(t.up)
    ensures multiset(t.up)[Yes(j)] == 0 && multiset(t.up)[No(j)] == 0 && UpOk(t.up, j) && NoneAfter(t.up, j)
  {
    NoAnswers(t.up, j);
    forall i | 0 <= i < |t.up| ensures t.up[i] != Yes(j) {
      assert t.up[i] in t.up;
    }
  }

  lemma WaitingWay(t: Tree, way: seq<nat>, j: Job, safe: bool)
    requires Unclean(j) && Sound(t) && HitWaiting(t, way, j) && (safe ==> !Fails(t, j))
    ensures Way(t, way, j, safe) && GoodDue(t, way, j) == 1 && BadDue(t, way, j) == Misses(t, j)
  {
    AllBeatsLink(t, way, j);
  }

  /** The child on the way gets the command. */
  lemma HandedOn(t: Tree, way: seq<nat>, j: Job, safe: bool)
    requires Unclean(j) && Idle(t, JobKind(j), false) && t.attached && Leads(t, way, j) && Clear(t, j)
    requires safe ==> !Fails(t, j)
    ensures var after := Send(t, [Do(j.cmd, j.fork)]);
      && Way(after, way, j, safe) && HitWaiting(after, way, j)
      && GoodDue(after, way, j) == 1 && BadDue(after, way, j) == Misses(t, j)
  {
    var after := Send(t, [Do(j.cmd, j.fork)]);
    assert after.down == [Do(j.cmd, j.fork)];
    SameSelf(t);
    assert Same(t, after);
    SameLeads(t, after, way, j);
    SameAnswers(t, after, j);
    SameFails(t, after, j);
    WaitingWay(after, way, j, safe);
  }

  lemma PassedKids(t: Tree, way: seq<nat>, j: Job)
    requires Unclean(j) && Sound(t) && HitWaiting(t, way, j) && way != []
    ensures var t' := PassedOn(t, j);
      && OffWay(t', way[0], j)
      && OffNo(t', way[0], j) == MissesAll(t.kids, j) - Misses(t.kids[way[0]], j)
      && t'.kids[way[0]] == Send(t.kids[way[0]], [Do(j.cmd, j.fork)])
  {
    var t' := PassedOn(t, j);
    forall k | 0 <= k < |t.kids| && k != way[0]
      ensures Inv(t'.kids[k], j) && OwedYes(t'.kids[k], j) == 0 && OwedNo(t'.kids[k], j) == Misses(t.kids[k], j)
    {
      HandedOne(t.kids[k], j);
    }
    SumsButOne(t.kids, t'.kids, way[0], j);
  }

  lemma PassedTally(q: seq<Record>, n: nat, off: int, on: nat, r: Record, safe: bool)
    requires Rested(q, n, false) && 0 <= off < n && on <= 1 && r.count == 0 && !r.good
    requires safe && q == [] ==> off + on < n
    ensures WayTally(q + [r], n, 1, off, on, safe)
    ensures Early(q + [r], n, 1, off + on) == if Fills(q, off + on, n) then 1 else 0
  {
    if q == [] {
      assert (q + [r])[1..] == [];
    } else {
      assert (q + [r])[1..] == q[1..] + [r];
      assert q[0] in q && forall x :: x in q[1..] ==> x in q;
    }
  }

  /** Where no lookup can fail, none can below. */
  lemma FailsBelow(t: Tree, way: seq<nat>, j: Job)
    requires Leads(t, way, j) && way != []
    ensures Hits(t, j) == Hits(t.kids[way[0]], j)
    ensures Fails(t, j) <==>
      Hits(t, j) > 0 && (Fails(t.kids[way[0]], j)
        || (Of(t.node.records, JobKind(j)) == [] && |t.kids| <= MissesAll(t.kids, j)))
  {
    HitsOn(t.kids, way[0], j);
    if Fails(t, j) && !(Of(t.node.records, JobKind(j)) == [] && |t.kids| <= MissesAll(t.kids, j)) {
      var i :| 0 <= i < |t.kids| && Fails(t.kids[i], j);
      assert Hits(t.kids[i], j) > 0;
    }
  }

  lemma {:induction false} HitsOn(ts: seq<Tree>, i: nat, j: Job)
    requires i < |ts| && forall k :: 0 <= k < |ts| && k != i ==> Hits(ts[k], j) == 0
    ensures HitsAll(ts, j) == Hits(ts[i], j)
  {
    if i == 0 {
      NoHits(ts[1..], j);
    } else {
      HitsOn(ts[1..], i - 1, j);
    }
  }

  lemma {:induction false} NoHits(ts: seq<Tree>, j: Job)
    requires forall k :: 0 <= k < |ts| ==> Hits(ts[k], j) == 0
    ensures HitsAll(ts, j) == 0
  {
    if ts != [] {
      NoHits(ts[1..], j);
    }
  }

  lemma {:induction false} WayHits(t: Tree, way: seq<nat>, j: Job)
    requires Leads(t, way, j)
    ensures Hits(t, j) == 1
    decreases way
  {
    if way != [] {
      WayHits(t.kids[way[0]], way[1..], j);
      HitsOn(t.kids, way[0], j);
    }
  }

  lemma PassedBelow(t: Tree, way: seq<nat>, j: Job, safe: bool)
    requires Unclean(j) && Sound(t) && HitWaiting(t, way, j) && way != [] && (safe ==> !Fails(t, j))
    ensures var on := Misses(t.kids[way[0]], j);
      Below(PassedOn(t, j), way, j, safe, 1, MissesAll(t.kids, j) - on, on)
  {
    FailsBelow(t, way, j);
    WayHits(t, way, j);
    PassedKids(t, way, j);
    HandedOn(t.kids[way[0]], way[1..], j, safe);
  }

  lemma PassedWay(t: Tree, way: seq<nat>, j: Job, safe: bool)
    requires Unclean(j) && Sound(t) && HitWaiting(t, way, j) && way != [] && (safe ==> !Fails(t, j))
    ensures var t' := PassedOn(t, j);
      Way(t', way, j, safe) && GoodDue(t', way, j) == 1 && BadDue(t', way, j) == Misses(t, j)
  {
    var t', on := PassedOn(t, j), Misses(t.kids[way[0]], j);
    var off := MissesAll(t.kids, j) - on;
    WayHits(t, way, j);
    FailsBelow(t, way, j);
    PassedBelow(t, way, j, safe);
    OthersMiss(t.kids, way[0], j);
    PassedTally(Of(t.node.records, JobKind(j)), |t.kids|, off, on, Fresh(JobKind(j)), safe);
    AppendedOf(t.node.records, JobKind(j), JobKind(j));
    AllBeatsLink(t, way, j);
    assert t'.up == t.up;
    WayFrom(t', way, j, safe, 1, off, on);
  }

  /** A tree at rest with a child more is at rest. */
  lemma RestedMore(q: seq<Record>, n: nat, m: nat)
    requires Rested(q, n, false) && n <= m
    ensures Rested(q, m, false)
  {
  }

  /** The process that says yes, with the child it may have started. */
  lemma WithChild(t: Tree, j: Job)
    requires Unclean(j) && Sound(t) && t.down == [Do(j.cmd, j.fork)] && Clear(t, j) && Decide(t.node, j).SayYes?
    requires Rested(Of(t.node.records, JobKind(j)), |t.kids|, false)
    requires forall i :: 0 <= i < |t.kids| ==> Idle(t.kids[i], JobKind(j), false)
    ensures var t' := ApplyTake(t);
      && Sound(t') && t'.down == [] && t'.up == t.up + [Yes(j)]
      && t'.node.id == t.node.id && t'.attached == t.attached
      && Rested(Of(t'.node.records, JobKind(j)), |t'.kids|, false)
      && forall i :: 0 <= i < |t'.kids| ==> Idle(t'.kids[i], JobKind(j), false)
  {
    TakeEffect(t, j);
    TakeShape(t, j);
    var node := OnOrder(t.node, t.down[0]).node;
    WithBorn(t, node, node.children[|t.node.children|..], j);
    LeafIdle(if j.cmd.Create? then j.cmd.newNodeId else 0, JobKind(j));
    RestedMore(Of(t.node.records, JobKind(j)), |t.kids|, |t.kids| + |Born(j)|);
  }

  lemma AnsweredHere(t: Tree, way: seq<nat>, j: Job, safe: bool)
    requires Unclean(j) && Sound(t) && HitWaiting(t, way, j) && way == []
    ensures var t' := ApplyTake(t);
      && Way(t', way, j, safe) && GoodDue(t', way, j) == 1 && BadDue(t', way, j) == 0
      && t'.node.id == t.node.id && t'.attached == t.attached && t'.down == []
  {
    WithChild(t, j);
    AllBeatsLink(t, way, j);
    UpGains(t.up, Yes(j), Yes(j));
    UpGains(t.up, Yes(j), No(j));
    AppendGood(t.up, j);
    WayHere(ApplyTake(t), way, j, safe);
  }

  lemma AppendGood(up: seq<Response>, j: Job)
    requires IsJob(j) && UpOk(up, j) && NoneAfter(up, j)
    ensures UpOk(up + [Yes(j)], j) && NoneAfter(up + [Yes(j)], j)
  {
  }

  lemma AppendBad(up: seq<Response>, j: Job)
    requires IsJob(j) && UpOk(up, j) && multiset(up)[Yes(j)] == 0
    ensures UpOk(up + [No(j)], j) && NoneAfter(up + [No(j)], j)
  {
    forall i | 0 <= i < |up| ensures up[i] != Yes(j) {
      assert up[i] in up;
    }
  }

  lemma TakeHit(t: Tree, way: seq<nat>, j: Job, safe: bool)
    requires Unclean(j) && Way(t, way, j, safe) && t.down != []
    ensures HitKept(t, ApplyTake(t), way, j, safe, true) && ApplyTake(t).down == []
    ensures way != [] ==> ApplyTake(t) == PassedOn(t, j)
  {
    WaitingWay(t, way, j, safe);
    if way == [] {
      AnsweredHere(t, way, j, safe);
    } else {
      TakeEffect(t, j);
      TakeShape(t, j);
      PassedWay(t, way, j, safe);
    }
  }

  // ---------------------------------------------------------------- moves while the command waits

  lemma HitReplaced(t: Tree, t': Tree, way: seq<nat>, i: nat, kid: Tree, j: Job, safe: bool)
    requires Unclean(j) && Way(t, way, j, safe) && t.down != [] && i < |t.kids|
    requires Idle(kid, JobKind(j), false) && Same(t.kids[i], kid) && t'.kids == t.kids[i := kid]
    requires SameNode(t.node, t'.node)
    requires t'.down == t.down && t'.up == t.up && t'.attached == t.attached && Sound(t')
    ensures HitKept(t, t', way, j, safe, true)
  {
    SameBut(t, t', i, kid);
    SameLeads(t, t', way, j);
    SameAnswers(t, t', j);
    SameFails(t, t', j);
    WaitingWay(t, way, j, safe);
    WaitingWay(t', way, j, safe);
  }

  lemma CountWaiting(t: Tree, i: nat, way: seq<nat>, j: Job, safe: bool)
    requires Unclean(j) && Way(t, way, j, safe) && t.down != [] && Enabled(t, Count(i))
    ensures HitKept(t, ApplyCount(t, i), way, j, safe, true)
  {
    var r := t.kids[i].up[0];
    assert r in t.kids[i].up && r.Heartbeat?;
    CountShape(t, i);
    StampedSound(t, i, OnResponse(t.node, r).node.children);
    SamePop(t.kids[i]);
    PoppedIdle(t.kids[i], j);
    HitReplaced(t, ApplyCount(t, i), way, i, Pop(t.kids[i]), j, safe);
  }

  lemma InsideWaitingHit(t: Tree, i: nat, m: Move, way: seq<nat>, j: Job, safe: bool)
    requires Unclean(j) && Way(t, way, j, safe) && t.down != [] && i < |t.kids| && Enabled(t.kids[i], m) && Calm(m)
    ensures HitKept(t, t.(kids := t.kids[i := Apply(t.kids[i], m)]), way, j, safe, true)
  {
    IdleStep(t.kids[i], m, j);
    IdleSame(t.kids[i], m, JobKind(j), false);
    HitReplaced(t, t.(kids := t.kids[i := Apply(t.kids[i], m)]), way, i, Apply(t.kids[i], m), j, safe);
  }

  // ---------------------------------------------------------------- counting

  /** One more bad answer in the first record. */
  lemma TallyBad(q: seq<Record>, q': seq<Record>, n: nat, good: nat, off: int, on: nat, off': int, on': nat,
                 safe: bool, out: bool)
    requires WayTally(q, n, good, off, on, safe) && q != []
    requires 0 <= off' <= off && on' <= on && off' + on' == off + on - 1
    requires
      var rec := Counted(q[0], false);
      if rec.count == n && !rec.good then q' == q[1..] && out else q' == [rec] + q[1..] && !out
    ensures WayTally(q', n, good, off', on', safe)
    ensures Early(q, n, good, off + on) == Early(q', n, good, off' + on') + if out then 1 else 0
    ensures out ==> good == 1
  {
    var rest := q[1..];
    assert ([Counted(q[0], false)] + rest)[1..] == rest;
    assert rest != [] ==> rest[0] in rest;
    assert forall r :: r in rest[if rest == [] then 0 else 1..] ==> r in rest;
  }

  /** The good answer in the first record. */
  lemma TallyGood(q: seq<Record>, q': seq<Record>, n: nat, off: int, on: nat, safe: bool)
    requires WayTally(q, n, 1, off, on, safe) && q != []
    requires q' == if Counted(q[0], true).count == n then q[1..] else [Counted(q[0], true)] + q[1..]
    ensures WayTally(q', n, 0, off, 0, safe)
  {
    var rest := q[1..];
    assert ([Counted(q[0], true)] + rest)[1..] == rest;
    assert rest != [] ==> rest[0] in rest;
    assert forall r :: r in rest[if rest == [] then 0 else 1..] ==> r in rest;
  }

  /** Taking a response off the link of the child on the way. */
  lemma HitPop(kid: Tree, way: seq<nat>, j: Job, safe: bool)
    requires Unclean(j) && Way(kid, way, j, safe) && kid.up != []
    ensures GoodDue(Pop(kid), way, j) == GoodDue(kid, way, j) - if kid.up[0] == Yes(j) then 1 else 0
    ensures BadDue(Pop(kid), way, j) == BadDue(kid, way, j) - if kid.up[0] == No(j) then 1 else 0
    ensures Way(Pop(kid), way, j, safe)
    ensures kid.up[0].Heartbeat? || kid.up[0] == Yes(j) || kid.up[0] == No(j)
  {
    PopDue(kid, way, j, safe);
    assert kid.up[0] in kid.up;
    if kid.down != [] {
      SamePop(kid);
      SameLeads(kid, Pop(kid), way, j);
      SameAnswers(kid, Pop(kid), j);
      SameFails(kid, Pop(kid), j);
    }
    if kid.up[0] == Yes(j) {
      GoodPopped(kid, way, j, safe);
    }
  }

  lemma PopDue(kid: Tree, way: seq<nat>, j: Job, safe: bool)
    requires Unclean(j) && kid.up != []
    ensures GoodDue(Pop(kid), way, j) == GoodDue(kid, way, j) - if kid.up[0] == Yes(j) then 1 else 0
    ensures BadDue(Pop(kid), way, j) == BadDue(kid, way, j) - if kid.up[0] == No(j) then 1 else 0
  {
    assert kid.up == [kid.up[0]] + kid.up[1..];
    assert multiset(kid.up) == multiset([kid.up[0]]) + multiset(kid.up[1..]);
    SamePop(kid);
    SameAnswers(kid, Pop(kid), j);
  }

  /** Behind the good answer there is nothing. */
  lemma GoodPopped(kid: Tree, way: seq<nat>, j: Job, safe: bool)
    requires Unclean(j) && Way(kid, way, j, safe) && kid.up != [] && kid.up[0] == Yes(j)
    ensures BadDue(kid, way, j) == 0
  {
    assert kid.up[0] in kid.up;
    assert multiset(kid.up)[Yes(j)] >= 1;
    assert kid.down == [];
    forall k | 0 <= k < |kid.up| ensures kid.up[k] != No(j) {
      if k > 0 {
        assert kid.up[0] == Yes(j);
      }
    }
    assert No(j) !in kid.up;
    assert GoodLater(kid, way, j) == 0;
  }

  /** The children after response i was taken off its link. */
  lemma BelowPop(t: Tree, t': Tree, i: nat, way: seq<nat>, j: Job, safe: bool, good: nat, off: int, on: nat)
    requires Unclean(j) && Below(t, way, j, safe, good, off, on) && i < |t.kids| && t.kids[i].up != []
    requires t'.kids == t.kids[i := Pop(t.kids[i])]
    ensures var r := t.kids[i].up[0];
      && (r.Heartbeat? || r == No(j) || (r == Yes(j) && i == way[0]))
      && (if i == way[0] then
            Below(t', way, j, safe, good - (if r == Yes(j) then 1 else 0), off, on - if r == No(j) then 1 else 0)
          else Below(t', way, j, safe, good, off - (if r == No(j) then 1 else 0), on))
  {
    var kid := t.kids[i];
    assert kid.up[0] in kid.up;
    if i == way[0] {
      HitPop(kid, way[1..], j, safe);
      BelowOn(t, t', Pop(kid), way, j, safe, good, off, on);
    } else {
      assert multiset(kid.up)[kid.up[0]] > 0;
      PopChild(kid, j);
      BelowOff(t, t', i, Pop(kid), way, j, safe, good, off, on);
    }
  }

  /** What can be at the head of a link. */
  lemma HeadKind(t: Tree, i: nat, way: seq<nat>, j: Job, safe: bool, good: nat, off: int, on: nat)
    requires Unclean(j) && Below(t, way, j, safe, good, off, on) && i < |t.kids| && t.kids[i].up != []
    ensures var r := t.kids[i].up[0];
      && (r.Heartbeat? || r == No(j) || (r == Yes(j) && i == way[0] && good > 0))
      && (No(j) in t.kids[i].up && r != No(j) ==> r.Heartbeat?)
  {
    var kid := t.kids[i];
    var r := kid.up[0];
    assert r in kid.up;
    if i == way[0] {
      HitPop(kid, way[1..], j, safe);
    } else {
      assert multiset(kid.up)[r] > 0;
    }
    if r == Yes(j) {
      assert multiset(kid.up)[r] > 0;
      GoodPopped(kid, way[1..], j, safe);
      assert multiset(kid.up)[No(j)] == 0;
    }
  }

  /** A heartbeat is taken off the link of child i. */
  lemma CountBeatHit(t: Tree, i: nat, way: seq<nat>, j: Job, safe: bool, good: nat, off: int, on: nat)
    requires Unclean(j) && Stands(t, way, j, safe, good, off, on)
    requires Enabled(t, Count(i)) && t.kids[i].up[0].Heartbeat?
    ensures var t' := ApplyCount(t, i);
      && HitKept(t, t', way, j, safe, true) && Below(t', way, j, safe, good, off, on)
      && t'.node.records == t.node.records && t'.up == t.up && t'.down == []
      && t'.kids == t.kids[i := Pop(t.kids[i])]
  {
    CountShape(t, i);
    StampedSound(t, i, OnResponse(t.node, t.kids[i].up[0]).node.children);
    BelowPop(t, ApplyCount(t, i), i, way, j, safe, good, off, on);
    Unmoved(t, ApplyCount(t, i), way, j, safe, good, off, on);
  }

  /** The tree after an answer was counted. */
  lemma CountedShape(t: Tree, i: nat, j: Job)
    requires IsJob(j) && Sound(t) && Enabled(t, Count(i)) && (t.kids[i].up[0] == No(j) || t.kids[i].up[0] == Yes(j))
    ensures var r, t' := t.kids[i].up[0], ApplyCount(t, i);
      && Sound(t') && t'.down == t.down && t'.kids == t.kids[i := Pop(t.kids[i])]
      && t'.node.id == t.node.id && t'.attached == t.attached
      && t'.up == t.up + OnResponse(t.node, r).up
      && CountsTo(t, j, r, t'.node, OnResponse(t.node, r).up)
  {
    var r := t.kids[i].up[0];
    CountShape(t, i);
    CountedOf(t.node, r, JobKind(j));
    CountedSound(t, i, OnResponse(t.node, r).node, OnResponse(t.node, r).up);
  }

  /** What the first record and the link become when it is counted. */
  ghost predicate BadCounted(t: Tree, t': Tree, j: Job, out: bool) {
    var q, q' := Of(t.node.records, JobKind(j)), Of(t'.node.records, JobKind(j));
    && q != [] && (out <==> q[0].count + 1 == |t.kids| && !q[0].good)
    && t'.up == (if out then t.up + [No(j)] else t.up)
    && q' == if out then q[1..] else [Counted(q[0], false)] + q[1..]
  }

  lemma BadShape(t: Tree, i: nat, j: Job) returns (out: bool)
    requires IsJob(j) && Sound(t) && Enabled(t, Count(i)) && t.kids[i].up[0] == No(j)
    ensures var t' := ApplyCount(t, i);
      && BadCounted(t, t', j, out)
      && Sound(t') && t'.down == t.down && t'.kids == t.kids[i := Pop(t.kids[i])]
      && t'.node.id == t.node.id && t'.attached == t.attached
  {
    CountedShape(t, i, j);
    out := OnResponse(t.node, No(j)).up == [No(j)];
    assert t.up + [] == t.up;
  }

  lemma DuesFrom(t: Tree, t': Tree, j: Job, q: seq<Record>, q': seq<Record>, good: nat, bad: int, bad': int, out: bool)
    requires q == Of(t.node.records, JobKind(j)) && q' == Of(t'.node.records, JobKind(j)) && |t'.kids| == |t.kids|
    requires Early(q, |t.kids|, good, bad) == Early(q', |t.kids|, good, bad') + if out then 1 else 0
    requires multiset(t'.up)[Yes(j)] == multiset(t.up)[Yes(j)]
    requires multiset(t'.up)[No(j)] == multiset(t.up)[No(j)] + if out then 1 else 0
    ensures Dues(t', j, good, bad') == Dues(t, j, good, bad)
  {
  }

  /** A bad answer is counted: it fills the first record and passes up, or it stays there. */
  lemma CountBad(t: Tree, i: nat, way: seq<nat>, j: Job, safe: bool, good: nat, off: int, on: nat)
    returns (out: bool, off': int, on': nat)
    requires Unclean(j) && Stands(t, way, j, safe, good, off, on)
    requires Enabled(t, Count(i)) && t.kids[i].up[0] == No(j)
    ensures var t' := ApplyCount(t, i);
      && HitKept(t, t', way, j, safe, true) && t'.down == [] && BadCounted(t, t', j, out)
      && Below(t', way, j, safe, good, off', on')
    ensures 0 <= off' && off' == off - (if i == way[0] then 0 else 1) && on' == on - if i == way[0] then 1 else 0
  {
    var t' := ApplyCount(t, i);
    off', on' := if i == way[0] then off else off - 1, if i == way[0] && on > 0 then on - 1 else on;
    out := BadShape(t, i, j);
    BelowPop(t, t', i, way, j, safe, good, off, on);
    BadIsDue(t, i, way, j, safe, good, off, on);
    BadSettled(t, t', way, j, safe, good, off, on, off', on', out);
  }

  lemma BadSettled(t: Tree, t': Tree, way: seq<nat>, j: Job, safe: bool, good: nat, off: int, on: nat,
                   off': int, on': nat, out: bool)
    requires Unclean(j) && Stands(t, way, j, safe, good, off, on) && BadCounted(t, t', j, out)
    requires Below(t', way, j, safe, good, off', on') && Sound(t') && t'.down == [] && |t'.kids| == |t.kids|
    requires t'.node.id == t.node.id && t'.attached == t.attached
    requires 0 <= off' <= off && on' <= on && off' + on' == off + on - 1
    ensures HitKept(t, t', way, j, safe, true)
  {
    DuesOf(t, way, j, safe, good, off, on);
    var q, q' := Of(t.node.records, JobKind(j)), Of(t'.node.records, JobKind(j));
    TallyBad(q, q', |t.kids|, good, off, on, off', on', safe, out);
    BadPassed(t, t', j, out);
    DuesFrom(t, t', j, q, q', good, off + on, off' + on', out);
    Resettled(t, t', way, j, safe, good, off', on', true);
  }

  lemma BadIsDue(t: Tree, i: nat, way: seq<nat>, j: Job, safe: bool, good: nat, off: int, on: nat)
    requires Unclean(j) && Below(t, way, j, safe, good, off, on) && i < |t.kids| && No(j) in t.kids[i].up
    ensures if i == way[0] then on > 0 && good > 0 else off > 0
  {
    if i == way[0] {
      assert multiset(t.kids[i].up)[No(j)] > 0;
    } else {
      NoOffWay(t, i, way[0], j);
    }
  }

  /** The link after a bad answer was or was not passed on. */
  lemma BadPassed(t: Tree, t': Tree, j: Job, out: bool)
    requires IsJob(j) && UpOk(t.up, j) && NoneAfter(t.up, j)
    requires t'.up == if out then t.up + [No(j)] else t.up
    requires out ==> multiset(t.up)[Yes(j)] == 0
    ensures UpOk(t'.up, j) && NoneAfter(t'.up, j)
    ensures multiset(t'.up)[Yes(j)] == multiset(t.up)[Yes(j)]
    ensures multiset(t'.up)[No(j)] == multiset(t.up)[No(j)] + if out then 1 else 0
  {
    if out {
      AppendBad(t.up, j);
      UpGains(t.up, No(j), Yes(j));
      UpGains(t.up, No(j), No(j));
    }
  }

  /** The good answer is counted and passed on. */
  lemma CountGood(t: Tree, way: seq<nat>, j: Job, safe: bool, good: nat, off: int, on: nat)
    requires Unclean(j) && Stands(t, way, j, safe, good, off, on)
    requires Enabled(t, Count(way[0])) && t.kids[way[0]].up[0] == Yes(j)
    ensures HitKept(t, ApplyCount(t, way[0]), way, j, safe, false)
  {
    var i, t' := way[0], ApplyCount(t, way[0]);
    CountedShape(t, i, j);
    BelowPop(t, t', i, way, j, safe, good, off, on);
    GoodPopped(t.kids[i], way[1..], j, safe);
    assert multiset(t.kids[i].up)[Yes(j)] > 0;
    TallyGood(Of(t.node.records, JobKind(j)), Of(t'.node.records, JobKind(j)), |t.kids|, off, on, safe);
    AppendGood(t.up, j);
    UpGains(t.up, Yes(j), Yes(j));
    UpGains(t.up, Yes(j), No(j));
    Resettled(t, t', way, j, safe, 0, off, 0, false);
  }

  /** Below the process that says yes only heartbeats move. */
  lemma BelowReplaced(t: Tree, t': Tree, i: nat, kid: Tree, way: seq<nat>, j: Job, safe: bool)
    requires Way(t, way, j, safe) && way == [] && t.down == [] && i < |t.kids|
    requires Idle(kid, JobKind(j), false) && t'.kids == t.kids[i := kid]
    requires SameNode(t.node, t'.node) && t'.attached == t.attached && Sound(t') && t'.down == [] && t'.up == t.up
    ensures HitKept(t, t', way, j, safe, true)
  {
    HereParts(t, way, j, safe);
    WayHere(t', way, j, safe);
  }

  lemma CountBelow(t: Tree, i: nat, way: seq<nat>, j: Job, safe: bool)
    requires Unclean(j) && Way(t, way, j, safe) && way == [] && t.down == [] && Enabled(t, Count(i))
    ensures HitKept(t, ApplyCount(t, i), way, j, safe, true)
  {
    HereParts(t, way, j, safe);
    var r := t.kids[i].up[0];
    assert r in t.kids[i].up && r.Heartbeat?;
    CountShape(t, i);
    StampedSound(t, i, OnResponse(t.node, r).node.children);
    PoppedIdle(t.kids[i], j);
    BelowReplaced(t, ApplyCount(t, i), i, Pop(t.kids[i]), way, j, safe);
  }

  lemma InsideBelow(t: Tree, i: nat, m: Move, way: seq<nat>, j: Job, safe: bool)
    requires Unclean(j) && Way(t, way, j, safe) && way == [] && t.down == [] && i < |t.kids|
    requires Enabled(t.kids[i], m) && Calm(m)
    ensures HitKept(t, t.(kids := t.kids[i := Apply(t.kids[i], m)]), way, j, safe, true)
  {
    HereParts(t, way, j, safe);
    IdleStep(t.kids[i], m, j);
    BelowReplaced(t, t.(kids := t.kids[i := Apply(t.kids[i], m)]), i, Apply(t.kids[i], m), way, j, safe);
  }

  lemma CountHit(t: Tree, i: nat, way: seq<nat>, j: Job, safe: bool)
    requires Unclean(j) && Way(t, way, j, safe) && Enabled(t, Count(i))
    ensures HitKept(t, ApplyCount(t, i), way, j, safe, false)
  {
    if t.down != [] {
      CountWaiting(t, i, way, j, safe);
    } else if way == [] {
      CountBelow(t, i, way, j, safe);
    } else {
      var good, off, on := WayParts(t, way, j, safe);
      var r := t.kids[i].up[0];
      HeadKind(t, i, way, j, safe, good, off, on);
      if r.Heartbeat? {
        CountBeatHit(t, i, way, j, safe, good, off, on);
      } else if r == No(j) {
        var _, _, _ := CountBad(t, i, way, j, safe, good, off, on);
      } else {
        CountGood(t, way, j, safe, good, off, on);
      }
    }
  }

  // ---------------------------------------------------------------- other moves

  lemma BeatPassed(t: Tree, t': Tree, way: seq<nat>, j: Job, safe: bool, good: nat, off: int, on: nat)
    requires Unclean(j) && Stands(t, way, j, safe, good, off, on)
    requires t' == t.(up := t'.up) && UpOk(t'.up, j) && NoneAfter(t'.up, j)
    requires multiset(t'.up)[Yes(j)] == multiset(t.up)[Yes(j)] && multiset(t'.up)[No(j)] == multiset(t.up)[No(j)]
    ensures HitKept(t, t', way, j, safe, true)
  {
    assert Below(t', way, j, safe, good, off, on);
    Unmoved(t, t', way, j, safe, good, off, on);
  }

  lemma BeatHit(t: Tree, beat: Response, way: seq<nat>, j: Job, safe: bool)
    requires Unclean(j) && Way(t, way, j, safe) && beat.Heartbeat?
    ensures HitKept(t, t.(up := t.up + [beat]), way, j, safe, true)
  {
    var t' := t.(up := t.up + [beat]);
    if t.down != [] {
      BeatWaiting(t, t', way, j, safe);
    } else {
      UpGains(t.up, beat, Yes(j));
      UpGains(t.up, beat, No(j));
      AppendBeat(t.up, beat, j);
      if way == [] {
        HereParts(t, way, j, safe);
        WayHere(t', way, j, safe);
      } else {
        var good, off, on := WayParts(t, way, j, safe);
        BeatPassed(t, t', way, j, safe, good, off, on);
      }
    }
  }

  lemma AppendBeat(up: seq<Response>, beat: Response, j: Job)
    requires IsJob(j) && UpOk(up, j) && NoneAfter(up, j) && beat.Heartbeat?
    ensures UpOk(up + [beat], j) && NoneAfter(up + [beat], j)
  {
  }

  lemma BeatWaiting(t: Tree, t': Tree, way: seq<nat>, j: Job, safe: bool)
    requires Unclean(j) && Way(t, way, j, safe) && t.down != [] && t' == t.(up := t'.up) && AllBeats(t'.up)
    ensures HitKept(t, t', way, j, safe, true)
  {
    SameSelf(t);
    SameLeads(t, t', way, j);
    SameAnswers(t, t', j);
    SameFails(t, t', j);
    WaitingWay(t, way, j, safe);
    WaitingWay(t', way, j, safe);
  }

  lemma SoundWith(t: Tree, i: nat, kid: Tree)
    requires Sound(t) && i < |t.kids| && kid.node.id == t.kids[i].node.id && kid.attached == t.kids[i].attached
    ensures Sound(t.(kids := t.kids[i := kid]))
  {
  }

  lemma InsideOff(t: Tree, i: nat, kid: Tree, way: seq<nat>, j: Job, safe: bool, good: nat, off: int, on: nat)
    requires Unclean(j) && Stands(t, way, j, safe, good, off, on) && i < |t.kids| && i != way[0]
    requires Inv(kid, j) && OwedYes(kid, j) == 0 && OwedNo(kid, j) == OwedNo(t.kids[i], j)
    requires kid.node.id == t.kids[i].node.id && kid.attached == t.kids[i].attached
    ensures var t' := t.(kids := t.kids[i := kid]);
      HitKept(t, t', way, j, safe, true) && Below(t', way, j, safe, good, off, on)
  {
    var t' := t.(kids := t.kids[i := kid]);
    SoundWith(t, i, kid);
    BelowOff(t, t', i, kid, way, j, safe, good, off, on);
    Unmoved(t, t', way, j, safe, good, off, on);
  }

  /** Fewer bad answers to come cannot fill more. */
  lemma TallyFewer(q: seq<Record>, n: nat, good: nat, off: int, on: nat, fewer: nat, safe: bool)
    requires WayTally(q, n, good, off, on, safe) && fewer <= on
    ensures WayTally(q, n, good, off, fewer, safe) && Early(q, n, good, off + fewer) <= Early(q, n, good, off + on)
  {
  }

  lemma InsideOn(t: Tree, kid: Tree, way: seq<nat>, j: Job, safe: bool, same: bool, good: nat, off: int, on: nat)
    requires Unclean(j) && Stands(t, way, j, safe, good, off, on)
    requires HitKept(t.kids[way[0]], kid, way[1..], j, safe, same)
    ensures var t' := t.(kids := t.kids[way[0] := kid]);
      HitKept(t, t', way, j, safe, same) && Below(t', way, j, safe, good, off, BadDue(kid, way[1..], j))
  {
    var t' := t.(kids := t.kids[way[0] := kid]);
    SoundWith(t, way[0], kid);
    BelowOn(t, t', kid, way, j, safe, good, off, on);
    DuesOf(t, way, j, safe, good, off, on);
    TallyFewer(Of(t.node.records, JobKind(j)), |t.kids|, good, off, on, BadDue(kid, way[1..], j), safe);
    Resettled(t, t', way, j, safe, good, off, BadDue(kid, way[1..], j), same);
  }

  lemma InsidePassed(t: Tree, i: nat, kid: Tree, way: seq<nat>, j: Job, safe: bool)
    requires Unclean(j) && Way(t, way, j, safe) && t.down == [] && way != [] && i < |t.kids|
    requires if i == way[0] then HitKept(t.kids[i], kid, way[1..], j, safe, false) else Kept(t.kids[i], kid, j)
    ensures HitKept(t, t.(kids := t.kids[i := kid]), way, j, safe, false)
  {
    var good, off, on := WayParts(t, way, j, safe);
    if i == way[0] {
      InsideOn(t, kid, way, j, safe, false, good, off, on);
    } else {
      InsideOff(t, i, kid, way, j, safe, good, off, on);
    }
  }

  /** Every calm move keeps what travels on the way. */
  lemma {:induction false} HitStep(t: Tree, m: Move, way: seq<nat>, j: Job, safe: bool)
    requires Unclean(j) && Way(t, way, j, safe) && Enabled(t, m) && Calm(m)
    ensures HitKept(t, Apply(t, m), way, j, safe, false)
    decreases m
  {
    match m
    case Take => TakeHit(t, way, j, safe);
    case Count(i) => CountHit(t, i, way, j, safe);
    case Beat(time) => BeatHit(t, Heartbeat(t.node.id, time), way, j, safe);
    case Inside(i, m') =>
      if t.down != [] {
        InsideWaitingHit(t, i, m', way, j, safe);
      } else if way == [] {
        InsideBelow(t, i, m', way, j, safe);
      } else {
        if i == way[0] {
          HitStep(t.kids[i], m', way[1..], j, safe);
        } else {
          Step(t.kids[i], m', j);
        }
        InsidePassed(t, i, Apply(t.kids[i], m'), way, j, safe);
      }
    case Sweep(_) =>
    case Exit =>
  }

  lemma {:induction false} HitRun(t: Tree, ms: seq<Move>, way: seq<nat>, j: Job, safe: bool)
    requires Unclean(j) && Way(t, way, j, safe) && Possible(t, ms) && AllCalm(ms)
    ensures HitKept(t, Run(t, ms), way, j, safe, false)
    decreases |ms|
  {
    if ms != [] {
      HitStep(t, ms[0], way, j, safe);
      HitRun(Apply(t, ms[0]), ms[1..], way, j, safe);
    }
  }
}

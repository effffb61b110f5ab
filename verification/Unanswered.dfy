/**
The exec command after an exec command on a tree without old records.  The first one may
leave full records behind, and the next one is answered exactly if a node has its id or no
process has kept such a record.
*/
module Unanswered {
  import opened Messages
  import opened NodeSpec
  import opened Records
  import opened TreeSystem
  import opened Shapes
  import opened SingleCommand
  import opened OneAnswer
  import opened RecordsAfter
  import opened RecordLife
  import opened Reachability
  import opened HitWay
  import opened HitRuns
  import opened Liveness
  import opened NextCommand

  // ---------------------------------------------------------------- the tree after the first command

  /** The tree after one exec command, once the client has taken the answer. */
  ghost predicate RestOf(t: Tree, j: Job, ms: seq<Move>, rest: Tree) {
    && Possible(Issued(t, j), ms) && AllCalm(ms)
    && var after := Run(Issued(t, j), ms);
       Quiet(after) && rest == after.(up := [])
  }

  /** A first record in which something has been counted has seen a good answer. */
  predicate Unspoilt(t: Tree, kind: Kind)
    decreases t
  {
    var q := Of(t.node.records, kind);
    && (q != [] ==> q[0].good || q[0].count == 0)
    && forall i :: 0 <= i < |t.kids| ==> Unspoilt(t.kids[i], kind)
  }

  lemma {:induction false} QuietUnspoilt(t: Tree, j: Job)
    requires j.cmd.Exec? && j.clean && SingleCommand.Inv(t, j) && Quiet(t)
    ensures Unspoilt(t, ExecKind)
    decreases t
  {
    QuietSums(t.kids, j);
    var q := Of(t.node.records, ExecKind);
    assert q != [] ==> q[0] in q;
    forall i | 0 <= i < |t.kids| ensures Unspoilt(t.kids[i], ExecKind) {
      QuietUnspoilt(t.kids[i], j);
    }
  }

  /** Fresh records are rested records. */
  lemma {:induction false} Loosened(t: Tree, kind: Kind)
    requires Idle(t, kind, true)
    ensures Idle(t, kind, false)
    decreases t
  {
    forall i | 0 <= i < |t.kids| ensures Idle(t.kids[i], kind, false) {
      Loosened(t.kids[i], kind);
    }
  }

  lemma RestIsAtRest(t: Tree, j: Job, ms: seq<Move>, rest: Tree)
    requires Ready(t, ExecKind) && j.cmd.Exec? && j.clean && RestOf(t, j, ms, rest)
    ensures AtRest(rest, ExecKind, false) && ShapeOf(rest) == ShapeOf(t) && Unspoilt(rest, ExecKind)
  {
    var later := j.(clean := false);
    assert Issued(t, later) == Issued(t, j);
    Loosened(t, ExecKind);
    ExecGiven(t, later);
    RestAgain(t, later, ms);
    ExecHitsNode(t, j);
    AtMostOneAnswer(t, j, ms);
    QuietUnspoilt(Run(Issued(t, j), ms), j);
  }

  // ---------------------------------------------------------------- who says no

  /** An idle tree whose records are unspoilt.  Where nobody says yes it says no exactly if all
      its records are fresh; where one process does, it does not say no. */
  lemma {:induction false} MissIff(t: Tree, j: Job)
    requires j.cmd.Exec? && Idle(t, ExecKind, false) && Unspoilt(t, ExecKind) && Hits(t, j) <= 1
    ensures Hits(t, j) == 0 ==> Misses(t, j) == (if AllRecordsFresh(t, ExecKind) then 1 else 0)
    ensures Hits(t, j) == 1 ==> Misses(t, j) == 0 && !Fails(t, j)
    decreases t
  {
    if Decide(t.node, j).Ask? {
      MissAllIff(t.kids, j);
      var q := Of(t.node.records, ExecKind);
      assert q != [] ==> q == [q[0]] + q[1..] && q[0] in q;
    }
  }

  lemma {:induction false} MissAllIff(ts: seq<Tree>, j: Job)
    requires j.cmd.Exec? && HitsAll(ts, j) <= 1
    requires forall i :: 0 <= i < |ts| ==> Idle(ts[i], ExecKind, false) && Unspoilt(ts[i], ExecKind)
    ensures HitsAll(ts, j) == 0 ==>
      (MissesAll(ts, j) == |ts| <==> forall i :: 0 <= i < |ts| ==> AllRecordsFresh(ts[i], ExecKind))
    ensures MissesAll(ts, j) <= |ts| - HitsAll(ts, j)
    ensures forall i :: 0 <= i < |ts| ==> !Fails(ts[i], j)
    decreases ts
  {
    if ts != [] {
      MissIff(ts[0], j);
      MissAllIff(ts[1..], j);
      assert forall i :: 0 < i < |ts| ==> ts[i] == ts[1..][i - 1];
      assert forall i :: 0 <= i < |ts[1..]| ==> ts[1..][i] == ts[i + 1];
    }
  }

  // ---------------------------------------------------------------- main results

  /** Two exec commands, one after the other, on a tree without old records: in every run the
      second one is answered exactly if a node has its id, or else if the first one's good
      answer was the last answer counted at every process on its way to the client. */
  lemma SecondExecAnsweredIff(t: Tree, j: Job, ms: seq<Move>, rest: Tree, id: nat, k: seq<real>, later: seq<Move>)
    requires Ready(t, ExecKind) && NewLogs(t) && j.cmd.Exec? && j.clean && RestOf(t, j, ms, rest)
    requires Possible(Issued(rest, ExecOf(id, k)), later) && AllCalm(later)
    requires Quiet(Run(Issued(rest, ExecOf(id, k)), later))
    ensures var end := Run(Issued(rest, ExecOf(id, k)), later);
      && (end.up != [] <==> IsNode(t, id) || GoodLast(rest, j))
      && (end.up != [] ==> end.up == [if IsNode(t, id) then GoodExecResp(id, Sum(k)) else BadExecResp(id)])
  {
    var after := Run(Issued(t, j), ms);
    RestIsAtRest(t, j, ms, rest);
    ExecHitsNode(t, j);
    RecordsFreshIff(t, j, ms);
    ClientReads(after, j);
    assert IsNode(rest, id) == IsNode(t, id);
    ExecGiven(rest, ExecOf(id, k));
    MissIff(rest, ExecOf(id, k));
    ExecAtRest(rest, id, k, later);
  }

  /** No run of the second one makes a lookup fail. */
  lemma SecondExecSafe(t: Tree, j: Job, ms: seq<Move>, rest: Tree, id: nat, k: seq<real>)
    requires Ready(t, ExecKind) && j.cmd.Exec? && j.clean && RestOf(t, j, ms, rest)
    ensures forall t' :: Reaches(Issued(rest, ExecOf(id, k)), t') ==> NoLookupFails(t')
  {
    RestIsAtRest(t, j, ms, rest);
    ExecGiven(rest, ExecOf(id, k));
    MissIff(rest, ExecOf(id, k));
    ExecLookupCanFailIff(rest, id, k);
  }

  /** What the client has taken off its link says nothing about the records. */
  lemma ClientReads(t: Tree, j: Job)
    ensures AllRecordsFresh(t.(up := []), ExecKind) == AllRecordsFresh(t, ExecKind)
    ensures GoodLast(t.(up := []), j) == GoodLast(t, j)
  {
    assert OnPath(t.(up := []), j) == OnPath(t, j);
    assert t.(up := []).kids == t.kids;
  }

  // ---------------------------------------------------------------- when the manager keeps the record

  /** An exec command at rest leaves a process with fresh exec records, or with a first one
      that is full and has seen a good answer. */
  lemma FreshOrStuck(t: Tree, j: Job)
    requires j.cmd.Exec? && j.clean && SingleCommand.Inv(t, j) && Quiet(t) && t.kids != []
    ensures AllFresh(Of(t.node.records, ExecKind)) || Stuck(t.node)
  {
    QuietSums(t.kids, j);
  }

  /** One exec command has come to rest and the manager's exec records are not fresh.  Then,
      whatever commands come next, as long as the manager gets no further child, no failing
      exec command among them is ever answered. */
  lemma LaterMissesUnanswered(t: Tree, id: nat, k: seq<real>, ms: seq<Move>, orders: seq<Order>, later: seq<Move>)
    requires Ready(t, ExecKind) && t.kids != []
    requires Possible(t.(down := [Do(Exec(id, k), ForkFailed)]), ms) && AllCalm(ms)
    requires var rest := Run(t.(down := [Do(Exec(id, k), ForkFailed)]), ms);
      && Quiet(rest) && rest.kids != [] && !AllFresh(Of(rest.node.records, ExecKind))
      && (forall o :: o in orders ==> NoForkHere(o, rest.node.id))
      && Possible(rest.(down := orders), later) && AllCalm(later)
    ensures var rest := Run(t.(down := [Do(Exec(id, k), ForkFailed)]), ms);
      BadExecs(Run(rest.(down := orders), later).up) == BadExecs(rest.up)
  {
    var j := Job(Exec(id, k), ForkFailed, true);
    var rest := Run(t.(down := [Do(Exec(id, k), ForkFailed)]), ms);
    ExecHitsNode(t, j);
    AtMostOneAnswer(t, j, ms);
    FreshOrStuck(rest, j);
    StuckLosesBadAnswers(rest.(down := orders), later);
  }
}

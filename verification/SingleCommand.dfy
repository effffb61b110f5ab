/**
One exec or create command on an otherwise idle tree of any shape: every interleaving
gives the client the same answer, which depends on the tree alone.  With fresh records
there always is one.  A command to which nobody says yes is also followed through a tree in
which earlier ones have left records they had begun to count in, and then there may be none.

The proof is a conservation law.  `OwedYes` and `OwedNo` count the good and the bad answers
that a subtree still has to hand to its parent, whether they are on their way already or
not; no move inside the subtree changes either of them.
*/
module SingleCommand {
  import opened Messages
  import opened NodeSpec
  import opened Records
  import opened TreeSystem

  /** The command and the outcome of the fork it may cause.  `clean`: the tree holds only
      fresh records of the command's type; a command that is not clean may meet others. */
  datatype Job = Job(cmd: Command, fork: Fork, clean: bool)

  predicate IsJob(j: Job) {
    j.cmd.Exec? || j.cmd.Create?
  }

  function JobKind(j: Job): Kind {
    if j.cmd.Exec? then ExecKind else CreateKind
  }

  /** The good answer. */
  function Yes(j: Job): Response {
    match j.cmd
    case Create(x, _) => GoodCreateResp(x, if j.fork.Forked? then j.fork.pid else 0)
    case Exec(id, k) => GoodExecResp(id, Sum(k))
    case PrintTree => InvalidRequest
  }

  /** The bad answer.  Both places that build a BadCreateResp pass the parent's id first. */
  function No(j: Job): Response {
    match j.cmd
    case Create(x, p) => BadCreateResp(p, x)
    case Exec(id, _) => BadExecResp(id)
    case PrintTree => InvalidRequest
  }

  datatype Verdict = SayYes | SayNo | Ask

  /** What a process does with the command. */
  function Decide(s: NodeState, j: Job): Verdict {
    match j.cmd
    case Exec(id, _) =>
      if !s.manager && id == s.id then SayYes else if s.children == [] then SayNo else Ask
    case Create(_, p) =>
      if p == s.id then (if j.fork.Forked? then SayYes else SayNo) else if s.children == [] then SayNo else Ask
    case PrintTree => SayNo
  }

  /** How many processes of the tree will say yes to the command. */
  function Hits(t: Tree, j: Job): nat
    decreases t
  {
    match Decide(t.node, j)
    case SayYes => 1
    case SayNo => 0
    case Ask => HitsAll(t.kids, j)
  }

  function HitsAll(ts: seq<Tree>, j: Job): nat
    decreases ts
  {
    if ts == [] then 0 else Hits(ts[0], j) + HitsAll(ts[1..], j)
  }

  /** No process has the id that the command wants to create. */
  predicate Clear(t: Tree, j: Job)
    decreases t
  {
    && (j.cmd.Create? ==> t.node.id != j.cmd.newNodeId)
    && forall i :: 0 <= i < |t.kids| ==> Clear(t.kids[i], j)
  }

  // ---------------------------------------------------------------- what is owed

  ghost function OwedYes(t: Tree, j: Job): nat
    decreases t
  {
    multiset(t.up)[Yes(j)] + (if t.down != [] then Hits(t, j) else 0) + SumYes(t.kids, j)
  }

  ghost function SumYes(ts: seq<Tree>, j: Job): nat
    decreases ts
  {
    if ts == [] then 0 else OwedYes(ts[0], j) + SumYes(ts[1..], j)
  }

  /** A record that has counted a good answer lets no bad answer through any more. */
  ghost predicate Seen(t: Tree, j: Job) {
    var q := Of(t.node.records, JobKind(j));
    q != [] && q[0].good
  }

  /** So many bad answers make the first record reach the number of children, and it has seen
      no good answer. */
  predicate Fills(q: seq<Record>, no: int, n: nat) {
    if q == [] then n <= no else !q[0].good && n <= q[0].count + no
  }

  /** Whether the answers still to come from n children will make a process say no. */
  function StillNo(q: seq<Record>, n: nat, yes: nat, no: nat): nat {
    if yes == 0 && no > 0 && q != [] && Fills(q, no, n) then 1 else 0
  }

  /** How many bad answers a tree at rest can give to the command, none or one.  Where nobody
      says yes it gives them in every run. */
  function Misses(t: Tree, j: Job): nat
    decreases t
  {
    match Decide(t.node, j)
    case SayYes => 0
    case SayNo => 1
    case Ask => if Fills(Of(t.node.records, JobKind(j)), MissesAll(t.kids, j), |t.kids|) then 1 else 0
  }

  function MissesAll(ts: seq<Tree>, j: Job): nat
    decreases ts
  {
    if ts == [] then 0 else Misses(ts[0], j) + MissesAll(ts[1..], j)
  }

  ghost function OwedNo(t: Tree, j: Job): nat
    decreases t
  {
    multiset(t.up)[No(j)]
    + (if t.down != [] then Misses(t, j) else 0)
    + StillNo(Of(t.node.records, JobKind(j)), |t.kids|, SumYes(t.kids, j), SumNo(t.kids, j))
  }

  ghost function SumNo(ts: seq<Tree>, j: Job): nat
    decreases ts
  {
    if ts == [] then 0 else OwedNo(ts[0], j) + SumNo(ts[1..], j)
  }

  // ---------------------------------------------------------------- the invariant

  /** A live process whose child handles are its child processes. */
  predicate Sound(t: Tree) {
    && t.node.running && !t.exited
    && |t.node.children| == |t.kids|
    && (forall i :: 0 <= i < |t.kids| ==>
          t.kids[i].attached && t.node.children[i].id == t.kids[i].node.id)
  }

  predicate AllBeats(up: seq<Response>) {
    forall r :: r in up ==> r.Heartbeat?
  }

  predicate UpOk(up: seq<Response>, j: Job) {
    forall r :: r in up ==> r.Heartbeat? || r == Yes(j) || r == No(j)
  }

  /** A first record in which n children have begun to be counted: it is not full yet or has
      seen a good answer. */
  predicate Begun(q: seq<Record>, n: nat) {
    0 < n && q != [] && AllFresh(q[1..]) && (q[0].good || q[0].count < n)
  }

  /** The records of the kind between two commands. */
  predicate Rested(q: seq<Record>, n: nat, clean: bool) {
    AllFresh(q) || (!clean && Begun(q, n))
  }

  /** Nothing of the kind is under way, and the records of the kind are fresh, but for a first
      one where that is allowed. */
  predicate Idle(t: Tree, kind: Kind, clean: bool)
    decreases t
  {
    && Sound(t)
    && t.down == [] && AllBeats(t.up)
    && Rested(Of(t.node.records, kind), |t.kids|, clean)
    && forall i :: 0 <= i < |t.kids| ==> Idle(t.kids[i], kind, clean)
  }

  /** The records of the kind, with so many good and bad answers of the n children to come. */
  predicate Tally(q: seq<Record>, n: nat, yes: nat, no: nat, clean: bool) {
    || (AllFresh(q) && yes == no == 0)
    || (&& clean && 0 < n && q != [] && AllFresh(q[1..])
        && q[0].count + yes + no == n
        && yes + (if q[0].good then 1 else 0) <= 1
        && (q[0].count == n ==> q[0].good))
    || (&& !clean && Begun(q, n) && yes == 0 && no <= n
        && (q[0].good || q[0].count + no <= n || |q| >= 2))
  }

  /** The command waits, untouched, in front of an idle subtree; somebody says yes only where
      all records are fresh. */
  ghost predicate Waiting(t: Tree, j: Job) {
    && t.down == [Do(j.cmd, j.fork)]
    && AllBeats(t.up)
    && Rested(Of(t.node.records, JobKind(j)), |t.kids|, j.clean)
    && (forall i :: 0 <= i < |t.kids| ==> Idle(t.kids[i], JobKind(j), j.clean))
    && Hits(t, j) <= (if j.clean then 1 else 0) && Clear(t, j)
  }

  ghost predicate Inv(t: Tree, j: Job)
    decreases t
  {
    && Sound(t)
    && UpOk(t.up, j)
    && (forall i :: 0 <= i < |t.kids| ==> Inv(t.kids[i], j))
    && if t.down == [] then
         Tally(Of(t.node.records, JobKind(j)), |t.kids|, SumYes(t.kids, j), SumNo(t.kids, j), j.clean)
       else Waiting(t, j)
  }

  // ---------------------------------------------------------------- sums

  lemma {:induction false} SumUpdate(ts: seq<Tree>, i: nat, t: Tree, j: Job)
    requires i < |ts|
    ensures SumYes(ts[i := t], j) == SumYes(ts, j) - OwedYes(ts[i], j) + OwedYes(t, j)
    ensures SumNo(ts[i := t], j) == SumNo(ts, j) - OwedNo(ts[i], j) + OwedNo(t, j)
  {
    if i == 0 {
      assert ts[i := t][1..] == ts[1..];
    } else {
      assert ts[i := t][1..] == ts[1..][i - 1 := t];
      SumUpdate(ts[1..], i - 1, t, j);
    }
  }

  lemma {:induction false} SumConcat(a: seq<Tree>, b: seq<Tree>, j: Job)
    ensures SumYes(a + b, j) == SumYes(a, j) + SumYes(b, j)
    ensures SumNo(a + b, j) == SumNo(a, j) + SumNo(b, j)
  {
    if a == [] {
      assert a + b == b;
    } else {
      assert (a + b)[1..] == a[1..] + b;
      SumConcat(a[1..], b, j);
    }
  }

  lemma {:induction false} SumMember(ts: seq<Tree>, i: nat, j: Job)
    requires i < |ts|
    ensures OwedYes(ts[i], j) <= SumYes(ts, j) && OwedNo(ts[i], j) <= SumNo(ts, j)
  {
    if i > 0 {
      SumMember(ts[1..], i - 1, j);
    }
  }

  // ---------------------------------------------------------------- idle trees

  lemma NoAnswers(up: seq<Response>, j: Job)
    requires IsJob(j) && AllBeats(up)
    ensures multiset(up)[Yes(j)] == 0 && multiset(up)[No(j)] == 0
  {
    assert Yes(j) !in up && No(j) !in up;
  }

  lemma {:induction false} IdleOwesNothing(t: Tree, j: Job)
    requires IsJob(j) && Idle(t, JobKind(j), j.clean)
    ensures OwedYes(t, j) == 0 && OwedNo(t, j) == 0 && Inv(t, j)
    decreases t
  {
    NoAnswers(t.up, j);
    IdleAllOweNothing(t.kids, j);
  }

  lemma {:induction false} IdleAllOweNothing(ts: seq<Tree>, j: Job)
    requires IsJob(j) && forall i :: 0 <= i < |ts| ==> Idle(ts[i], JobKind(j), j.clean)
    ensures SumYes(ts, j) == 0 && SumNo(ts, j) == 0
    ensures forall i :: 0 <= i < |ts| ==> Inv(ts[i], j)
    decreases ts
  {
    if ts != [] {
      IdleOwesNothing(ts[0], j);
      IdleAllOweNothing(ts[1..], j);
      assert forall i :: 0 < i < |ts| ==> ts[i] == ts[1..][i - 1];
    }
  }

  // ---------------------------------------------------------------- yes or no

  lemma {:induction false} MissesBound(ts: seq<Tree>, j: Job)
    ensures MissesAll(ts, j) <= |ts|
  {
    if ts != [] {
      MissesBound(ts[1..], j);
    }
  }

  /** With fresh records everywhere, a tree in which one process says yes does not say no, and
      one in which nobody does says no. */
  lemma {:induction false} FreshAnswers(t: Tree, j: Job)
    requires Idle(t, JobKind(j), true) && Hits(t, j) <= 1
    ensures Misses(t, j) == 1 - Hits(t, j)
    decreases t
  {
    if Decide(t.node, j).Ask? {
      FreshAllAnswer(t.kids, j);
      var q := Of(t.node.records, JobKind(j));
      assert q != [] ==> q[0] in q;
    }
  }

  lemma {:induction false} FreshAllAnswer(ts: seq<Tree>, j: Job)
    requires HitsAll(ts, j) <= 1 && forall i :: 0 <= i < |ts| ==> Idle(ts[i], JobKind(j), true)
    ensures MissesAll(ts, j) == |ts| - HitsAll(ts, j)
    decreases ts
  {
    if ts != [] {
      FreshAnswers(ts[0], j);
      FreshAllAnswer(ts[1..], j);
    }
  }

  /** What the command waiting in front of an idle subtree makes it owe. */
  lemma WaitingOwes(t: Tree, j: Job)
    requires IsJob(j) && Sound(t) && Waiting(t, j)
    ensures OwedYes(t, j) == Hits(t, j) && OwedNo(t, j) == Misses(t, j) && Inv(t, j)
  {
    NoAnswers(t.up, j);
    IdleAllOweNothing(t.kids, j);
  }

  lemma HandedOne(t: Tree, j: Job)
    requires IsJob(j) && Idle(t, JobKind(j), j.clean) && t.attached && Clear(t, j)
    requires Hits(t, j) <= if j.clean then 1 else 0
    ensures var after := Send(t, [Do(j.cmd, j.fork)]);
      OwedYes(after, j) == Hits(t, j) && OwedNo(after, j) == Misses(t, j) && Inv(after, j)
  {
    var after := Send(t, [Do(j.cmd, j.fork)]);
    assert after.down == [Do(j.cmd, j.fork)];
    assert Hits(after, j) == Hits(t, j) && Misses(after, j) == Misses(t, j) && Clear(after, j);
    WaitingOwes(after, j);
  }

  lemma {:induction false} HandedOut(ts: seq<Tree>, j: Job)
    requires IsJob(j)
    requires forall i :: 0 <= i < |ts| ==> Idle(ts[i], JobKind(j), j.clean) && ts[i].attached && Clear(ts[i], j)
    requires HitsAll(ts, j) <= if j.clean then 1 else 0
    ensures var after := Broadcast(ts, [Do(j.cmd, j.fork)]);
      && SumYes(after, j) == HitsAll(ts, j)
      && SumNo(after, j) == MissesAll(ts, j)
      && forall i :: 0 <= i < |ts| ==> Inv(after[i], j)
  {
    var o := [Do(j.cmd, j.fork)];
    var after := Broadcast(ts, o);
    if ts != [] {
      assert after[1..] == Broadcast(ts[1..], o);
      HandedOne(ts[0], j);
      HandedOut(ts[1..], j);
      assert forall i :: 0 < i < |ts| ==> after[i] == Broadcast(ts[1..], o)[i - 1];
    }
  }

  // ---------------------------------------------------------------- one move

  /** What every calm move keeps. */
  ghost predicate Kept(t: Tree, t': Tree, j: Job) {
    && Inv(t', j)
    && t'.node.id == t.node.id && t'.attached == t.attached
    && OwedYes(t', j) == OwedYes(t, j)
    && OwedNo(t', j) == OwedNo(t, j)
  }

  lemma {:induction false} PidOfNew(children: seq<Child>, x: nat, pid: nat, at: int)
    requires forall c :: c in children ==> c.id != x
    ensures var after := children + [Child(x, pid, at)];
      && (exists c :: c in after && c.id == x)
      && PidOf(after, x) == pid
  {
    var after := children + [Child(x, pid, at)];
    assert after[|children|].id == x;
    if children != [] {
      assert after[1..] == children[1..] + [Child(x, pid, at)];
      PidOfNew(children[1..], x, pid, at);
    }
  }

  /** The handler agrees with the verdict. */
  lemma TakeEffect(t: Tree, j: Job)
    requires IsJob(j) && Sound(t) && t.down == [Do(j.cmd, j.fork)] && Clear(t, j)
    ensures var e := OnOrder(t.node, t.down[0]);
      match Decide(t.node, j)
      case SayYes =>
        && e.up == [Yes(j)] && e.down == []
        && e.node == t.node.(children := e.node.children)
        && e.node.children == t.node.children +
             (if j.cmd.Create? then [Child(j.cmd.newNodeId, j.fork.pid, j.fork.at)] else [])
      case SayNo =>
        && e.up == [No(j)] && e.down == [] && e.node == t.node.(records := e.node.records)
        && (e.node.records == t.node.records || e.node.records == t.node.records + [Fresh(JobKind(j))])
      case Ask =>
        && e.up == [] && e.down == [Do(j.cmd, j.fork)]
        && e.node == t.node.(records := t.node.records + [Fresh(JobKind(j))])
  {
    if j.cmd.Create? && j.fork.Forked? && Decide(t.node, j).SayYes? {
      forall c | c in t.node.children ensures c.id != j.cmd.newNodeId {
        var i :| 0 <= i < |t.node.children| && t.node.children[i] == c;
        assert Clear(t.kids[i], j);
      }
      PidOfNew(t.node.children, j.cmd.newNodeId, j.fork.pid, j.fork.at);
    }
  }

  lemma LeafIdle(id: nat, kind: Kind)
    ensures Idle(Leaf(id), kind, true) && Idle(Leaf(id), kind, false)
  {
  }

  lemma UpGains(up: seq<Response>, r: Response, x: Response)
    ensures multiset(up + [r])[x] == multiset(up)[x] + if r == x then 1 else 0
  {
  }

  /** The tree after the command was handled. */
  ghost function Handled(t: Tree, node: NodeState, up: seq<Response>, kids: seq<Tree>): Tree {
    Tree(node, t.attached, t.exited, [], t.up + up, kids, t.counted, t.relayed)
  }

  function Born(j: Job): seq<Tree> {
    if j.cmd.Create? then [Leaf(j.cmd.newNodeId)] else []
  }

  lemma TakeShape(t: Tree, j: Job)
    requires IsJob(j) && Sound(t) && t.down == [Do(j.cmd, j.fork)] && Clear(t, j)
    ensures var node := OnOrder(t.node, t.down[0]).node;
      ApplyTake(t) ==
      match Decide(t.node, j)
      case SayYes => Handled(t, node, [Yes(j)], t.kids + Born(j))
      case SayNo => Handled(t, node, [No(j)], t.kids)
      case Ask => Handled(t, node, [], Broadcast(t.kids, [Do(j.cmd, j.fork)]))
  {
    TakeEffect(t, j);
    BroadcastNothing(t.kids);
  }

  /** A tree whose command is no longer waiting meets the invariant when its tally does. */
  lemma Settled(t: Tree, j: Job, yes: nat, no: nat)
    requires Sound(t) && t.down == [] && UpOk(t.up, j)
    requires forall i :: 0 <= i < |t.kids| ==> Inv(t.kids[i], j)
    requires yes == SumYes(t.kids, j) && no == SumNo(t.kids, j)
    requires Tally(Of(t.node.records, JobKind(j)), |t.kids|, yes, no, j.clean)
    ensures Inv(t, j)
    ensures OwedYes(t, j) == multiset(t.up)[Yes(j)] + yes
    ensures OwedNo(t, j) == multiset(t.up)[No(j)] + StillNo(Of(t.node.records, JobKind(j)), |t.kids|, yes, no)
  {
  }

  lemma Unsettled(t: Tree, j: Job, yes: nat, no: nat)
    requires t.down == [] && yes == SumYes(t.kids, j) && no == SumNo(t.kids, j)
    ensures OwedYes(t, j) == multiset(t.up)[Yes(j)] + yes
    ensures OwedNo(t, j) == multiset(t.up)[No(j)] + StillNo(Of(t.node.records, JobKind(j)), |t.kids|, yes, no)
  {
  }

  /** The process answers, and nothing of the command is left below it. */
  lemma Answered(t: Tree, t': Tree, j: Job, r: Response)
    requires IsJob(j) && AllBeats(t.up) && (r == Yes(j) || r == No(j))
    requires OwedYes(t, j) == (if r == Yes(j) then 1 else 0) && OwedNo(t, j) == (if r == No(j) then 1 else 0)
    requires Sound(t') && t'.down == [] && t'.up == t.up + [r]
    requires t'.node.id == t.node.id && t'.attached == t.attached
    requires Rested(Of(t'.node.records, JobKind(j)), |t'.kids|, j.clean)
    requires forall i :: 0 <= i < |t'.kids| ==> Inv(t'.kids[i], j)
    requires SumYes(t'.kids, j) == 0 && SumNo(t'.kids, j) == 0
    ensures Kept(t, t', j)
  {
    UpGains(t.up, r, Yes(j));
    UpGains(t.up, r, No(j));
    NoAnswers(t.up, j);
    Settled(t', j, 0, 0);
  }

  lemma WithBorn(t: Tree, node: NodeState, born: seq<Child>, j: Job)
    requires IsJob(j) && Sound(t) && forall i :: 0 <= i < |t.kids| ==> Idle(t.kids[i], JobKind(j), j.clean)
    requires node == t.node.(children := t.node.children + born)
    requires |born| == |Born(j)| && (born != [] ==> born[0].id == j.cmd.newNodeId)
    ensures var kids := t.kids + Born(j);
      && Sound(Handled(t, node, [Yes(j)], kids))
      && SumYes(kids, j) == 0 && SumNo(kids, j) == 0
      && forall i :: 0 <= i < |kids| ==> Inv(kids[i], j)
  {
    LeafIdle(if j.cmd.Create? then j.cmd.newNodeId else 0, JobKind(j));
    IdleAllOweNothing(t.kids, j);
    IdleAllOweNothing(Born(j), j);
    SumConcat(t.kids, Born(j), j);
  }

  lemma TakeYes(t: Tree, j: Job, node: NodeState)
    requires IsJob(j) && Sound(t) && UpOk(t.up, j) && Waiting(t, j) && Decide(t.node, j).SayYes?
    requires node == t.node.(children := node.children)
    requires node.children == t.node.children +
             (if j.cmd.Create? then [Child(j.cmd.newNodeId, j.fork.pid, j.fork.at)] else [])
    ensures Kept(t, Handled(t, node, [Yes(j)], t.kids + Born(j)), j)
  {
    WaitingOwes(t, j);
    WithBorn(t, node, node.children[|t.node.children|..], j);
    Answered(t, Handled(t, node, [Yes(j)], t.kids + Born(j)), j, Yes(j));
  }

  lemma StaysRested(records: seq<Record>, after: seq<Record>, kind: Kind, n: nat, clean: bool)
    requires Rested(Of(records, kind), n, clean)
    requires after == records || after == records + [Fresh(kind)]
    ensures Rested(Of(after, kind), n, clean)
    ensures after != records ==> Of(after, kind) != []
  {
    AppendedOf(records, kind, kind);
    var q := Of(records, kind);
    if q != [] {
      assert (q + [Fresh(kind)])[1..] == q[1..] + [Fresh(kind)];
    }
  }

  lemma TakeNo(t: Tree, j: Job, node: NodeState)
    requires IsJob(j) && Sound(t) && UpOk(t.up, j) && Waiting(t, j) && Decide(t.node, j).SayNo?
    requires node == t.node.(records := node.records)
    requires node.records == t.node.records || node.records == t.node.records + [Fresh(JobKind(j))]
    ensures Kept(t, Handled(t, node, [No(j)], t.kids), j)
  {
    WaitingOwes(t, j);
    IdleAllOweNothing(t.kids, j);
    StaysRested(t.node.records, node.records, JobKind(j), |t.kids|, j.clean);
    Answered(t, Handled(t, node, [No(j)], t.kids), j, No(j));
  }

  /** The command goes to all children: what they owe is what the process owed. */
  lemma AskTally(q: seq<Record>, n: nat, yes: nat, no: nat, clean: bool, last: Record)
    requires Rested(q, n, clean) && n > 0 && no <= n && last.count == 0 && !last.good
    requires yes <= (if clean then 1 else 0) && (clean ==> yes + no == n)
    ensures Tally(q + [last], n, yes, no, clean)
    ensures StillNo(q + [last], n, yes, no) == if Fills(q, no, n) then 1 else 0
  {
    if q == [] {
      assert (q + [last])[1..] == [];
    } else {
      assert (q + [last])[1..] == q[1..] + [last];
      assert q[0] in q && forall r :: r in q[1..] ==> r in q;
    }
  }

  lemma Asked(t: Tree, t': Tree, j: Job, hits: nat, misses: nat)
    requires IsJob(j) && hits <= (if j.clean then 1 else 0) && misses <= |t'.kids|
    requires j.clean ==> hits + misses == |t'.kids|
    requires Rested(Of(t.node.records, JobKind(j)), |t'.kids|, j.clean)
    requires t'.node.records == t.node.records + [Fresh(JobKind(j))]
    requires OwedYes(t, j) == hits
    requires OwedNo(t, j) == if Fills(Of(t.node.records, JobKind(j)), misses, |t'.kids|) then 1 else 0
    requires AllBeats(t.up) && Sound(t') && t'.down == [] && t'.up == t.up && t'.kids != []
    requires t'.node.id == t.node.id && t'.attached == t.attached
    requires forall i :: 0 <= i < |t'.kids| ==> Inv(t'.kids[i], j)
    requires SumYes(t'.kids, j) == hits && SumNo(t'.kids, j) == misses
    ensures Kept(t, t', j)
  {
    NoAnswers(t.up, j);
    AskTally(Of(t.node.records, JobKind(j)), |t'.kids|, hits, misses, j.clean, Fresh(JobKind(j)));
    AppendedOf(t.node.records, JobKind(j), JobKind(j));
    Settled(t', j, hits, misses);
  }

  /** What the process owes while the command waits, by the answers of its children. */
  lemma AskOwes(t: Tree, j: Job)
    requires IsJob(j) && Sound(t) && Waiting(t, j) && Decide(t.node, j).Ask?
    ensures var hits, misses := HitsAll(t.kids, j), MissesAll(t.kids, j);
      && OwedYes(t, j) == hits <= (if j.clean then 1 else 0)
      && OwedNo(t, j) == (if Fills(Of(t.node.records, JobKind(j)), misses, |t.kids|) then 1 else 0)
      && misses <= |t.kids| && (j.clean ==> hits + misses == |t.kids|)
  {
    WaitingOwes(t, j);
    MissesBound(t.kids, j);
    if j.clean {
      FreshAllAnswer(t.kids, j);
    }
  }

  lemma TakeAsk(t: Tree, j: Job, node: NodeState)
    requires IsJob(j) && Sound(t) && UpOk(t.up, j) && Waiting(t, j) && Decide(t.node, j).Ask?
    requires node == t.node.(records := t.node.records + [Fresh(JobKind(j))])
    ensures Kept(t, Handled(t, node, [], Broadcast(t.kids, [Do(j.cmd, j.fork)])), j)
  {
    var t' := Handled(t, node, [], Broadcast(t.kids, [Do(j.cmd, j.fork)]));
    assert t'.up == t.up;
    AskOwes(t, j);
    HandedOut(t.kids, j);
    Asked(t, t', j, HitsAll(t.kids, j), MissesAll(t.kids, j));
  }

  lemma TakeKeeps(t: Tree, j: Job)
    requires IsJob(j) && Inv(t, j) && t.down != []
    ensures Kept(t, ApplyTake(t), j)
  {
    TakeEffect(t, j);
    TakeShape(t, j);
    var node := OnOrder(t.node, t.down[0]).node;
    match Decide(t.node, j)
    case SayYes => TakeYes(t, j, node);
    case SayNo => TakeNo(t, j, node);
    case Ask => TakeAsk(t, j, node);
  }

  /** A heartbeat on the link upwards changes nothing that is owed. */
  lemma BeatKeeps(t: Tree, time: int, j: Job)
    requires IsJob(j) && Inv(t, j)
    ensures Kept(t, t.(up := t.up + [Heartbeat(t.node.id, time)]), j)
  {
    var t' := t.(up := t.up + [Heartbeat(t.node.id, time)]);
    UpGains(t.up, Heartbeat(t.node.id, time), Yes(j));
    UpGains(t.up, Heartbeat(t.node.id, time), No(j));
    SameAnswer(t, t', j);
    BeatOwes(t, t', j);
    if t.down != [] {
      WaitingOwes(t', j);
    }
  }

  lemma BeatOwes(t: Tree, t': Tree, j: Job)
    requires t' == t.(up := t'.up) && Hits(t', j) == Hits(t, j) && Misses(t', j) == Misses(t, j)
    requires multiset(t'.up)[Yes(j)] == multiset(t.up)[Yes(j)] && multiset(t'.up)[No(j)] == multiset(t.up)[No(j)]
    ensures OwedYes(t', j) == OwedYes(t, j) && OwedNo(t', j) == OwedNo(t, j)
  {
  }

  lemma PopChild(kid: Tree, j: Job)
    requires IsJob(j) && Inv(kid, j) && kid.up != []
    ensures Inv(Pop(kid), j)
    ensures OwedYes(Pop(kid), j) == OwedYes(kid, j) - if kid.up[0] == Yes(j) then 1 else 0
    ensures OwedNo(Pop(kid), j) == OwedNo(kid, j) - if kid.up[0] == No(j) then 1 else 0
  {
    assert kid.up == [kid.up[0]] + kid.up[1..];
    assert multiset(kid.up) == multiset([kid.up[0]]) + multiset(kid.up[1..]);
  }

  /** The sums over the children after response i is taken off its link. */
  lemma PopSums(t: Tree, i: nat, j: Job)
    requires IsJob(j) && Inv(t, j) && i < |t.kids| && t.kids[i].up != []
    ensures var r := t.kids[i].up[0];
      var kids := t.kids[i := Pop(t.kids[i])];
      && SumYes(kids, j) == SumYes(t.kids, j) - (if r == Yes(j) then 1 else 0)
      && SumNo(kids, j) == SumNo(t.kids, j) - (if r == No(j) then 1 else 0)
      && (forall k :: 0 <= k < |kids| ==> Inv(kids[k], j))
      && (r.Heartbeat? || r == Yes(j) || r == No(j))
  {
    PopChild(t.kids[i], j);
    SumUpdate(t.kids, i, Pop(t.kids[i]), j);
    assert t.kids[i].up[0] in t.kids[i].up;
  }

  /** While the command waits, the links from the children carry heartbeats only. */
  lemma WaitingLinks(t: Tree, i: nat, j: Job)
    requires IsJob(j) && Inv(t, j) && i < |t.kids|
    ensures t.down != [] ==> AllBeats(t.kids[i].up)
  {
  }

  lemma AnswerIsOwed(t: Tree, r: Response, j: Job)
    requires IsJob(j) && r in t.up && (r == Yes(j) || r == No(j))
    ensures OwedYes(t, j) + OwedNo(t, j) > 0
  {
    assert multiset(t.up)[r] > 0;
  }

  /** An answer on the link from a child: the command was passed on and a record waits for it. */
  lemma AnswerArrived(t: Tree, i: nat, j: Job)
    requires IsJob(j) && Inv(t, j) && i < |t.kids| && t.kids[i].up != [] && !t.kids[i].up[0].Heartbeat?
    ensures t.down == []
    ensures SumYes(t.kids, j) + SumNo(t.kids, j) > 0
    ensures Of(t.node.records, JobKind(j)) != []
  {
    var r := t.kids[i].up[0];
    assert r in t.kids[i].up;
    WaitingLinks(t, i, j);
    AnswerIsOwed(t.kids[i], r, j);
    SumMember(t.kids, i, j);
  }

  /** In every reachable state a response finds its record. */
  lemma LookupSafe(t: Tree, i: nat, j: Job)
    requires IsJob(j) && Inv(t, j) && i < |t.kids| && t.kids[i].up != []
    ensures LookupOk(t.node, t.kids[i].up[0])
  {
    var r := t.kids[i].up[0];
    assert r in t.kids[i].up;
    if !r.Heartbeat? {
      AnswerArrived(t, i, j);
      Missing(t.node.records, JobKind(j));
    }
  }

  /** The tree after response i was counted. */
  ghost function AfterCount(t: Tree, i: nat, node: NodeState, up: seq<Response>): Tree
    requires i < |t.kids| && t.kids[i].up != []
  {
    Tree(node, t.attached, t.exited, t.down, t.up + up, t.kids[i := Pop(t.kids[i])],
         t.counted + [t.kids[i].up[0]], t.relayed + up)
  }

  /** In an idle tree only heartbeats move. */
  ghost predicate StillIdle(t: Tree, t': Tree, j: Job) {
    && Idle(t', JobKind(j), j.clean)
    && t'.node.id == t.node.id && t'.attached == t.attached
    && Hits(t', j) == Hits(t, j) && Misses(t', j) == Misses(t, j)
    && (Clear(t, j) ==> Clear(t', j))
  }

  /** Replacing a child subtree by one that looks the same to the command. */
  lemma {:induction false} SameHits(ts: seq<Tree>, i: nat, t: Tree, j: Job)
    requires i < |ts| && Hits(t, j) == Hits(ts[i], j)
    ensures HitsAll(ts[i := t], j) == HitsAll(ts, j)
  {
    if i == 0 {
      assert ts[i := t][1..] == ts[1..];
    } else {
      assert ts[i := t][1..] == ts[1..][i - 1 := t];
      SameHits(ts[1..], i - 1, t, j);
    }
  }

  lemma {:induction false} SameMisses(ts: seq<Tree>, i: nat, t: Tree, j: Job)
    requires i < |ts| && Misses(t, j) == Misses(ts[i], j)
    ensures MissesAll(ts[i := t], j) == MissesAll(ts, j)
  {
    if i == 0 {
      assert ts[i := t][1..] == ts[1..];
    } else {
      assert ts[i := t][1..] == ts[1..][i - 1 := t];
      SameMisses(ts[1..], i - 1, t, j);
    }
  }

  /** The answer depends on what the process is, on its records and on the answers below. */
  lemma SameAnswer(t: Tree, t': Tree, j: Job)
    requires t'.node.id == t.node.id && t'.node.manager == t.node.manager && t'.node.records == t.node.records
    requires |t'.node.children| == |t.node.children| && |t'.kids| == |t.kids|
    requires HitsAll(t'.kids, j) == HitsAll(t.kids, j) && MissesAll(t'.kids, j) == MissesAll(t.kids, j)
    ensures Decide(t'.node, j) == Decide(t.node, j)
    ensures Hits(t', j) == Hits(t, j) && Misses(t', j) == Misses(t, j)
  {
  }

  lemma PoppedIdle(kid: Tree, j: Job)
    requires Idle(kid, JobKind(j), j.clean) && kid.up != []
    ensures StillIdle(kid, Pop(kid), j)
  {
  }

  /** One idle subtree replaced below a process that still has the command in front of it. */
  lemma WaitingReplaced(t: Tree, t': Tree, i: nat, kid: Tree, j: Job)
    requires IsJob(j) && Sound(t) && UpOk(t.up, j) && Waiting(t, j)
    requires i < |t.kids| && StillIdle(t.kids[i], kid, j) && t'.kids == t.kids[i := kid]
    requires t'.node.records == t.node.records && t'.node.id == t.node.id && t'.node.manager == t.node.manager
    requires |t'.node.children| == |t.node.children|
    requires t'.down == t.down && t'.up == t.up && t'.attached == t.attached && Sound(t')
    ensures Kept(t, t', j)
  {
    SameHits(t.kids, i, kid, j);
    SameMisses(t.kids, i, kid, j);
    SameAnswer(t, t', j);
    WaitingOwes(t, j);
    WaitingOwes(t', j);
  }

  lemma CountBeatSettled(t: Tree, i: nat, j: Job, t': Tree)
    requires IsJob(j) && Inv(t, j) && t.down == [] && i < |t.kids| && t.kids[i].up != [] && t.kids[i].up[0].Heartbeat?
    requires t'.kids == t.kids[i := Pop(t.kids[i])] && t'.node.records == t.node.records && t'.node.id == t.node.id
    requires t'.down == t.down && t'.up == t.up && t'.attached == t.attached && Sound(t')
    ensures Kept(t, t', j)
  {
    PopSums(t, i, j);
    Unsettled(t, j, SumYes(t.kids, j), SumNo(t.kids, j));
    Settled(t', j, SumYes(t.kids, j), SumNo(t.kids, j));
  }

  lemma StampedSound(t: Tree, i: nat, children: seq<Child>)
    requires Sound(t) && i < |t.kids| && t.kids[i].up != [] && |children| == |t.node.children|
    requires forall k :: 0 <= k < |children| ==> children[k].id == t.node.children[k].id
    ensures var t' := AfterCount(t, i, t.node.(children := children), []);
      Sound(t') && t'.up == t.up
  {
    assert t.up + [] == t.up;
  }

  lemma CountBeat(t: Tree, i: nat, j: Job, children: seq<Child>)
    requires IsJob(j) && Inv(t, j) && i < |t.kids| && t.kids[i].up != [] && t.kids[i].up[0].Heartbeat?
    requires |children| == |t.node.children|
    requires forall k :: 0 <= k < |children| ==> children[k].id == t.node.children[k].id
    ensures Kept(t, AfterCount(t, i, t.node.(children := children), []), j)
  {
    var t' := AfterCount(t, i, t.node.(children := children), []);
    StampedSound(t, i, children);
    if t.down == [] {
      CountBeatSettled(t, i, j, t');
    } else {
      PoppedIdle(t.kids[i], j);
      WaitingReplaced(t, t', i, Pop(t.kids[i]), j);
    }
  }

  /** Counting an answer: the head of the record list and the sums move together. */
  lemma TallyCounts(q: seq<Record>, q': seq<Record>, n: nat, yes: nat, no: nat, clean: bool, good: bool, out: bool)
    requires q != [] && Tally(q, n, yes, no, clean) && (if good then yes > 0 else no > 0)
    requires
      var rec := Counted(q[0], good);
      if rec.count == n && (good || !rec.good) then q' == q[1..] && out
      else q' == [rec] + q[1..] && (out <==> good)
    ensures var yes', no' := if good then yes - 1 else yes, if good then no else no - 1;
      && Tally(q', n, yes', no', clean)
      && StillNo(q, n, yes, no) == StillNo(q', n, yes', no') + if out && !good then 1 else 0
  {
    var rest := q[1..];
    assert ([Counted(q[0], good)] + rest)[1..] == rest;
    assert rest != [] ==> rest[0] in rest;
    assert forall r :: r in rest[if rest == [] then 0 else 1..] ==> r in rest;
  }

  /** What counting an answer may leave of the record list (see CountedOf). */
  ghost predicate CountsTo(t: Tree, j: Job, r: Response, node: NodeState, up: seq<Response>) {
    var q := Of(t.node.records, JobKind(j));
    && q != []
    && node == t.node.(records := node.records)
    && var rec := Counted(q[0], IsGood(r));
       if rec.count == |t.kids| && (IsGood(r) || !rec.good)
       then up == [r] && Of(node.records, JobKind(j)) == q[1..]
       else up == (if IsGood(r) then [r] else []) && Of(node.records, JobKind(j)) == [rec] + q[1..]
  }

  lemma CountedTally(t: Tree, r: Response, i: nat, j: Job, node: NodeState, up: seq<Response>)
    requires IsJob(j) && i < |t.kids| && r in t.kids[i].up
    requires Tally(Of(t.node.records, JobKind(j)), |t.kids|, SumYes(t.kids, j), SumNo(t.kids, j), j.clean)
    requires (r == Yes(j) || r == No(j)) && CountsTo(t, j, r, node, up)
    ensures var q, q' := Of(t.node.records, JobKind(j)), Of(node.records, JobKind(j));
      var yes, no := SumYes(t.kids, j), SumNo(t.kids, j);
      var yes', no' := if IsGood(r) then yes - 1 else yes, if IsGood(r) then no else no - 1;
      && IsGood(r) == (r == Yes(j)) && yes' >= 0 && no' >= 0
      && Tally(q', |t.kids|, yes', no', j.clean)
      && StillNo(q, |t.kids|, yes, no) == StillNo(q', |t.kids|, yes', no') + if up == [r] && !IsGood(r) then 1 else 0
  {
    AnswerCounted(t, j, r, i);
    CountsOut(Of(t.node.records, JobKind(j)), Of(node.records, JobKind(j)), |t.kids|, r, up);
    TallyCounts(Of(t.node.records, JobKind(j)), Of(node.records, JobKind(j)), |t.kids|,
                SumYes(t.kids, j), SumNo(t.kids, j), j.clean, IsGood(r), up == [r]);
  }

  lemma CountsOut(q: seq<Record>, q': seq<Record>, n: nat, r: Response, up: seq<Response>)
    requires q != []
    requires var rec := Counted(q[0], IsGood(r));
      if rec.count == n && (IsGood(r) || !rec.good) then up == [r] && q' == q[1..]
      else up == (if IsGood(r) then [r] else []) && q' == [rec] + q[1..]
    ensures var rec := Counted(q[0], IsGood(r));
      if rec.count == n && (IsGood(r) || !rec.good) then q' == q[1..] && up == [r]
      else q' == [rec] + q[1..] && (up == [r] <==> IsGood(r))
  {
  }

  lemma CountAnswer(t: Tree, i: nat, j: Job, node: NodeState, up: seq<Response>)
    requires IsJob(j) && Inv(t, j) && t.down == [] && i < |t.kids| && t.kids[i].up != []
    requires t.kids[i].up[0] == Yes(j) || t.kids[i].up[0] == No(j)
    requires CountsTo(t, j, t.kids[i].up[0], node, up)
    ensures Kept(t, AfterCount(t, i, node, up), j)
  {
    var r := t.kids[i].up[0];
    PopSums(t, i, j);
    CountedTally(t, r, i, j, node, up);
    CountedSound(t, i, node, up);
    Counts(t, AfterCount(t, i, node, up), j, r, up == [r], SumYes(t.kids, j), SumNo(t.kids, j));
  }

  lemma CountedSound(t: Tree, i: nat, node: NodeState, up: seq<Response>)
    requires Sound(t) && i < |t.kids| && t.kids[i].up != [] && node == t.node.(records := node.records)
    ensures Sound(AfterCount(t, i, node, up))
    ensures up == [] ==> AfterCount(t, i, node, up).up == t.up
  {
    assert t.up + [] == t.up;
  }

  /** What is owed does not change when an answer is taken off one link and put on the next, or
      kept in a record. */
  lemma Counts(t: Tree, t': Tree, j: Job, r: Response, out: bool, yes: nat, no: nat)
    requires t.down == [] && Sound(t) && UpOk(t.up, j) && yes == SumYes(t.kids, j) && no == SumNo(t.kids, j)
    requires Sound(t') && t'.down == [] && t'.up == (if out then t.up + [r] else t.up)
    requires t'.node.id == t.node.id && t'.attached == t.attached
    requires forall i :: 0 <= i < |t'.kids| ==> Inv(t'.kids[i], j)
    requires (r == Yes(j) || r == No(j)) && Yes(j) != No(j)
    requires SumYes(t'.kids, j) == if r == Yes(j) then yes - 1 else yes
    requires SumNo(t'.kids, j) == if r == Yes(j) then no else no - 1
    requires r == Yes(j) ==> out
    requires var q' := Of(t'.node.records, JobKind(j));
      && Tally(q', |t'.kids|, SumYes(t'.kids, j), SumNo(t'.kids, j), j.clean)
      && StillNo(Of(t.node.records, JobKind(j)), |t.kids|, yes, no)
        == StillNo(q', |t'.kids|, SumYes(t'.kids, j), SumNo(t'.kids, j)) + if out && r != Yes(j) then 1 else 0
    ensures Kept(t, t', j)
  {
    UpGains(t.up, r, Yes(j));
    UpGains(t.up, r, No(j));
    Unsettled(t, j, yes, no);
    Settled(t', j, SumYes(t'.kids, j), SumNo(t'.kids, j));
  }

  /** An answer under way is part of the sums. */
  lemma AnswerCounted(t: Tree, j: Job, r: Response, i: nat)
    requires IsJob(j) && i < |t.kids| && r in t.kids[i].up && (r == Yes(j) || r == No(j))
    ensures IsGood(r) == (r == Yes(j))
    ensures if IsGood(r) then SumYes(t.kids, j) > 0 else SumNo(t.kids, j) > 0
  {
    assert multiset(t.kids[i].up)[r] > 0;
    SumMember(t.kids, i, j);
  }

  lemma CountShape(t: Tree, i: nat)
    requires i < |t.kids| && t.kids[i].up != [] && LookupOk(t.node, t.kids[i].up[0])
    ensures var e := OnResponse(t.node, t.kids[i].up[0]);
      ApplyCount(t, i) == AfterCount(t, i, e.node, e.up)
  {
  }

  lemma CountKeeps(t: Tree, i: nat, j: Job)
    requires IsJob(j) && Inv(t, j) && Enabled(t, Count(i))
    ensures Kept(t, ApplyCount(t, i), j)
  {
    var r := t.kids[i].up[0];
    assert r in t.kids[i].up;
    CountShape(t, i);
    var e := OnResponse(t.node, r);
    if r.Heartbeat? {
      CountBeat(t, i, j, e.node.children);
    } else {
      AnswerArrived(t, i, j);
      CountedOf(t.node, r, JobKind(j));
      CountAnswer(t, i, j, e.node, e.up);
    }
  }

  // ---------------------------------------------------------------- moves below the root

  /** An idle tree with one subtree replaced by one that is idle too. */
  lemma ReplacedIdle(t: Tree, t': Tree, i: nat, kid: Tree, j: Job)
    requires Idle(t, JobKind(j), j.clean) && i < |t.kids| && StillIdle(t.kids[i], kid, j)
    requires t'.kids == t.kids[i := kid] && t'.down == t.down && t'.up == t.up && t'.attached == t.attached
    requires t'.node.records == t.node.records && t'.node.id == t.node.id && t'.node.manager == t.node.manager
    requires |t'.node.children| == |t.node.children| && Sound(t')
    ensures StillIdle(t, t', j)
  {
    SameHits(t.kids, i, kid, j);
    SameMisses(t.kids, i, kid, j);
    SameAnswer(t, t', j);
  }

  lemma IdleCountBeat(t: Tree, i: nat, j: Job, children: seq<Child>)
    requires Idle(t, JobKind(j), j.clean) && i < |t.kids| && t.kids[i].up != [] && |children| == |t.node.children|
    requires forall k :: 0 <= k < |children| ==> children[k].id == t.node.children[k].id
    ensures StillIdle(t, AfterCount(t, i, t.node.(children := children), []), j)
  {
    PoppedIdle(t.kids[i], j);
    var t' := AfterCount(t, i, t.node.(children := children), []);
    assert t'.up == t.up;
    ReplacedIdle(t, t', i, Pop(t.kids[i]), j);
  }

  lemma IdleCount(t: Tree, i: nat, j: Job)
    requires Idle(t, JobKind(j), j.clean) && Enabled(t, Count(i))
    ensures StillIdle(t, ApplyCount(t, i), j)
  {
    var r := t.kids[i].up[0];
    assert r in t.kids[i].up && r.Heartbeat?;
    CountShape(t, i);
    IdleCountBeat(t, i, j, OnResponse(t.node, r).node.children);
  }

  lemma {:induction false} IdleStep(t: Tree, m: Move, j: Job)
    requires Idle(t, JobKind(j), j.clean) && Enabled(t, m) && Calm(m)
    ensures StillIdle(t, Apply(t, m), j)
    decreases m
  {
    match m
    case Take =>
    case Count(i) => IdleCount(t, i, j);
    case Beat(time) =>
    case Inside(i, m') =>
      IdleStep(t.kids[i], m', j);
      ReplacedIdle(t, Apply(t, m), i, Apply(t.kids[i], m'), j);
    case Sweep(_) =>
    case Exit =>
  }

  /** A move below a process that still has the command in front of it. */
  lemma InsideWaiting(t: Tree, i: nat, m: Move, j: Job)
    requires IsJob(j) && Inv(t, j) && t.down != [] && i < |t.kids| && Enabled(t.kids[i], m) && Calm(m)
    ensures Kept(t, t.(kids := t.kids[i := Apply(t.kids[i], m)]), j)
  {
    IdleStep(t.kids[i], m, j);
    WaitingReplaced(t, t.(kids := t.kids[i := Apply(t.kids[i], m)]), i, Apply(t.kids[i], m), j);
  }

  lemma InsideSettled(t: Tree, i: nat, kid: Tree, j: Job)
    requires IsJob(j) && Inv(t, j) && t.down == [] && i < |t.kids| && Kept(t.kids[i], kid, j)
    ensures Kept(t, t.(kids := t.kids[i := kid]), j)
  {
    SumUpdate(t.kids, i, kid, j);
    Unsettled(t, j, SumYes(t.kids, j), SumNo(t.kids, j));
    Settled(t.(kids := t.kids[i := kid]), j, SumYes(t.kids, j), SumNo(t.kids, j));
  }

  /** No calm move changes what is owed, wherever in the tree it happens. */
  lemma {:induction false} Step(t: Tree, m: Move, j: Job)
    requires IsJob(j) && Inv(t, j) && Enabled(t, m) && Calm(m)
    ensures Kept(t, Apply(t, m), j)
    decreases m
  {
    match m
    case Take => TakeKeeps(t, j);
    case Count(i) => CountKeeps(t, i, j);
    case Beat(time) => BeatKeeps(t, time, j);
    case Inside(i, m') =>
      if t.down != [] {
        InsideWaiting(t, i, m', j);
      } else {
        Step(t.kids[i], m', j);
        InsideSettled(t, i, Apply(t.kids[i], m'), j);
      }
    case Sweep(_) =>
    case Exit =>
  }

  lemma {:induction false} RunKeeps(t: Tree, ms: seq<Move>, j: Job)
    requires IsJob(j) && Inv(t, j) && Possible(t, ms) && AllCalm(ms)
    ensures Kept(t, Run(t, ms), j)
    decreases |ms|
  {
    if ms != [] {
      Step(t, ms[0], j);
      RunKeeps(Apply(t, ms[0]), ms[1..], j);
    }
  }
}

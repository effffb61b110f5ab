/**
The records a single command leaves behind.  The tree is ready for the next command of
the same type exactly when, at every process between the manager and the one that said
yes, the good answer was the last of the answers counted.
*/
module RecordsAfter {
  import opened Messages
  import opened NodeSpec
  import opened Records
  import opened TreeSystem
  import opened SingleCommand
  import opened OneAnswer

  /** A command for a tree with fresh records only. */
  predicate CleanJob(j: Job) {
    IsJob(j) && j.clean
  }

  /** The last answer in a log of responses; heartbeats do not matter. */
  function LastAnswer(log: seq<Response>): Option<Response> {
    if log == [] then None
    else if log[|log| - 1].Heartbeat? then LastAnswer(log[..|log| - 1])
    else Some(log[|log| - 1])
  }

  /** A process that waits for the good answer of one of its children. */
  predicate OnPath(t: Tree, j: Job) {
    Decide(t.node, j).Ask? && Hits(t, j) > 0
  }

  /** On the way to the process that said yes, the good answer was counted last. */
  predicate GoodLast(t: Tree, j: Job)
    decreases t
  {
    OnPath(t, j) ==>
      && LastAnswer(t.counted) == Some(Yes(j))
      && forall i :: 0 <= i < |t.kids| ==> GoodLast(t.kids[i], j)
  }

  /** The logs start empty. */
  predicate NewLogs(t: Tree)
    decreases t
  {
    t.counted == [] && forall i :: 0 <= i < |t.kids| ==> NewLogs(t.kids[i])
  }

  // ---------------------------------------------------------------- the history invariant

  /** No good answer has been here. */
  ghost predicate NoYes(t: Tree, j: Job)
    decreases t
  {
    && Yes(j) !in t.counted && Yes(j) !in t.up && !Seen(t, j)
    && forall i :: 0 <= i < |t.kids| ==> NoYes(t.kids[i], j)
  }

  /** What the log says about the record, at a process on the path. */
  ghost predicate LogFits(t: Tree, j: Job) {
    var q := Of(t.node.records, JobKind(j));
    && (Seen(t, j) ==> Yes(j) in t.counted)
    && (Yes(j) in t.counted && !Seen(t, j) ==>
          LastAnswer(t.counted) == Some(Yes(j)) && SumYes(t.kids, j) == 0 && SumNo(t.kids, j) == 0)
    && (Seen(t, j) && q[0].count == |t.kids| ==> LastAnswer(t.counted) == Some(No(j)))
  }

  /** `consumed`: the parent has taken the good answer of this subtree off its link. */
  ghost predicate Hist(t: Tree, j: Job, consumed: bool)
    decreases t
  {
    && Hits(t, j) <= 1
    && !(consumed && Yes(j) in t.up)
    && if Hits(t, j) == 0 then NoYes(t, j)
       else if t.down != [] then NoYes(t, j) && !consumed
       else if Decide(t.node, j).SayYes? then
         && Yes(j) !in t.counted && !Seen(t, j)
         && forall i :: 0 <= i < |t.kids| ==> NoYes(t.kids[i], j) && Idle(t.kids[i], JobKind(j), j.clean)
       else
         && LogFits(t, j)
         && (Yes(j) in t.counted <==> consumed || Yes(j) in t.up)
         && forall i :: 0 <= i < |t.kids| ==>
              Hist(t.kids[i], j, Hits(t.kids[i], j) > 0 && Yes(j) in t.counted)
  }

  lemma {:induction false} HitsMember(ts: seq<Tree>, i: nat, k: nat, j: Job)
    requires i < |ts| && k < |ts|
    ensures Hits(ts[i], j) <= HitsAll(ts, j)
    ensures i != k ==> Hits(ts[i], j) + Hits(ts[k], j) <= HitsAll(ts, j)
  {
    if i > 0 && k > 0 {
      HitsMember(ts[1..], i - 1, k - 1, j);
    } else if i > 0 {
      HitsMember(ts[1..], i - 1, i - 1, j);
    } else if k > 0 {
      HitsMember(ts[1..], k - 1, k - 1, j);
    }
  }

  // ---------------------------------------------------------------- the number of hits stays

  lemma {:induction false} HitsBroadcast(ts: seq<Tree>, o: seq<Order>, j: Job)
    ensures HitsAll(Broadcast(ts, o), j) == HitsAll(ts, j)
  {
    if ts != [] {
      assert Broadcast(ts, o)[1..] == Broadcast(ts[1..], o);
      HitsBroadcast(ts[1..], o, j);
    }
  }

  lemma TakeHits(t: Tree, j: Job)
    requires CleanJob(j) && Inv(t, j) && t.down != []
    ensures Hits(ApplyTake(t), j) == Hits(t, j)
    ensures Decide(ApplyTake(t).node, j) == Decide(t.node, j)
  {
    TakeShape(t, j);
    TakeEffect(t, j);
    HitsBroadcast(t.kids, [Do(j.cmd, j.fork)], j);
  }

  lemma CountHits(t: Tree, i: nat, j: Job)
    requires CleanJob(j) && Enabled(t, Count(i))
    ensures Hits(ApplyCount(t, i), j) == Hits(t, j)
    ensures Decide(ApplyCount(t, i).node, j) == Decide(t.node, j)
  {
    CountShape(t, i);
    PopHits(t.kids[i], j);
    SameHits(t.kids, i, Pop(t.kids[i]), j);
    HitsFrom(t, ApplyCount(t, i), j);
  }

  lemma PopHits(kid: Tree, j: Job)
    requires kid.up != []
    ensures Hits(Pop(kid), j) == Hits(kid, j)
  {
  }

  /** The hits depend on what the process is and on the hits below it. */
  lemma HitsFrom(t: Tree, t': Tree, j: Job)
    requires t'.node.id == t.node.id && t'.node.manager == t.node.manager
    requires |t'.node.children| == |t.node.children| && HitsAll(t'.kids, j) == HitsAll(t.kids, j)
    ensures Hits(t', j) == Hits(t, j) && Decide(t'.node, j) == Decide(t.node, j)
  {
  }

  lemma {:induction false} StepHits(t: Tree, m: Move, j: Job)
    requires CleanJob(j) && Inv(t, j) && Enabled(t, m) && Calm(m)
    ensures Hits(Apply(t, m), j) == Hits(t, j)
    decreases m
  {
    match m
    case Take => TakeHits(t, j);
    case Count(i) => CountHits(t, i, j);
    case Beat(time) =>
    case Inside(i, m') =>
      StepHits(t.kids[i], m', j);
      SameHits(t.kids, i, Apply(t.kids[i], m'), j);
    case Sweep(_) =>
    case Exit =>
  }

  // ---------------------------------------------------------------- where no good answer comes

  lemma AddedLog(log: seq<Response>, r: Response, x: Response)
    ensures x in log + [r] <==> x in log || r == x
    ensures LastAnswer(log + [r]) == if r.Heartbeat? then LastAnswer(log) else Some(r)
  {
    assert (log + [r])[..|log|] == log;
  }

  lemma {:induction false} NoYesHandedOut(ts: seq<Tree>, o: seq<Order>, i: nat, j: Job)
    requires i < |ts| && NoYes(ts[i], j)
    ensures NoYes(Broadcast(ts, o)[i], j)
  {
  }

  lemma NoYesTake(t: Tree, j: Job)
    requires CleanJob(j) && Inv(t, j) && t.down != [] && NoYes(t, j) && Hits(t, j) == 0
    ensures NoYes(ApplyTake(t), j)
  {
    TakeShape(t, j);
    TakeEffect(t, j);
    AppendedOf(t.node.records, JobKind(j), JobKind(j));
    var t' := ApplyTake(t);
    assert !Seen(t', j);
    if Decide(t.node, j).Ask? {
      forall i | 0 <= i < |t'.kids| ensures NoYes(t'.kids[i], j) {
        NoYesHandedOut(t.kids, [Do(j.cmd, j.fork)], i, j);
      }
    }
  }

  lemma NoYesPop(kid: Tree, j: Job)
    requires NoYes(kid, j) && kid.up != []
    ensures NoYes(Pop(kid), j) && kid.up[0] != Yes(j)
  {
  }

  /** Counting anything but the good answer. */
  lemma CountOther(t: Tree, i: nat, j: Job)
    requires CleanJob(j) && Inv(t, j) && Enabled(t, Count(i)) && t.kids[i].up[0] != Yes(j)
    ensures var t' := ApplyCount(t, i);
      && t'.kids == t.kids[i := Pop(t.kids[i])]
      && t'.counted == t.counted + [t.kids[i].up[0]]
      && (Yes(j) in t'.up <==> Yes(j) in t.up)
      && (Seen(t', j) ==> Seen(t, j))
      && t'.down == t.down
  {
    var r := t.kids[i].up[0];
    assert r in t.kids[i].up;
    CountShape(t, i);
    if !r.Heartbeat? {
      AnswerArrived(t, i, j);
      CountedOf(t.node, r, JobKind(j));
    }
  }

  lemma NoYesCount(t: Tree, i: nat, j: Job)
    requires CleanJob(j) && Inv(t, j) && Enabled(t, Count(i)) && NoYes(t, j)
    ensures NoYes(ApplyCount(t, i), j)
  {
    NoYesPop(t.kids[i], j);
    CountOther(t, i, j);
    AddedLog(t.counted, t.kids[i].up[0], Yes(j));
  }

  lemma {:induction false} NoYesStep(t: Tree, m: Move, j: Job)
    requires CleanJob(j) && Inv(t, j) && Enabled(t, m) && Calm(m) && NoYes(t, j)
    requires Hits(t, j) == 0 || Idle(t, JobKind(j), j.clean)
    ensures NoYes(Apply(t, m), j)
    decreases m
  {
    match m
    case Take => NoYesTake(t, j);
    case Count(i) => NoYesCount(t, i, j);
    case Beat(time) =>
    case Inside(i, m') =>
      if Hits(t, j) == 0 && !Idle(t.kids[i], JobKind(j), j.clean) {
        NotIdleBelow(t, i, j);
      }
      NoYesStep(t.kids[i], m', j);
    case Sweep(_) =>
    case Exit =>
  }

  /** Nobody below says yes when nobody in the tree does. */
  lemma NotIdleBelow(t: Tree, i: nat, j: Job)
    requires CleanJob(j) && Inv(t, j) && i < |t.kids| && Hits(t, j) == 0
    ensures Hits(t.kids[i], j) == 0
  {
    if Decide(t.node, j).Ask? {
      HitsMember(t.kids, i, i, j);
    } else {
      FailedHits(t.kids[i], j);
    }
  }

  // ---------------------------------------------------------------- the history invariant, move by move

  lemma HistTake(t: Tree, j: Job, consumed: bool)
    requires CleanJob(j) && Inv(t, j) && t.down != [] && Hist(t, j, consumed) && Hits(t, j) == 1
    ensures Hist(ApplyTake(t), j, consumed)
  {
    TakeShape(t, j);
    TakeEffect(t, j);
    TakeHits(t, j);
    AppendedOf(t.node.records, JobKind(j), JobKind(j));
    if Decide(t.node, j).SayYes? {
      LeafIdle(if j.cmd.Create? then j.cmd.newNodeId else 0, JobKind(j));
    } else {
      HistAsked(t, j);
    }
  }

  lemma HistAsked(t: Tree, j: Job)
    requires CleanJob(j) && Inv(t, j) && t.down != [] && NoYes(t, j) && Hits(t, j) == 1 && Decide(t.node, j).Ask?
    ensures forall i :: 0 <= i < |t.kids| ==>
      Hist(Broadcast(t.kids, [Do(j.cmd, j.fork)])[i], j, false)
  {
    var o := [Do(j.cmd, j.fork)];
    forall i | 0 <= i < |t.kids| ensures Hist(Broadcast(t.kids, o)[i], j, false) {
      HitsMember(t.kids, i, i, j);
      assert t.kids[i].down + o == o;
      NoYesHandedOut(t.kids, o, i, j);
    }
  }

  /** Taking a response off a child's link. */
  lemma HistPop(kid: Tree, j: Job, consumed: bool)
    requires CleanJob(j) && Inv(kid, j) && Hist(kid, j, consumed) && kid.up != []
    requires kid.up[0] == Yes(j) ==> Yes(j) !in kid.up[1..]
    ensures kid.up[0] != Yes(j) ==> Hist(Pop(kid), j, consumed)
    ensures kid.up[0] == Yes(j) ==> !consumed && Hits(kid, j) == 1 && Hist(Pop(kid), j, true)
  {
    assert kid.up == [kid.up[0]] + kid.up[1..];
    assert LogFits(Pop(kid), j) == LogFits(kid, j);
  }

  /** The good answer arrives once. */
  lemma YesOnce(t: Tree, i: nat, j: Job)
    requires CleanJob(j) && Inv(t, j) && i < |t.kids| && t.kids[i].up != [] && t.kids[i].up[0] == Yes(j)
    ensures Yes(j) !in t.kids[i].up[1..]
    ensures !Seen(t, j)
  {
    AnswerArrived(t, i, j);
    SumMember(t.kids, i, j);
    var up := t.kids[i].up;
    var rest := up[1..];
    assert up == [up[0]] + rest;
    assert multiset(up) == multiset([up[0]]) + multiset(rest);
    assert multiset(rest)[Yes(j)] == 0;
  }

  lemma CountsToNode(t: Tree, i: nat, j: Job)
    requires CleanJob(j) && Inv(t, j) && Enabled(t, Count(i)) && !t.kids[i].up[0].Heartbeat?
    ensures var e := OnResponse(t.node, t.kids[i].up[0]);
      && CountsTo(t, j, t.kids[i].up[0], e.node, e.up)
      && ApplyCount(t, i) == AfterCount(t, i, e.node, e.up)
  {
    assert t.kids[i].up[0] in t.kids[i].up;
    CountedOf(t.node, t.kids[i].up[0], JobKind(j));
    CountShape(t, i);
  }

  lemma LogYes(t: Tree, i: nat, j: Job, node: NodeState, up: seq<Response>)
    requires CleanJob(j) && Inv(t, j) && i < |t.kids| && t.kids[i].up != [] && t.kids[i].up[0] == Yes(j)
    requires CountsTo(t, j, Yes(j), node, up)
    ensures var t' := AfterCount(t, i, node, up);
      LogFits(t', j) && Yes(j) in t'.counted && Yes(j) in t'.up
  {
    var t' := AfterCount(t, i, node, up);
    AnswerArrived(t, i, j);
    YesOnce(t, i, j);
    PopSums(t, i, j);
    AddedLog(t.counted, Yes(j), Yes(j));
    AddedLog(t.up, Yes(j), Yes(j));
    assert t'.up == t.up + [Yes(j)];
  }

  lemma LogNo(t: Tree, i: nat, j: Job, node: NodeState, up: seq<Response>)
    requires CleanJob(j) && Inv(t, j) && i < |t.kids| && t.kids[i].up != [] && t.kids[i].up[0] == No(j)
    requires CountsTo(t, j, No(j), node, up) && LogFits(t, j)
    ensures var t' := AfterCount(t, i, node, up);
      && LogFits(t', j)
      && (Yes(j) in t'.counted <==> Yes(j) in t.counted)
      && (Yes(j) in t'.up <==> Yes(j) in t.up)
  {
    var t' := AfterCount(t, i, node, up);
    AnswerArrived(t, i, j);
    PopSums(t, i, j);
    AddedLog(t.counted, No(j), Yes(j));
    AddedLog(t.up, No(j), Yes(j));
    assert t'.up == t.up || t'.up == t.up + [No(j)];
  }

  lemma LogBeat(t: Tree, i: nat, j: Job, children: seq<Child>)
    requires CleanJob(j) && Inv(t, j) && i < |t.kids| && t.kids[i].up != [] && t.kids[i].up[0].Heartbeat?
    requires LogFits(t, j)
    ensures var t' := AfterCount(t, i, t.node.(children := children), []);
      && LogFits(t', j)
      && (Yes(j) in t'.counted <==> Yes(j) in t.counted)
      && t'.up == t.up
  {
    PopSums(t, i, j);
    AddedLog(t.counted, t.kids[i].up[0], Yes(j));
  }

  /** The histories of the children after response i was taken. */
  lemma HistPopped(t: Tree, i: nat, j: Job)
    requires CleanJob(j) && Inv(t, j) && Hits(t, j) == 1 && Decide(t.node, j).Ask?
    requires i < |t.kids| && t.kids[i].up != []
    requires forall k :: 0 <= k < |t.kids| ==> Hist(t.kids[k], j, Hits(t.kids[k], j) > 0 && Yes(j) in t.counted)
    ensures var kids := t.kids[i := Pop(t.kids[i])];
      var seen := Yes(j) in t.counted || t.kids[i].up[0] == Yes(j);
      forall k :: 0 <= k < |kids| ==> Hist(kids[k], j, Hits(kids[k], j) > 0 && seen)
  {
    var kids := t.kids[i := Pop(t.kids[i])];
    if t.kids[i].up[0] == Yes(j) {
      YesOnce(t, i, j);
    }
    HistPop(t.kids[i], j, Hits(t.kids[i], j) > 0 && Yes(j) in t.counted);
    forall k | 0 <= k < |kids|
      ensures Hist(kids[k], j, Hits(kids[k], j) > 0 && (Yes(j) in t.counted || t.kids[i].up[0] == Yes(j)))
    {
      HitsMember(t.kids, i, k, j);
    }
  }

  lemma HistCountAsk(t: Tree, i: nat, j: Job, consumed: bool)
    requires CleanJob(j) && Inv(t, j) && Enabled(t, Count(i)) && Hist(t, j, consumed)
    requires Hits(t, j) == 1 && t.down == [] && Decide(t.node, j).Ask?
    ensures Hist(ApplyCount(t, i), j, consumed)
  {
    CountHits(t, i, j);
    HistPopped(t, i, j);
    CountLog(t, i, j);
    if t.kids[i].up[0] == Yes(j) {
      YesNotTaken(t, i, j, consumed);
    }
    CountShape(t, i);
  }

  /** What counting a response does to the log, at a process that waits for the good answer. */
  lemma CountLog(t: Tree, i: nat, j: Job)
    requires CleanJob(j) && Inv(t, j) && Enabled(t, Count(i)) && LogFits(t, j) && t.down == []
    ensures var t', yes := ApplyCount(t, i), t.kids[i].up[0] == Yes(j);
      && LogFits(t', j) && t'.down == []
      && (Yes(j) in t'.counted <==> yes || Yes(j) in t.counted)
      && (Yes(j) in t'.up <==> yes || Yes(j) in t.up)
  {
    var r := t.kids[i].up[0];
    assert r in t.kids[i].up;
    var e := OnResponse(t.node, r);
    CountShape(t, i);
    if r.Heartbeat? {
      LogBeat(t, i, j, e.node.children);
    } else {
      CountsToNode(t, i, j);
      if r == Yes(j) {
        LogYes(t, i, j, e.node, e.up);
      } else {
        LogNo(t, i, j, e.node, e.up);
      }
    }
  }

  /** The good answer on a child's link has not been counted, so it has not been passed on. */
  lemma YesNotTaken(t: Tree, i: nat, j: Job, consumed: bool)
    requires CleanJob(j) && Inv(t, j) && Hist(t, j, consumed)
    requires Hits(t, j) == 1 && t.down == [] && Decide(t.node, j).Ask?
    requires i < |t.kids| && t.kids[i].up != [] && t.kids[i].up[0] == Yes(j)
    ensures !consumed && Yes(j) !in t.up
  {
    YesOnce(t, i, j);
    HistPop(t.kids[i], j, Hits(t.kids[i], j) > 0 && Yes(j) in t.counted);
  }

  lemma HistCountYesHere(t: Tree, i: nat, j: Job, consumed: bool)
    requires CleanJob(j) && Inv(t, j) && Enabled(t, Count(i)) && Hist(t, j, consumed)
    requires Hits(t, j) == 1 && t.down == [] && Decide(t.node, j).SayYes?
    ensures Hist(ApplyCount(t, i), j, consumed)
  {
    CountHits(t, i, j);
    NoYesPop(t.kids[i], j);
    CountOther(t, i, j);
    AddedLog(t.counted, t.kids[i].up[0], Yes(j));
    assert Idle(Pop(t.kids[i]), JobKind(j), j.clean);
  }

  lemma HistCountWaiting(t: Tree, i: nat, j: Job, consumed: bool)
    requires CleanJob(j) && Inv(t, j) && Enabled(t, Count(i)) && Hist(t, j, consumed)
    requires Hits(t, j) == 0 || t.down != []
    ensures Hist(ApplyCount(t, i), j, consumed)
  {
    CountHits(t, i, j);
    NoYesPop(t.kids[i], j);
    CountOther(t, i, j);
    NoYesCount(t, i, j);
  }

  lemma SameLog(t: Tree, kids: seq<Tree>, j: Job)
    requires LogFits(t, j) && |kids| == |t.kids|
    requires SumYes(kids, j) == SumYes(t.kids, j) && SumNo(kids, j) == SumNo(t.kids, j)
    ensures LogFits(t.(kids := kids), j)
  {
  }

  lemma HistInside(t: Tree, i: nat, kid: Tree, j: Job, consumed: bool)
    requires CleanJob(j) && Inv(t, j) && i < |t.kids| && Hist(t, j, consumed)
    requires Hits(t, j) == 1 && t.down == [] && Decide(t.node, j).Ask?
    requires Kept(t.kids[i], kid, j) && Hits(kid, j) == Hits(t.kids[i], j)
    requires Hist(kid, j, Hits(kid, j) > 0 && Yes(j) in t.counted)
    ensures Hist(t.(kids := t.kids[i := kid]), j, consumed)
  {
    SameHits(t.kids, i, kid, j);
    SumUpdate(t.kids, i, kid, j);
    SameLog(t, t.kids[i := kid], j);
  }

  lemma HistInsideNoYes(t: Tree, i: nat, kid: Tree, j: Job, consumed: bool)
    requires Hist(t, j, consumed) && i < |t.kids| && (Hits(t, j) == 0 || t.down != [])
    requires Hits(t.(kids := t.kids[i := kid]), j) == Hits(t, j) && NoYes(kid, j)
    ensures Hist(t.(kids := t.kids[i := kid]), j, consumed)
  {
    assert NoYes(t.(kids := t.kids[i := kid]), j);
  }

  lemma HistInsideYes(t: Tree, i: nat, kid: Tree, j: Job, consumed: bool)
    requires Hist(t, j, consumed) && i < |t.kids| && Hits(t, j) == 1 && t.down == [] && Decide(t.node, j).SayYes?
    requires NoYes(kid, j) && Idle(kid, JobKind(j), j.clean)
    ensures Hist(t.(kids := t.kids[i := kid]), j, consumed)
  {
  }

  lemma HistInsideHere(t: Tree, i: nat, m: Move, j: Job, consumed: bool)
    requires CleanJob(j) && Inv(t, j) && Enabled(t, Inside(i, m)) && Calm(m) && Hist(t, j, consumed)
    requires Hits(t, j) == 0 || t.down != [] || Decide(t.node, j).SayYes?
    ensures Hist(Apply(t, Inside(i, m)), j, consumed)
  {
    if Hits(t, j) == 0 {
      NotIdleBelow(t, i, j);
    } else {
      IdleStep(t.kids[i], m, j);
    }
    NoYesStep(t.kids[i], m, j);
    if Hits(t, j) == 0 || t.down != [] {
      StepHits(t, Inside(i, m), j);
      HistInsideNoYes(t, i, Apply(t.kids[i], m), j, consumed);
    } else {
      HistInsideYes(t, i, Apply(t.kids[i], m), j, consumed);
    }
  }

  lemma HistTaken(t: Tree, j: Job, consumed: bool)
    requires CleanJob(j) && Inv(t, j) && t.down != [] && Hist(t, j, consumed)
    ensures Hist(ApplyTake(t), j, consumed)
  {
    if Hits(t, j) == 1 {
      HistTake(t, j, consumed);
    } else {
      TakeHits(t, j);
      NoYesTake(t, j);
    }
  }

  lemma HistCount(t: Tree, i: nat, j: Job, consumed: bool)
    requires CleanJob(j) && Inv(t, j) && Enabled(t, Count(i)) && Hist(t, j, consumed)
    ensures Hist(ApplyCount(t, i), j, consumed)
  {
    if Hits(t, j) == 0 || t.down != [] {
      HistCountWaiting(t, i, j, consumed);
    } else if Decide(t.node, j).Ask? {
      HistCountAsk(t, i, j, consumed);
    } else {
      HistCountYesHere(t, i, j, consumed);
    }
  }

  lemma HistBeat(t: Tree, beat: Response, j: Job, consumed: bool)
    requires CleanJob(j) && Hist(t, j, consumed) && beat.Heartbeat?
    ensures Hist(t.(up := t.up + [beat]), j, consumed)
  {
    assert LogFits(t.(up := t.up + [beat]), j) == LogFits(t, j);
  }

  lemma {:induction false} HistStep(t: Tree, m: Move, j: Job, consumed: bool)
    requires CleanJob(j) && Inv(t, j) && Enabled(t, m) && Calm(m) && Hist(t, j, consumed)
    ensures Hist(Apply(t, m), j, consumed)
    decreases m
  {
    var ask := Hits(t, j) == 1 && t.down == [] && Decide(t.node, j).Ask?;
    match m
    case Take => HistTaken(t, j, consumed);
    case Count(i) => HistCount(t, i, j, consumed);
    case Beat(time) => HistBeat(t, Heartbeat(t.node.id, time), j, consumed);
    case Inside(i, m') =>
      if ask {
        HistStep(t.kids[i], m', j, Hits(t.kids[i], j) > 0 && Yes(j) in t.counted);
        Step(t.kids[i], m', j);
        StepHits(t.kids[i], m', j);
        HistInside(t, i, Apply(t.kids[i], m'), j, consumed);
      } else {
        HistInsideHere(t, i, m', j, consumed);
      }
    case Sweep(_) =>
    case Exit =>
  }

  lemma {:induction false} HistRun(t: Tree, ms: seq<Move>, j: Job)
    requires CleanJob(j) && Inv(t, j) && Possible(t, ms) && AllCalm(ms) && Hist(t, j, false)
    ensures Hist(Run(t, ms), j, false)
    ensures Hits(Run(t, ms), j) == Hits(t, j)
    decreases |ms|
  {
    if ms != [] {
      HistStep(t, ms[0], j, false);
      StepHits(t, ms[0], j);
      Step(t, ms[0], j);
      HistRun(Apply(t, ms[0]), ms[1..], j);
    }
  }

  // ---------------------------------------------------------------- at rest

  /** All records of the kind are fresh, here and below. */
  predicate AllRecordsFresh(t: Tree, kind: Kind)
    decreases t
  {
    && AllFresh(Of(t.node.records, kind))
    && forall i :: 0 <= i < |t.kids| ==> AllRecordsFresh(t.kids[i], kind)
  }

  lemma {:induction false} IdleFresh(t: Tree, kind: Kind)
    requires Idle(t, kind, true)
    ensures AllRecordsFresh(t, kind)
    decreases t
  {
    forall i | 0 <= i < |t.kids| ensures AllRecordsFresh(t.kids[i], kind) {
      IdleFresh(t.kids[i], kind);
    }
  }

  /** At rest, a process off the path has only fresh records. */
  lemma {:induction false} RestNoYes(t: Tree, j: Job)
    requires CleanJob(j) && Inv(t, j) && NoYes(t, j) && Quiet(t) && Hits(t, j) == 0
    ensures AllRecordsFresh(t, JobKind(j))
    decreases t
  {
    QuietSums(t.kids, j);
    forall i | 0 <= i < |t.kids| ensures AllRecordsFresh(t.kids[i], JobKind(j)) {
      NotIdleBelow(t, i, j);
      RestNoYes(t.kids[i], j);
    }
  }

  /** At rest, the record of a process on the path is gone exactly when the good answer was last. */
  lemma RestHere(t: Tree, j: Job)
    requires CleanJob(j) && Inv(t, j) && Quiet(t) && t.down == []
    requires LogFits(t, j) && Yes(j) in t.counted
    ensures AllFresh(Of(t.node.records, JobKind(j))) <==> LastAnswer(t.counted) == Some(Yes(j))
  {
    QuietSums(t.kids, j);
    assert Yes(j) != No(j);
  }

  lemma RestKid(t: Tree, i: nat, j: Job, consumed: bool)
    requires CleanJob(j) && Inv(t, j) && Hist(t, j, consumed) && OnPath(t, j) && t.down == [] && i < |t.kids|
    requires consumed || Yes(j) in t.up
    ensures Hits(t.kids[i], j) <= 1 && Hist(t.kids[i], j, Hits(t.kids[i], j) > 0)
    ensures LogFits(t, j) && Yes(j) in t.counted
  {
    HitsMember(t.kids, i, i, j);
  }

  /** A subtree that has given its good answer away. */
  lemma {:induction false} Rest(t: Tree, j: Job, consumed: bool)
    requires CleanJob(j) && Inv(t, j) && Hist(t, j, consumed) && Quiet(t) && Hits(t, j) == 1
    requires consumed || Yes(j) in t.up
    ensures AllRecordsFresh(t, JobKind(j)) <==> GoodLast(t, j)
    decreases t
  {
    if OnPath(t, j) {
      forall i | 0 <= i < |t.kids|
        ensures AllRecordsFresh(t.kids[i], JobKind(j)) <==> GoodLast(t.kids[i], j)
        ensures LogFits(t, j) && Yes(j) in t.counted
      {
        RestKid(t, i, j, consumed);
        if Hits(t.kids[i], j) == 0 {
          RestNoYes(t.kids[i], j);
        } else {
          Rest(t.kids[i], j, true);
        }
      }
      assert |t.kids| > 0;
      RestHere(t, j);
    } else {
      QuietSums(t.kids, j);
      forall i | 0 <= i < |t.kids| ensures AllRecordsFresh(t.kids[i], JobKind(j)) {
        IdleFresh(t.kids[i], JobKind(j));
      }
    }
  }

  // ---------------------------------------------------------------- main result

  lemma {:induction false} FreshStart(t: Tree, j: Job)
    requires CleanJob(j) && Idle(t, JobKind(j), j.clean) && NewLogs(t)
    ensures NoYes(t, j)
    decreases t
  {
    NoAnswers(t.up, j);
    forall i | 0 <= i < |t.kids| ensures NoYes(t.kids[i], j) {
      FreshStart(t.kids[i], j);
    }
  }

  /** When a command has come to rest, the records of its type are all fresh again exactly
      when nobody says yes to it or, at every process on the way up from the one that does,
      the good answer was the last one counted. */
  lemma RecordsFreshIff(t: Tree, j: Job, ms: seq<Move>)
    requires CleanJob(j) && Ready(t, JobKind(j)) && Clear(t, j) && Hits(t, j) <= 1 && NewLogs(t)
    requires Possible(t.(down := [Do(j.cmd, j.fork)]), ms) && AllCalm(ms)
    requires Quiet(Run(t.(down := [Do(j.cmd, j.fork)]), ms))
    ensures var t' := Run(t.(down := [Do(j.cmd, j.fork)]), ms);
      AllRecordsFresh(t', JobKind(j)) <==> GoodLast(t', j)
    ensures Hits(t, j) == 0 ==> AllRecordsFresh(Run(t.(down := [Do(j.cmd, j.fork)]), ms), JobKind(j))
  {
    var start := t.(down := [Do(j.cmd, j.fork)]);
    StartOwes(t, j);
    FreshAnswers(t, j);
    FreshStart(t, j);
    assert NoYes(start, j) && Hits(start, j) == Hits(t, j);
    HistRun(start, ms, j);
    AtMostOneAnswer(t, j, ms);
    var t' := Run(start, ms);
    if Hits(t, j) == 1 {
      assert Yes(j) in t'.up;
      Rest(t', j, false);
    } else {
      RestNoYes(t', j);
    }
  }
}

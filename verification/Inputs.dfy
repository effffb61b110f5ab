/**
Sequences of commands on small trees that end badly: a command is never answered, or answered
twice, or makes a lookup fail, though all commands are well formed and given one at a time.
*/
module Inputs {
  import opened Messages
  import opened NodeSpec
  import opened TreeSystem
  import opened SingleCommand
  import opened OneAnswer
  import opened Liveness
  import opened Reachability
  import opened HitWay
  import opened HitRuns
  import opened NextCommand
  import opened InTurn
  import opened History

  // ---------------------------------------------------------------- sequences of commands

  /** The tree of a plan, nothing under way. */
  function Build(p: Plan, kind: Kind, manager: bool): Tree
    decreases p
  {
    var handles := seq(|Kids(p)|, i requires 0 <= i < |Kids(p)| => Child(Kids(p)[i].id, i, 0));
    var kids := seq(|Kids(p)|, i requires 0 <= i < |Kids(p)| => Build(Kids(p)[i], kind, false));
    Tree(NodeState(p.id, manager, true, handles, Listed(kind, p.recs)), true, false, [], [], kids, [], [])
  }

  lemma {:induction false} BuildLooks(p: Plan, kind: Kind, manager: bool)
    ensures Looks(Build(p, kind, manager), p, kind, manager)
    decreases p
  {
    forall i | 0 <= i < |Kids(p)| ensures Looks(Build(Kids(p)[i], kind, false), Kids(p)[i], kind, false) {
      BuildLooks(Kids(p)[i], kind, false);
    }
  }

  /** A plan that the command can be given to. */
  ghost predicate Takes(p: Plan, j: Job) {
    && Fit(j) && (j.cmd.Exec? ==> p.id != Target(j))
    && (j.cmd.Create? ==> Lacks(p, j.cmd.newNodeId))
  }

  lemma TakesAhead(t: Tree, p: Plan, j: Job)
    requires Looks(t, p, JobKind(j), true) && Takes(p, j)
    ensures Ahead(t, p, j, true)
  {
    LacksClear(t, p, JobKind(j), true, j);
  }

  /** One command of the sequence, in turn. */
  lemma Next(t: Tree, p: Plan, j: Job, last: bool, s: Served) returns (t': Tree)
    requires Looks(t, p, JobKind(j), true) && t.up == [] && Takes(p, j) && s == Serve(p, j, last) && s.ok
    ensures RunsTo(t, j, Answers(j, s.bad, s.good), t')
    ensures Looks(t'.(up := []), s.plan, JobKind(j), true)
  {
    TakesAhead(t, p, j);
    t' := ServeReaches(t, p, j, last, true);
    LooksQuiet(t', s.plan, JobKind(j), true);
    assert [] + Answers(j, s.bad, s.good) == Answers(j, s.bad, s.good);
  }

  lemma First(t: Tree, j: Job, up: seq<Response>, t': Tree, js: seq<Job>, ups: seq<seq<Response>>, end: Tree)
    requires RunsTo(t, j, up, t') && Past(t'.(up := []), js, ups, end)
    ensures Past(t, [j] + js, [up] + ups, end)
  {
    assert ([j] + js)[1..] == js && ([up] + ups)[1..] == ups;
  }

  /** Three commands of a sequence, in turn. */
  lemma Three(t: Tree, p: Plan, x: Job, y: Job, z: Job, lastX: bool, last: bool, a: Served, b: Served, c: Served)
    returns (end: Tree)
    requires Looks(t, p, ExecKind, true) && t.up == [] && x.cmd.Exec? && y.cmd.Exec? && z.cmd.Exec?
    requires Takes(p, x) && Takes(a.plan, y) && Takes(b.plan, z)
    requires a == Serve(p, x, lastX) && b == Serve(a.plan, y, last) && c == Serve(b.plan, z, last)
    requires a.ok && b.ok && c.ok
    ensures Past(t, [x] + ([y] + ([z] + [])), [Answers(x, a.bad, a.good)]
                     + ([Answers(y, b.bad, b.good)] + ([Answers(z, c.bad, c.good)] + [])), end)
    ensures Looks(end, c.plan, ExecKind, true) && end.up == []
  {
    var t1 := Next(t, p, x, lastX, a);
    var t2 := Next(t1.(up := []), a.plan, y, last, b);
    var t3 := Next(t2.(up := []), b.plan, z, last, c);
    end := t3.(up := []);
    assert Past(end, [], [], end);
    First(t2.(up := []), z, Answers(z, c.bad, c.good), t3, [], [], end);
    First(t1.(up := []), y, Answers(y, b.bad, b.good), t2, [z] + [], [Answers(z, c.bad, c.good)] + [], end);
    First(t, x, Answers(x, a.bad, a.good), t1, [y] + ([z] + []),
          [Answers(y, b.bad, b.good)] + ([Answers(z, c.bad, c.good)] + []), end);
  }

  // ---------------------------------------------------------------- never answered

  /** A command that nobody says yes to and the manager does not let a bad answer through for. */
  lemma NeverAnswered(t: Tree, j: Job, t': Tree)
    requires Unclean(j) && Idle(t, JobKind(j), false) && t.node.manager && t.up == [] && Clear(t, j)
    requires Hits(t, j) == 0 && Misses(t, j) == 0 && Reaches(Issued(t, j), t')
    ensures t'.up == []
  {
    var start := Issued(t, j);
    assert Hits(start, j) == 0 && Misses(start, j) == 0 && Clear(start, j);
    WaitingOwes(start, j);
    var ms :| Possible(start, ms) && AllCalm(ms) && Run(start, ms) == t';
    RunKeeps(start, ms, j);
    ManagerRun(start, ms);
    OneOwed(t', j, 0, 0);
  }

  lemma PlanUnanswered(t: Tree, p: Plan, j: Job)
    requires Looks(t, p, JobKind(j), true) && t.up == [] && Takes(p, j) && AllFine(p)
    requires PlanHits(p, j) == 0 && PlanMisses(p, j) == 0
    ensures forall t' :: Reaches(Issued(t, j), t') ==> t'.up == []
  {
    TakesAhead(t, p, j);
    PlanAnswers(t, p, j, true);
    LooksIdle(t, p, JobKind(j), true);
    forall t' | Reaches(Issued(t, j), t') ensures t'.up == [] {
      NeverAnswered(t, j, t');
    }
  }

  /** A manager with the nodes 1 and 2. */
  const FLAT := Pair(0, NoRecs, End(1, NoRecs), End(2, NoRecs))

  /** FLAT after a command that node 1 says yes to, its answer counted first. */
  function FlatAfter(j: Job): Plan {
    Pair(0, Recs(2, true, 0), Planted(End(1, NoRecs), j), End(2, Recs(0, false, 0)))
  }

  lemma FlatServed(j: Job)
    requires Target(j) == 1
    ensures Serve(FLAT, j, false) == Served(FlatAfter(j), false, true, true)
  {
    assert Serve(End(1, NoRecs), j, false) == Served(Planted(End(1, NoRecs), j), false, true, true);
    assert Serve(End(2, NoRecs), j, false) == Served(End(2, Recs(0, false, 0)), true, false, true);
  }

  /** The command that follows. */
  lemma FlatNext(p: Plan, j: Job, next: Job)
    requires p == FlatAfter(j) && Fit(j) && Fit(next) && next.cmd.Exec? == j.cmd.Exec? && Target(next) == 9
    requires j.cmd.Create? ==> j.cmd.newNodeId == 5 && next.cmd.newNodeId == 6
    ensures Takes(p, next) && AllFine(p) && PlanHits(p, next) == 0 && PlanMisses(p, next) == 0
  {
    var a := p.a;
    assert a == if j.cmd.Exec? then End(1, NoRecs) else Single(1, NoRecs, End(5, NoRecs));
    assert AllFine(p.b) && (a.Single? ==> AllFine(a.a));
    assert AllFine(a);
    assert Lacks(p.b, 6) && (a.Single? ==> Lacks(a.a, 6));
    assert Lacks(a, 6);
    assert a.Single? ==> PlanHits(a.a, next) == 0 && PlanMisses(a.a, next) == 1;
    assert PlanHits(a, next) == 0 && PlanHits(p.b, next) == 0;
  }

  lemma FlatUnanswered(j: Job, next: Job) returns (rest: Tree)
    requires Fit(j) && Fit(next) && next.cmd.Exec? == j.cmd.Exec? && Target(j) == 1 && Target(next) == 9
    requires j.cmd.Create? ==> j.cmd.newNodeId == 5 && next.cmd.newNodeId == 6
    ensures Past(Build(FLAT, JobKind(j), true), [j] + [], [Answers(j, false, true)] + [], rest)
    ensures forall t' :: Reaches(Issued(rest, next), t') ==> t'.up == []
  {
    BuildLooks(FLAT, JobKind(j), true);
    FlatServed(j);
    FlatTakes(j);
    var t := Next(Build(FLAT, JobKind(j), true), FLAT, j, false, Served(FlatAfter(j), false, true, true));
    rest := t.(up := []);
    assert Past(rest, [], [], rest);
    First(Build(FLAT, JobKind(j), true), j, Answers(j, false, true), t, [], [], rest);
    FlatNext(FlatAfter(j), j, next);
    PlanUnanswered(rest, FlatAfter(j), next);
  }

  lemma FlatTakes(j: Job)
    requires Fit(j) && Target(j) == 1 && (j.cmd.Create? ==> j.cmd.newNodeId == 5)
    ensures Takes(FLAT, j)
  {
    assert Lacks(End(1, NoRecs), 5) && Lacks(End(2, NoRecs), 5);
  }

  /** exec 1, then exec 9 for which there is no node: when the good answer to the first is not
      counted last, the second is answered in no run. */
  lemma SecondExecUnanswered(k: seq<real>) returns (rest: Tree)
    ensures Past(Build(FLAT, ExecKind, true), [ExecOf(1, [])] + [], [[GoodExecResp(1, Sum([]))]] + [], rest)
    ensures forall t' :: Reaches(Issued(rest, ExecOf(9, k)), t') ==> t'.up == []
  {
    assert Answers(ExecOf(1, []), false, true) == [GoodExecResp(1, Sum([]))];
    rest := FlatUnanswered(ExecOf(1, []), ExecOf(9, k));
  }

  /** create 5 1, then create 6 9, for whose parent there is no node: likewise. */
  lemma SecondCreateUnanswered(fork: Fork, next: Fork) returns (rest: Tree)
    requires fork.Forked? && next.Forked?
    ensures Past(Build(FLAT, CreateKind, true), [CreateOf(5, 1, fork)] + [],
                     [[GoodCreateResp(5, fork.pid)]] + [], rest)
    ensures forall t' :: Reaches(Issued(rest, CreateOf(6, 9, next)), t') ==> t'.up == []
  {
    assert Answers(CreateOf(5, 1, fork), false, true) == [GoodCreateResp(5, fork.pid)];
    rest := FlatUnanswered(CreateOf(5, 1, fork), CreateOf(6, 9, next));
  }

  // ---------------------------------------------------------------- answered twice

  /** A manager with the nodes 1 and 2, the former with the children 3 and 4. */
  const WIDE := Pair(0, NoRecs, Pair(1, NoRecs, End(3, NoRecs), End(4, NoRecs)), End(2, NoRecs))

  /** The tree WIDE after exec 4, and after exec 9 on top of that. */
  const WIDE_ONCE := Pair(0, NoRecs, Pair(1, Recs(2, true, 0), End(3, Recs(0, false, 0)), End(4, NoRecs)),
                          End(2, Recs(0, false, 0)))
  const WIDE_TWICE := Pair(0, Recs(1, false, 0), Pair(1, Recs(4, true, 1), End(3, Recs(0, false, 1)),
                                                      End(4, Recs(0, false, 0))), End(2, Recs(0, false, 1)))

  lemma WideOnce()
    ensures Serve(WIDE, ExecOf(4, []), true) == Served(WIDE_ONCE, false, true, true)
  {
  }

  lemma WideTwice()
    ensures Serve(WIDE_ONCE, ExecOf(9, []), true) == Served(WIDE_TWICE, false, false, true)
  {
  }

  /** exec 4, exec 9 and a third command. */
  lemma WideThen(p: Plan, four: Job, nine: Job, z: Job, c: Served) returns (end: Tree)
    requires p == WIDE && four == ExecOf(4, []) && nine == ExecOf(9, []) && z.cmd.Exec? && Fit(z)
    requires Target(z) != 0 && c == Serve(WIDE_TWICE, z, true) && c.ok
    ensures Past(Build(p, ExecKind, true), [four] + ([nine] + ([z] + [])), [Answers(four, false, true)]
                     + ([Answers(nine, false, false)] + ([Answers(z, c.bad, c.good)] + [])), end)
  {
    BuildLooks(p, ExecKind, true);
    WideOnce();
    WideTwice();
    var a, b := Served(WIDE_ONCE, false, true, true), Served(WIDE_TWICE, false, false, true);
    end := Three(Build(p, ExecKind, true), p, four, nine, z, true, true, a, b, c);
  }

  /** exec 4, exec 9, exec 4: the second, for which there is no node, is not answered, and the
      third gets a bad answer before the good one. */
  lemma TwoAnswers() returns (end: Tree)
    ensures var four, nine := ExecOf(4, []), ExecOf(9, []);
      Past(Build(WIDE, ExecKind, true), [four] + ([nine] + ([four] + [])),
               [[Yes(four)]] + ([[]] + ([[No(four), Yes(four)]] + [])), end)
  {
    var four, nine := ExecOf(4, []), ExecOf(9, []);
    var c := Serve(WIDE_TWICE, four, true);
    assert c.ok && c.bad && c.good;
    assert Answers(four, false, true) == [Yes(four)] && Answers(four, true, true) == [No(four), Yes(four)];
    end := WideThen(WIDE, four, nine, four, c);
  }

  /** exec 4, exec 9, exec 9: the second is not answered and the third is. */
  lemma AnsweredAgain() returns (end: Tree)
    ensures var four, nine := ExecOf(4, []), ExecOf(9, []);
      Past(Build(WIDE, ExecKind, true), [four] + ([nine] + ([nine] + [])),
               [[Yes(four)]] + ([[]] + ([[No(nine)]] + [])), end)
  {
    var four, nine := ExecOf(4, []), ExecOf(9, []);
    var c := Serve(WIDE_TWICE, nine, true);
    assert c.ok && c.bad && !c.good;
    assert Answers(four, false, true) == [Yes(four)] && Answers(nine, true, false) == [No(nine)];
    end := WideThen(WIDE, four, nine, nine, c);
  }

  // ---------------------------------------------------------------- a lookup that fails

  lemma IdleWaits(t: Tree, way: seq<nat>, j: Job)
    requires Idle(t, JobKind(j), false) && Leads(Issued(t, j), way, j) && Clear(t, j)
    ensures Sound(Issued(t, j)) && HitWaiting(Issued(t, j), way, j)
  {
    assert Clear(Issued(t, j), j);
  }

  /** A manager without a record whose one child can give a bad answer before the good one. */
  lemma PlanFails(t: Tree, p: Plan, j: Job) returns (t': Tree)
    requires Looks(t, p, JobKind(j), true) && t.up == [] && Takes(p, j) && AllFine(p) && p.id != Target(j)
    requires p.Single? && p.recs.NoRecs? && PlanHits(p.a, j) == 1 && PlanMisses(p.a, j) == 1
    ensures Reaches(Issued(t, j), t') && !NoLookupFails(t')
  {
    var start := Issued(t, j);
    TakesAhead(t, p, j);
    AheadDecides(t, p, j, true);
    AheadBelow(t, p, 0, j, true);
    PlanAnswers(t.kids[0], p.a, j, false);
    TwoSums(t.kids[0], t.kids[0], j);
    assert start.kids == [t.kids[0]];
    LooksIdle(t, p, JobKind(j), true);
    var way := WayTo(start, j);
    IdleWaits(t, way, j);
    t' := ReachesFailure(start, way, j);
  }

  /** A manager with node 1, which has the children 2 and 3, the former with 4 and 5. */
  const DEEP := Single(0, NoRecs, Pair(1, NoRecs, Pair(2, NoRecs, End(4, NoRecs), End(5, NoRecs)), End(3, NoRecs)))

  /** After exec 5, after exec 3 and after exec 2: in the end the manager has no record, and node 1
      has one that has counted a bad answer. */
  const DEEP_ONCE := Single(0, NoRecs, Pair(1, NoRecs, Pair(2, Recs(2, true, 0), End(4, Recs(0, false, 0)),
                                                            End(5, NoRecs)), End(3, Recs(0, false, 0))))
  const DEEP_TWICE := Single(0, NoRecs, Pair(1, Recs(1, true, 0), Pair(2, Recs(4, true, 1), End(4, Recs(0, false, 1)),
                                                                       End(5, Recs(0, false, 0))),
                                             End(3, Recs(0, false, 0))))
  const WORN := Single(0, NoRecs, Pair(1, Recs(1, false, 0), Pair(2, Recs(4, true, 1), End(4, Recs(0, false, 1)),
                                                                  End(5, Recs(0, false, 0))),
                                       End(3, Recs(0, false, 1))))

  lemma DeepOnce()
    ensures Serve(DEEP, ExecOf(5, []), true) == Served(DEEP_ONCE, false, true, true)
  {
  }

  lemma DeepTwice()
    ensures Serve(DEEP_ONCE, ExecOf(3, []), false) == Served(DEEP_TWICE, false, true, true)
  {
  }

  lemma DeepWorn()
    ensures Serve(DEEP_TWICE, ExecOf(2, []), false) == Served(WORN, false, true, true)
  {
  }

  lemma WornFits(p: Plan, j: Job)
    requires p == WORN && j.cmd.Exec? && Fit(j) && Target(j) == 2
    ensures Takes(p, j) && AllFine(p) && PlanHits(p.a, j) == 1 && PlanMisses(p.a, j) == 1
  {
    var one := p.a;
    assert AllFine(one.a.a) && AllFine(one.a.b);
    assert AllFine(one.a) && AllFine(one.b);
    assert AllFine(one);
  }

  lemma DeepThen(p: Plan, x: Job, y: Job, z: Job) returns (end: Tree)
    requires p == DEEP && x == ExecOf(5, []) && y == ExecOf(3, []) && z == ExecOf(2, [])
    ensures Past(Build(p, ExecKind, true), [x] + ([y] + ([z] + [])), [Answers(x, false, true)]
                     + ([Answers(y, false, true)] + ([Answers(z, false, true)] + [])), end)
    ensures Looks(end, WORN, ExecKind, true) && end.up == []
  {
    BuildLooks(p, ExecKind, true);
    DeepOnce();
    DeepTwice();
    DeepWorn();
    var a, b, c := Served(DEEP_ONCE, false, true, true), Served(DEEP_TWICE, false, true, true),
        Served(WORN, false, true, true);
    end := Three(Build(p, ExecKind, true), p, x, y, z, true, false, a, b, c);
  }

  /** exec 5, exec 3, exec 2, exec 2, all of nodes that exist: after the first three, each of
      which gets its good answer, some run of the fourth makes a lookup fail. */
  lemma LookupLost() returns (end: Tree, failing: Tree)
    ensures var five, three, two := ExecOf(5, []), ExecOf(3, []), ExecOf(2, []);
      && Past(Build(DEEP, ExecKind, true), [five] + ([three] + ([two] + [])),
                  [[Yes(five)]] + ([[Yes(three)]] + ([[Yes(two)]] + [])), end)
      && Reaches(Issued(end, two), failing) && !NoLookupFails(failing)
  {
    var five, three, two := ExecOf(5, []), ExecOf(3, []), ExecOf(2, []);
    assert Answers(five, false, true) == [Yes(five)] && Answers(three, false, true) == [Yes(three)];
    assert Answers(two, false, true) == [Yes(two)];
    end := DeepThen(DEEP, five, three, two);
    WornFits(WORN, two);
    failing := PlanFails(end, WORN, two);
  }
}

/**
The next command on a tree at rest, whatever earlier commands have left in its records:
which answers the client gets, which lookups can fail, that the tree is at rest again, and
exactly when every run serves the command as the requirements say.
*/
module NextCommand {
  import opened Messages
  import opened NodeSpec
  import opened TreeSystem
  import opened Shapes
  import opened SingleCommand
  import opened OneAnswer
  import opened Growth
  import opened Termination
  import opened Liveness
  import opened Reachability
  import opened HitWay
  import opened HitRuns

  // ---------------------------------------------------------------- any command

  /** The answers that the client may have got so far, and those at rest. */
  predicate Answerable(t: Tree, j: Job, up: seq<Response>, rest: bool) {
    if Hits(t, j) == 0 then
      (!rest && up == []) || up == if Misses(t, j) == 1 then [No(j)] else []
    else
      || up == [Yes(j)] || (!rest && up == [])
      || (Misses(t, j) == 1 && (up == [No(j), Yes(j)] || (!rest && up == [No(j)])))
  }

  /** Every run gives answers of this kind only; no lookup fails unless one can; every run ends,
      and the tree is then at rest again. */
  lemma CommandAtRest(t: Tree, j: Job, ms: seq<Move>)
    requires Given(t, j) && Hits(t, j) <= 1 && Distinct(Plan(ShapeOf(t), j))
    requires Possible(Issued(t, j), ms) && AllCalm(ms)
    ensures var t' := Run(Issued(t, j), ms);
      && Answerable(t, j, t'.up, Quiet(t'))
      && (!Fails(t, j) ==> NoLookupFails(t'))
      && |ms| <= Cost(Issued(t, j), 0) + BeatCosts(ms)
      && (Quiet(t') ==> AtRest(t'.(up := []), JobKind(j), false) && ShapeOf(t'.(up := [])) == Plan(ShapeOf(t), j))
  {
    if Hits(t, j) == 0 {
      AtMostOneAnswer(t, j, ms);
      MissLookups(t, j, ms);
    } else {
      HitAnswers(t, j, ms);
    }
    StartPlaced(t, j);
    RunEnds(Issued(t, j), ms, j);
    if Quiet(Run(Issued(t, j), ms)) {
      RestAgain(t, j, ms);
    }
  }

  lemma MissLookups(t: Tree, j: Job, ms: seq<Move>)
    requires Given(t, j) && Hits(t, j) == 0 && Possible(Issued(t, j), ms) && AllCalm(ms)
    ensures NoLookupFails(Run(Issued(t, j), ms)) && Misses(t, j) <= 1
  {
    AtMostOneAnswer(t, j, ms);
    LookupsSafe(Run(Issued(t, j), ms), j);
  }

  /** Where no lookup can fail, some message can be handled until nothing is under way. */
  lemma CommandGoesOn(t: Tree, j: Job, ms: seq<Move>) returns (m: Move)
    requires Given(t, j) && Hits(t, j) <= 1 && !Fails(t, j)
    requires Possible(Issued(t, j), ms) && AllCalm(ms) && !Quiet(Run(Issued(t, j), ms))
    ensures Enabled(Run(Issued(t, j), ms), m) && Calm(m) && !IsBeat(m)
  {
    var t' := Run(Issued(t, j), ms);
    if Hits(t, j) == 0 {
      AtMostOneAnswer(t, j, ms);
      LookupsSafe(t', j);
    } else {
      var way := StartWay(t, j);
      HitRun(Issued(t, j), ms, way, j, true);
      HitLookups(t', way, j, true);
    }
    m := Progress(t');
  }

  /** The command is served as the requirements say: no run makes a lookup fail, and every run
      ends with one answer, good if a process says yes and bad if none does. */
  ghost predicate ServedRight(t: Tree, j: Job) {
    forall t' :: Reaches(Issued(t, j), t') ==>
      && NoLookupFails(t')
      && (Quiet(t') ==> t'.up == [if Hits(t, j) > 0 then Yes(j) else No(j)])
  }

  lemma ServedRightIf(t: Tree, j: Job)
    requires Given(t, j) && Hits(t, j) <= 1 && !Fails(t, j) && Misses(t, j) == 1 - Hits(t, j)
    ensures ServedRight(t, j)
  {
    forall t' | Reaches(Issued(t, j), t')
      ensures NoLookupFails(t') && (Quiet(t') ==> t'.up == [if Hits(t, j) > 0 then Yes(j) else No(j)])
    {
      var ms :| Possible(Issued(t, j), ms) && AllCalm(ms) && Run(Issued(t, j), ms) == t';
      if Hits(t, j) == 0 {
        AtMostOneAnswer(t, j, ms);
        MissLookups(t, j, ms);
      } else {
        HitAnswers(t, j, ms);
      }
    }
  }

  /** Exactly when that is so: a condition on the records and the ids of the tree. */
  lemma ServedRightIff(t: Tree, j: Job)
    requires Given(t, j) && Hits(t, j) <= 1
    ensures ServedRight(t, j) <==> !Fails(t, j) && Misses(t, j) == 1 - Hits(t, j)
  {
    if !Fails(t, j) && Misses(t, j) == 1 - Hits(t, j) {
      ServedRightIf(t, j);
    } else if Hits(t, j) == 1 {
      HitLookupCanFailIff(t, j);
      if !Fails(t, j) {
        EarlyBadIff(t, j);
        assert [No(j), Yes(j)] != [Yes(j)];
      }
    } else {
      StartOwes(t, j);
      var rest := ReachesQuiet(Issued(t, j), j);
      var ms :| Possible(Issued(t, j), ms) && AllCalm(ms) && Run(Issued(t, j), ms) == rest;
      AtMostOneAnswer(t, j, ms);
    }
  }

  // ---------------------------------------------------------------- exec

  function ExecOf(id: nat, k: seq<real>): Job {
    Job(Exec(id, k), ForkFailed, false)
  }

  lemma ExecGiven(t: Tree, j: Job)
    requires AtRest(t, ExecKind, false) && j.cmd.Exec? && !j.clean
    ensures Given(t, j) && Plan(ShapeOf(t), j) == ShapeOf(t)
    ensures Hits(t, j) == if IsNode(t, j.cmd.nodeId) then 1 else 0
  {
    ExecHitsNode(t, j);
  }

  /** An exec command on any tree at rest.  Without a node of that id the client hears of the
      failure, once, exactly if the records let the bad answer through, and no lookup fails.
      With one it gets the good answer, before it perhaps a bad one. */
  lemma ExecAtRest(t: Tree, id: nat, k: seq<real>, ms: seq<Move>)
    requires AtRest(t, ExecKind, false)
    requires Possible(Issued(t, ExecOf(id, k)), ms) && AllCalm(ms)
    ensures var j, t' := ExecOf(id, k), Run(Issued(t, ExecOf(id, k)), ms);
      var good, bad := GoodExecResp(id, Sum(k)), BadExecResp(id);
      && (Quiet(t') && !IsNode(t, id) ==> t'.up == if Misses(t, j) == 1 then [bad] else [])
      && (Quiet(t') && IsNode(t, id) ==> t'.up == [good] || (Misses(t, j) == 1 && t'.up == [bad, good]))
      && (!IsNode(t, id) || !Fails(t, j) ==> NoLookupFails(t'))
      && (Quiet(t') ==> AtRest(t'.(up := []), ExecKind, false) && ShapeOf(t'.(up := [])) == ShapeOf(t))
  {
    ExecGiven(t, ExecOf(id, k));
    CommandAtRest(t, ExecOf(id, k), ms);
  }

  /** Some run makes a lookup fail if and only if somewhere on the way to the node a process
      without an old record can get a bad answer from all its children. */
  lemma ExecLookupCanFailIff(t: Tree, id: nat, k: seq<real>)
    requires AtRest(t, ExecKind, false)
    ensures (exists t' :: Reaches(Issued(t, ExecOf(id, k)), t') && !NoLookupFails(t')) <==> Fails(t, ExecOf(id, k))
  {
    var j := ExecOf(id, k);
    ExecGiven(t, j);
    if IsNode(t, id) {
      HitLookupCanFailIff(t, j);
    } else {
      forall t' | Reaches(Issued(t, j), t') ensures NoLookupFails(t') {
        var ms :| Possible(Issued(t, j), ms) && AllCalm(ms) && Run(Issued(t, j), ms) == t';
        MissLookups(t, j, ms);
      }
    }
  }

  /** Where none can fail, some run gives two answers if and only if a node has the id and the
      tree can give a bad answer. */
  lemma ExecTwoAnswersIff(t: Tree, id: nat, k: seq<real>)
    requires AtRest(t, ExecKind, false) && !Fails(t, ExecOf(id, k))
    ensures (exists t' :: Reaches(Issued(t, ExecOf(id, k)), t') && Quiet(t') && |t'.up| == 2)
      <==> IsNode(t, id) && Misses(t, ExecOf(id, k)) == 1
  {
    var j := ExecOf(id, k);
    ExecGiven(t, j);
    if IsNode(t, id) && Misses(t, j) == 1 {
      EarlyBadIff(t, j);
    } else {
      forall t' | Reaches(Issued(t, j), t') && Quiet(t') ensures |t'.up| <= 1 {
        var ms :| Possible(Issued(t, j), ms) && AllCalm(ms) && Run(Issued(t, j), ms) == t';
        CommandAtRest(t, j, ms);
      }
    }
  }

  /** Every run of the exec command gives one answer, good exactly if a node has the id, and
      loses no lookup: if and only if the records at rest are such that nothing can fail and
      the manager lets a bad answer through where no node has the id and nowhere else. */
  lemma ExecServedRightIff(t: Tree, id: nat, k: seq<real>)
    requires AtRest(t, ExecKind, false)
    ensures (forall t' :: Reaches(Issued(t, ExecOf(id, k)), t') ==>
               && NoLookupFails(t')
               && (Quiet(t') ==> t'.up == [if IsNode(t, id) then GoodExecResp(id, Sum(k)) else BadExecResp(id)]))
      <==> !Fails(t, ExecOf(id, k)) && (Misses(t, ExecOf(id, k)) == 1 <==> !IsNode(t, id))
  {
    ExecGiven(t, ExecOf(id, k));
    ServedRightIff(t, ExecOf(id, k));
    MissesOnce(t, ExecOf(id, k));
  }

  lemma MissesOnce(t: Tree, j: Job)
    ensures Misses(t, j) <= 1
  {
  }

  // ---------------------------------------------------------------- create

  function CreateOf(x: nat, p: nat, fork: Fork): Job {
    Job(Create(x, p), fork, false)
  }

  /** Whether the command with a fresh id is to succeed. */
  predicate CanCreate(t: Tree, p: nat, fork: Fork) {
    fork.Forked? && Places(ShapeOf(t), p) > 0
  }

  lemma CreateGiven(t: Tree, x: nat, p: nat, fork: Fork)
    requires AtRest(t, CreateKind, false) && Places(ShapeOf(t), x) == 0
    ensures var j := CreateOf(x, p, fork);
      && Given(t, j) && Hits(t, j) == (if CanCreate(t, p, fork) then 1 else 0)
      && Plan(ShapeOf(t), j) == (if CanCreate(t, p, fork) then Grown(ShapeOf(t), x, p) else ShapeOf(t))
      && Distinct(Plan(ShapeOf(t), j))
  {
    var j := CreateOf(x, p, fork);
    IdleSound(t, CreateKind, false);
    FreshIsClear(t, j);
    GrowthIsSeen(ShapeOf(t), x, p);
    assert Places(ShapeOf(t), p) <= 1;
    if fork.Forked? {
      CreateHits(t, j);
    } else {
      FailedHits(t, j);
    }
  }

  /** The same for a create command with a fresh id. */
  lemma CreateAtRest(t: Tree, x: nat, p: nat, fork: Fork, ms: seq<Move>)
    requires AtRest(t, CreateKind, false) && Places(ShapeOf(t), x) == 0
    requires Possible(Issued(t, CreateOf(x, p, fork)), ms) && AllCalm(ms)
    ensures var j, t' := CreateOf(x, p, fork), Run(Issued(t, CreateOf(x, p, fork)), ms);
      var can, bad := CanCreate(t, p, fork), BadCreateResp(p, x);
      var good := GoodCreateResp(x, if fork.Forked? then fork.pid else 0);
      && (Quiet(t') && !can ==> t'.up == if Misses(t, j) == 1 then [bad] else [])
      && (Quiet(t') && can ==> t'.up == [good] || (Misses(t, j) == 1 && t'.up == [bad, good]))
      && (!can || !Fails(t, j) ==> NoLookupFails(t'))
      && (Quiet(t') ==>
            && AtRest(t'.(up := []), CreateKind, false)
            && ShapeOf(t'.(up := [])) == if can then Grown(ShapeOf(t), x, p) else ShapeOf(t))
  {
    CreateGiven(t, x, p, fork);
    CommandAtRest(t, CreateOf(x, p, fork), ms);
  }

  lemma CreateServedRightIff(t: Tree, x: nat, p: nat, fork: Fork)
    requires AtRest(t, CreateKind, false) && Places(ShapeOf(t), x) == 0
    ensures ServedRight(t, CreateOf(x, p, fork))
      <==> !Fails(t, CreateOf(x, p, fork)) && (Misses(t, CreateOf(x, p, fork)) == 1 <==> !CanCreate(t, p, fork))
  {
    CreateGiven(t, x, p, fork);
    ServedRightIff(t, CreateOf(x, p, fork));
    MissesOnce(t, CreateOf(x, p, fork));
  }
}

/**
Commands one after the other on small trees, in runs in which every process lets its
children finish in turn: what such a run does to the records is a function of the plan of
the tree.
*/
module InTurn {
  import opened Messages
  import opened NodeSpec
  import opened Records
  import opened TreeSystem
  import opened SingleCommand
  import opened OneAnswer
  import opened Reachability
  import opened HitWay

  // ---------------------------------------------------------------- plans

  /** The records of a process: the first one, and how many fresh ones follow. */
  datatype Recs = NoRecs | Recs(count: nat, good: bool, more: nat)

  /** A process with no, one or two children. */
  datatype Plan =
    | End(id: nat, recs: Recs)
    | Single(id: nat, recs: Recs, a: Plan)
    | Pair(id: nat, recs: Recs, a: Plan, b: Plan)

  function Freshes(kind: Kind, n: nat): seq<Record> {
    if n == 0 then [] else [Fresh(kind)] + Freshes(kind, n - 1)
  }

  function Listed(kind: Kind, r: Recs): seq<Record> {
    match r
    case NoRecs => []
    case Recs(count, good, more) => [Record(kind, count, good)] + Freshes(kind, more)
  }

  function Kids(p: Plan): (kids: seq<Plan>)
    ensures forall i :: 0 <= i < |kids| ==> kids[i] < p
  {
    match p
    case End(_, _) => []
    case Single(_, _, a) => [a]
    case Pair(_, _, a, b) => [a, b]
  }

  /** Nothing is under way in the tree, and it is as planned; all records are of one kind. */
  predicate Looks(t: Tree, p: Plan, kind: Kind, manager: bool)
    decreases p
  {
    && Sound(t) && t.down == [] && t.node.id == p.id && t.node.manager == manager
    && t.node.records == Listed(kind, p.recs) && |t.kids| == |Kids(p)|
    && forall i :: 0 <= i < |t.kids| ==> t.kids[i].up == [] && Looks(t.kids[i], Kids(p)[i], kind, false)
  }

  // ---------------------------------------------------------------- what a run in turn does

  function Added(r: Recs): Recs {
    match r
    case NoRecs => Recs(0, false, 0)
    case Recs(count, good, more) => Recs(count, good, more + 1)
  }

  function Removed(r: Recs): Recs
    requires r.Recs?
  {
    if r.more == 0 then NoRecs else Recs(0, false, r.more - 1)
  }

  /** The records of a process while it counts, whether it has passed up a bad answer and then
      whether the good one; `ok` as long as no record was missing. */
  datatype Tallied = Tallied(recs: Recs, bad: bool, good: bool, ok: bool)

  function CountedBad(s: Tallied, n: nat): Tallied {
    if !s.ok || s.recs.NoRecs? then s.(ok := false)
    else if s.recs.count + 1 == n && !s.recs.good then
      if s.bad || s.good then s.(ok := false) else Tallied(Removed(s.recs), true, false, true)
    else s.(recs := s.recs.(count := s.recs.count + 1))
  }

  function CountedGood(s: Tallied, n: nat): Tallied {
    if !s.ok || s.recs.NoRecs? || s.good then s.(ok := false)
    else if s.recs.count + 1 == n then Tallied(Removed(s.recs), s.bad, true, true)
    else Tallied(Recs(s.recs.count + 1, true, s.recs.more), s.bad, true, true)
  }

  datatype Served = Served(plan: Plan, bad: bool, good: bool, ok: bool)

  /** One child has finished. */
  function CountedKid(s: Tallied, n: nat, kid: Served): Tallied {
    var s0 := s.(ok := s.ok && kid.ok);
    var s1 := if kid.bad then CountedBad(s0, n) else s0;
    if kid.good then CountedGood(s1, n) else s1
  }

  function CountedKids(s: Tallied, ka: Served, kb: Served, last: bool): Tallied {
    if last then CountedKid(CountedKid(s, 2, kb), 2, ka) else CountedKid(CountedKid(s, 2, ka), 2, kb)
  }

  /** Exec and create commands, whose fork works. */
  predicate Fit(j: Job) {
    IsJob(j) && !j.clean && (j.cmd.Create? ==> j.fork.Forked?)
  }

  /** The process that says yes. */
  function Target(j: Job): nat {
    match j.cmd
    case Exec(id, _) => id
    case Create(_, p) => p
    case PrintTree => 0
  }

  /** The process that says yes, afterwards. */
  function Planted(p: Plan, j: Job): Plan {
    if !j.cmd.Create? then p
    else match p
      case End(id, recs) => Single(id, recs, End(j.cmd.newNodeId, NoRecs))
      case Single(id, recs, a) => Pair(id, recs, a, End(j.cmd.newNodeId, NoRecs))
      case Pair(_, _, _, _) => p
  }

  /** `last`: the children take their turns from the last to the first. */
  function Serve(p: Plan, j: Job, last: bool): Served {
    if p.id == Target(j) then Served(Planted(p, j), false, true, j.cmd.Exec? || !p.Pair?)
    else
      var s := Tallied(Added(p.recs), false, false, true);
      match p
      case End(_, _) => Served(End(p.id, s.recs), true, false, true)
      case Single(_, _, a) =>
        var ka := Serve(a, j, last);
        var s1 := CountedKid(s, 1, ka);
        Served(Single(p.id, s1.recs, ka.plan), s1.bad, s1.good, s1.ok)
      case Pair(_, _, a, b) =>
        var ka, kb := Serve(a, j, last), Serve(b, j, last);
        var s2 := CountedKids(s, ka, kb, last);
        Served(Pair(p.id, s2.recs, ka.plan, kb.plan), s2.bad, s2.good, s2.ok)
  }

  // ---------------------------------------------------------------- such a run exists

  function Ask(j: Job): Order {
    Do(j.cmd, j.fork)
  }

  /** The answers, in order. */
  function Answers(j: Job, bad: bool, good: bool): seq<Response> {
    (if bad then [No(j)] else []) + if good then [Yes(j)] else []
  }

  lemma {:induction false} FreshesMore(kind: Kind, n: nat)
    ensures Freshes(kind, n) + [Fresh(kind)] == Freshes(kind, n + 1)
  {
    if n > 0 {
      FreshesMore(kind, n - 1);
      assert Freshes(kind, n) + [Fresh(kind)] == [Fresh(kind)] + (Freshes(kind, n - 1) + [Fresh(kind)]);
    }
  }

  lemma ListedAdded(kind: Kind, r: Recs)
    ensures Listed(kind, r) + [Fresh(kind)] == Listed(kind, Added(r))
  {
    match r
    case NoRecs =>
    case Recs(count, good, more) =>
      FreshesMore(kind, more);
      assert Listed(kind, r) + [Fresh(kind)] == [Record(kind, count, good)] + (Freshes(kind, more) + [Fresh(kind)]);
  }

  lemma ListedRemoved(kind: Kind, r: Recs)
    requires r.Recs?
    ensures Listed(kind, r)[1..] == Listed(kind, Removed(r))
  {
  }

  /** A process that is counting: as planned but for its records, the children up to here done. */
  ghost predicate Counting(t: Tree, s: Tallied, t0: Tree, j: Job) {
    && IsJob(j) && Sound(t) && t.down == [] && t.node.id == t0.node.id && t.node.manager == t0.node.manager
    && t.attached == t0.attached && t.node.records == Listed(JobKind(j), s.recs)
    && t.up == t0.up + Answers(j, s.bad, s.good)
  }

  function CountedOne(s: Tallied, n: nat, good: bool): Tallied {
    if good then CountedGood(s, n) else CountedBad(s, n)
  }

  function Answer(j: Job, good: bool): Response {
    if good then Yes(j) else No(j)
  }

  lemma FirstOf(rec: Record, next: Record, rest: seq<Record>)
    ensures var records := [rec] + rest;
      Find(records, rec.kind) == 0 && Without(records, 0) == rest && records[0 := next] == [next] + rest
  {
    var records := [rec] + rest;
    assert records[0] == rec && records[..0] == [] && records[1..] == rest && [] + rest == rest;
  }

  /** A response that is counted in the first record of the list. */
  lemma HeadCounted(node: NodeState, r: Response, rec: Record, rest: seq<Record>)
    requires node.records == [rec] + rest && rec.kind == KindOf(r) && (IsGood(r) || IsBad(r))
    ensures LookupOk(node, r)
    ensures var e, next := OnResponse(node, r), Counted(rec, IsGood(r));
      if next.count == |node.children| && (IsGood(r) || !next.good)
      then e == Effect(node.(records := rest), [r], [])
      else e == Effect(node.(records := [next] + rest), if IsGood(r) then [r] else [], [])
  {
    FirstOf(rec, Counted(rec, IsGood(r)), rest);
    assert node.records[0] == rec;
  }

  lemma AnswersAdded(s: Tallied, n: nat, good: bool, j: Job)
    requires CountedOne(s, n, good).ok
    ensures var s' := CountedOne(s, n, good);
      Answers(j, s'.bad, s'.good) == Answers(j, s.bad, s.good)
        + if good || (s'.bad && !s.bad) then [Answer(j, good)] else []
  {
  }

  /** The handler does to the records what the function does. */
  lemma HandlesOne(node: NodeState, good: bool, s: Tallied, j: Job)
    requires IsJob(j) && node.records == Listed(JobKind(j), s.recs) && CountedOne(s, |node.children|, good).ok
    ensures LookupOk(node, Answer(j, good))
    ensures var e, s' := OnResponse(node, Answer(j, good)), CountedOne(s, |node.children|, good);
      && e.node == node.(records := Listed(JobKind(j), s'.recs))
      && Answers(j, s.bad, s.good) + e.up == Answers(j, s'.bad, s'.good)
  {
    var rec, rest := Record(JobKind(j), s.recs.count, s.recs.good), Freshes(JobKind(j), s.recs.more);
    HeadCounted(node, Answer(j, good), rec, rest);
    ListedRemoved(JobKind(j), s.recs);
    assert Listed(JobKind(j), s.recs)[1..] == rest;
    AnswersAdded(s, |node.children|, good, j);
    var s' := CountedOne(s, |node.children|, good);
    var full := rec.count + 1 == |node.children| && (good || !rec.good);
    assert s'.recs == if full then Removed(s.recs) else Recs(rec.count + 1, rec.good || good, s.recs.more);
    assert !good ==> (s'.bad && !s.bad <==> full);
  }

  lemma CountOne(t: Tree, i: nat, good: bool, s: Tallied, t0: Tree, j: Job) returns (t': Tree)
    requires Counting(t, s, t0, j) && i < |t.kids|
    requires t.kids[i].up != [] && t.kids[i].up[0] == Answer(j, good) && CountedOne(s, |t.kids|, good).ok
    ensures Reaches(t, t') && t'.kids == t.kids[i := Pop(t.kids[i])]
    ensures Counting(t', CountedOne(s, |t.kids|, good), t0, j)
  {
    HandlesOne(t.node, good, s, j);
    t' := Apply(t, Count(i));
    ReachesSelf(t);
    ReachesNext(t, t, Count(i));
    CountShape(t, i);
    var e := OnResponse(t.node, Answer(j, good));
    CountedSound(t, i, e.node, e.up);
    assert (t0.up + Answers(j, s.bad, s.good)) + e.up == t0.up + (Answers(j, s.bad, s.good) + e.up);
  }

  /** The good answer, if there is one, is counted. */
  lemma CountLast(t: Tree, i: nat, good: bool, s: Tallied, t0: Tree, j: Job) returns (t': Tree)
    requires Counting(t, s, t0, j) && i < |t.kids| && t.kids[i].up == Answers(j, false, good)
    requires (if good then CountedGood(s, |t.kids|) else s).ok
    ensures Reaches(t, t') && t'.kids == t.kids[i := t.kids[i].(up := [])]
    ensures Counting(t', if good then CountedGood(s, |t.kids|) else s, t0, j)
  {
    if good {
      t' := CountOne(t, i, true, s, t0, j);
      assert Pop(t.kids[i]).up == [];
    } else {
      t' := t;
      ReachesSelf(t);
      assert t.kids[i := t.kids[i].(up := [])] == t.kids;
    }
  }

  /** All answers of child i are counted. */
  lemma CountKid(t: Tree, i: nat, kid: Served, s: Tallied, t0: Tree, j: Job) returns (t': Tree)
    requires Counting(t, s, t0, j) && s.ok && i < |t.kids| && kid.ok
    requires t.kids[i].up == Answers(j, kid.bad, kid.good) && CountedKid(s, |t.kids|, kid).ok
    ensures Reaches(t, t') && t'.kids == t.kids[i := t.kids[i].(up := [])]
    ensures Counting(t', CountedKid(s, |t.kids|, kid), t0, j)
  {
    if kid.bad {
      assert Answers(j, true, kid.good) == [No(j)] + Answers(j, false, kid.good);
      var mid := CountOne(t, i, false, s, t0, j);
      assert Pop(t.kids[i]).up == Answers(j, false, kid.good);
      t' := CountLast(mid, i, kid.good, CountedBad(s, |t.kids|), t0, j);
      ReachesOn(t, mid, t');
    } else {
      t' := CountLast(t, i, kid.good, s, t0, j);
    }
  }

  /** What a child has come to. */
  ghost predicate Came(kid: Tree, x: Tree, k: Served, j: Job) {
    && k.ok && Reaches(kid, x) && x.node.id == kid.node.id && x.attached == kid.attached
    && x.up == Answers(j, k.bad, k.good)
  }

  /** Child i finishes and its answers are counted. */
  lemma KidInTurn(t: Tree, i: nat, kid: Tree, k: Served, s: Tallied, t0: Tree, j: Job) returns (t': Tree)
    requires Counting(t, s, t0, j) && s.ok && i < |t.kids| && Came(t.kids[i], kid, k, j)
    requires CountedKid(s, |t.kids|, k).ok
    ensures Reaches(t, t') && t'.kids == t.kids[i := kid.(up := [])]
    ensures Counting(t', CountedKid(s, |t.kids|, k), t0, j)
  {
    ReachesBelow(t, i, kid);
    var mid := t.(kids := t.kids[i := kid]);
    SoundWith(t, i, kid);
    t' := CountKid(mid, i, k, s, t0, j);
    ReachesOn(t, mid, t');
    assert t'.kids == t.kids[i := kid.(up := [])];
  }

  /** The command is about to be given to a tree as planned, which it can be followed through. */
  ghost predicate Ahead(t: Tree, p: Plan, j: Job, manager: bool) {
    Fit(j) && Looks(t, p, JobKind(j), manager) && Clear(t, j) && (manager && j.cmd.Exec? ==> p.id != Target(j))
  }

  lemma AheadDecides(t: Tree, p: Plan, j: Job, manager: bool)
    requires Ahead(t, p, j, manager)
    ensures Decide(t.node, j) == if p.id == Target(j) then SayYes else if p.End? then SayNo else SingleCommand.Ask
  {
  }

  lemma AheadBelow(t: Tree, p: Plan, i: nat, j: Job, manager: bool)
    requires Ahead(t, p, j, manager) && i < |t.kids|
    ensures |t.kids| == |Kids(p)| && Ahead(t.kids[i], Kids(p)[i], j, false)
    ensures t.kids[i].down == [] && t.kids[i].up == []
  {
  }

  /** What serving a tree as planned comes to. */
  ghost predicate IsServed(t: Tree, t': Tree, s: Served, j: Job, manager: bool) {
    && Looks(t', s.plan, JobKind(j), manager) && t'.node.id == t.node.id && t'.attached == t.attached
    && t'.up == t.up + Answers(j, s.bad, s.good)
  }

  lemma TakenHere(t: Tree, p: Plan, j: Job, manager: bool)
    requires Ahead(t, p, j, manager) && p.id == Target(j)
    ensures var t' := ApplyTake(t.(down := [Ask(j)]));
      && Sound(t') && t'.attached == t.attached && t'.down == [] && t'.node.id == t.node.id
      && t'.node.manager == manager && t'.node.records == t.node.records
      && t'.up == t.up + [Yes(j)] && t'.kids == t.kids + Born(j)
  {
    var start := t.(down := [Ask(j)]);
    AheadDecides(t, p, j, manager);
    assert Clear(start, j) && start.node == t.node;
    TakeShape(start, j);
    TakeEffect(start, j);
  }

  lemma TakenElsewhere(t: Tree, p: Plan, j: Job, manager: bool)
    requires Ahead(t, p, j, manager) && p.id != Target(j)
    ensures var t' := ApplyTake(t.(down := [Ask(j)]));
      && Sound(t') && t'.attached == t.attached && t'.down == [] && t'.node.id == t.node.id
      && t'.node.manager == manager && t'.node.records == Listed(JobKind(j), Added(p.recs))
      && t'.up == t.up + (if p.End? then [No(j)] else [])
      && t'.kids == Broadcast(t.kids, if p.End? then [] else [Ask(j)])
  {
    ListedAdded(JobKind(j), p.recs);
    BroadcastNothing(t.kids);
  }

  /** The first move. */
  lemma Taken(t: Tree, p: Plan, j: Job, manager: bool) returns (t': Tree)
    requires Ahead(t, p, j, manager)
    ensures t.down == [] && Reaches(t.(down := [Ask(j)]), t') && t' == ApplyTake(t.(down := [Ask(j)]))
  {
    var start := t.(down := [Ask(j)]);
    t' := Apply(start, Take);
    ReachesSelf(start);
    ReachesNext(start, start, Take);
  }

  lemma PlantedLooks(t: Tree, p: Plan, t': Tree, j: Job, manager: bool)
    requires j.cmd.Create? && Looks(t, p, CreateKind, manager) && !p.Pair?
    requires Sound(t') && t'.down == [] && t'.node.id == t.node.id && t'.node.manager == manager
    requires t'.node.records == t.node.records && t'.kids == t.kids + [Leaf(j.cmd.newNodeId)]
    ensures Looks(t', Planted(p, j), CreateKind, manager)
  {
    assert Looks(Leaf(j.cmd.newNodeId), End(j.cmd.newNodeId, NoRecs), CreateKind, false);
    forall i | 0 <= i < |t.kids| ensures t'.kids[i] == t.kids[i] {
    }
  }

  lemma ServeHere(t: Tree, p: Plan, j: Job, manager: bool) returns (t': Tree)
    requires Ahead(t, p, j, manager) && p.id == Target(j) && (j.cmd.Exec? || !p.Pair?)
    ensures Reaches(t.(down := [Ask(j)]), t')
    ensures IsServed(t, t', Served(Planted(p, j), false, true, true), j, manager)
  {
    t' := Taken(t, p, j, manager);
    TakenHere(t, p, j, manager);
    assert Answers(j, false, true) == [Yes(j)];
    if j.cmd.Create? {
      PlantedLooks(t, p, t', j, manager);
    } else {
      assert t.kids + [] == t.kids;
    }
  }

  lemma ServeEnd(t: Tree, p: Plan, j: Job, manager: bool) returns (t': Tree)
    requires Ahead(t, p, j, manager) && p.id != Target(j) && p.End?
    ensures Reaches(t.(down := [Ask(j)]), t')
    ensures IsServed(t, t', Served(End(p.id, Added(p.recs)), true, false, true), j, manager)
  {
    t' := Taken(t, p, j, manager);
    TakenElsewhere(t, p, j, manager);
    assert Answers(j, true, false) == [No(j)];
  }

  /** The process has passed the command on and begins to count. */
  lemma Begins(t: Tree, p: Plan, j: Job, manager: bool) returns (t': Tree)
    requires Ahead(t, p, j, manager) && p.id != Target(j) && !p.End?
    ensures Reaches(t.(down := [Ask(j)]), t')
    ensures Counting(t', Tallied(Added(p.recs), false, false, true), t, j)
    ensures |t'.kids| == |t.kids|
    ensures forall i :: 0 <= i < |t.kids| ==> t'.kids[i] == t.kids[i].(down := [Ask(j)])
  {
    t' := Taken(t, p, j, manager);
    TakenElsewhere(t, p, j, manager);
    assert t.up + [] == t.up && Answers(j, false, false) == [];
    assert Sound(t);
    forall i | 0 <= i < |t.kids| ensures t'.kids[i] == t.kids[i].(down := [Ask(j)]) {
      AheadBelow(t, p, i, j, manager);
      assert t.kids[i].down + [Ask(j)] == [Ask(j)];
    }
  }

  /** The link upwards does not matter. */
  lemma LooksRead(t: Tree, p: Plan, kind: Kind)
    requires Looks(t, p, kind, false)
    ensures Looks(t.(up := []), p, kind, false)
  {
  }

  lemma LooksSingle(t: Tree, kind: Kind, recs: Recs, id: nat, a: Tree, pa: Plan, manager: bool)
    requires Sound(t) && t.down == [] && t.node.id == id && t.node.manager == manager
    requires t.node.records == Listed(kind, recs) && t.kids == [a.(up := [])] && Looks(a, pa, kind, false)
    ensures Looks(t, Single(id, recs, pa), kind, manager)
  {
    LooksRead(a, pa, kind);
  }

  lemma LooksPair(t: Tree, kind: Kind, recs: Recs, id: nat, a: Tree, pa: Plan, b: Tree, pb: Plan, manager: bool)
    requires Sound(t) && t.down == [] && t.node.id == id && t.node.manager == manager
    requires t.node.records == Listed(kind, recs) && t.kids == [a.(up := []), b.(up := [])]
    requires Looks(a, pa, kind, false) && Looks(b, pb, kind, false)
    ensures Looks(t, Pair(id, recs, pa, pb), kind, manager)
  {
    LooksRead(a, pa, kind);
    LooksRead(b, pb, kind);
  }

  /** Some run, in turn, does to the tree what the function says. */
  lemma {:induction false} ServeReaches(t: Tree, p: Plan, j: Job, last: bool, manager: bool) returns (t': Tree)
    requires Ahead(t, p, j, manager) && Serve(p, j, last).ok
    ensures Reaches(t.(down := [Ask(j)]), t') && IsServed(t, t', Serve(p, j, last), j, manager)
    decreases p
  {
    if p.id == Target(j) {
      t' := ServeHere(t, p, j, manager);
    } else {
      match p
      case End(_, _) => t' := ServeEnd(t, p, j, manager);
      case Single(_, _, pa) =>
        SingleOk(p, j, last);
        AheadBelow(t, p, 0, j, manager);
        var a := ServeReaches(t.kids[0], pa, j, last, false);
        t' := ServeSingle(t, p, a, j, last, manager);
      case Pair(_, _, pa, pb) =>
        PairOk(p, j, last);
        AheadBelow(t, p, 0, j, manager);
        AheadBelow(t, p, 1, j, manager);
        var a := ServeReaches(t.kids[0], pa, j, last, false);
        var b := ServeReaches(t.kids[1], pb, j, last, false);
        var s := CountedKids(Tallied(Added(p.recs), false, false, true), Serve(pa, j, last), Serve(pb, j, last), last);
        t' := ServePair(t, p, a, b, Serve(pa, j, last), Serve(pb, j, last), s, j, last, manager);
    }
  }

  lemma SingleOk(p: Plan, j: Job, last: bool)
    requires p.Single? && p.id != Target(j) && Serve(p, j, last).ok
    ensures Serve(p.a, j, last).ok
  {
  }

  lemma PairOk(p: Plan, j: Job, last: bool)
    requires p.Pair? && p.id != Target(j) && Serve(p, j, last).ok
    ensures Serve(p.a, j, last).ok && Serve(p.b, j, last).ok
  {
  }

  lemma ServeSingle(t: Tree, p: Plan, a: Tree, j: Job, last: bool, manager: bool) returns (t': Tree)
    requires Ahead(t, p, j, manager) && p.Single? && p.id != Target(j) && Serve(p, j, last).ok && Serve(p.a, j, last).ok
    requires Reaches(t.kids[0].(down := [Ask(j)]), a) && IsServed(t.kids[0], a, Serve(p.a, j, last), j, false)
    ensures Reaches(t.(down := [Ask(j)]), t') && IsServed(t, t', Serve(p, j, last), j, manager)
  {
    var s, ka := Tallied(Added(p.recs), false, false, true), Serve(p.a, j, last);
    var t1 := Begins(t, p, j, manager);
    t' := KidInTurn(t1, 0, a, ka, s, t, j);
    ReachesOn(t.(down := [Ask(j)]), t1, t');
    LooksSingle(t', JobKind(j), CountedKid(s, 1, ka).recs, p.id, a, ka.plan, manager);
  }

  lemma ServePair(t: Tree, p: Plan, a: Tree, b: Tree, ka: Served, kb: Served, s: Tallied, j: Job, last: bool,
                  manager: bool) returns (t': Tree)
    requires Ahead(t, p, j, manager) && p.Pair? && p.id != Target(j) && ka.ok && kb.ok && s.ok
    requires s == CountedKids(Tallied(Added(p.recs), false, false, true), ka, kb, last)
    requires Reaches(t.kids[0].(down := [Ask(j)]), a) && IsServed(t.kids[0], a, ka, j, false)
    requires Reaches(t.kids[1].(down := [Ask(j)]), b) && IsServed(t.kids[1], b, kb, j, false)
    ensures Reaches(t.(down := [Ask(j)]), t')
    ensures IsServed(t, t', Served(Pair(p.id, s.recs, ka.plan, kb.plan), s.bad, s.good, s.ok), j, manager)
  {
    t' := PairInTurn(t, p, a, b, ka, kb, s, j, last, manager);
    LooksPair(t', JobKind(j), s.recs, p.id, a, ka.plan, b, kb.plan, manager);
  }

  lemma PairInTurn(t: Tree, p: Plan, a: Tree, b: Tree, ka: Served, kb: Served, s: Tallied, j: Job, last: bool,
                   manager: bool) returns (t': Tree)
    requires Ahead(t, p, j, manager) && p.Pair? && p.id != Target(j) && ka.ok && kb.ok && s.ok
    requires s == CountedKids(Tallied(Added(p.recs), false, false, true), ka, kb, last)
    requires Reaches(t.kids[0].(down := [Ask(j)]), a) && IsServed(t.kids[0], a, ka, j, false)
    requires Reaches(t.kids[1].(down := [Ask(j)]), b) && IsServed(t.kids[1], b, kb, j, false)
    ensures Reaches(t.(down := [Ask(j)]), t') && t'.kids == [a.(up := []), b.(up := [])] && Counting(t', s, t, j)
  {
    var t1 := Begins(t, p, j, manager);
    t' := BothInTurn(t1, a, b, ka, kb, Tallied(Added(p.recs), false, false, true), t, j, last);
    ReachesOn(t.(down := [Ask(j)]), t1, t');
  }

  /** Child i first, then the other one. */
  lemma OneThenOther(t1: Tree, i: nat, x: Tree, y: Tree, kx: Served, ky: Served, s: Tallied, t: Tree, j: Job)
    returns (t': Tree)
    requires i < 2 && Counting(t1, s, t, j) && s.ok && |t1.kids| == 2
    requires CountedKid(CountedKid(s, 2, kx), 2, ky).ok
    requires Came(t1.kids[i], x, kx, j) && Came(t1.kids[1 - i], y, ky, j)
    ensures Reaches(t1, t') && |t'.kids| == 2 && t'.kids[i] == x.(up := []) && t'.kids[1 - i] == y.(up := [])
    ensures Counting(t', CountedKid(CountedKid(s, 2, kx), 2, ky), t, j)
  {
    OkBefore(CountedKid(s, 2, kx), 2, ky);
    var mid := Other(t1, i, x, kx, s, t, j);
    t' := Other(mid, 1 - i, y, ky, CountedKid(s, 2, kx), t, j);
    ReachesOn(t1, mid, t');
  }

  lemma Other(t1: Tree, i: nat, y: Tree, ky: Served, s: Tallied, t: Tree, j: Job) returns (t': Tree)
    requires i < 2 && Counting(t1, s, t, j) && s.ok && |t1.kids| == 2 && CountedKid(s, 2, ky).ok
    requires Came(t1.kids[i], y, ky, j)
    ensures Reaches(t1, t') && |t'.kids| == 2 && t'.kids[i] == y.(up := []) && t'.kids[1 - i] == t1.kids[1 - i]
    ensures Counting(t', CountedKid(s, 2, ky), t, j)
  {
    t' := KidInTurn(t1, i, y, ky, s, t, j);
  }

  lemma BothInTurn(t1: Tree, a: Tree, b: Tree, ka: Served, kb: Served, s: Tallied, t: Tree, j: Job, last: bool)
    returns (t': Tree)
    requires Counting(t1, s, t, j) && s.ok && |t1.kids| == 2 && CountedKids(s, ka, kb, last).ok
    requires Came(t1.kids[0], a, ka, j) && Came(t1.kids[1], b, kb, j)
    ensures Reaches(t1, t') && t'.kids == [a.(up := []), b.(up := [])]
    ensures Counting(t', CountedKids(s, ka, kb, last), t, j)
  {
    if last {
      t' := OneThenOther(t1, 1, b, a, kb, ka, s, t, j);
    } else {
      t' := OneThenOther(t1, 0, a, b, ka, kb, s, t, j);
    }
  }

  lemma OkBefore(s: Tallied, n: nat, k: Served)
    requires CountedKid(s, n, k).ok
    ensures s.ok && k.ok
  {
  }

  // ---------------------------------------------------------------- what it says to the command

  function PlanHits(p: Plan, j: Job): nat {
    if p.id == Target(j) then 1
    else match p
      case End(_, _) => 0
      case Single(_, _, a) => PlanHits(a, j)
      case Pair(_, _, a, b) => PlanHits(a, j) + PlanHits(b, j)
  }

  predicate PlanFills(r: Recs, no: nat, n: nat) {
    match r
    case NoRecs => n <= no
    case Recs(count, good, _) => !good && n <= count + no
  }

  function PlanMisses(p: Plan, j: Job): nat {
    if p.id == Target(j) then 0
    else match p
      case End(_, _) => 1
      case Single(_, recs, a) => if PlanFills(recs, PlanMisses(a, j), 1) then 1 else 0
      case Pair(_, recs, a, b) => if PlanFills(recs, PlanMisses(a, j) + PlanMisses(b, j), 2) then 1 else 0
  }

  lemma TwoSums(a: Tree, b: Tree, j: Job)
    ensures HitsAll([a], j) == Hits(a, j) && MissesAll([a], j) == Misses(a, j)
    ensures HitsAll([a, b], j) == Hits(a, j) + Hits(b, j) && MissesAll([a, b], j) == Misses(a, j) + Misses(b, j)
  {
    assert [a][1..] == [];
    assert [a, b][1..] == [b] && [b][1..] == [];
    assert HitsAll([b], j) == Hits(b, j) && MissesAll([b], j) == Misses(b, j);
  }

  lemma {:induction false} FreshesFresh(kind: Kind, n: nat)
    ensures Of(Freshes(kind, n), kind) == Freshes(kind, n) && AllFresh(Freshes(kind, n))
  {
    if n > 0 {
      FreshesFresh(kind, n - 1);
    }
  }

  lemma ListedOf(kind: Kind, r: Recs)
    ensures Of(Listed(kind, r), kind) == Listed(kind, r)
    ensures r.Recs? ==> Listed(kind, r)[1..] == Freshes(kind, r.more) && AllFresh(Listed(kind, r)[1..])
  {
    if r.Recs? {
      FreshesFresh(kind, r.more);
      assert Listed(kind, r)[1..] == Freshes(kind, r.more);
    }
  }

  lemma {:induction false} PlanAnswers(t: Tree, p: Plan, j: Job, manager: bool)
    requires Ahead(t, p, j, manager)
    ensures Hits(t, j) == PlanHits(p, j) && Misses(t, j) == PlanMisses(p, j)
    decreases p
  {
    AheadDecides(t, p, j, manager);
    ListedOf(JobKind(j), p.recs);
    if p.Single? {
      AheadBelow(t, p, 0, j, manager);
      PlanAnswers(t.kids[0], p.a, j, false);
      TwoSums(t.kids[0], t.kids[0], j);
      assert t.kids == [t.kids[0]];
    } else if p.Pair? {
      AheadBelow(t, p, 0, j, manager);
      AheadBelow(t, p, 1, j, manager);
      PlanAnswers(t.kids[0], p.a, j, false);
      PlanAnswers(t.kids[1], p.b, j, false);
      TwoSums(t.kids[0], t.kids[1], j);
      assert t.kids == [t.kids[0], t.kids[1]];
    }
  }

  // ---------------------------------------------------------------- at rest

  /** The records of a planned process at rest. */
  predicate Fine(r: Recs, n: nat) {
    r.Recs? ==> (0 < n && (r.good || r.count < n)) || (r.count == 0 && !r.good)
  }

  predicate AllFine(p: Plan)
    decreases p
  {
    Fine(p.recs, |Kids(p)|) && forall i :: 0 <= i < |Kids(p)| ==> AllFine(Kids(p)[i])
  }

  lemma FineRests(kind: Kind, r: Recs, n: nat)
    requires Fine(r, n)
    ensures Rested(Of(Listed(kind, r), kind), n, false)
  {
    ListedOf(kind, r);
  }

  lemma {:induction false} LooksIdle(t: Tree, p: Plan, kind: Kind, manager: bool)
    requires Looks(t, p, kind, manager) && AllFine(p) && t.up == []
    ensures Idle(t, kind, false)
    decreases p
  {
    FineRests(kind, p.recs, |t.kids|);
    forall i | 0 <= i < |t.kids| ensures Idle(t.kids[i], kind, false) {
      LooksIdle(t.kids[i], Kids(p)[i], kind, false);
    }
  }

  lemma {:induction false} LooksQuiet(t: Tree, p: Plan, kind: Kind, manager: bool)
    requires Looks(t, p, kind, manager)
    ensures Quiet(t)
    decreases p
  {
    forall i | 0 <= i < |t.kids| ensures Quiet(t.kids[i]) {
      LooksQuiet(t.kids[i], Kids(p)[i], kind, false);
    }
  }

  /** No process of the plan has the id. */
  predicate Lacks(p: Plan, id: nat)
    decreases p
  {
    p.id != id && forall i :: 0 <= i < |Kids(p)| ==> Lacks(Kids(p)[i], id)
  }

  lemma {:induction false} LacksClear(t: Tree, p: Plan, kind: Kind, manager: bool, j: Job)
    requires Looks(t, p, kind, manager) && (j.cmd.Create? ==> Lacks(p, j.cmd.newNodeId))
    ensures Clear(t, j)
    decreases p
  {
    forall i | 0 <= i < |t.kids| ensures Clear(t.kids[i], j) {
      LacksClear(t.kids[i], Kids(p)[i], kind, false, j);
    }
  }
}

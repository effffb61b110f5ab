/**
The search for a record has no end check.  When it does not need one: every good or bad
answer uses up one response that a record stands for, but NodeExist takes its record away
with all that it still stood for.
*/
module Lookups {
  import opened Messages
  import opened NodeSpec
  import opened Records
  import opened Leftovers

  /** Copies of a command of the kind that an order makes a process send to its children. */
  function Copies(s: NodeState, o: Order, kind: Kind): nat {
    var down := OnOrder(s, o).down;
    if down != [] && o.Do? && ((o.cmd.Exec? && kind == ExecKind) || (o.cmd.Create? && kind == CreateKind))
    then |s.children| else 0
  }

  function Counts(r: Response, kind: Kind): int {
    if (IsGood(r) || IsBad(r)) && KindOf(r) == kind then 1 else 0
  }

  /** A history in which, for each type, the responses never outnumber the copies sent, and
      in which there is enough to spare for every NodeExist; `exec` and `create` are the
      copies not yet answered, `spare` what the create records stand for beyond that.  What
      the records do plays no part in this. */
  predicate Credible(s: NodeState, es: seq<Event>, exec: int, create: int, spare: int)
    decreases |es|
  {
    es != [] ==>
      match es[0]
      case Ordered(o) =>
        Credible(OnOrder(s, o).node, es[1..], exec + Copies(s, o, ExecKind), create + Copies(s, o, CreateKind), spare)
      case Answered(r) =>
        if r.NodeExistResponse? then
          && 1 <= create && |s.children| <= spare + 1
          && Credible(s, es[1..], exec, create - 1, spare + 1 - |s.children|)
        else
          && Counts(r, ExecKind) <= exec && Counts(r, CreateKind) <= create
          && Credible(s, es[1..], exec - Counts(r, ExecKind), create - Counts(r, CreateKind), spare)
      case Children(_) => false
  }

  /** What the records of one kind still stand for, `stood` being the copies sent for each. */
  function Balance(q: seq<Record>, stood: seq<nat>): int
    requires |stood| == |q|
  {
    if q == [] then 0 else stood[0] - q[0].count + Balance(q[1..], stood[1..])
  }

  /** No record stands for more copies than there are children now, and together they cover
      what is unanswered. */
  predicate Covered(q: seq<Record>, stood: seq<nat>, n: nat, open: int) {
    && |stood| == |q|
    && (forall k :: k in stood ==> k <= n)
    && open <= Balance(q, stood)
  }

  lemma {:induction false} BalanceAppend(q: seq<Record>, stood: seq<nat>, r: Record, k: nat)
    requires |stood| == |q|
    ensures Balance(q + [r], stood + [k]) == Balance(q, stood) + k - r.count
  {
    if q == [] {
      assert q + [r] == [r] && stood + [k] == [k];
      assert [r][1..] == [] && [k][1..] == [];
    } else {
      assert (q + [r])[1..] == q[1..] + [r] && (stood + [k])[1..] == stood[1..] + [k];
      BalanceAppend(q[1..], stood[1..], r, k);
    }
  }

  lemma CoveredDispatch(q: seq<Record>, stood: seq<nat>, n: nat, open: int, kind: Kind, k: nat)
    requires Covered(q, stood, n, open) && k <= n
    ensures Covered(q + [Fresh(kind)], stood + [k], n, open + k)
  {
    BalanceAppend(q, stood, Fresh(kind), k);
  }

  /** A response is counted in the first record, which then goes or stays. */
  lemma CoveredCount(q: seq<Record>, stood: seq<nat>, n: nat, open: int, good: bool)
    requires Covered(q, stood, n, open) && q != []
    ensures Covered([Counted(q[0], good)] + q[1..], stood, n, open - 1)
    ensures q[0].count + 1 == n ==> Covered(q[1..], stood[1..], n, open - 1)
  {
    var q' := [Counted(q[0], good)] + q[1..];
    assert q'[1..] == q[1..];
    assert stood[0] in stood;
    assert forall k :: k in stood[1..] ==> k in stood;
  }

  /** NodeExist takes the first record away. */
  lemma CoveredExist(q: seq<Record>, stood: seq<nat>, n: nat, open: int)
    requires Covered(q, stood, n, open) && q != []
    ensures Covered(q[1..], stood[1..], n, open - n)
  {
    assert stood[0] in stood;
    assert forall k :: k in stood[1..] ==> k in stood;
  }

  /** s, whose records are covered, and a history told for a state of the same family. */
  ghost predicate Follows(s: NodeState, t: NodeState, es: seq<Event>, exec: int, create: int, spare: int,
                          execStood: seq<nat>, createStood: seq<nat>) {
    && s.id == t.id && s.manager == t.manager && |s.children| == |t.children| && 0 <= spare
    && Credible(t, es, exec, create, spare)
    && Covered(Of(s.records, ExecKind), execStood, |s.children|, exec)
    && Covered(Of(s.records, CreateKind), createStood, |s.children|, create + spare)
  }

  /** The same order at two processes that differ in their records only. */
  lemma SameOrder(s: NodeState, t: NodeState, o: Order)
    requires s.id == t.id && s.manager == t.manager && |s.children| == |t.children|
    ensures var s', t' := OnOrder(s, o).node, OnOrder(t, o).node;
      && s'.id == t'.id && s'.manager == t'.manager && |s'.children| == |t'.children| >= |s.children|
      && Copies(s, o, ExecKind) == Copies(t, o, ExecKind) && Copies(s, o, CreateKind) == Copies(t, o, CreateKind)
  {
    match o
    case Kill =>
    case Do(Exec(_, _), _) =>
    case Do(Create(_, _), _) =>
    case Do(PrintTree, _) =>
  }

  /** An order leaves at most one record, for the copies it sends. */
  lemma OrderRecords(s: NodeState, o: Order) returns (left: Kind)
    ensures var s' := OnOrder(s, o).node;
      || (s'.records == s.records && Copies(s, o, ExecKind) == Copies(s, o, CreateKind) == 0)
      || (s'.records == s.records + [Fresh(left)] && forall kind :: kind != left ==> Copies(s, o, kind) == 0)
    ensures forall kind :: Copies(s, o, kind) <= |s.children|
  {
    left := if o.Do? && o.cmd.Exec? then ExecKind else CreateKind;
  }

  lemma OrderRecord(s: NodeState, o: Order, kind: Kind)
    ensures var s' := OnOrder(s, o).node;
      && Copies(s, o, kind) <= |s.children|
      && (Of(s'.records, kind) == Of(s.records, kind) + [Fresh(kind)]
          || (Of(s'.records, kind) == Of(s.records, kind) && Copies(s, o, kind) == 0))
  {
    var left := OrderRecords(s, o);
    AppendedOf(s.records, left, kind);
  }

  lemma CoverOrder(s: NodeState, o: Order, kind: Kind, stood: seq<nat>, open: int) returns (stood': seq<nat>)
    requires Covered(Of(s.records, kind), stood, |s.children|, open)
    ensures var s' := OnOrder(s, o).node;
      |s.children| <= |s'.children| ==>
      Covered(Of(s'.records, kind), stood', |s'.children|, open + Copies(s, o, kind))
  {
    var s' := OnOrder(s, o).node;
    var k := Copies(s, o, kind);
    OrderRecord(s, o, kind);
    if Of(s'.records, kind) == Of(s.records, kind) {
      stood' := stood;
    } else {
      stood' := stood + [k];
      CoveredDispatch(Of(s.records, kind), stood, |s.children|, open, kind, k);
    }
  }

  lemma CoverAnswer(s: NodeState, r: Response, kind: Kind, stood: seq<nat>, open: int) returns (stood': seq<nat>)
    requires (IsGood(r) || IsBad(r)) && LookupOk(s, r)
    requires Covered(Of(s.records, kind), stood, |s.children|, open)
    ensures Covered(Of(OnResponse(s, r).node.records, kind), stood', |s.children|, open - Counts(r, kind))
  {
    CountedOf(s, r, kind);
    stood' := stood;
    if kind == KindOf(r) {
      var q := Of(s.records, kind);
      CoveredCount(q, stood, |s.children|, open, IsGood(r));
      if Of(OnResponse(s, r).node.records, kind) == q[1..] && |stood| > 0 {
        stood' := stood[1..];
      }
    }
  }

  /** One good or bad answer. */
  lemma FollowCount(s: NodeState, r: Response, exec: int, create: int, execStood: seq<nat>, createStood: seq<nat>)
    returns (execStood': seq<nat>, createStood': seq<nat>)
    requires (IsGood(r) || IsBad(r)) && Counts(r, ExecKind) <= exec && Counts(r, CreateKind) <= create
    requires Covered(Of(s.records, ExecKind), execStood, |s.children|, exec)
    requires Covered(Of(s.records, CreateKind), createStood, |s.children|, create)
    ensures LookupOk(s, r)
    ensures var s' := OnResponse(s, r).node;
      && s' == s.(records := s'.records)
      && Covered(Of(s'.records, ExecKind), execStood', |s.children|, exec - Counts(r, ExecKind))
      && Covered(Of(s'.records, CreateKind), createStood', |s.children|, create - Counts(r, CreateKind))
  {
    Missing(s.records, KindOf(r));
    execStood' := CoverAnswer(s, r, ExecKind, execStood, exec);
    createStood' := CoverAnswer(s, r, CreateKind, createStood, create);
    CountedOf(s, r, ExecKind);
  }

  /** One NodeExist. */
  lemma FollowExist(s: NodeState, r: Response, open: int, createStood: seq<nat>) returns (createStood': seq<nat>)
    requires r.NodeExistResponse? && 1 <= open && Covered(Of(s.records, CreateKind), createStood, |s.children|, open)
    ensures LookupOk(s, r)
    ensures var s' := OnResponse(s, r).node;
      && s' == s.(records := s'.records)
      && Of(s'.records, ExecKind) == Of(s.records, ExecKind)
      && Covered(Of(s'.records, CreateKind), createStood', |s.children|, open - |s.children|)
  {
    Missing(s.records, CreateKind);
    NodeExistOf(s, r);
    CoveredExist(Of(s.records, CreateKind), createStood, |s.children|, open);
    createStood' := createStood[1..];
  }

  /** Under that condition every lookup in the history finds its record. */
  lemma {:induction false} FollowHistory(s: NodeState, t: NodeState, es: seq<Event>, exec: int, create: int, spare: int,
                                        execStood: seq<nat>, createStood: seq<nat>)
    requires Follows(s, t, es, exec, create, spare, execStood, createStood)
    ensures AllAllowed(s, es)
    decreases |es|, 1
  {
    if es != [] {
      match es[0]
      case Ordered(o) =>
        SameOrder(s, t, o);
        var execStood' := CoverOrder(s, o, ExecKind, execStood, exec);
        var createStood' := CoverOrder(s, o, CreateKind, createStood, create + spare);
        FollowHistory(OnOrder(s, o).node, OnOrder(t, o).node, es[1..], exec + Copies(t, o, ExecKind),
                      create + Copies(t, o, CreateKind), spare, execStood', createStood');
      case Answered(r) => FollowAnswer(s, t, es, r, exec, create, spare, execStood, createStood);
      case Children(_) =>
    }
  }

  lemma {:induction false} FollowAnswer(s: NodeState, t: NodeState, es: seq<Event>, r: Response,
                                       exec: int, create: int, spare: int, execStood: seq<nat>, createStood: seq<nat>)
    requires Follows(s, t, es, exec, create, spare, execStood, createStood) && es != [] && es[0] == Answered(r)
    ensures AllAllowed(s, es)
    decreases |es|, 0
  {
    if IsGood(r) || IsBad(r) {
      var execStood', createStood' := FollowCount(s, r, exec, create + spare, execStood, createStood);
      FollowHistory(OnResponse(s, r).node, t, es[1..], exec - Counts(r, ExecKind), create - Counts(r, CreateKind),
                    spare, execStood', createStood');
    } else if r.NodeExistResponse? {
      var createStood' := FollowExist(s, r, create + spare, createStood);
      FollowHistory(OnResponse(s, r).node, t, es[1..], exec, create - 1, spare + 1 - |t.children|,
                    execStood, createStood');
    } else {
      FollowHistory(OnResponse(s, r).node, t, es[1..], exec, create, spare, execStood, createStood);
    }
  }

  /** Fresh records stand for one response of every child each. */
  lemma {:induction false} FreshCover(q: seq<Record>, n: nat) returns (stood: seq<nat>)
    requires AllFresh(q)
    ensures Covered(q, stood, n, |q| * n)
  {
    if q == [] {
      stood := [];
    } else {
      assert q[0] in q && forall r :: r in q[1..] ==> r in q;
      var rest := FreshCover(q[1..], n);
      stood := [n] + rest;
      assert stood[1..] == rest;
      assert |q| * n == n + |q[1..]| * n;
    }
  }

  /** From a process with fresh records: if the responses of each type never outnumber the
      copies sent, and the fresh create records make up for what each NodeExist takes away,
      no lookup of the history fails.  Without NodeExist nothing need be made up for. */
  lemma LookupsSucceed(s: NodeState, es: seq<Event>)
    requires AllFresh(Of(s.records, ExecKind)) && AllFresh(Of(s.records, CreateKind))
    requires Credible(s, es, 0, 0, |Of(s.records, CreateKind)| * |s.children|)
    ensures AllAllowed(s, es)
  {
    var exec, create := Of(s.records, ExecKind), Of(s.records, CreateKind);
    var execStood := FreshCover(exec, |s.children|);
    var createStood := FreshCover(create, |s.children|);
    assert 0 <= |exec| * |s.children| && 0 <= |create| * |s.children|;
    FollowHistory(s, s, es, 0, 0, |create| * |s.children|, execStood, createStood);
  }

  // ---------------------------------------------------------------- NodeExist among bad answers

  function Answers(rs: seq<Response>): (es: seq<Event>)
    ensures |es| == |rs|
  {
    if rs == [] then [] else [Answered(rs[0])] + Answers(rs[1..])
  }

  /** Every one of the responses, in this order, finds a record. */
  predicate FindsRecords(s: NodeState, rs: seq<Response>) {
    AllAllowed(s, Answers(rs))
  }

  /** So many NodeExist and bad create answers, in some order, and nothing else. */
  predicate Batch(rs: seq<Response>, existing: nat, bad: nat) {
    if rs == [] then existing == 0 && bad == 0
    else if rs[0].NodeExistResponse? then existing > 0 && Batch(rs[1..], existing - 1, bad)
    else rs[0].BadCreateResp? && bad > 0 && Batch(rs[1..], existing, bad - 1)
  }

  /** What is left of a list of which only bad answers and NodeExist have been taken. */
  predicate Draining(q: seq<Record>, n: nat) {
    q != [] ==> !q[0].good && q[0].count < n && AllFresh(q[1..])
  }

  lemma OneMore(k: nat, n: nat)
    requires k > 0
    ensures k * n == n + (k - 1) * n && 0 <= (k - 1) * n
  {
  }

  function Room(q: seq<Record>, n: nat): int {
    if q == [] then 0 else n - q[0].count + |q[1..]| * n
  }

  lemma DrainRest(q: seq<Record>, n: nat)
    requires Draining(q, n) && q != [] && n > 0
    ensures Draining(q[1..], n) && Room(q, n) == n - q[0].count + Room(q[1..], n)
  {
    var rest := q[1..];
    if rest != [] {
      assert rest[0] in rest && forall r :: r in rest[1..] ==> r in rest;
      OneMore(|rest|, n);
    }
  }

  /** A bad answer takes up one place, NodeExist at most one for every child. */
  lemma DrainStep(s: NodeState, r: Response)
    requires Draining(Of(s.records, CreateKind), |s.children|) && s.children != []
    requires r.NodeExistResponse? || r.BadCreateResp?
    ensures LookupOk(s, r) <==> Of(s.records, CreateKind) != []
    ensures LookupOk(s, r) ==>
      var q, s' := Of(s.records, CreateKind), OnResponse(s, r).node;
      var q' := Of(s'.records, CreateKind);
      && s' == s.(records := s'.records) && Draining(q', |s.children|)
      && (r.BadCreateResp? ==> Room(q', |s.children|) == Room(q, |s.children|) - 1)
      && (r.NodeExistResponse? ==> q' == q[1..])
  {
    var q, n := Of(s.records, CreateKind), |s.children|;
    Missing(s.records, CreateKind);
    if q != [] {
      DrainRest(q, n);
      if r.BadCreateResp? {
        CountedOf(s, r, CreateKind);
        assert ([Counted(q[0], false)] + q[1..])[1..] == q[1..];
      } else {
        NodeExistOf(s, r);
      }
    }
  }

  lemma {:induction false} RoomIsEnough(s: NodeState, rs: seq<Response>, existing: nat, bad: nat)
    requires Draining(Of(s.records, CreateKind), |s.children|) && s.children != []
    requires Batch(rs, existing, bad) && 0 <= existing * |s.children|
    requires existing * |s.children| + bad <= Room(Of(s.records, CreateKind), |s.children|)
    ensures AllAllowed(s, Answers(rs))
    decreases |rs|
  {
    if rs != [] {
      var q, n, r := Of(s.records, CreateKind), |s.children|, rs[0];
      DrainStep(s, r);
      if r.NodeExistResponse? {
        OneMore(existing, n);
        DrainRest(q, n);
        RoomIsEnough(OnResponse(s, r).node, rs[1..], existing - 1, bad);
      } else {
        RoomIsEnough(OnResponse(s, r).node, rs[1..], existing, bad - 1);
      }
      assert Answers(rs)[1..] == Answers(rs[1..]);
    }
  }

  function Bads(bad: nat): (rs: seq<Response>)
    ensures Batch(rs, 0, bad)
  {
    if bad == 0 then [] else [BadCreateResp(0, 1)] + Bads(bad - 1)
  }

  /** First all NodeExist answers, then all bad ones. */
  function Worst(existing: nat, bad: nat): (rs: seq<Response>)
    ensures Batch(rs, existing, bad)
  {
    if existing == 0 then Bads(bad) else [NodeExistResponse(1)] + Worst(existing - 1, bad)
  }

  lemma {:induction false} BadsNeedRoom(s: NodeState, bad: nat)
    requires Draining(Of(s.records, CreateKind), |s.children|) && s.children != []
    requires AllAllowed(s, Answers(Bads(bad)))
    ensures bad <= Room(Of(s.records, CreateKind), |s.children|)
    decreases bad
  {
    var rs := Bads(bad);
    if bad == 0 {
      RoomIsNat(Of(s.records, CreateKind), |s.children|);
    } else {
      assert Answers(rs)[1..] == Answers(rs[1..]);
      DrainStep(s, rs[0]);
      BadsNeedRoom(OnResponse(s, rs[0]).node, bad - 1);
    }
  }

  lemma RoomIsNat(q: seq<Record>, n: nat)
    requires Draining(q, n)
    ensures Room(q, n) >= 0
  {
    if q != [] {
      OneMore(|q|, n);
    }
  }

  lemma FreshRoom(q: seq<Record>, n: nat)
    requires AllFresh(q) && n > 0
    ensures Draining(q, n) && Room(q, n) == |q| * n
    ensures q != [] ==> AllFresh(q[1..])
  {
    if q != [] {
      assert q[0] in q && forall r :: r in q[1..] ==> r in q;
      OneMore(|q|, n);
    }
  }

  lemma WorstStep(s: NodeState, r: Response, rest: seq<Response>)
    requires AllFresh(Of(s.records, CreateKind)) && s.children != [] && r.NodeExistResponse?
    requires AllAllowed(s, Answers([r] + rest))
    ensures var q, s' := Of(s.records, CreateKind), OnResponse(s, r).node;
      && q != [] && LookupOk(s, r) && AllAllowed(s', Answers(rest))
      && s'.children == s.children && Of(s'.records, CreateKind) == q[1..] && AllFresh(q[1..])
  {
    FreshRoom(Of(s.records, CreateKind), |s.children|);
    assert ([r] + rest)[1..] == rest;
    assert Answers([r] + rest)[1..] == Answers(rest);
    DrainStep(s, r);
  }

  lemma NeedStep(k: nat, m: nat, n: nat, more: int)
    requires k > 0 && m > 0 && (k - 1) * n + more <= (m - 1) * n
    ensures k * n + more <= m * n
  {
    OneMore(k, n);
    OneMore(m, n);
  }

  lemma {:induction false} WorstNeedsRoom(s: NodeState, existing: nat, bad: nat)
    requires AllFresh(Of(s.records, CreateKind)) && s.children != []
    requires AllAllowed(s, Answers(Worst(existing, bad)))
    ensures existing * |s.children| + bad <= |Of(s.records, CreateKind)| * |s.children|
    decreases existing
  {
    if existing == 0 {
      FreshRoom(Of(s.records, CreateKind), |s.children|);
      BadsNeedRoom(s, bad);
    } else {
      var r := NodeExistResponse(1);
      WorstStep(s, r, Worst(existing - 1, bad));
      WorstNeedsRoom(OnResponse(s, r).node, existing - 1, bad);
      NeedStep(existing, |Of(s.records, CreateKind)|, |s.children|, bad);
    }
  }

  /** A process with n children and m fresh create records: so many NodeExist and bad answers
      find their records in every order if and only if n for each NodeExist and one for each
      bad answer come to no more than n for each record. */
  lemma EveryOrderSafeIff(s: NodeState, existing: nat, bad: nat)
    requires AllFresh(Of(s.records, CreateKind)) && s.children != []
    ensures (forall rs :: Batch(rs, existing, bad) ==> FindsRecords(s, rs))
      <==> existing * |s.children| + bad <= |Of(s.records, CreateKind)| * |s.children|
  {
    var q, n := Of(s.records, CreateKind), |s.children|;
    FreshRoom(q, n);
    if existing * n + bad <= |q| * n {
      forall rs | Batch(rs, existing, bad) ensures FindsRecords(s, rs) {
        RoomIsEnough(s, rs, existing, bad);
      }
    } else {
      var worst := Worst(existing, bad);
      if FindsRecords(s, worst) {
        WorstNeedsRoom(s, existing, bad);
      }
      assert Batch(worst, existing, bad) && !FindsRecords(s, worst);
    }
  }

  /** NodeExist closes its record before the other children have answered: the next answer
      to a create command finds a record if and only if another one was there already. */
  lemma NodeExistTakesRecordAway(s: NodeState, c: Command, fork: Fork, id: nat, next: Response)
    requires c.Create? && c.newNodeId != s.id && c.parentId != s.id && |s.children| >= 2
    requires IsAnswer(next) && KindOf(next) == CreateKind
    ensures var asked := OnOrder(s, Do(c, fork)).node;
      && LookupOk(asked, NodeExistResponse(id))
      && (LookupOk(OnResponse(asked, NodeExistResponse(id)).node, next) <==> Of(s.records, CreateKind) != [])
  {
    var asked := OnOrder(s, Do(c, fork)).node;
    AppendedOf(s.records, CreateKind, CreateKind);
    Missing(asked.records, CreateKind);
    NodeExistOf(asked, NodeExistResponse(id));
    Missing(OnResponse(asked, NodeExistResponse(id)).node.records, CreateKind);
  }
}

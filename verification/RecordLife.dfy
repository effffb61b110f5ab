/**
The life of one record, and of a process whose first exec record has outlived it.
*/
module RecordLife {
  import opened Messages
  import opened NodeSpec
  import opened Records
  import opened TreeSystem

  // ---------------------------------------------------------------- feeding responses

  /** The responses are handled one after another; every lookup finds its record. */
  predicate Feedable(s: NodeState, rs: seq<Response>)
    decreases |rs|, 0
  {
    rs != [] ==>
      var before := rs[..|rs| - 1];
      Feedable(s, before) && LookupOk(Fed(s, before), rs[|rs| - 1])
  }

  /** The state after handling the responses in order. */
  function Fed(s: NodeState, rs: seq<Response>): NodeState
    requires Feedable(s, rs)
    decreases |rs|, 1
  {
    if rs == [] then s else OnResponse(Fed(s, rs[..|rs| - 1]), rs[|rs| - 1]).node
  }

  /** Everything pushed to the ancestor meanwhile. */
  function Forwarded(s: NodeState, rs: seq<Response>): seq<Response>
    requires Feedable(s, rs)
    decreases |rs|
  {
    if rs == [] then []
    else Forwarded(s, rs[..|rs| - 1]) + OnResponse(Fed(s, rs[..|rs| - 1]), rs[|rs| - 1]).up
  }

  function Goods(rs: seq<Response>): seq<Response> {
    if rs == [] then []
    else Goods(rs[..|rs| - 1]) + if IsGood(rs[|rs| - 1]) then [rs[|rs| - 1]] else []
  }

  predicate AllOf(rs: seq<Response>, kind: Kind) {
    forall r :: r in rs ==> (IsGood(r) || IsBad(r)) && KindOf(r) == kind
  }

  predicate StartsFresh(s: NodeState, kind: Kind) {
    var q := Of(s.records, kind);
    q != [] && q[0] == Fresh(kind)
  }

  /** One response for a record that it does not fill. */
  lemma FillOne(s: NodeState, r: Response, kind: Kind, count: nat, good: bool, tail: seq<Record>)
    requires Of(s.records, kind) == [Record(kind, count, good)] + tail && count + 1 < |s.children|
    requires (IsGood(r) || IsBad(r)) && KindOf(r) == kind
    ensures LookupOk(s, r)
    ensures var e := OnResponse(s, r);
      && e.node == s.(records := e.node.records)
      && e.up == (if IsGood(r) then [r] else [])
      && Of(e.node.records, kind) == [Record(kind, count + 1, good || IsGood(r))] + tail
  {
    Missing(s.records, kind);
    CountedOf(s, r, kind);
  }

  /** What a fresh record and the responses fed to it have come to. */
  predicate Filling(s: NodeState, kind: Kind, rs: seq<Response>, tail: seq<Record>) {
    && Feedable(s, rs)
    && Forwarded(s, rs) == Goods(rs)
    && Fed(s, rs) == s.(records := Fed(s, rs).records)
    && Of(Fed(s, rs).records, kind) == [Record(kind, |rs|, Goods(rs) != [])] + tail
  }

  lemma FillStep(s: NodeState, kind: Kind, rs: seq<Response>, before: seq<Response>, r: Response, tail: seq<Record>)
    requires rs != [] && before == rs[..|rs| - 1] && r == rs[|rs| - 1] && |rs| < |s.children|
    requires Filling(s, kind, before, tail) && (IsGood(r) || IsBad(r)) && KindOf(r) == kind
    ensures Filling(s, kind, rs, tail)
  {
    var f := Fed(s, before);
    FillOne(f, r, kind, |before|, Goods(before) != [], tail);
    FeedOne(s, rs, before, r, f);
  }

  lemma FillStart(s: NodeState, kind: Kind)
    requires StartsFresh(s, kind)
    ensures Filling(s, kind, [], Of(s.records, kind)[1..])
  {
    var q := Of(s.records, kind);
    assert q == [q[0]] + q[1..];
  }

  /** While the record is not full: only good answers pass, and the record counts. */
  lemma {:induction false} RecordFills(s: NodeState, kind: Kind, rs: seq<Response>)
    requires StartsFresh(s, kind) && AllOf(rs, kind) && |rs| < |s.children|
    ensures Filling(s, kind, rs, Of(s.records, kind)[1..])
    decreases |rs|
  {
    if rs == [] {
      FillStart(s, kind);
    } else {
      RecordFills(s, kind, rs[..|rs| - 1]);
      FillStep(s, kind, rs, rs[..|rs| - 1], rs[|rs| - 1], Of(s.records, kind)[1..]);
    }
  }

  lemma FeedOne(s: NodeState, rs: seq<Response>, before: seq<Response>, r: Response, f: NodeState)
    requires rs != [] && before == rs[..|rs| - 1] && r == rs[|rs| - 1]
    requires Feedable(s, before) && f == Fed(s, before) && LookupOk(f, r)
    ensures Feedable(s, rs) && Fed(s, rs) == OnResponse(f, r).node
    ensures Forwarded(s, rs) == Forwarded(s, before) + OnResponse(f, r).up
    ensures Goods(rs) == Goods(before) + if IsGood(r) then [r] else []
  {
  }

  /** The whole life of a record at a process with n children: of n responses all good ones
      are passed on in order, or else the last bad one; the record is gone afterwards exactly
      if there was no good answer or the good answer was the last, otherwise it stays full. */
  lemma RecordLifetime(s: NodeState, kind: Kind, rs: seq<Response>)
    requires StartsFresh(s, kind) && AllOf(rs, kind) && |rs| == |s.children| > 0
    ensures Feedable(s, rs)
    ensures Forwarded(s, rs) == if Goods(rs) == [] then [rs[|rs| - 1]] else Goods(rs)
    ensures Of(Fed(s, rs).records, kind) ==
      if Goods(rs) == [] || IsGood(rs[|rs| - 1]) then Of(s.records, kind)[1..]
      else [Record(kind, |rs|, true)] + Of(s.records, kind)[1..]
  {
    var before, r := rs[..|rs| - 1], rs[|rs| - 1];
    RecordFills(s, kind, before);
    Missing(Fed(s, before).records, kind);
    CountedOf(Fed(s, before), r, kind);
    FeedOne(s, rs, before, r, Fed(s, before));
  }

  // ---------------------------------------------------------------- the record that stays

  /** The first exec record is full and has seen a good answer. */
  predicate Stuck(s: NodeState) {
    var q := Of(s.records, ExecKind);
    && s.children != []
    && q != [] && q[0].good && q[0].count >= |s.children|
  }

  function BadExecs(rs: seq<Response>): nat {
    if rs == [] then 0 else (if rs[0].BadExecResp? then 1 else 0) + BadExecs(rs[1..])
  }

  lemma {:induction false} BadExecsConcat(a: seq<Response>, b: seq<Response>)
    ensures BadExecs(a + b) == BadExecs(a) + BadExecs(b)
  {
    if a == [] {
      assert a + b == b;
    } else {
      assert (a + b)[1..] == a[1..] + b;
      BadExecsConcat(a[1..], b);
    }
  }

  lemma StuckResponse(s: NodeState, r: Response)
    requires Stuck(s) && LookupOk(s, r)
    ensures var e := OnResponse(s, r);
      && Stuck(e.node) && e.node.id == s.id
      && BadExecs(e.up) == 0
      && (r.GoodExecResp? ==> e.up == [r])
  {
    if IsGood(r) || IsBad(r) {
      CountedOf(s, r, ExecKind);
      if IsGood(r) {
        assert [r][1..] == [];
      }
      if r.BadCreateResp? {
        assert [r][1..] == [];
      }
    } else if r.NodeExistResponse? {
      NodeExistOf(s, r);
      assert [r][1..] == [];
    } else if !r.Heartbeat? {
      assert [r][1..] == [];
    }
  }

  /** The orders at this process make it fork no child. */
  predicate NoForkHere(o: Order, id: nat) {
    o.Do? && (o.cmd.Create? && o.cmd.parentId == id && o.cmd.newNodeId != id ==> o.fork.ForkFailed?)
  }

  lemma StuckOrder(s: NodeState, o: Order)
    requires Stuck(s) && NoForkHere(o, s.id)
    ensures var e := OnOrder(s, o);
      Stuck(e.node) && e.node.id == s.id && BadExecs(e.up) == 0
  {
    AppendedOf(s.records, ExecKind, ExecKind);
    AppendedOf(s.records, CreateKind, ExecKind);
    var e := OnOrder(s, o);
    if e.up != [] {
      assert e.up[1..] == [];
    }
  }

  lemma StuckMove(t: Tree, m: Move)
    requires Enabled(t, m) && Calm(m) && Stuck(t.node) && forall o :: o in t.down ==> NoForkHere(o, t.node.id)
    ensures var t' := Apply(t, m);
      && Stuck(t'.node) && t'.node.id == t.node.id
      && BadExecs(t'.up) == BadExecs(t.up)
      && (forall o :: o in t'.down ==> NoForkHere(o, t.node.id))
  {
    match m
    case Take =>
      StuckOrder(t.node, t.down[0]);
      BadExecsConcat(t.up, OnOrder(t.node, t.down[0]).up);
    case Count(i) =>
      StuckResponse(t.node, t.kids[i].up[0]);
      BadExecsConcat(t.up, OnResponse(t.node, t.kids[i].up[0]).up);
    case Beat(time) =>
      BadExecsConcat(t.up, [Heartbeat(t.node.id, time)]);
      assert [Heartbeat(t.node.id, time)][1..] == [];
    case _ =>
  }

  /** A process with such a record never tells its ancestor again that an exec has failed,
      whatever commands it still gets and whatever its children answer, as long as it gets
      no further child: those exec commands stay unanswered for good. */
  lemma {:induction false} StuckLosesBadAnswers(t: Tree, ms: seq<Move>)
    requires Possible(t, ms) && AllCalm(ms) && Stuck(t.node)
    requires forall o :: o in t.down ==> NoForkHere(o, t.node.id)
    ensures BadExecs(Run(t, ms).up) == BadExecs(t.up) && Stuck(Run(t, ms).node)
    decreases |ms|
  {
    if ms != [] {
      StuckMove(t, ms[0]);
      StuckLosesBadAnswers(Apply(t, ms[0]), ms[1..]);
    }
  }
}

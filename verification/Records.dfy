/**
The record list seen one command type at a time: the handlers of one type never look at
the records of the other, so each type has a list of its own.
*/
module Records {
  import opened Messages
  import opened NodeSpec

  /** The records of one kind, in order. */
  function Of(records: seq<Record>, kind: Kind): seq<Record> {
    if records == [] then []
    else (if records[0].kind == kind then [records[0]] else []) + Of(records[1..], kind)
  }

  predicate AllFresh(q: seq<Record>) {
    forall r :: r in q ==> r.count == 0 && !r.good
  }

  lemma {:induction false} OfConcat(a: seq<Record>, b: seq<Record>, kind: Kind)
    ensures Of(a + b, kind) == Of(a, kind) + Of(b, kind)
  {
    if a == [] {
      assert a + b == b;
    } else {
      assert (a + b)[1..] == a[1..] + b;
      OfConcat(a[1..], b, kind);
    }
  }

  /** The first record of a kind splits the list. */
  lemma {:induction false} FindSplits(records: seq<Record>, kind: Kind)
    ensures var i := Find(records, kind);
      && Of(records[..i], kind) == []
      && (i == |records| ==> Of(records, kind) == [])
      && (i < |records| ==> Of(records, kind) == [records[i]] + Of(records[i + 1..], kind))
  {
    var i := Find(records, kind);
    if records != [] && records[0].kind != kind {
      FindSplits(records[1..], kind);
      assert records[..i][1..] == records[1..][..i - 1];
      if i < |records| {
        assert records[1..][i - 1 + 1..] == records[i + 1..];
      }
    }
  }

  lemma Missing(records: seq<Record>, kind: Kind)
    ensures Find(records, kind) < |records| <==> Of(records, kind) != []
  {
    FindSplits(records, kind);
  }

  lemma Of3(a: seq<Record>, b: seq<Record>, c: seq<Record>, kind: Kind)
    ensures Of(a + b + c, kind) == Of(a, kind) + Of(b, kind) + Of(c, kind)
  {
    OfConcat(a + b, c, kind);
    OfConcat(a, b, kind);
  }

  lemma OfOne(rs: seq<Record>, kind: Kind)
    requires |rs| <= 1
    ensures Of(rs, kind) == if rs != [] && rs[0].kind == kind then rs else []
  {
    if |rs| == 1 {
      assert rs[1..] == [];
    }
  }

  /** Replacing the first record of a kind by at most one record of that kind. */
  lemma Replaced(before: seq<Record>, kind: Kind, behind: seq<Record>, rs: seq<Record>)
    requires Of(before, kind) == []
    requires rs == [] || (|rs| == 1 && rs[0].kind == kind)
    ensures Of(before + rs + behind, kind) == rs + Of(behind, kind)
  {
    Of3(before, rs, behind, kind);
    OfOne(rs, kind);
  }

  lemma Untouched(before: seq<Record>, r: Record, behind: seq<Record>, rs: seq<Record>, other: Kind)
    requires rs == [] || (|rs| == 1 && rs[0].kind == r.kind)
    requires other != r.kind
    ensures Of(before + rs + behind, other) == Of(before + [r] + behind, other)
  {
    Of3(before, rs, behind, other);
    Of3(before, [r], behind, other);
    OfOne(rs, other);
    OfOne([r], other);
  }

  /** The first record of a kind is the head of the list of that kind; the list after that
      record is removed or updated. */
  lemma HeadOf(records: seq<Record>, kind: Kind, rec: Record, other: Kind)
    requires Find(records, kind) < |records|
    requires rec.kind == kind
    ensures var i := Find(records, kind);
      var q := Of(records, kind);
      && q != [] && q[0] == records[i]
      && Of(Without(records, i), kind) == q[1..]
      && Of(records[i := rec], kind) == [rec] + q[1..]
      && (other != kind ==>
            Of(Without(records, i), other) == Of(records, other) == Of(records[i := rec], other))
  {
    var i := Find(records, kind);
    var before, behind := records[..i], records[i + 1..];
    FindSplits(records, kind);
    assert records == before + [records[i]] + behind;
    assert Without(records, i) == before + [] + behind;
    assert records[i := rec] == before + [rec] + behind;
    Replaced(before, kind, behind, []);
    Replaced(before, kind, behind, [rec]);
    if other != kind {
      Untouched(before, records[i], behind, [], other);
      Untouched(before, records[i], behind, [rec], other);
    }
  }

  /** What counting one response does to the list of its kind, and to nothing else. */
  lemma CountedOf(s: NodeState, r: Response, other: Kind)
    requires (IsGood(r) || IsBad(r)) && LookupOk(s, r)
    ensures var q := Of(s.records, KindOf(r));
      && q != []
      && var rec := Counted(q[0], IsGood(r));
         var e := OnResponse(s, r);
         && e.node == s.(records := e.node.records)
         && (other != KindOf(r) ==> Of(e.node.records, other) == Of(s.records, other))
         && if rec.count == |s.children| && (IsGood(r) || !rec.good)
            then e.up == [r] && Of(e.node.records, KindOf(r)) == q[1..]
            else e.up == (if IsGood(r) then [r] else []) && Of(e.node.records, KindOf(r)) == [rec] + q[1..]
  {
    var i := Find(s.records, KindOf(r));
    HeadOf(s.records, KindOf(r), Counted(s.records[i], IsGood(r)), other);
  }

  lemma NodeExistOf(s: NodeState, r: Response)
    requires r.NodeExistResponse? && LookupOk(s, r)
    ensures var q := Of(s.records, CreateKind);
      var e := OnResponse(s, r);
      && q != []
      && e.node == s.(records := e.node.records)
      && e.up == [r]
      && Of(e.node.records, CreateKind) == q[1..]
      && Of(e.node.records, ExecKind) == Of(s.records, ExecKind)
  {
    HeadOf(s.records, CreateKind, Fresh(CreateKind), ExecKind);
  }

  lemma AppendedOf(records: seq<Record>, kind: Kind, other: Kind)
    ensures Of(records + [Fresh(kind)], kind) == Of(records, kind) + [Fresh(kind)]
    ensures other != kind ==> Of(records + [Fresh(kind)], other) == Of(records, other)
  {
    var one := [Fresh(kind)];
    assert one[1..] == [];
    OfConcat(records, one, kind);
    OfConcat(records, one, other);
  }
}

/**
The tree of ids: what is left of a calculation tree when its messages and records are
forgotten.
*/
module Shapes {
  import opened NodeSpec
  import opened TreeSystem

  datatype Shape = Shape(id: nat, kids: seq<Shape>)

  function ShapeOf(t: Tree): Shape
    decreases t
  {
    Shape(t.node.id, ShapesOf(t.kids))
  }

  function ShapesOf(ts: seq<Tree>): (r: seq<Shape>)
    ensures |r| == |ts|
    decreases ts
  {
    if ts == [] then [] else [ShapeOf(ts[0])] + ShapesOf(ts[1..])
  }

  /** How many processes have the id. */
  function Places(s: Shape, id: nat): nat
    decreases s
  {
    (if s.id == id then 1 else 0) + PlacesAll(s.kids, id)
  }

  function PlacesAll(ss: seq<Shape>, id: nat): nat
    decreases ss
  {
    if ss == [] then 0 else Places(ss[0], id) + PlacesAll(ss[1..], id)
  }

  ghost predicate Distinct(s: Shape) {
    forall id :: Places(s, id) <= 1
  }

  /** The tree in which x is the last child of p. */
  function Grown(s: Shape, x: nat, p: nat): Shape
    decreases s
  {
    if s.id == p then Shape(s.id, s.kids + [Shape(x, [])]) else Shape(s.id, GrownAll(s.kids, x, p))
  }

  function GrownAll(ss: seq<Shape>, x: nat, p: nat): (r: seq<Shape>)
    ensures |r| == |ss|
    decreases ss
  {
    if ss == [] then [] else [Grown(ss[0], x, p)] + GrownAll(ss[1..], x, p)
  }

  lemma {:induction false} ShapesAt(ts: seq<Tree>, i: nat)
    requires i < |ts|
    ensures ShapesOf(ts)[i] == ShapeOf(ts[i])
  {
    if i > 0 {
      ShapesAt(ts[1..], i - 1);
    }
  }

  lemma {:induction false} PlacesConcat(a: seq<Shape>, b: seq<Shape>, id: nat)
    ensures PlacesAll(a + b, id) == PlacesAll(a, id) + PlacesAll(b, id)
  {
    if a == [] {
      assert a + b == b;
    } else {
      assert (a + b)[1..] == a[1..] + b;
      PlacesConcat(a[1..], b, id);
    }
  }

  /** Growing adds the new id once for every process that has the parent's id, and nothing else. */
  lemma {:induction false} GrownPlaces(s: Shape, x: nat, p: nat, id: nat)
    requires Places(s, p) <= 1
    ensures Places(Grown(s, x, p), id) == Places(s, id) + if id == x then Places(s, p) else 0
    decreases s
  {
    if s.id == p {
      PlacesConcat(s.kids, [Shape(x, [])], id);
      assert [Shape(x, [])][1..] == [];
      assert PlacesAll([Shape(x, [])], id) == Places(Shape(x, []), id);
    } else {
      GrownAllPlaces(s.kids, x, p, id);
    }
  }

  lemma {:induction false} GrownAllPlaces(ss: seq<Shape>, x: nat, p: nat, id: nat)
    requires PlacesAll(ss, p) <= 1
    ensures PlacesAll(GrownAll(ss, x, p), id) == PlacesAll(ss, id) + if id == x then PlacesAll(ss, p) else 0
    decreases ss
  {
    if ss != [] {
      GrownPlaces(ss[0], x, p, id);
      GrownAllPlaces(ss[1..], x, p, id);
      assert GrownAll(ss, x, p)[1..] == GrownAll(ss[1..], x, p);
    }
  }

  /** A create with a fresh id keeps the ids distinct. */
  lemma GrownDistinct(s: Shape, x: nat, p: nat)
    requires Distinct(s) && Places(s, x) == 0
    ensures Distinct(Grown(s, x, p))
  {
    forall id ensures Places(Grown(s, x, p), id) <= 1 {
      assert Places(s, p) <= 1;
      GrownPlaces(s, x, p, id);
      assert Places(s, id) <= 1;
    }
  }

  /** Nothing grows under a parent that is not there. */
  lemma {:induction false} GrownNowhere(s: Shape, x: nat, p: nat)
    requires Places(s, p) == 0
    ensures Grown(s, x, p) == s
    decreases s
  {
    GrownNowhereAll(s.kids, x, p);
  }

  lemma {:induction false} GrownNowhereAll(ss: seq<Shape>, x: nat, p: nat)
    requires PlacesAll(ss, p) == 0
    ensures GrownAll(ss, x, p) == ss
    decreases ss
  {
    if ss != [] {
      GrownNowhere(ss[0], x, p);
      GrownNowhereAll(ss[1..], x, p);
      assert ss == [ss[0]] + ss[1..];
    }
  }

  // ---------------------------------------------------------------- shapes of lists of trees

  lemma {:induction false} ShapesUpdate(ts: seq<Tree>, i: nat, t: Tree)
    requires i < |ts|
    ensures ShapesOf(ts[i := t]) == ShapesOf(ts)[i := ShapeOf(t)]
  {
    if i == 0 {
      assert ts[i := t][1..] == ts[1..];
    } else {
      assert ts[i := t][1..] == ts[1..][i - 1 := t];
      ShapesUpdate(ts[1..], i - 1, t);
    }
  }

  lemma ShapesSame(ts: seq<Tree>, i: nat, t: Tree)
    requires i < |ts| && ShapeOf(t) == ShapeOf(ts[i])
    ensures ShapesOf(ts[i := t]) == ShapesOf(ts)
  {
    ShapesUpdate(ts, i, t);
    ShapesAt(ts, i);
  }

  lemma {:induction false} ShapesBroadcast(ts: seq<Tree>, o: seq<Order>)
    ensures ShapesOf(Broadcast(ts, o)) == ShapesOf(ts)
  {
    if ts != [] {
      assert Broadcast(ts, o)[1..] == Broadcast(ts[1..], o);
      ShapesBroadcast(ts[1..], o);
    }
  }
}

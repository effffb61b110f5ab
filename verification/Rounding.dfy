/** What six decimal digits do to numbers and to their sums. */
module Rounding {
  import opened Messages
  import opened Decimal

  function Abs(x: real): real { if x < 0.0 then -x else x }

  /** A multiple of a millionth. */
  predicate Exact(r: real) { (r * 1000000.0).Floor as real == r * 1000000.0 }

  function Snapped(k: seq<real>): (s: seq<real>)
    ensures |s| == |k|
  {
    seq(|k|, i requires 0 <= i < |k| => Snap(k[i]))
  }

  predicate AllExact(k: seq<real>) { forall i :: 0 <= i < |k| ==> Exact(k[i]) }

  lemma MillionthsNear(r: real)
    requires r >= 0.0
    ensures Abs(Millionths(r) as real - r * 1000000.0) <= 0.5
  {}

  lemma ExactMillionths(q: int)
    ensures Exact(q as real / 1000000.0)
  {
    assert q as real / 1000000.0 * 1000000.0 == q as real;
  }

  /** Printing and reading back moves a number by at most half a millionth ... */
  lemma SnapNear(r: real)
    ensures Abs(Snap(r) - r) <= 0.0000005
  {
    MillionthsNear(if r < 0.0 then -r else r);
  }

  /** ... to a multiple of a millionth ... */
  lemma SnapExact(r: real)
    ensures Exact(Snap(r))
  {
    var q: int := Millionths(if r < 0.0 then -r else r);
    ExactMillionths(q);
    ExactMillionths(0 - q);
  }

  lemma MillionthsOfExact(s: real)
    requires s >= 0.0 && Exact(s)
    ensures Millionths(s) as real / 1000000.0 == s
  {
    assert Millionths(s) as real == s * 1000000.0;
  }

  lemma ExactNegative(r: real)
    requires Exact(r)
    ensures Exact(0.0 - r)
  {
    var q := (r * 1000000.0).Floor;
    assert (0.0 - r) * 1000000.0 == (0 - q) as real;
  }

  /** ... and leaves exactly the multiples of a millionth alone. */
  lemma SnapFixesExact(r: real)
    ensures Snap(r) == r <==> Exact(r)
  {
    SnapExact(r);
    if Exact(r) {
      ExactNegative(r);
      assert -r == 0.0 - r;
      MillionthsOfExact(if r < 0.0 then -r else r);
    }
  }

  /** No multiple of a millionth is nearer. */
  lemma SnapNearest(r: real, q: int)
    ensures Abs(Snap(r) - r) <= Abs(q as real / 1000000.0 - r)
  {
    var s := if r < 0.0 then -r else r;
    var p := if r < 0.0 then -q else q;
    NearestMillionth(s, p);
    assert Abs(q as real / 1000000.0 - r) == Abs(p as real / 1000000.0 - s);
    assert Abs(Snap(r) - r) == Abs(Millionths(s) as real / 1000000.0 - s);
  }

  lemma NearestMillionth(s: real, p: int)
    requires s >= 0.0
    ensures Abs(Millionths(s) as real / 1000000.0 - s) <= Abs(p as real / 1000000.0 - s)
  {
    var scaled := s * 1000000.0;
    var below := scaled.Floor;
    assert p <= below || p >= below + 1;
    assert Abs(Millionths(s) as real - scaled) <= Abs(p as real - scaled);
  }

  /** Half way between two millionths the even one is taken. */
  lemma TiesToEven(r: real, q: nat)
    requires r * 1000000.0 == q as real + 0.5
    ensures Millionths(r) == if q % 2 == 0 then q else q + 1
  {
  }

  lemma ExactPlus(a: real, b: real)
    requires Exact(a) && Exact(b)
    ensures Exact(a + b)
  {
    var p, q := (a * 1000000.0).Floor, (b * 1000000.0).Floor;
    assert (a + b) * 1000000.0 == (p + q) as real;
  }

  /** A sum of multiples of a millionth needs no further rounding. */
  lemma {:induction false} SumExact(k: seq<real>)
    requires AllExact(k)
    ensures Exact(Sum(k))
  {
    if k != [] {
      SumExact(k[..|k| - 1]);
      ExactPlus(Sum(k[..|k| - 1]), k[|k| - 1]);
    }
  }

  lemma SnappedExact(k: seq<real>)
    ensures AllExact(Snapped(k))
  {
    forall i | 0 <= i < |k| ensures Exact(Snapped(k)[i]) {
      SnapExact(k[i]);
    }
  }

  /** Rounding is idempotent. */
  lemma SnappedTwice(k: seq<real>)
    ensures Snapped(Snapped(k)) == Snapped(k)
  {
    forall i | 0 <= i < |k| ensures Snapped(Snapped(k))[i] == Snapped(k)[i] {
      SnapExact(k[i]);
      SnapFixesExact(Snap(k[i]));
    }
  }

  /** Rounding n numbers moves their sum by at most n half millionths. */
  lemma {:induction false} SumNear(k: seq<real>)
    ensures Abs(Sum(Snapped(k)) - Sum(k)) <= |k| as real * 0.0000005
  {
    if k != [] {
      var init, last := k[..|k| - 1], k[|k| - 1];
      SumNear(init);
      SnapNear(last);
      assert Snapped(k)[..|k| - 1] == Snapped(init);
    }
  }
}

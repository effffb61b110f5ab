/**
What one heartbeat sweep does to a child list, by the runs of late children in it.
*/
module SweepRuns {
  import opened Messages
  import opened Sweep

  function Trues(l: nat): (s: seq<bool>)
    ensures |s| == l
  {
    if l == 0 then [] else [true] + Trues(l - 1)
  }

  /** Runs of late children, each followed by a child that is alive. */
  function Flags(runs: seq<nat>): seq<bool> {
    if runs == [] then [] else Trues(runs[0]) + [false] + Flags(runs[1..])
  }

  function Halves(runs: seq<nat>): seq<nat> {
    if runs == [] then [] else [runs[0] / 2] + Halves(runs[1..])
  }

  /** Every child list is made of such runs and perhaps a run of late children at its end. */
  lemma {:induction false} Decompose(late: seq<bool>) returns (runs: seq<nat>, m: nat)
    ensures late == Flags(runs) + Trues(m)
  {
    if late == [] {
      runs, m := [], 0;
    } else {
      runs, m := Decompose(late[1..]);
      if !late[0] {
        assert Flags([0] + runs) == [false] + Flags(runs) by {
          assert ([0] + runs)[1..] == runs;
        }
        runs := [0] + runs;
        assert late == [false] + late[1..];
      } else if runs == [] {
        m := m + 1;
        assert late == [true] + late[1..];
      } else {
        var longer := [runs[0] + 1] + runs[1..];
        assert longer[1..] == runs[1..];
        assert Flags(longer) == [true] + Flags(runs);
        assert late == [true] + late[1..];
        runs := longer;
      }
    }
  }

  // ---------------------------------------------------------------- one run

  /** A live child is kept. */
  lemma OneAlive(rest: seq<bool>)
    ensures Erased([false] + rest).Ok? <==> Erased(rest).Ok?
    ensures Erased(rest).Ok? ==>
      Pick([false] + rest, Erased([false] + rest).value, false) == [false] + Pick(rest, Erased(rest).value, false)
  {
    assert ([false] + rest)[1..] == rest;
    if Erased(rest).Ok? {
      assert ([false] + Erased(rest).value)[1..] == Erased(rest).value;
    }
  }

  /** An erased child and the one behind it that is skipped. */
  lemma TwoSteps(next: bool, rest: seq<bool>)
    ensures Erased([true, next] + rest).Ok? <==> Erased(rest).Ok?
    ensures Erased(rest).Ok? ==>
      Pick([true, next] + rest, Erased([true, next] + rest).value, false)
        == [next] + Pick(rest, Erased(rest).value, false)
  {
    var late := [true, next] + rest;
    assert late[2..] == rest && late[1..] == [next] + rest && ([next] + rest)[1..] == rest;
    if Erased(rest).Ok? {
      var e := Erased(rest).value;
      var erased := [true, false] + e;
      assert erased[1..] == [false] + e && ([false] + e)[1..] == e;
    }
  }

  /** One sweep turns one list into the other; or it steps past the end of both. */
  ghost predicate Sweeps(late: seq<bool>, rest: seq<bool>, before: seq<bool>) {
    && (Erased(late).Ok? <==> Erased(rest).Ok?)
    && (Erased(rest).Ok? ==>
          Pick(late, Erased(late).value, false) == before + Pick(rest, Erased(rest).value, false))
  }

  lemma SweepsLonger(late: seq<bool>, shorter: seq<bool>, rest: seq<bool>, before: seq<bool>)
    requires Sweeps(shorter, rest, before) && late == [true, true] + shorter
    ensures Sweeps(late, rest, [true] + before)
  {
    TwoSteps(true, shorter);
    if Erased(rest).Ok? {
      var kept := Pick(rest, Erased(rest).value, false);
      assert [true] + (before + kept) == ([true] + before) + kept;
    }
  }

  lemma RunAhead(l: nat, rest: seq<bool>)
    requires l >= 2
    ensures Trues(l) + [false] + rest == [true, true] + (Trues(l - 2) + [false] + rest)
    ensures [true] + (Trues((l - 2) / 2) + [false]) == Trues(l / 2) + [false]
  {
    assert Trues(l) == [true, true] + Trues(l - 2);
    assert Trues(l / 2) == [true] + Trues((l - 2) / 2);
  }

  /** The sweep's view of a run in front of the rest of the list. */
  lemma {:induction false} OneRun(l: nat, rest: seq<bool>)
    ensures Sweeps(Trues(l) + [false] + rest, rest, Trues(l / 2) + [false])
  {
    if l == 0 {
      assert Trues(l) + [false] == [false];
      OneAlive(rest);
    } else if l == 1 {
      assert Trues(1) == [true];
      assert Trues(l) + [false] + rest == [true, false] + rest;
      TwoSteps(false, rest);
    } else {
      OneRun(l - 2, rest);
      RunAhead(l, rest);
      SweepsLonger(Trues(l) + [false] + rest, Trues(l - 2) + [false] + rest, rest, Trues((l - 2) / 2) + [false]);
    }
  }

  /** Of every run of L late children, one sweep leaves floor(L/2). */
  lemma {:induction false} SweepHalvesRuns(runs: seq<nat>)
    ensures Erased(Flags(runs)).Ok?
    ensures Pick(Flags(runs), Erased(Flags(runs)).value, false) == Flags(Halves(runs))
  {
    if runs != [] {
      SweepHalvesRuns(runs[1..]);
      OneRun(runs[0], Flags(runs[1..]));
      assert Halves(runs)[1..] == Halves(runs[1..]);
    }
  }

  lemma {:induction false} TrailingRun(m: nat)
    ensures Erased(Trues(m)).Ok? <==> m % 2 == 0
  {
    if m >= 2 {
      assert Trues(m) == [true, true] + Trues(m - 2);
      assert Trues(m)[2..] == Trues(m - 2);
      TrailingRun(m - 2);
    } else if m == 1 {
      assert Trues(1) == [true];
    }
  }

  /** The walk steps past the end of the list exactly when the list ends in an odd number of
      late children. */
  lemma {:induction false} PastTheEndIff(runs: seq<nat>, m: nat)
    ensures Erased(Flags(runs) + Trues(m)).Thrown? <==> m % 2 == 1
  {
    if runs == [] {
      assert Flags(runs) + Trues(m) == Trues(m);
      TrailingRun(m);
    } else {
      PastTheEndIff(runs[1..], m);
      OneRun(runs[0], Flags(runs[1..]) + Trues(m));
      assert Flags(runs) + Trues(m) == Trues(runs[0]) + [false] + (Flags(runs[1..]) + Trues(m));
    }
  }

  // ---------------------------------------------------------------- the children themselves

  /** Only late children are erased. */
  lemma {:induction false} ErasedAreLate(late: seq<bool>, i: nat)
    requires Erased(late).Ok? && i < |late| && Erased(late).value[i]
    ensures late[i]
  {
    if !late[0] {
      assert Erased(late).value == [false] + Erased(late[1..]).value;
      ErasedAreLate(late[1..], i - 1);
    } else if i >= 2 {
      assert Erased(late).value == [true, false] + Erased(late[2..]).value;
      ErasedAreLate(late[2..], i - 2);
    }
  }

  /** How many late children stand directly before position i. */
  function RunBefore(late: seq<bool>, i: nat): nat
    requires i <= |late|
  {
    if i > 0 && late[i - 1] then 1 + RunBefore(late, i - 1) else 0
  }

  lemma {:induction false} RunShifted(late: seq<bool>, n: nat, i: nat)
    requires n <= i <= |late| && (n > 0 ==> !late[n - 1] || RunBefore(late, n) % 2 == 0)
    ensures RunBefore(late, i) % 2 == RunBefore(late[n..], i - n) % 2
  {
    if i > n {
      RunShifted(late, n, i - 1);
    }
  }

  /** Exactly which children are erased: the first, third, fifth ... of every run of late ones. */
  lemma {:induction false} ErasedIff(late: seq<bool>, i: nat)
    requires Erased(late).Ok? && i < |late|
    ensures Erased(late).value[i] <==> late[i] && RunBefore(late, i) % 2 == 0
  {
    if !late[0] {
      assert Erased(late).value == [false] + Erased(late[1..]).value;
      if i > 0 {
        ErasedIff(late[1..], i - 1);
        RunShifted(late, 1, i);
      }
    } else {
      assert Erased(late).value == [true, false] + Erased(late[2..]).value;
      if i >= 2 {
        assert RunBefore(late, 1) == 1;
        ErasedIff(late[2..], i - 2);
        RunShifted(late, 2, i);
      }
    }
  }

  /** Survivors and erased children together are the children there were. */
  lemma {:induction false} PickParts<T>(xs: seq<T>, flags: seq<bool>)
    requires |xs| == |flags|
    ensures multiset(Pick(xs, flags, false)) + multiset(Pick(xs, flags, true)) == multiset(xs)
  {
    if xs != [] {
      PickParts(xs[1..], flags[1..]);
      assert xs == [xs[0]] + xs[1..];
    }
  }

  /** Picking keeps the order: it is picking by position. */
  function Positions(flags: seq<bool>, flag: bool, from: nat): (r: seq<nat>)
    ensures forall k :: 0 <= k < |r| ==> from <= r[k] < from + |flags| && flags[r[k] - from] == flag
    ensures forall j, k :: 0 <= j < k < |r| ==> r[j] < r[k]
  {
    if flags == [] then [] else (if flags[0] == flag then [from] else []) + Positions(flags[1..], flag, from + 1)
  }

  lemma {:induction false} PickInOrder<T>(xs: seq<T>, flags: seq<bool>, flag: bool, all: seq<T>, from: nat)
    requires |xs| == |flags| && from + |xs| == |all| && all[from..] == xs
    ensures var ps := Positions(flags, flag, from);
      && |Pick(xs, flags, flag)| == |ps|
      && forall k :: 0 <= k < |ps| ==> Pick(xs, flags, flag)[k] == all[ps[k]]
  {
    if xs != [] {
      assert all[from + 1..] == xs[1..];
      PickInOrder(xs[1..], flags[1..], flag, all, from + 1);
    }
  }

  // ---------------------------------------------------------------- repeated sweeps

  function Pow2(k: nat): nat {
    if k == 0 then 1 else 2 * Pow2(k - 1)
  }

  /** The flags of the children left after k sweeps with the same children late. */
  function AfterSweeps(late: seq<bool>, k: nat): Result<seq<bool>>
    decreases k
  {
    if k == 0 then Ok(late)
    else
      match Erased(late)
      case Ok(e) => AfterSweeps(Pick(late, e, false), k - 1)
      case Thrown => Thrown
  }

  /** The length of the longest run. */
  function Longest(runs: seq<nat>): (m: nat)
    ensures forall l :: l in runs ==> l <= m
    ensures m > 0 ==> m in runs
  {
    if runs == [] then 0
    else
      var m := Longest(runs[1..]);
      assert forall l :: l in runs ==> l == runs[0] || l in runs[1..];
      if runs[0] > m then runs[0] else m
  }

  lemma {:induction false} LongestHalved(runs: seq<nat>)
    ensures Longest(Halves(runs)) == Longest(runs) / 2
  {
    if runs != [] {
      LongestHalved(runs[1..]);
      assert Halves(runs)[1..] == Halves(runs[1..]);
    }
  }

  lemma {:induction false} NoneLate(runs: seq<nat>)
    ensures true !in Flags(runs) <==> Longest(runs) == 0
  {
    if runs != [] {
      NoneLate(runs[1..]);
      var head, tail := Trues(runs[0]) + [false], Flags(runs[1..]);
      assert Flags(runs) == head + tail;
      assert true in head + tail <==> true in head || true in tail;
      if runs[0] > 0 {
        assert head[0];
      }
    }
  }

  /** With the last child alive, k sweeps remove all late children exactly when no 2^k of them
      stand in a row. */
  lemma {:induction false} SweepsRemoveAllIff(runs: seq<nat>, k: nat)
    ensures AfterSweeps(Flags(runs), k).Ok?
    ensures true !in AfterSweeps(Flags(runs), k).value <==> Longest(runs) < Pow2(k)
    decreases k
  {
    if k == 0 {
      NoneLate(runs);
    } else {
      SweepHalvesRuns(runs);
      LongestHalved(runs);
      SweepsRemoveAllIff(Halves(runs), k - 1);
    }
  }
}

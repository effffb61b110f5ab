/**
The queue that two threads share.  Every method holds the mutex, except while it waits; what
other threads push during a wait is a parameter.
*/
module ConcurrentQueue {
  import opened Messages

  /** One wake-up: whether it was by time-out, and what has been pushed meanwhile. */
  datatype Wait<T> = Wait(timedOut: bool, pushed: seq<T>)

  datatype Outcome<+T> = Popped(value: T) | GaveUp | StillWaiting

  /** An outcome and the queue it leaves. */
  datatype After<T> = After(outcome: Outcome<T>, queue: seq<T>)

  function Pushed<T>(waits: seq<Wait<T>>): seq<T> {
    if waits == [] then [] else waits[0].pushed + Pushed(waits[1..])
  }

  /** The waiting loops: with a time limit, every time-out takes one interval from it. */
  function Waiting<T>(queue: seq<T>, limit: Option<int>, interval: int, waits: seq<Wait<T>>): After<T>
    decreases |waits|
  {
    if queue != [] then After(Popped(queue[0]), queue[1..])
    else if waits == [] then After(StillWaiting, queue)
    else
      var left := Left(limit, interval, waits[0]);
      if waits[0].timedOut && left.Some? && left.value <= 0 then After(GaveUp, waits[0].pushed)
      else Waiting(waits[0].pushed, left, interval, waits[1..])
  }

  function Left<T>(limit: Option<int>, interval: int, w: Wait<T>): Option<int> {
    if limit.Some? && w.timedOut then Some(limit.value - interval) else limit
  }

  class Queue<T> {
    var queue: seq<T>

    constructor ()
      ensures queue == []
    {
      queue := [];
    }

    method Push(data: T)
      modifies this
      ensures queue == old(queue) + [data]
    {
      queue := queue + [data];
    }

    method Size() returns (n: nat)
      ensures n == |queue|
    {
      n := |queue|;
    }

    method Empty() returns (e: bool)
      ensures e <==> queue == []
    {
      e := |queue| == 0;
    }

    method Unload() returns (all: seq<T>)
      modifies this
      ensures all == old(queue) && queue == []
    {
      all, queue := queue, [];
    }

    method TryPop() returns (r: Result<T>)
      modifies this
      ensures match r
        case Thrown => old(queue) == [] && queue == []
        case Ok(value) => old(queue) == [value] + queue
    {
      if |queue| == 0 {
        return Thrown;
      }
      r := Ok(queue[0]);
      queue := queue[1..];
    }

    /** wait_and_pop and, with a limit, wait_and_pop_while. */
    method WaitAndPop(limit: Option<int>, interval: int, waits: seq<Wait<T>>) returns (outcome: Outcome<T>)
      modifies this
      ensures After(outcome, queue) == Waiting(old(queue), limit, interval, waits)
    {
      var i, left := 0, limit;
      while |queue| == 0
        invariant 0 <= i <= |waits|
        invariant Waiting(queue, left, interval, waits[i..]) == Waiting(old(queue), limit, interval, waits)
        decreases |waits| - i
      {
        if i == |waits| {
          return StillWaiting;
        }
        var w := waits[i];
        queue := queue + w.pushed;
        assert queue == w.pushed;
        assert waits[i..][0] == w && waits[i..][1..] == waits[i + 1..];
        i := i + 1;
        if w.timedOut && left.Some? {
          left := Some(left.value - interval);
          if left.value <= 0 {
            return GaveUp;
          }
        }
      }
      outcome := Popped(queue[0]);
      queue := queue[1..];
    }
  }

  // ---------------------------------------------------------------- what waiting means

  /** Nothing is lost: what is popped and what remains is, in order, what there was and what
      came in during some of the waits; giving up pops nothing. */
  lemma {:induction false} WaitingConserves<T>(queue: seq<T>, limit: Option<int>, interval: int, waits: seq<Wait<T>>)
    returns (n: nat)
    ensures n <= |waits|
    ensures var a := Waiting(queue, limit, interval, waits);
      (if a.outcome.Popped? then [a.outcome.value] else []) + a.queue == queue + Pushed(waits[..n])
    decreases |waits|
  {
    if queue != [] || waits == [] {
      n := 0;
      assert queue + [] == queue;
    } else {
      var w, left := waits[0], Left(limit, interval, waits[0]);
      if w.timedOut && left.Some? && left.value <= 0 {
        n := 1;
        assert Pushed(waits[..1]) == w.pushed + Pushed(waits[..1][1..]);
      } else {
        var m := WaitingConserves(w.pushed, left, interval, waits[1..]);
        n := m + 1;
        assert waits[..n][1..] == waits[1..][..m];
      }
    }
  }

  function LimitAfter<T>(limit: int, interval: int, waits: seq<Wait<T>>): int
    decreases |waits|
  {
    if waits == [] then limit
    else LimitAfter(if waits[0].timedOut then limit - interval else limit, interval, waits[1..])
  }

  predicate UsesUp<T>(limit: int, interval: int, waits: seq<Wait<T>>, n: nat)
    requires n < |waits|
  {
    waits[n].timedOut && LimitAfter(limit, interval, waits[..n + 1]) <= 0
  }

  /** Where giving up happens: at the first time-out that uses up the limit, nothing having come
      in before that wait.  Something may have come in during it. */
  predicate GivesUpAt<T>(limit: int, interval: int, waits: seq<Wait<T>>, n: nat) {
    && n < |waits|
    && UsesUp(limit, interval, waits, n)
    && forall i :: 0 <= i < n ==> waits[i].pushed == [] && !UsesUp(limit, interval, waits, i)
  }

  lemma UsesUpLater<T>(limit: int, interval: int, waits: seq<Wait<T>>, n: nat)
    requires n + 1 < |waits|
    ensures UsesUp(if waits[0].timedOut then limit - interval else limit, interval, waits[1..], n)
      <==> UsesUp(limit, interval, waits, n + 1)
  {
    assert waits[..n + 2][1..] == waits[1..][..n + 1];
  }

  lemma UsesUpNow<T>(limit: int, interval: int, waits: seq<Wait<T>>)
    requires waits != []
    ensures UsesUp(limit, interval, waits, 0) <==> waits[0].timedOut && limit - interval <= 0
  {
    var first := waits[..0 + 1];
    var left := if waits[0].timedOut then limit - interval else limit;
    assert first[0] == waits[0] && first[1..] == [];
    assert LimitAfter(left, interval, first[1..]) == left;
    assert LimitAfter(limit, interval, first) == left;
  }

  lemma GivesUpLater<T>(limit: int, interval: int, waits: seq<Wait<T>>, n: nat)
    requires waits != [] && waits[0].pushed == [] && !UsesUp(limit, interval, waits, 0)
    ensures GivesUpAt(if waits[0].timedOut then limit - interval else limit, interval, waits[1..], n)
      <==> GivesUpAt(limit, interval, waits, n + 1)
  {
    forall i: nat | 0 < i < |waits|
      ensures UsesUp(if waits[0].timedOut then limit - interval else limit, interval, waits[1..], i - 1)
        <==> UsesUp(limit, interval, waits, i)
    {
      UsesUpLater(limit, interval, waits, i - 1);
    }
    assert forall i :: 0 < i <= n && i < |waits| ==> waits[i] == waits[1..][i - 1];
  }

  /** An empty queue and a limit: waiting gives up exactly at the wait that uses the limit up. */
  lemma {:induction false} GaveUpIff<T>(limit: int, interval: int, waits: seq<Wait<T>>)
    ensures Waiting([], Some(limit), interval, waits).outcome.GaveUp?
      <==> exists n: nat :: GivesUpAt(limit, interval, waits, n)
    decreases |waits|
  {
    if waits != [] {
      UsesUpNow(limit, interval, waits);
      if UsesUp(limit, interval, waits, 0) {
        assert GivesUpAt(limit, interval, waits, 0);
      } else if waits[0].pushed == [] {
        var left := if waits[0].timedOut then limit - interval else limit;
        GaveUpIff(left, interval, waits[1..]);
        forall n: nat ensures GivesUpAt(left, interval, waits[1..], n) <==> GivesUpAt(limit, interval, waits, n + 1) {
          GivesUpLater(limit, interval, waits, n);
        }
        OneLater(limit, left, interval, waits);
      }
    }
  }

  lemma OneLater<T>(limit: int, left: int, interval: int, waits: seq<Wait<T>>)
    requires waits != [] && !GivesUpAt(limit, interval, waits, 0)
    requires forall n: nat :: GivesUpAt(left, interval, waits[1..], n) <==> GivesUpAt(limit, interval, waits, n + 1)
    ensures (exists n: nat :: GivesUpAt(limit, interval, waits, n))
      <==> exists n: nat :: GivesUpAt(left, interval, waits[1..], n)
  {
    if n: nat :| GivesUpAt(limit, interval, waits, n) {
      assert n - 1 + 1 == n;
      assert GivesUpAt(left, interval, waits[1..], n - 1);
    }
    if n: nat :| GivesUpAt(left, interval, waits[1..], n) {
      assert GivesUpAt(limit, interval, waits, n + 1);
    }
  }

  // ---------------------------------------------------------------- what comes of waiting

  /** Wait n uses up the limit, if there is one. */
  predicate Expires<T>(limit: Option<int>, interval: int, waits: seq<Wait<T>>, n: nat)
    requires n < |waits|
  {
    limit.Some? && UsesUp(limit.value, interval, waits, n)
  }

  /** Wait n is the first that brings something or uses up the limit; |waits|: there is none. */
  predicate EndsAt<T>(limit: Option<int>, interval: int, waits: seq<Wait<T>>, n: nat) {
    && n <= |waits|
    && (n < |waits| ==> waits[n].pushed != [] || Expires(limit, interval, waits, n))
    && forall i :: 0 <= i < n ==> waits[i].pushed == [] && !Expires(limit, interval, waits, i)
  }

  lemma ExpiresLater<T>(limit: Option<int>, interval: int, waits: seq<Wait<T>>, n: nat)
    requires n + 1 < |waits|
    ensures Expires(Left(limit, interval, waits[0]), interval, waits[1..], n)
      <==> Expires(limit, interval, waits, n + 1)
  {
    if limit.Some? {
      UsesUpLater(limit.value, interval, waits, n);
    }
  }

  lemma ExpiresNow<T>(limit: Option<int>, interval: int, waits: seq<Wait<T>>)
    requires waits != []
    ensures Expires(limit, interval, waits, 0)
      <==> waits[0].timedOut && var left := Left(limit, interval, waits[0]); left.Some? && left.value <= 0
  {
    if limit.Some? {
      UsesUpNow(limit.value, interval, waits);
    }
  }

  lemma EndsLater<T>(limit: Option<int>, interval: int, waits: seq<Wait<T>>, n: nat)
    requires waits != [] && waits[0].pushed == [] && !Expires(limit, interval, waits, 0)
    requires EndsAt(Left(limit, interval, waits[0]), interval, waits[1..], n)
    ensures EndsAt(limit, interval, waits, n + 1)
  {
    forall i: nat | 0 < i < |waits|
      ensures Expires(Left(limit, interval, waits[0]), interval, waits[1..], i - 1)
        <==> Expires(limit, interval, waits, i)
    {
      ExpiresLater(limit, interval, waits, i - 1);
    }
    assert forall i :: 0 < i < |waits| ==> waits[i] == waits[1..][i - 1];
  }

  /** Waiting on an empty queue: the first wait that brings something or uses up the limit decides;
      if it does both, the latter counts. */
  lemma {:induction false} WaitingEnds<T>(limit: Option<int>, interval: int, waits: seq<Wait<T>>) returns (n: nat)
    ensures EndsAt(limit, interval, waits, n)
    ensures Waiting([], limit, interval, waits) ==
      if n == |waits| then After(StillWaiting, [])
      else if Expires(limit, interval, waits, n) then After(GaveUp, waits[n].pushed)
      else After(Popped(waits[n].pushed[0]), waits[n].pushed[1..])
    decreases |waits|
  {
    n := 0;
    if waits != [] {
      ExpiresNow(limit, interval, waits);
      if waits[0].pushed == [] && !Expires(limit, interval, waits, 0) {
        var m := WaitingEnds(Left(limit, interval, waits[0]), interval, waits[1..]);
        EndsLater(limit, interval, waits, m);
        n := m + 1;
        if n < |waits| {
          ExpiresLater(limit, interval, waits, m);
        }
      }
    }
  }

  lemma EndsOnce<T>(limit: Option<int>, interval: int, waits: seq<Wait<T>>, m: nat, n: nat)
    requires EndsAt(limit, interval, waits, m) && EndsAt(limit, interval, waits, n)
    ensures m == n
  {
  }

  /** What is popped, and what stays: the head of the queue, or the first thing that comes in if
      it comes in time. */
  lemma PoppedIff<T>(queue: seq<T>, limit: Option<int>, interval: int, waits: seq<Wait<T>>, v: T, rest: seq<T>)
    ensures Waiting(queue, limit, interval, waits) == After(Popped(v), rest)
      <==> if queue != [] then queue == [v] + rest
           else exists n: nat :: n < |waits| && EndsAt(limit, interval, waits, n)
                  && !Expires(limit, interval, waits, n) && waits[n].pushed == [v] + rest
  {
    if queue == [] {
      var n := WaitingEnds(limit, interval, waits);
      if m: nat :| m < |waits| && EndsAt(limit, interval, waits, m) && !Expires(limit, interval, waits, m)
                     && waits[m].pushed == [v] + rest {
        EndsOnce(limit, interval, waits, m, n);
      }
      if n < |waits| && !Expires(limit, interval, waits, n) {
        assert waits[n].pushed == [waits[n].pushed[0]] + waits[n].pushed[1..];
      }
    } else {
      assert queue == [queue[0]] + queue[1..];
    }
  }

  /** Waiting goes on exactly as long as the queue is empty, nothing comes in and the limit is not
      used up. */
  lemma StillWaitingIff<T>(queue: seq<T>, limit: Option<int>, interval: int, waits: seq<Wait<T>>)
    ensures Waiting(queue, limit, interval, waits).outcome.StillWaiting?
      <==> queue == [] && forall i :: 0 <= i < |waits| ==> waits[i].pushed == [] && !Expires(limit, interval, waits, i)
  {
    if queue == [] {
      var n := WaitingEnds(limit, interval, waits);
    }
  }
}

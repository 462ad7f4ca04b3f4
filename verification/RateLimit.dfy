/** The interval rate limiter: a counter that starts over whenever the clock has left the current window of
    a fixed grid. */
module RateLimit {
  import opened Common

  datatype Limiter = Limiter(ival: int, limit: int, last: Time, count: int)

  /** Integer division that rounds towards zero. */
  function Quotient(a: int, b: int): int
    requires b > 0
  {
    if a >= 0 then a / b else -((-a) / b)
  }

  /** One call at time `at`: the limiter afterwards, and whether the call is allowed. */
  function Call(l: Limiter, at: Time): (Limiter, bool)
    requires l.ival > 0
  {
    var ivals := Quotient(at - l.last, l.ival);
    var turned := if ivals > 0 then l.(last := l.last + ivals * l.ival, count := 0) else l;
    if turned.count < turned.limit then (turned.(count := turned.count + 1), true) else (turned, false)
  }

  // ----- sequences of calls

  function After(l: Limiter, ats: seq<Time>): (r: Limiter)
    requires l.ival > 0
    ensures r.ival == l.ival && r.limit == l.limit
  {
    if ats == [] then l else Call(After(l, ats[..|ats| - 1]), ats[|ats| - 1]).0
  }

  /** Whether the last call of the sequence is allowed. */
  predicate Allowed(l: Limiter, ats: seq<Time>)
    requires l.ival > 0 && ats != []
  {
    Call(After(l, ats[..|ats| - 1]), ats[|ats| - 1]).1
  }

  /** How many calls of the sequence at times in [lo, hi) are allowed. */
  function AllowedIn(l: Limiter, ats: seq<Time>, lo: Time, hi: Time): nat
    requires l.ival > 0
  {
    if ats == [] then 0
    else AllowedIn(l, ats[..|ats| - 1], lo, hi)
         + (if lo <= ats[|ats| - 1] < hi && Allowed(l, ats) then 1 else 0)
  }

  predicate Ordered(start: Time, ats: seq<Time>) {
    && (forall i :: 0 <= i < |ats| ==> start <= ats[i])
    && (forall i, j :: 0 <= i < j < |ats| ==> ats[i] <= ats[j])
  }

  /** The `n`-th window of the grid starts here. */
  function Window(l: Limiter, n: int): Time {
    l.last + n * l.ival
  }

  /** Which window a time falls into. */
  function WindowOf(l: Limiter, t: Time): int
    requires l.ival > 0
  {
    (t - l.last) / l.ival
  }

  lemma WindowHolds(l: Limiter, t: Time)
    requires l.ival > 0
    ensures Window(l, WindowOf(l, t)) <= t < Window(l, WindowOf(l, t)) + l.ival
  {
  }

  lemma {:induction false} WindowsAreApart(l: Limiter, m: int, n: int)
    requires l.ival > 0 && m < n
    ensures Window(l, m) + l.ival <= Window(l, n)
    decreases n - m
  {
    NextWindow(l, n - 1);
    if m < n - 1 { WindowsAreApart(l, m, n - 1); }
  }

  lemma NextWindow(l: Limiter, n: int)
    ensures Window(l, n + 1) == Window(l, n) + l.ival
  {
    assert (n + 1) * l.ival == n * l.ival + l.ival;
  }

  lemma WindowIsUnique(l: Limiter, t: Time, n: int)
    requires l.ival > 0 && Window(l, n) <= t < Window(l, n) + l.ival
    ensures n == WindowOf(l, t)
  {
    WindowHolds(l, t);
    if n < WindowOf(l, t) { WindowsAreApart(l, n, WindowOf(l, t)); }
    if WindowOf(l, t) < n { WindowsAreApart(l, WindowOf(l, t), n); }
  }

  /** One call moves the reset time to the window of the call, on the grid. */
  lemma CallTurns(l: Limiter, s: Limiter, n: int, at: Time)
    requires l.ival > 0 && s.ival == l.ival && s.last == Window(l, n) && s.last <= at
    ensures Call(s, at).0.last == Window(l, WindowOf(l, at))
    ensures n <= WindowOf(l, at)
    ensures n == WindowOf(l, at) <==> at < s.last + l.ival
    ensures Call(s, at).1 <==> (if n < WindowOf(l, at) then 0 else s.count) < s.limit
    ensures Call(s, at).0.count == (if n < WindowOf(l, at) then 0 else s.count) + (if Call(s, at).1 then 1 else 0)
  {
    var k := (at - s.last) / l.ival;
    assert s.last + k * l.ival <= at < s.last + k * l.ival + l.ival;
    assert Window(l, n + k) == s.last + k * l.ival by {
      assert (n + k) * l.ival == n * l.ival + k * l.ival;
    }
    WindowIsUnique(l, at, n + k);
  }

  lemma OrderedPrefix(start: Time, ats: seq<Time>)
    requires Ordered(start, ats) && ats != []
    ensures Ordered(start, ats[..|ats| - 1])
    ensures start <= ats[|ats| - 1]
    ensures |ats| > 1 ==> ats[|ats| - 2] <= ats[|ats| - 1]
  {
  }

  lemma {:induction false} NothingLater(l: Limiter, ats: seq<Time>, lo: Time, hi: Time)
    requires l.ival > 0
    requires forall i :: 0 <= i < |ats| ==> ats[i] < lo || hi <= ats[i]
    ensures AllowedIn(l, ats, lo, hi) == 0
  {
    if ats != [] { NothingLater(l, ats[..|ats| - 1], lo, hi); }
  }

  function Cap(l: Limiter): nat {
    if l.limit < 0 then 0 else l.limit
  }

  /** The window the limiter stands in: that of the latest call, or the first. */
  function Current(l: Limiter, ats: seq<Time>): int
    requires l.ival > 0
  {
    if ats == [] then 0 else WindowOf(l, ats[|ats| - 1])
  }

  lemma LaterWindowIsEmpty(l: Limiter, ats: seq<Time>, m: int)
    requires l.ival > 0 && Ordered(l.last, ats) && Current(l, ats) < m
    ensures AllowedIn(l, ats, Window(l, m), Window(l, m) + l.ival) == 0
  {
    if ats != [] {
      var n, latest := Current(l, ats), ats[|ats| - 1];
      WindowHolds(l, latest);
      WindowsAreApart(l, n, m);
      assert forall i :: 0 <= i < |ats| ==> ats[i] <= latest;
      NothingLater(l, ats, Window(l, m), Window(l, m) + l.ival);
    }
  }

  /** The state of a limiter after any ordered sequence of calls: its reset time is the start of the window of
      the latest call, and its count is the number of calls allowed in that window. */
  lemma {:induction false} StateAfter(l: Limiter, ats: seq<Time>)
    requires l.ival > 0 && l.count == 0 && Ordered(l.last, ats)
    ensures After(l, ats).last == Window(l, Current(l, ats))
    ensures ats != [] ==> After(l, ats).last <= ats[|ats| - 1] < After(l, ats).last + l.ival
    ensures After(l, ats).count ==
            AllowedIn(l, ats, Window(l, Current(l, ats)), Window(l, Current(l, ats)) + l.ival) <= Cap(l)
    decreases |ats|
  {
    if ats != [] {
      var prev, at := ats[..|ats| - 1], ats[|ats| - 1];
      OrderedPrefix(l.last, ats);
      StateAfter(l, prev);
      var s, n, m := After(l, prev), Current(l, prev), WindowOf(l, at);
      CallTurns(l, s, n, at);
      WindowHolds(l, at);
      if n < m { LaterWindowIsEmpty(l, prev, m); }
    }
  }

  /** What the counter stands for once the limiter has turned to the window of the next call. */
  lemma CountIsWindowCount(l: Limiter, prev: seq<Time>, at: Time)
    requires l.ival > 0 && l.count == 0 && Ordered(l.last, prev) && l.last <= at
    requires prev != [] ==> prev[|prev| - 1] <= at
    ensures var w := Window(l, WindowOf(l, at));
            (if Current(l, prev) < WindowOf(l, at) then 0 else After(l, prev).count) ==
              AllowedIn(l, prev, w, w + l.ival)
  {
    StateAfter(l, prev);
    CallTurns(l, After(l, prev), Current(l, prev), at);
    if Current(l, prev) < WindowOf(l, at) { LaterWindowIsEmpty(l, prev, WindowOf(l, at)); }
  }

  /** A call is allowed exactly when fewer than `limit` calls were allowed in the grid window it falls into. */
  lemma AllowedExactlyBelowTheLimit(l: Limiter, prev: seq<Time>, at: Time)
    requires l.ival > 0 && l.count == 0 && Ordered(l.last, prev) && l.last <= at
    requires prev != [] ==> prev[|prev| - 1] <= at
    ensures var w := Window(l, WindowOf(l, at));
            Allowed(l, prev + [at]) <==> AllowedIn(l, prev, w, w + l.ival) < l.limit
  {
    assert (prev + [at])[..|prev|] == prev;
    StateAfter(l, prev);
    CallTurns(l, After(l, prev), Current(l, prev), at);
    CountIsWindowCount(l, prev, at);
  }

  /** No window ever sees more than `limit` allowed calls. */
  lemma {:induction false} WindowIsCapped(l: Limiter, ats: seq<Time>, n: int)
    requires l.ival > 0 && l.count == 0 && Ordered(l.last, ats)
    ensures AllowedIn(l, ats, Window(l, n), Window(l, n) + l.ival) <= Cap(l)
    decreases |ats|
  {
    if ats != [] {
      OrderedPrefix(l.last, ats);
      WindowIsCapped(l, ats[..|ats| - 1], n);
      if Window(l, n) <= ats[|ats| - 1] < Window(l, n) + l.ival {
        WindowIsUnique(l, ats[|ats| - 1], n);
        assert ats == ats[..|ats| - 1] + [ats[|ats| - 1]];
        AllowedExactlyBelowTheLimit(l, ats[..|ats| - 1], ats[|ats| - 1]);
      }
    }
  }

  lemma {:induction false} Split(l: Limiter, ats: seq<Time>, lo: Time, hi: Time, a: Time, b: Time, c: Time)
    requires l.ival > 0 && a <= lo && hi <= c && a <= b <= c
    ensures AllowedIn(l, ats, lo, hi) <= AllowedIn(l, ats, a, b) + AllowedIn(l, ats, b, c)
    decreases |ats|
  {
    if ats != [] { Split(l, ats[..|ats| - 1], lo, hi, a, b, c); }
  }

  /** However calls are spread, any span of one interval holds at most twice `limit` allowed calls. */
  lemma SpanHoldsTwiceTheLimit(l: Limiter, ats: seq<Time>, x: Time)
    requires l.ival > 0 && l.count == 0 && Ordered(l.last, ats)
    ensures AllowedIn(l, ats, x, x + l.ival) <= 2 * Cap(l)
  {
    var n := WindowOf(l, x);
    WindowHolds(l, x);
    NextWindow(l, n);
    WindowIsCapped(l, ats, n);
    WindowIsCapped(l, ats, n + 1);
    Split(l, ats, x, x + l.ival, Window(l, n), Window(l, n + 1), Window(l, n + 1) + l.ival);
  }

  /** The limiter as it is used: `start` and `calls` record how it was set up and when it was called. */
  class IntervalLimiter {
    const ival: int
    const limit: int
    var last: Time
    var count: int
    ghost const start: Limiter
    ghost var calls: seq<Time>

    function View(): Limiter
      reads this
    {
      Limiter(ival, limit, last, count)
    }

    ghost predicate Valid()
      reads this
    {
      && start.ival == ival && start.limit == limit && start.count == 0
      && ival > 0 && View() == After(start, calls)
    }

    constructor (ival: int, limit: int, now: Time)
      ensures View() == start == Limiter(ival, limit, now, 0) && calls == []
      ensures ival > 0 ==> Valid()
    {
      this.ival, this.limit, last, count := ival, limit, now, 0;
      start, calls := Limiter(ival, limit, now, 0), [];
    }

    /** As long as the clock does not go back, the call is allowed exactly when fewer than `limit` earlier ones were
        allowed in its window, and afterwards the last interval has seen at most twice as many. */
    method AllowAt(at: Time) returns (ok: bool)
      requires Valid()
      modifies this
      ensures Valid() && calls == old(calls) + [at]
      ensures (View(), ok) == Call(old(View()), at)
      ensures Ordered(start.last, calls) ==>
                var w := Window(start, WindowOf(start, at));
                ok <==> AllowedIn(start, old(calls), w, w + ival) < limit
      ensures Ordered(start.last, calls) ==> last == Window(start, WindowOf(start, at)) <= at < last + ival
      ensures Ordered(start.last, calls) ==> AllowedIn(start, calls, at + 1 - ival, at + 1) <= 2 * Max(limit, 0)
    {
      var since := at - last;
      var ivals := Quotient(since, ival);
      if ivals > 0 {
        last := last + ivals * ival;
        count := 0;
      }
      if count < limit {
        count := count + 1;
        ok := true;
      } else {
        ok := false;
      }
      calls := calls + [at];
      assert calls[..|calls| - 1] == old(calls);
      if Ordered(start.last, calls) { AllowedInOrder(start, old(calls), at); }
    }
  }

  /** All that is known about a call that is not before the earlier ones. */
  lemma AllowedInOrder(l: Limiter, prev: seq<Time>, at: Time)
    requires l.ival > 0 && l.count == 0 && Ordered(l.last, prev + [at])
    ensures var calls, w := prev + [at], Window(l, WindowOf(l, at));
            && (Allowed(l, calls) <==> AllowedIn(l, prev, w, w + l.ival) < l.limit)
            && After(l, calls).last == w <= at < w + l.ival
            && AllowedIn(l, calls, at + 1 - l.ival, at + 1) <= 2 * Max(l.limit, 0)
  {
    var calls := prev + [at];
    assert calls[..|calls| - 1] == prev;
    OrderedPrefix(l.last, calls);
    AllowedExactlyBelowTheLimit(l, prev, at);
    StateAfter(l, calls);
    SpanHoldsTwiceTheLimit(l, calls, at + 1 - l.ival);
  }
}

/** The companion's sliding-window rate limit. One list of accepted times serves
    every peer. */
module RateLimiter {

  const WINDOW: real := 60.0
  const MAX_ATTEMPTS: nat := 20

  /** What the pop loop leaves of the list. */
  function Expire(events: seq<real>, now: real): seq<real>
  {
    if events != [] && events[0] < now - WINDOW then Expire(events[1..], now) else events
  }

  predicate Accepts(events: seq<real>, now: real)
  {
    |Expire(events, now)| < MAX_ATTEMPTS
  }

  /** The list and, beside it, every reading accepted so far. */
  datatype History = History(events: seq<real>, accepted: seq<real>)
  const EMPTY := History([], [])

  function Call(h: History, now: real): History
  {
    if Accepts(h.events, now) then History(Expire(h.events, now) + [now], h.accepted + [now])
    else History(Expire(h.events, now), h.accepted)
  }

  /** A sequence of readings, in the order the lock was taken. */
  function Play(h: History, readings: seq<real>): History
    decreases |readings|
  {
    if readings == [] then h else Play(Call(h, readings[0]), readings[1..])
  }

  lemma {:induction false} PlaySnoc(h: History, readings: seq<real>, now: real)
    ensures Play(h, readings + [now]) == Call(Play(h, readings), now)
    decreases |readings|
  {
    if readings == [] {
      assert Play(h, [now]) == Play(Call(h, now), []);
    } else {
      assert (readings + [now])[1..] == readings[1..] + [now];
      PlaySnoc(Call(h, readings[0]), readings[1..], now);
    }
  }

  function Count(times: seq<real>, lo: real, hi: real): nat
  {
    if times == [] then 0 else (if lo <= times[0] <= hi then 1 else 0) + Count(times[1..], lo, hi)
  }

  ghost predicate Nondecreasing(times: seq<real>)
  {
    forall i, j :: 0 <= i < j < |times| ==> times[i] <= times[j]
  }

  ghost predicate AllUpTo(times: seq<real>, now: real)
  {
    forall i :: 0 <= i < |times| ==> times[i] <= now
  }

  lemma {:induction false} CountAppend(times: seq<real>, x: real, lo: real, hi: real)
    ensures Count(times + [x], lo, hi) == Count(times, lo, hi) + if lo <= x <= hi then 1 else 0
  {
    if times == [] {
      assert Count([x], lo, hi) == (if lo <= x <= hi then 1 else 0) + Count([x][1..], lo, hi);
    } else {
      assert (times + [x])[1..] == times[1..] + [x];
      CountAppend(times[1..], x, lo, hi);
    }
  }

  lemma {:induction false} CountWithin(times: seq<real>, lo: real, hi: real, now: real)
    requires AllUpTo(times, now) && now - WINDOW <= lo && now <= hi
    ensures Count(times, lo, hi) <= Count(times, now - WINDOW, now)
  {
    if times != [] {
      assert AllUpTo(times[1..], now);
      CountWithin(times[1..], lo, hi, now);
    }
  }

  /** On a list in order, what the pop loop keeps is as long as the window is full. */
  lemma {:induction false} ExpireKeepsWindow(times: seq<real>, now: real)
    requires Nondecreasing(times) && AllUpTo(times, now)
    ensures |Expire(times, now)| == Count(times, now - WINDOW, now)
    ensures forall i :: 0 <= i < |Expire(times, now)| ==> now - WINDOW <= Expire(times, now)[i]
  {
    if times != [] {
      if times[0] < now - WINDOW {
        ExpireKeepsWindow(times[1..], now);
      } else {
        assert forall i :: 0 <= i < |times| ==> times[0] <= times[i];
        AllCounted(times, now);
      }
    }
  }

  lemma {:induction false} AllCounted(times: seq<real>, now: real)
    requires forall i :: 0 <= i < |times| ==> now - WINDOW <= times[i] <= now
    ensures Count(times, now - WINDOW, now) == |times|
  {
    if times != [] {
      AllCounted(times[1..], now);
    }
  }

  /** Expiring the kept part expires the same times as expiring all of them. */
  lemma {:induction false} ExpireDropped(times: seq<real>, k: nat, now: real)
    requires k <= |times| && forall i :: 0 <= i < k ==> times[i] < now - WINDOW
    ensures Expire(times, now) == Expire(times[k..], now)
  {
    if 0 < k {
      ExpireDropped(times[1..], k - 1, now);
      assert times[1..][k - 1..] == times[k..];
    }
  }

  lemma {:induction false} ExpireIsSuffix(times: seq<real>, now: real) returns (k: nat)
    ensures k <= |times| && Expire(times, now) == times[k..]
    ensures forall i :: 0 <= i < k ==> times[i] < now - WINDOW
  {
    if times != [] && times[0] < now - WINDOW {
      var m := ExpireIsSuffix(times[1..], now);
      k := m + 1;
      assert times[1..][m..] == times[k..];
      assert forall i :: 0 < i < k ==> times[i] == times[1..][i - 1];
    } else {
      k := 0;
    }
  }

  /** The list is the tail of the accepted times from `k` on, and what fell off it
      is older than the window. */
  ghost predicate Tail(h: History, k: nat, now: real)
  {
    && k <= |h.accepted| && h.events == h.accepted[k..]
    && Nondecreasing(h.accepted) && AllUpTo(h.accepted, now)
    && forall i :: 0 <= i < k ==> h.accepted[i] < now - WINDOW
  }

  lemma CallKeepsTail(h: History, j: nat, last: real, now: real) returns (k: nat)
    requires Tail(h, j, last) && last <= now
    ensures Tail(Call(h, now), k, now)
  {
    var m := ExpireIsSuffix(h.events, now);
    k := j + m;
    assert h.events[m..] == h.accepted[k..];
    forall i | 0 <= i < k ensures h.accepted[i] < now - WINDOW {
      if j <= i { assert h.accepted[i] == h.events[i - j]; }
    }
    assert (h.accepted + [now])[k..] == h.accepted[k..] + [now];
  }

  /** For a list in this shape the pop loop counts the window. */
  lemma TailCounts(h: History, k: nat, last: real, now: real)
    requires Tail(h, k, last) && last <= now
    ensures |Expire(h.events, now)| == Count(h.accepted, now - WINDOW, now)
  {
    ExpireDropped(h.accepted, k, now);
    ExpireKeepsWindow(h.accepted, now);
  }

  lemma {:induction false} PlayKeepsTail(h: History, readings: seq<real>, j: nat, last: real) returns (k: nat, latest: real)
    requires Tail(h, j, last) && Nondecreasing([last] + readings)
    ensures Tail(Play(h, readings), k, latest) && latest == ([last] + readings)[|readings|]
    decreases |readings|
  {
    if readings == [] {
      k, latest := j, last;
    } else {
      var all := [last] + readings;
      assert all[0] <= all[1];
      var m := CallKeepsTail(h, j, last, readings[0]);
      assert [readings[0]] + readings[1..] == all[1..];
      k, latest := PlayKeepsTail(Call(h, readings[0]), readings[1..], m, readings[0]);
    }
  }

  lemma FirstTwice(readings: seq<real>, start: real)
    requires Nondecreasing(readings) && (readings != [] ==> start == readings[0])
    ensures Nondecreasing([start] + readings)
  {
    var all := [start] + readings;
    forall i, j | 0 <= i < j < |all| ensures all[i] <= all[j] {
      if 0 < i {
        assert readings[i - 1] <= readings[j - 1];
      } else if 1 < j {
        assert readings[0] <= readings[j - 1];
      }
    }
  }

  /** For readings in order, a call is accepted exactly when fewer than twenty
      accepted calls lie in the sixty seconds up to it; accepted or not, it changes
      nothing of the calls accepted before. */
  lemma AcceptsExactlyBelowLimit(readings: seq<real>, now: real)
    requires Nondecreasing(readings + [now])
    ensures var before := Play(EMPTY, readings).accepted;
            Play(EMPTY, readings + [now]).accepted == if Count(before, now - 60.0, now) < 20 then before + [now] else before
    ensures Accepts(Play(EMPTY, readings).events, now) <==> Count(Play(EMPTY, readings).accepted, now - 60.0, now) < 20
  {
    PlaySnoc(EMPTY, readings, now);
    var all := readings + [now];
    var start := all[0];
    forall i, j | 0 <= i < j < |readings| ensures readings[i] <= readings[j] { assert all[i] <= all[j]; }
    FirstTwice(readings, start);
    var k, latest := PlayKeepsTail(EMPTY, readings, 0, start);
    if readings != [] { assert all[|readings| - 1] <= all[|readings|]; }
    TailCounts(Play(EMPTY, readings), k, latest, now);
  }

  lemma {:induction false} WindowKept(h: History, readings: seq<real>, j: nat, last: real, t: real)
    requires Tail(h, j, last) && Nondecreasing([last] + readings)
    requires Count(h.accepted, t, t + WINDOW) <= MAX_ATTEMPTS
    ensures Count(Play(h, readings).accepted, t, t + WINDOW) <= MAX_ATTEMPTS
    decreases |readings|
  {
    if readings != [] {
      var now, all := readings[0], [last] + readings;
      assert all[0] <= all[1];
      assert [now] + readings[1..] == all[1..];
      var k := CallKeepsTail(h, j, last, now);
      if Accepts(h.events, now) {
        CountAppend(h.accepted, now, t, t + WINDOW);
        if t <= now <= t + WINDOW {
          TailCounts(h, j, last, now);
          CountWithin(h.accepted, t, t + WINDOW, now);
        }
      }
      WindowKept(Call(h, now), readings[1..], k, now, t);
    }
  }

  /** So every window of sixty seconds, wherever it starts, holds at most twenty
      accepted calls. */
  lemma EveryWindowHolds(readings: seq<real>, t: real)
    requires Nondecreasing(readings)
    ensures Count(Play(EMPTY, readings).accepted, t, t + 60.0) <= 20
  {
    if readings != [] {
      FirstTwice(readings, readings[0]);
      WindowKept(EMPTY, readings, 0, readings[0], t);
    }
  }

  // Readings out of order

  function Repeat(n: nat): seq<real>
  {
    seq(n, _ => 100.0)
  }

  lemma {:induction false} RepeatCount(n: nat)
    ensures Count(Repeat(n), 100.0, 160.0) == n
  {
    if 0 < n {
      assert Repeat(n)[1..] == Repeat(n - 1);
      RepeatCount(n - 1);
    }
  }

  lemma {:induction false} RepeatAccepted(m: nat, n: nat)
    requires m + n <= MAX_ATTEMPTS
    ensures Play(History(Repeat(m), Repeat(m)), Repeat(n)) == History(Repeat(m + n), Repeat(m + n))
    decreases n
  {
    var h := History(Repeat(m), Repeat(m));
    if 0 < n {
      assert Expire(h.events, 100.0) == h.events;
      assert Repeat(m) + [100.0] == Repeat(m + 1);
      assert Repeat(n)[1..] == Repeat(n - 1);
      RepeatAccepted(m + 1, n - 1);
    }
  }

  lemma {:induction false} RepeatExpires(n: nat)
    ensures Expire(Repeat(n), 200.0) == []
  {
    if 0 < n {
      assert Repeat(n)[1..] == Repeat(n - 1);
      RepeatExpires(n - 1);
    }
  }

  /** The clock is read before the lock is taken. With readings out of order the
      window does not hold: twenty calls at 100, one at 200 that expires them, and
      one at 110 that waited for the lock put twenty-one calls in one window. */
  lemma OutOfOrderOverfills() returns (readings: seq<real>)
    ensures !Nondecreasing(readings)
    ensures Count(Play(EMPTY, readings).accepted, 100.0, 160.0) == 21
  {
    var first := Repeat(MAX_ATTEMPTS);
    readings := first + [200.0] + [110.0];
    assert Repeat(0) == [];
    RepeatAccepted(0, MAX_ATTEMPTS);
    RepeatExpires(MAX_ATTEMPTS);
    PlaySnoc(EMPTY, first, 200.0);
    PlaySnoc(EMPTY, first + [200.0], 110.0);
    assert Expire([200.0], 110.0) == [200.0];
    RepeatCount(MAX_ATTEMPTS);
    CountAppend(first, 200.0, 100.0, 160.0);
    CountAppend(first + [200.0], 110.0, 100.0, 160.0);
    assert readings[|first|] == 200.0 && readings[|first| + 1] == 110.0;
  }

  /** The limiter's own object: the list is popped and appended to in place. */
  class Limiter {
    var rateEvents: seq<real>
    ghost var readings: seq<real>

    ghost predicate Valid()
      reads this
    {
      rateEvents == Play(EMPTY, readings).events
    }

    constructor ()
      ensures Valid() && readings == []
    {
      rateEvents, readings := [], [];
    }

    method RateLimitOk(now: real) returns (ok: bool)
      requires Valid()
      modifies this
      ensures Valid() && readings == old(readings) + [now]
      ensures Play(EMPTY, readings).accepted == Play(EMPTY, old(readings)).accepted + if ok then [now] else []
      ensures Nondecreasing(readings) ==> ok == (Count(Play(EMPTY, old(readings)).accepted, now - 60.0, now) < 20)
    {
      ghost var before := rateEvents;
      while rateEvents != [] && rateEvents[0] < now - WINDOW
        invariant Expire(rateEvents, now) == Expire(before, now) && readings == old(readings)
        decreases |rateEvents|
      {
        rateEvents := rateEvents[1..];
      }
      PlaySnoc(EMPTY, readings, now);
      if Nondecreasing(readings + [now]) { AcceptsExactlyBelowLimit(readings, now); }
      readings := readings + [now];
      if |rateEvents| >= MAX_ATTEMPTS {
        return false;
      }
      rateEvents := rateEvents + [now];
      return true;
    }
  }
}

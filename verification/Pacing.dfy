/**
 The refresh loops: when a snapshot is fetched, over a whole run.

 A run is the list of the readings of the steady clock, one per iteration and in nanoseconds; the loop ends
 when the running flag goes down, which is the end of the list.
 */
module Pacing {
  const MS := 1_000_000

  /** No reading lies before the one before it. */
  predicate Monotone(last: int, clock: seq<int>)
    decreases |clock|
  {
    clock != [] ==> last <= clock[0] && Monotone(clock[0], clock[1..])
  }

  /** The readings at which a snapshot is fetched: the first one at least `wait` after the last fetch, and so on. */
  function Fetches(last: int, clock: seq<int>, wait: int): seq<int>
    decreases |clock|
  {
    if clock == [] then []
    else if clock[0] - last >= wait then [clock[0]] + Fetches(clock[0], clock[1..], wait)
    else Fetches(last, clock[1..], wait)
  }

  /** 1000 / refresh_hz, in whole milliseconds. */
  function Interval(hz: int): (ms: nat)
    requires 1 <= hz <= 60
  {
    1000 / hz
  }

  function Wait(hz: int): (ns: nat)
    requires 1 <= hz <= 60
  {
    Interval(hz) * MS
  }

  /** The same of any rate but 0, for which the quotient is undefined; C++ rounds towards zero. */
  function WaitOf(hz: int): int
    requires hz != 0
  {
    (if hz > 0 then 1000 / hz else -(1000 / -hz)) * MS
  }

  /** The interval is the greatest whole number of milliseconds of which `hz` fit into a second; for a rate in range it
      is what the loop waits, in nanoseconds. */
  lemma {:induction false} GreatestInterval(hz: int)
    requires 1 <= hz <= 60
    ensures Interval(hz) * hz <= 1000 < (Interval(hz) + 1) * hz
    ensures WaitOf(hz) == Wait(hz) == Interval(hz) * 1_000_000
  {
    var ms := Interval(hz);
    assert 1000 == hz * (1000 / hz) + 1000 % hz;
    assert ms * hz <= 1000;
    assert (ms + 1) * hz == ms * hz + hz;
  }

  /** Of any rate but 0: whole milliseconds, rounded towards zero. */
  lemma {:induction false} WaitRounds(hz: int)
    requires hz != 0
    ensures exists ms :: WaitOf(hz) == ms * 1_000_000 && RoundsToZero(ms, hz)
  {
    var ms := if hz > 0 then 1000 / hz else -(1000 / -hz);
    var size := if hz > 0 then hz else -hz;
    assert 1000 == size * (1000 / size) + 1000 % size;
    assert RoundsToZero(ms, hz);
  }

  /** What the product with the rate leaves of 1000 is less than the rate. */
  predicate RoundsToZero(ms: int, hz: int) {
    0 <= 1000 - ms * hz < (if hz > 0 then hz else -hz)
  }

  /** duration_cast to whole milliseconds. */
  function Milliseconds(ns: nat): nat {
    ns / MS
  }

  /** Comparing whole milliseconds loses nothing. */
  lemma {:induction false} WholeMilliseconds(ns: nat, ms: nat)
    ensures Milliseconds(ns) >= ms <==> ns >= ms * MS
  {
  }

  lemma {:induction false} DueIff(ns: nat, hz: int)
    requires 1 <= hz <= 60
    ensures Milliseconds(ns) >= Interval(hz) <==> ns >= Wait(hz)
  {
    WholeMilliseconds(ns, Interval(hz));
  }

  // ----- the loops

  lemma {:induction false} OneMoreReading(last: int, clock: seq<int>, i: nat, wait: int)
    requires i < |clock| && Monotone(last, clock[i..])
    ensures last <= clock[i] && Monotone(clock[i], clock[i + 1..]) && Monotone(last, clock[i + 1..])
    ensures Fetches(last, clock[i..], wait) ==
            if clock[i] - last >= wait then [clock[i]] + Fetches(clock[i], clock[i + 1..], wait)
            else Fetches(last, clock[i + 1..], wait)
  {
    assert clock[i..][1..] == clock[i + 1..];
  }

  /** The terminal loop, and with `once` off the server loop: with --once the first iteration fetches and ends it. */
  method RefreshLoop(start: int, clock: seq<int>, hz: int, once: bool) returns (fetched: seq<int>)
    requires 1 <= hz <= 60 && Monotone(start, clock)
    ensures !once ==> fetched == Fetches(start, clock, Wait(hz))
    ensures once ==> fetched == clock[..if clock == [] then 0 else 1]
  {
    fetched := [];
    var lastRefresh := start;
    ghost var wait := Wait(hz);
    assert clock[0..] == clock;
    for i := 0 to |clock|
      invariant Monotone(lastRefresh, clock[i..])
      invariant once ==> i == 0 && fetched == []
      invariant !once ==> Fetches(start, clock, wait) == fetched + Fetches(lastRefresh, clock[i..], wait)
    {
      OneMoreReading(lastRefresh, clock, i, wait);
      var now := clock[i];
      var elapsed := Milliseconds(now - lastRefresh);
      var interval := Interval(hz);
      DueIff(now - lastRefresh, hz);
      if once || elapsed >= interval {
        lastRefresh := now;
        fetched := fetched + [now];
        if once {
          return;
        }
      }
    }
  }

  // ----- bounds for every run

  /** The last reading. */
  function End(start: int, clock: seq<int>): int {
    if clock == [] then start else clock[|clock| - 1]
  }

  lemma {:induction false} EndFrom(start: int, clock: seq<int>)
    requires clock != []
    ensures End(start, clock) == End(clock[0], clock[1..])
  {
  }

  /** The first fetch comes `wait` after the start, and every other one `wait` after the one before. */
  predicate Spaced(last: int, times: seq<int>, wait: int)
    decreases |times|
  {
    times != [] ==> times[0] - last >= wait && Spaced(times[0], times[1..], wait)
  }

  lemma {:induction false} FetchesSpaced(last: int, clock: seq<int>, wait: int)
    ensures Spaced(last, Fetches(last, clock, wait), wait)
    decreases |clock|
  {
    if clock != [] {
      FetchesSpaced(if clock[0] - last >= wait then clock[0] else last, clock[1..], wait);
    }
  }

  /** Not too often: the fetches take up at most the time that has passed. */
  lemma {:induction false} NotTooOften(last: int, clock: seq<int>, wait: nat)
    requires Monotone(last, clock)
    ensures |Fetches(last, clock, wait)| * wait <= End(last, clock) - last
    decreases |clock|
  {
    if clock != [] {
      EndFrom(last, clock);
      if clock[0] - last >= wait {
        NotTooOften(clock[0], clock[1..], wait);
        OneMore(|Fetches(clock[0], clock[1..], wait)|, wait);
      } else {
        if clock[1..] != [] {
          EndFrom(last, clock[1..]);
          EndFrom(clock[0], clock[1..]);
        }
        NotTooOften(last, clock[1..], wait);
      }
    }
  }

  /** So at `hz` per second each fetch comes at least the nominal interval less one millisecond after the one before. */
  lemma {:induction false} FetchesApart(last: int, clock: seq<int>, hz: int, i: nat)
    requires 1 <= hz <= 60 && i < |Fetches(last, clock, Wait(hz))|
    ensures var f := Fetches(last, clock, Wait(hz));
      (f[i] - if i == 0 then last else f[i - 1]) * hz > 1_000_000_000 - 1_000_000 * hz
  {
    var f := Fetches(last, clock, Wait(hz));
    FetchesSpaced(last, clock, Wait(hz));
    SpacedAt(last, f, Wait(hz), i);
    GreatestInterval(hz);
    var gap := f[i] - if i == 0 then last else f[i - 1];
    var ms := Interval(hz);
    assert gap * hz >= (ms * 1_000_000) * hz == 1_000_000 * (ms * hz);
    assert ms * hz > 1000 - hz;
  }

  lemma {:induction false} SpacedAt(last: int, times: seq<int>, wait: int, i: nat)
    requires Spaced(last, times, wait) && i < |times|
    ensures times[i] - (if i == 0 then last else times[i - 1]) >= wait
    decreases i
  {
    if i > 0 {
      SpacedAt(times[0], times[1..], wait, i - 1);
    }
  }

  /** The first reading is taken once the nominal interval is over, and not while a millisecond of it is left. */
  lemma {:induction false} FirstReading(start: int, now: int, hz: int)
    requires 1 <= hz <= 60
    ensures (now - start) * hz >= 1_000_000_000 ==> Fetches(start, [now], Wait(hz)) == [now]
    ensures (now - start) * hz <= 1_000_000_000 - 1_000_000 * hz ==> Fetches(start, [now], Wait(hz)) == []
  {
    GreatestInterval(hz);
    var ms, gap := Interval(hz), now - start;
    assert [now][1..] == [];
    assert (ms * 1_000_000) * hz == 1_000_000 * (ms * hz);
    if gap * hz >= 1_000_000_000 {
      assert gap * hz >= Wait(hz) * hz;
    } else if gap * hz <= 1_000_000_000 - 1_000_000 * hz {
      assert gap * hz < Wait(hz) * hz;
    }
  }

  lemma {:induction false} OneMore(n: nat, wait: int)
    ensures (n + 1) * wait == n * wait + wait
  {
  }

  /** Successive readings are at most `tick` apart. */
  predicate Dense(last: int, clock: seq<int>, tick: nat)
    decreases |clock|
  {
    clock != [] ==> clock[0] <= last + tick && Dense(clock[0], clock[1..], tick)
  }

  /** Nor too seldom: no fetch is later than one wait and one round of the loop. */
  lemma {:induction false} NotTooSeldom(last: int, before: int, clock: seq<int>, wait: nat, tick: nat)
    requires wait > 0 && before < last + wait && Dense(before, clock, tick)
    ensures End(before, clock) - last < (|Fetches(last, clock, wait)| + 1) * (wait + tick)
    decreases |clock|
  {
    if clock == [] {
    } else if clock[0] - last >= wait {
      var t := clock[0];
      NotTooSeldom(t, t, clock[1..], wait, tick);
      EndFrom(before, clock);
      OneMore(|Fetches(t, clock[1..], wait)| + 1, wait + tick);
    } else {
      EndFrom(before, clock);
      NotTooSeldom(last, clock[0], clock[1..], wait, tick);
    }
  }

  // ----- the rate asked for

  /** The fetches of a run stay within the nominal rate of `hz` per second. */
  predicate WithinRate(start: int, clock: seq<int>, hz: int)
    requires 1 <= hz <= 60
  {
    |Fetches(start, clock, Wait(hz))| * (1000 * MS) <= (End(start, clock) - start) * hz
  }

  lemma {:induction false} WaitOfDivisor(hz: int)
    requires 1 <= hz <= 60 && 1000 % hz == 0
    ensures Wait(hz) * hz == 1000 * MS
  {
    assert 1000 == hz * (1000 / hz);
  }

  lemma {:induction false} WaitTooShort(hz: int)
    requires 1 <= hz <= 60 && 1000 % hz != 0
    ensures Wait(hz) * hz < 1000 * MS
  {
    assert 1000 == hz * (1000 / hz) + 1000 % hz;
  }

  lemma {:induction false} Scale(n: int, wait: int, time: int, hz: nat)
    requires n * wait <= time
    ensures n * (wait * hz) <= time * hz
  {
    assert (n * wait) * hz <= time * hz;
  }

  /** Whole milliseconds: the nominal rate is kept in every run exactly when it divides 1000. */
  lemma {:induction false} RateKeptIff(hz: int)
    requires 1 <= hz <= 60
    ensures (forall start: int, clock: seq<int> :: Monotone(start, clock) ==> WithinRate(start, clock, hz)) <==>
            1000 % hz == 0
  {
    if 1000 % hz == 0 {
      forall start: int, clock: seq<int> | Monotone(start, clock)
        ensures WithinRate(start, clock, hz)
      {
        NotTooOften(start, clock, Wait(hz));
        WaitOfDivisor(hz);
        Scale(|Fetches(start, clock, Wait(hz))|, Wait(hz), End(start, clock) - start, hz);
      }
    } else {
      EarlyFetch(hz);
    }
  }

  /** A run that exceeds the rate: one reading, as soon as the wait is over. */
  lemma {:induction false} EarlyFetch(hz: int)
    requires 1 <= hz <= 60 && 1000 % hz != 0
    ensures Monotone(0, [Wait(hz)]) && !WithinRate(0, [Wait(hz)], hz)
  {
    var clock := [Wait(hz)];
    WaitTooShort(hz);
    assert clock[1..] == [];
    assert Fetches(0, clock, Wait(hz)) == [Wait(hz)];
  }
}

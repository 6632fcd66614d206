/** The fixed-window rate limiter (server/internal/api/middleware.go). */
module RateLimiter {
  import opened Prelude

  datatype Window = Window(count: nat, start: int)

  type Hits = map<string, Window>

  datatype Settings = Settings(limit: int, window: int) {
    predicate Stale(w: Window, now: int) { now - w.start > window }
  }

  /** The sweep runs only when the map holds more than this many keys. */
  const SWEEP_ABOVE: nat := 10_000

  function Sweep(c: Settings, hits: Hits, now: int): Hits {
    if |hits| > SWEEP_ABOVE then map k | k in hits && !c.Stale(hits[k], now) :: hits[k] else hits
  }

  function CountHit(c: Settings, hits: Hits, key: string, now: int): (Hits, bool) {
    if key !in hits || c.Stale(hits[key], now) then (hits[key := Window(1, now)], true)
    else
      var w := hits[key].(count := hits[key].count + 1);
      (hits[key := w], w.count <= c.limit)
  }

  function Allow(c: Settings, hits: Hits, key: string, now: int): (Hits, bool) {
    if key == "" then (hits, true) else CountHit(c, Sweep(c, hits, now), key, now)
  }

  /** The same limiter without a sweep: the reference the real one is compared with. */
  function AllowUnswept(c: Settings, hits: Hits, key: string, now: int): (Hits, bool) {
    if key == "" then (hits, true) else CountHit(c, hits, key, now)
  }

  class Limiter {
    const c: Settings
    var hits: Hits

    constructor (c: Settings)
      ensures this.c == c && hits == map[]
    {
      this.c := c;
      hits := map[];
    }

    method AllowKey(key: string, now: int) returns (ok: bool)
      modifies this`hits
      ensures (hits, ok) == Allow(c, old(hits), key, now)
      ensures key == "" ==> ok && hits == old(hits)
    {
      if key == "" {
        return true;
      }
      if |hits| > SWEEP_ABOVE {
        var keys := hits.Keys;
        var all := hits;
        while keys != {}
          invariant keys <= all.Keys
          invariant hits == map k | k in all && (k in keys || !c.Stale(all[k], now)) :: all[k]
          decreases |keys|
        {
          var k :| k in keys;
          if c.Stale(all[k], now) {
            hits := hits - {k};
          }
          keys := keys - {k};
        }
        assert hits == Sweep(c, all, now);
      }
      if key !in hits || c.Stale(hits[key], now) {
        hits := hits[key := Window(1, now)];
        return true;
      }
      var w := hits[key];
      w := w.(count := w.count + 1);
      hits := hits[key := w];
      return w.count <= c.limit;
    }
  }

  // ------------------------------------------------------------------ traces

  datatype Call = Call(key: string, at: int)

  ghost predicate InOrder(calls: seq<Call>) {
    forall i, j | 0 <= i < j < |calls| :: calls[i].at <= calls[j].at
  }

  /** The map after a sequence of calls, with or without the sweep. */
  function After(c: Settings, calls: seq<Call>, swept: bool): Hits
    decreases |calls|, 1
  {
    if calls == [] then map[] else Step(c, calls, swept).0
  }

  /** The last call's effect and answer. */
  function Step(c: Settings, calls: seq<Call>, swept: bool): (Hits, bool)
    requires calls != []
    decreases |calls|, 0
  {
    var last := calls[|calls| - 1];
    var before := After(c, calls[..|calls| - 1], swept);
    if swept then Allow(c, before, last.key, last.at) else AllowUnswept(c, before, last.key, last.at)
  }

  /** How many of the calls were for this key, inside lo..hi, and allowed. */
  function Allowed(c: Settings, calls: seq<Call>, swept: bool, key: string, lo: int, hi: int): nat {
    if calls == [] then 0
    else
      var last := calls[|calls| - 1];
      Allowed(c, calls[..|calls| - 1], swept, key, lo, hi)
      + if last.key == key && lo <= last.at <= hi && Step(c, calls, swept).1 then 1 else 0
  }

  // ------------------------------------------------- the sweep is invisible

  /** The swept map is the unswept one less some windows that are stale by now. */
  ghost predicate SweptFrom(c: Settings, hits: Hits, all: Hits, now: int) {
    && (forall k | k in hits :: k in all && hits[k] == all[k])
    && (forall k | k in all && k !in hits :: c.Stale(all[k], now))
  }

  lemma OneCallEitherWay(c: Settings, hits: Hits, all: Hits, key: string, at: int)
    requires SweptFrom(c, hits, all, at)
    ensures Allow(c, hits, key, at).1 == AllowUnswept(c, all, key, at).1
    ensures forall now | at <= now :: SweptFrom(c, Allow(c, hits, key, at).0, AllowUnswept(c, all, key, at).0, now)
  {
  }

  /** At non-decreasing times, sweeping changes no answer, to any call, ever. */
  lemma {:induction false} SweepingChangesNoAnswer(c: Settings, calls: seq<Call>)
    requires InOrder(calls)
    ensures calls != [] ==> Step(c, calls, true).1 == Step(c, calls, false).1
    ensures forall now | calls == [] || calls[|calls| - 1].at <= now ::
              SweptFrom(c, After(c, calls, true), After(c, calls, false), now)
    decreases |calls|
  {
    if calls != [] {
      var last := calls[|calls| - 1];
      var rest := calls[..|calls| - 1];
      SweepingChangesNoAnswer(c, rest);
      OneCallEitherWay(c, After(c, rest, true), After(c, rest, false), last.key, last.at);
    }
  }

  lemma {:induction false} SweepingChangesNoCount(c: Settings, calls: seq<Call>, key: string, lo: int, hi: int)
    requires InOrder(calls)
    ensures Allowed(c, calls, true, key, lo, hi) == Allowed(c, calls, false, key, lo, hi)
    decreases |calls|
  {
    if calls != [] {
      SweepingChangesNoAnswer(c, calls);
      SweepingChangesNoCount(c, calls[..|calls| - 1], key, lo, hi);
    }
  }

  // ------------------------------------------------------ the exact answer

  /** The call that opened the key's present window: its first call, or one more than a
      window's length after the call that opened the window before. */
  function Opening(c: Settings, calls: seq<Call>, key: string): (o: Option<nat>)
    ensures o.Some? ==> o.value < |calls| && calls[o.value].key == key
    ensures o.None? ==> forall i | 0 <= i < |calls| :: calls[i].key != key
  {
    if calls == [] then None
    else
      var rest, last := calls[..|calls| - 1], calls[|calls| - 1];
      var before := Opening(c, rest, key);
      if last.key == key && (before.None? || last.at - calls[before.value].at > c.window) then Some(|rest|) else before
  }

  /** How many of the calls from the nth on were for this key. */
  function CallsSince(calls: seq<Call>, key: string, n: nat): nat {
    if |calls| <= n then 0
    else CallsSince(calls[..|calls| - 1], key, n) + if calls[|calls| - 1].key == key then 1 else 0
  }

  /** What the limiter keeps for a key: when its window was opened, and the calls since,
      refused ones included. */
  lemma {:induction false} WindowIsSinceOpening(c: Settings, calls: seq<Call>, key: string)
    requires key != ""
    ensures var (o, hits) := (Opening(c, calls, key), After(c, calls, false));
            && (key in hits <==> o.Some?)
            && (o.Some? ==> hits[key] == Window(CallsSince(calls, key, o.value), calls[o.value].at))
    decreases |calls|
  {
    if calls != [] {
      var rest := calls[..|calls| - 1];
      WindowIsSinceOpening(c, rest, key);
      var o := Opening(c, calls, key);
      if o == Some(|rest|) { assert CallsSince(rest, key, |rest|) == 0; }
    }
  }

  /** Exactly which calls are let through: those with no key, those that open a window, and
      those that are within the limit among the calls since one was opened. */
  lemma AllowedExactlyWhen(c: Settings, calls: seq<Call>)
    requires InOrder(calls) && calls != []
    ensures var last := calls[|calls| - 1];
            Step(c, calls, true).1 <==>
              last.key == "" ||
              var o := Opening(c, calls, last.key).value;
              o == |calls| - 1 || CallsSince(calls, last.key, o) <= c.limit
  {
    var rest, last := calls[..|calls| - 1], calls[|calls| - 1];
    SweepingChangesNoAnswer(c, calls);
    if last.key != "" {
      WindowIsSinceOpening(c, rest, last.key);
      WindowIsSinceOpening(c, calls, last.key);
    }
  }

  /** An opening call is let through, whatever the limit. */
  lemma {:induction false} OpeningsAreAllowed(c: Settings, calls: seq<Call>, key: string, lo: int, hi: int)
    requires key != ""
    requires var o := Opening(c, calls, key); o.Some? && lo <= calls[o.value].at <= hi
    ensures Allowed(c, calls, false, key, lo, hi) >= 1
    decreases |calls|
  {
    var rest, last := calls[..|calls| - 1], calls[|calls| - 1];
    WindowIsSinceOpening(c, rest, key);
    if Opening(c, calls, key) != Some(|rest|) { OpeningsAreAllowed(c, rest, key, lo, hi); }
  }

  /** Nobody is locked out for asking: a call is let through if none of its key was in
      the window's length before it, however many were refused meanwhile. */
  lemma AQuietWindowLetsIn(c: Settings, calls: seq<Call>, key: string, at: int)
    requires InOrder(calls + [Call(key, at)])
    requires Allowed(c, calls, true, key, at - c.window, at) == 0
    ensures Step(c, calls + [Call(key, at)], true).1
  {
    var all := calls + [Call(key, at)];
    assert all[..|calls|] == calls;
    assert InOrder(calls) by { assert forall i | 0 <= i < |calls| :: calls[i] == all[i]; }
    SweepingChangesNoCount(c, calls, key, at - c.window, at);
    AllowedExactlyWhen(c, all);
    if key != "" && Opening(c, all, key) != Some(|calls|) {
      var o := Opening(c, calls, key).value;
      assert all[o].at <= all[|calls|].at && calls[o] == all[o];
      OpeningsAreAllowed(c, calls, key, at - c.window, at);
    }
  }

  // --------------------------------------------------------------- the bound

  lemma {:induction false} NothingBefore(c: Settings, calls: seq<Call>, swept: bool, key: string, lo: int, hi: int)
    requires forall i | 0 <= i < |calls| :: calls[i].at < lo
    ensures Allowed(c, calls, swept, key, lo, hi) == 0
    decreases |calls|
  {
    if calls != [] { NothingBefore(c, calls[..|calls| - 1], swept, key, lo, hi); }
  }

  /** Where the key's window stands decides how many calls since `lo` it can have let through. */
  ghost predicate Bounded(c: Settings, calls: seq<Call>, key: string, lo: int) {
    var n := Allowed(c, calls, false, key, lo, lo + c.window);
    var hits := After(c, calls, false);
    if key !in hits then n == 0
    else
      var w := hits[key];
      && w.count >= 1 && calls != [] && w.start <= calls[|calls| - 1].at
      && (w.start < lo ==> n <= Min(w.count, c.limit) - 1)
      && (lo <= w.start <= lo + c.window ==> n <= Min(w.count, c.limit) + c.limit - 1)
      && n <= 2 * c.limit - 1
  }

  lemma {:induction false} WindowBound(c: Settings, calls: seq<Call>, key: string, lo: int)
    requires InOrder(calls) && c.limit >= 1 && c.window >= 0 && key != ""
    ensures Bounded(c, calls, key, lo)
    decreases |calls|
  {
    if calls != [] {
      var last := calls[|calls| - 1];
      var rest := calls[..|calls| - 1];
      WindowBound(c, rest, key, lo);
      if last.at < lo { NothingBefore(c, calls, false, key, lo, lo + c.window); }
    }
  }

  /** Any closed interval of one window length sees at most 2 * limit - 1 allowed
      calls per key (so never 2 * limit), over every sequence of calls at
      non-decreasing times. */
  lemma AtMostTwiceTheLimit(c: Settings, calls: seq<Call>, key: string, lo: int)
    requires InOrder(calls) && c.limit >= 1 && c.window >= 0 && key != ""
    ensures Allowed(c, calls, true, key, lo, lo + c.window) <= 2 * c.limit - 1
  {
    WindowBound(c, calls, key, lo);
    SweepingChangesNoCount(c, calls, key, lo, lo + c.window);
  }

  /** n calls at one moment. */
  function Burst(key: string, at: int, n: nat): (r: seq<Call>)
    ensures |r| == n && forall i | 0 <= i < n :: r[i] == Call(key, at)
  {
    seq(n, _ => Call(key, at))
  }

  /** Calls inside a running window are all let through until it has seen the limit. */
  lemma {:induction false} RoomForABurst(c: Settings, before: seq<Call>, key: string, at: int, n: nat, lo: int, hi: int)
    requires key != "" && lo <= at <= hi && key in After(c, before, false)
    requires var w := After(c, before, false)[key];
             !c.Stale(w, at) && w.count + n <= c.limit
    ensures var w := After(c, before, false)[key];
            var calls := before + Burst(key, at, n);
            && Allowed(c, calls, false, key, lo, hi) == Allowed(c, before, false, key, lo, hi) + n
            && key in After(c, calls, false) && After(c, calls, false)[key] == Window(w.count + n, w.start)
    decreases n
  {
    var calls := before + Burst(key, at, n);
    if n == 0 {
      assert calls == before;
    } else {
      RoomForABurst(c, before, key, at, n - 1, lo, hi);
      assert calls[..|calls| - 1] == before + Burst(key, at, n - 1);
    }
  }

  /** A call after the window has run out starts the next one. */
  lemma FirstOfAWindow(c: Settings, before: seq<Call>, key: string, at: int, lo: int, hi: int)
    requires key != "" && (key !in After(c, before, false) || c.Stale(After(c, before, false)[key], at))
    ensures var calls := before + [Call(key, at)];
            && Allowed(c, calls, false, key, lo, hi)
               == Allowed(c, before, false, key, lo, hi) + (if lo <= at <= hi then 1 else 0)
            && key in After(c, calls, false) && After(c, calls, false)[key] == Window(1, at)
  {
    var calls := before + [Call(key, at)];
    assert calls[..|calls| - 1] == before;
  }

  /** One call, and the rest of the limit as its window runs out. */
  function FirstWindow(c: Settings, key: string): seq<Call>
    requires c.limit >= 1
  {
    [Call(key, 0)] + Burst(key, c.window, c.limit - 1)
  }

  /** And then the whole limit, just after. */
  function BothWindows(c: Settings, key: string): seq<Call>
    requires c.limit >= 1
  {
    FirstWindow(c, key) + [Call(key, c.window + 1)] + Burst(key, c.window + 1, c.limit - 1)
  }

  lemma VeryFirstCall(c: Settings, key: string)
    requires key != ""
    ensures Allowed(c, [Call(key, 0)], false, key, 1, 1 + c.window) == 0
    ensures After(c, [Call(key, 0)], false) == map[key := Window(1, 0)]
  {
    var calls := [Call(key, 0)];
    assert calls[..|calls| - 1] == [];
    assert Step(c, calls, false) == AllowUnswept(c, map[], key, 0);
    NothingBefore(c, calls, false, key, 1, 1 + c.window);
  }

  lemma TheFirstWindowFills(c: Settings, key: string)
    requires c.limit >= 1 && c.window >= 1 && key != ""
    ensures Allowed(c, FirstWindow(c, key), false, key, 1, 1 + c.window) == c.limit - 1
    ensures key in After(c, FirstWindow(c, key), false)
    ensures After(c, FirstWindow(c, key), false)[key] == Window(c.limit, 0)
  {
    VeryFirstCall(c, key);
    RoomForABurst(c, [Call(key, 0)], key, c.window, c.limit - 1, 1, 1 + c.window);
  }

  lemma BothWindowsInOrder(c: Settings, key: string)
    requires c.limit >= 1 && c.window >= 1
    ensures InOrder(BothWindows(c, key))
  {
    var calls := BothWindows(c, key);
    assert |calls| == 2 * c.limit;
    assert forall i | 0 <= i < |calls| ::
      calls[i].at == if i == 0 then 0 else if i < c.limit then c.window else c.window + 1;
  }

  /** The bound is met for every limit and every window but zero. */
  lemma TheBoundIsReached(c: Settings, key: string)
    requires c.limit >= 1 && c.window >= 1 && key != ""
    ensures InOrder(BothWindows(c, key))
    ensures Allowed(c, BothWindows(c, key), true, key, 1, 1 + c.window) == 2 * c.limit - 1
  {
    var first := FirstWindow(c, key);
    TheFirstWindowFills(c, key);
    FirstOfAWindow(c, first, key, c.window + 1, 1, 1 + c.window);
    RoomForABurst(c, first + [Call(key, c.window + 1)], key, c.window + 1, c.limit - 1, 1, 1 + c.window);
    BothWindowsInOrder(c, key);
    SweepingChangesNoCount(c, BothWindows(c, key), key, 1, 1 + c.window);
  }

  /** With a window of zero every moment is a window of its own. */
  ghost predicate OneMomentBounded(c: Settings, calls: seq<Call>, key: string, at: int) {
    var n := Allowed(c, calls, false, key, at, at);
    var hits := After(c, calls, false);
    if key !in hits then n == 0
    else hits[key].count >= 1 && calls != [] && hits[key].start <= calls[|calls| - 1].at
         && n <= (if hits[key].start < at then 0 else c.limit)
         && (hits[key].start == at ==> n <= hits[key].count)
  }

  /** At a window of zero the limit itself is the most a moment sees. */
  lemma AZeroWindowSeesTheLimit(c: Settings, calls: seq<Call>, key: string, at: int)
    requires InOrder(calls) && c.limit >= 1 && c.window == 0 && key != ""
    ensures Allowed(c, calls, true, key, at, at) <= c.limit
  {
    ZeroWindowFrom(c, calls, key, at);
    SweepingChangesNoCount(c, calls, key, at, at);
  }

  lemma {:induction false} ZeroWindowFrom(c: Settings, calls: seq<Call>, key: string, at: int)
    requires InOrder(calls) && c.limit >= 1 && c.window == 0 && key != ""
    ensures OneMomentBounded(c, calls, key, at)
    decreases |calls|
  {
    if calls != [] {
      var last := calls[|calls| - 1];
      ZeroWindowFrom(c, calls[..|calls| - 1], key, at);
      if last.at < at { NothingBefore(c, calls, false, key, at, at); }
    }
  }

  /** The limit must be at least one: a window's first call is let through whatever the limit. */
  lemma ALimitOfZeroStillLetsOneThrough(c: Settings, key: string, at: int)
    requires c.window >= 0
    ensures Allowed(c, [Call(key, at)], true, key, at, at + c.window) == 1
  {
    assert [Call(key, at)][..0] == [];
    assert Step(c, [Call(key, at)], true).1;
    assert Allowed(c, [], true, key, at, at + c.window) == 0;
  }
}

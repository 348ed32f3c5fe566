/** The two kinds of event filter and the default filter list.
    A filter is evaluated against "seconds before expiry": positive while
    the write-off is still ahead, negative once it is overdue. */
module Filters {

  const AlreadyExpiredEvent: string := "ALREADY_EXPIRED"
  const ExpireAt5Minutes: string := "EXPIRE_AT_5_MINUTES"
  const ExpireAt10Minutes: string := "EXPIRE_AT_10_MINUTES"
  const ExpireAt15Minutes: string := "EXPIRE_AT_15_MINUTES"

  /** JavaScript's `Math.round`: the nearest integer, ties towards +infinity. */
  function Round(v: real): (n: int)
    ensures v - 0.5 < n as real <= v + 0.5
  {
    (v + 0.5).Floor
  }

  function Abs(v: real): real
  {
    if v < 0.0 then -v else v
  }

  /** `Round(v)` is an integer nearest to `v`: no integer is closer. */
  lemma RoundIsNearest(v: real, k: int)
    ensures Abs(v - Round(v) as real) <= 0.5
    ensures Abs(v - Round(v) as real) <= Abs(v - k as real)
  {
    var n := Round(v);
    if k > n {
      assert k as real >= n as real + 1.0;
    } else if k < n {
      assert k as real <= n as real - 1.0;
    }
  }

  datatype EventFilter =
      /** `TimeBeforeExpireFilter`: fires while the seconds before expiry
          lie in [rangeStart, rangeStop]. */
    | TimeBeforeExpire(eventType: string, rangeStart: real, rangeStop: real)
      /** `AlreadyExpiredFilter`: fires near multiples of the interval,
          within the deviation, but never more than the deviation ahead. */
    | AlreadyExpired(intervalInSeconds: real, deviationInSeconds: real)
  {
    /** The event a filter reports; an `AlreadyExpired` filter always
        reports `ALREADY_EXPIRED`. */
    function EventType(): string
    {
      match this
      case TimeBeforeExpire(eventType, _, _) => eventType
      case AlreadyExpired(_, _) => AlreadyExpiredEvent
    }

    /** `isSatisfied`. For `AlreadyExpired`, `x / interval` with a zero
        interval is NaN or an infinity in JavaScript, and every comparison
        that follows is then false. A range filter with an empty range never
        fires; the periodic filter fires only at most the deviation ahead,
        with a non-zero interval and a non-negative deviation. */
    predicate IsSatisfied(x: real)
      ensures TimeBeforeExpire? && IsSatisfied(x) ==> rangeStart <= rangeStop
      ensures AlreadyExpired? && IsSatisfied(x) ==>
        x <= deviationInSeconds && intervalInSeconds != 0.0 && 0.0 <= deviationInSeconds
    {
      match this
      case TimeBeforeExpire(_, rangeStart, rangeStop) =>
        rangeStart <= x && x <= rangeStop
      case AlreadyExpired(interval, deviation) =>
        if x > deviation then false
        else if interval == 0.0 then false
        else
          var threshold := Round(x / interval) as real * interval;
          threshold - deviation <= x && x <= threshold + deviation
    }
  }

  /** `x` lies within `deviation` of the `k`-th multiple of `interval`. */
  predicate NearMultiple(x: real, k: int, interval: real, deviation: real)
  {
    k as real * interval - deviation <= x <= k as real * interval + deviation
  }

  /** `NearMultiple` as a distance, with the multiplier `kr` given as the
      real that `k` converts to. */
  lemma NearMultipleIsDistance(x: real, k: int, kr: real, interval: real, deviation: real)
    requires kr == k as real
    ensures NearMultiple(x, k, interval, deviation) <==> Abs(x - kr * interval) <= deviation
  {
  }

  lemma ScaleMonotone(a: real, b: real, c: real)
    requires a >= 0.0 && b <= c
    ensures a * b <= a * c
  {
    assert a * c - a * b == a * (c - b);
  }

  /** A multiple `n` of the interval no farther (in units of the interval)
      from `x` than a multiple `k` is no farther in seconds either. The
      multipliers are taken as reals so that the arithmetic stays real. */
  lemma NearerMultiple(x: real, interval: real, deviation: real, v: real, n: real, k: real)
    requires x == v * interval
    requires Abs(v - n) <= Abs(v - k)
    requires Abs(x - k * interval) <= deviation
    ensures Abs(x - n * interval) <= deviation
  {
    ScaledGap(x, interval, v, n);
    ScaledGap(x, interval, v, k);
    ScaledBound(Abs(x - n * interval), Abs(x - k * interval),
      Abs(interval), Abs(v - n), Abs(v - k), deviation);
  }

  lemma ScaledBound(gn: real, gk: real, a: real, dn: real, dk: real, bound: real)
    requires a >= 0.0 && dn <= dk
    requires gn == a * dn && gk == a * dk && gk <= bound
    ensures gn <= bound
  {
    ScaleMonotone(a, dn, dk);
  }

  /** The gap between `x` and `m * interval` is `|interval|` times the gap
      between `v` and `m`, where `x == v * interval`. */
  lemma ScaledGap(x: real, interval: real, v: real, m: real)
    requires x == v * interval
    ensures Abs(x - m * interval) == Abs(interval) * Abs(v - m)
  {
    Distribute(v, m, interval);
    AbsProduct(v - m, interval);
  }

  lemma DivideThenMultiply(x: real, interval: real)
    requires interval != 0.0
    ensures x == (x / interval) * interval
  {
  }

  lemma Distribute(v: real, m: real, interval: real)
    ensures v * interval - m * interval == (v - m) * interval
  {
  }

  lemma AbsProduct(a: real, b: real)
    ensures Abs(a * b) == Abs(b) * Abs(a)
  {
    if a < 0.0 && b < 0.0 {
      assert a * b == (-a) * (-b);
    } else if a < 0.0 {
      assert -(a * b) == b * (-a);
    } else if b < 0.0 {
      assert -(a * b) == (-b) * a;
    }
  }

  /** If any multiple of the interval is within the deviation of `x`, the
      rounded one is: rounding picks a nearest multiple. */
  lemma RoundedMultipleIsNearest(x: real, interval: real, deviation: real, k: int)
    requires interval != 0.0
    requires NearMultiple(x, k, interval, deviation)
    ensures NearMultiple(x, Round(x / interval), interval, deviation)
  {
    var v := x / interval;
    var n := Round(v);
    var nr, kr := n as real, k as real;
    assert Abs(v - nr) <= Abs(v - kr) by { RoundIsNearest(v, k); }
    assert Abs(x - kr * interval) <= deviation by { NearMultipleIsDistance(x, k, kr, interval, deviation); }
    assert Abs(x - nr * interval) <= deviation by {
      DivideThenMultiply(x, interval);
      NearerMultiple(x, interval, deviation, v, nr, kr);
    }
    NearMultipleIsDistance(x, n, nr, interval, deviation);
  }

  /** The periodic filter, stated without rounding: it fires exactly when
      `x` is at most the deviation ahead and lies within the deviation of
      SOME integer multiple of the interval. */
  lemma {:induction false} AlreadyExpiredMeaning(interval: real, deviation: real, x: real)
    ensures AlreadyExpired(interval, deviation).IsSatisfied(x) <==>
      x <= deviation && interval != 0.0 &&
      exists k: int :: NearMultiple(x, k, interval, deviation)
  {
    if x <= deviation && interval != 0.0 {
      if k: int :| NearMultiple(x, k, interval, deviation) {
        RoundedMultipleIsNearest(x, interval, deviation, k);
      }
      assert AlreadyExpired(interval, deviation).IsSatisfied(x) ==>
        NearMultiple(x, Round(x / interval), interval, deviation);
    }
  }

  /** Once overdue, the periodic filter fires again around every multiple
      of the interval: at `k * interval + e` for any `k <= 0` and any offset
      `e` within the deviation. */
  lemma AlreadyExpiredRepeats(interval: real, deviation: real, k: int, e: real)
    requires interval > 0.0 && k <= 0
    requires -deviation <= e <= deviation
    ensures AlreadyExpired(interval, deviation).IsSatisfied(k as real * interval + e)
  {
    var x := k as real * interval + e;
    assert k as real * interval <= 0.0;
    assert NearMultiple(x, k, interval, deviation);
    AlreadyExpiredMeaning(interval, deviation, x);
  }

  /** The filters `main` installs, in its order. */
  const DefaultFilters: seq<EventFilter> := [
    AlreadyExpired(600.0, 30.0),
    TimeBeforeExpire(ExpireAt5Minutes, 270.0, 330.0),
    TimeBeforeExpire(ExpireAt10Minutes, 570.0, 630.0),
    TimeBeforeExpire(ExpireAt15Minutes, 870.0, 930.0)
  ]

  /** The event types of the filters `x` satisfies, in filter order
      (the inner `forEach` of `findWriteOffs`). */
  function Fired(filters: seq<EventFilter>, x: real): (r: seq<string>)
    ensures |r| <= |filters|
  {
    if filters == [] then []
    else
      var last := filters[|filters| - 1];
      Fired(filters[..|filters| - 1], x) + (if last.IsSatisfied(x) then [last.EventType()] else [])
  }

  /** `Fired` lists exactly the event types of the filters `x` satisfies. */
  lemma {:induction false} FiredMembers(filters: seq<EventFilter>, x: real)
    ensures forall e :: e in Fired(filters, x) <==>
      exists j :: 0 <= j < |filters| && filters[j].IsSatisfied(x) && filters[j].EventType() == e
  {
    if filters != [] {
      var init := filters[..|filters| - 1];
      FiredMembers(init, x);
      assert forall j :: 0 <= j < |init| ==> init[j] == filters[j];
    }
  }

  /** The range filter includes both of its ends: with [270, 330], 270 and
      330 fire and 269 and 331 do not. */
  lemma RangeIsInclusive()
    ensures var f := TimeBeforeExpire(ExpireAt5Minutes, 270.0, 330.0);
      f.IsSatisfied(270.0) && f.IsSatisfied(330.0) && !f.IsSatisfied(269.0) && !f.IsSatisfied(331.0)
  {
  }

  /** Two range filters whose ranges do not overlap never fire for the
      same value, and a range filter fires for every value of a range
      inside its own. */
  lemma RangeFilterBounds(f: EventFilter, g: EventFilter, x: real)
    requires f.TimeBeforeExpire? && g.TimeBeforeExpire?
    ensures f.rangeStop < g.rangeStart ==> !(f.IsSatisfied(x) && g.IsSatisfied(x))
    ensures f.rangeStart <= g.rangeStart && g.rangeStop <= f.rangeStop && g.IsSatisfied(x) ==> f.IsSatisfied(x)
  {
  }

  /** The default periodic filter (600, 30) at the boundary values: 0, 30,
      -30, -570, -600 and -630 fire; 31, -31 and -300 do not. */
  lemma AlreadyExpiredDefaultExamples()
    ensures var f := DefaultFilters[0];
      && f.IsSatisfied(0.0) && f.IsSatisfied(30.0) && f.IsSatisfied(-30.0)
      && f.IsSatisfied(-570.0) && f.IsSatisfied(-600.0) && f.IsSatisfied(-630.0)
      && !f.IsSatisfied(31.0) && !f.IsSatisfied(-31.0) && !f.IsSatisfied(-300.0)
  {
  }

  /** No value satisfies two of the default filters: `ALREADY_EXPIRED`
      fires only at or below 30 seconds, and the three ranges are disjoint
      and all above it. So each write-off fires at most one default event. */
  lemma {:induction false} DefaultFiltersFireAtMostOnce(x: real)
    ensures |Fired(DefaultFilters, x)| <= 1
  {
    var fs := DefaultFilters;
    assert fs[..3][..2][..1] == [fs[0]];
    assert Fired(fs, x) ==
      Fired(fs[..3], x) + (if fs[3].IsSatisfied(x) then [ExpireAt15Minutes] else []);
    assert Fired(fs[..3], x) ==
      Fired(fs[..3][..2], x) + (if fs[2].IsSatisfied(x) then [ExpireAt10Minutes] else []);
    assert Fired(fs[..3][..2], x) ==
      Fired([fs[0]], x) + (if fs[1].IsSatisfied(x) then [ExpireAt5Minutes] else []);
  }

  /** Five minutes ahead yields only `EXPIRE_AT_5_MINUTES`. */
  lemma FiveMinutesAheadFiresOnlyFiveMinutes()
    ensures Fired(DefaultFilters, 300.0) == [ExpireAt5Minutes]
  {
    var fs := DefaultFilters;
    var x := 300.0;
    assert fs[..3][..2][..1] == [fs[0]];
    assert Fired(fs, x) ==
      Fired(fs[..3], x) + (if fs[3].IsSatisfied(x) then [ExpireAt15Minutes] else []);
    assert Fired(fs[..3], x) ==
      Fired(fs[..3][..2], x) + (if fs[2].IsSatisfied(x) then [ExpireAt10Minutes] else []);
    assert Fired(fs[..3][..2], x) ==
      Fired([fs[0]], x) + (if fs[1].IsSatisfied(x) then [ExpireAt5Minutes] else []);
    assert Fired([fs[0]], x) == [];
  }
}

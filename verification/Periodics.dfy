/** Periodic watchers: `periodic_recalc`, and `periodics_reschedule` after a jump of the wall clock. */
module Periodics {
  import opened Watchers
  import opened TimeHeap

  /** 1/2**13, the smallest interval the grid is computed with. */
  const MIN_INTERVAL: real := 0.0001220703125

  /** The k-th point of the grid a periodic watcher is defined by. */
  ghost function Tick(offset: real, interval: real, k: int): real {
    offset + (k as real) * interval
  }

  ghost predicate OnGrid(at: real, offset: real, interval: real) {
    exists k: int :: at == Tick(offset, interval, k)
  }

  /** `at` is the first grid point strictly after `now`. */
  ghost predicate FirstTickAfter(at: real, offset: real, interval: real, now: real) {
    && now < at && OnGrid(at, offset, interval)
    && forall k: int :: now < Tick(offset, interval, k) ==> at <= Tick(offset, interval, k)
  }

  /** Where `periodic_recalc` starts from: the last point not after `now` of the grid with an interval of at least
      MIN_INTERVAL. */
  ghost function Base(offset: real, interval: real, now: real): (base: real)
    requires interval > 0.0
    ensures base <= now && (interval >= MIN_INTERVAL ==> now < base + interval)
  {
    var step := if interval > MIN_INTERVAL then interval else MIN_INTERVAL;
    FloorBounds(now - offset, step);
    offset + step * (((now - offset) / step).Floor as real)
  }

  lemma {:induction false} FloorBounds(x: real, step: real)
    requires step > 0.0
    ensures var n := (x / step).Floor as real; step * n <= x < step * n + step
  {
    var q := x / step;
    var n := q.Floor as real;
    assert q * step == x;
    assert n <= q < n + 1.0;
    MulMono(n, q, step);
    MulMono(q, n + 1.0, step);
    assert x < (n + 1.0) * step;
    assert (n + 1.0) * step == step * n + step;
  }

  lemma {:induction false} MulMono(a: real, b: real, c: real)
    requires a <= b && c > 0.0
    ensures a * c <= b * c && (a < b ==> a * c < b * c)
  {
  }

  lemma {:induction false} TicksIncrease(offset: real, interval: real, j: int, k: int)
    requires interval > 0.0 && j <= k
    ensures Tick(offset, interval, j) <= Tick(offset, interval, k)
    ensures Tick(offset, interval, k + 1) == Tick(offset, interval, k) + interval
  {
  }

  /** A grid point that lies at most one interval after `now` is the first one after `now`. */
  lemma {:induction false} WithinOneInterval(at: real, k: int, offset: real, interval: real, now: real)
    requires interval > 0.0 && at == Tick(offset, interval, k) && now < at <= now + interval
    ensures FirstTickAfter(at, offset, interval, now)
  {
    forall j: int ensures now < Tick(offset, interval, j) ==> at <= Tick(offset, interval, j) {
      if j < k {
        TicksIncrease(offset, interval, j, k - 1);
      } else {
        TicksIncrease(offset, interval, k, j);
      }
    }
  }

  /** The grid points of two grids whose origins are a whole number of intervals apart are the same. */
  lemma {:induction false} SameGrid(at: real, base: real, offset: real, interval: real)
    requires interval > 0.0 && OnGrid(at, base, interval)
    ensures OnGrid(at, offset, interval) <==> OnGrid(base, offset, interval)
  {
    var k: int :| at == Tick(base, interval, k);
    if OnGrid(base, offset, interval) {
      var j: int :| base == Tick(offset, interval, j);
      assert ((j + k) as real) * interval == (j as real) * interval + (k as real) * interval;
      assert at == Tick(offset, interval, j + k);
    }
    if OnGrid(at, offset, interval) {
      var j: int :| at == Tick(offset, interval, j);
      assert ((j - k) as real) * interval == (j as real) * interval - (k as real) * interval;
      assert base == Tick(offset, interval, j - k);
    }
  }

  /** When the result of `periodic_recalc` is the watcher's first grid point after `now`: exactly when the base lies on
      the watcher's grid. */
  lemma {:induction false} RecalcIsFirstTick(at: real, offset: real, interval: real, now: real)
    requires interval > 0.0 && now < at <= now + interval && OnGrid(at, Base(offset, interval, now), interval)
    ensures FirstTickAfter(at, offset, interval, now) <==> OnGrid(Base(offset, interval, now), offset, interval)
  {
    SameGrid(at, Base(offset, interval, now), offset, interval);
    if OnGrid(at, offset, interval) {
      var k: int :| at == Tick(offset, interval, k);
      WithinOneInterval(at, k, offset, interval, now);
    }
  }

  /** It does for every interval of at least MIN_INTERVAL. */
  lemma {:induction false} BaseOnGrid(offset: real, interval: real, now: real)
    requires interval >= MIN_INTERVAL
    ensures OnGrid(Base(offset, interval, now), offset, interval)
  {
    assert Base(offset, interval, now) == Tick(offset, interval, ((now - offset) / interval).Floor);
  }

  /** The first point after `now` reached from the base in steps of the watcher's interval. */
  ghost function Recalculated(offset: real, interval: real, now: real): real
    requires interval > 0.0
  {
    var base := Base(offset, interval, now);
    Tick(base, interval, ((now - base) / interval).Floor + 1)
  }

  /** With a smaller interval it may not: an interval of three quarters of MIN_INTERVAL makes the code miss a grid
      point. */
  lemma {:induction false} SmallIntervalMissesTick()
    ensures var interval := 0.75 * MIN_INTERVAL;
            !FirstTickAfter(Recalculated(0.0, interval, MIN_INTERVAL), 0.0, interval, MIN_INTERVAL)
  {
    var interval := 0.75 * MIN_INTERVAL;
    assert MIN_INTERVAL / MIN_INTERVAL == 1.0;
    var base := Base(0.0, interval, MIN_INTERVAL);
    assert base == MIN_INTERVAL && (MIN_INTERVAL - base) / interval == 0.0;
    assert Recalculated(0.0, interval, MIN_INTERVAL) == Tick(base, interval, 1) == base + interval;
    assert Tick(0.0, interval, 2) == 1.5 * MIN_INTERVAL;
  }

  lemma {:induction false} FloorTick(base: real, interval: real, now: real)
    requires interval > 0.0
    ensures var k := ((now - base) / interval).Floor;
            Tick(base, interval, k) <= now < Tick(base, interval, k + 1) == Tick(base, interval, k) + interval
  {
    var k := ((now - base) / interval).Floor;
    FloorBounds(now - base, interval);
    TicksIncrease(base, interval, k, k);
    assert Tick(base, interval, k) == base + interval * (k as real);
  }

  /** The recalculated time lies at most one interval after `now`, and from MIN_INTERVAL on is the watcher's first grid
      point after `now`. */
  lemma {:induction false} RecalculatedIsNext(offset: real, interval: real, now: real)
    requires interval > 0.0
    ensures var at := Recalculated(offset, interval, now);
            && now < at <= now + interval
            && (FirstTickAfter(at, offset, interval, now) <==> OnGrid(Base(offset, interval, now), offset, interval))
            && (interval >= MIN_INTERVAL ==> FirstTickAfter(at, offset, interval, now))
  {
    var base := Base(offset, interval, now);
    FloorTick(base, interval, now);
    RecalcIsFirstTick(Recalculated(offset, interval, now), offset, interval, now);
    if interval >= MIN_INTERVAL { BaseOnGrid(offset, interval, now); }
  }

  /** `periodic_recalc`.  (The source's test for a step lost to rounding cannot succeed with exact times.) */
  method PeriodicRecalc(offset: real, interval: real, now: real) returns (at: real)
    requires interval > 0.0
    ensures at == Recalculated(offset, interval, now)
  {
    var step := if interval > MIN_INTERVAL then interval else MIN_INTERVAL;
    at := offset + step * (((now - offset) / step).Floor as real);
    ghost var base, k := at, 0;
    assert base == Base(offset, interval, now);
    ghost var n := ((now - base) / interval).Floor + 1;
    FloorTick(base, interval, now);
    while at <= now
      invariant 0 <= k <= n && at == Tick(base, interval, k)
      decreases n - k
    {
      TicksIncrease(base, interval, k, k);
      at := at + interval;
      k := k + 1;
      if k <= n - 1 { TicksIncrease(base, interval, k, n - 1); }
    }
    if k <= n - 1 { TicksIncrease(base, interval, k, n - 1); }
  }

  /** What rescheduling makes of a watcher's due time: the callback's answer, the recalculated time, or, for a one-shot,
      no change. */
  ghost function NextDue(was: real, reschedule: Reschedule, interval: real, offset: real, now: real): real {
    if reschedule.Callback? then reschedule.f(now)
    else if interval > 0.0 then Recalculated(offset, interval, now)
    else was
  }

  /** The body of the loop of `periodics_reschedule`. */
  method RescheduleSlot(periodics: array<Anhe>, i: nat, now: real) returns (w: Watcher)
    requires i < periodics.Length && periodics[i].w.interval >= 0.0
    modifies periodics, periodics[i].w`at
    ensures w == old(periodics[i].w) && w.at == NextDue(old(w.at), w.reschedule, w.interval, w.offset, now)
    ensures periodics[..] == old(periodics[..])[i := Anhe(w.at, w)]
  {
    w := periodics[i].w;
    if w.reschedule.Callback? {
      w.at := w.reschedule.f(now);
    } else if w.interval != 0.0 {
      w.at := PeriodicRecalc(w.offset, w.interval, now);
    }
    periodics[i] := Anhe(w.at, w);
  }

  /** A new key leaves every watcher in its slot. */
  lemma {:induction false} SlotRenewed(slots: seq<Anhe>, n: nat, ws: set<Watcher>, i: nat, at: real)
    requires Indexed(slots, n, ws) && HEAP0 <= i < HEAP0 + n
    ensures Indexed(slots[i := Anhe(at, slots[i].w)], n, ws) && forall w :: w in ws && w.active == i ==> w == slots[i].w
  {
  }

  /** The loop of `periodics_reschedule`: due times and cached keys change, slots do not. */
  method RescheduleAll(periodics: array<Anhe>, n: nat, now: real, ghost ws: set<Watcher>)
    requires Indexed(periodics[..], n, ws) && forall w :: w in ws ==> w.interval >= 0.0
    modifies periodics, ws`at
    ensures Indexed(periodics[..], n, ws) && Cached(periodics[..], n, ws)
    ensures forall w :: w in ws ==> w.at == NextDue(old(w.at), w.reschedule, w.interval, w.offset, now)
  {
    for i := HEAP0 to HEAP0 + n
      invariant Indexed(periodics[..], n, ws)
      invariant forall w :: w in ws && w.active < i
                  ==> periodics[w.active].at == w.at == NextDue(old(w.at), w.reschedule, w.interval, w.offset, now)
      invariant forall w :: w in ws && i <= w.active ==> w.at == old(w.at)
    {
      ghost var slots := periodics[..];
      var w := RescheduleSlot(periodics, i, now);
      SlotRenewed(slots, n, ws, i, w.at);
    }
  }

  /** `periodics_reschedule`: every due time is recomputed and the heap is rebuilt around the same watchers. */
  method PeriodicsReschedule(periodics: array<Anhe>, n: nat, now: real, ghost ws: set<Watcher>)
    requires Indexed(periodics[..], n, ws) && forall w :: w in ws ==> w.interval >= 0.0
    modifies periodics, ws`at, ws`active
    ensures ValidHeap(periodics[..], n, ws)
    ensures forall w :: w in ws ==> w.at == NextDue(old(w.at), w.reschedule, w.interval, w.offset, now)
    ensures forall w :: w in ws && !w.reschedule.Callback? && w.interval >= MIN_INTERVAL
              ==> FirstTickAfter(w.at, w.offset, w.interval, now)
    ensures forall w :: w in ws && !w.reschedule.Callback? && w.interval == 0.0 ==> w.at == old(w.at)
    ensures forall w :: w in ws && w.reschedule.Callback? ==> w.at == w.reschedule.f(now)
  {
    RescheduleAll(periodics, n, now, ws);
    ReHeap(periodics, n, ws);
    forall w | w in ws && !w.reschedule.Callback? && w.interval >= MIN_INTERVAL
      ensures FirstTickAfter(Recalculated(w.offset, w.interval, now), w.offset, w.interval, now)
    {
      RecalculatedIsNext(w.offset, w.interval, now);
    }
  }
}

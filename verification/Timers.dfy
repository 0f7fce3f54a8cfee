/** Timer watchers: `ev_timer_start`, `ev_timer_stop`, `ev_timer_again` and their expiry in `timers_reify`. */
module Timers {
  import opened Watchers
  import opened TimeHeap
  import opened Pending

  const EV_TIMER: bv32 := 0x100

  /** When a repeating timer that was due at `at` is due next. */
  function Rescheduled(at: real, repeat: real, now: real): real {
    if at + repeat < now then now else at + repeat
  }

  /** An expired timer is rescheduled if it repeats, and stopped otherwise. */
  ghost predicate Expired(w: Watcher, was: real, at: real, repeat: real, now: real, active: set<Watcher>) {
    if repeat != 0.0 then w in active && at == Rescheduled(was, repeat, now) else w !in active && at == was - now
  }

  /** What expiry does, given the due times `was` before and `at` after of the timers `ws` that were active: `fired` are
      expired timers in nondecreasing due time, each once; the others are untouched and due no earlier. */
  ghost predicate Expiring(fired: seq<Watcher>, ws: set<Watcher>, was: map<Watcher, real>, at: map<Watcher, real>,
                           repeat: map<Watcher, real>, now: real, active: set<Watcher>)
    requires ws <= was.Keys && ws <= at.Keys && ws <= repeat.Keys
  {
    && active <= ws
    && (forall w :: w in fired ==> w in ws && was[w] < now && Expired(w, was[w], at[w], repeat[w], now, active))
    && (forall i, j :: 0 <= i < j < |fired| ==> fired[i] != fired[j] && was[fired[i]] <= was[fired[j]])
    && (forall w :: w in ws && w !in fired ==> w in active && at[w] == was[w])
    && (forall v, w :: v in fired && w in ws && w !in fired ==> was[v] <= was[w])
  }

  /** A stopped timer loses its pending event; the index of every other watcher stays. */
  ghost predicate Unqueued(fired: seq<Watcher>, was: map<Watcher, nat>, index: map<Watcher, nat>,
                           repeat: map<Watcher, real>) {
    forall w :: w in repeat ==>
      w in was && w in index && index[w] == if w in fired && repeat[w] == 0.0 then 0 else was[w]
  }

  lemma {:induction false} UnqueuedGrows(fired: seq<Watcher>, was: map<Watcher, nat>, index: map<Watcher, nat>,
                                         repeat: map<Watcher, real>, w: Watcher)
    requires Unqueued(fired, was, index, repeat) && w in repeat && w !in fired
    ensures Unqueued(fired + [w], was, if repeat[w] != 0.0 then index else index[w := 0], repeat)
  {
  }

  lemma {:induction false} FiringGrows(fired: seq<Watcher>, w: Watcher)
    ensures forall v :: v in fired + [w] <==> v in fired || v == w
  {
  }

  lemma {:induction false} ExpiringGrows(fired: seq<Watcher>, ws: set<Watcher>, was: map<Watcher, real>,
                                         at: map<Watcher, real>, next: real, repeat: map<Watcher, real>, now: real,
                                         active: set<Watcher>, active': set<Watcher>, w: Watcher)
    requires ws <= was.Keys && ws <= at.Keys && ws <= repeat.Keys
    requires Expiring(fired, ws, was, at, repeat, now, active) && w in active && at[w] < now
    requires forall v :: v in active ==> at[w] <= at[v]
    requires active' == (if repeat[w] != 0.0 then active else active - {w})
             && Expired(w, at[w], next, repeat[w], now, active')
    ensures Expiring(fired + [w], ws, was, at[w := next], repeat, now, active') && w !in fired
  {
  }

  /** A repeating timer that is not late keeps its phase, due exactly one period after it was due; a late one is due
      now. */
  ghost predicate PhasesKept(fired: seq<Watcher>, was: map<Watcher, real>, at: map<Watcher, real>,
                             repeat: map<Watcher, real>, now: real)
  {
    forall w :: w in fired && w in was && w in at && w in repeat && repeat[w] != 0.0 ==>
      if was[w] + repeat[w] >= now then at[w] == was[w] + repeat[w] else at[w] == now
  }

  lemma {:induction false} ExpiredKeepPhase(fired: seq<Watcher>, ws: set<Watcher>, was: map<Watcher, real>,
                                            at: map<Watcher, real>, repeat: map<Watcher, real>, now: real,
                                            active: set<Watcher>)
    requires ws <= was.Keys && ws <= at.Keys && ws <= repeat.Keys && Expiring(fired, ws, was, at, repeat, now, active)
    ensures PhasesKept(fired, was, at, repeat, now)
  {
    forall w | w in fired && repeat[w] != 0.0
      ensures if was[w] + repeat[w] >= now then at[w] == was[w] + repeat[w] else at[w] == now
    {
      assert Expired(w, was[w], at[w], repeat[w], now, active);
    }
  }

  /** None of the timers is due. */
  ghost predicate NoneDue(ws: set<Watcher>, at: map<Watcher, real>, now: real) {
    ws <= at.Keys && forall w :: w in ws ==> at[w] >= now
  }

  /** Of the timers `ws`, exactly those that were due have fired. */
  ghost predicate DueFired(fired: seq<Watcher>, ws: set<Watcher>, was: map<Watcher, real>, now: real) {
    ws <= was.Keys && forall w :: w in ws ==> (w in fired <==> was[w] < now)
  }

  lemma {:induction false} FiredAreDue(fired: seq<Watcher>, ws: set<Watcher>, was: map<Watcher, real>,
                                       at: map<Watcher, real>, repeat: map<Watcher, real>, now: real,
                                       active: set<Watcher>)
    requires ws <= was.Keys && ws <= at.Keys && ws <= repeat.Keys && Expiring(fired, ws, was, at, repeat, now, active)
    requires NoneDue(active, at, now)
    ensures DueFired(fired, ws, was, now)
  {
  }

  lemma {:induction false} ReversedIsEarlierAbove(fired: seq<Watcher>, before: map<Watcher, nat>,
                                                  index: map<Watcher, nat>, after: map<Watcher, nat>,
                                                  repeat: map<Watcher, real>)
    requires (forall w :: w in fired ==> w in repeat) && Unqueued(fired, before, index, repeat)
             && Reversed(fired, index, after, 0)
    ensures EarlierAbove(fired, before, after)
  {
  }

  lemma {:induction false} LargerKeeps(h: seq<Anhe>, h': seq<Anhe>, n: nat, ws: set<Watcher>)
    requires ValidHeap(h, n, ws) && h <= h'
    ensures ValidHeap(h', n, ws)
  {
  }

  class Loop {
    var timers: array<Anhe>
    var timercnt: nat
    var mnNow: real
    const queues: Queues
    ghost const mine: set<Watcher>     // the timer watchers ever used with this loop
    ghost var active: set<Watcher>     // those that are active

    ghost predicate Valid()
      reads this, timers, mine`active, mine`at
    {
      active <= mine && ValidHeap(timers[..], timercnt, active) && OthersInactive(active)
    }

    ghost predicate OthersInactive(ws: set<Watcher>)
      reads mine`active
    {
      forall w :: w in mine && w !in ws ==> w.active == 0
    }

    constructor (queues: Queues, ghost mine: set<Watcher>)
      requires forall w :: w in mine ==> w.active == 0
      ensures Valid() && active == {} && this.queues == queues && this.mine == mine && fresh(timers)
    {
      this.queues, this.mine, mnNow := queues, mine, 0.0;
      timercnt, active := 0, {};
      timers := new Anhe[HEAP0](_ => Anhe(0.0, queues.dummy));
    }

    /** `array_needsize`: a larger array with the same elements, if the present one is too small. */
    method NeedSize(cnt: nat, filler: Anhe)
      requires Valid()
      modifies this`timers
      ensures Valid() && cnt <= timers.Length && (timers == old(timers) || fresh(timers))
    {
      if cnt > timers.Length {
        var ncur := 2 * (timers.Length + 1);
        while cnt > ncur
          invariant timers.Length < ncur
        {
          ncur := 2 * ncur;
        }
        var s := timers[..];
        var larger := new Anhe[ncur](i => if 0 <= i < |s| then s[i] else filler);
        LargerKeeps(s, larger[..], timercnt, active);
        timers := larger;
      }
    }

    /** A timer is marked active exactly when it is in the heap. */
    lemma {:induction false} ActiveIsMarked(w: Watcher)
      requires Valid() && w in mine
      ensures w in active <==> w.active > 0
    {
    }

    /** `ev_timer_start`: an inactive timer is inserted, due its relative time from now. */
    method Start(w: Watcher)
      requires Valid() && w in mine
      modifies this`timers, this`timercnt, this`active, timers, mine`active, w`at
      ensures Valid() && active == old(active) + {w}
      ensures timers == old(timers) || fresh(timers)
      ensures w.at == if w in old(active) then old(w.at) else old(w.at) + mnNow
    {
      ActiveIsMarked(w);
      if w.active == 0 {
        NeedSize(timercnt + HEAP0 + 1, Anhe(w.at, w));
        Activate(w);
      }
    }

    /** The insertion of `ev_timer_start`. */
    method Activate(w: Watcher)
      requires Valid() && w in mine && w !in active && timercnt + HEAP0 < timers.Length
      modifies this`timercnt, this`active, timers, mine`active, w`at
      ensures Valid() && active == old(active) + {w} && w.at == old(w.at) + mnNow
    {
      w.at := w.at + mnNow;
      assert ValidHeap(timers[..], timercnt, active);
      ghost var ws := active + {w};
      Insert(timers, timercnt, w, active);
      assert OthersInactive(ws);
      timercnt, active := timercnt + 1, ws;
      assert ValidHeap(timers[..], timercnt, ws);
    }

    /** The heap part of `ev_timer_stop`: the last element takes the place of the stopped timer. */
    method Deactivate(w: Watcher)
      requires Valid() && w in mine
      modifies this`timercnt, this`active, timers, mine`active, w`at
      ensures Valid() && active == old(active) - {w}
      ensures w.at == if w in old(active) then old(w.at) - mnNow else old(w.at)
    {
      ActiveIsMarked(w);
      if w.active > 0 {
        TakeOut(w);
      }
    }

    /** The removal of `ev_timer_stop`. */
    method TakeOut(w: Watcher)
      requires Valid() && w in active
      modifies this`timercnt, this`active, timers, mine`active, w`at
      ensures Valid() && active == old(active) - {w} && w.at == old(w.at) - mnNow
    {
      ghost var ws := active - {w};
      Remove(timers, timercnt, w, active);
      timercnt, active := timercnt - 1, ws;
      w.at := w.at - mnNow;
      w.active := 0;
      assert ValidHeap(timers[..], timercnt, ws) && OthersInactive(ws);
    }

    /** The rescheduling branch of `ev_timer_again`. */
    method Reschedule(w: Watcher)
      requires Valid() && w in active
      modifies timers, mine`active, w`at
      ensures Valid() && w.at == mnNow + w.repeat
    {
      w.at := mnNow + w.repeat;
      assert Stale(timers[..], timercnt, active, w);
      Rekey(timers, timercnt, w, active);
    }

    /** The rescheduling branch of `timers_reify`. */
    method RescheduleRoot(w: Watcher)
      requires Valid() && timercnt > 0 && w == timers[HEAP0].w
      modifies timers, mine`active, w`at
      ensures Valid() && w.at == Rescheduled(old(w.at), w.repeat, mnNow)
    {
      w.at := w.at + w.repeat;
      if w.at < mnNow {
        w.at := mnNow;
      }
      assert Stale(timers[..], timercnt, active, w);
      RekeyRoot(timers, timercnt, active);
    }

    /** Heap and pending queues together. */
    ghost predicate Whole()
      reads this, timers, mine`active, mine`at, queues
    {
      Valid() && queues.Valid() && mine <= queues.all
    }

    /** `ev_timer_stop`. */
    method Stop(w: Watcher)
      requires Whole() && w in mine
      modifies this`timercnt, this`active, timers, mine`active, w`at, queues`stacks, queues`index, queues`history
      ensures Whole() && active == old(active) - {w} && queues.index == old(queues.index)[w := 0]
      ensures w.at == if w in old(active) then old(w.at) - mnNow else old(w.at)
      ensures queues.history == if old(queues.index)[w] > 0 then old(queues.history) + [Cleared(w)]
              else old(queues.history)
      ensures OnlyCleared(old(queues.history), queues.history)
    {
      var _ := queues.ClearPending(w);
      ClearsOnly(old(queues.history), queues.history, w);
      Deactivate(w);
    }

    /** `ev_timer_again`: a repeating timer is due one period from now whether or not it was active; any other is
        stopped. */
    method Again(w: Watcher)
      requires Whole() && w in mine
      modifies this`timers, this`timercnt, this`active, timers, mine`active, w`at, queues`stacks, queues`index,
               queues`history
      ensures Whole() && queues.index == old(queues.index)[w := 0] && (timers == old(timers) || fresh(timers))
      ensures active == if w.repeat != 0.0 then old(active) + {w} else old(active) - {w}
      ensures w.repeat != 0.0 ==> w.at == mnNow + w.repeat
    {
      var _ := queues.ClearPending(w);
      Restart(w);
    }

    /** The branches of `ev_timer_again`. */
    method Restart(w: Watcher)
      requires Valid() && w in mine
      modifies this`timers, this`timercnt, this`active, timers, mine`active, w`at
      ensures Valid() && (timers == old(timers) || fresh(timers))
      ensures active == if w.repeat != 0.0 then old(active) + {w} else old(active) - {w}
      ensures w.repeat != 0.0 ==> w.at == mnNow + w.repeat
    {
      if w.active > 0 {
        if w.repeat != 0.0 {
          Reschedule(w);
        } else {
          Deactivate(w);
        }
      } else if w.repeat != 0.0 {
        w.at := w.repeat;
        Start(w);
      }
    }

    ghost function Ats(): map<Watcher, real>
      reads mine`at
    {
      map w | w in mine :: w.at
    }

    ghost function Repeats(): map<Watcher, real>
      reads mine`repeat
    {
      map w | w in mine :: w.repeat
    }

    /** The due times when that of `w` alone has changed. */
    twostate lemma OneMoved(w: Watcher)
      requires w in mine && forall v :: v in mine && v != w ==> v.at == old(v.at)
      requires forall v :: v in mine ==> v.repeat == old(v.repeat)
      ensures Ats() == old(Ats())[w := w.at] && Repeats() == old(Repeats())
    {
    }

    twostate lemma NoneMoved()
      requires forall v :: v in mine ==> v.at == old(v.at) && v.repeat == old(v.repeat)
      ensures Ats() == old(Ats()) && Repeats() == old(Repeats())
    {
    }

    lemma {:induction false} RootIsFirst()
      requires Valid() && timercnt > 0
      ensures var w := timers[HEAP0].w;
              w in active && w.at == timers[HEAP0].at && forall v :: v in active ==> w.at <= v.at
    {
      forall v | v in active ensures timers[HEAP0].w.at <= v.at { RootIsMinimum(timers[..], timercnt, active, v); }
    }

    /** A repeating root is rescheduled. */
    method ExpireRepeating(w: Watcher)
      requires Whole() && timercnt > 0 && w == timers[HEAP0].w && w in active && w.repeat != 0.0
      modifies timers, mine`active, w`at
      ensures Whole() && Expired(w, old(w.at), w.at, w.repeat, mnNow, active)
      ensures Ats() == old(Ats())[w := w.at] && Repeats() == old(Repeats())
    {
      RescheduleRoot(w);
      OneMoved(w);
    }

    /** Any other is stopped. */
    method ExpireOneShot(w: Watcher)
      requires Whole() && w in active && w.repeat == 0.0
      modifies this`timercnt, this`active, timers, mine`active, w`at, queues`stacks, queues`index, queues`history
      ensures Whole() && active == old(active) - {w} && OnlyCleared(old(queues.history), queues.history)
      ensures Expired(w, old(w.at), w.at, w.repeat, mnNow, active) && queues.index == old(queues.index)[w := 0]
      ensures Ats() == old(Ats())[w := w.at] && Repeats() == old(Repeats())
    {
      Stop(w);
      OneMoved(w);
    }

    /** One turn of the loop of `timers_reify`. */
    method ExpireRoot() returns (w: Watcher)
      requires Whole() && timercnt > 0 && timers[HEAP0].at < mnNow
      modifies this`timercnt, this`active, timers, mine`active, mine`at, queues`stacks, queues`index, queues`history
      ensures Whole() && w in old(active) && old(w.at) < mnNow && OnlyCleared(old(queues.history), queues.history)
      ensures forall v :: v in old(active) ==> old(w.at) <= old(v.at)
      ensures active == if w.repeat != 0.0 then old(active) else old(active) - {w}
      ensures Expired(w, old(w.at), w.at, w.repeat, mnNow, active)
      ensures queues.index == if w.repeat != 0.0 then old(queues.index) else old(queues.index)[w := 0]
      ensures Ats() == old(Ats())[w := w.at] && Repeats() == old(Repeats())
    {
      RootIsFirst();
      w := timers[HEAP0].w;
      if w.repeat != 0.0 {
        ExpireRepeating(w);
      } else {
        ExpireOneShot(w);
      }
    }

    /** What has been done since the loop of `timers_reify` was entered with `ws` active, due times `was` and indices
        `index`. */
    ghost predicate Progress(fired: seq<Watcher>, ws: set<Watcher>, was: map<Watcher, real>, index: map<Watcher, nat>)
      reads this, mine`at, mine`repeat, queues
    {
      && ws <= was.Keys && ws <= mine
      && Expiring(fired, ws, was, Ats(), Repeats(), mnNow, active)
      && Unqueued(fired, index, queues.index, Repeats())
    }

    /** The body of that loop. */
    method ExpireNext(fired: seq<Watcher>, ghost ws: set<Watcher>, ghost was: map<Watcher, real>,
                      ghost index: map<Watcher, nat>)
      returns (w: Watcher)
      requires Whole() && timercnt > 0 && timers[HEAP0].at < mnNow && Progress(fired, ws, was, index)
      modifies this`timercnt, this`active, timers, mine`active, mine`at, queues`stacks, queues`index, queues`history
      ensures Whole() && OnlyCleared(old(queues.history), queues.history)
      ensures w in ws && w !in fired && Progress(fired + [w], ws, was, index)
    {
      ghost var at, repeat, before, now := Ats(), Repeats(), active, queues.index;
      w := ExpireRoot();
      ExpiringGrows(fired, ws, was, at, w.at, repeat, mnNow, before, active, w);
      UnqueuedGrows(fired, index, now, repeat, w);
    }

    /** The loop of `timers_reify`: it takes out every timer due before `mnNow`, collecting them with `feed_reverse`. */
    method ExpireAll() returns (fired: seq<Watcher>)
      requires Whole()
      modifies this`timercnt, this`active, timers, mine`active, mine`at, queues`stacks, queues`index, queues`history
      ensures Whole() && OnlyCleared(old(queues.history), queues.history)
      ensures Expiring(fired, old(active), old(Ats()), Ats(), Repeats(), mnNow, active)
      ensures Unqueued(fired, old(queues.index), queues.index, Repeats())
      ensures Distinct(fired) && forall w :: w in fired ==> w in mine
      ensures NoneDue(active, Ats(), mnNow) && DueFired(fired, old(active), old(Ats()), mnNow)
      ensures PhasesKept(fired, old(Ats()), Ats(), Repeats(), mnNow)
    {
      ghost var was, ws, index, left := Ats(), active, queues.index, active;
      fired := [];
      while timercnt > 0 && timers[HEAP0].at < mnNow
        invariant Whole() && OnlyCleared(old(queues.history), queues.history)
        invariant Progress(fired, ws, was, index)
        invariant forall w :: w in ws && w !in fired ==> w in left
        decreases left
      {
        var w := ExpireNext(fired, ws, was, index);
        FiringGrows(fired, w);
        fired, left := fired + [w], left - {w};
      }
      RootNotDue();
      FiredAreDue(fired, ws, was, Ats(), Repeats(), mnNow, active);
      ExpiredKeepPhase(fired, ws, was, Ats(), Repeats(), mnNow, active);
    }

    lemma {:induction false} RootNotDue()
      requires Valid() && (timercnt > 0 ==> timers[HEAP0].at >= mnNow)
      ensures NoneDue(active, Ats(), mnNow)
    {
      forall w | w in active ensures w.at >= mnNow { RootIsMinimum(timers[..], timercnt, active, w); }
    }

    /** The end of `timers_reify`: the collected timers become pending, earlier ones above. */
    method FeedFired(fired: seq<Watcher>, ghost before: map<Watcher, nat>)
      requires Whole() && (forall w :: w in fired ==> w in mine) && Unqueued(fired, before, queues.index, Repeats())
      requires Distinct(fired)
      modifies queues`stacks, queues`index, queues`pendingpri, queues`history
      ensures Whole() && Ats() == old(Ats()) && Repeats() == old(Repeats())
      ensures queues.history == FedBackwards(old(queues.history), fired, 0, EV_TIMER)
      ensures EarlierAbove(fired, before, queues.index) && AllPending(fired, mine, queues.index)
    {
      ghost var index, repeat := queues.index, Repeats();
      queues.FeedReverseDone(fired, EV_TIMER);
      NoneMoved();
      ReversedIsEarlierAbove(fired, before, index, queues.index, repeat);
    }

    /** `timers_reify`: every timer due before `mnNow` is rescheduled or stopped and fed EV_TIMER once, earlier ones
        above; `expired` is the history behind the expiry, which only clears events. */
    method TimersReify() returns (fired: seq<Watcher>, ghost expired: seq<Event>)
      requires Whole()
      modifies this`timercnt, this`active, timers, mine`active, mine`at, queues`stacks, queues`index, queues`pendingpri,
               queues`history
      ensures Whole() && OnlyCleared(old(queues.history), expired)
      ensures queues.history == FedBackwards(expired, fired, 0, EV_TIMER)
      ensures Expiring(fired, old(active), old(Ats()), Ats(), Repeats(), mnNow, active)
      ensures NoneDue(active, Ats(), mnNow) && DueFired(fired, old(active), old(Ats()), mnNow)
      ensures PhasesKept(fired, old(Ats()), Ats(), Repeats(), mnNow)
      ensures AllPending(fired, mine, queues.index) && EarlierAbove(fired, old(queues.index), queues.index)
    {
      ghost var before := queues.index;
      fired := ExpireAll();
      expired := queues.history;
      FeedFired(fired, before);
    }

    /** `ev_invoke_pending` after `timers_reify`. */
    method InvokeFired(fired: seq<Watcher>, callbacks: seq<seq<Action>>, ghost before: map<Watcher, nat>)
      returns (ghost calls: seq<Anpending>)
      requires Whole() && Known(callbacks, queues.all)
      requires EarlierAbove(fired, before, queues.index) && AllPending(fired, mine, queues.index)
      modifies queues`stacks, queues`index, queues`pendingpri, queues`history
      ensures Whole() && Ats() == old(Ats()) && Repeats() == old(Repeats()) && |old(queues.history)| <= |queues.history|
      ensures queues.history[..|old(queues.history)|] == old(queues.history)
      ensures CalledInDueOrder(fired, before, queues.history, |old(queues.history)|)
      ensures AllTouched(fired, queues.history, |old(queues.history)|)
      ensures RightCalls(queues.history, queues.all)
      ensures queues.history == Outcome(old(queues.history), calls, callbacks) && AllCalled(fired, calls, callbacks)
    {
      ghost var h, index := queues.history, queues.index;
      FiredArePending(fired, mine, queues.stacks, index, h);
      calls := queues.InvokePending(callbacks);
      NoneMoved();
      FiredAreServed(fired, before, index, h, queues.history);
      FiredAreCalled(fired, h, calls, callbacks);
    }

    /** Expiry and dispatch as `ev_run` performs them: whatever the callbacks do, each fired timer that none of them
        clears is called, and exactly once if none of them names it; its first call carries EV_TIMER, and timers of one
        priority are called in nondecreasing due time. */
    method RunTimers(callbacks: seq<seq<Action>>)
      returns (fired: seq<Watcher>, ghost expired: seq<Event>, ghost from: nat, ghost calls: seq<Anpending>)
      requires Whole() && Known(callbacks, queues.all)
      modifies this`timercnt, this`active, timers, mine`active, mine`at, queues`stacks, queues`index, queues`pendingpri,
               queues`history
      ensures Whole() && OnlyCleared(old(queues.history), expired)
      ensures from <= |queues.history| && queues.history[..from] == FedBackwards(expired, fired, 0, EV_TIMER)
      ensures Expiring(fired, old(active), old(Ats()), Ats(), Repeats(), mnNow, active)
      ensures DueFired(fired, old(active), old(Ats()), mnNow)
      ensures CalledInDueOrder(fired, old(queues.index), queues.history, from)
      ensures AllTouched(fired, queues.history, from)
      ensures FirstCallsCarry(fired, queues.history, from, EV_TIMER)
      ensures queues.history == Outcome(FedBackwards(expired, fired, 0, EV_TIMER), calls, callbacks)
      ensures AllCalled(fired, calls, callbacks)
    {
      ghost var before := queues.index;
      fired, expired := TimersReify();
      from := |queues.history|;
      calls := InvokeFired(fired, callbacks, before);
      FedIsCalledWith(expired, fired, queues.history, from, queues.all);
    }
  }

  /** Each fired timer is pending. */
  ghost predicate AllPending(fired: seq<Watcher>, mine: set<Watcher>, index: map<Watcher, nat>) {
    forall w :: w in fired ==> w in mine && w in index && index[w] > 0
  }

  /** Each fired timer was called or cleared from the point `from` of the history on. */
  ghost predicate AllTouched(fired: seq<Watcher>, h: seq<Event>, from: nat) {
    forall w :: w in fired ==> Touched(h, from, |h|, w)
  }

  lemma {:induction false} FiredArePending(fired: seq<Watcher>, mine: set<Watcher>, stacks: Stacks,
                                           index: map<Watcher, nat>, h: seq<Event>)
    requires |stacks| == NUMPRI && AllPending(fired, mine, index) && Tracks(stacks, index, h)
    ensures forall w :: w in fired ==> PendingIn(h, w)
  {
    assert forall w :: w in fired ==> WatcherTracked(stacks, w, index[w], h);
  }

  lemma {:induction false} FiredAreServed(fired: seq<Watcher>, before: map<Watcher, nat>, index: map<Watcher, nat>,
                                          h: seq<Event>, h': seq<Event>)
    requires h <= h' && EarlierAbove(fired, before, index) && TopFirst(h', |h|, index)
    requires forall w :: w in fired ==> PendingIn(h, w) && !PendingIn(h', w)
    ensures h'[..|h|] == h && CalledInDueOrder(fired, before, h', |h|) && AllTouched(fired, h', |h|)
  {
    assert h'[..|h|] == h;
    StackOrderIsDueOrder(fired, before, index, h', |h|);
    forall w | w in fired ensures Touched(h', |h|, |h'|, w) { PendingUntilTouched(h', |h|, w); }
  }

  /** Each fired timer that no callback clears is called, and exactly once if no callback names it. */
  ghost predicate AllCalled(fired: seq<Watcher>, calls: seq<Anpending>, callbacks: seq<seq<Action>>) {
    forall w :: w in fired ==>
      && (!ClearedBy(callbacks, |calls|, w) ==> Times(calls, w) > 0)
      && (!ActedOn(callbacks, |calls|, w) ==> Times(calls, w) == 1)
  }

  lemma {:induction false} FiredAreCalled(fired: seq<Watcher>, h: seq<Event>, calls: seq<Anpending>,
                                          callbacks: seq<seq<Action>>)
    requires forall w :: w in fired ==> PendingIn(h, w) && Served(h, calls, callbacks, w)
    ensures AllCalled(fired, calls, callbacks)
  {
  }

  /** Events were cleared between two points of a history, and nothing else happened. */
  ghost predicate OnlyCleared(h: seq<Event>, h': seq<Event>) {
    h <= h' && forall i :: |h| <= i < |h'| ==> h'[i].Cleared?
  }

  lemma {:induction false} ClearsOnly(h: seq<Event>, h': seq<Event>, w: Watcher)
    requires h' == h || h' == h + [Cleared(w)]
    ensures OnlyCleared(h, h')
  {
  }

  /** The first call of each fired timer carries the events `r`. */
  ghost predicate FirstCallsCarry(fired: seq<Watcher>, h: seq<Event>, from: nat, r: bv32) {
    forall t: nat, w :: w in fired && FirstCall(h, from, t, w) ==> Carries(h[t].events, r)
  }

  lemma {:induction false} FedIsCalledWith(expired: seq<Event>, fired: seq<Watcher>, h: seq<Event>, from: nat,
                                           all: set<Watcher>)
    requires from <= |h| && h[..from] == FedBackwards(expired, fired, 0, EV_TIMER) && RightCalls(h, all)
    ensures FirstCallsCarry(fired, h, from, EV_TIMER)
  {
    forall t: nat, w | w in fired && FirstCall(h, from, t, w) ensures Carries(h[t].events, EV_TIMER) {
      assert fired[0..] == fired;
      FedCarries(expired, fired, 0, EV_TIMER, w);
      CarriedOn(h, from, t, w, EV_TIMER);
      assert RightCall(h[..t], all, w, h[t].events);
    }
  }

  /** The first call of a fired timer comes after every timer of its priority that was due earlier was called or
      cleared, as far as neither was pending before. */
  ghost predicate CalledInDueOrder(fired: seq<Watcher>, was: map<Watcher, nat>, h: seq<Event>, from: nat) {
    forall i, j, t: nat :: 0 <= i < j < |fired| && Comparable(fired[i], fired[j], was)
      && FirstCall(h, from, t, fired[j])
      ==> Touched(h, from, t, fired[i])
  }

  lemma {:induction false} StackOrderIsDueOrder(fired: seq<Watcher>, was: map<Watcher, nat>, index: map<Watcher, nat>,
                                                h: seq<Event>, from: nat)
    requires EarlierAbove(fired, was, index) && TopFirst(h, from, index)
    ensures CalledInDueOrder(fired, was, h, from)
  {
  }

  /** Of two fired timers with the same priority that were not pending before, the one that was due earlier is now above
      the other. */
  ghost predicate EarlierAbove(fired: seq<Watcher>, was: map<Watcher, nat>, index: map<Watcher, nat>) {
    forall i, j :: 0 <= i < j < |fired| && Comparable(fired[i], fired[j], was)
      ==> fired[i] in index && fired[j] in index && 0 < index[fired[j]] < index[fired[i]]
  }

  /** Two watchers of one priority, neither of them pending. */
  ghost predicate Comparable(v: Watcher, w: Watcher, index: map<Watcher, nat>) {
    v.priority == w.priority && v in index && index[v] == 0 && w in index && index[w] == 0
  }

  /** Step `t` is the first thing to happen to `w` since point `from`, apart from events fed to it, and is a call. */
  ghost predicate FirstCall(h: seq<Event>, from: nat, t: nat, w: Watcher) {
    from <= t < |h| && h[t].Invoked? && h[t].w == w && !Touched(h, from, t, w)
  }
}

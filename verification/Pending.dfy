/** Pending events: one stack per priority, `ev_feed_event`, `ev_clear_pending` and `ev_invoke_pending`. */
module Pending {
  import opened Watchers

  /** An entry of a pending stack. */
  datatype Anpending = Anpending(w: Watcher, events: bv32)

  /** What can be observed of a loop's pending events, in the order in which it happens. */
  datatype Event = Fed(w: Watcher, events: bv32) | Cleared(w: Watcher) | Invoked(w: Watcher, events: bv32)

  // ---------------------------------------------------------------- reference: what a history means

  /** `w` was fed and neither called nor cleared since. */
  ghost predicate PendingIn(h: seq<Event>, w: Watcher) {
    h != [] && var e := h[|h| - 1];
    if e.w == w then e.Fed? else PendingIn(h[..|h| - 1], w)
  }

  /** The OR of the events fed to `w` since its last call or clear. */
  ghost function OrSince(h: seq<Event>, w: Watcher): bv32 {
    if h == [] then 0
    else
      var e := h[|h| - 1];
      if e.w != w then OrSince(h[..|h| - 1], w)
      else if e.Fed? then OrSince(h[..|h| - 1], w) | e.events
      else 0
  }

  /** A call is right when its watcher is pending, gets exactly what was fed to it, and no pending watcher
      has a higher priority. */
  ghost predicate RightCall(h: seq<Event>, all: set<Watcher>, w: Watcher, events: bv32) {
    && w in all && PendingIn(h, w) && events == OrSince(h, w)
    && forall v :: v in all && PendingIn(h, v) ==> v.priority <= w.priority
  }

  ghost predicate RightCalls(h: seq<Event>, all: set<Watcher>) {
    forall i :: 0 <= i < |h| && h[i].Invoked? ==> RightCall(h[..i], all, h[i].w, h[i].events)
  }

  /** `w` was called or cleared between two points of a history. */
  ghost predicate Touched(h: seq<Event>, from: nat, to: nat, w: Watcher) {
    exists i :: from <= i < to && i < |h| && h[i].w == w && !h[i].Fed?
  }

  ghost predicate Below(w: Watcher, v: Watcher, index: map<Watcher, nat>)
    requires v in index
  {
    w in index && 0 < index[w] < index[v] && w.priority == v.priority
  }

  /** Entries are served from the top: the first call of a watcher that was pending at point `from` comes after
      every watcher above it in its stack was called or cleared. */
  ghost predicate TopFirst(h: seq<Event>, from: nat, index: map<Watcher, nat>) {
    forall j, v :: from <= j < |h| && h[j].Invoked? && v in index && Below(h[j].w, v, index)
      && !Touched(h, from, j, h[j].w)
      ==> Touched(h, from, j, v)
  }

  /** A watcher neither called nor cleared since point `from` still has the index it had then. */
  ghost predicate StillThere(h: seq<Event>, from: nat, was: map<Watcher, nat>, index: map<Watcher, nat>) {
    forall w :: w in was && was[w] > 0 && !Touched(h, from, |h|, w) ==> w in index && index[w] == was[w]
  }

  lemma HistoryGrows(h: seq<Event>, e: Event, w: Watcher)
    ensures PendingIn(h + [e], w) == if e.w == w then e.Fed? else PendingIn(h, w)
    ensures OrSince(h + [e], w) == if e.w != w then OrSince(h, w) else if e.Fed? then OrSince(h, w) | e.events else 0
  {
  }

  /** A watcher stays pending until it is called or cleared. */
  lemma {:induction false} PendingUntilTouched(h: seq<Event>, from: nat, w: Watcher)
    requires from <= |h| && PendingIn(h[..from], w) && !PendingIn(h, w)
    ensures Touched(h, from, |h|, w)
  {
    assert h[..|h|] == h;
    if from < |h| && h[|h| - 1].w != w {
      var g := h[..|h| - 1];
      assert g[..from] == h[..from];
      PendingUntilTouched(g, from, w);
      var i :| from <= i < |g| && g[i].w == w && !g[i].Fed?;
      assert h[i] == g[i];
    }
  }

  /** All bits of `r` are set. */
  predicate Carries(events: bv32, r: bv32) { events & r == r }

  lemma {:induction false} CarriesMore(events: bv32, r: bv32, more: bv32)
    ensures Carries(events, r) ==> Carries(events | more, r)
    ensures Carries(events | r, r)
  {
  }

  /** What was fed to a watcher is not lost before it is called or cleared. */
  lemma {:induction false} CarriedOn(h: seq<Event>, from: nat, till: nat, w: Watcher, r: bv32)
    requires from <= till <= |h| && Carries(OrSince(h[..from], w), r) && !Touched(h, from, till, w)
    ensures Carries(OrSince(h[..till], w), r)
    decreases till
  {
    if from < till {
      var e, g := h[till - 1], h[..till - 1];
      assert !Touched(h, from, till - 1, w) && h[..till] == g + [e];
      CarriedOn(h, from, till - 1, w, r);
      HistoryGrows(g, e, w);
      if e.Fed? { CarriesMore(OrSince(g, w), r, e.events); }
    }
  }

  lemma RightCallsGrow(h: seq<Event>, all: set<Watcher>, e: Event)
    requires RightCalls(h, all) && (e.Invoked? ==> RightCall(h, all, e.w, e.events))
    ensures RightCalls(h + [e], all)
  {
    forall i | 0 <= i < |h + [e]| && (h + [e])[i].Invoked?
      ensures RightCall((h + [e])[..i], all, (h + [e])[i].w, (h + [e])[i].events)
    {
      assert (h + [e])[..i] == h[..i];
      assert i == |h| ==> h[..i] == h;
    }
  }

  lemma {:induction false} NotPendingMeansNothingFed(h: seq<Event>, w: Watcher)
    requires !PendingIn(h, w)
    ensures OrSince(h, w) == 0
  {
    if h != [] && h[|h| - 1].w != w { NotPendingMeansNothingFed(h[..|h| - 1], w); }
  }

  // ---------------------------------------------------------------- the stacks

  type Stacks = seq<seq<Anpending>>

  /** Stack slots and `pending` indices are mutually inverse; a slot emptied by a clear holds `dummy`. */
  ghost predicate Linked(stacks: Stacks, index: map<Watcher, nat>, dummy: Watcher)
  {
    && |stacks| == NUMPRI && dummy !in index
    && (forall p, i :: 0 <= p < NUMPRI && 0 <= i < |stacks[p]| ==> SlotLinked(stacks[p][i].w, p, i, index, dummy))
    && (forall w :: w in index ==> WatcherLinked(stacks, w, index[w]))
  }

  ghost predicate SlotLinked(w: Watcher, p: nat, i: nat, index: map<Watcher, nat>, dummy: Watcher) {
    w != dummy ==> w in index && w.priority == p && index[w] == i + 1
  }

  ghost predicate WatcherLinked(stacks: Stacks, w: Watcher, k: nat)
    requires |stacks| == NUMPRI
  {
    && w.priority < NUMPRI
    && (k > 0 ==> k <= |stacks[w.priority]| && stacks[w.priority][k - 1].w == w)
  }

  /** The stacks hold what the history says is pending, with the events it says. */
  ghost predicate Tracks(stacks: Stacks, index: map<Watcher, nat>, h: seq<Event>)
    requires |stacks| == NUMPRI
  {
    forall w :: w in index ==> WatcherTracked(stacks, w, index[w], h)
  }

  ghost predicate WatcherTracked(stacks: Stacks, w: Watcher, k: nat, h: seq<Event>)
    requires |stacks| == NUMPRI
  {
    && (k > 0 <==> PendingIn(h, w))
    && (k > 0 && WatcherLinked(stacks, w, k) ==> stacks[w.priority][k - 1].events == OrSince(h, w))
  }

  lemma {:induction false} EntryOf(stacks: Stacks, index: map<Watcher, nat>, dummy: Watcher, h: seq<Event>, w: Watcher)
    requires Linked(stacks, index, dummy) && Tracks(stacks, index, h) && w in index
    ensures w.priority < NUMPRI && (index[w] > 0 <==> PendingIn(h, w))
    ensures index[w] > 0 ==>
              index[w] <= |stacks[w.priority]| && stacks[w.priority][index[w] - 1] == Anpending(w, OrSince(h, w))
  {
  }

  ghost predicate SameSizes(s: Stacks, t: Stacks) {
    |s| == |t| && forall p :: 0 <= p < |s| ==> |s[p]| == |t[p]|
  }

  /** A first event pushes an entry. */
  function Pushed(stacks: Stacks, w: Watcher, events: bv32): Stacks
    requires w.priority < |stacks|
  {
    stacks[w.priority := stacks[w.priority] + [Anpending(w, events)]]
  }

  /** The stacks with the entry in the watcher's slot replaced. */
  function Replaced(stacks: Stacks, p: nat, i: nat, entry: Anpending): Stacks
    requires p < |stacks| && i < |stacks[p]|
  {
    stacks[p := stacks[p][i := entry]]
  }

  lemma {:induction false} PushKeeps(stacks: Stacks, index: map<Watcher, nat>, dummy: Watcher, h: seq<Event>,
                                     w: Watcher, events: bv32)
    requires Linked(stacks, index, dummy) && Tracks(stacks, index, h) && w in index && index[w] == 0
    requires w.priority < NUMPRI
    ensures var k := |stacks[w.priority]| + 1;
            && Linked(Pushed(stacks, w, events), index[w := k], dummy)
            && Tracks(Pushed(stacks, w, events), index[w := k], h + [Fed(w, events)])
  {
    var s', i', h' := Pushed(stacks, w, events), index[w := |stacks[w.priority]| + 1], h + [Fed(w, events)];
    assert WatcherTracked(stacks, w, 0, h);
    NotPendingMeansNothingFed(h, w);
    forall v | v in i' ensures WatcherLinked(s', v, i'[v]) && WatcherTracked(s', v, i'[v], h') {
      HistoryGrows(h, Fed(w, events), v);
      assert WatcherLinked(stacks, v, index[v]) && WatcherTracked(stacks, v, index[v], h);
    }
    forall p, i | 0 <= p < NUMPRI && 0 <= i < |s'[p]| ensures SlotLinked(s'[p][i].w, p, i, i', dummy) {
      assert i < |stacks[p]| ==> SlotLinked(stacks[p][i].w, p, i, index, dummy);
    }
  }

  /** A further event is merged into the entry that is already there. */
  lemma {:induction false} MergeKeeps(stacks: Stacks, index: map<Watcher, nat>, dummy: Watcher, h: seq<Event>,
                                      w: Watcher, events: bv32, merged: bv32)
    requires Linked(stacks, index, dummy) && Tracks(stacks, index, h) && w in index && index[w] > 0
    requires WatcherLinked(stacks, w, index[w]) && merged == stacks[w.priority][index[w] - 1].events | events
    ensures var s' := Replaced(stacks, w.priority, index[w] - 1, Anpending(w, merged));
            Linked(s', index, dummy) && Tracks(s', index, h + [Fed(w, events)])
  {
    var s', h' := Replaced(stacks, w.priority, index[w] - 1, Anpending(w, merged)), h + [Fed(w, events)];
    forall v | v in index ensures WatcherLinked(s', v, index[v]) && WatcherTracked(s', v, index[v], h') {
      HistoryGrows(h, Fed(w, events), v);
      assert WatcherLinked(stacks, v, index[v]) && WatcherTracked(stacks, v, index[v], h);
    }
    forall p, i | 0 <= p < NUMPRI && 0 <= i < |s'[p]| ensures SlotLinked(s'[p][i].w, p, i, index, dummy) {
      assert SlotLinked(stacks[p][i].w, p, i, index, dummy);
    }
  }

  lemma {:induction false} FeedKeeps(stacks: Stacks, index: map<Watcher, nat>, dummy: Watcher, h: seq<Event>,
                                     all: set<Watcher>, w: Watcher, events: bv32)
    requires Linked(stacks, index, dummy) && Tracks(stacks, index, h) && RightCalls(h, all) && w in index
             && index[w] > 0
    ensures w.priority < NUMPRI && index[w] <= |stacks[w.priority]|
    ensures var s' := Replaced(stacks, w.priority, index[w] - 1,
            Anpending(w, stacks[w.priority][index[w] - 1].events | events));
            && Linked(s', index, dummy) && Tracks(s', index, h + [Fed(w, events)])
              && RightCalls(h + [Fed(w, events)], all)
  {
    EntryOf(stacks, index, dummy, h, w);
    MergeKeeps(stacks, index, dummy, h, w, events, stacks[w.priority][index[w] - 1].events | events);
    RightCallsGrow(h, all, Fed(w, events));
  }

  /** A clear leaves a dummy in the watcher's slot. */
  lemma {:induction false} ClearKeeps(stacks: Stacks, index: map<Watcher, nat>, dummy: Watcher, h: seq<Event>,
                                      w: Watcher, entry: Anpending)
    requires Linked(stacks, index, dummy) && Tracks(stacks, index, h) && w in index && index[w] > 0
    requires WatcherLinked(stacks, w, index[w]) && entry.w == dummy
    ensures var s' := Replaced(stacks, w.priority, index[w] - 1, entry);
            Linked(s', index[w := 0], dummy) && Tracks(s', index[w := 0], h + [Cleared(w)])
  {
    var s', i', h' := Replaced(stacks, w.priority, index[w] - 1, entry), index[w := 0], h + [Cleared(w)];
    forall v | v in i' ensures WatcherLinked(s', v, i'[v]) && WatcherTracked(s', v, i'[v], h') {
      HistoryGrows(h, Cleared(w), v);
      assert WatcherLinked(stacks, v, index[v]) && WatcherTracked(stacks, v, index[v], h);
    }
    forall p, i | 0 <= p < NUMPRI && 0 <= i < |s'[p]| ensures SlotLinked(s'[p][i].w, p, i, i', dummy) {
      assert SlotLinked(stacks[p][i].w, p, i, index, dummy);
    }
  }

  lemma {:induction false} EmptyKeeps(stacks: Stacks, index: map<Watcher, nat>, dummy: Watcher, h: seq<Event>,
                                      all: set<Watcher>, w: Watcher)
    requires Linked(stacks, index, dummy) && Tracks(stacks, index, h) && RightCalls(h, all) && w in index
             && index[w] > 0
    ensures w.priority < NUMPRI && index[w] <= |stacks[w.priority]|
            && stacks[w.priority][index[w] - 1].events == OrSince(h, w)
    ensures var s' := Replaced(stacks, w.priority, index[w] - 1, Anpending(dummy, OrSince(h, w)));
            && Linked(s', index[w := 0], dummy) && Tracks(s', index[w := 0], h + [Cleared(w)])
            && RightCalls(h + [Cleared(w)], all) && SameSizes(s', stacks)
  {
    EntryOf(stacks, index, dummy, h, w);
    ClearKeeps(stacks, index, dummy, h, w, Anpending(dummy, OrSince(h, w)));
    RightCallsGrow(h, all, Cleared(w));
  }

  function Top(stacks: Stacks, p: nat): Anpending
    requires p < |stacks| && stacks[p] != []
  {
    stacks[p][|stacks[p]| - 1]
  }

  function Popped(stacks: Stacks, p: nat): Stacks
    requires p < |stacks| && stacks[p] != []
  {
    stacks[p := stacks[p][..|stacks[p]| - 1]]
  }

  /** Taking the top entry of a stack, whose watcher gets its index reset. */
  lemma {:induction false} PopKeeps(stacks: Stacks, index: map<Watcher, nat>, dummy: Watcher, h: seq<Event>, p: nat)
    requires Linked(stacks, index, dummy) && Tracks(stacks, index, h) && p < NUMPRI && stacks[p] != []
    ensures var e := Top(stacks, p);
            if e.w == dummy then Linked(Popped(stacks, p), index, dummy) && Tracks(Popped(stacks, p), index, h)
            else
              && e.w in index && PendingIn(h, e.w) && e.events == OrSince(h, e.w) && e.w.priority == p
              && index[e.w] == |stacks[p]|
              && Linked(Popped(stacks, p), index[e.w := 0], dummy)
              && Tracks(Popped(stacks, p), index[e.w := 0], h + [Invoked(e.w, e.events)])
  {
    var e, s' := Top(stacks, p), Popped(stacks, p);
    assert SlotLinked(e.w, p, |stacks[p]| - 1, index, dummy);
    var i' := if e.w == dummy then index else index[e.w := 0];
    var h' := if e.w == dummy then h else h + [Invoked(e.w, e.events)];
    forall v | v in i' ensures WatcherLinked(s', v, i'[v]) && WatcherTracked(s', v, i'[v], h') {
      HistoryGrows(h, Invoked(e.w, e.events), v);
      assert WatcherLinked(stacks, v, index[v]) && WatcherTracked(stacks, v, index[v], h);
    }
    forall q, i | 0 <= q < NUMPRI && 0 <= i < |s'[q]| ensures SlotLinked(s'[q][i].w, q, i, i', dummy) {
      assert SlotLinked(stacks[q][i].w, q, i, index, dummy);
    }
  }

  /** The number of entries in all stacks. */
  ghost function Total(stacks: Stacks): nat {
    if stacks == [] then 0 else |stacks[0]| + Total(stacks[1..])
  }

  lemma {:induction false} PopShrinks(stacks: Stacks, p: nat)
    requires p < |stacks| && stacks[p] != []
    ensures Total(Popped(stacks, p)) == Total(stacks) - 1
  {
    if p > 0 {
      PopShrinks(stacks[1..], p - 1);
      assert Popped(stacks, p)[1..] == Popped(stacks[1..], p - 1);
    } else {
      assert Popped(stacks, p)[1..] == stacks[1..];
    }
  }

  /** The history after feeding the watchers from position `k` on, last first. */
  ghost function FedBackwards(h: seq<Event>, ws: seq<Watcher>, k: nat, revents: bv32): seq<Event>
    requires k <= |ws|
    decreases |ws| - k
  {
    if k == |ws| then h else FedBackwards(h, ws, k + 1, revents) + [Fed(ws[k], revents)]
  }

  lemma {:induction false} FedCarries(h: seq<Event>, ws: seq<Watcher>, k: nat, r: bv32, w: Watcher)
    requires k <= |ws| && w in ws[k..]
    ensures Carries(OrSince(FedBackwards(h, ws, k, r), w), r)
    decreases |ws| - k
  {
    var g := FedBackwards(h, ws, k + 1, r);
    HistoryGrows(g, Fed(ws[k], r), w);
    CarriesMore(OrSince(g, w), r, r);
    if ws[k] != w {
      assert w in ws[k + 1..];
      FedCarries(h, ws, k + 1, r, w);
    }
  }

  /** The watchers from position `k` on are pending, and of two that were not before, the earlier is above the later. */
  ghost predicate Reversed(ws: seq<Watcher>, was: map<Watcher, nat>, index: map<Watcher, nat>, k: nat) {
    && (forall i :: 0 <= i < |ws| ==> ws[i] in was && ws[i] in index)
    && (forall i :: k <= i < |ws| ==> index[ws[i]] > 0 && (was[ws[i]] > 0 ==> index[ws[i]] == was[ws[i]]))
    && (forall i, j :: k <= i < j < |ws| && ws[i].priority == ws[j].priority && was[ws[i]] == was[ws[j]] == 0 ==>
          index[ws[j]] < index[ws[i]])
  }

  /** Index `n` is above the index of every watcher of the same priority. */
  ghost predicate OnTop(w: Watcher, index: map<Watcher, nat>, n: nat) {
    n > 0 && forall v :: v in index && v.priority == w.priority ==> index[v] < n
  }

  ghost predicate Distinct(ws: seq<Watcher>) {
    forall i, j :: 0 <= i < j < |ws| ==> ws[i] != ws[j]
  }

  ghost predicate Untouched(ws: seq<Watcher>, was: map<Watcher, nat>, index: map<Watcher, nat>, k: nat) {
    forall i :: 0 <= i < k && i < |ws| ==> ws[i] in was && ws[i] in index && index[ws[i]] == was[ws[i]]
  }

  ghost predicate AllIn(ws: seq<Watcher>, all: set<Watcher>) { forall w :: w in ws ==> w in all }

  lemma {:induction false} FedGrows(h: seq<Event>, ws: seq<Watcher>, k: nat, revents: bv32)
    requires k <= |ws|
    ensures h <= FedBackwards(h, ws, k, revents)
    decreases |ws| - k
  {
    if k < |ws| { FedGrows(h, ws, k + 1, revents); }
  }

  lemma {:induction false} NothingFed(ws: seq<Watcher>, all: set<Watcher>, index: map<Watcher, nat>)
    requires AllIn(ws, all) && index.Keys == all
    ensures Reversed(ws, index, index, |ws|) && Untouched(ws, index, index, |ws|)
  {
  }

  lemma {:induction false} ReversedGrows(ws: seq<Watcher>, was: map<Watcher, nat>, index: map<Watcher, nat>, n: nat,
                                         k: nat)
    requires k < |ws| && Distinct(ws) && Reversed(ws, was, index, k + 1) && Untouched(ws, was, index, k + 1)
    requires n > 0 && if index[ws[k]] > 0 then n == index[ws[k]] else OnTop(ws[k], index, n)
    ensures Reversed(ws, was, index[ws[k] := n], k) && Untouched(ws, was, index[ws[k] := n], k)
  {
  }

  lemma {:induction false} BelowStackSize(stacks: Stacks, index: map<Watcher, nat>, dummy: Watcher)
    requires Linked(stacks, index, dummy)
    ensures forall w :: w in index ==> w.priority < NUMPRI && index[w] <= |stacks[w.priority]|
  {
  }

  /** What a callback may do to pending events. */
  datatype Action = Feed(w: Watcher, events: bv32) | Clear(w: Watcher)

  /** The callbacks act on watchers of `all` only. */
  ghost predicate Known(callbacks: seq<seq<Action>>, all: set<Watcher>) {
    forall c, a :: c in callbacks && a in c ==> a.w in all
  }

  // ---------------------------------------------------------------- reference: what a dispatch does

  /** The history after one thing a callback does; there is nothing to clear of a watcher that is not pending. */
  ghost function Done(h: seq<Event>, a: Action): seq<Event> {
    match a
    case Feed(w, events) => h + [Fed(w, events)]
    case Clear(w) => if PendingIn(h, w) then h + [Cleared(w)] else h
  }

  /** The history after a callback. */
  ghost function DoneAll(h: seq<Event>, actions: seq<Action>): seq<Event> {
    if actions == [] then h else Done(DoneAll(h, actions[..|actions| - 1]), actions[|actions| - 1])
  }

  /** What the callback of call `k` does; once the list is used up callbacks do nothing. */
  ghost function CallbackOf(callbacks: seq<seq<Action>>, k: nat): seq<Action> {
    if k < |callbacks| then callbacks[k] else []
  }

  /** The history after the given calls, each followed by what its callback does and by nothing else. */
  ghost function Outcome(h: seq<Event>, calls: seq<Anpending>, callbacks: seq<seq<Action>>): seq<Event> {
    if calls == [] then h
    else
      var n := |calls| - 1;
      DoneAll(Outcome(h, calls[..n], callbacks) + [Invoked(calls[n].w, calls[n].events)], CallbackOf(callbacks, n))
  }

  /** The callbacks left after `n` calls. */
  function Rest(callbacks: seq<seq<Action>>, n: nat): seq<seq<Action>> {
    if n <= |callbacks| then callbacks[n..] else []
  }

  lemma {:induction false} RestOfRest(callbacks: seq<seq<Action>>, n: nat, m: nat)
    ensures Rest(Rest(callbacks, n), m) == Rest(callbacks, n + m)
    ensures CallbackOf(Rest(callbacks, n), m) == CallbackOf(callbacks, n + m)
  {
  }

  lemma {:induction false} OutcomeGrows(h: seq<Event>, calls: seq<Anpending>, e: Anpending, callbacks: seq<seq<Action>>)
    ensures Outcome(h, calls + [e], callbacks)
            == DoneAll(Outcome(h, calls, callbacks) + [Invoked(e.w, e.events)], CallbackOf(callbacks, |calls|))
  {
    assert (calls + [e])[..|calls|] == calls;
  }

  /** Calls, and then further calls. */
  lemma {:induction false} OutcomeGoesOn(h: seq<Event>, a: seq<Anpending>, b: seq<Anpending>,
                                         callbacks: seq<seq<Action>>)
    ensures Outcome(Outcome(h, a, callbacks), b, Rest(callbacks, |a|)) == Outcome(h, a + b, callbacks)
    decreases |b|
  {
    if b == [] {
      assert a + b == a;
    } else {
      var n := |b| - 1;
      OutcomeGoesOn(h, a, b[..n], callbacks);
      RestOfRest(callbacks, |a|, n);
      OneMoreCall(Outcome(h, a, callbacks), Rest(callbacks, |a|), h, a + b[..n], b[..n], b[n], callbacks);
      assert b == b[..n] + [b[n]] && a + b == (a + b[..n]) + [b[n]];
    }
  }

  lemma {:induction false} OneMoreCall(g: seq<Event>, left: seq<seq<Action>>, h: seq<Event>, calls: seq<Anpending>,
                                       b: seq<Anpending>, e: Anpending, callbacks: seq<seq<Action>>)
    requires Outcome(g, b, left) == Outcome(h, calls, callbacks)
    requires CallbackOf(left, |b|) == CallbackOf(callbacks, |calls|)
    ensures Outcome(g, b + [e], left) == Outcome(h, calls + [e], callbacks)
  {
    OutcomeGrows(g, b, e, left);
    OutcomeGrows(h, calls, e, callbacks);
  }

  /** From history `h` to `h'` the given calls were made, and the callbacks `left` were not used. */
  ghost predicate Progressed(h: seq<Event>, h': seq<Event>, calls: seq<Anpending>, callbacks: seq<seq<Action>>,
                             left: seq<seq<Action>>)
  {
    h' == Outcome(h, calls, callbacks) && left == Rest(callbacks, |calls|)
  }

  lemma {:induction false} ProgressGoesOn(h: seq<Event>, h1: seq<Event>, h2: seq<Event>, a: seq<Anpending>,
                                          b: seq<Anpending>, callbacks: seq<seq<Action>>, left1: seq<seq<Action>>,
                                          left2: seq<seq<Action>>)
    requires Progressed(h, h1, a, callbacks, left1) && Progressed(h1, h2, b, left1, left2)
    ensures Progressed(h, h2, a + b, callbacks, left2)
  {
    OutcomeGoesOn(h, a, b, callbacks);
    RestOfRest(callbacks, |a|, |b|);
  }

  lemma {:induction false} OneCall(h: seq<Event>, calls: seq<Anpending>, left: seq<seq<Action>>)
    requires |calls| <= 1
    ensures Outcome(h, calls, left) == if calls == [] then h
              else DoneAll(h + [Invoked(calls[0].w, calls[0].events)], if left == [] then [] else left[0])
  {
    if calls != [] { assert calls[..0] == []; }
  }

  /** One of the first `n` callbacks clears the watcher. */
  ghost predicate ClearedBy(callbacks: seq<seq<Action>>, n: nat, w: Watcher) {
    exists k: nat :: k < n && k < |callbacks| && Clear(w) in callbacks[k]
  }

  /** One of the first `n` callbacks feeds or clears the watcher. */
  ghost predicate ActedOn(callbacks: seq<seq<Action>>, n: nat, w: Watcher) {
    exists k: nat, a :: k < n && k < |callbacks| && a in callbacks[k] && a.w == w
  }

  /** How often a watcher is called. */
  ghost function Times(calls: seq<Anpending>, w: Watcher): nat {
    if calls == [] then 0 else Times(calls[..|calls| - 1], w) + if calls[|calls| - 1].w == w then 1 else 0
  }

  /** A callback that does not clear the watcher leaves it pending; one that does not name it changes nothing for it. */
  lemma {:induction false} CallbackKeeps(h: seq<Event>, actions: seq<Action>, w: Watcher)
    ensures Clear(w) !in actions && PendingIn(h, w) ==> PendingIn(DoneAll(h, actions), w)
    ensures (forall a :: a in actions ==> a.w != w) ==>
              PendingIn(DoneAll(h, actions), w) == PendingIn(h, w) && OrSince(DoneAll(h, actions), w) == OrSince(h, w)
  {
    if actions != [] {
      var g, a := DoneAll(h, actions[..|actions| - 1]), actions[|actions| - 1];
      CallbackKeeps(h, actions[..|actions| - 1], w);
      assert a in actions;
      HistoryGrows(g, Fed(a.w, if a.Feed? then a.events else 0), w);
      HistoryGrows(g, Cleared(a.w), w);
    }
  }

  lemma {:induction false} DoneAllGrows(h: seq<Event>, actions: seq<Action>)
    ensures h <= DoneAll(h, actions)
  {
    if actions != [] { DoneAllGrows(h, actions[..|actions| - 1]); }
  }

  /** A pending watcher that no callback clears is called before it stops being pending. */
  lemma {:induction false} UnclearedIsCalled(h: seq<Event>, calls: seq<Anpending>, callbacks: seq<seq<Action>>,
                                             w: Watcher)
    requires PendingIn(h, w) && !PendingIn(Outcome(h, calls, callbacks), w) && !ClearedBy(callbacks, |calls|, w)
    ensures Times(calls, w) > 0
  {
    if calls != [] {
      var n := |calls| - 1;
      var g, e := Outcome(h, calls[..n], callbacks), Invoked(calls[n].w, calls[n].events);
      if calls[n].w != w {
        HistoryGrows(g, e, w);
        CallbackKeeps(g + [e], CallbackOf(callbacks, n), w);
        UnclearedIsCalled(h, calls[..n], callbacks, w);
      }
    }
  }

  /** Every call in a history goes to a watcher pending at that point, with exactly what was fed to it. */
  lemma {:induction false} LastCallRight(h: seq<Event>, calls: seq<Anpending>, callbacks: seq<seq<Action>>,
                                         all: set<Watcher>)
    requires calls != [] && RightCalls(Outcome(h, calls, callbacks), all)
    ensures var n := |calls| - 1;
            var g := Outcome(h, calls[..n], callbacks);
            RightCalls(g, all) && RightCall(g, all, calls[n].w, calls[n].events)
  {
    var n := |calls| - 1;
    var g, e := Outcome(h, calls[..n], callbacks), Invoked(calls[n].w, calls[n].events);
    var t := Outcome(h, calls, callbacks);
    DoneAllGrows(g + [e], CallbackOf(callbacks, n));
    assert t[|g|] == (g + [e])[|g|] == e && t[..|g|] == g;
    forall i | 0 <= i < |g| && g[i].Invoked? ensures RightCall(g[..i], all, g[i].w, g[i].events) {
      assert t[i] == (g + [e])[i] == g[i] && t[..i] == g[..i];
    }
  }

  lemma {:induction false} NotActedOn(callbacks: seq<seq<Action>>, n: nat, w: Watcher)
    requires !ActedOn(callbacks, n + 1, w)
    ensures !ActedOn(callbacks, n, w) && forall a :: a in CallbackOf(callbacks, n) ==> a.w != w
  {
  }

  /** What a call and a callback that does not name the watcher do for it. */
  lemma {:induction false} CallKeepsOthers(g: seq<Event>, e: Event, actions: seq<Action>, w: Watcher)
    requires e.Invoked? && forall a :: a in actions ==> a.w != w
    ensures var t := DoneAll(g + [e], actions);
            && (e.w == w ==> !PendingIn(t, w))
            && (e.w != w ==> PendingIn(t, w) == PendingIn(g, w) && OrSince(t, w) == OrSince(g, w))
  {
    HistoryGrows(g, e, w);
    CallbackKeeps(g + [e], actions, w);
  }

  /** A watcher that no callback names is called once if it is pending, with what was fed to it, and not otherwise. */
  lemma {:induction false} CalledOnce(h: seq<Event>, calls: seq<Anpending>, callbacks: seq<seq<Action>>,
                                      all: set<Watcher>, w: Watcher)
    requires RightCalls(Outcome(h, calls, callbacks), all) && !ActedOn(callbacks, |calls|, w)
    ensures Times(calls, w) == if PendingIn(h, w) && !PendingIn(Outcome(h, calls, callbacks), w) then 1 else 0
    ensures PendingIn(Outcome(h, calls, callbacks), w) ==>
              PendingIn(h, w) && OrSince(Outcome(h, calls, callbacks), w) == OrSince(h, w)
    ensures forall i :: 0 <= i < |calls| && calls[i].w == w ==> calls[i].events == OrSince(h, w)
  {
    if calls != [] {
      var n := |calls| - 1;
      var g, e := Outcome(h, calls[..n], callbacks), Invoked(calls[n].w, calls[n].events);
      LastCallRight(h, calls, callbacks, all);
      NotActedOn(callbacks, n, w);
      CalledOnce(h, calls[..n], callbacks, all, w);
      CallKeepsOthers(g, e, CallbackOf(callbacks, n), w);
      assert forall i :: 0 <= i < n ==> calls[i] == calls[..n][i];
    }
  }

  /** What a dispatch does for a watcher: if it is pending and no callback clears it, it is called; if no callback names
      it at all, it is called exactly once if it is pending, with what was fed to it, and not at all otherwise. */
  ghost predicate Served(h: seq<Event>, calls: seq<Anpending>, callbacks: seq<seq<Action>>, w: Watcher) {
    && (PendingIn(h, w) && !ClearedBy(callbacks, |calls|, w) ==> Times(calls, w) > 0)
    && (!ActedOn(callbacks, |calls|, w) ==>
          && Times(calls, w) == (if PendingIn(h, w) then 1 else 0)
          && forall i :: 0 <= i < |calls| && calls[i].w == w ==> calls[i].events == OrSince(h, w))
  }

  lemma {:induction false} EveryoneServed(h: seq<Event>, calls: seq<Anpending>, callbacks: seq<seq<Action>>,
                                          all: set<Watcher>, h': seq<Event>)
    requires h' == Outcome(h, calls, callbacks) && RightCalls(h', all) && forall w :: w in all ==> !PendingIn(h', w)
    ensures forall w :: w in all ==> Served(h, calls, callbacks, w)
  {
    forall w | w in all ensures Served(h, calls, callbacks, w) {
      if PendingIn(h, w) && !ClearedBy(callbacks, |calls|, w) { UnclearedIsCalled(h, calls, callbacks, w); }
      if !ActedOn(callbacks, |calls|, w) { CalledOnce(h, calls, callbacks, all, w); }
    }
  }

  lemma {:induction false} OrderGrows(h: seq<Event>, from: nat, was: map<Watcher, nat>, index: map<Watcher, nat>,
                                      e: Event, index': map<Watcher, nat>)
    requires from <= |h| && TopFirst(h, from, was) && StillThere(h, from, was, index)
    requires forall w :: w in index && (w != e.w || (e.Fed? && index[w] > 0)) ==> w in index' && index'[w] == index[w]
    requires e.Invoked? && !Touched(h, from, |h|, e.w) ==>
      forall v :: v in was && Below(e.w, v, was) ==> Touched(h, from, |h|, v)
    ensures TopFirst(h + [e], from, was) && StillThere(h + [e], from, was, index')
  {
    var h' := h + [e];
    forall j, w | from <= j <= |h| ensures Touched(h', from, j, w) <==> Touched(h, from, j, w) {
      if Touched(h', from, j, w) {
        var i :| from <= i < j && i < |h'| && h'[i].w == w && !h'[i].Fed?;
        assert h[i] == h'[i];
      }
      if Touched(h, from, j, w) {
        var i :| from <= i < j && i < |h| && h[i].w == w && !h[i].Fed?;
        assert h[i] == h'[i];
      }
    }
    forall w | w in was && was[w] > 0 && !Touched(h', from, |h'|, w) ensures w in index' && index'[w] == was[w] {
      assert h'[|h|] == e;
      assert Touched(h', from, |h|, w) == Touched(h, from, |h|, w);
    }
  }

  class Queues {
    var stacks: Stacks                // pendings and pendingcnt
    var index: map<Watcher, nat>      // each watcher's `pending` field
    var pendingpri: nat
    const dummy: Watcher              // pending_w
    ghost const all: set<Watcher>     // every watcher ever used with this loop
    ghost var history: seq<Event>

    ghost predicate Valid()
      reads this
    {
      index.Keys == all && Linked(stacks, index, dummy) && Tracks(stacks, index, history) && RightCalls(history, all)
    }

    constructor (dummy: Watcher, watchers: set<Watcher>)
      requires dummy !in watchers && forall w :: w in watchers ==> w.priority < NUMPRI
      ensures Valid() && this.dummy == dummy && all == watchers && history == []
    {
      this.dummy, all, stacks, pendingpri, history := dummy, watchers, seq(NUMPRI, _ => []), 0, [];
      index := map w | w in watchers :: 0;
    }

    /** The branch of `ev_feed_event` for a watcher that is pending already. */
    method Merge(w: Watcher, revents: bv32)
      requires Valid() && w in all && index[w] > 0
      modifies this`stacks, this`history
      ensures Valid() && history == old(history) + [Fed(w, revents)]
    {
      FeedKeeps(stacks, index, dummy, history, all, w, revents);
      var merged := stacks[w.priority][index[w] - 1].events | revents;
      stacks := Replaced(stacks, w.priority, index[w] - 1, Anpending(w, merged));
      history := history + [Fed(w, revents)];
    }

    /** The branch of `ev_feed_event` for any other watcher. */
    method Push(w: Watcher, revents: bv32)
      requires Valid() && w in all && index[w] == 0
      modifies this`stacks, this`index, this`history
      ensures Valid() && history == old(history) + [Fed(w, revents)]
      ensures index == old(index)[w := index[w]] && OnTop(w, old(index), index[w])
    {
      BelowStackSize(stacks, index, dummy);
      PushKeeps(stacks, index, dummy, history, w, revents);
      RightCallsGrow(history, all, Fed(w, revents));
      index := index[w := |stacks[w.priority]| + 1];
      stacks := Pushed(stacks, w, revents);
      history := history + [Fed(w, revents)];
    }

    /** `ev_feed_event`. */
    method FeedEvent(w: Watcher, revents: bv32)
      requires Valid() && w in all
      modifies this`stacks, this`index, this`pendingpri, this`history
      ensures Valid() && pendingpri == NUMPRI - 1 && history == old(history) + [Fed(w, revents)]
      ensures index == old(index)[w := index[w]] && index[w] > 0
      ensures if old(index)[w] > 0 then index[w] == old(index)[w] else OnTop(w, old(index), index[w])
    {
      if index[w] > 0 {
        Merge(w, revents);
      } else {
        Push(w, revents);
      }
      pendingpri := NUMPRI - 1;
    }

    /** The branch of `ev_clear_pending` for a pending watcher. */
    method Empty(w: Watcher) returns (events: bv32)
      requires Valid() && w in all && index[w] > 0
      modifies this`stacks, this`index, this`history
      ensures Valid() && index == old(index)[w := 0] && history == old(history) + [Cleared(w)]
      ensures events == OrSince(old(history), w) && SameSizes(stacks, old(stacks))
    {
      EmptyKeeps(stacks, index, dummy, history, all, w);
      events := stacks[w.priority][index[w] - 1].events;
      stacks := Replaced(stacks, w.priority, index[w] - 1, Anpending(dummy, events));
      index := index[w := 0];
      history := history + [Cleared(w)];
    }

    /** `ev_clear_pending`; it returns the events that are dropped. */
    method ClearPending(w: Watcher) returns (events: bv32)
      requires Valid() && w in all
      modifies this`stacks, this`index, this`history
      ensures Valid() && index == old(index)[w := 0] && SameSizes(stacks, old(stacks))
      ensures events == OrSince(old(history), w)
      ensures history == if old(index)[w] > 0 then old(history) + [Cleared(w)] else old(history)
    {
      if index[w] > 0 {
        events := Empty(w);
      } else {
        EntryOf(stacks, index, dummy, history, w);
        NotPendingMeansNothingFed(history, w);
        events := 0;
      }
    }

    /** The body of the loop of `feed_reverse_done`. */
    method FeedNext(rfeeds: seq<Watcher>, k: nat, revents: bv32, ghost was: map<Watcher, nat>)
      requires Valid() && k < |rfeeds| && AllIn(rfeeds, all) && Distinct(rfeeds)
      requires Reversed(rfeeds, was, index, k + 1) && Untouched(rfeeds, was, index, k + 1)
      modifies this`stacks, this`index, this`pendingpri, this`history
      ensures Valid() && history == old(history) + [Fed(rfeeds[k], revents)]
      ensures Reversed(rfeeds, was, index, k) && Untouched(rfeeds, was, index, k)
    {
      ghost var before := index;
      FeedEvent(rfeeds[k], revents);
      ReversedGrows(rfeeds, was, before, index[rfeeds[k]], k);
    }

    /** `feed_reverse_done`: feeds the collected watchers last first, so that of two with the same priority that were
        not pending the one collected earlier ends up above the other. */
    method FeedReverseDone(rfeeds: seq<Watcher>, revents: bv32)
      requires Valid() && Distinct(rfeeds) && AllIn(rfeeds, all)
      modifies this`stacks, this`index, this`pendingpri, this`history
      ensures Valid() && Reversed(rfeeds, old(index), index, 0)
      ensures history == FedBackwards(old(history), rfeeds, 0, revents) && old(history) <= history
    {
      var k := |rfeeds|;
      NothingFed(rfeeds, all, index);
      FedGrows(history, rfeeds, 0, revents);
      while k > 0
        invariant 0 <= k <= |rfeeds| && Valid()
        invariant history == FedBackwards(old(history), rfeeds, k, revents)
        invariant Reversed(rfeeds, old(index), index, k) && Untouched(rfeeds, old(index), index, k)
      {
        k := k - 1;
        FeedNext(rfeeds, k, revents, old(index));
      }
    }

    /** Every stack above priority `p` is empty. */
    ghost predicate EmptyAbove(p: int)
      reads this
    {
      |stacks| == NUMPRI && forall q :: p < q < NUMPRI && 0 <= q ==> stacks[q] == []
    }

    /** The served order so far, relative to the indices `was` at point `from` of the history. */
    ghost predicate InOrder(from: nat, was: map<Watcher, nat>)
      reads this
    {
      from <= |history| && TopFirst(history, from, was) && StillThere(history, from, was, index)
    }

    /** One thing a callback does. */
    method Act(a: Action, ghost from: nat, ghost was: map<Watcher, nat>)
      requires Valid() && a.w in all && InOrder(from, was) && EmptyAbove(pendingpri) && pendingpri < NUMPRI
      modifies this`stacks, this`index, this`pendingpri, this`history
      ensures Valid() && InOrder(from, was) && EmptyAbove(pendingpri) && pendingpri < NUMPRI && old(history) <= history
      ensures history == Done(old(history), a)
    {
      ghost var h, before := history, index;
      EntryOf(stacks, index, dummy, history, a.w);
      match a
      case Feed(w, events) =>
        FeedEvent(w, events);
        OrderGrows(h, from, was, before, Fed(w, events), index);
      case Clear(w) =>
        var _ := ClearPending(w);
        if history != h { OrderGrows(h, from, was, before, Cleared(w), index); }
    }

    /** Takes the top entry at the current priority and calls its watcher; the dummy's callback does nothing. */
    method PopTop(ghost from: nat, ghost was: map<Watcher, nat>) returns (e: Anpending)
      requires Valid() && pendingpri < NUMPRI && EmptyAbove(pendingpri) && stacks[pendingpri] != []
      requires InOrder(from, was)
      modifies this`stacks, this`index, this`history
      ensures Valid() && InOrder(from, was) && stacks == Popped(old(stacks), pendingpri) && old(history) <= history
      ensures history == if e.w == dummy then old(history) else old(history) + [Invoked(e.w, e.events)]
    {
      e := Top(stacks, pendingpri);
      PopKeeps(stacks, index, dummy, history, pendingpri);
      if e.w != dummy {
        CallKeeps(stacks, index, dummy, history, all, pendingpri, from, was);
        index := index[e.w := 0];
        history := history + [Invoked(e.w, e.events)];
      }
      stacks := Popped(stacks, pendingpri);
    }

    /** A callback: any finite sequence of feeds and clears. */
    method RunCallback(actions: seq<Action>, ghost from: nat, ghost was: map<Watcher, nat>)
      requires Valid() && InOrder(from, was) && EmptyAbove(pendingpri) && pendingpri < NUMPRI
      requires forall a :: a in actions ==> a.w in all
      modifies this`stacks, this`index, this`pendingpri, this`history
      ensures Valid() && InOrder(from, was) && EmptyAbove(pendingpri) && pendingpri < NUMPRI && old(history) <= history
      ensures history == DoneAll(old(history), actions)
    {
      for i := 0 to |actions|
        invariant Valid() && InOrder(from, was) && EmptyAbove(pendingpri) && pendingpri < NUMPRI
                  && old(history) <= history
        invariant history == DoneAll(old(history), actions[..i])
      {
        assert actions[..i + 1][..i] == actions[..i];
        Act(actions[i], from, was);
      }
      assert actions[..|actions|] == actions;
    }

    /** One turn of the inner loop of `ev_invoke_pending`: pop, call, and let the callback act.  `left` holds what
        the coming callbacks will do; once it is exhausted they do nothing. */
    method InvokeTop(left: seq<seq<Action>>, ghost from: nat, ghost was: map<Watcher, nat>)
      returns (left': seq<seq<Action>>, ghost calls: seq<Anpending>)
      requires Valid() && InOrder(from, was) && EmptyAbove(pendingpri)
      requires pendingpri < NUMPRI && stacks[pendingpri] != []
      requires Known(left, all)
      modifies this`stacks, this`index, this`pendingpri, this`history
      ensures Valid() && InOrder(from, was) && EmptyAbove(pendingpri) && pendingpri < NUMPRI && old(history) <= history
      ensures |left'| < |left| || (left' == left && Total(stacks) < Total(old(stacks)) && pendingpri == old(pendingpri))
      ensures Known(left', all)
      ensures Progressed(old(history), history, calls, left, left')
    {
      PopShrinks(stacks, pendingpri);
      var e := PopTop(from, was);
      left' := left;
      calls := if e.w == dummy then [] else [e];
      if e.w != dummy && left != [] {
        RunCallback(left[0], from, was);
        left' := left[1..];
      }
      OneCall(old(history), calls, left);
    }

    /** The inner loop of `ev_invoke_pending`; a callback that feeds an event moves `pendingpri` back to the top. */
    method DrainStack(left: seq<seq<Action>>, ghost from: nat, ghost was: map<Watcher, nat>)
      returns (left': seq<seq<Action>>, ghost calls: seq<Anpending>)
      requires Valid() && InOrder(from, was) && EmptyAbove(pendingpri) && pendingpri < NUMPRI
      requires Known(left, all)
      modifies this`stacks, this`index, this`pendingpri, this`history
      ensures Valid() && InOrder(from, was) && pendingpri < NUMPRI && EmptyAbove(pendingpri - 1)
              && old(history) <= history
      ensures |left'| < |left| || (left' == left && Total(stacks) <= Total(old(stacks))
              && pendingpri == old(pendingpri))
      ensures Known(left', all)
      ensures Progressed(old(history), history, calls, left, left')
    {
      left', calls := left, [];
      while stacks[pendingpri] != []
        invariant Valid() && InOrder(from, was) && EmptyAbove(pendingpri) && pendingpri < NUMPRI
                  && old(history) <= history
        invariant |left'| < |left| || (left' == left && Total(stacks) <= Total(old(stacks))
                  && pendingpri == old(pendingpri))
        invariant Known(left', all)
        invariant Progressed(old(history), history, calls, left, left')
        decreases |left'|, Total(stacks)
      {
        ghost var next, h, before := [], history, left';
        left', next := InvokeTop(left', from, was);
        ProgressGoesOn(old(history), h, history, calls, next, left, before, left');
        calls := calls + next;
      }
    }

    /** `ev_invoke_pending`, for any behaviour of the callbacks: it returns with nothing pending, what happened is that
        it made the calls `calls` and each callback did its part, every call was right (that is part of `Valid`), every
        watcher got the calls it is due, and within a priority entries were served from the top. */
    method InvokePending(callbacks: seq<seq<Action>>) returns (ghost calls: seq<Anpending>)
      requires Valid()
      requires Known(callbacks, all)
      modifies this`stacks, this`index, this`pendingpri, this`history
      ensures Valid() && old(history) <= history
      ensures forall p :: 0 <= p < NUMPRI ==> stacks[p] == []
      ensures forall w :: w in all ==> index[w] == 0 && !PendingIn(history, w)
      ensures TopFirst(history, |old(history)|, old(index))
      ensures history == Outcome(old(history), calls, callbacks)
      ensures forall w :: w in all ==> Served(old(history), calls, callbacks, w)
    {
      ghost var h, was := history, index;
      pendingpri := NUMPRI;
      calls := DrainAll(callbacks, |h|, was);
      NothingPending(stacks, index, dummy, history);
      EveryoneServed(h, calls, callbacks, all, history);
    }

    /** The outer loop of `ev_invoke_pending`. */
    method DrainAll(callbacks: seq<seq<Action>>, ghost from: nat, ghost was: map<Watcher, nat>)
      returns (ghost calls: seq<Anpending>)
      requires Valid() && InOrder(from, was) && pendingpri == NUMPRI && Known(callbacks, all)
      modifies this`stacks, this`index, this`pendingpri, this`history
      ensures Valid() && InOrder(from, was) && old(history) <= history
      ensures forall p :: 0 <= p < NUMPRI ==> stacks[p] == []
      ensures history == Outcome(old(history), calls, callbacks)
    {
      var left := callbacks;
      calls := [];
      while pendingpri != 0
        invariant Valid() && InOrder(from, was) && pendingpri <= NUMPRI && EmptyAbove(pendingpri - 1)
                  && old(history) <= history
        invariant Known(left, all)
        invariant Progressed(old(history), history, calls, callbacks, left)
        decreases |left|, Total(stacks), pendingpri
      {
        pendingpri := pendingpri - 1;
        ghost var next, h, before := [], history, left;
        left, next := DrainStack(left, from, was);
        ProgressGoesOn(old(history), h, history, calls, next, callbacks, before, left);
        calls := calls + next;
      }
    }
  }

  lemma {:induction false} NothingPending(stacks: Stacks, index: map<Watcher, nat>, dummy: Watcher, h: seq<Event>)
    requires Linked(stacks, index, dummy) && Tracks(stacks, index, h) && forall p :: 0 <= p < NUMPRI ==> stacks[p] == []
    ensures forall w :: w in index ==> index[w] == 0 && !PendingIn(h, w)
  {
  }

  /** Calling the watcher on top is right and in order. */
  lemma {:induction false} CallKeeps(stacks: Stacks, index: map<Watcher, nat>, dummy: Watcher, h: seq<Event>,
                                     all: set<Watcher>, p: nat, from: nat, was: map<Watcher, nat>)
    requires Linked(stacks, index, dummy) && Tracks(stacks, index, h) && index.Keys == all && RightCalls(h, all)
    requires p < NUMPRI && stacks[p] != [] && Top(stacks, p).w != dummy
    requires forall q :: p < q < NUMPRI ==> stacks[q] == []
    requires from <= |h| && TopFirst(h, from, was) && StillThere(h, from, was, index)
    ensures var e := Top(stacks, p);
            var h' := h + [Invoked(e.w, e.events)];
            RightCalls(h', all) && TopFirst(h', from, was) && StillThere(h', from, was, index[e.w := 0])
  {
    var e := Top(stacks, p);
    PopKeeps(stacks, index, dummy, h, p);
    TopIsNext(stacks, index, dummy, h, p, from, was);
    TopIsHighest(stacks, index, dummy, h, all, p);
    RightCallsGrow(h, all, Invoked(e.w, e.events));
    OrderGrows(h, from, was, index, Invoked(e.w, e.events), index[e.w := 0]);
  }

  lemma {:induction false} TopIsHighest(stacks: Stacks, index: map<Watcher, nat>, dummy: Watcher, h: seq<Event>,
                                        all: set<Watcher>, p: nat)
    requires Linked(stacks, index, dummy) && Tracks(stacks, index, h) && index.Keys == all
    requires p < NUMPRI && forall q :: p < q < NUMPRI ==> stacks[q] == []
    ensures forall v :: v in all && PendingIn(h, v) ==> v.priority <= p
  {
  }

  lemma {:induction false} TopIsNext(stacks: Stacks, index: map<Watcher, nat>, dummy: Watcher, h: seq<Event>, p: nat,
                                     from: nat, was: map<Watcher, nat>)
    requires Linked(stacks, index, dummy) && StillThere(h, from, was, index)
    requires p < NUMPRI && stacks[p] != [] && Top(stacks, p).w != dummy
    ensures var w := Top(stacks, p).w;
            !Touched(h, from, |h|, w) ==> forall v :: v in was && Below(w, v, was) ==> Touched(h, from, |h|, v)
  {
  }
}

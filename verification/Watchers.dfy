/** The watcher record, and the 4-ary heap that orders active time watchers by their due time. */
module Watchers {

  /** Number of priorities, EV_MAXPRI - EV_MINPRI + 1. */
  const NUMPRI: nat := 5

  /** A periodic watcher's optional reschedule callback, from the current time to the next due time. */
  datatype Reschedule = NoCallback | Callback(f: real -> real)

  /** The fields of `ev_watcher_time` that the loop updates, with those of `ev_timer` and `ev_periodic`. */
  class Watcher {
    var active: nat       // 0, or the watcher's index in its heap
    var at: real          // when inactive the relative, when active the absolute due time
    var repeat: real      // ev_timer
    var offset: real      // ev_periodic
    var interval: real    // ev_periodic
    var reschedule: Reschedule
    const priority: nat   // ABSPRI

    constructor (priority: nat, at: real, repeat: real)
      ensures this.priority == priority && this.at == at && this.repeat == repeat && active == 0
    {
      this.priority, this.at, this.repeat := priority, at, repeat;
      active, offset, interval, reschedule := 0, 0.0, 0.0, NoCallback;
    }
  }
}

module TimeHeap {
  import opened Watchers

  /** A heap element: a watcher with a cached copy of its due time. */
  datatype Anhe = Anhe(at: real, w: Watcher)

  /** Index of the first heap element, DHEAP - 1. */
  const HEAP0: nat := 3

  /** HPARENT; C division truncates towards zero, which makes the root its own parent. */
  function Parent(k: nat): (p: nat)
    requires k >= HEAP0
    ensures HEAP0 <= p <= k && (p == k <==> k == HEAP0)
  {
    if k == HEAP0 then HEAP0 else (k - HEAP0 - 1) / 4 + HEAP0
  }

  /** Slots and watchers are in bijection: `active` is the watcher's own index. */
  ghost predicate Indexed(heap: seq<Anhe>, n: nat, ws: set<Watcher>)
    reads ws`active
  {
    && HEAP0 + n <= |heap|
    && (forall i :: HEAP0 <= i < HEAP0 + n ==> heap[i].w in ws && heap[i].w.active == i)
    && (forall w :: w in ws ==> HEAP0 <= w.active < HEAP0 + n && heap[w.active].w == w)
  }

  /** As `Indexed`, except that slot `k` is reserved for `hole`, whose own index is not yet right. */
  ghost predicate IndexedBut(heap: seq<Anhe>, n: nat, ws: set<Watcher>, k: nat, hole: Watcher)
    reads ws`active
  {
    && HEAP0 <= k < HEAP0 + n <= |heap| && hole in ws
    && (forall i :: HEAP0 <= i < HEAP0 + n && i != k ==> heap[i].w in ws && heap[i].w != hole && heap[i].w.active == i)
    && (forall w :: w in ws && w != hole ==> HEAP0 <= w.active < HEAP0 + n && w.active != k && heap[w.active].w == w)
  }

  /** The cached keys are the watchers' due times. */
  ghost predicate Cached(heap: seq<Anhe>, n: nat, ws: set<Watcher>)
    requires Indexed(heap, n, ws)
    reads ws`active, ws`at
  {
    forall i :: HEAP0 <= i < HEAP0 + n ==> heap[i].at == heap[i].w.at
  }

  ghost predicate CachedBut(heap: seq<Anhe>, n: nat, k: nat)
    requires HEAP0 + n <= |heap|
    reads (set i | HEAP0 <= i < HEAP0 + n :: heap[i].w)`at
  {
    forall i :: HEAP0 <= i < HEAP0 + n && i != k ==> heap[i].at == heap[i].w.at
  }

  /** The heap condition on the first `m` elements. */
  ghost predicate Ordered(heap: seq<Anhe>, m: nat)
    requires HEAP0 + m <= |heap|
  {
    forall i :: HEAP0 < i < HEAP0 + m ==> heap[Parent(i)].at <= heap[i].at
  }

  /** The heap condition on the first `m` elements with slot `k` left out: its children are only
      compared with its parent. */
  ghost predicate OrderedBut(heap: seq<Anhe>, m: nat, k: nat)
    requires HEAP0 <= k && HEAP0 + m <= |heap|
  {
    && (forall i :: HEAP0 < i < HEAP0 + m && i != k && Parent(i) != k ==> heap[Parent(i)].at <= heap[i].at)
    && (HEAP0 < k ==> forall i :: HEAP0 < i < HEAP0 + m && Parent(i) == k ==> heap[Parent(k)].at <= heap[i].at)
  }

  /** The children of slot `k` are not due before `at`. */
  ghost predicate ChildrenAfter(heap: seq<Anhe>, m: nat, k: nat, at: real)
    requires HEAP0 + m <= |heap|
  {
    forall i :: HEAP0 < i < HEAP0 + m && i != k && Parent(i) == k ==> at <= heap[i].at
  }

  /** What `verify_heap` checks: index, heap condition and cache. */
  ghost predicate ValidHeap(heap: seq<Anhe>, n: nat, ws: set<Watcher>)
    reads ws`active, ws`at
  {
    Indexed(heap, n, ws) && Ordered(heap, n) && Cached(heap, n, ws)
  }

  lemma RiseKeepsOrder(heap: seq<Anhe>, m: nat, k: nat, at: real)
    requires HEAP0 < k < HEAP0 + m <= |heap|
    requires OrderedBut(heap, m, k) && ChildrenAfter(heap, m, k, at) && at < heap[Parent(k)].at
    ensures var up := heap[k := heap[Parent(k)]];
            OrderedBut(up, m, Parent(k)) && ChildrenAfter(up, m, Parent(k), at)
  {
  }

  lemma SinkKeepsOrder(heap: seq<Anhe>, m: nat, k: nat, c: nat, at: real)
    requires HEAP0 <= k < c < HEAP0 + m <= |heap| && Parent(c) == k
    requires OrderedBut(heap, m, k) && ChildrenAfter(heap, m, k, heap[c].at) && heap[c].at < at
    ensures var down := heap[k := heap[c]];
            OrderedBut(down, m, c) && down[Parent(c)].at <= at
  {
  }

  lemma FillHole(heap: seq<Anhe>, m: nat, k: nat, he: Anhe)
    requires HEAP0 <= k < HEAP0 + m <= |heap|
    requires OrderedBut(heap, m, k) && ChildrenAfter(heap, m, k, he.at)
    requires k == HEAP0 || heap[Parent(k)].at <= he.at
    ensures Ordered(heap[k := he], m)
  {
  }

  /** Moves the element of slot `from` into the hole `to`; the hole is then at `from`. */
  method MoveInto(heap: array<Anhe>, to: nat, from: nat, ghost n: nat, ghost ws: set<Watcher>, ghost hole: Watcher)
    requires to != from && HEAP0 <= from < HEAP0 + n
    requires IndexedBut(heap[..], n, ws, to, hole) && CachedBut(heap[..], n, to)
    modifies heap, ws`active
    ensures heap[..] == old(heap[..])[to := old(heap[from])]
    ensures IndexedBut(heap[..], n, ws, from, hole) && CachedBut(heap[..], n, from)
  {
    heap[to] := heap[from];
    heap[to].w.active := to;
  }

  /** Puts `he` into the hole. */
  method Place(heap: array<Anhe>, k: nat, he: Anhe, ghost n: nat, ghost ws: set<Watcher>)
    requires IndexedBut(heap[..], n, ws, k, he.w)
    modifies heap, ws`active
    ensures heap[..] == old(heap[..])[k := he]
    ensures Indexed(heap[..], n, ws)
  {
    heap[k] := he;
    he.w.active := k;
  }

  /** The loop of `upheap`: the hole rises until the element `he` fits into it. */
  method Rise(heap: array<Anhe>, k0: nat, he: Anhe, ghost n: nat, ghost m: nat, ghost ws: set<Watcher>) returns (k: nat)
    requires HEAP0 <= k0 < HEAP0 + m <= HEAP0 + n <= heap.Length
    requires IndexedBut(heap[..], n, ws, k0, he.w) && CachedBut(heap[..], n, k0)
    requires OrderedBut(heap[..], m, k0) && ChildrenAfter(heap[..], m, k0, he.at)
    modifies heap, ws`active
    ensures HEAP0 <= k <= k0
    ensures IndexedBut(heap[..], n, ws, k, he.w) && CachedBut(heap[..], n, k)
    ensures Ordered(heap[..][k := he], m)
  {
    k := k0;
    ghost var h := heap[..];
    while true
      invariant heap[..] == h && HEAP0 <= k <= k0
      invariant IndexedBut(h, n, ws, k, he.w) && CachedBut(h, n, k)
      invariant OrderedBut(h, m, k) && ChildrenAfter(h, m, k, he.at)
      decreases k
    {
      var p := Parent(k);
      if p == k || heap[p].at <= he.at {
        FillHole(h, m, k, he);
        break;
      }
      RiseKeepsOrder(h, m, k, he.at);
      MoveInto(heap, k, p, n, ws, he.w);
      h := h[k := h[p]];
      k := p;
    }
  }

  /** Towards the root: `heap[k]` rises to its place among the first `m` elements. */
  method UpHeap(heap: array<Anhe>, k: nat, ghost n: nat, ghost m: nat, ghost ws: set<Watcher>)
    requires HEAP0 <= k < HEAP0 + m <= HEAP0 + n <= heap.Length
    requires IndexedBut(heap[..], n, ws, k, heap[k].w) && CachedBut(heap[..], n, k) && heap[k].at == heap[k].w.at
    requires OrderedBut(heap[..], m, k) && ChildrenAfter(heap[..], m, k, heap[k].at)
    modifies heap, ws`active
    ensures Indexed(heap[..], n, ws) && Ordered(heap[..], m) && Cached(heap[..], n, ws)
  {
    var he := heap[k];
    var hole := Rise(heap, k, he, n, m, ws);
    Place(heap, hole, he, n, ws);
  }

  /** The children of slot `k` are the four slots from here on. */
  function FirstChild(k: nat): (c: nat)
    requires HEAP0 <= k
    ensures k < c && Parent(c) == k
    ensures forall i :: HEAP0 < i && Parent(i) == k ==> c <= i < c + 4
  {
    4 * (k - HEAP0) + HEAP0 + 1
  }

  /** One round of `downheap`: finds the smallest child of slot `k` among the first `N` elements and tells
      whether an element due at `at` may stay above it. */
  method MinChild(heap: array<Anhe>, N: nat, k: nat, at: real) returns (stays: bool, minpos: nat)
    requires HEAP0 <= k < HEAP0 + N <= heap.Length
    ensures stays <==> ChildrenAfter(heap[..], N, k, at)
    ensures !stays ==> k < minpos < HEAP0 + N && Parent(minpos) == k && heap[minpos].at < at
    ensures !stays ==> ChildrenAfter(heap[..], N, k, heap[minpos].at)
  {
    var pos, e := FirstChild(k), HEAP0 + N;
    minpos := pos;
    if pos + 3 < e {
      if heap[pos + 1].at < heap[minpos].at { minpos := pos + 1; }
      if heap[pos + 2].at < heap[minpos].at { minpos := pos + 2; }
      if heap[pos + 3].at < heap[minpos].at { minpos := pos + 3; }
    } else if pos < e {
      // fewer than four children: the source's test of a fourth one never succeeds here
      if pos + 1 < e && heap[pos + 1].at < heap[minpos].at { minpos := pos + 1; }
      if pos + 2 < e && heap[pos + 2].at < heap[minpos].at { minpos := pos + 2; }
    } else {
      return true, minpos;
    }
    stays := at <= heap[minpos].at;
    assert stays || heap[..][minpos].at < at;
  }

  /** The loop of `downheap`: the hole sinks until the element `he` fits into it. */
  method Sink(heap: array<Anhe>, N: nat, k0: nat, he: Anhe, ghost ws: set<Watcher>) returns (k: nat)
    requires HEAP0 <= k0 < HEAP0 + N <= heap.Length
    requires IndexedBut(heap[..], N, ws, k0, he.w) && CachedBut(heap[..], N, k0)
    requires OrderedBut(heap[..], N, k0) && (k0 == HEAP0 || heap[Parent(k0)].at <= he.at)
    modifies heap, ws`active
    ensures k0 <= k < HEAP0 + N
    ensures IndexedBut(heap[..], N, ws, k, he.w) && CachedBut(heap[..], N, k)
    ensures Ordered(heap[..][k := he], N)
  {
    k := k0;
    ghost var h := heap[..];
    while true
      invariant heap[..] == h && k0 <= k < HEAP0 + N
      invariant IndexedBut(h, N, ws, k, he.w) && CachedBut(h, N, k)
      invariant OrderedBut(h, N, k) && (k == HEAP0 || h[Parent(k)].at <= he.at)
      decreases HEAP0 + N - k
    {
      var stays, c := MinChild(heap, N, k, he.at);
      if stays {
        FillHole(h, N, k, he);
        break;
      }
      SinkKeepsOrder(h, N, k, c, he.at);
      MoveInto(heap, k, c, N, ws, he.w);
      h := h[k := h[c]];
      k := c;
    }
  }

  /** Away from the root: `heap[k]` sinks to its place. */
  method DownHeap(heap: array<Anhe>, N: nat, k: nat, ghost ws: set<Watcher>)
    requires HEAP0 <= k < HEAP0 + N <= heap.Length
    requires IndexedBut(heap[..], N, ws, k, heap[k].w) && CachedBut(heap[..], N, k) && heap[k].at == heap[k].w.at
    requires OrderedBut(heap[..], N, k) && (k == HEAP0 || heap[Parent(k)].at <= heap[k].at)
    modifies heap, ws`active
    ensures ValidHeap(heap[..], N, ws)
  {
    var he := heap[k];
    var hole := Sink(heap, N, k, he, ws);
    Place(heap, hole, he, N, ws);
  }

  /** Restores a heap in which the one slot `k` holds a new element or an element with a new key,
      whichever way it has to move. */
  method AdjustHeap(heap: array<Anhe>, N: nat, k: nat, ghost ws: set<Watcher>)
    requires HEAP0 <= k < HEAP0 + N <= heap.Length
    requires IndexedBut(heap[..], N, ws, k, heap[k].w) && CachedBut(heap[..], N, k) && heap[k].at == heap[k].w.at
    requires OrderedBut(heap[..], N, k)
    modifies heap, ws`active
    ensures ValidHeap(heap[..], N, ws)
  {
    if k > HEAP0 && heap[k].at <= heap[Parent(k)].at {
      UpHeap(heap, k, N, N, ws);
    } else {
      DownHeap(heap, N, k, ws);
    }
  }

  /** Rebuilds the heap from arbitrary keys, one element after the other. */
  method ReHeap(heap: array<Anhe>, N: nat, ghost ws: set<Watcher>)
    requires Indexed(heap[..], N, ws) && Cached(heap[..], N, ws)
    modifies heap, ws`active
    ensures ValidHeap(heap[..], N, ws)
  {
    for i := 0 to N
      invariant Indexed(heap[..], N, ws) && Cached(heap[..], N, ws)
      invariant Ordered(heap[..], i)
    {
      assert IndexedBut(heap[..], N, ws, i + HEAP0, heap[i + HEAP0].w);
      assert OrderedBut(heap[..], i + 1, i + HEAP0);
      UpHeap(heap, i + HEAP0, N, i + 1, ws);
    }
  }

  /** The root of a valid heap is due no later than any watcher in it. */
  lemma {:induction false} RootIsMinimum(heap: seq<Anhe>, n: nat, ws: set<Watcher>, w: Watcher)
    requires ValidHeap(heap, n, ws) && w in ws
    ensures n > 0 && heap[HEAP0].w in ws && heap[HEAP0].w.at <= w.at
  {
    RootBelow(heap, n, w.active);
  }

  lemma {:induction false} RootBelow(heap: seq<Anhe>, n: nat, i: nat)
    requires HEAP0 + n <= |heap| && Ordered(heap, n) && HEAP0 <= i < HEAP0 + n
    ensures heap[HEAP0].at <= heap[i].at
    decreases i
  {
    if i > HEAP0 { RootBelow(heap, n, Parent(i)); }
  }

  lemma {:induction false} AppendKeeps(heap: seq<Anhe>, n: nat, he: Anhe)
    requires HEAP0 + n < |heap| && Ordered(heap, n)
    ensures OrderedBut(heap[HEAP0 + n := he], n + 1, HEAP0 + n)
    ensures ChildrenAfter(heap[HEAP0 + n := he], n + 1, HEAP0 + n, he.at)
  {
  }

  lemma {:induction false} ReplaceKeeps(heap: seq<Anhe>, n: nat, m: nat, k: nat, he: Anhe)
    requires m <= n && HEAP0 <= k < HEAP0 + m && HEAP0 + n <= |heap| && Ordered(heap, n)
    ensures OrderedBut(heap[k := he], m, k)
  {
    forall i | HEAP0 < i < HEAP0 + m && HEAP0 < k && Parent(i) == k
      ensures heap[k := he][Parent(k)].at <= heap[k := he][i].at
    {
      assert heap[Parent(k)].at <= heap[k].at <= heap[i].at;
    }
  }

  /** Appends `w` as the last element and lets it rise. */
  method Insert(heap: array<Anhe>, n: nat, w: Watcher, ghost ws: set<Watcher>)
    requires ValidHeap(heap[..], n, ws) && w !in ws && HEAP0 + n < heap.Length
    modifies heap, ws`active, w`active
    ensures ValidHeap(heap[..], n + 1, ws + {w})
  {
    var slot := HEAP0 + n;
    AppendKeeps(heap[..], n, Anhe(w.at, w));
    w.active := slot;
    heap[slot] := Anhe(w.at, w);
    assert IndexedBut(heap[..], n + 1, ws + {w}, slot, w) && CachedBut(heap[..], n + 1, slot);
    UpHeap(heap, slot, n + 1, n + 1, ws + {w});
  }

  lemma {:induction false} DropLast(heap: seq<Anhe>, n: nat, w: Watcher, ws: set<Watcher>)
    requires ValidHeap(heap, n, ws) && w in ws && w.active == HEAP0 + n - 1
    ensures ValidHeap(heap, n - 1, ws - {w})
  {
  }

  lemma {:induction false} LastIntoSlot(heap: seq<Anhe>, n: nat, w: Watcher, ws: set<Watcher>)
    requires ValidHeap(heap, n, ws) && w in ws && w.active < HEAP0 + n - 1
    ensures var last := heap[HEAP0 + n - 1];
            var h := heap[w.active := last];
            IndexedBut(h, n - 1, ws - {w}, w.active, last.w) && CachedBut(h, n - 1, w.active) && last.at == last.w.at
  {
  }

  /** Removes `w`: the last element takes its slot and moves to its place. */
  method Remove(heap: array<Anhe>, n: nat, w: Watcher, ghost ws: set<Watcher>)
    requires ValidHeap(heap[..], n, ws) && w in ws
    modifies heap, ws`active
    ensures ValidHeap(heap[..], n - 1, ws - {w})
  {
    var slot, last := w.active, HEAP0 + n - 1;
    if slot < last {
      ReplaceKeeps(heap[..], n, n - 1, slot, heap[last]);
      LastIntoSlot(heap[..], n, w, ws);
      heap[slot] := heap[last];
      AdjustHeap(heap, n - 1, slot, ws - {w});
    } else {
      DropLast(heap[..], n, w, ws);
    }
  }

  /** The heap after the due time of `w` alone was changed, before its cached key is. */
  ghost predicate Stale(heap: seq<Anhe>, n: nat, ws: set<Watcher>, w: Watcher)
    reads ws`active, ws`at
  {
    && w in ws && Indexed(heap, n, ws) && Ordered(heap, n)
    && forall i :: HEAP0 <= i < HEAP0 + n && heap[i].w != w ==> heap[i].at == heap[i].w.at
  }

  /** Refreshes the cached key of `w` and moves `w` to its place, in either direction. */
  method Rekey(heap: array<Anhe>, n: nat, w: Watcher, ghost ws: set<Watcher>)
    requires Stale(heap[..], n, ws, w)
    modifies heap, ws`active
    ensures ValidHeap(heap[..], n, ws)
  {
    var slot := w.active;
    ReplaceKeeps(heap[..], n, n, slot, Anhe(w.at, w));
    heap[slot] := Anhe(w.at, w);
    assert IndexedBut(heap[..], n, ws, slot, w) && CachedBut(heap[..], n, slot);
    AdjustHeap(heap, n, slot, ws);
  }

  /** Refreshes the cached key of the root, which became no smaller, and lets it sink. */
  method RekeyRoot(heap: array<Anhe>, n: nat, ghost ws: set<Watcher>)
    requires n > 0 && HEAP0 < heap.Length && Stale(heap[..], n, ws, heap[HEAP0].w)
    modifies heap, ws`active
    ensures ValidHeap(heap[..], n, ws)
  {
    var w := heap[HEAP0].w;
    ReplaceKeeps(heap[..], n, n, HEAP0, Anhe(w.at, w));
    heap[HEAP0] := Anhe(w.at, w);
    assert IndexedBut(heap[..], n, ws, HEAP0, w) && CachedBut(heap[..], n, HEAP0);
    DownHeap(heap, n, HEAP0, ws);
  }
}

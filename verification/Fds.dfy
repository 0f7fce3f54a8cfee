/** The table of polled descriptors of the poll backend. */
module PollTable {

  /** The EV_READ and EV_WRITE bits of an event mask; POLLIN and POLLOUT on the kernel's side. */
  datatype Mask = Mask(read: bool, write: bool) {
    predicate IsZero() { !read && !write }
    function Or(m: Mask): Mask { Mask(read || m.read, write || m.write) }
  }

  const NONE: Mask := Mask(false, false)

  datatype Pollfd = Pollfd(fd: nat, events: Mask)

  /** `polls` and `pollidxs` are inverse to each other, and no entry is empty. */
  ghost predicate Inverse(polls: seq<Pollfd>, pollidxs: seq<int>) {
    && (forall i :: 0 <= i < |polls|
          ==> polls[i].fd < |pollidxs| && pollidxs[polls[i].fd] == i && !polls[i].events.IsZero())
    && (forall fd :: 0 <= fd < |pollidxs|
          ==> pollidxs[fd] == -1 || (0 <= pollidxs[fd] < |polls| && polls[pollidxs[fd]].fd == fd))
  }

  /** What the kernel is asked to watch a descriptor for. */
  function Watched(polls: seq<Pollfd>, pollidxs: seq<int>, fd: nat): Mask
    requires Inverse(polls, pollidxs)
  {
    if fd < |pollidxs| && pollidxs[fd] >= 0 then polls[pollidxs[fd]].events else NONE
  }

  class Polls {
    var polls: seq<Pollfd>
    var pollidxs: seq<int>

    ghost predicate Valid()
      reads this
    {
      Inverse(polls, pollidxs)
    }

    ghost function At(fd: nat): Mask
      requires Valid()
      reads this
    {
      Watched(polls, pollidxs, fd)
    }

    constructor ()
      ensures Valid() && forall fd: nat :: At(fd) == NONE
    {
      polls, pollidxs := [], [];
    }

    /** `array_needsize` with `pollidx_init`. */
    method NeedSize(cnt: nat)
      requires Valid()
      modifies this`pollidxs
      ensures Valid() && cnt <= |pollidxs| && forall fd: nat :: At(fd) == old(At(fd))
    {
      if cnt > |pollidxs| {
        pollidxs := pollidxs + seq(cnt - |pollidxs|, _ => -1);
      }
    }

    /** `poll_modify`: told what a descriptor was and is to be watched for, it changes the entry of that descriptor and
        of no other; removal moves the last entry into the gap. */
    method Modify(fd: nat, oev: Mask, nev: Mask)
      requires Valid() && oev == At(fd)
      modifies this
      ensures Valid() && forall f: nat :: At(f) == if f == fd then nev else old(At(f))
    {
      if oev == nev {
        return;
      }
      NeedSize(fd + 1);
      var idx := pollidxs[fd];
      if idx < 0 {
        pollidxs := pollidxs[fd := |polls|];
        polls := polls + [Pollfd(fd, nev)];
      } else if !nev.IsZero() {
        polls := polls[idx := Pollfd(fd, nev)];
      } else {
        Remove(fd, idx);
      }
    }

    /** The removal in `poll_modify`. */
    method Remove(fd: nat, idx: nat)
      requires Valid() && fd < |pollidxs| && pollidxs[fd] == idx
      modifies this
      ensures Valid() && forall f: nat :: At(f) == if f == fd then NONE else old(At(f))
    {
      pollidxs := pollidxs[fd := -1];
      var cnt := |polls| - 1;
      if idx < cnt {
        polls := polls[idx := polls[cnt]];
        pollidxs := pollidxs[polls[idx].fd := idx];
      }
      polls := polls[..cnt];
    }
  }
}

/** Watchers for descriptors: their lists, and the lazy reconciliation of the poll table with them. */
module IoWatchers {
  import opened PollTable

  /** `ev_io`: which watcher it is and what the user set.  The fields the loop updates (`active`, `next` and the
      EV__IOFDSET bit of the event byte) are kept by the loop, as maps and sets over watchers. */
  datatype IoWatcher = IoWatcher(id: nat, fd: nat, events: Mask)

  /** A possibly null pointer to a watcher. */
  datatype Link = Null | To(w: IoWatcher)

  type Next = map<IoWatcher, Link>

  /** The EV_ANFD_REIFY and EV__IOFDSET bits of a reify byte. */
  datatype Reify = Reify(anfd: bool, fdset: bool) {
    predicate IsZero() { !anfd && !fdset }
  }

  datatype Anfd = Anfd(head: Link, events: Mask, reify: Reify)

  // ---------------------------------------------------------------- lists

  /** `head` starts the linked list of the watchers `l`. */
  ghost predicate Chain(head: Link, l: seq<IoWatcher>, next: Next) {
    && head == Nth(l, 0)
    && forall i :: 0 <= i < |l| ==> l[i] in next && next[l[i]] == Nth(l, i + 1)
  }

  ghost function Nth(l: seq<IoWatcher>, i: nat): Link {
    if i < |l| then To(l[i]) else Null
  }

  ghost predicate Distinct(l: seq<IoWatcher>) {
    forall i, j :: 0 <= i < j < |l| ==> l[i] != l[j]
  }

  lemma {:induction false} WithoutFirst(head: Link, l: seq<IoWatcher>, next: Next)
    requires Chain(head, l, next) && l != []
    ensures Chain(next[l[0]], l[1..], next)
  {
    forall i | 0 <= i < |l[1..]| ensures l[1..][i] in next && next[l[1..][i]] == Nth(l[1..], i + 1) {
      assert l[1..][i] == l[i + 1] && next[l[i + 1]] == Nth(l, i + 2);
    }
    assert next[l[0]] == Nth(l, 1);
  }

  lemma {:induction false} WithoutLater(head: Link, l: seq<IoWatcher>, next: Next, k: nat)
    requires Chain(head, l, next) && Distinct(l) && 0 < k < |l|
    ensures Chain(head, l[..k] + l[k + 1..], next[l[k - 1] := next[l[k]]])
  {
    var m, next' := l[..k] + l[k + 1..], next[l[k - 1] := next[l[k]]];
    forall i | 0 <= i < |m| ensures m[i] in next' && next'[m[i]] == Nth(m, i + 1) {
      Skipped(l, k, i);
      Relinked(head, l, next, k, if i < k then i else i + 1);
    }
  }

  lemma {:induction false} Skipped(l: seq<IoWatcher>, k: nat, i: nat)
    requires 0 < k < |l| && i < |l| - 1
    ensures var m := l[..k] + l[k + 1..];
            if i < k then m[i] == l[i] && Nth(m, i + 1) == Nth(l, if i == k - 1 then k + 1 else i + 1)
            else m[i] == l[i + 1] && Nth(m, i + 1) == Nth(l, i + 2)
  {
  }

  lemma {:induction false} Relinked(head: Link, l: seq<IoWatcher>, next: Next, k: nat, j: nat)
    requires Chain(head, l, next) && Distinct(l) && 0 < k < |l| && j < |l| && j != k
    ensures var next' := next[l[k - 1] := next[l[k]]];
            l[j] in next' && next'[l[j]] == Nth(l, if j == k - 1 then k + 1 else j + 1)
  {
    if j < k - 1 { assert l[j] != l[k - 1]; }
    else if j > k { assert l[k - 1] != l[j]; }
  }

  /** `wlist_del`, for a watcher that is in the list at position `k`: only its predecessor's link, or the head,
      changes. */
  method Unlink(head: Link, w: IoWatcher, next: Next, ghost l: seq<IoWatcher>, ghost k: nat)
    returns (head': Link, next': Next)
    requires Chain(head, l, next) && Distinct(l) && k < |l| && l[k] == w
    ensures Chain(head', l[..k] + l[k + 1..], next')
    ensures next'.Keys == next.Keys && forall v :: v in next && v !in l ==> next'[v] == next[v]
  {
    if head == To(w) {
      WithoutFirst(head, l, next);
      assert l[..0] + l[1..] == l[1..];
      head', next' := next[w], next;
    } else {
      WithoutLater(head, l, next, k);
      var p := head.w;
      ghost var i := 0;
      while next[p] != Null && next[p] != To(w)
        invariant 0 <= i < k && p == l[i]
        decreases |l| - i
      {
        i := i + 1;
        p := next[p].w;
      }
      head', next' := head, next[p := next[w]];
    }
  }

  /** The OR of the masks of the watchers in a list. */
  ghost function Union(l: seq<IoWatcher>): Mask {
    if l == [] then NONE else l[0].events.Or(Union(l[1..]))
  }

  /** The inner loop of `fd_reify`. */
  method WantedBy(head: Link, next: Next, ghost l: seq<IoWatcher>) returns (events: Mask)
    requires Chain(head, l, next)
    ensures events == Union(l)
  {
    events := NONE;
    var p := head;
    ghost var i := 0;
    while p != Null
      invariant 0 <= i <= |l| && p == Nth(l, i) && events.Or(Union(l[i..])) == Union(l)
      decreases |l| - i
    {
      events := events.Or(p.w.events);
      p := next[p.w];
      i := i + 1;
    }
  }

  /** What a set of watchers wants of a descriptor, without reference to lists. */
  ghost function Interest(ws: set<IoWatcher>, fd: nat): Mask {
    Mask(exists w :: w in ws && w.fd == fd && w.events.read, exists w :: w in ws && w.fd == fd && w.events.write)
  }

  lemma {:induction false} UnionIsAny(l: seq<IoWatcher>)
    ensures Union(l).read <==> exists w :: w in l && w.events.read
    ensures Union(l).write <==> exists w :: w in l && w.events.write
  {
    if l != [] {
      UnionIsAny(l[1..]);
      assert forall w :: w in l <==> w == l[0] || w in l[1..];
    }
  }

  // ---------------------------------------------------------------- bookkeeping

  /** The list of one descriptor: exactly the active watchers for it. */
  ghost predicate ListOf(l: seq<IoWatcher>, fd: nat, active: set<IoWatcher>) {
    Distinct(l) && forall w :: w in l <==> w in active && w.fd == fd
  }

  /** Every list is a chain of exactly the active watchers of its descriptor. */
  ghost predicate Lists(anfds: seq<Anfd>, lists: seq<seq<IoWatcher>>, next: Next, active: set<IoWatcher>) {
    && |lists| == |anfds| && (forall w :: w in active ==> w.fd < |anfds|)
    && forall fd :: 0 <= fd < |anfds| ==> ListOf(lists[fd], fd, active) && Chain(anfds[fd].head, lists[fd], next)
  }

  /** A descriptor is queued exactly when one of its reify bits is set; otherwise its events are up to date. */
  ghost predicate Queued(anfds: seq<Anfd>, lists: seq<seq<IoWatcher>>, fdchanges: seq<nat>)
    requires |lists| == |anfds|
  {
    && (forall fd :: fd in fdchanges ==> fd < |anfds|)
    && (forall fd :: 0 <= fd < |anfds| ==> (fd in fdchanges <==> !anfds[fd].reify.IsZero()))
    && (forall fd :: 0 <= fd < |anfds| && anfds[fd].reify.IsZero() ==> anfds[fd].events == Union(lists[fd]))
  }

  class Loop {
    var anfds: seq<Anfd>
    var fdchanges: seq<nat>
    var next: Next
    var active: set<IoWatcher>
    var fdset: set<IoWatcher>
    const backend: Polls
    ghost var lists: seq<seq<IoWatcher>>

    /** Lists, queue and poll table agree. */
    ghost predicate Valid()
      reads this, backend
    {
      Lists(anfds, lists, next, active) && Queued(anfds, lists, fdchanges) && Told()
    }

    /** The poll table holds, for every descriptor, the events last computed for it. */
    ghost predicate Told()
      reads this, backend
    {
      backend.Valid() && forall fd: nat :: backend.At(fd) == if fd < |anfds| then anfds[fd].events else NONE
    }

    constructor (backend: Polls)
      requires backend.Valid() && forall fd: nat :: backend.At(fd) == NONE
      ensures Valid() && active == {} && this.backend == backend
    {
      this.backend, anfds, fdchanges, next, active, fdset, lists := backend, [], [], map[], {}, {}, [];
    }

    /** `fd_change`: the first change of a descriptor queues it. */
    method FdChange(fd: nat, flags: Reify)
      requires fd < |anfds| && !flags.IsZero() && Valid()
      modifies this`anfds, this`fdchanges
      ensures Valid() && fd in fdchanges && |anfds| == old(|anfds|)
    {
      var reify := anfds[fd].reify;
      anfds := anfds[fd := anfds[fd].(reify := Reify(reify.anfd || flags.anfd, reify.fdset || flags.fdset))];
      if reify.IsZero() {
        fdchanges := fdchanges + [fd];
      }
    }

    /** `array_needsize` with `array_init_zero`: new descriptors have no watchers and nothing to reify. */
    method NeedSize(cnt: nat)
      requires Valid()
      modifies this`anfds, this`lists
      ensures Valid() && cnt <= |anfds|
    {
      if cnt > |anfds| {
        var more := cnt - |anfds|;
        anfds := anfds + seq(more, _ => Anfd(Null, NONE, Reify(false, false)));
        lists := lists + seq(more, _ => []);
      }
    }

    /** `ev_io_start`: the watcher is put at the head of its descriptor's list, and the descriptor is queued. */
    method Start(w: IoWatcher)
      requires Valid()
      modifies this`anfds, this`lists, this`fdchanges, this`next, this`active, this`fdset
      ensures Valid() && active == old(active) + {w}
    {
      if w !in active {
        NeedSize(w.fd + 1);
        FdChange(w.fd, Reify(true, w in fdset));
        Add(w);
        fdset := fdset - {w};
      }
    }

    /** Stores a changed list of a descriptor that is queued. */
    method Relist(fd: nat, head: Link, next': Next, active': set<IoWatcher>, ghost l: seq<IoWatcher>)
      requires |lists| == |anfds| && Queued(anfds, lists, fdchanges) && Told() && fd < |anfds| && fd in fdchanges
      requires Lists(anfds[fd := anfds[fd].(head := head)], lists[fd := l], next', active')
      modifies this`anfds, this`lists, this`next, this`active
      ensures Valid() && active == active'
    {
      anfds := anfds[fd := anfds[fd].(head := head)];
      lists := lists[fd := l];
      next, active := next', active';
    }

    /** `wlist_add` on a descriptor that is queued. */
    method Add(w: IoWatcher)
      requires Valid() && w !in active && w.fd < |anfds| && w.fd in fdchanges
      modifies this`anfds, this`lists, this`next, this`active
      ensures Valid() && active == old(active) + {w}
    {
      var head := anfds[w.fd].head;
      AddKeeps(anfds, lists, next, active, w);
      Relist(w.fd, To(w), next[w := head], active + {w}, [w] + lists[w.fd]);
    }

    /** `ev_io_stop`, apart from the pending event. */
    method Stop(w: IoWatcher)
      requires Valid()
      modifies this`anfds, this`lists, this`fdchanges, this`next, this`active
      ensures Valid() && active == old(active) - {w}
    {
      if w in active {
        FdChange(w.fd, Reify(true, false));
        Del(w);
      }
    }

    /** `wlist_del` on a descriptor that is queued. */
    method Del(w: IoWatcher)
      requires Valid() && w in active && w.fd < |anfds| && w.fd in fdchanges
      modifies this`anfds, this`lists, this`next, this`active
      ensures Valid() && active == old(active) - {w}
    {
      ghost var l := lists[w.fd];
      assert ListOf(l, w.fd, active);
      ghost var k :| 0 <= k < |l| && l[k] == w;
      assert Chain(anfds[w.fd].head, l, next);
      var head, next' := Unlink(anfds[w.fd].head, w, next, l, k);
      DelKeeps(anfds, lists, next, active, w.fd, k, head, next');
      Relist(w.fd, head, next', active - {w}, l[..k] + l[k + 1..]);
    }

    /** One turn of the loop of `fd_reify`. */
    method ReifyOne(fd: nat)
      requires Lists(anfds, lists, next, active) && Told() && fd < |anfds|
      modifies this`anfds, backend
      ensures Lists(anfds, lists, next, active) && Told()
      ensures anfds == old(anfds)[fd := anfds[fd]] && anfds[fd].reify.IsZero() && anfds[fd].events == Union(lists[fd])
    {
      var o := anfds[fd];
      assert Chain(o.head, lists[fd], next);
      var events := WantedBy(o.head, next, lists[fd]);
      var fdset := o.reify.fdset || o.events != events;
      anfds := anfds[fd := Anfd(o.head, events, Reify(false, false))];
      if fdset {
        backend.Modify(fd, o.events, events);
      }
    }

    /** `fd_reify`: afterwards nothing is queued, and the poll table asks for exactly what the active watchers want. */
    method FdReify()
      requires Valid()
      modifies this`anfds, this`fdchanges, backend
      ensures Valid() && fdchanges == []
      ensures forall fd: nat :: backend.At(fd) == Interest(active, fd)
    {
      assert forall j :: 0 <= j < |fdchanges| ==> fdchanges[j] in fdchanges;
      for i := 0 to |fdchanges|
        invariant Lists(anfds, lists, next, active) && Told() && |anfds| == old(|anfds|) && fdchanges == old(fdchanges)
        invariant forall j :: 0 <= j < |fdchanges| ==> fdchanges[j] < |anfds|
        invariant forall j :: 0 <= j < i ==> anfds[fdchanges[j]].reify.IsZero()
        invariant forall fd :: 0 <= fd < |anfds| && !anfds[fd].reify.IsZero() ==> fd in fdchanges
        invariant forall fd :: 0 <= fd < |anfds| && anfds[fd].reify.IsZero() ==> anfds[fd].events == Union(lists[fd])
      {
        ReifyOne(fdchanges[i]);
      }
      fdchanges := [];
      forall fd: nat ensures backend.At(fd) == Interest(active, fd) {
        WantedIsInterest(anfds, lists, next, active, fd);
      }
    }
  }

  lemma {:induction false} WantedIsInterest(anfds: seq<Anfd>, lists: seq<seq<IoWatcher>>, next: Next,
                                            active: set<IoWatcher>, fd: nat)
    requires Lists(anfds, lists, next, active)
    ensures Interest(active, fd) == if fd < |anfds| then Union(lists[fd]) else NONE
  {
    if fd < |anfds| {
      assert ListOf(lists[fd], fd, active);
      UnionIsAny(lists[fd]);
    }
  }

  lemma {:induction false} AddKeeps(anfds: seq<Anfd>, lists: seq<seq<IoWatcher>>, next: Next, active: set<IoWatcher>,
                                    w: IoWatcher)
    requires Lists(anfds, lists, next, active) && w.fd < |anfds| && w !in active
    ensures Lists(anfds[w.fd := anfds[w.fd].(head := To(w))], lists[w.fd := [w] + lists[w.fd]],
            next[w := anfds[w.fd].head], active + {w})
  {
    var anfds', lists', next' := anfds[w.fd := anfds[w.fd].(head := To(w))], lists[w.fd := [w] + lists[w.fd]],
        next[w := anfds[w.fd].head];
    forall f | 0 <= f < |anfds'| ensures ListOf(lists'[f], f, active + {w}) && Chain(anfds'[f].head, lists'[f], next') {
      assert ListOf(lists[f], f, active) && Chain(anfds[f].head, lists[f], next);
      if f == w.fd { AddedToList(anfds[f].head, lists[f], next, active, w); }
    }
  }

  lemma {:induction false} AddedToList(head: Link, l: seq<IoWatcher>, next: Next, active: set<IoWatcher>, w: IoWatcher)
    requires ListOf(l, w.fd, active) && Chain(head, l, next) && w !in active
    ensures ListOf([w] + l, w.fd, active + {w}) && Chain(To(w), [w] + l, next[w := head])
  {
    var m, next' := [w] + l, next[w := head];
    assert forall v :: v in m <==> v == w || v in l;
    forall i | 0 <= i < |m| ensures m[i] in next' && next'[m[i]] == Nth(m, i + 1) {
      if i > 0 { assert m[i] == l[i - 1] && m[i] in l; }
    }
  }

  lemma {:induction false} DelKeeps(anfds: seq<Anfd>, lists: seq<seq<IoWatcher>>, next: Next, active: set<IoWatcher>,
                                    fd: nat, k: nat, head: Link, next': Next)
    requires Lists(anfds, lists, next, active) && fd < |anfds| && k < |lists[fd]|
    requires Chain(head, lists[fd][..k] + lists[fd][k + 1..], next')
    requires next'.Keys == next.Keys && forall v :: v in next && v !in lists[fd] ==> next'[v] == next[v]
    ensures var l := lists[fd];
            Lists(anfds[fd := anfds[fd].(head := head)], lists[fd := l[..k] + l[k + 1..]], next', active - {l[k]})
  {
    var l := lists[fd];
    var anfds', lists', active' := anfds[fd := anfds[fd].(head := head)], lists[fd := l[..k] + l[k + 1..]],
        active - {l[k]};
    assert ListOf(l, fd, active) && l[k] in l;
    RemovedFromList(l, k, fd, active);
    OtherListsStay(anfds, lists, next, next', active, fd);
    forall f | 0 <= f < |anfds'| ensures ListOf(lists'[f], f, active') && Chain(anfds'[f].head, lists'[f], next') {
      assert ListOf(lists[f], f, active);
    }
  }

  lemma {:induction false} RemovedFromList(l: seq<IoWatcher>, k: nat, fd: nat, active: set<IoWatcher>)
    requires ListOf(l, fd, active) && k < |l|
    ensures ListOf(l[..k] + l[k + 1..], fd, active - {l[k]})
  {
    var m := l[..k] + l[k + 1..];
    forall v | v in l && v != l[k] ensures v in m {
      var i :| 0 <= i < |l| && l[i] == v;
      assert m[if i < k then i else i - 1] == v;
    }
  }

  lemma {:induction false} OtherListsStay(anfds: seq<Anfd>, lists: seq<seq<IoWatcher>>, next: Next, next': Next,
                                          active: set<IoWatcher>, fd: nat)
    requires Lists(anfds, lists, next, active) && fd < |anfds|
    requires next'.Keys == next.Keys && forall v :: v in next && v !in lists[fd] ==> next'[v] == next[v]
    ensures forall f :: 0 <= f < |anfds| && f != fd ==> Chain(anfds[f].head, lists[f], next')
  {
    forall f | 0 <= f < |anfds| && f != fd ensures Chain(anfds[f].head, lists[f], next') {
      assert ListOf(lists[f], f, active) && ListOf(lists[fd], fd, active) && Chain(anfds[f].head, lists[f], next);
      forall i | 0 <= i < |lists[f]| ensures lists[f][i] !in lists[fd] { assert lists[f][i] in lists[f]; }
    }
  }
}

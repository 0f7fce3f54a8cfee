/** The cross-thread wake-up protocol of the event loop: senders (`ev_async_send`, `ev_feed_signal`)
    announce work through `evpipe_write`; the loop arms itself in `ev_run`, sleeps in the backend and
    collects the announcements in `pipecb`.  Every step below performs at most one access to a shared
    variable, so a run of steps is an arbitrary interleaving of any number of senders with the loop. */
module Wakeup {

  /** The two kinds of announcement; they share the pipe and `pipe_write_skipped`. */
  datatype Channel = Signals | Asyncs

  /** One announcer: the signal with the given index, or the given async watcher. */
  datatype Source = Source(channel: Channel, id: nat)

  /** What senders and loop share. */
  datatype Memory = Memory(
    marked: set<Source>,     // sent, signals[].pending
    signalsPending: bool,    // sig_pending
    asyncsPending: bool,     // async_pending
    skipped: bool,           // pipe_write_skipped
    wanted: bool,            // pipe_write_wanted
    pipe: nat                // bytes waiting in the pipe
  )

  /** The point a sender has reached; a sender that has returned is no longer in `senders`. */
  datatype SenderPc = Mark | TestFlag | SetFlag | SetSkipped | TestWanted | ClearSkipped | WritePipe | Returned

  datatype Sender = Sender(source: Source, pc: SenderPc)

  /** The point the loop thread has reached.  `Polling(true)` is the only place where it may sleep. */
  datatype LoopPc =
    | Running
    | TestSkipped
    | Polling(mayBlock: bool)
    | Disarm
    | Recheck
    | Dispatch
    | DrainPipe
    | ResetSkipped
    | TestPending(channel: Channel)
    | ResetPending(channel: Channel)
    | Scan(channel: Channel, left: nat, seen: bool)   // seen: the mark of the slot in turn was read as set

  /** What only the loop thread touches. */
  datatype Loop = Loop(
    pc: LoopPc,
    readable: bool,          // pipe_w is pending with EV_READ
    custom: bool,            // pipe_w is pending with EV_CUSTOM
    asyncs: seq<nat>,        // the active async watchers
    fed: seq<Source>         // the sources whose events were fed so far
  )

  datatype State = State(
    signalCount: nat,        // EV_NSIG - 1
    eventfd: bool,           // the wake-up descriptor is an eventfd, not a pipe
    capacity: nat,           // what the pipe can hold
    mem: Memory,
    loop: Loop,
    senders: map<nat, Sender>
  )

  datatype Step =
    | Announce(k: nat, source: Source)   // a thread or a signal handler enters ev_async_send / ev_feed_signal
    | SenderMoves(k: nat)
    | LoopMoves(mayBlock: bool)          // mayBlock: no EVRUN_NOWAIT, no idle watcher, activecnt != 0
    | StartAsync(w: nat)
    | StopAsync(w: nat)

  predicate Pending(m: Memory, c: Channel) {
    if c.Signals? then m.signalsPending else m.asyncsPending
  }

  function WithPending(m: Memory, c: Channel, b: bool): Memory {
    if c.Signals? then m.(signalsPending := b) else m.(asyncsPending := b)
  }

  /** The sources `pipecb` scans for a channel, in slot order. */
  function Slots(signalCount: nat, asyncs: seq<nat>, c: Channel): (slots: seq<Source>)
  {
    if c.Signals? then seq(signalCount, i requires 0 <= i => Source(Signals, i))
    else seq(|asyncs|, i requires 0 <= i < |asyncs| => Source(Asyncs, asyncs[i]))
  }

  // ---------------------------------------------------------------- steps

  /** Where a sender goes next. */
  function NextPc(m: Memory, t: Sender): SenderPc {
    match t.pc
    case Mark => TestFlag
    case TestFlag => if Pending(m, t.source.channel) then Returned else SetFlag
    case SetFlag => SetSkipped
    case SetSkipped => TestWanted
    case TestWanted => if m.wanted then ClearSkipped else Returned
    case ClearSkipped => WritePipe
    case _ => Returned
  }

  /** What a sender's step does to the shared variables. */
  function Effect(m: Memory, t: Sender, capacity: nat): Memory {
    match t.pc
    case Mark => m.(marked := m.marked + {t.source})
    case SetFlag => WithPending(m, t.source.channel, true)
    case SetSkipped => m.(skipped := true)
    case ClearSkipped => m.(skipped := false)
    case WritePipe => m.(pipe := if m.pipe < capacity then m.pipe + 1 else m.pipe)
    case _ => m
  }

  /** One step of `ev_async_send` / `ev_feed_signal` and then of `evpipe_write`. */
  function SenderStep(s: State, k: nat): State
    requires k in s.senders
  {
    var t := s.senders[k];
    var pc := NextPc(s.mem, t);
    s.(mem := Effect(s.mem, t, s.capacity),
       senders := if pc.Returned? then s.senders - {k} else s.senders[k := Sender(t.source, pc)])
  }

  function AfterScan(c: Channel): LoopPc {
    if c.Signals? then TestPending(Asyncs) else Running
  }

  /** What a step of the loop does to the shared variables. */
  function LoopEffect(s: State): Memory {
    var m := s.mem;
    match s.loop.pc
    case Running => m.(wanted := true)
    case Disarm => m.(wanted := false)
    case DrainPipe => m.(pipe := if s.eventfd || m.pipe <= 4 then 0 else m.pipe - 4)
    case ResetSkipped => m.(skipped := false)
    case ResetPending(c) => WithPending(m, c, false)
    case Scan(c, left, seen) =>
      var slots := Slots(s.signalCount, s.loop.asyncs, c);
      if seen && 0 < left <= |slots| then m.(marked := m.marked - {slots[left - 1]}) else m
    case _ => m
  }

  /** What a step of the loop does to its own state, going once through `ev_run` and `pipecb`. */
  function LoopNext(s: State, mayBlock: bool): Loop {
    var m, l := s.mem, s.loop;
    match l.pc
    case Running => l.(pc := TestSkipped)
    case TestSkipped => l.(pc := Polling(mayBlock && !m.skipped))
    case Polling(_) => l.(pc := Disarm, readable := l.readable || m.pipe > 0)
    case Disarm => l.(pc := Recheck)
    case Recheck => l.(pc := Dispatch, custom := l.custom || m.skipped)
    case Dispatch =>
      l.(pc := if l.readable then DrainPipe else if l.custom then ResetSkipped else Running,
         readable := false, custom := false)
    case DrainPipe => l.(pc := ResetSkipped)
    case ResetSkipped => l.(pc := TestPending(Signals))
    case TestPending(c) => l.(pc := if Pending(m, c) then ResetPending(c) else AfterScan(c))
    case ResetPending(c) => l.(pc := Scan(c, |Slots(s.signalCount, l.asyncs, c)|, false))
    case Scan(c, left, seen) =>
      var slots := Slots(s.signalCount, l.asyncs, c);
      if left == 0 || left > |slots| then l.(pc := AfterScan(c))
      else if seen then l.(pc := Scan(c, left - 1, false), fed := l.fed + [slots[left - 1]])
      else if slots[left - 1] in m.marked then l.(pc := Scan(c, left, true))
      else l.(pc := Scan(c, left - 1, false))
  }

  function LoopStep(s: State, mayBlock: bool): State {
    s.(mem := LoopEffect(s), loop := LoopNext(s, mayBlock))
  }

  /** The slot holding watcher `w`, its `active` index less one. */
  function SlotOf(ws: seq<nat>, w: nat): (i: nat)
    requires w in ws
    ensures i < |ws| && ws[i] == w
  {
    if ws[0] == w then 0 else 1 + SlotOf(ws[1..], w)
  }

  /** `ev_async_start` unmarks the watcher and appends it. */
  function Started(s: State, w: nat): State {
    s.(mem := s.mem.(marked := s.mem.marked - {Source(Asyncs, w)}), loop := s.loop.(asyncs := s.loop.asyncs + [w]))
  }

  /** `ev_async_stop` moves the last watcher into the freed slot. */
  function Stopped(s: State, w: nat): State
    requires w in s.loop.asyncs
  {
    var ws, n := s.loop.asyncs, |s.loop.asyncs| - 1;
    s.(loop := s.loop.(asyncs := ws[SlotOf(ws, w) := ws[n]][..n]))
  }

  /** Watchers are started and stopped by callbacks, so outside `pipecb` and the backend. */
  predicate Enabled(s: State, step: Step) {
    match step
    case Announce(k, _) => k !in s.senders
    case SenderMoves(k) => k in s.senders
    case LoopMoves(_) => true
    case StartAsync(w) => (s.loop.pc.Running? || s.loop.pc.Dispatch?) && w !in s.loop.asyncs
    case StopAsync(w) => (s.loop.pc.Running? || s.loop.pc.Dispatch?) && w in s.loop.asyncs
  }

  function Apply(s: State, step: Step): State
    requires Enabled(s, step)
  {
    match step
    case Announce(k, src) => s.(senders := s.senders[k := Sender(src, Mark)])
    case SenderMoves(k) => SenderStep(s, k)
    case LoopMoves(mayBlock) => LoopStep(s, mayBlock)
    case StartAsync(w) => Started(s, w)
    case StopAsync(w) => Stopped(s, w)
  }

  predicate Init(s: State) {
    && s.capacity > 0
    && s.mem == Memory({}, false, false, false, false, 0)
    && s.loop == Loop(Running, false, false, [], [])
    && s.senders == map[]
  }

  /** `s'` is reached from `s` by performing the steps in order. */
  ghost predicate Reaches(s: State, steps: seq<Step>, s': State)
    decreases steps
  {
    if steps == [] then s' == s
    else Enabled(s, steps[0]) && Reaches(Apply(s, steps[0]), steps[1..], s')
  }

  // ---------------------------------------------------------------- invariant

  /** Points from which a sender still raises `pipe_write_skipped` or writes the pipe. */
  predicate Waking(pc: SenderPc) { pc.SetSkipped? || pc.ClearSkipped? || pc.WritePipe? }

  /** Points from which a sender that sees `pipe_write_wanted` still writes the pipe. */
  predicate Writing(pc: SenderPc) { pc.TestWanted? || pc.ClearSkipped? || pc.WritePipe? }

  /** Points at which a sender has set its mark and is about to look at, or to raise, the flag. */
  predicate Raising(pc: SenderPc) { pc.TestFlag? || pc.SetFlag? }

  ghost predicate SomeWaking(ts: map<nat, Sender>) { exists k :: k in ts && Waking(ts[k].pc) }

  ghost predicate SomeWriting(ts: map<nat, Sender>) { exists k :: k in ts && Writing(ts[k].pc) }

  ghost predicate SomeRaising(ts: map<nat, Sender>, src: Source) {
    exists k :: k in ts && ts[k].source == src && Raising(ts[k].pc)
  }

  /** The loop is inside `pipecb`, still before its test of the channel's flag. */
  predicate BeforeTest(pc: LoopPc, c: Channel) {
    match pc
    case DrainPipe => true
    case ResetSkipped => true
    case TestPending(d) => d.Signals? || c.Asyncs?
    case ResetPending(d) => d.Signals? || c.Asyncs?
    case Scan(d, _, _) => d.Signals? && c.Asyncs?
    case _ => false
  }

  /** A raised flag is always going to be looked at. */
  ghost predicate FlagCovered(s: State, c: Channel) {
    Pending(s.mem, c) ==>
      || s.mem.skipped || s.mem.pipe > 0 || s.loop.readable || s.loop.custom
      || BeforeTest(s.loop.pc, c) || SomeWaking(s.senders)
  }

  /** A source whose announcements this loop must deliver: any signal, or an active async watcher. */
  predicate Relevant(s: State, src: Source) {
    if src.channel.Signals? then src.id < s.signalCount else src.id in s.loop.asyncs
  }

  /** The scan in progress will still visit `src`. */
  ghost predicate StillToScan(s: State, src: Source) {
    && s.loop.pc.Scan? && s.loop.pc.channel == src.channel
    && var slots := Slots(s.signalCount, s.loop.asyncs, src.channel);
       exists i :: 0 <= i < s.loop.pc.left && i < |slots| && slots[i] == src
  }

  /** A mark that matters is covered by its flag, by the sender that set it, or by the running scan. */
  ghost predicate MarkCovered(s: State, src: Source) {
    src in s.mem.marked && Relevant(s, src) ==>
      Pending(s.mem, src.channel) || SomeRaising(s.senders, src) || StillToScan(s, src)
  }

  /** While the loop may sleep, the pipe is wanted and a skipped write is made good by some sender. */
  ghost predicate Armed(s: State) {
    && (s.loop.pc.TestSkipped? || s.loop.pc.Polling? ==> s.mem.wanted)
    && (s.loop.pc == Polling(true) && s.mem.skipped ==> s.mem.pipe > 0 || SomeWriting(s.senders))
  }

  /** `pipe_w` stays pending only until it is dispatched, and a scan starts within its slots. */
  ghost predicate LoopSane(s: State) {
    && (s.loop.readable || s.loop.custom ==> s.loop.pc.Disarm? || s.loop.pc.Recheck? || s.loop.pc.Dispatch?)
    && (s.loop.pc.Scan? ==>
          s.loop.pc.left <= |Slots(s.signalCount, s.loop.asyncs, s.loop.pc.channel)|
          && (s.loop.pc.seen ==> s.loop.pc.left > 0))
  }

  ghost predicate Invariant(s: State) {
    && s.capacity > 0
    && (forall c :: FlagCovered(s, c))
    && (forall src :: MarkCovered(s, src))
    && Armed(s)
    && LoopSane(s)
  }

  // ---------------------------------------------------------------- preservation

  lemma {:induction false} SenderKeepsFlags(s: State, k: nat, c: Channel)
    requires k in s.senders && s.capacity > 0 && FlagCovered(s, c)
    ensures FlagCovered(SenderStep(s, k), c)
  {
    var t, s' := s.senders[k], SenderStep(s, k);
    if SomeWaking(s.senders) {
      var j :| j in s.senders && Waking(s.senders[j].pc);
      assert j != k ==> j in s'.senders && s'.senders[j] == s.senders[j];
      assert j == k && !t.pc.WritePipe? && !t.pc.SetSkipped? ==> k in s'.senders && Waking(s'.senders[k].pc);
    }
    assert t.pc.SetFlag? ==> k in s'.senders && Waking(s'.senders[k].pc);
    assert t.pc.ClearSkipped? ==> k in s'.senders && Waking(s'.senders[k].pc);
  }

  lemma {:induction false} SenderKeepsMarks(s: State, k: nat, src: Source)
    requires k in s.senders && MarkCovered(s, src)
    ensures MarkCovered(SenderStep(s, k), src)
  {
    var t, s' := s.senders[k], SenderStep(s, k);
    if SomeRaising(s.senders, src) {
      var j :| j in s.senders && s.senders[j].source == src && Raising(s.senders[j].pc);
      assert j != k ==> j in s'.senders && s'.senders[j] == s.senders[j];
      assert j == k && k !in s'.senders ==> Pending(s'.mem, src.channel);
    }
    assert t.pc.Mark? ==> k in s'.senders && s'.senders[k] == Sender(t.source, TestFlag);
    assert t.pc.TestFlag? && k in s'.senders ==> s'.senders[k] == Sender(t.source, SetFlag);
  }

  lemma {:induction false} SenderKeepsArmed(s: State, k: nat)
    requires k in s.senders && s.capacity > 0 && Armed(s)
    ensures Armed(SenderStep(s, k))
  {
    var t, s' := s.senders[k], SenderStep(s, k);
    if SomeWriting(s.senders) {
      var j :| j in s.senders && Writing(s.senders[j].pc);
      assert j != k ==> j in s'.senders && s'.senders[j] == s.senders[j];
      assert j == k && k in s'.senders ==> Writing(s'.senders[k].pc);
    }
    assert t.pc.SetSkipped? ==> k in s'.senders && Writing(s'.senders[k].pc);
  }

  lemma {:induction false} LoopKeepsFlags(s: State, mayBlock: bool, c: Channel)
    requires FlagCovered(s, c)
    ensures FlagCovered(LoopStep(s, mayBlock), c)
  {
    var t := LoopStep(s, mayBlock);
    match s.loop.pc
    case Dispatch =>
    case TestPending(_) =>
    case ResetPending(_) =>
    case Scan(d, _, _) => assert t.mem.(marked := {}) == s.mem.(marked := {})
      && (t.loop.pc.Scan? || t.loop.pc == AfterScan(d));
    case _ =>
  }

  /** A relevant source has a slot, so a scan that starts now will visit it. */
  lemma {:induction false} RelevantHasSlot(s: State, src: Source)
    requires Relevant(s, src)
    ensures src in Slots(s.signalCount, s.loop.asyncs, src.channel)
  {
    var slots := Slots(s.signalCount, s.loop.asyncs, src.channel);
    if src.channel.Signals? {
      assert slots[src.id] == src;
    } else {
      var i :| 0 <= i < |s.loop.asyncs| && s.loop.asyncs[i] == src.id;
      assert slots[i] == src;
    }
  }

  lemma {:induction false} ScanStarts(s: State, mayBlock: bool, src: Source)
    requires s.loop.pc == ResetPending(src.channel) && Relevant(s, src)
    ensures StillToScan(LoopStep(s, mayBlock), src)
  {
    RelevantHasSlot(s, src);
    var slots := Slots(s.signalCount, s.loop.asyncs, src.channel);
    var i :| 0 <= i < |slots| && slots[i] == src;
    assert i < LoopStep(s, mayBlock).loop.pc.left;
  }

  /** A mark in front of the scan stays in front of it. */
  lemma {:induction false} ScanGoesOn(s: State, mayBlock: bool, src: Source)
    requires StillToScan(s, src) && LoopSane(s) && src in s.mem.marked
    ensures var t := LoopStep(s, mayBlock); src in t.mem.marked ==> StillToScan(t, src)
  {
    var t := LoopStep(s, mayBlock);
    var slots := Slots(s.signalCount, s.loop.asyncs, src.channel);
    var i :| 0 <= i < s.loop.pc.left && i < |slots| && slots[i] == src;
    if src in t.mem.marked { assert i < t.loop.pc.left; }
  }

  lemma {:induction false} LoopKeepsMarks(s: State, mayBlock: bool, src: Source)
    requires MarkCovered(s, src) && LoopSane(s)
    ensures MarkCovered(LoopStep(s, mayBlock), src)
  {
    if s.loop.pc == ResetPending(src.channel) && Relevant(s, src) {
      ScanStarts(s, mayBlock, src);
    } else if StillToScan(s, src) && src in s.mem.marked {
      ScanGoesOn(s, mayBlock, src);
    }
  }

  lemma {:induction false} LoopKeepsRest(s: State, mayBlock: bool)
    requires Armed(s) && LoopSane(s)
    ensures Armed(LoopStep(s, mayBlock)) && LoopSane(LoopStep(s, mayBlock))
  {
  }

  /** Stopping a watcher makes no other watcher active, and starting one makes only that one active. */
  lemma {:induction false} RemovalKeepsOthers(ws: seq<nat>, w: nat, v: nat)
    requires w in ws
    ensures v in ws[SlotOf(ws, w) := ws[|ws| - 1]][..|ws| - 1] ==> v in ws
  {
  }

  /** Stopping a watcher takes one occurrence of it out of the active ones and leaves the others. */
  lemma {:induction false} StopRemovesOne(s: State, w: nat)
    requires w in s.loop.asyncs
    ensures multiset(Stopped(s, w).loop.asyncs) == multiset(s.loop.asyncs) - multiset{w}
  {
    var ws, i := s.loop.asyncs, SlotOf(s.loop.asyncs, w);
    LastIntoSlot(ws, i);
    assert ws[i] == w && Stopped(s, w).loop.asyncs == ws[i := ws[|ws| - 1]][..|ws| - 1];
  }

  lemma {:induction false} LastIntoSlot(ws: seq<nat>, i: nat)
    requires i < |ws|
    ensures multiset(ws[i := ws[|ws| - 1]][..|ws| - 1]) == multiset(ws) - multiset{ws[i]}
  {
    var n := |ws| - 1;
    var a, x, y := ws[..i], ws[i], ws[n];
    if i < n {
      var b := ws[i + 1..n];
      assert ws == a + [x] + b + [y];
      assert ws[i := y][..n] == a + [y] + b;
      assert multiset(a + [x] + b + [y]) == multiset(a) + multiset{x} + multiset(b) + multiset{y};
    } else {
      assert ws == a + [x] && ws[i := y][..n] == a;
    }
  }

  /** What every step keeps: each raised flag and each set mark stays covered. */
  lemma {:induction false} StepKeepsInvariant(s: State, step: Step)
    requires Invariant(s) && Enabled(s, step)
    ensures Invariant(Apply(s, step))
  {
    var s' := Apply(s, step);
    forall c ensures FlagCovered(s', c) { FlagStep(s, step, c); }
    forall src ensures MarkCovered(s', src) { MarkStep(s, step, src); }
    match step
    case Announce(k, src) => NewSenderStays(s, k, src);
    case SenderMoves(k) => SenderKeepsArmed(s, k);
    case LoopMoves(mayBlock) => LoopKeepsRest(s, mayBlock);
    case StartAsync(w) =>
    case StopAsync(w) =>
  }

  lemma {:induction false} NewSenderStays(s: State, k: nat, src: Source)
    requires k !in s.senders
    ensures var ts := s.senders[k := Sender(src, Mark)];
            && (SomeWaking(s.senders) ==> SomeWaking(ts))
            && (SomeWriting(s.senders) ==> SomeWriting(ts))
            && forall x :: SomeRaising(s.senders, x) ==> SomeRaising(ts, x)
  {
    var ts := s.senders[k := Sender(src, Mark)];
    assert forall j :: j in s.senders ==> j in ts && ts[j] == s.senders[j];
  }

  lemma {:induction false} FlagStep(s: State, step: Step, c: Channel)
    requires Invariant(s) && Enabled(s, step)
    ensures FlagCovered(Apply(s, step), c)
  {
    assert FlagCovered(s, c);
    match step
    case Announce(k, src) => NewSenderStays(s, k, src);
    case SenderMoves(k) => SenderKeepsFlags(s, k, c);
    case LoopMoves(mayBlock) => LoopKeepsFlags(s, mayBlock, c);
    case StartAsync(w) =>
    case StopAsync(w) =>
  }

  lemma {:induction false} MarkStep(s: State, step: Step, src: Source)
    requires Invariant(s) && Enabled(s, step)
    ensures MarkCovered(Apply(s, step), src)
  {
    assert MarkCovered(s, src);
    match step
    case Announce(k, from) => NewSenderStays(s, k, from);
    case SenderMoves(k) => SenderKeepsMarks(s, k, src);
    case LoopMoves(mayBlock) => LoopKeepsMarks(s, mayBlock, src);
    case StartAsync(w) =>
    case StopAsync(w) => RemovalKeepsOthers(s.loop.asyncs, w, src.id);
  }

  lemma {:induction false} RunKeepsInvariant(s: State, steps: seq<Step>, s': State)
    requires Invariant(s) && Reaches(s, steps, s')
    ensures Invariant(s')
    decreases steps
  {
    if steps != [] {
      StepKeepsInvariant(s, steps[0]);
      RunKeepsInvariant(Apply(s, steps[0]), steps[1..], s');
    }
  }

  // ---------------------------------------------------------------- main results

  /** No wake-up is lost: in every reachable state in which the loop may be asleep in the backend and every
      sender has returned, a mark on a signal or on an active watcher means that the pipe is readable, so
      the backend returns. */
  lemma {:induction false} NoLostWakeup(s: State, steps: seq<Step>, s': State, src: Source)
    requires Init(s) && Reaches(s, steps, s')
    requires s'.loop.pc == Polling(true) && s'.senders == map[]
    requires src in s'.mem.marked && Relevant(s', src)
    ensures s'.mem.pipe > 0
  {
    RunKeepsInvariant(s, steps, s');
    assert MarkCovered(s', src);
    assert FlagCovered(s', src.channel);
  }

  // ---------------------------------------------------------------- delivery from anywhere

  /** A mark is due: every sender has returned, the invariant holds and the mark matters. */
  ghost predicate Due(s: State, src: Source) {
    Invariant(s) && s.senders == map[] && src in s.mem.marked && Relevant(s, src)
  }

  /** The current turn of the loop will not come to the mark, so that it is left to the next one. */
  ghost predicate NextTurn(s: State, src: Source) {
    match s.loop.pc
    case Running => false
    case TestSkipped => false
    case Polling(_) => false
    case Disarm => !s.loop.readable && !s.loop.custom && !s.mem.skipped
    case Recheck => !s.loop.readable && !s.loop.custom && !s.mem.skipped
    case Dispatch => !s.loop.readable && !s.loop.custom
    case _ => !BeforeTest(s.loop.pc, src.channel) && !StillToScan(s, src)
  }

  /** At most how many steps are left of the current turn. */
  function StepsLeft(s: State): nat {
    var a, b := 2 * |s.loop.asyncs|, 2 * s.signalCount;
    match s.loop.pc
    case Running => a + b + 15
    case TestSkipped => a + b + 14
    case Polling(_) => a + b + 13
    case Disarm => a + b + 12
    case Recheck => a + b + 11
    case Dispatch => a + b + 10
    case DrainPipe => a + b + 9
    case ResetSkipped => a + b + 8
    case TestPending(c) => if c.Signals? then a + b + 7 else a + 3
    case ResetPending(c) => if c.Signals? then a + b + 6 else a + 2
    case Scan(c, left, seen) => (if c.Signals? then a + 4 else 1) + 2 * left - if seen && left > 0 then 1 else 0
  }

  ghost function Rank(s: State, src: Source): nat {
    StepsLeft(s) + if NextTurn(s, src) then 2 * |s.loop.asyncs| + 2 * s.signalCount + 16 else 0
  }

  /** A due mark keeps the loop from sleeping. */
  lemma {:induction false} DueKeepsAwake(s: State, src: Source)
    requires Due(s, src)
    ensures s.loop.pc == Polling(true) ==> s.mem.pipe > 0
    ensures Pending(s.mem, src.channel) || StillToScan(s, src)
  {
    assert MarkCovered(s, src);
    assert FlagCovered(s, src.channel);
  }

  lemma {:induction false} StepsRunOut(s: State, mayBlock: bool)
    requires LoopSane(s)
    ensures var t := LoopStep(s, mayBlock); StepsLeft(t) < StepsLeft(s) || t.loop.pc.Running?
  {
    match s.loop.pc
    case Scan(_, _, _) => ScanRunsOut(s, mayBlock);
    case ResetPending(c) => SlotCount(s, c);
    case TestPending(_) =>
    case Dispatch =>
    case _ =>
  }

  lemma {:induction false} SlotCount(s: State, c: Channel)
    ensures |Slots(s.signalCount, s.loop.asyncs, c)| == if c.Signals? then s.signalCount else |s.loop.asyncs|
  {
  }

  lemma {:induction false} ScanRunsOut(s: State, mayBlock: bool)
    requires LoopSane(s) && s.loop.pc.Scan?
    ensures var t := LoopStep(s, mayBlock); StepsLeft(t) < StepsLeft(s) || t.loop.pc.Running?
  {
    var t, c := LoopStep(s, mayBlock), s.loop.pc.channel;
    SlotCount(s, c);
    assert t.loop.asyncs == s.loop.asyncs && t.signalCount == s.signalCount;
    if s.loop.pc.left == 0 {
      assert t.loop.pc == AfterScan(c);
    } else if s.loop.pc.seen {
      assert t.loop.pc == Scan(c, s.loop.pc.left - 1, false);
    }
  }

  /** From the backend to the callback: what woke the loop is found. */
  lemma {:induction false} WakeIsFound(s: State, src: Source, mayBlock: bool)
    requires Due(s, src) && !NextTurn(s, src)
    requires s.loop.pc in {Running, TestSkipped, Polling(false), Polling(true), Disarm, Recheck, Dispatch, DrainPipe,
             ResetSkipped}
    ensures var t := LoopStep(s, mayBlock); !NextTurn(t, src) && !t.loop.pc.Running?
  {
    DueKeepsAwake(s, src);
    assert FlagCovered(s, src.channel);
  }

  /** The tests of the flags: a raised flag starts its scan. */
  lemma {:induction false} FlagIsTaken(s: State, src: Source, mayBlock: bool)
    requires Due(s, src) && !NextTurn(s, src) && (s.loop.pc.TestPending? || s.loop.pc.ResetPending?)
    ensures var t := LoopStep(s, mayBlock); !NextTurn(t, src) && !t.loop.pc.Running?
  {
    DueKeepsAwake(s, src);
    if s.loop.pc == ResetPending(src.channel) { ScanStarts(s, mayBlock, src); }
  }

  /** The scan: a mark in front of it stays in front of it. */
  lemma {:induction false} ScanComesToIt(s: State, src: Source, mayBlock: bool)
    requires LoopSane(s) && !NextTurn(s, src) && s.loop.pc.Scan?
    ensures var t := LoopStep(s, mayBlock);
            src in t.mem.marked && src in s.mem.marked ==> !NextTurn(t, src) && !t.loop.pc.Running?
    ensures var t := LoopStep(s, mayBlock);
            src in s.mem.marked && src !in t.mem.marked ==> t.loop.fed == s.loop.fed + [src]
  {
    if StillToScan(s, src) && src in s.mem.marked { ScanGoesOn(s, mayBlock, src); }
  }

  /** A mark that the current turn comes to is fed by it. */
  lemma {:induction false} TurnServes(s: State, src: Source, mayBlock: bool)
    requires Due(s, src) && !NextTurn(s, src)
    ensures var t := LoopStep(s, mayBlock); src in t.mem.marked ==> !NextTurn(t, src) && !t.loop.pc.Running?
  {
    match s.loop.pc
    case TestPending(_) => FlagIsTaken(s, src, mayBlock);
    case ResetPending(_) => FlagIsTaken(s, src, mayBlock);
    case Scan(_, _, _) => ScanComesToIt(s, src, mayBlock);
    case Polling(b) => WakeIsFound(s, src, mayBlock);
    case _ => WakeIsFound(s, src, mayBlock);
  }

  /** Only a scan clears a mark, and feeds it. */
  lemma {:induction false} ClearedIsFed(s: State, src: Source, mayBlock: bool)
    requires LoopSane(s) && src in s.mem.marked
    ensures var t := LoopStep(s, mayBlock);
            s.loop.fed <= t.loop.fed && (src !in t.mem.marked ==> t.loop.fed == s.loop.fed + [src])
  {
  }

  /** A step of the loop, whether or not it may block, feeds a due mark and clears it, or brings it nearer. */
  lemma {:induction false} DueStep(s: State, src: Source, mayBlock: bool)
    requires Due(s, src)
    ensures var t := LoopStep(s, mayBlock);
            && s.loop.fed <= t.loop.fed && (src !in t.mem.marked ==> t.loop.fed == s.loop.fed + [src])
            && (src in t.mem.marked ==> Due(t, src) && Rank(t, src) < Rank(s, src))
  {
    ClearedIsFed(s, src, mayBlock);
    if src in LoopStep(s, mayBlock).mem.marked {
      DueStays(s, src, mayBlock);
      RankFalls(s, src, mayBlock);
    }
  }

  lemma {:induction false} DueStays(s: State, src: Source, mayBlock: bool)
    requires Due(s, src) && src in LoopStep(s, mayBlock).mem.marked
    ensures Due(LoopStep(s, mayBlock), src)
  {
    StepKeepsInvariant(s, LoopMoves(mayBlock));
    assert LoopStep(s, mayBlock) == Apply(s, LoopMoves(mayBlock));
  }

  lemma {:induction false} RankFalls(s: State, src: Source, mayBlock: bool)
    requires Due(s, src) && src in LoopStep(s, mayBlock).mem.marked
    ensures Rank(LoopStep(s, mayBlock), src) < Rank(s, src)
  {
    StepsRunOut(s, mayBlock);
    if !NextTurn(s, src) { TurnServes(s, src, mayBlock); }
  }

  /** The loop thread alone, free to block or not at each step. */
  ghost function LoopGoesOn(s: State, may: seq<bool>): State
    decreases |may|
  {
    if may == [] then s else LoopGoesOn(LoopStep(s, may[0]), may[1..])
  }

  lemma {:induction false} OneStepOn(s: State, may: seq<bool>, i: nat)
    requires 0 < i <= |may|
    ensures LoopGoesOn(s, may[..i]) == LoopGoesOn(LoopStep(s, may[0]), may[1..][..i - 1])
  {
    assert may[..i][1..] == may[1..][..i - 1];
  }

  /** From `s` to `t` the source was fed and its mark cleared. */
  ghost predicate Delivered(s: State, t: State, src: Source) {
    s.loop.fed <= t.loop.fed && src in t.loop.fed[|s.loop.fed|..] && src !in t.mem.marked
  }

  ghost predicate Awake(s: State) { s.loop.pc == Polling(true) ==> s.mem.pipe > 0 }

  lemma {:induction false} DeliveredLater(s: State, s': State, t: State, src: Source)
    requires s.loop.fed <= s'.loop.fed && Delivered(s', t, src)
    ensures Delivered(s, t, src)
  {
    var i :| |s'.loop.fed| <= i < |t.loop.fed| && t.loop.fed[i] == src;
    assert t.loop.fed[|s.loop.fed|..][i - |s.loop.fed|] == src;
  }

  /** The source is fed by the step `n`, and until then the loop does not sleep on an empty pipe. */
  ghost predicate DeliveredBy(s: State, src: Source, may: seq<bool>, n: nat) {
    n <= |may| && Delivered(s, LoopGoesOn(s, may[..n]), src)
      && forall i: nat :: i < n ==> Awake(LoopGoesOn(s, may[..i]))
  }

  lemma {:induction false} DeliveredAtOnce(s: State, src: Source, may: seq<bool>)
    requires may != [] && Awake(s) && Delivered(s, LoopStep(s, may[0]), src)
    ensures DeliveredBy(s, src, may, 1)
  {
    assert may[..0] == [] && may[1..][..0] == [];
    OneStepOn(s, may, 1);
  }

  lemma {:induction false} DeliveredNext(s: State, src: Source, may: seq<bool>, m: nat)
    requires may != [] && Awake(s) && s.loop.fed <= LoopStep(s, may[0]).loop.fed
    requires DeliveredBy(LoopStep(s, may[0]), src, may[1..], m)
    ensures DeliveredBy(s, src, may, m + 1)
  {
    var t := LoopStep(s, may[0]);
    assert may[..0] == [];
    DeliveredLater(s, t, LoopGoesOn(t, may[1..][..m]), src);
    OneStepOn(s, may, m + 1);
    forall i: nat | i < m + 1 ensures Awake(LoopGoesOn(s, may[..i])) {
      if i > 0 { OneStepOn(s, may, i); }
    }
  }

  lemma {:induction false} DueIsDelivered(s: State, src: Source, may: seq<bool>) returns (n: nat)
    requires Due(s, src) && Rank(s, src) <= |may|
    ensures DeliveredBy(s, src, may, n)
    decreases |may|
  {
    var t := LoopStep(s, may[0]);
    DueStep(s, src, may[0]);
    DueKeepsAwake(s, src);
    if src in t.mem.marked {
      n := DueIsDelivered(t, src, may[1..]);
      DeliveredNext(s, src, may, n);
      n := n + 1;
    } else {
      n := 1;
      assert t.loop.fed[|s.loop.fed|..][0] == src;
      DeliveredAtOnce(s, src, may);
    }
  }

  /** From every reachable state in which every sender has returned, whatever the loop chooses at each step, it feeds
      every mark that matters within `Rank` steps, and on the way never sleeps on an empty pipe. */
  lemma {:induction false} EveryMarkIsDelivered(s: State, steps: seq<Step>, s': State, src: Source, may: seq<bool>)
    returns (n: nat)
    requires Init(s) && Reaches(s, steps, s') && s'.senders == map[]
    requires src in s'.mem.marked && Relevant(s', src) && Rank(s', src) <= |may|
    ensures DeliveredBy(s', src, may, n)
  {
    RunKeepsInvariant(s, steps, s');
    n := DueIsDelivered(s', src, may);
  }

  // ---------------------------------------------------------------- what was announced, and nothing else, is fed

  /** How often a source was fed. */
  ghost function Count(fed: seq<Source>, src: Source): nat {
    if fed == [] then 0 else Count(fed[..|fed| - 1], src) + if fed[|fed| - 1] == src then 1 else 0
  }

  /** How often a source was announced. */
  ghost function Announces(steps: seq<Step>, src: Source): nat {
    if steps == [] then 0
    else (if steps[0].Announce? && steps[0].source == src then 1 else 0) + Announces(steps[1..], src)
  }

  /** The senders of a source that have not set its mark yet. */
  ghost function Marking(ts: map<nat, Sender>, src: Source): set<nat> {
    set k | k in ts && ts[k] == Sender(src, Mark)
  }

  /** Each time a source was fed, its mark, and each sender about to set it go back to an announcement of their own. */
  ghost predicate Accounted(s: State, src: Source, n: nat) {
    Count(s.loop.fed, src) + (if src in s.mem.marked then 1 else 0) + |Marking(s.senders, src)| <= n
  }

  /** A mark that the scan has read as set is still set. */
  ghost predicate SeenIsMarked(s: State) {
    s.loop.pc.Scan? && s.loop.pc.seen ==>
      var slots := Slots(s.signalCount, s.loop.asyncs, s.loop.pc.channel);
      0 < s.loop.pc.left <= |slots| && slots[s.loop.pc.left - 1] in s.mem.marked
  }

  lemma {:induction false} SeenStep(s: State, step: Step)
    requires SeenIsMarked(s) && Enabled(s, step)
    ensures SeenIsMarked(Apply(s, step))
  {
  }

  lemma {:induction false} SenderAccounts(s: State, k: nat, src: Source, n: nat)
    requires k in s.senders && Accounted(s, src, n)
    ensures Accounted(SenderStep(s, k), src, n)
  {
    var s', t := SenderStep(s, k), s.senders[k];
    MarkingFalls(s.senders, s'.senders, k, src);
    if t.pc.Mark? {
      assert s'.mem.marked == s.mem.marked + {t.source};
    } else {
      assert s'.mem.marked == s.mem.marked;
    }
  }

  lemma {:induction false} MarkingFalls(ts: map<nat, Sender>, ts': map<nat, Sender>, k: nat, src: Source)
    requires k in ts && (k in ts' ==> ts'[k].pc != Mark)
    requires forall j :: j != k ==> (j in ts <==> j in ts') && (j in ts ==> ts'[j] == ts[j])
    ensures |Marking(ts', src)| == |Marking(ts, src)| - if ts[k] == Sender(src, Mark) then 1 else 0
  {
    assert Marking(ts', src) == Marking(ts, src) - {k};
  }

  lemma {:induction false} AnnounceAccounts(s: State, k: nat, from: Source, src: Source, n: nat)
    requires k !in s.senders && Accounted(s, src, n)
    ensures Accounted(Apply(s, Announce(k, from)), src, n + if from == src then 1 else 0)
  {
    MarkingRises(s.senders, k, from, src);
  }

  lemma {:induction false} MarkingRises(ts: map<nat, Sender>, k: nat, from: Source, src: Source)
    requires k !in ts
    ensures |Marking(ts[k := Sender(from, Mark)], src)| == |Marking(ts, src)| + if from == src then 1 else 0
  {
    var more := ts[k := Sender(from, Mark)];
    assert Marking(more, src) == Marking(ts, src) + if from == src then {k} else {};
  }

  /** A step of the loop feeds at most one source, whose mark it finds and clears. */
  lemma {:induction false} FedWasMarked(s: State, mayBlock: bool)
    requires SeenIsMarked(s)
    ensures var t := LoopStep(s, mayBlock);
            || (t.loop.fed == s.loop.fed && t.mem.marked == s.mem.marked)
            || exists src :: src in s.mem.marked && t.loop.fed == s.loop.fed + [src]
                             && t.mem.marked == s.mem.marked - {src}
  {
    match s.loop.pc
    case Scan(c, left, seen) =>
      if seen {
        var src := Slots(s.signalCount, s.loop.asyncs, c)[left - 1];
        assert src in s.mem.marked && LoopStep(s, mayBlock).loop.fed == s.loop.fed + [src];
      }
    case _ =>
  }

  lemma {:induction false} LoopAccounts(s: State, mayBlock: bool, src: Source, n: nat)
    requires SeenIsMarked(s) && Accounted(s, src, n)
    ensures Accounted(LoopStep(s, mayBlock), src, n)
  {
    var t := LoopStep(s, mayBlock);
    FedWasMarked(s, mayBlock);
    assert t.senders == s.senders;
    if t.loop.fed != s.loop.fed {
      var x :| x in s.mem.marked && t.loop.fed == s.loop.fed + [x] && t.mem.marked == s.mem.marked - {x};
      CountGrows(s.loop.fed, x, src);
    }
  }

  lemma {:induction false} CountGrows(fed: seq<Source>, x: Source, src: Source)
    ensures Count(fed + [x], src) == Count(fed, src) + if x == src then 1 else 0
  {
    assert (fed + [x])[..|fed|] == fed;
  }

  lemma {:induction false} StepAccounts(s: State, step: Step, src: Source, n: nat)
    requires SeenIsMarked(s) && Accounted(s, src, n) && Enabled(s, step)
    ensures Accounted(Apply(s, step), src, n + if step.Announce? && step.source == src then 1 else 0)
  {
    match step
    case Announce(k, from) => AnnounceAccounts(s, k, from, src, n);
    case SenderMoves(k) => SenderAccounts(s, k, src, n);
    case LoopMoves(mayBlock) => LoopAccounts(s, mayBlock, src, n);
    case StartAsync(w) =>
    case StopAsync(w) =>
  }

  lemma {:induction false} RunAccounts(s: State, steps: seq<Step>, s': State, src: Source, n: nat)
    requires SeenIsMarked(s) && Accounted(s, src, n) && Reaches(s, steps, s')
    ensures SeenIsMarked(s') && Accounted(s', src, n + Announces(steps, src))
    decreases steps
  {
    if steps != [] {
      var step := steps[0];
      SeenStep(s, step);
      StepAccounts(s, step, src, n);
      RunAccounts(Apply(s, step), steps[1..], s', src, n + if step.Announce? && step.source == src then 1 else 0);
    }
  }

  /** Nothing is delivered that was not announced: in every run a source is fed at most as often as it was announced,
      and whenever the loop feeds a source it is marked. */
  lemma {:induction false} NothingSpurious(s: State, steps: seq<Step>, s': State, src: Source, mayBlock: bool)
    requires Init(s) && Reaches(s, steps, s')
    ensures Count(s'.loop.fed, src) <= Announces(steps, src)
    ensures var t := LoopStep(s', mayBlock);
            t.loop.fed == s'.loop.fed + [src] ==> src in s'.mem.marked && src !in t.mem.marked
  {
    assert Marking(s.senders, src) == {};
    RunAccounts(s, steps, s', src, 0);
    FedWasMarked(s', mayBlock);
    if LoopStep(s', mayBlock).loop.fed == s'.loop.fed + [src] {
      assert (s'.loop.fed + [src])[|s'.loop.fed|] == src;
    }
  }

  /** An announcement is on its way, marked, or fed since point `from`. */
  ghost predicate Held(s: State, k: nat, src: Source, from: nat) {
    && from <= |s.loop.fed|
    && ((k in s.senders && s.senders[k] == Sender(src, Mark)) || src in s.mem.marked || src in s.loop.fed[from..])
  }

  lemma {:induction false} FedLater(fed: seq<Source>, fed': seq<Source>, from: nat, src: Source)
    requires fed <= fed' && from <= |fed|
    ensures src in fed[from..] ==> src in fed'[from..]
    ensures fed' == fed + [src] ==> src in fed'[from..]
  {
    if src in fed[from..] {
      var i :| 0 <= i < |fed[from..]| && fed[from..][i] == src;
      assert fed'[from..][i] == src;
    }
    if fed' == fed + [src] { assert fed'[from..][|fed| - from] == src; }
  }

  lemma {:induction false} HeldByLoop(s: State, mayBlock: bool, k: nat, src: Source, from: nat)
    requires Held(s, k, src, from) && SeenIsMarked(s)
    ensures Held(LoopStep(s, mayBlock), k, src, from)
  {
    FedWasMarked(s, mayBlock);
    FedLater(s.loop.fed, LoopStep(s, mayBlock).loop.fed, from, src);
  }

  /** Only a new start of its watcher takes an announcement back. */
  lemma {:induction false} HeldStep(s: State, step: Step, k: nat, src: Source, from: nat)
    requires Held(s, k, src, from) && SeenIsMarked(s) && Enabled(s, step)
    requires src.channel.Asyncs? ==> step != StartAsync(src.id)
    ensures Held(Apply(s, step), k, src, from)
  {
    match step
    case LoopMoves(mayBlock) => HeldByLoop(s, mayBlock, k, src, from);
    case _ =>
  }

  lemma {:induction false} HeldRun(s: State, steps: seq<Step>, s': State, k: nat, src: Source, from: nat)
    requires Held(s, k, src, from) && SeenIsMarked(s) && Reaches(s, steps, s')
    requires src.channel.Asyncs? ==> StartAsync(src.id) !in steps
    ensures Held(s', k, src, from)
    decreases steps
  {
    if steps != [] {
      HeldStep(s, steps[0], k, src, from);
      SeenStep(s, steps[0]);
      HeldRun(Apply(s, steps[0]), steps[1..], s', k, src, from);
    }
  }

  /** No announcement is lost: once every sender has returned, a source that matters, that was announced in state `u`
      and whose watcher was not started anew since, was fed since or is fed by the loop alone within `Rank` steps. */
  lemma {:induction false} EveryAnnouncementIsDelivered(s: State, steps: seq<Step>, u: State, k: nat, src: Source,
                                                        later: seq<Step>, s': State, may: seq<bool>) returns (n: nat)
    requires Init(s) && Reaches(s, steps, u) && Enabled(u, Announce(k, src))
    requires Reaches(Apply(u, Announce(k, src)), later, s') && s'.senders == map[] && Relevant(s', src)
    requires src.channel.Asyncs? ==> StartAsync(src.id) !in later
    requires Rank(s', src) <= |may|
    ensures n <= |may|
    ensures var t := LoopGoesOn(s', may[..n]); u.loop.fed <= t.loop.fed && src in t.loop.fed[|u.loop.fed|..]
  {
    var v, from := Apply(u, Announce(k, src)), |u.loop.fed|;
    RunKeepsInvariant(s, steps, u);
    StepKeepsInvariant(u, Announce(k, src));
    RunKeepsInvariant(v, later, s');
    assert Marking(s.senders, src) == {};
    RunAccounts(s, steps, u, src, 0);
    SeenStep(u, Announce(k, src));
    FedGrows(v, later, s');
    HeldRun(v, later, s', k, src, from);
    if src in s'.loop.fed[from..] {
      n := 0;
      assert may[..0] == [];
    } else {
      n := DueIsDelivered(s', src, may);
      var t := LoopGoesOn(s', may[..n]);
      var i :| 0 <= i < |t.loop.fed[|s'.loop.fed|..]| && t.loop.fed[|s'.loop.fed|..][i] == src;
      assert t.loop.fed[from..][|s'.loop.fed| - from + i] == src;
    }
  }

  lemma {:induction false} FedGrows(s: State, steps: seq<Step>, s': State)
    requires SeenIsMarked(s) && Reaches(s, steps, s')
    ensures s.loop.fed <= s'.loop.fed
    decreases steps
  {
    if steps != [] {
      if steps[0].LoopMoves? { FedWasMarked(s, steps[0].mayBlock); }
      SeenStep(s, steps[0]);
      FedGrows(Apply(s, steps[0]), steps[1..], s');
    }
  }

  // ---------------------------------------------------------------- the loop comes to rest

  /** The loop sleeps. */
  predicate AtRest(s: State) { s.loop.pc == Polling(true) && s.mem.pipe == 0 }

  /** What keeps the loop awake. */
  function Unrest(m: Memory): nat { m.pipe + if m.skipped then 1 else 0 }

  /** The current turn of the loop will still take something from the pipe, or reset `pipe_write_skipped`. */
  predicate WillCalm(s: State) {
    match s.loop.pc
    case Running => true
    case TestSkipped => true
    case Polling(mayBlock) => mayBlock || s.mem.pipe > 0 || s.mem.skipped
    case Disarm => (s.loop.readable && s.mem.pipe > 0) || s.mem.skipped
    case Recheck => (s.loop.readable && s.mem.pipe > 0) || s.mem.skipped
    case Dispatch => (s.loop.readable && Unrest(s.mem) > 0) || (s.loop.custom && s.mem.skipped)
    case DrainPipe => Unrest(s.mem) > 0
    case ResetSkipped => s.mem.skipped
    case _ => false
  }

  function TurnLength(s: State): nat { 2 * |s.loop.asyncs| + 2 * s.signalCount + 15 }

  /** At most how many steps the loop needs to come to rest. */
  ghost function CalmRank(s: State): nat {
    Unrest(s.mem) * (2 * TurnLength(s)) + (if WillCalm(s) then 0 else TurnLength(s)) + StepsLeft(s)
  }

  lemma {:induction false} Fewer(a: nat, b: nat, k: nat)
    requires a < b
    ensures a * k + k <= b * k
    decreases b - a
  {
    if a + 1 < b { Fewer(a, b - 1, k); }
    assert (b - 1) * k + k == b * k;
  }

  /** A step of a turn that is not its last. */
  lemma {:induction false} CalmStep(s: State)
    requires LoopSane(s) && !AtRest(s)
    ensures var t := LoopStep(s, true);
            && TurnLength(t) == TurnLength(s) && Unrest(t.mem) <= Unrest(s.mem)
            && (t.loop.pc.Running? ==> !WillCalm(s) && StepsLeft(t) == TurnLength(s))
            && (!t.loop.pc.Running? && Unrest(t.mem) == Unrest(s.mem) && WillCalm(s) ==> WillCalm(t))
  {
    match s.loop.pc
    case Scan(_, _, _) =>
    case TestPending(_) =>
    case ResetPending(_) =>
    case Polling(_) =>
    case Dispatch =>
    case _ =>
  }

  lemma {:induction false} CalmRankFalls(s: State)
    requires LoopSane(s) && !AtRest(s)
    ensures CalmRank(LoopStep(s, true)) < CalmRank(s)
  {
    var t := LoopStep(s, true);
    CalmStep(s);
    StepsRunOut(s, true);
    if Unrest(t.mem) < Unrest(s.mem) { Fewer(Unrest(t.mem), Unrest(s.mem), 2 * TurnLength(s)); }
  }

  /** The loop thread alone, blocking whenever nothing keeps it from it. */
  ghost function LoopRuns(s: State, n: nat): State
    decreases n
  {
    if n == 0 then s else LoopRuns(LoopStep(s, true), n - 1)
  }

  lemma {:induction false} CalmsDown(s: State) returns (n: nat)
    requires Invariant(s) && s.senders == map[]
    ensures n <= CalmRank(s) && AtRest(LoopRuns(s, n)) && Invariant(LoopRuns(s, n)) && LoopRuns(s, n).senders == map[]
    decreases CalmRank(s)
  {
    if AtRest(s) {
      n := 0;
    } else {
      CalmRankFalls(s);
      StepKeepsInvariant(s, LoopMoves(true));
      assert LoopStep(s, true) == Apply(s, LoopMoves(true));
      n := CalmsDown(LoopStep(s, true));
      n := n + 1;
    }
  }

  /** From every reachable state in which every sender has returned, the loop alone falls asleep within `CalmRank`
      steps, and then no signal and no active watcher is marked. */
  lemma {:induction false} LoopComesToRest(s: State, steps: seq<Step>, s': State) returns (n: nat)
    requires Init(s) && Reaches(s, steps, s') && s'.senders == map[]
    ensures n <= CalmRank(s') && AtRest(LoopRuns(s', n))
    ensures forall src :: Relevant(LoopRuns(s', n), src) ==> src !in LoopRuns(s', n).mem.marked
  {
    RunKeepsInvariant(s, steps, s');
    n := CalmsDown(s');
    var t := LoopRuns(s', n);
    forall src | Relevant(t, src) ensures src !in t.mem.marked {
      assert MarkCovered(t, src) && FlagCovered(t, src.channel);
    }
  }
}

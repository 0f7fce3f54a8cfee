/** The SQL-log ring buffer: one writer and one flusher over 32-bit counters that wrap around.  The source's `in` and
    `out` are called `head` and `tail` here. */
module RingBuffer {
  import opened Bits

  type Byte = b: nat | b < 256

  const WORD := 0x1_0000_0000

  /** Storing a value in a `guint`. */
  function Wrap(x: int): nat { x % WORD }

  /** The buffer sizes `rfifo_alloc` makes. */
  ghost predicate Size(n: nat) { exists e: nat :: e <= 31 && n == Pow2(e) }

  // ---------------------------------------------------------------- slots

  lemma {:induction false} Multiples(q: nat, r: nat, n: nat)
    requires r < n
    ensures (q * n + r) % n == r
  {
    DivMod(q * n + r, q, n, r);
  }

  /** The slot of a counter in a buffer of size `n`. */
  function Slot(t: nat, n: nat): (s: nat)
    requires 0 < n
    ensures s < n
  {
    if t < n then t else Slot(t - n, n)
  }

  lemma {:induction false} SlotIsRemainder(t: nat, n: nat)
    requires 0 < n
    ensures Slot(t, n) == t % n
  {
    if t < n {
      Multiples(0, t, n);
    } else {
      SlotIsRemainder(t - n, n);
      Euclid(t - n, n);
      assert ((t - n) / n + 1) * n == (t - n) / n * n + n;
      Multiples((t - n) / n + 1, (t - n) % n, n);
    }
  }

  /** A slot a little further on: the code's case split between the two copies. */
  lemma {:induction false} SlotAfter(t: nat, k: nat, n: nat)
    requires 0 < n && k <= n
    ensures Slot(t + k, n) == if Slot(t, n) + k < n then Slot(t, n) + k else Slot(t, n) + k - n
  {
    if t >= n { SlotAfter(t - n, k, n); }
  }

  lemma {:induction false} DistinctSlots(a: nat, b: nat, n: nat)
    requires a < b < a + n
    ensures Slot(a, n) != Slot(b, n)
  {
    SlotAfter(a, b - a, n);
  }

  lemma {:induction false} SizeDivides(e: nat)
    requires e <= 31
    ensures 0 < Pow2(e) <= 0x8000_0000 && Pow2(32 - e) * Pow2(e) == WORD
  {
    Pow2Grows(e, 31);
    assert Pow2(31) == 0x8000_0000 && Pow2(32) == WORD by { BigPowers(); }
    Pow2Adds(32 - e, e);
    ShiftIsProduct(Pow2(32 - e), e);
  }

  lemma {:induction false} BigPowers()
    ensures Pow2(31) == 0x8000_0000 && Pow2(32) == WORD
  {
    assert Pow2(8) == 256;
    assert Pow2(16) == 65536 by { assert Pow2(12) == 4096; }
    assert Pow2(24) == 0x100_0000 by { assert Pow2(20) == 0x10_0000; }
    assert Pow2(28) == 0x1000_0000;
  }

  /** The mask of a wrapped counter is the slot of the counter itself. */
  lemma {:induction false} MaskIsSlot(t: nat, n: nat)
    requires Size(n)
    ensures 0 < n <= 0x8000_0000 && And(Wrap(t), n - 1) == Slot(t, n)
  {
    var e: nat :| e <= 31 && n == Pow2(e);
    SizeDivides(e);
    AndMask(Wrap(t), e);
    WrapSlot(t, Pow2(32 - e), n);
    SlotIsRemainder(t, n);
  }

  lemma {:induction false} WrapSlot(t: nat, p: nat, n: nat)
    requires 0 < n && p * n == WORD
    ensures Wrap(t) % n == t % n
  {
    var q, r := t / WORD, t % WORD;
    Euclid(r, n);
    assert t == q * (p * n) + (r / n * n + r % n);
    assert q * (p * n) + r / n * n == (q * p + r / n) * n;
    NatProduct(q, p);
    Multiples(q * p + r / n, r % n, n);
  }

  lemma {:induction false} NatProduct(a: nat, b: nat)
    ensures a * b >= 0
  {
  }

  lemma {:induction false} WrapSum(a: nat, b: nat)
    ensures Wrap(Wrap(a) + b) == Wrap(a + b)
  {
  }

  // ---------------------------------------------------------------- contents

  /** The slots from counter `from` on hold `bytes`. */
  ghost predicate Holds(buf: seq<Byte>, from: nat, bytes: seq<Byte>) {
    |bytes| <= |buf| && forall i :: 0 <= i < |bytes| ==> buf[Slot(from + i, |buf|)] == bytes[i]
  }

  /** Storing into the next free slot keeps every byte held. */
  lemma {:induction false} HoldsMore(buf: seq<Byte>, from: nat, bytes: seq<Byte>, b: Byte)
    requires Holds(buf, from, bytes) && |bytes| < |buf|
    ensures Holds(buf[Slot(from + |bytes|, |buf|) := b], from, bytes + [b])
  {
    var slot := Slot(from + |bytes|, |buf|);
    var buf', bytes' := buf[slot := b], bytes + [b];
    forall i | 0 <= i < |bytes'| ensures buf'[Slot(from + i, |buf'|)] == bytes'[i] {
      if i < |bytes| { DistinctSlots(from + i, from + |bytes|, |buf|); }
    }
  }

  lemma {:induction false} HoldsFewer(buf: seq<Byte>, from: nat, bytes: seq<Byte>, k: nat)
    requires Holds(buf, from, bytes) && k <= |bytes|
    ensures Holds(buf, from + k, bytes[k..])
  {
  }

  // ---------------------------------------------------------------- the two threads, one shared access at a time

  /** A message: memory from a pointer on, of which the first `len` bytes are the message. */
  datatype Message = Message(mem: nat -> Byte, len: nat)

  /** The first `k` bytes from the pointer on. */
  ghost function Take(m: Message, k: nat): (t: seq<Byte>)
    ensures |t| == k
  {
    if k == 0 then [] else Take(m, k - 1) + [m.mem(k - 1)]
  }

  /** A finished call of `rfifo_write`, with the length it returned. */
  datatype Write = Write(m: Message, len: nat)

  datatype Fifo = Fifo(buf: seq<Byte>, head: nat, tail: nat)

  /** Where the writer is in `rfifo_write`.  The macro `min` evaluates the free space once to compare it with the length
      and, if it is the smaller one, once more for its value. */
  datatype Writer = Idle | Comparing(m: Message) | Rereading(m: Message) | Copying(m: Message, len: nat, k: nat)

  /** Where the flusher is in `rfifo_flush`: before it, or `k` bytes into one of its two `pwrite`s. */
  datatype Flusher = Waiting | First(len: nat, l: nat, k: nat) | Second(len: nat, k: nat)

  datatype State = State(fifo: Fifo, writer: Writer, flusher: Flusher, file: seq<Byte>, writes: seq<Write>)

  datatype Action = Call(m: Message) | WriterMoves | FlusherMoves

  function Min(a: nat, b: nat): nat { if a < b then a else b }

  function Get(buf: seq<Byte>, i: nat): Byte { if i < |buf| then buf[i] else 0 }

  function Put(buf: seq<Byte>, i: nat, b: Byte): seq<Byte> { if i < |buf| then buf[i := b] else buf }

  /** A masked counter. */
  function Masked(f: Fifo, c: nat): nat {
    if |f.buf| == 0 then c else And(c, |f.buf| - 1)
  }

  function ToEnd(f: Fifo, c: nat): nat { Wrap(|f.buf| - Masked(f, c)) }

  /** The free space. */
  function Space(f: Fifo): nat { Wrap(|f.buf| - f.head + f.tail) }

  /** The bytes between the counters. */
  function Unread(f: Fifo): nat { Wrap(f.head - f.tail) }

  /** Where byte `k` of a write of `len` bytes goes: behind `in`, or at the start of the buffer. */
  function WriteIndex(f: Fifo, len: nat, k: nat): nat {
    var l := Min(len, ToEnd(f, f.head));
    if k < l then Masked(f, f.head) + k else k - l
  }

  function WriterNext(f: Fifo, w: Writer): Writer {
    match w
    case Idle => Idle
    case Comparing(m) => if m.len < Space(f) then Copying(m, m.len, 0) else Rereading(m)
    case Rereading(m) => Copying(m, Space(f), 0)
    case Copying(m, len, k) => if k < len then Copying(m, len, k + 1) else Idle
  }

  function WriterEffect(f: Fifo, w: Writer): Fifo {
    match w
    case Copying(m, len, k) =>
      if k < len then Fifo(Put(f.buf, WriteIndex(f, len, k), m.mem(k)), f.head, f.tail)
      else Fifo(f.buf, Wrap(f.head + len), f.tail)
    case _ => f
  }

  ghost function Finished(w: Writer, writes: seq<Write>): seq<Write> {
    if w.Copying? && w.k >= w.len then writes + [Write(w.m, w.len)] else writes
  }

  function FlusherNext(f: Fifo, p: Flusher): Flusher {
    match p
    case Waiting => First(Unread(f), Min(Unread(f), ToEnd(f, f.tail)), 0)
    case First(len, l, k) => if k < l then First(len, l, k + 1) else Second(Wrap(len - l), 0)
    case Second(len, k) => if k < len then Second(len, k + 1) else Waiting
  }

  function FlusherEffect(f: Fifo, p: Flusher): Fifo {
    match p
    case First(len, l, k) => if k < l then f else Fifo(f.buf, f.head, Wrap(f.tail + l))
    case Second(len, k) => if k < len then f else Fifo(f.buf, f.head, Wrap(f.tail + len))
    case _ => f
  }

  function Flushed(f: Fifo, p: Flusher, file: seq<Byte>): seq<Byte> {
    match p
    case First(len, l, k) => if k < l then file + [Get(f.buf, Masked(f, f.tail) + k)] else file
    case Second(len, k) => if k < len then file + [Get(f.buf, k)] else file
    case _ => file
  }

  ghost function Apply(s: State, a: Action): State {
    match a
    case Call(m) => if s.writer.Idle? then s.(writer := Comparing(m)) else s
    case WriterMoves =>
      State(WriterEffect(s.fifo, s.writer), WriterNext(s.fifo, s.writer), s.flusher, s.file,
        Finished(s.writer, s.writes))
    case FlusherMoves =>
      State(FlusherEffect(s.fifo, s.flusher), s.writer, FlusherNext(s.fifo, s.flusher),
        Flushed(s.fifo, s.flusher, s.file), s.writes)
  }

  ghost predicate Initial(s: State) {
    Size(|s.fifo.buf|) && s.fifo.head == 0 && s.fifo.tail == 0 && s.writer.Idle? && s.flusher.Waiting? && s.file == []
      && s.writes == []
  }

  ghost predicate Run(ss: seq<State>, acts: seq<Action>) {
    Follows(ss, acts) && Initial(ss[0])
  }

  ghost predicate Follows(ss: seq<State>, acts: seq<Action>) {
    |ss| == |acts| + 1 && forall i :: 0 <= i < |acts| ==> ss[i + 1] == Apply(ss[i], acts[i])
  }

  // ---------------------------------------------------------------- the invariant

  /** The bytes of all finished writes, in order. */
  ghost function Stored(ws: seq<Write>): seq<Byte> {
    if ws == [] then [] else Stored(ws[..|ws| - 1]) + Take(ws[|ws| - 1].m, ws[|ws| - 1].len)
  }

  /** The bytes the flusher has written to the file but not yet counted in `out`. */
  ghost function Done(p: Flusher): nat { if p.Waiting? then 0 else p.k }

  /** The bytes the writer has stored but not yet counted in `in`. */
  ghost function Copied(w: Writer): seq<Byte> { if w.Copying? then Take(w.m, w.k) else [] }

  /** The counters are those of `stored` and of its first `out` bytes, and the buffer holds the rest and what is being
      added. */
  ghost predicate Tracks(f: Fifo, stored: seq<Byte>, out: nat, added: seq<Byte>) {
    && Size(|f.buf|) && out <= |stored|
    && f.head == Wrap(|stored|) && f.tail == Wrap(out)
    && Holds(f.buf, out, stored[out..] + added)
  }

  ghost predicate WriterOk(w: Writer, free: int) {
    w.Copying? ==> w.k <= w.len <= free
  }

  ghost predicate FlusherOk(p: Flusher, n: nat, out: nat, in_: nat)
    requires 0 < n
  {
    match p
    case Waiting => true
    case First(len, l, k) => k <= l <= len && out + len <= in_ && (l == len || l == n - Slot(out, n))
      && l <= n - Slot(out, n)
    case Second(len, k) => k <= len && out + len <= in_ && len <= n && (len > 0 ==> Slot(out, n) == 0)
  }

  ghost function Out(s: State): int { |s.file| - Done(s.flusher) }

  ghost predicate Invariant(s: State) {
    var stored := Stored(s.writes);
    && s.file <= stored && 0 <= Out(s) && 0 < |s.fifo.buf|
    && Tracks(s.fifo, stored, Out(s), Copied(s.writer))
    && WriterOk(s.writer, |s.fifo.buf| - (|stored| - Out(s)))
    && FlusherOk(s.flusher, |s.fifo.buf|, Out(s), |stored|)
  }

  // ---------------------------------------------------------------- what the computations mean

  lemma {:induction false} SizeBound(n: nat)
    requires Size(n)
    ensures 0 < n <= 0x8000_0000
  {
    MaskIsSlot(0, n);
  }

  lemma {:induction false} Differences(n: nat, a: nat, b: nat)
    requires b <= a <= b + n && n <= 0x8000_0000
    ensures Wrap(Wrap(a) - Wrap(b)) == a - b && Wrap(n - Wrap(a) + Wrap(b)) == n - (a - b)
  {
  }

  lemma {:induction false} CountersMean(f: Fifo, stored: seq<Byte>, out: nat, added: seq<Byte>)
    requires Tracks(f, stored, out, added)
    ensures 0 < |f.buf| <= 0x8000_0000 && |stored| - out + |added| <= |f.buf|
    ensures Unread(f) == |stored| - out
    ensures Space(f) == |f.buf| - (|stored| - out)
  {
    SizeBound(|f.buf|);
    Differences(|f.buf|, |stored|, out);
  }

  lemma {:induction false} ToEndMeans(f: Fifo, c: nat)
    requires Size(|f.buf|)
    ensures 0 < |f.buf| && Masked(f, Wrap(c)) == Slot(c, |f.buf|) && ToEnd(f, Wrap(c)) == |f.buf| - Slot(c, |f.buf|)
  {
    MaskIsSlot(c, |f.buf|);
  }

  /** A byte is copied into the slot of its own position. */
  lemma {:induction false} WriteIndexMeans(f: Fifo, c: nat, len: nat, k: nat)
    requires Size(|f.buf|) && f.head == Wrap(c) && k < len <= |f.buf|
    ensures WriteIndex(f, len, k) == Slot(c + k, |f.buf|)
  {
    ToEndMeans(f, c);
    SlotAfter(c, k, |f.buf|);
  }

  // ---------------------------------------------------------------- the writer's steps

  lemma {:induction false} HoldsStored(buf: seq<Byte>, stored: seq<Byte>, out: nat, added: seq<Byte>, b: Byte, i: nat)
    requires out <= |stored| && Holds(buf, out, stored[out..] + added)
    requires |stored| - out + |added| < |buf| && i == Slot(|stored| + |added|, |buf|)
    ensures Holds(buf[i := b], out, stored[out..] + (added + [b]))
  {
    var live := stored[out..] + added;
    assert out + |live| == |stored| + |added|;
    assert live + [b] == stored[out..] + (added + [b]);
    HoldsMore(buf, out, live, b);
  }

  lemma {:induction false} StoreKeeps(f: Fifo, stored: seq<Byte>, out: nat, added: seq<Byte>, b: Byte, i: nat)
    requires Tracks(f, stored, out, added) && |stored| - out + |added| < |f.buf|
             && i == Slot(|stored| + |added|, |f.buf|)
    ensures Tracks(Fifo(f.buf[i := b], f.head, f.tail), stored, out, added + [b])
  {
    HoldsStored(f.buf, stored, out, added, b, i);
  }

  lemma {:induction false} CopyKeeps(f: Fifo, stored: seq<Byte>, out: nat, m: Message, len: nat, k: nat)
    requires Tracks(f, stored, out, Take(m, k)) && k < len && |stored| - out + len <= |f.buf|
    ensures Tracks(WriterEffect(f, Copying(m, len, k)), stored, out, Take(m, k + 1))
    ensures |WriterEffect(f, Copying(m, len, k)).buf| == |f.buf|
  {
    WriteIndexMeans(f, |stored|, len, k);
    StoreKeeps(f, stored, out, Take(m, k), m.mem(k), WriteIndex(f, len, k));
  }

  lemma {:induction false} CountKeeps(f: Fifo, stored: seq<Byte>, out: nat, added: seq<Byte>)
    requires Tracks(f, stored, out, added)
    ensures Tracks(Fifo(f.buf, Wrap(f.head + |added|), f.tail), stored + added, out, [])
  {
    WrapSum(|stored|, |added|);
    assert (stored + added)[out..] + [] == stored[out..] + added;
  }

  lemma {:induction false} PublishKeeps(f: Fifo, stored: seq<Byte>, out: nat, m: Message, len: nat)
    requires Tracks(f, stored, out, Take(m, len))
    ensures Tracks(WriterEffect(f, Copying(m, len, len)), stored + Take(m, len), out, [])
  {
    CountKeeps(f, stored, out, Take(m, len));
  }

  lemma {:induction false} FinishedStored(writes: seq<Write>, m: Message, len: nat)
    ensures Stored(writes + [Write(m, len)]) == Stored(writes) + Take(m, len)
  {
  }

  // ---------------------------------------------------------------- the flusher's steps

  lemma {:induction false} ReadMeans(f: Fifo, stored: seq<Byte>, out: nat, added: seq<Byte>, k: nat)
    requires Tracks(f, stored, out, added) && out + k < |stored| && 0 < |f.buf|
    ensures f.buf[Slot(out + k, |f.buf|)] == stored[out + k]
  {
    assert (stored[out..] + added)[k] == stored[out + k];
  }

  lemma {:induction false} AdvanceKeeps(f: Fifo, stored: seq<Byte>, out: nat, added: seq<Byte>, l: nat)
    requires Tracks(f, stored, out, added) && out + l <= |stored|
    ensures Tracks(Fifo(f.buf, f.head, Wrap(f.tail + l)), stored, out + l, added)
  {
    WrapSum(out, l);
    HoldsFewer(f.buf, out, stored[out..] + added, l);
    assert (stored[out..] + added)[l..] == stored[out + l..] + added;
  }

  // ---------------------------------------------------------------- every step keeps the invariant

  lemma {:induction false} CopyingKeeps(s: State)
    requires Invariant(s) && s.writer.Copying? && s.writer.k < s.writer.len
    ensures Invariant(Apply(s, WriterMoves))
  {
    var m, len, k := s.writer.m, s.writer.len, s.writer.k;
    CopyKeeps(s.fifo, Stored(s.writes), Out(s), m, len, k);
    var f' := WriterEffect(s.fifo, Copying(m, len, k));
    assert Apply(s, WriterMoves) == State(f', Copying(m, len, k + 1), s.flusher, s.file, s.writes);
  }

  lemma {:induction false} PublishingKeeps(s: State)
    requires Invariant(s) && s.writer.Copying? && s.writer.k == s.writer.len
    ensures Invariant(Apply(s, WriterMoves))
  {
    PublishKeeps(s.fifo, Stored(s.writes), Out(s), s.writer.m, s.writer.len);
    FinishedStored(s.writes, s.writer.m, s.writer.len);
  }

  lemma {:induction false} WriterKeeps(s: State)
    requires Invariant(s)
    ensures Invariant(Apply(s, WriterMoves))
  {
    if s.writer.Copying? {
      if s.writer.k < s.writer.len { CopyingKeeps(s); } else { PublishingKeeps(s); }
    } else {
      CountersMean(s.fifo, Stored(s.writes), Out(s), []);
    }
  }

  lemma {:induction false} FlushBegins(s: State)
    requires Invariant(s) && s.flusher.Waiting?
    ensures Invariant(Apply(s, FlusherMoves))
  {
    CountersMean(s.fifo, Stored(s.writes), Out(s), Copied(s.writer));
    ToEndMeans(s.fifo, Out(s));
  }

  lemma {:induction false} PrefixGrows(file: seq<Byte>, stored: seq<Byte>, b: Byte)
    requires file <= stored && |file| < |stored| && b == stored[|file|]
    ensures file + [b] <= stored
  {
  }

  lemma {:induction false} FirstRead(f: Fifo, stored: seq<Byte>, out: nat, added: seq<Byte>, k: nat)
    requires Tracks(f, stored, out, added) && out + k < |stored| && 0 < |f.buf| && Slot(out, |f.buf|) + k < |f.buf|
    ensures Get(f.buf, Masked(f, f.tail) + k) == stored[out + k]
  {
    ToEndMeans(f, out);
    SlotAfter(out, k, |f.buf|);
    ReadMeans(f, stored, out, added, k);
  }

  /** A byte of the first `pwrite`. */
  lemma {:induction false} FirstPart(s: State)
    requires Invariant(s) && s.flusher.First? && s.flusher.k < s.flusher.l
    ensures Invariant(Apply(s, FlusherMoves))
  {
    var k := s.flusher.k;
    FirstRead(s.fifo, Stored(s.writes), Out(s), Copied(s.writer), k);
    PrefixGrows(s.file, Stored(s.writes), Get(s.fifo.buf, Masked(s.fifo, s.fifo.tail) + k));
  }

  lemma {:induction false} SecondRead(f: Fifo, stored: seq<Byte>, out: nat, added: seq<Byte>, k: nat)
    requires Tracks(f, stored, out, added) && out + k < |stored| && k < |f.buf| && Slot(out, |f.buf|) == 0
    ensures Get(f.buf, k) == stored[out + k]
  {
    SlotAfter(out, k, |f.buf|);
    ReadMeans(f, stored, out, added, k);
  }

  /** A byte of the second `pwrite`. */
  lemma {:induction false} SecondPart(s: State)
    requires Invariant(s) && s.flusher.Second? && s.flusher.k < s.flusher.len
    ensures Invariant(Apply(s, FlusherMoves))
  {
    var k := s.flusher.k;
    SecondRead(s.fifo, Stored(s.writes), Out(s), Copied(s.writer), k);
    PrefixGrows(s.file, Stored(s.writes), Get(s.fifo.buf, k));
  }

  lemma {:induction false} SecondBegins(n: nat, out: nat, in_: nat, len: nat, l: nat)
    requires 0 < n <= 0x8000_0000 && in_ <= out + n && FlusherOk(First(len, l, l), n, out, in_)
    ensures FlusherOk(Second(Wrap(len - l), 0), n, out + l, in_)
  {
    assert Wrap(len - l) == len - l;
    if l < len { SlotAfter(out, l, n); }
  }

  lemma {:induction false} SecondReady(f: Fifo, stored: seq<Byte>, out: nat, added: seq<Byte>, len: nat, l: nat)
    requires 0 < |f.buf| && Tracks(f, stored, out, added) && FlusherOk(First(len, l, l), |f.buf|, out, |stored|)
    ensures FlusherOk(Second(Wrap(len - l), 0), |f.buf|, out + l, |stored|)
  {
    CountersMean(f, stored, out, added);
    SecondBegins(|f.buf|, out, |stored|, len, l);
  }

  lemma {:induction false} FirstCounted(s: State)
    requires Invariant(s) && s.flusher.First? && s.flusher.k == s.flusher.l
    ensures Invariant(Apply(s, FlusherMoves))
  {
    AdvanceKeeps(s.fifo, Stored(s.writes), Out(s), Copied(s.writer), s.flusher.l);
    SecondReady(s.fifo, Stored(s.writes), Out(s), Copied(s.writer), s.flusher.len, s.flusher.l);
  }

  lemma {:induction false} SecondCounted(s: State)
    requires Invariant(s) && s.flusher.Second? && s.flusher.k == s.flusher.len
    ensures Invariant(Apply(s, FlusherMoves))
  {
    AdvanceKeeps(s.fifo, Stored(s.writes), Out(s), Copied(s.writer), s.flusher.len);
  }

  lemma {:induction false} StepKeepsInvariant(s: State, a: Action)
    requires Invariant(s)
    ensures Invariant(Apply(s, a))
  {
    match a
    case Call(m) =>
    case WriterMoves => WriterKeeps(s);
    case FlusherMoves =>
      match s.flusher
      case Waiting => FlushBegins(s);
      case First(len, l, k) => if k < l { FirstPart(s); } else { FirstCounted(s); }
      case Second(len, k) => if k < len { SecondPart(s); } else { SecondCounted(s); }
  }

  lemma {:induction false} RunKeepsInvariant(ss: seq<State>, acts: seq<Action>)
    requires Run(ss, acts)
    ensures Invariant(ss[|acts|])
  {
    if acts == [] {
      SizeBound(|ss[0].fifo.buf|);
    } else {
      var n := |acts| - 1;
      RunKeepsInvariant(ss[..|ss| - 1], acts[..n]);
      StepKeepsInvariant(ss[n], acts[n]);
    }
  }

  // ---------------------------------------------------------------- the buffer is a queue

  /** The bytes still to be written to the file, read through the masked 32-bit counters. */
  ghost function Buffered(s: State): seq<Byte> {
    BufferedFrom(s.fifo, Done(s.flusher))
  }

  ghost function BufferedFrom(f: Fifo, k: nat): seq<Byte>
    decreases Unread(f) - k
  {
    if k < Unread(f) then [Get(f.buf, Masked(f, Wrap(f.tail + k)))] + BufferedFrom(f, k + 1) else []
  }

  lemma {:induction false} MaskedRead(f: Fifo, stored: seq<Byte>, out: nat, added: seq<Byte>, k: nat)
    requires Tracks(f, stored, out, added) && out + k < |stored|
    ensures Get(f.buf, Masked(f, Wrap(f.tail + k))) == stored[out + k]
  {
    WrapSum(out, k);
    ToEndMeans(f, out + k);
    ReadMeans(f, stored, out, added, k);
  }

  lemma {:induction false} BufferedMeans(f: Fifo, stored: seq<Byte>, out: nat, added: seq<Byte>, k: nat)
    requires Tracks(f, stored, out, added) && out + k <= |stored|
    ensures BufferedFrom(f, k) == stored[out + k..]
    decreases |stored| - k
  {
    CountersMean(f, stored, out, added);
    if out + k < |stored| {
      MaskedRead(f, stored, out, added, k);
      BufferedMeans(f, stored, out, added, k + 1);
      assert stored[out + k..] == [stored[out + k]] + stored[out + (k + 1)..];
    }
  }

  /** In every run of one writer and one flusher the file followed by the buffer is what the finished writes stored, and
      no more is buffered than fits. */
  lemma {:induction false} FileThenBuffer(ss: seq<State>, acts: seq<Action>)
    requires Run(ss, acts)
    ensures var s := ss[|acts|];
            s.file + Buffered(s) == Stored(s.writes) && Unread(s.fifo) <= |s.fifo.buf| == |ss[0].fifo.buf|
  {
    RunKeepsInvariant(ss, acts);
    BufferKept(ss, acts);
    var s := ss[|acts|];
    var stored := Stored(s.writes);
    CountersMean(s.fifo, stored, Out(s), Copied(s.writer));
    BufferedMeans(s.fifo, stored, Out(s), Copied(s.writer), Done(s.flusher));
    assert s.file == stored[..|s.file|];
  }

  lemma {:induction false} BufferKept(ss: seq<State>, acts: seq<Action>)
    requires Run(ss, acts)
    ensures |ss[|acts|].fifo.buf| == |ss[0].fifo.buf|
  {
    if acts != [] {
      BufferKept(ss[..|ss| - 1], acts[..|acts| - 1]);
    }
  }

  /** No step stores into the slot of an unread byte. */
  lemma {:induction false} UnreadIsKept(s: State, a: Action, k: nat)
    requires Invariant(s) && k < Unread(s.fifo)
    ensures var i := Masked(s.fifo, Wrap(s.fifo.tail + k)); i < |s.fifo.buf| && Apply(s, a).fifo.buf[i] == s.fifo.buf[i]
  {
    var f, stored := s.fifo, Stored(s.writes);
    CountersMean(f, stored, Out(s), Copied(s.writer));
    MaskedSlot(f, stored, Out(s), Copied(s.writer), k);
    if a.WriterMoves? && s.writer.Copying? && s.writer.k < s.writer.len {
      CopyMisses(f, stored, Out(s), Copied(s.writer), s.writer.len, s.writer.k, k);
    }
  }

  lemma {:induction false} MaskedSlot(f: Fifo, stored: seq<Byte>, out: nat, added: seq<Byte>, k: nat)
    requires Tracks(f, stored, out, added)
    ensures 0 < |f.buf| && Masked(f, Wrap(f.tail + k)) == Slot(out + k, |f.buf|)
  {
    WrapSum(out, k);
    ToEndMeans(f, out + k);
  }

  lemma {:induction false} CopyMisses(f: Fifo, stored: seq<Byte>, out: nat, added: seq<Byte>, len: nat, j: nat, k: nat)
    requires Tracks(f, stored, out, added) && j < len && |stored| - out + len <= |f.buf| && out + k < |stored|
    ensures 0 < |f.buf| && WriteIndex(f, len, j) != Slot(out + k, |f.buf|)
  {
    WriteIndexMeans(f, |stored|, len, j);
    DistinctSlots(out + k, |stored| + j, |f.buf|);
  }

  // ---------------------------------------------------------------- what is accepted of a message

  /** What is stored is the beginning of the message, not more. */
  ghost predicate Prefixes(s: State) {
    && (forall i :: 0 <= i < |s.writes| ==> s.writes[i].len <= s.writes[i].m.len)
    && (s.writer.Copying? ==> s.writer.len <= s.writer.m.len)
  }

  /** What a caller can see before the call: the message is shorter than the free space, or not shorter than the
      buffer. */
  ghost predicate Safe(f: Fifo, m: Message) { m.len < Space(f) || |f.buf| <= m.len }

  /** A call made after the writes `ws` stores, or has stored, no more than its message. */
  ghost predicate StoresPrefix(ws: seq<Write>, m: Message, t: State) {
    && (t.writer.Copying? ==> t.writer.len <= m.len)
    && (|ws| < |t.writes| ==> t.writes[|ws|].len <= m.len)
  }

  /** The same, with where the call can be. */
  ghost predicate Accepting(ws: seq<Write>, m: Message, t: State) {
    match t.writer
    case Idle => |t.writes| == |ws| + 1 && ws == t.writes[..|ws|] && t.writes[|ws|].m == m
      && t.writes[|ws|].len <= m.len
    case Comparing(n) => n == m && t.writes == ws
    case Rereading(n) => n == m && t.writes == ws
    case Copying(n, len, k) => n == m && t.writes == ws && len <= m.len
  }

  datatype Thread = TheWriter | TheFlusher

  function Move(x: Thread): Action { if x.TheWriter? then WriterMoves else FlusherMoves }

  /** The two threads go on in the given order. */
  ghost function Continued(s: State, order: seq<Thread>): State
    decreases |order|
  {
    if order == [] then s else Continued(Apply(s, Move(order[0])), order[1..])
  }

  lemma {:induction false} ContinuedTwice(s: State, a: seq<Thread>, b: seq<Thread>)
    ensures Continued(s, a + b) == Continued(Continued(s, a), b)
    decreases |a|
  {
    if a == [] {
      assert a + b == b;
    } else {
      assert (a + b)[1..] == a[1..] + b;
      ContinuedTwice(Apply(s, Move(a[0])), a[1..], b);
    }
  }

  /** The free space never exceeds the buffer, and only the end of a write takes any away. */
  lemma {:induction false} SpaceGrows(s: State, x: Thread)
    requires Invariant(s)
    ensures var t := Apply(s, Move(x));
            Space(s.fifo) <= |s.fifo.buf| == |t.fifo.buf| && (t.writes == s.writes ==> Space(s.fifo) <= Space(t.fifo))
  {
    var t := Apply(s, Move(x));
    StepKeepsInvariant(s, Move(x));
    CountersMean(s.fifo, Stored(s.writes), Out(s), Copied(s.writer));
    CountersMean(t.fifo, Stored(t.writes), Out(t), Copied(t.writer));
    OutGrows(s, x);
  }

  lemma {:induction false} OutGrows(s: State, x: Thread)
    requires Invariant(s)
    ensures Out(s) <= Out(Apply(s, Move(x))) && |Apply(s, Move(x)).fifo.buf| == |s.fifo.buf|
  {
  }

  /** While a safe call goes on: before the second reading it stays safe, and a second reading happens only with a
      message not shorter than the buffer. */
  ghost predicate StaysSafe(ws: seq<Write>, m: Message, t: State) {
    && Accepting(ws, m, t)
    && (t.writer.Comparing? ==> Safe(t.fifo, m)) && (t.writer.Rereading? ==> |t.fifo.buf| <= m.len)
  }

  lemma {:induction false} SafeStep(ws: seq<Write>, m: Message, t: State, x: Thread)
    requires Invariant(t) && StaysSafe(ws, m, t)
    ensures StaysSafe(ws, m, Apply(t, Move(x)))
  {
    SpaceGrows(t, x);
  }

  lemma {:induction false} SafeCallAccepts(ws: seq<Write>, m: Message, t: State, order: seq<Thread>)
    requires Invariant(t) && StaysSafe(ws, m, t)
    ensures StoresPrefix(ws, m, Continued(t, order))
    decreases |order|
  {
    if order != [] {
      StepKeepsInvariant(t, Move(order[0]));
      SafeStep(ws, m, t, order[0]);
      SafeCallAccepts(ws, m, Apply(t, Move(order[0])), order[1..]);
    }
  }

  // The flusher alone.

  /** From `s` the flusher alone has come to `t`, counting `n` more bytes as flushed. */
  ghost predicate FlushedOn(s: State, t: State, n: int) {
    Invariant(t) && t.writer == s.writer && t.writes == s.writes && |t.fifo.buf| == |s.fifo.buf| && Out(t) == Out(s) + n
  }

  lemma {:induction false} FlusherStep(s: State)
    requires Invariant(s)
    ensures var t := Apply(s, FlusherMoves);
            FlushedOn(s, t, match s.flusher case Waiting => 0
                                            case First(len, l, k) => if k < l then 0 else l
                                            case Second(len, k) => if k < len then 0 else len)
  {
    StepKeepsInvariant(s, FlusherMoves);
  }

  /** A second `pwrite` comes to its end. */
  lemma {:induction false} SecondEnds(s: State) returns (order: seq<Thread>)
    requires Invariant(s) && s.flusher.Second?
    ensures (forall x :: x in order ==> x == TheFlusher)
    ensures var t := Continued(s, order); FlushedOn(s, t, s.flusher.len) && t.flusher.Waiting?
    decreases s.flusher.len - s.flusher.k
  {
    var t := Apply(s, FlusherMoves);
    FlusherStep(s);
    order := [];
    if s.flusher.k < s.flusher.len { order := SecondEnds(t); }
    OneMore(s, order);
    order := [TheFlusher] + order;
  }

  lemma {:induction false} OneMore(s: State, order: seq<Thread>)
    ensures Continued(s, [TheFlusher] + order) == Continued(Apply(s, FlusherMoves), order)
  {
    assert ([TheFlusher] + order)[1..] == order;
  }

  /** A flush that has begun comes to its end. */
  lemma {:induction false} FirstEnds(s: State) returns (order: seq<Thread>)
    requires Invariant(s) && s.flusher.First?
    ensures (forall x :: x in order ==> x == TheFlusher)
    ensures var t := Continued(s, order); FlushedOn(s, t, s.flusher.len) && t.flusher.Waiting?
    decreases s.flusher.l - s.flusher.k
  {
    var t := Apply(s, FlusherMoves);
    FlusherStep(s);
    if s.flusher.k < s.flusher.l {
      order := FirstEnds(t);
    } else {
      SecondLength(s);
      order := SecondEnds(t);
    }
    OneMore(s, order);
    order := [TheFlusher] + order;
  }

  lemma {:induction false} SecondLength(s: State)
    requires Invariant(s) && s.flusher.First?
    ensures Wrap(s.flusher.len - s.flusher.l) == s.flusher.len - s.flusher.l
  {
    CountersMean(s.fifo, Stored(s.writes), Out(s), Copied(s.writer));
    NoWrap(s.flusher.len - s.flusher.l);
  }

  lemma {:induction false} NoWrap(x: nat)
    ensures x <= 0x8000_0000 ==> Wrap(x) == x
  {
  }

  /** A whole flush writes out everything that was waiting. */
  lemma {:induction false} FlushEnds(s: State) returns (order: seq<Thread>)
    requires Invariant(s) && s.flusher.Waiting?
    ensures (forall x :: x in order ==> x == TheFlusher)
    ensures var t := Continued(s, order); FlushedOn(s, t, Unread(s.fifo)) && t.flusher.Waiting? && Unread(t.fifo) == 0
  {
    FlusherStep(s);
    order := FirstEnds(Apply(s, FlusherMoves));
    OneMore(s, order);
    order := [TheFlusher] + order;
    var t := Continued(s, order);
    CountersMean(s.fifo, Stored(s.writes), Out(s), Copied(s.writer));
    CountersMean(t.fifo, Stored(t.writes), Out(t), Copied(t.writer));
  }

  /** The flusher alone empties the buffer, wherever it is. */
  lemma {:induction false} FlusherDrains(s: State) returns (order: seq<Thread>)
    requires Invariant(s)
    ensures var t := Continued(s, order);
            Invariant(t) && t.writer == s.writer && |t.fifo.buf| == |s.fifo.buf| && Space(t.fifo) == |t.fifo.buf|
  {
    var first := [];
    match s.flusher {
      case Waiting =>
      case First(_, _, _) => first := FirstEnds(s);
      case Second(_, _) => first := SecondEnds(s);
    }
    var rest := FlushEnds(Continued(s, first));
    order := first + rest;
    ContinuedTwice(s, first, rest);
    var t := Continued(s, order);
    CountersMean(t.fifo, Stored(t.writes), Out(t), Copied(t.writer));
  }

  /** An unsafe call can be made to store more than its message: it compares, the flusher empties the buffer, it reads
      again. */
  lemma {:induction false} UnsafeCallExceeds(s: State, m: Message) returns (order: seq<Thread>)
    requires Invariant(s) && s.writer.Idle? && !Safe(s.fifo, m)
    ensures !StoresPrefix(s.writes, m, Continued(Apply(s, Call(m)), order))
  {
    var called := Apply(s, Call(m));
    StepKeepsInvariant(s, Call(m));
    StepKeepsInvariant(called, WriterMoves);
    var compared := Continued(called, [TheWriter]);
    assert compared == Apply(called, WriterMoves);
    var flush := FlusherDrains(compared);
    order := [TheWriter] + flush + [TheWriter];
    ContinuedTwice(called, [TheWriter], flush);
    ContinuedTwice(called, [TheWriter] + flush, [TheWriter]);
    var drained := Continued(compared, flush);
    assert Continued(drained, [TheWriter]) == Apply(drained, WriterMoves);
  }

  /** Whatever order the two threads go on in, a call stores a prefix of its message if and only if, when it is made,
      the message is shorter than the free space or not shorter than the buffer. */
  lemma {:induction false} AcceptsPrefixes(s: State, m: Message)
    requires Invariant(s) && s.writer.Idle?
    ensures (forall order :: StoresPrefix(s.writes, m, Continued(Apply(s, Call(m)), order))) <==> Safe(s.fifo, m)
  {
    var called := Apply(s, Call(m));
    if Safe(s.fifo, m) {
      StepKeepsInvariant(s, Call(m));
      forall order ensures StoresPrefix(s.writes, m, Continued(called, order)) {
        SafeCallAccepts(s.writes, m, called, order);
      }
    } else {
      var order := UnsafeCallExceeds(s, m);
    }
  }

  /** Every call of a run was safe when it was made. */
  ghost predicate SafeCalls(ss: seq<State>, acts: seq<Action>)
    requires |ss| == |acts| + 1
  {
    forall i :: 0 <= i < |acts| && acts[i].Call? && ss[i].writer.Idle? ==> Safe(ss[i].fifo, acts[i].m)
  }

  /** What a run of safe calls keeps. */
  ghost predicate AllSafe(s: State) {
    && Prefixes(s)
    && (s.writer.Comparing? ==> Safe(s.fifo, s.writer.m)) && (s.writer.Rereading? ==> |s.fifo.buf| <= s.writer.m.len)
  }

  lemma {:induction false} AllSafeStep(s: State, a: Action)
    requires Invariant(s) && AllSafe(s) && (a.Call? && s.writer.Idle? ==> Safe(s.fifo, a.m))
    ensures AllSafe(Apply(s, a))
  {
    if !a.Call? { SpaceGrows(s, if a.WriterMoves? then TheWriter else TheFlusher); }
  }

  /** In every run of safe calls each write stores a prefix of its message. */
  lemma {:induction false} SafeRunStoresPrefixes(ss: seq<State>, acts: seq<Action>)
    requires Run(ss, acts) && SafeCalls(ss, acts)
    ensures AllSafe(ss[|acts|])
  {
    if acts != [] {
      var n := |acts| - 1;
      var ts, bs := ss[..|ss| - 1], acts[..n];
      SafeRunStoresPrefixes(ts, bs);
      RunKeepsInvariant(ts, bs);
      AllSafeStep(ss[n], acts[n]);
    }
  }

  /** The states of a run of `acts` from `s` on. */
  ghost function States(s: State, acts: seq<Action>): (ss: seq<State>)
    ensures Follows(ss, acts) && ss[0] == s
    decreases |acts|
  {
    if acts == [] then [s] else
      var ss := States(Apply(s, acts[0]), acts[1..]);
      assert forall i :: 0 < i < |acts| ==> acts[1..][i - 1] == acts[i];
      assert forall i :: 0 < i < |acts| ==> ([s] + ss)[i] == ss[i - 1];
      [s] + ss
  }

  /** A two-byte message fills a buffer of two bytes. */
  lemma {:induction false} FillsUp(buf: seq<Byte>, m: Message, ss: seq<State>, acts: seq<Action>)
    requires Follows(ss, acts) && |acts| >= 6 && acts[0] == Call(m) && forall i :: 1 <= i < 6 ==> acts[i] == WriterMoves
    requires |buf| == 2 && m.len == 2 && ss[0] == State(Fifo(buf, 0, 0), Idle, Waiting, [], [])
    ensures ss[6] == State(Fifo([m.mem(0), m.mem(1)], 2, 0), Idle, Waiting, [], [Write(m, 2)])
  {
    assert ss[1] == State(Fifo(buf, 0, 0), Comparing(m), Waiting, [], []);
    assert ss[2] == State(Fifo(buf, 0, 0), Rereading(m), Waiting, [], []);
    assert ss[3] == State(Fifo(buf, 0, 0), Copying(m, 2, 0), Waiting, [], []);
    assert ss[4] == State(Fifo([m.mem(0), buf[1]], 0, 0), Copying(m, 2, 1), Waiting, [], []);
    assert ss[5] == State(Fifo([m.mem(0), m.mem(1)], 0, 0), Copying(m, 2, 2), Waiting, [], []);
  }

  /** A full buffer is flushed between the two readings for the next message. */
  lemma {:induction false} FlushedBetween(buf: seq<Byte>, ws: seq<Write>, m: Message, ss: seq<State>, acts: seq<Action>)
    requires Follows(ss, acts) && |acts| == 13 && acts[6] == Call(m) && acts[7] == acts[12] == WriterMoves
    requires forall i :: 8 <= i < 12 ==> acts[i] == FlusherMoves
    requires |buf| == 2 && m.len == 1 && ss[6] == State(Fifo(buf, 2, 0), Idle, Waiting, [], ws)
    ensures ss[13].writer == Copying(m, 2, 0)
  {
    assert ss[7] == State(Fifo(buf, 2, 0), Comparing(m), Waiting, [], ws);
    assert ss[8] == State(Fifo(buf, 2, 0), Rereading(m), Waiting, [], ws);
    assert ss[9] == State(Fifo(buf, 2, 0), Rereading(m), First(2, 2, 0), [], ws);
    assert ss[10] == State(Fifo(buf, 2, 0), Rereading(m), First(2, 2, 1), [buf[0]], ws);
    assert ss[11] == State(Fifo(buf, 2, 0), Rereading(m), First(2, 2, 2), [buf[0], buf[1]], ws);
    assert ss[12] == State(Fifo(buf, 2, 2), Rereading(m), Second(0, 0), [buf[0], buf[1]], ws);
  }

  /** It can happen: a one-byte message meets a full buffer of two bytes, which is flushed before the second reading. */
  lemma {:induction false} SecondReadingCanGrow(buf: seq<Byte>, mem: nat -> Byte)
    returns (ss: seq<State>, acts: seq<Action>)
    requires |buf| == 2
    ensures Run(ss, acts) && !Prefixes(ss[|acts|])
  {
    var w, f := WriterMoves, FlusherMoves;
    var m2, m1 := Message(mem, 2), Message(mem, 1);
    acts := [Call(m2), w, w, w, w, w, Call(m1), w, f, f, f, f, w];
    ss := States(State(Fifo(buf, 0, 0), Idle, Waiting, [], []), acts);
    assert Size(2) by { assert Pow2(1) == 2; }
    FillsUp(buf, m2, ss, acts);
    FlushedBetween([mem(0), mem(1)], [Write(m2, 2)], m1, ss, acts);
  }

  // ---------------------------------------------------------------- each thread alone

  /** What is waiting in a state between operations. */
  lemma {:induction false} WaitingBytes(s: State)
    requires Invariant(s)
    ensures Buffered(s) == Stored(s.writes)[|s.file|..] && s.file == Stored(s.writes)[..|s.file|]
    ensures s.flusher.Waiting? ==> |Buffered(s)| == Unread(s.fifo) && Space(s.fifo) == |s.fifo.buf| - |Buffered(s)|
  {
    CountersMean(s.fifo, Stored(s.writes), Out(s), Copied(s.writer));
    BufferedMeans(s.fifo, Stored(s.writes), Out(s), Copied(s.writer), Done(s.flusher));
  }

  lemma {:induction false} OneMoreWrite(s: State, order: seq<Thread>)
    ensures Continued(s, [TheWriter] + order) == Continued(Apply(s, WriterMoves), order)
  {
    assert ([TheWriter] + order)[1..] == order;
  }

  lemma {:induction false} CopyEnds(s: State) returns (order: seq<Thread>)
    requires Invariant(s) && s.writer.Copying?
    ensures forall x :: x in order ==> x == TheWriter
    ensures var t := Continued(s, order);
            Invariant(t) && t.writer.Idle? && t.flusher == s.flusher && t.file == s.file
              && t.writes == s.writes + [Write(s.writer.m, s.writer.len)]
    decreases s.writer.len - s.writer.k
  {
    StepKeepsInvariant(s, WriterMoves);
    order := [];
    if s.writer.k < s.writer.len { order := CopyEnds(Apply(s, WriterMoves)); }
    OneMoreWrite(s, order);
    order := [TheWriter] + order;
  }

  /** The two readings of a call that runs alone. */
  lemma {:induction false} ReadsAlone(s: State, m: Message) returns (order: seq<Thread>)
    requires Invariant(s) && s.writer == Comparing(m)
    ensures forall x :: x in order ==> x == TheWriter
    ensures var t := Continued(s, order); Invariant(t) && t == s.(writer := Copying(m, Min(m.len, Space(s.fifo)), 0))
  {
    StepKeepsInvariant(s, WriterMoves);
    var t := Apply(s, WriterMoves);
    order := [TheWriter];
    assert Continued(s, order) == t;
    if t.writer.Rereading? {
      StepKeepsInvariant(t, WriterMoves);
      order := [TheWriter, TheWriter];
      assert order[1..] == [TheWriter];
      assert Continued(s, order) == Continued(t, [TheWriter]) == Apply(t, WriterMoves);
    }
  }

  /** A call of `rfifo_write` that runs alone is what `Rfifo.Write` specifies: it appends as much of the message as
      fits. */
  lemma {:induction false} WriterAlone(s: State, m: Message) returns (order: seq<Thread>)
    requires Invariant(s) && s.writer.Idle? && s.flusher.Waiting?
    ensures forall x :: x in order ==> x == TheWriter
    ensures var t := Continued(Apply(s, Call(m)), order); var len := Min(m.len, Space(s.fifo));
            && Invariant(t) && t.writer.Idle? && t.flusher.Waiting? && t.file == s.file
            && t.writes == s.writes + [Write(m, len)]
            && Space(s.fifo) == |s.fifo.buf| - |Buffered(s)| && Buffered(t) == Buffered(s) + Take(m, len)
  {
    var called := Apply(s, Call(m));
    StepKeepsInvariant(s, Call(m));
    var first := ReadsAlone(called, m);
    var copies := CopyEnds(Continued(called, first));
    order := first + copies;
    ContinuedTwice(called, first, copies);
    WaitingBytes(s);
    Appended(s, Continued(called, order), m, Min(m.len, Space(s.fifo)));
  }

  lemma {:induction false} Appended(s: State, t: State, m: Message, len: nat)
    requires Invariant(s) && Invariant(t) && t.file == s.file && t.writes == s.writes + [Write(m, len)]
    ensures Buffered(t) == Buffered(s) + Take(m, len)
  {
    WaitingBytes(s);
    WaitingBytes(t);
    FinishedStored(s.writes, m, len);
  }

  /** A flush that runs alone is what `Rfifo.Flush` specifies: it moves everything waiting to the end of the file. */
  lemma {:induction false} FlusherAlone(s: State) returns (order: seq<Thread>)
    requires Invariant(s) && s.flusher.Waiting?
    ensures forall x :: x in order ==> x == TheFlusher
    ensures var t := Continued(s, order);
            Invariant(t) && t.flusher.Waiting? && t.writer == s.writer && t.writes == s.writes
            && t.file == s.file + Buffered(s) && Buffered(t) == []
  {
    order := FlushEnds(s);
    AllWritten(s, Continued(s, order));
  }

  lemma {:induction false} AllWritten(s: State, t: State)
    requires Invariant(s) && Invariant(t) && t.writes == s.writes && t.flusher.Waiting? && Unread(t.fifo) == 0
    ensures t.file == s.file + Buffered(s) && Buffered(t) == []
  {
    WaitingBytes(s);
    WaitingBytes(t);
    var stored := Stored(s.writes);
    assert stored[..|s.file|] + stored[|s.file|..] == stored;
    assert |t.file| == |stored|;
  }

  // ---------------------------------------------------------------- the same operations, called one after the other

  ghost predicate Power(x: nat) { exists e: nat :: x == Pow2(e) }

  lemma {:induction false} PowerHalves(x: nat)
    requires x > 1
    ensures Power(x) <==> x % 2 == 0 && Power(x / 2)
  {
    if Power(x) {
      var e: nat :| x == Pow2(e);
      assert x == 2 * Pow2(e - 1) && x / 2 == Pow2(e - 1);
    }
    if x % 2 == 0 && Power(x / 2) {
      var e: nat :| x / 2 == Pow2(e);
      assert x == Pow2(e + 1);
    }
  }

  /** `size & (size - 1)` is zero exactly for powers of two. */
  lemma {:induction false} PowerTest(x: nat)
    requires x > 0
    ensures And(x, x - 1) == 0 <==> Power(x)
  {
    if x == 1 {
      assert x == Pow2(0);
    } else {
      PowerHalves(x);
      AndHalves(x, x - 1);
      if x % 2 == 0 { PowerTest(x / 2); } else { AndSelf(x / 2); }
    }
  }

  lemma {:induction false} AndSelf(x: nat)
    ensures And(x, x) == x
  {
    if x > 0 { AndSelf(x / 2); }
  }

  /** The variable of the loop of `roundup_pow_of_two` after `n` turns. */
  ghost function Doubled(n: nat): nat { if n == 0 then 1 else Wrap(2 * Doubled(n - 1)) }

  lemma {:induction false} NextPower(e: nat)
    requires e < 31
    ensures Wrap(2 * Pow2(e)) == Pow2(e + 1) <= 0x8000_0000
  {
    Pow2Grows(e + 1, 31);
    assert Pow2(31) == 0x8000_0000 by { BigPowers(); }
  }

  lemma {:induction false} DoubledIsPower(n: nat)
    requires n <= 31
    ensures Doubled(n) == Pow2(n)
  {
    if n > 0 {
      DoubledIsPower(n - 1);
      NextPower(n - 1);
    }
  }

  lemma {:induction false} DoubledIsLost(n: nat)
    requires n > 31
    ensures Doubled(n) == 0
  {
    if n > 32 {
      DoubledIsLost(n - 1);
    } else {
      DoubledIsPower(n - 1);
      BigPowers();
    }
  }

  /** For an argument above 1 that loop ends if and only if the argument is at most 2^31; above it the doubled bit is
      lost. */
  lemma {:induction false} RoundupEnds(x: nat)
    requires 1 < x < WORD
    ensures (exists n :: x <= Doubled(n)) <==> x <= 0x8000_0000
  {
    assert Pow2(31) == 0x8000_0000 by { BigPowers(); }
    DoubledIsPower(31);
    forall n: nat ensures Doubled(n) <= 0x8000_0000 {
      if n <= 31 {
        DoubledIsPower(n);
        Pow2Grows(n, 31);
      } else {
        DoubledIsLost(n);
      }
    }
  }

  /** `roundup_pow_of_two`, where it ends. */
  method RoundupPowOfTwo(x: nat) returns (ret: nat)
    requires x <= 0x8000_0000
    ensures x == 0 ==> ret == 0
    ensures x == 1 ==> ret == 2
    ensures x > 1 ==> Size(ret) && x <= ret < 2 * x
  {
    if x == 0 { return 0; }
    if x == 1 { return 2; }
    ret := 1;
    ghost var e: nat := 0;
    assert Pow2(31) == 0x8000_0000 by { BigPowers(); }
    while ret < x
      invariant 0 < ret == Pow2(e) == Doubled(e) && e <= 31 && ret < 2 * x
    {
      if e == 31 { assert false; }
      NextPower(e);
      ret := Wrap(2 * ret);
      e := e + 1;
    }
  }

  lemma {:induction false} SizeTest(x: nat)
    requires x <= 0x8000_0000
    ensures And(x, Wrap(x - 1)) == 0 <==> x == 0 || Size(x)
    ensures Size(1)
  {
    assert Size(1) by { assert Pow2(0) == 1; }
    if x > 0 {
      assert Wrap(x - 1) == x - 1;
      PowerTest(x);
      if Power(x) { SmallPower(x); }
    }
  }

  /** The size `rfifo_alloc` makes of the one asked for. */
  method RoundedSize(size: nat) returns (n: nat)
    requires size <= 0x8000_0000
    ensures size == 0 ==> n == 0
    ensures size > 0 ==> Size(n) && size <= n < 2 * size && (Size(size) ==> n == size)
  {
    n := size;
    SizeTest(size);
    if And(size, Wrap(size - 1)) != 0 {
      n := RoundupPowOfTwo(size);
    }
  }

  /** The split of a copy at the end of the buffer: the first part starts at the slot of the counter, the second at
      0. */
  lemma {:induction false} TwoParts(f: Fifo, c: nat, len: nat)
    requires Size(|f.buf|) && len <= |f.buf|
    ensures 0 < |f.buf| && And(Wrap(c), |f.buf| - 1) == Slot(c, |f.buf|)
    ensures var at := Slot(c, |f.buf|); var l := Min(len, Wrap(|f.buf| - at));
            at + l <= |f.buf| && l <= len && len - l <= |f.buf| && (l < len ==> Slot(c + l, |f.buf|) == 0)
  {
    ToEndMeans(f, c);
    SlotAfter(c, |f.buf| - Slot(c, |f.buf|), |f.buf|);
  }

  lemma {:induction false} SliceMeans(f: Fifo, stored: seq<Byte>, out: nat, at: nat, l: nat)
    requires Tracks(f, stored, out, []) && 0 < |f.buf| && at + l <= |f.buf| && out + l <= |stored|
    requires l > 0 ==> at == Slot(out, |f.buf|)
    ensures f.buf[at..at + l] == stored[out..out + l]
  {
    if l > 0 {
      SliceMeans(f, stored, out, at, l - 1);
      SlotAfter(out, l - 1, |f.buf|);
      ReadMeans(f, stored, out, [], l - 1);
      assert f.buf[at..at + l] == f.buf[at..at + (l - 1)] + [f.buf[at + (l - 1)]];
      assert stored[out..out + l] == stored[out..out + (l - 1)] + [stored[out + (l - 1)]];
    }
  }

  class Rfifo {
    var buffer: array<Byte>
    var head: nat
    var tail: nat
    ghost var stored: seq<Byte>
    ghost var out: nat

    ghost function Value(): Fifo
      reads this, buffer
    {
      Fifo(buffer[..], head, tail)
    }

    ghost predicate Valid()
      reads this, buffer
    {
      Tracks(Value(), stored, out, [])
    }

    /** The bytes waiting in the buffer. */
    ghost function Contents(): seq<Byte>
      reads this, buffer
      requires Valid()
    {
      stored[out..]
    }

    /** `rfifo_alloc`; of size 0 there is nothing to write into. */
    constructor (size: nat)
      requires size <= 0x8000_0000
      ensures fresh(buffer) && head == tail == 0 && size <= buffer.Length && (size > 0 ==> buffer.Length < 2 * size)
      ensures size == 0 || Size(size) ==> buffer.Length == size
      ensures size > 0 ==> Valid() && Contents() == []
    {
      var n := RoundedSize(size);
      buffer := new Byte[n](_ => 0);
      head, tail, stored, out := 0, 0, [], 0;
    }

    /** `memcpy` of bytes `from` to `to` of a message to an index of the buffer. */
    method CopyIn(msg: seq<Byte>, from: nat, to: nat, at: nat)
      requires from <= to <= |msg| && at + (to - from) <= buffer.Length && |stored| - out + to <= buffer.Length
      requires Tracks(Value(), stored, out, msg[..from])
      requires from < to ==> at == Slot(|stored| + from, buffer.Length)
      modifies buffer
      ensures Tracks(Value(), stored, out, msg[..to])
    {
      for k := from to to
        invariant Tracks(Value(), stored, out, msg[..k])
      {
        ghost var f := Value();
        SlotAfter(|stored| + from, k - from, buffer.Length);
        StoreKeeps(f, stored, out, msg[..k], msg[k], at + (k - from));
        assert msg[..k] + [msg[k]] == msg[..k + 1];
        buffer[at + (k - from)] := msg[k];
        assert buffer[..] == f.buf[at + (k - from) := msg[k]];
      }
    }

    /** The bytes between the counters, and the free space. */
    method Counts() returns (unread: nat, space: nat)
      requires Valid()
      ensures unread == |Contents()| && space == buffer.Length - |Contents()| && 0 < buffer.Length
    {
      CountersMean(Value(), stored, out, []);
      unread, space := Wrap(head - tail), Wrap(buffer.Length - head + tail);
    }

    /** Where a copy of `len` bytes at a counter starts, and how many of them are in front of the end of the buffer. */
    method Split(c: nat, len: nat, ghost position: nat) returns (at: nat, l: nat)
      requires Size(buffer.Length) && len <= buffer.Length && c == Wrap(position)
      ensures 0 < buffer.Length && at == Slot(position, buffer.Length) && at + l <= buffer.Length && l <= len
      ensures len - l <= buffer.Length && (l < len ==> Slot(position + l, buffer.Length) == 0)
    {
      TwoParts(Value(), position, len);
      at := And(c, buffer.Length - 1);
      l := Min(len, Wrap(buffer.Length - at));
    }

    /** The two `memcpy`s. */
    method CopyBoth(msg: seq<Byte>, len: nat)
      requires Valid() && len <= |msg| && |stored| - out + len <= buffer.Length
      modifies buffer
      ensures Tracks(Value(), stored, out, msg[..len])
    {
      var at, l := Split(head, len, |stored|);
      assert msg[..0] == [];
      CopyIn(msg, 0, l, at);
      CopyIn(msg, l, len, 0);
    }

    /** `rfifo_write`: appends as much of the message as fits. */
    method Write(msg: seq<Byte>) returns (len: nat)
      requires Valid() && |msg| < WORD
      modifies this, buffer
      ensures Valid() && buffer == old(buffer)
      ensures len == Min(|msg|, buffer.Length - |old(Contents())|)
      ensures Contents() == old(Contents()) + msg[..len]
    {
      var unread, space := Counts();
      len := Min(|msg|, space);
      CopyBoth(msg, len);
      CountKeeps(Value(), stored, out, msg[..len]);
      assert stored[out..] + msg[..len] == (stored + msg[..len])[out..];
      head := Wrap(head + len);
      stored := stored + msg[..len];
    }

    /** One `pwrite` and the counter behind it. */
    method WriteOut(file: seq<Byte>, at: nat, l: nat) returns (file': seq<Byte>)
      requires Valid() && 0 < buffer.Length && at + l <= buffer.Length && out + l <= |stored|
      requires l > 0 ==> at == Slot(out, buffer.Length)
      modifies this`tail, this`out
      ensures Valid() && out == old(out) + l && file' == file + stored[old(out)..out]
    {
      file' := file + buffer[at..at + l];
      SliceMeans(Value(), stored, out, at, l);
      AdvanceKeeps(Value(), stored, out, [], l);
      tail, out := Wrap(tail + l), out + l;
    }

    /** `rfifo_flush`: moves everything waiting to the file. */
    method Flush(file: seq<Byte>) returns (file': seq<Byte>, count: nat)
      requires Valid()
      modifies this
      ensures Valid() && buffer == old(buffer)
      ensures file' == file + old(Contents()) && count == |old(Contents())| && Contents() == []
    {
      var len, space := Counts();
      var at, l := Split(tail, len, out);
      ghost var from := out;
      file' := WriteOut(file, at, l);
      file' := WriteOut(file', 0, len - l);
      InTwoParts(file, stored, from, l);
      count := len;
    }
  }

  lemma {:induction false} InTwoParts(file: seq<Byte>, stored: seq<Byte>, from: nat, l: nat)
    requires from + l <= |stored|
    ensures file + stored[from..from + l] + stored[from + l..|stored|] == file + stored[from..]
  {
    assert stored[from..from + l] + stored[from + l..|stored|] == stored[from..];
  }

  lemma {:induction false} SmallPower(x: nat)
    requires 0 < x <= 0x8000_0000 && Power(x)
    ensures Size(x)
  {
    var e: nat :| x == Pow2(e);
    assert Pow2(31) == 0x8000_0000 by { BigPowers(); }
    if e > 31 { Pow2Grows(31, e); }
  }
}

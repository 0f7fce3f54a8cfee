/** The generator of global ids: seconds, milliseconds, worker and sequence number packed into 64 bits. */
module Guid {
  import opened Bits

  /** What `gettimeofday` gives. */
  datatype Time = Time(sec: nat, usec: nat)

  predicate Clock(t: Time) { t.sec < 0x1_0000_0000 && t.usec < 1_000_000 }

  function Msec(t: Time): (m: nat)
    ensures 1000 * m <= t.usec < 1000 * (m + 1)
  {
    t.usec / 1000
  }

  /** `struct incremental_guid_state_t`. */
  datatype State = State(lastSec: nat, lastMsec: nat, worker: nat, seqId: nat)

  function Wrap64(x: nat): nat { x % 0x1_0000_0000_0000_0000 }

  function Wrap32(x: nat): nat { x % 0x1_0000_0000 }

  /** The fields put together with shifts and ORs of the widths in the source. */
  function Packed(sec: nat, msec: nat, worker: nat, seqId: nat): nat {
    var a := Wrap64(ShiftLeft(sec, 32));
    var b := Or(a, Wrap32(ShiftLeft(msec, 22)));
    var c := Or(b, ShiftLeft(And(worker, 0xFFF), 10));
    Or(c, seqId)
  }

  // ---------------------------------------------------------------- the fields do not overlap

  lemma {:induction false} Powers()
    ensures Pow2(10) == 1024 && Pow2(12) == 4096 && Pow2(22) == 0x40_0000 && Pow2(32) == 0x1_0000_0000
  {
  }

  lemma {:induction false} Shifted(x: nat)
    ensures ShiftLeft(x, 10) == x * 1024 && ShiftLeft(x, 22) == x * 0x40_0000 && ShiftLeft(x, 32) == x * 0x1_0000_0000
  {
    Powers();
    ShiftIsProduct(x, 10);
    ShiftIsProduct(x, 22);
    ShiftIsProduct(x, 32);
  }

  lemma {:induction false} LowWorker(worker: nat)
    ensures And(worker, 0xFFF) == worker % 4096
  {
    Powers();
    AndMask(worker, 12);
  }

  /** An OR below the lowest bit of the other operand adds. */
  lemma {:induction false} OrAdds10(h: nat, l: nat)
    requires l < 1024
    ensures Or(h * 1024, l) == h * 1024 + l
  {
    Powers();
    Shifted(h);
    OrDisjoint(h, l, 10);
  }

  lemma {:induction false} OrAdds22(h: nat, l: nat)
    requires l < 0x40_0000
    ensures Or(h * 0x40_0000, l) == h * 0x40_0000 + l
  {
    Powers();
    Shifted(h);
    OrDisjoint(h, l, 22);
  }

  lemma {:induction false} OrAdds32(h: nat, l: nat)
    requires l < 0x1_0000_0000
    ensures Or(h * 0x1_0000_0000, l) == h * 0x1_0000_0000 + l
  {
    Powers();
    Shifted(h);
    OrDisjoint(h, l, 32);
  }

  ghost function Fields(sec: nat, msec: nat, low: nat, seqId: nat): nat {
    ((sec * 1024 + msec) * 4096 + low) * 1024 + seqId
  }

  lemma {:induction false} NoWrap(sec: nat, msec: nat)
    requires sec < 0x1_0000_0000 && msec < 1000
    ensures Wrap64(sec * 0x1_0000_0000) == sec * 0x1_0000_0000 && Wrap32(msec * 0x40_0000) == msec * 0x40_0000
  {
  }

  lemma {:induction false} PackTime(sec: nat, msec: nat)
    requires sec < 0x1_0000_0000 && msec < 1000
    ensures Or(Wrap64(ShiftLeft(sec, 32)), Wrap32(ShiftLeft(msec, 22))) == (sec * 1024 + msec) * 0x40_0000
  {
    Shifted(sec);
    Shifted(msec);
    NoWrap(sec, msec);
    OrAdds32(sec, msec * 0x40_0000);
  }

  lemma {:induction false} PackWorker(time: nat, worker: nat)
    ensures Or(time * 0x40_0000, ShiftLeft(And(worker, 0xFFF), 10)) == (time * 4096 + worker % 4096) * 1024
  {
    LowWorker(worker);
    Shifted(worker % 4096);
    OrAdds22(time, worker % 4096 * 1024);
  }

  lemma {:induction false} PackRest(time: nat, worker: nat, seqId: nat)
    requires seqId < 1024
    ensures Or(Or(time * 0x40_0000, ShiftLeft(And(worker, 0xFFF), 10)), seqId)
            == (time * 4096 + worker % 4096) * 1024 + seqId
  {
    PackWorker(time, worker);
    OrAdds10(time * 4096 + worker % 4096, seqId);
  }

  lemma {:induction false} PackedIsFields(sec: nat, msec: nat, worker: nat, seqId: nat)
    requires sec < 0x1_0000_0000 && msec < 1000 && seqId < 1024
    ensures Packed(sec, msec, worker, seqId) == Fields(sec, msec, worker % 4096, seqId)
  {
    PackTime(sec, msec);
    PackRest(sec * 1024 + msec, worker, seqId);
  }

  /** An id gives its fields back. */
  lemma {:induction false} FieldsApart(sec: nat, msec: nat, low: nat, seqId: nat)
    requires msec < 1024 && low < 4096 && seqId < 1024
    ensures var id := Fields(sec, msec, low, seqId);
            id % 1024 == seqId && id / 1024 % 4096 == low && id / 0x40_0000 % 1024 == msec && id / 0x1_0000_0000 == sec
  {
    var time := sec * 1024 + msec;
    Quotients(time * 4096 + low, seqId);
    Quotients(time, low);
    Quotients(sec, msec);
    Quotients(time, low * 1024 + seqId);
    Quotients(sec, (msec * 4096 + low) * 1024 + seqId);
  }

  lemma {:induction false} Quotients(q: nat, r: nat)
    ensures r < 1024 ==> (q * 1024 + r) / 1024 == q && (q * 1024 + r) % 1024 == r
    ensures r < 4096 ==> (q * 4096 + r) % 4096 == r
    ensures r < 0x40_0000 ==> (q * 0x40_0000 + r) / 0x40_0000 == q
    ensures r < 0x1_0000_0000 ==> (q * 0x1_0000_0000 + r) / 0x1_0000_0000 == q
  {
  }

  // ---------------------------------------------------------------- the generator

  /** `incremental_guid_get_next`. */
  function Next(s: State, t: Time): State {
    State(t.sec, Msec(t), s.worker, if t.sec == s.lastSec && Msec(t) == s.lastMsec then (s.seqId + 1) % 1024 else 0)
  }

  function Id(s: State): nat { Packed(s.lastSec, s.lastMsec, s.worker, s.seqId) }

  class Generator {
    var lastSec: nat
    var lastMsec: nat
    var worker: nat
    var seqId: nat

    ghost function Value(): State
      reads this
    {
      State(lastSec, lastMsec, worker, seqId)
    }

    /** `incremental_guid_init`; `last_msec` is set to microseconds. */
    constructor (worker: nat, t: Time)
      ensures Value() == State(t.sec, t.usec, worker, 0)
    {
      this.worker, lastSec, lastMsec, seqId := worker, t.sec, t.usec, 0;
    }

    method GetNext(t: Time) returns (id: nat)
      requires Clock(t) && seqId < 1024
      modifies this
      ensures Value() == Next(old(Value()), t) && seqId < 1024
      ensures id == Id(Value()) && id / 0x1_0000_0000 == t.sec && id / 0x40_0000 % 1024 == Msec(t)
      ensures id / 1024 % 4096 == worker % 4096 && id % 1024 == seqId
      ensures var m := id / 0x40_0000 % 1024; 1000 * m <= t.usec < 1000 * (m + 1)
    {
      var msec := Msec(t);
      id := Wrap64(ShiftLeft(t.sec, 32));
      id := Or(id, Wrap32(ShiftLeft(msec, 22)));
      id := Or(id, ShiftLeft(And(worker, 0xFFF), 10));
      if t.sec == lastSec && msec == lastMsec {
        LowSeq(seqId + 1);
        seqId := And(seqId + 1, 0x3FF);
      } else {
        seqId := 0;
      }
      lastSec, lastMsec := t.sec, msec;
      id := Or(id, seqId);
      PackedIsFields(t.sec, msec, worker, seqId);
      FieldsApart(t.sec, msec, worker % 4096, seqId);
    }
  }

  lemma {:induction false} LowSeq(n: nat)
    ensures And(n, 0x3FF) == n % 1024
  {
    Powers();
    AndMask(n, 10);
  }

  // ---------------------------------------------------------------- runs

  /** The state after the first `n` calls at the given times. */
  ghost function After(s: State, clock: seq<Time>, n: nat): State
    requires n <= |clock|
  {
    if n == 0 then s else Next(After(s, clock, n - 1), clock[n - 1])
  }

  /** The id the call `i` returns. */
  ghost function IdAt(s: State, clock: seq<Time>, i: nat): nat
    requires i < |clock|
  {
    Id(After(s, clock, i + 1))
  }

  ghost predicate SameMsec(a: Time, b: Time) { a.sec == b.sec && Msec(a) == Msec(b) }

  ghost predicate NotLater(a: Time, b: Time) { a.sec < b.sec || (a.sec == b.sec && a.usec <= b.usec) }

  /** A clock that does not go back. */
  ghost predicate Steady(clock: seq<Time>) {
    (forall i :: 0 <= i < |clock| ==> Clock(clock[i]))
      && forall i :: 0 < i < |clock| ==> NotLater(clock[i - 1], clock[i])
  }

  /** How many calls in a row up to call `i` were in its millisecond before it, counting on from the generator's own. */
  ghost function Rank(s: State, clock: seq<Time>, i: nat): nat
    requires i < |clock|
  {
    if i > 0 then (if SameMsec(clock[i - 1], clock[i]) then Rank(s, clock, i - 1) + 1 else 0)
    else if clock[0].sec == s.lastSec && Msec(clock[0]) == s.lastMsec then s.seqId + 1 else 0
  }

  lemma {:induction false} RankIsSeq(s: State, clock: seq<Time>, i: nat)
    requires i < |clock| && s.seqId < 1024
    ensures var t := After(s, clock, i + 1);
            t == State(clock[i].sec, Msec(clock[i]), s.worker, Rank(s, clock, i) % 1024)
  {
    if i > 0 {
      RankIsSeq(s, clock, i - 1);
      SeqWraps(Rank(s, clock, i - 1));
    } else {
      SeqWraps(s.seqId);
    }
  }

  lemma {:induction false} SeqWraps(m: nat)
    ensures (m % 1024 + 1) % 1024 == (m + 1) % 1024
  {
  }

  lemma {:induction false} IdIsFields(s: State, clock: seq<Time>, i: nat)
    requires i < |clock| && s.seqId < 1024 && Clock(clock[i])
    ensures IdAt(s, clock, i) == Fields(clock[i].sec, Msec(clock[i]), s.worker % 4096, Rank(s, clock, i) % 1024)
  {
    RankIsSeq(s, clock, i);
    PackedIsFields(clock[i].sec, Msec(clock[i]), s.worker, Rank(s, clock, i) % 1024);
  }

  /** The id of call `i` is larger than the one before it. */
  ghost predicate Larger(s: State, clock: seq<Time>, i: nat)
    requires 0 < i < |clock|
  {
    IdAt(s, clock, i - 1) < IdAt(s, clock, i)
  }

  ghost predicate Increasing(s: State, clock: seq<Time>) {
    forall i: nat :: 0 < i < |clock| ==> Larger(s, clock, i)
  }

  ghost predicate NoOverflow(s: State, clock: seq<Time>) {
    forall i: nat :: i < |clock| ==> Rank(s, clock, i) < 1024
  }

  /** Two ids of one worker are ordered by time first and sequence number second. */
  lemma {:induction false} Compared(a: Time, b: Time, low: nat, m: nat)
    requires Clock(a) && Clock(b) && NotLater(a, b) && low < 4096
    ensures var n := if SameMsec(a, b) then m + 1 else 0;
            Fields(a.sec, Msec(a), low, m % 1024) < Fields(b.sec, Msec(b), low, n % 1024) <==> n == 0 || n % 1024 != 0
  {
  }

  lemma {:induction false} NextIncreases(s: State, clock: seq<Time>, i: nat)
    requires Steady(clock) && s.seqId < 1024 && 0 < i < |clock|
    ensures Larger(s, clock, i) <==> Rank(s, clock, i) == 0 || Rank(s, clock, i) % 1024 != 0
  {
    IdIsFields(s, clock, i - 1);
    IdIsFields(s, clock, i);
    Compared(clock[i - 1], clock[i], s.worker % 4096, Rank(s, clock, i - 1));
  }

  /** Ranks grow one by one, so a rank of 1024 or more comes behind one of exactly 1024. */
  lemma {:induction false} ReachesLimit(s: State, clock: seq<Time>, i: nat) returns (j: nat)
    requires i < |clock| && s.seqId == 0 && Rank(s, clock, i) >= 1024
    ensures 0 < j <= i && Rank(s, clock, j) == 1024
  {
    if Rank(s, clock, i) == 1024 { j := i; } else { j := ReachesLimit(s, clock, i - 1); }
  }

  lemma {:induction false} OverflowShows(s: State, clock: seq<Time>, i: nat)
    requires Steady(clock) && s.seqId == 0 && i < |clock| && Rank(s, clock, i) >= 1024
    ensures !Increasing(s, clock)
  {
    var j := ReachesLimit(s, clock, i);
    NextIncreases(s, clock, j);
  }

  /** Over every run of a new generator with a clock that does not go back: successive ids increase strictly exactly if
      no call has 1024 calls of its millisecond directly before it. */
  lemma {:induction false} IncreasingIffNoOverflow(s: State, clock: seq<Time>)
    requires Steady(clock) && s.seqId == 0
    ensures Increasing(s, clock) <==> NoOverflow(s, clock)
  {
    if NoOverflow(s, clock) {
      forall i: nat | 0 < i < |clock| ensures Larger(s, clock, i) {
        NextIncreases(s, clock, i);
      }
    } else {
      var i: nat :| i < |clock| && Rank(s, clock, i) >= 1024;
      OverflowShows(s, clock, i);
    }
  }

  /** It can fail: a clock that shows one time for 1025 calls, which is not the generator's own. */
  lemma {:induction false} OneTooMany(s: State, t: Time) returns (clock: seq<Time>)
    requires Clock(t) && s.seqId == 0 && s.lastSec != t.sec
    ensures Steady(clock) && |clock| == 1025 && (forall i :: 0 <= i < |clock| ==> clock[i] == t)
            && !Increasing(s, clock)
  {
    clock := seq(1025, _ => t);
    RankAtOneTime(s, t, clock, 1024);
    OverflowShows(s, clock, 1024);
  }

  lemma {:induction false} RankAtOneTime(s: State, t: Time, clock: seq<Time>, i: nat)
    requires i < |clock| && s.lastSec != t.sec && forall j :: 0 <= j < |clock| ==> clock[j] == t
    ensures Rank(s, clock, i) == i
  {
    if i > 0 { RankAtOneTime(s, t, clock, i - 1); }
  }

  /** Fewer than 1024 calls in any millisecond. */
  ghost predicate FewPerMsec(clock: seq<Time>) {
    forall i, j :: 0 <= i < |clock| && j == i + 1023 < |clock| ==> !SameMsec(clock[i], clock[j])
  }

  lemma {:induction false} RankedTogether(s: State, clock: seq<Time>, i: nat, k: nat)
    requires i < |clock| && s.seqId == 0 && k <= i && k < Rank(s, clock, i)
    ensures SameMsec(clock[i - k], clock[i])
  {
    if k > 0 { RankedTogether(s, clock, i - 1, k - 1); }
  }

  lemma {:induction false} RankAtMost(s: State, clock: seq<Time>, i: nat)
    requires i < |clock| && s.seqId == 0
    ensures Rank(s, clock, i) <= i + 1
  {
    if i > 0 { RankAtMost(s, clock, i - 1); }
  }

  /** With fewer than 1024 calls per millisecond the ids of every run increase strictly. */
  lemma {:induction false} FewCallsIncrease(s: State, clock: seq<Time>)
    requires Steady(clock) && s.seqId == 0 && FewPerMsec(clock)
    ensures Increasing(s, clock)
  {
    forall i: nat | i < |clock| ensures Rank(s, clock, i) < 1024 {
      RankAtMost(s, clock, i);
      if Rank(s, clock, i) >= 1024 { RankedTogether(s, clock, i, 1023); }
    }
    IncreasingIffNoOverflow(s, clock);
  }

  /** Generators whose workers differ in their low 12 bits never give the same id, at whatever times. */
  lemma {:induction false} WorkersApart(s: State, t: State, clock: seq<Time>, other: seq<Time>, i: nat, j: nat)
    requires i < |clock| && j < |other| && Clock(clock[i]) && Clock(other[j]) && s.seqId < 1024 && t.seqId < 1024
    requires s.worker % 4096 != t.worker % 4096
    ensures IdAt(s, clock, i) != IdAt(t, other, j)
  {
    IdIsFields(s, clock, i);
    IdIsFields(t, other, j);
    FieldsApart(clock[i].sec, Msec(clock[i]), s.worker % 4096, Rank(s, clock, i) % 1024);
    FieldsApart(other[j].sec, Msec(other[j]), t.worker % 4096, Rank(t, other, j) % 1024);
  }
}

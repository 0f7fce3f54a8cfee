/** The binlog replay dispatcher: one dispatcher thread gives transactions to connections, worker threads execute
    them. */
module Dispatcher {

  datatype Kind = Normal | XaPrepare | XaCommit

  /** A transaction; `id` is the identity of the object. */
  datatype Trx = Trx(id: nat, kind: Kind, xid: string, binlog: string, lastCommitted: int, number: int,
                     sql: seq<string>)

  datatype Option<T> = None | Some(value: T)

  datatype Status = Idle | Busy | XaPrepared

  datatype Connection = Connection(status: Status, xid: string, ignored: bool)

  /** A job, with the statements left in its transaction when it was made. */
  datatype Job = Job(trx: Trx, conn: nat, sql: seq<string>)

  /** A job a worker is executing, and the number of statements done. */
  datatype Execution = Execution(job: Job, k: nat)

  // ---------------------------------------------------------------- which transactions may run together

  /** `Transaction.interleaved`. */
  predicate Interleaved(a: Trx, b: Trx) {
    if a.lastCommitted < b.lastCommitted && a.number > b.lastCommitted then true
    else b.lastCommitted < a.number && b.number > a.lastCommitted
  }

  ghost predicate Within(t: int, a: Trx) { a.lastCommitted < t <= a.number }

  /** Two transactions are interleaved exactly if their commit intervals have a point in common; so it does not matter
      which one is asked. */
  lemma {:induction false} InterleavedIsOverlap(a: Trx, b: Trx)
    requires a.lastCommitted < a.number && b.lastCommitted < b.number
    ensures Interleaved(a, b) <==> exists t :: Within(t, a) && Within(t, b)
    ensures Interleaved(a, b) == Interleaved(b, a)
  {
    var t := if a.lastCommitted < b.lastCommitted then b.lastCommitted + 1 else a.lastCommitted + 1;
    if Interleaved(a, b) { assert Within(t, a) && Within(t, b); }
  }

  /** `_can_do_parallel`. */
  ghost predicate CanDoParallel(trx: Trx, running: set<Trx>) {
    running == {} || exists other :: other in running && Interleaved(trx, other)
  }

  // ---------------------------------------------------------------- choosing a connection

  predicate Fits(c: Connection, trx: Trx) {
    if trx.kind.XaCommit? then c.status.XaPrepared? && c.xid == trx.xid else c.status.Idle?
  }

  /** The first connection that fits. */
  function FirstFit(conns: seq<Connection>, trx: Trx): (r: Option<nat>)
    ensures r.Some? ==> r.value < |conns| && Fits(conns[r.value], trx)
    ensures r.Some? ==> forall c :: 0 <= c < r.value ==> !Fits(conns[c], trx)
    ensures r.None? ==> forall c :: 0 <= c < |conns| ==> !Fits(conns[c], trx)
  {
    if conns == [] then None
    else if Fits(conns[0], trx) then Some(0)
    else
      var r := FirstFit(conns[1..], trx);
      assert r.None? ==> forall c :: 0 < c < |conns| ==> conns[c] == conns[1..][c - 1];
      if r.None? then None else Some(r.value + 1)
  }

  const NEW := Connection(Idle, "", false)

  function Opened(conns: seq<Connection>, max: nat): seq<Connection> {
    if |conns| < max then conns + [NEW] else conns
  }

  /** What is left to execute of a transaction that was given a connection. */
  function SqlFor(conns: seq<Connection>, trx: Trx, conn: Option<nat>): seq<string> {
    if trx.kind.XaCommit? && conn.Some? && conn.value < |conns| && conns[conn.value].ignored then [] else trx.sql
  }

  /** `Job.after_execute`. */
  function Released(c: Connection, trx: Trx): Connection {
    if trx.kind.XaPrepare? then Connection(XaPrepared, trx.xid, |trx.sql| == 0)
      else c.(status := Idle, ignored := false)
  }

  // ---------------------------------------------------------------- the state

  /** Where the dispatcher thread is in `run`. */
  datatype Pc =
    | Top          // before the test of `g_shutdown`
    | Fetching     // behind it, waiting for a transaction
    | Stopped
    | Draining(trx: Trx)
    | Probing(trx: Trx)
    | Waiting(trx: Trx, conn: Option<nat>, sql: seq<string>)
    | Completing(trx: Trx, conn: Option<nat>, sql: seq<string>)

  /** The dispatcher has a transaction in its hands. */
  predicate HasTrx(pc: Pc) { !pc.Top? && !pc.Fetching? && !pc.Stopped? }

  /** `g_jobs`, the jobs being executed, and `g_jobs_done`. */
  datatype Queues = Queues(jobs: seq<Job>, executing: seq<Execution>, finished: seq<Job>)

  datatype Control = Control(pc: Pc, binlog: string, running: set<Trx>, shutdown: bool)

  /** What a session was given: a transaction, the statements it has executed of it, and whether a statement then
      failed. */
  datatype Entry = Entry(trx: Trx, ran: seq<string>, failed: bool)

  datatype Phase = Queued | Running(k: nat) | Finished

  datatype Flight = Flight(job: Job, phase: Phase)

  /** History, not in the program: per session what it was given, per connection the job in flight on it, and the
      identities of the transactions fetched so far. */
  datatype History = History(logs: seq<seq<Entry>>, flights: map<nat, Flight>, used: set<nat>)

  datatype State = State(max: nat, conns: seq<Connection>, queues: Queues, control: Control, history: History)

  datatype Action =
    | Look
    | Skip
    | Fetch(trx: Trx)
    | Drained
    | Probe
    | Test
    | Complete
    | Leave
    | Take
    | Execute(i: nat)
    | Fail(i: nat)
    | Finish(i: nat)
    | Quit

  ghost predicate Enabled(s: State, a: Action) {
    var q, pc := s.queues, s.control.pc;
    match a
    case Look => pc.Top?
    case Skip => pc.Fetching?
    case Fetch(trx) => pc.Fetching? && trx.lastCommitted < trx.number && trx.id !in s.history.used
    case Drained => pc.Draining?
    case Probe => pc.Probing?
    case Test => pc.Waiting?
    case Complete => ((pc.Draining? && s.control.running != {}) || pc.Completing?) && q.finished != []
    case Leave => pc.Completing?
    case Take => q.jobs != [] && |q.executing| < s.max
    case Execute(i) => i < |q.executing| && q.executing[i].k < |q.executing[i].job.sql|
    case Fail(i) => i < |q.executing| && q.executing[i].k < |q.executing[i].job.sql|
    case Finish(i) => i < |q.executing| && q.executing[i].k == |q.executing[i].job.sql|
    case Quit => true
  }

  // ---------------------------------------------------------------- the steps

  ghost function At(c: Control, pc: Pc): Control { Control(pc, c.binlog, c.running, c.shutdown) }

  /** `_get_appropriate_connection`, called with the dispatcher going to `Waiting`. */
  ghost function Acquired(s: State, trx: Trx): State {
    var conns := Opened(s.conns, s.max);
    var conn := FirstFit(conns, trx);
    State(s.max, conns, s.queues, At(s.control, Waiting(trx, conn, SqlFor(conns, trx, conn))),
          History(if |s.conns| < s.max then s.history.logs + [[]] else s.history.logs, s.history.flights,
                  s.history.used))
  }

  ghost function Fetched(s: State, trx: Trx): State {
    var pc := if trx.binlog != s.control.binlog then Draining(trx) else Probing(trx);
    State(s.max, s.conns, s.queues, At(s.control, pc),
          History(s.history.logs, s.history.flights, s.history.used + {trx.id}))
  }

  /** `Job(trx, conn)` and `g_jobs.put`. */
  ghost function Dispatched(s: State, trx: Trx, c: nat, sql: seq<string>): State
    requires c < |s.conns|
  {
    var job := Job(trx, c, sql);
    State(s.max, s.conns[c := s.conns[c].(status := Busy)],
          Queues(s.queues.jobs + [job], s.queues.executing, s.queues.finished),
          Control(Top, s.control.binlog, s.control.running + {trx}, s.control.shutdown),
          History(s.history.logs, s.history.flights[c := Flight(job, Queued)], s.history.used))
  }

  /** A finished job is taken from its queue by the dispatcher. */
  ghost function Completed(s: State): State
    requires s.queues.finished != []
  {
    var job, q := s.queues.finished[0], s.queues;
    State(s.max, if job.conn < |s.conns| then s.conns[job.conn := Released(s.conns[job.conn], job.trx)] else s.conns,
          Queues(q.jobs, q.executing, q.finished[1..]),
          Control(s.control.pc, s.control.binlog, s.control.running - {job.trx}, s.control.shutdown),
          History(s.history.logs, s.history.flights - {job.conn}, s.history.used))
  }

  ghost function LogOf(h: History, c: nat): seq<Entry> { if c < |h.logs| then h.logs[c] else [] }

  /** A step of a worker: it moves a job on and changes the log of its session. */
  ghost function Worked(s: State, q: Queues, failed: bool, c: nat, log: seq<Entry>, f: Flight): State {
    State(s.max, s.conns, q,
          Control(s.control.pc, s.control.binlog, s.control.running, s.control.shutdown || failed),
          History(if c < |s.history.logs| then s.history.logs[c := log] else s.history.logs, s.history.flights[c := f],
                  s.history.used))
  }

  /** A worker takes a job. */
  ghost function Taken(s: State): State
    requires s.queues.jobs != []
  {
    var job, q := s.queues.jobs[0], s.queues;
    Worked(s, Queues(q.jobs[1..], q.executing + [Execution(job, 0)], q.finished), false,
           job.conn, LogOf(s.history, job.conn) + [Entry(job.trx, [], false)], Flight(job, Running(0)))
  }

  /** The last entry of a log with one more statement. */
  ghost function OneMore(log: seq<Entry>, sql: string): seq<Entry> {
    if log == [] then log
    else log[|log| - 1 := log[|log| - 1].(ran := log[|log| - 1].ran + [sql])]
  }

  ghost function Executed(s: State, i: nat): State
    requires i < |s.queues.executing| && s.queues.executing[i].k < |s.queues.executing[i].job.sql|
  {
    var e, q := s.queues.executing[i], s.queues;
    Worked(s, Queues(q.jobs, q.executing[i := Execution(e.job, e.k + 1)], q.finished), false,
           e.job.conn, OneMore(LogOf(s.history, e.job.conn), e.job.sql[e.k]), Flight(e.job, Running(e.k + 1)))
  }

  /** The last entry of a log when its job has come to an end. */
  ghost function Closed(log: seq<Entry>, failed: bool): seq<Entry> {
    if log == [] then log else log[|log| - 1 := log[|log| - 1].(failed := failed)]
  }

  /** A worker puts its job into the queue of finished jobs, `failed` or not. */
  ghost function Ended(s: State, i: nat, failed: bool): State
    requires i < |s.queues.executing|
  {
    var e, q := s.queues.executing[i], s.queues;
    Worked(s, Queues(q.jobs, q.executing[..i] + q.executing[i + 1..], q.finished + [e.job]), failed,
           e.job.conn, Closed(LogOf(s.history, e.job.conn), failed), Flight(e.job, Finished))
  }

  ghost function Tested(s: State): State
    requires s.control.pc.Waiting?
  {
    var pc := s.control.pc;
    if pc.conn.None? || !CanDoParallel(pc.trx, s.control.running) || pc.conn.value >= |s.conns| then
      s.(control := At(s.control, Completing(pc.trx, pc.conn, pc.sql)))
    else Dispatched(s, pc.trx, pc.conn.value, pc.sql)
  }

  ghost function Left(s: State): State
    requires s.control.pc.Completing?
  {
    var pc := s.control.pc;
    var t := if pc.conn.None? then Acquired(s, pc.trx)
        else s.(control := At(s.control, Waiting(pc.trx, pc.conn, pc.sql)));
    if s.control.shutdown then t.(control := At(t.control, Top)) else t
  }

  ghost function Apply(s: State, a: Action): State
    requires Enabled(s, a)
  {
    match a
    case Look => s.(control := At(s.control, if s.control.shutdown then Stopped else Fetching))
    case Skip => s.(control := At(s.control, Top))
    case Fetch(trx) => Fetched(s, trx)
    case Drained => s.(control := Control(Probing(s.control.pc.trx), s.control.pc.trx.binlog, s.control.running,
      s.control.shutdown))
    case Probe =>
      var trx := s.control.pc.trx;
      if CanDoParallel(trx, s.control.running) then Acquired(s, trx)
        else s.(control := At(s.control, Waiting(trx, None, trx.sql)))
    case Test => Tested(s)
    case Complete => Completed(s)
    case Leave => Left(s)
    case Take => Taken(s)
    case Execute(i) => Executed(s, i)
    case Fail(i) => Ended(s, i, true)
    case Finish(i) => Ended(s, i, false)
    case Quit => s.(control := Control(s.control.pc, s.control.binlog, s.control.running, true))
  }

  ghost predicate Initial(s: State) {
    && s.conns == [] && s.queues == Queues([], [], []) && s.history == History([], map[], {})
    && s.control == Control(Top, "", {}, false)
  }

  ghost predicate Run(ss: seq<State>, acts: seq<Action>) {
    && |ss| == |acts| + 1 && Initial(ss[0])
    && forall i :: 0 <= i < |acts| ==> Enabled(ss[i], acts[i]) && ss[i + 1] == Apply(ss[i], acts[i])
  }

  // ---------------------------------------------------------------- the invariant

  ghost predicate EndsPrepared(log: seq<Entry>) { log != [] && log[|log| - 1].trx.kind.XaPrepare? }

  /** What a session has to execute of a transaction behind `log`: nothing for the commit of an empty prepare. */
  ghost function Owed(log: seq<Entry>, trx: Trx): seq<string> {
    if trx.kind.XaCommit? && log != [] && log[|log| - 1].trx.sql == [] then [] else trx.sql
  }

  /** The statements were executed in order, and all of them unless one failed. */
  ghost predicate RanUnlessFailed(e: Entry, owed: seq<string>) {
    e.ran <= owed && (e.ran == owed <==> !e.failed)
  }

  ghost predicate LastRan(log: seq<Entry>) {
    log != [] ==> RanUnlessFailed(log[|log| - 1], Owed(log[..|log| - 1], log[|log| - 1].trx))
  }

  /** Entry `i` of a session against the one before it: a commit comes directly behind its prepare and nothing else
      does. */
  ghost predicate EntryOk(log: seq<Entry>, i: nat)
    requires i < |log|
  {
    && LastRan(log[..i]) && log[i].ran <= Owed(log[..i], log[i].trx)
    && (log[i].trx.kind.XaCommit? <==> EndsPrepared(log[..i]))
    && (log[i].trx.kind.XaCommit? ==> log[i].trx.xid == log[i - 1].trx.xid)
  }

  ghost predicate SessionOk(log: seq<Entry>) {
    forall i: nat :: i < |log| ==> EntryOk(log, i)
  }

  /** The job may be the next one of the session. */
  ghost predicate MayFollow(log: seq<Entry>, trx: Trx, sql: seq<string>) {
    && LastRan(log) && sql == Owed(log, trx)
    && (trx.kind.XaCommit? <==> EndsPrepared(log))
    && (trx.kind.XaCommit? ==> trx.xid == log[|log| - 1].trx.xid)
  }

  /** A connection without a job. */
  ghost predicate FreeOk(c: Connection, log: seq<Entry>) {
    LastRan(log) &&
    match c.status
    case Busy => false
    case Idle => !EndsPrepared(log)
    case XaPrepared =>
      EndsPrepared(log) && c.xid == log[|log| - 1].trx.xid && c.ignored == (log[|log| - 1].trx.sql == [])
  }

  /** A connection with a job in flight. */
  ghost predicate FlightOk(c: Connection, log: seq<Entry>, f: Flight) {
    && c.status.Busy?
    && match f.phase
       case Queued => MayFollow(log, f.job.trx, f.job.sql)
       case Running(k) =>
         k <= |f.job.sql| && log != [] && log[|log| - 1] == Entry(f.job.trx, f.job.sql[..k], false)
           && MayFollow(log[..|log| - 1], f.job.trx, f.job.sql)
       case Finished => log != [] && log[|log| - 1].trx == f.job.trx && LastRan(log)
  }

  ghost predicate ConnectionOk(c: Connection, log: seq<Entry>, flights: map<nat, Flight>, i: nat) {
    SessionOk(log) && if i in flights then flights[i].job.conn == i && FlightOk(c, log, flights[i]) else FreeOk(c, log)
  }

  ghost predicate PoolOk(s: State) {
    && |s.history.logs| == |s.conns| <= s.max
    && (forall i :: i in s.history.flights ==> i < |s.conns|)
    && forall i: nat :: i < |s.conns| ==> ConnectionOk(s.conns[i], s.history.logs[i], s.history.flights, i)
  }

  ghost predicate InPhase(flights: map<nat, Flight>, job: Job, phase: Phase) {
    job.conn in flights && flights[job.conn] == Flight(job, phase)
  }

  /** Every flight is in exactly one place of exactly one queue, the one of its phase. */
  ghost predicate QueuesOk(q: Queues, flights: map<nat, Flight>) {
    && (forall j: Job :: multiset(q.jobs)[j] == if InPhase(flights, j, Queued) then 1 else 0)
    && (forall e: Execution :: multiset(q.executing)[e] == if InPhase(flights, e.job, Running(e.k)) then 1 else 0)
    && (forall j: Job :: multiset(q.finished)[j] == if InPhase(flights, j, Finished) then 1 else 0)
    && |q.jobs| + |q.executing| + |q.finished| == |flights|
  }

  /** The transactions in flight, by connection. */
  ghost function Trxs(flights: map<nat, Flight>): map<nat, Trx> { map i | i in flights :: flights[i].job.trx }

  /** The running transactions are those in flight, each with an identity of its own. */
  ghost predicate RunningOk(running: set<Trx>, trxs: map<nat, Trx>, used: set<nat>) {
    && running == trxs.Values
    && (forall i, j :: i in trxs && j in trxs && trxs[i].id == trxs[j].id ==> i == j)
    && (forall i :: i in trxs ==> trxs[i].id in used)
  }

  /** The transaction in the dispatcher's hands is not in flight, and the connection it was given fits and is free. */
  ghost predicate PcOk(pc: Pc, logs: seq<seq<Entry>>, trxs: map<nat, Trx>, used: set<nat>) {
    && (HasTrx(pc) ==> pc.trx.id in used && forall i :: i in trxs ==> trxs[i].id != pc.trx.id)
    && ((pc.Waiting? || pc.Completing?) && pc.conn.Some? ==>
          pc.conn.value < |logs| && pc.conn.value !in trxs && MayFollow(logs[pc.conn.value], pc.trx, pc.sql))
  }

  /** Connections and sessions, running transactions and dispatcher agree with the flights. */
  ghost predicate SessionsOk(s: State) {
    var h := s.history;
    PoolOk(s) && RunningOk(s.control.running, Trxs(h.flights), h.used)
      && PcOk(s.control.pc, h.logs, Trxs(h.flights), h.used)
  }

  ghost predicate Invariant(s: State) { SessionsOk(s) && QueuesOk(s.queues, s.history.flights) }

  // ---------------------------------------------------------------- the queues

  lemma {:induction false} Remaining<T>(s: seq<T>)
    requires s != []
    ensures multiset(s) == multiset{s[0]} + multiset(s[1..])
  {
    assert s == [s[0]] + s[1..];
  }

  lemma {:induction false} Without<T>(s: seq<T>, i: nat)
    requires i < |s|
    ensures multiset(s) == multiset{s[i]} + multiset(s[..i] + s[i + 1..])
  {
    assert s == s[..i] + ([s[i]] + s[i + 1..]);
  }

  lemma {:induction false} QueuesDispatched(q: Queues, flights: map<nat, Flight>, job: Job)
    requires QueuesOk(q, flights) && job.conn !in flights
    ensures QueuesOk(Queues(q.jobs + [job], q.executing, q.finished), flights[job.conn := Flight(job, Queued)])
  {
  }

  lemma {:induction false} QueuesTaken(q: Queues, flights: map<nat, Flight>)
    requires QueuesOk(q, flights) && q.jobs != []
    ensures var job := q.jobs[0];
            InPhase(flights, job, Queued) &&
            QueuesOk(Queues(q.jobs[1..], q.executing + [Execution(job, 0)], q.finished),
              flights[job.conn := Flight(job, Running(0))])
  {
    var job := q.jobs[0];
    Remaining(q.jobs);
    assert multiset(q.jobs)[job] > 0;
    var after := flights[job.conn := Flight(job, Running(0))];
    forall j: Job ensures multiset(q.jobs[1..])[j] == if InPhase(after, j, Queued) then 1 else 0 {
      assert multiset(q.jobs)[j] == (if j == job then 1 else 0) + multiset(q.jobs[1..])[j];
    }
  }

  lemma {:induction false} QueuesExecuted(q: Queues, flights: map<nat, Flight>, i: nat)
    requires QueuesOk(q, flights) && i < |q.executing|
    ensures var e := q.executing[i];
            InPhase(flights, e.job, Running(e.k)) &&
            QueuesOk(Queues(q.jobs, q.executing[i := Execution(e.job, e.k + 1)], q.finished),
                     flights[e.job.conn := Flight(e.job, Running(e.k + 1))])
  {
  }

  lemma {:induction false} QueuesEnded(q: Queues, flights: map<nat, Flight>, i: nat)
    requires QueuesOk(q, flights) && i < |q.executing|
    ensures var e := q.executing[i];
            InPhase(flights, e.job, Running(e.k)) &&
            QueuesOk(Queues(q.jobs, q.executing[..i] + q.executing[i + 1..], q.finished + [e.job]),
                     flights[e.job.conn := Flight(e.job, Finished)])
  {
    var e := q.executing[i];
    Without(q.executing, i);
    assert multiset(q.executing)[e] > 0;
  }

  lemma {:induction false} Dropped<K, V>(m: map<K, V>, k: K)
    requires k in m
    ensures |m - {k}| == |m| - 1
  {
  }

  lemma {:induction false} QueuesCompleted(q: Queues, flights: map<nat, Flight>)
    requires QueuesOk(q, flights) && q.finished != []
    ensures var job := q.finished[0];
            InPhase(flights, job, Finished)
              && QueuesOk(Queues(q.jobs, q.executing, q.finished[1..]), flights - {job.conn})
  {
    var job := q.finished[0];
    Remaining(q.finished);
    assert multiset(q.finished)[job] > 0;
    Dropped(flights, job.conn);
    var after := flights - {job.conn};
    forall j: Job ensures multiset(q.finished[1..])[j] == if InPhase(after, j, Finished) then 1 else 0 {
      assert multiset(q.finished)[j] == (if j == job then 1 else 0) + multiset(q.finished[1..])[j];
    }
  }

  // ---------------------------------------------------------------- the sessions

  lemma {:induction false} SessionGrows(log: seq<Entry>, trx: Trx, sql: seq<string>)
    requires SessionOk(log) && MayFollow(log, trx, sql)
    ensures SessionOk(log + [Entry(trx, [], false)])
  {
    var more := log + [Entry(trx, [], false)];
    forall i: nat | i < |more| ensures EntryOk(more, i) {
      if i < |log| {
        assert EntryOk(log, i) && more[..i] == log[..i];
      } else {
        assert more[..i] == log;
      }
    }
  }

  lemma {:induction false} SessionRuns(c: Connection, log: seq<Entry>, job: Job, k: nat)
    requires SessionOk(log) && k < |job.sql| && FlightOk(c, log, Flight(job, Running(k)))
    ensures SessionOk(OneMore(log, job.sql[k])) && FlightOk(c, OneMore(log, job.sql[k]), Flight(job, Running(k + 1)))
  {
    var more := OneMore(log, job.sql[k]);
    assert job.sql[..k] + [job.sql[k]] == job.sql[..k + 1];
    assert more[..|log| - 1] == log[..|log| - 1];
    forall i: nat | i < |more| ensures EntryOk(more, i) {
      assert EntryOk(log, i) && more[..i] == log[..i];
    }
  }

  lemma {:induction false} SessionEnds(c: Connection, log: seq<Entry>, job: Job, k: nat, failed: bool)
    requires SessionOk(log) && FlightOk(c, log, Flight(job, Running(k))) && (failed <==> k < |job.sql|)
    ensures SessionOk(Closed(log, failed)) && FlightOk(c, Closed(log, failed), Flight(job, Finished))
  {
    var closed := Closed(log, failed);
    assert job.sql[..|job.sql|] == job.sql;
    forall i: nat | i < |closed| ensures EntryOk(closed, i) {
      assert EntryOk(log, i) && closed[..i] == log[..i];
    }
  }

  // ---------------------------------------------------------------- every step keeps the invariant

  /** A step that changes one connection's log and flight. */
  lemma {:induction false} PoolChanged(s: State, t: State, c: nat)
    requires PoolOk(s) && t.max == s.max && |t.conns| == |s.conns| && |t.history.logs| == |s.history.logs|
             && c < |s.conns|
    requires forall i: nat :: i < |s.conns| && i != c
               ==> t.conns[i] == s.conns[i] && t.history.logs[i] == s.history.logs[i]
    requires forall i: nat :: i != c ==> (i in t.history.flights <==> i in s.history.flights)
    requires forall i: nat :: i != c && i in s.history.flights ==> t.history.flights[i] == s.history.flights[i]
    requires ConnectionOk(t.conns[c], t.history.logs[c], t.history.flights, c)
    ensures PoolOk(t)
  {
  }

  lemma {:induction false} SameTrxs(flights: map<nat, Flight>, c: nat, f: Flight)
    requires c in flights && flights[c].job == f.job
    ensures Trxs(flights[c := f]) == Trxs(flights)
  {
  }

  lemma {:induction false} PcKept(pc: Pc, logs: seq<seq<Entry>>, trxs: map<nat, Trx>, used: set<nat>, c: nat,
                                  log: seq<Entry>)
    requires PcOk(pc, logs, trxs, used) && c in trxs && c < |logs|
    ensures PcOk(pc, logs[c := log], trxs, used)
  {
  }

  lemma {:induction false} WorkerKeeps(s: State, q: Queues, failed: bool, c: nat, log: seq<Entry>, f: Flight)
    requires SessionsOk(s) && c in s.history.flights && s.history.flights[c].job == f.job && f.job.conn == c
    requires c < |s.conns| && SessionOk(log) && FlightOk(s.conns[c], log, f)
    ensures SessionsOk(Worked(s, q, failed, c, log, f))
  {
    SameTrxs(s.history.flights, c, f);
    PcKept(s.control.pc, s.history.logs, Trxs(s.history.flights), s.history.used, c, log);
    PoolChanged(s, Worked(s, q, failed, c, log, f), c);
  }

  lemma {:induction false} InFlight(s: State, c: nat)
    requires PoolOk(s) && c in s.history.flights
    ensures c < |s.conns| == |s.history.logs| && SessionOk(s.history.logs[c])
    ensures s.history.flights[c].job.conn == c && FlightOk(s.conns[c], s.history.logs[c], s.history.flights[c])
  {
    assert ConnectionOk(s.conns[c], s.history.logs[c], s.history.flights, c);
  }

  lemma {:induction false} TakeSession(s: State)
    requires SessionsOk(s) && s.queues.jobs != [] && InPhase(s.history.flights, s.queues.jobs[0], Queued)
    ensures SessionsOk(Taken(s))
  {
    var job, t := s.queues.jobs[0], Taken(s);
    InFlight(s, job.conn);
    var log := s.history.logs[job.conn];
    SessionGrows(log, job.trx, job.sql);
    assert (log + [Entry(job.trx, [], false)])[..|log|] == log;
    WorkerKeeps(s, t.queues, false, job.conn, log + [Entry(job.trx, [], false)], Flight(job, Running(0)));
  }

  lemma {:induction false} TakeKeeps(s: State)
    requires Invariant(s) && s.queues.jobs != []
    ensures Invariant(Taken(s))
  {
    QueuesTaken(s.queues, s.history.flights);
    TakeSession(s);
  }

  lemma {:induction false} ExecuteSession(s: State, i: nat)
    requires SessionsOk(s) && i < |s.queues.executing|
    requires var e := s.queues.executing[i]; InPhase(s.history.flights, e.job, Running(e.k)) && e.k < |e.job.sql|
    ensures SessionsOk(Executed(s, i))
  {
    var e := s.queues.executing[i];
    InFlight(s, e.job.conn);
    var log := s.history.logs[e.job.conn];
    SessionRuns(s.conns[e.job.conn], log, e.job, e.k);
    WorkerKeeps(s, Executed(s, i).queues, false, e.job.conn, OneMore(log, e.job.sql[e.k]),
      Flight(e.job, Running(e.k + 1)));
  }

  lemma {:induction false} ExecuteKeeps(s: State, i: nat)
    requires Invariant(s) && i < |s.queues.executing| && s.queues.executing[i].k < |s.queues.executing[i].job.sql|
    ensures Invariant(Executed(s, i))
  {
    QueuesExecuted(s.queues, s.history.flights, i);
    ExecuteSession(s, i);
  }

  lemma {:induction false} EndSession(s: State, i: nat, failed: bool)
    requires SessionsOk(s) && i < |s.queues.executing|
    requires var e := s.queues.executing[i];
             InPhase(s.history.flights, e.job, Running(e.k)) && (failed <==> e.k < |e.job.sql|)
    ensures SessionsOk(Ended(s, i, failed))
  {
    var e := s.queues.executing[i];
    InFlight(s, e.job.conn);
    var log := s.history.logs[e.job.conn];
    SessionEnds(s.conns[e.job.conn], log, e.job, e.k, failed);
    WorkerKeeps(s, Ended(s, i, failed).queues, failed, e.job.conn, Closed(log, failed), Flight(e.job, Finished));
  }

  lemma {:induction false} EndKeeps(s: State, i: nat, failed: bool)
    requires Invariant(s) && Enabled(s, if failed then Fail(i) else Finish(i))
    ensures Invariant(Ended(s, i, failed))
  {
    QueuesEnded(s.queues, s.history.flights, i);
    EndSession(s, i, failed);
  }

  lemma {:induction false} RunningDropped(running: set<Trx>, flights: map<nat, Flight>, used: set<nat>, c: nat)
    requires RunningOk(running, Trxs(flights), used) && c in flights
    ensures Trxs(flights - {c}) == Trxs(flights) - {c}
    ensures Trxs(flights)[c] in running && RunningOk(running - {Trxs(flights)[c]}, Trxs(flights - {c}), used)
  {
    var trxs, rest := Trxs(flights), Trxs(flights) - {c};
    assert trxs[c] in trxs.Values;
    forall t ensures t in rest.Values <==> t in running && t != trxs[c] {
      if t in running && t != trxs[c] {
        var i :| i in trxs && trxs[i] == t;
        assert i in rest && rest[i] == t;
      }
    }
    assert rest.Values == running - {trxs[c]};
  }

  lemma {:induction false} PcDropped(pc: Pc, logs: seq<seq<Entry>>, trxs: map<nat, Trx>, used: set<nat>, c: nat)
    requires PcOk(pc, logs, trxs, used)
    ensures PcOk(pc, logs, trxs - {c}, used)
  {
  }

  /** A finished job's transaction is among the running ones, from which it is removed. */
  lemma {:induction false} CompleteKeeps(s: State)
    requires Invariant(s) && Enabled(s, Complete)
    ensures s.queues.finished[0].trx in s.control.running && Invariant(Completed(s))
  {
    var job, t := s.queues.finished[0], Completed(s);
    QueuesCompleted(s.queues, s.history.flights);
    InFlight(s, job.conn);
    RunningDropped(s.control.running, s.history.flights, s.history.used, job.conn);
    PcDropped(s.control.pc, s.history.logs, Trxs(s.history.flights), s.history.used, job.conn);
    PoolChanged(s, t, job.conn);
  }

  lemma {:induction false} RunningAdded(running: set<Trx>, flights: map<nat, Flight>, used: set<nat>, job: Job)
    requires RunningOk(running, Trxs(flights), used) && job.conn !in flights && job.trx.id in used
    requires forall i :: i in Trxs(flights) ==> Trxs(flights)[i].id != job.trx.id
    ensures RunningOk(running + {job.trx}, Trxs(flights[job.conn := Flight(job, Queued)]), used)
  {
    var trxs := Trxs(flights);
    var more := trxs[job.conn := job.trx];
    assert Trxs(flights[job.conn := Flight(job, Queued)]) == more;
    assert more[job.conn] in more.Values;
    forall t ensures t in more.Values <==> t in running || t == job.trx {
      if t in running {
        var i :| i in trxs && trxs[i] == t;
        assert i in more && more[i] == t;
      }
    }
  }

  lemma {:induction false} DispatchKeeps(s: State)
    requires Invariant(s) && s.control.pc.Waiting? && s.control.pc.conn.Some?
    ensures var pc := s.control.pc; Invariant(Dispatched(s, pc.trx, pc.conn.value, pc.sql))
  {
    var pc := s.control.pc;
    var c := pc.conn.value;
    var job, t := Job(pc.trx, c, pc.sql), Dispatched(s, pc.trx, c, pc.sql);
    QueuesDispatched(s.queues, s.history.flights, job);
    assert ConnectionOk(s.conns[c], s.history.logs[c], s.history.flights, c);
    PoolChanged(s, t, c);
    RunningAdded(s.control.running, s.history.flights, s.history.used, job);
  }

  lemma {:induction false} AcquireKeeps(s: State, trx: Trx)
    requires Invariant(s) && (s.control.pc.Probing? || s.control.pc.Completing?) && s.control.pc.trx == trx
    ensures Invariant(Acquired(s, trx))
  {
  }

  lemma {:induction false} FetchKeeps(s: State, trx: Trx)
    requires Invariant(s) && Enabled(s, Fetch(trx))
    ensures Invariant(Fetched(s, trx))
  {
  }

  /** A step that only moves the dispatcher on. */
  lemma {:induction false} ControlKeeps(s: State, c: Control)
    requires Invariant(s) && c.running == s.control.running
             && PcOk(c.pc, s.history.logs, Trxs(s.history.flights), s.history.used)
    ensures Invariant(s.(control := c))
  {
    assert PoolOk(s.(control := c));
  }

  lemma {:induction false} DispatcherKeeps(s: State, a: Action)
    requires Invariant(s) && Enabled(s, a)
             && (a.Look? || a.Skip? || a.Drained? || a.Probe? || a.Test? || a.Leave? || a.Quit?)
    ensures Invariant(Apply(s, a))
  {
    var trx := if HasTrx(s.control.pc) then Some(s.control.pc.trx) else None;
    if a.Probe? && CanDoParallel(trx.value, s.control.running) {
      AcquireKeeps(s, trx.value);
    } else if a.Leave? && s.control.pc.conn.None? {
      AcquireKeeps(s, trx.value);
      var t := Acquired(s, trx.value);
      ControlKeeps(t, Apply(s, a).control);
    } else if a.Test? && s.control.pc.conn.Some? && CanDoParallel(trx.value, s.control.running) {
      DispatchKeeps(s);
    } else {
      ControlKeeps(s, Apply(s, a).control);
    }
  }

  lemma {:induction false} StepKeepsInvariant(s: State, a: Action)
    requires Invariant(s) && Enabled(s, a)
    ensures Invariant(Apply(s, a))
  {
    match a
    case Fetch(trx) => FetchKeeps(s, trx);
    case Complete => CompleteKeeps(s);
    case Take => TakeKeeps(s);
    case Execute(i) => ExecuteKeeps(s, i);
    case Fail(i) => EndKeeps(s, i, true);
    case Finish(i) => EndKeeps(s, i, false);
    case _ => DispatcherKeeps(s, a);
  }

  lemma {:induction false} RunKeepsInvariant(ss: seq<State>, acts: seq<Action>)
    requires Run(ss, acts)
    ensures Invariant(ss[|acts|])
  {
    if acts != [] {
      var n := |acts| - 1;
      RunKeepsInvariant(ss[..|ss| - 1], acts[..n]);
      StepKeepsInvariant(ss[n], acts[n]);
    }
  }

  // ---------------------------------------------------------------- safety

  /** How many elements of a queue are on a connection. */
  ghost function CountOn<T>(s: seq<T>, on: T -> nat, c: nat): nat {
    if s == [] then 0 else (if on(s[0]) == c then 1 else 0) + CountOn(s[1..], on, c)
  }

  lemma {:induction false} CountedOnce<T(!new)>(s: seq<T>, on: T -> nat, c: nat, only: Option<T>)
    requires only.Some? ==> on(only.value) == c
    requires forall x: T :: on(x) == c ==> multiset(s)[x] == if only == Some(x) then 1 else 0
    ensures CountOn(s, on, c) == if only.Some? then 1 else 0
  {
    if s == [] {
      assert only.Some? ==> multiset(s)[only.value] == 1;
    } else {
      Remaining(s);
      assert multiset(s)[s[0]] > 0;
      var rest := if on(s[0]) == c then None else only;
      forall x: T | on(x) == c ensures multiset(s[1..])[x] == if rest == Some(x) then 1 else 0 {
        assert multiset(s)[x] == (if x == s[0] then 1 else 0) + multiset(s[1..])[x];
      }
      CountedOnce(s[1..], on, c, rest);
    }
  }

  /** The jobs on a connection: waiting for a worker, being executed, or waiting for the dispatcher. */
  ghost function JobsOn(q: Queues, c: nat): nat {
    CountOn(q.jobs, (j: Job) => j.conn, c) + CountOn(q.executing, (e: Execution) => e.job.conn, c)
      + CountOn(q.finished, (j: Job) => j.conn, c)
  }

  lemma {:induction false} OneJobPerFlight(q: Queues, flights: map<nat, Flight>, c: nat)
    requires QueuesOk(q, flights) && (c in flights ==> flights[c].job.conn == c)
    ensures JobsOn(q, c) == if c in flights then 1 else 0
  {
    var f := if c in flights then Some(flights[c]) else None;
    CountedOnce(q.jobs, (j: Job) => j.conn, c, if f.Some? && f.value.phase.Queued? then Some(f.value.job) else None);
    CountedOnce(q.executing, (e: Execution) => e.job.conn, c,
                if f.Some? && f.value.phase.Running? then Some(Execution(f.value.job, f.value.phase.k)) else None);
    CountedOnce(q.finished, (j: Job) => j.conn, c,
      if f.Some? && f.value.phase.Finished? then Some(f.value.job) else None);
  }

  lemma {:induction false} KeysBelow(keys: set<nat>, n: nat)
    requires forall k :: k in keys ==> k < n
    ensures |keys| <= n
  {
    if n > 0 { KeysBelow(keys - {n - 1}, n - 1); } else { assert keys == {}; }
  }

  /** In every run: a connection is busy exactly if it has one job in flight, it never has more, and there are never
      more jobs in flight than `max_connections`. */
  lemma {:induction false} BusyIffOneJob(ss: seq<State>, acts: seq<Action>, c: nat)
    requires Run(ss, acts) && c < |ss[|acts|].conns|
    ensures var s := ss[|acts|]; JobsOn(s.queues, c) == if s.conns[c].status.Busy? then 1 else 0
    ensures var s := ss[|acts|]; |s.queues.jobs| + |s.queues.executing| + |s.queues.finished| <= |s.conns| <= s.max
  {
    RunKeepsInvariant(ss, acts);
    var s := ss[|acts|];
    assert ConnectionOk(s.conns[c], s.history.logs[c], s.history.flights, c);
    OneJobPerFlight(s.queues, s.history.flights, c);
    KeysBelow(s.history.flights.Keys, |s.conns|);
    assert |s.history.flights.Keys| == |s.history.flights|;
  }

  /** In every run and on every session: a transaction is an XA COMMIT exactly if the one before it on the session is an
      XA PREPARE; they then have the same XID, if the prepare was empty the commit executes nothing, and the session has
      executed all statements of the prepare if and only if none of them failed. */
  lemma {:induction false} CommitFollowsPrepare(ss: seq<State>, acts: seq<Action>, c: nat, i: nat)
    requires Run(ss, acts) && c < |ss[|acts|].history.logs| && i < |ss[|acts|].history.logs[c]|
    ensures var log := ss[|acts|].history.logs[c];
            && (log[i].trx.kind.XaCommit? <==> i > 0 && log[i - 1].trx.kind.XaPrepare?)
            && (log[i].trx.kind.XaCommit? ==>
                  && log[i].trx.xid == log[i - 1].trx.xid && (log[i - 1].trx.sql == [] ==> log[i].ran == [])
                  && (log[i - 1].ran == log[i - 1].trx.sql <==> !log[i - 1].failed))
  {
    RunKeepsInvariant(ss, acts);
    var s := ss[|acts|];
    assert ConnectionOk(s.conns[c], s.history.logs[c], s.history.flights, c);
    assert EntryOk(s.history.logs[c], i);
  }

  /** In every run and on every session: what is executed of a transaction is a prefix of its statements, or nothing for
      the commit of an empty prepare; and once the session has gone on or its connection is free again, all of them were
      executed if and only if none failed. */
  lemma {:induction false} StatementsAreExecuted(ss: seq<State>, acts: seq<Action>, c: nat, i: nat)
    requires Run(ss, acts) && c < |ss[|acts|].history.logs| && i < |ss[|acts|].history.logs[c]|
    ensures var log := ss[|acts|].history.logs[c];
            var owed := if log[i].trx.kind.XaCommit? && i > 0 && log[i - 1].trx.sql == [] then [] else log[i].trx.sql;
            && log[i].ran <= owed
            && c < |ss[|acts|].conns|
            && (i + 1 < |log| || !ss[|acts|].conns[c].status.Busy? ==> (log[i].ran == owed <==> !log[i].failed))
  {
    RunKeepsInvariant(ss, acts);
    var s := ss[|acts|];
    var log := s.history.logs[c];
    assert ConnectionOk(s.conns[c], log, s.history.flights, c);
    EntryExecuted(log, i);
    if i + 1 == |log| && !s.conns[c].status.Busy? {
      assert LastRan(log);
    }
  }

  lemma {:induction false} EntryExecuted(log: seq<Entry>, i: nat)
    requires SessionOk(log) && i < |log|
    ensures log[i].ran <= Owed(log[..i], log[i].trx)
    ensures i + 1 < |log| ==> RanUnlessFailed(log[i], Owed(log[..i], log[i].trx))
  {
    assert EntryOk(log, i);
    if i + 1 < |log| {
      assert EntryOk(log, i + 1) && log[..i + 1][..i] == log[..i];
    }
  }

  // ---------------------------------------------------------------- which transactions run together

  /** The job is in one of the queues. */
  ghost predicate Holds(q: Queues, j: Job) {
    j in q.jobs || j in q.finished || exists e :: e in q.executing && e.job == j
  }

  /** The commit intervals of two transactions have a point in common. */
  ghost predicate Overlap(a: Trx, b: Trx) { exists t :: Within(t, a) && Within(t, b) }

  /** No job is in flight, or one whose transaction overlaps `trx`. */
  ghost predicate MayJoin(q: Queues, trx: Trx) {
    (forall j :: !Holds(q, j)) || exists j :: Holds(q, j) && Overlap(trx, j.trx)
  }

  /** Every transaction has a commit interval. */
  ghost predicate Proper(s: State) {
    && (forall t :: t in s.control.running ==> t.lastCommitted < t.number)
    && (HasTrx(s.control.pc) ==> s.control.pc.trx.lastCommitted < s.control.pc.trx.number)
  }

  lemma {:induction false} ProperRun(ss: seq<State>, acts: seq<Action>)
    requires Run(ss, acts)
    ensures Proper(ss[|acts|])
  {
    if acts != [] {
      var n := |acts| - 1;
      ProperRun(ss[..|ss| - 1], acts[..n]);
      ProperStep(ss[n], acts[n]);
    }
  }

  lemma {:induction false} ProperStep(s: State, a: Action)
    requires Proper(s) && Enabled(s, a)
    ensures Proper(Apply(s, a))
  {
  }

  lemma {:induction false} HeldIsFlight(q: Queues, flights: map<nat, Flight>, j: Job)
    requires QueuesOk(q, flights)
    ensures Holds(q, j) <==> j.conn in flights && flights[j.conn].job == j
  {
    if j in q.jobs { assert multiset(q.jobs)[j] > 0; }
    else if j in q.finished { assert multiset(q.finished)[j] > 0; }
    else if Holds(q, j) {
      var e :| e in q.executing && e.job == j;
      assert multiset(q.executing)[e] > 0;
    }
    if j.conn in flights && flights[j.conn].job == j {
      match flights[j.conn].phase
      case Queued => assert multiset(q.jobs)[j] == 1;
      case Running(k) => assert multiset(q.executing)[Execution(j, k)] == 1;
      case Finished => assert multiset(q.finished)[j] == 1;
    }
  }

  lemma {:induction false} HeldIsRunning(s: State, j: Job)
    requires Invariant(s) && Holds(s.queues, j)
    ensures j.trx in s.control.running
  {
    HeldIsFlight(s.queues, s.history.flights, j);
    var trxs := Trxs(s.history.flights);
    assert trxs[j.conn] in trxs.Values;
  }

  lemma {:induction false} RunningIsHeld(s: State, t: Trx) returns (j: Job)
    requires Invariant(s) && t in s.control.running
    ensures Holds(s.queues, j) && j.trx == t
  {
    var trxs := Trxs(s.history.flights);
    var c :| c in trxs && trxs[c] == t;
    InFlight(s, c);
    j := s.history.flights[c].job;
    HeldIsFlight(s.queues, s.history.flights, j);
  }

  /** `_can_do_parallel`, in terms of the jobs in flight and their commit intervals. */
  lemma {:induction false} ParallelIsJoining(s: State)
    requires Invariant(s) && Proper(s) && HasTrx(s.control.pc)
    ensures CanDoParallel(s.control.pc.trx, s.control.running) <==> MayJoin(s.queues, s.control.pc.trx)
  {
    var trx, running := s.control.pc.trx, s.control.running;
    if CanDoParallel(trx, running) && running != {} {
      var other :| other in running && Interleaved(trx, other);
      InterleavedIsOverlap(trx, other);
      var j := RunningIsHeld(s, other);
      assert Holds(s.queues, j) && Overlap(trx, j.trx);
    }
    forall j | Holds(s.queues, j) ensures j.trx in running { HeldIsRunning(s, j); }
    if MayJoin(s.queues, trx) && running != {} {
      var t :| t in running;
      var k := RunningIsHeld(s, t);
      var j :| Holds(s.queues, j) && Overlap(trx, j.trx);
      InterleavedIsOverlap(trx, j.trx);
    }
  }

  /** In every run, a step that puts a new job in flight puts the transaction in the dispatcher's hands, and at that
      moment no job is in flight or one whose commit interval has a point in common with that transaction's. */
  lemma {:induction false} NewJobOverlaps(ss: seq<State>, acts: seq<Action>, a: Action, j: Job)
    requires Run(ss, acts) && Enabled(ss[|acts|], a)
    requires Holds(Apply(ss[|acts|], a).queues, j) && !Holds(ss[|acts|].queues, j)
    ensures a.Test? && j.trx == ss[|acts|].control.pc.trx && MayJoin(ss[|acts|].queues, j.trx)
  {
    RunKeepsInvariant(ss, acts);
    ProperRun(ss, acts);
    OnlyTestAdds(ss[|acts|], a, j);
    ParallelIsJoining(ss[|acts|]);
  }

  lemma {:induction false} OnlyTestAdds(s: State, a: Action, j: Job)
    requires Enabled(s, a) && Holds(Apply(s, a).queues, j) && !Holds(s.queues, j)
    ensures a.Test? && j.trx == s.control.pc.trx && CanDoParallel(j.trx, s.control.running)
  {
    match a
    case Complete =>
    case Take =>
    case Execute(i) =>
    case Fail(i) =>
    case Finish(i) =>
    case _ =>
  }

  /** In every run the dispatcher, having a transaction in its hands, dispatches it if and only if it holds a connection
      for it and the transaction may join those in flight. */
  lemma {:induction false} DispatchedIff(ss: seq<State>, acts: seq<Action>)
    requires Run(ss, acts) && ss[|acts|].control.pc.Waiting?
    ensures var s, pc := ss[|acts|], ss[|acts|].control.pc;
            Apply(s, Test).queues.jobs
            == if pc.conn.Some? && MayJoin(s.queues, pc.trx) then s.queues.jobs + [Job(pc.trx, pc.conn.value, pc.sql)]
               else s.queues.jobs
  {
    RunKeepsInvariant(ss, acts);
    ProperRun(ss, acts);
    ParallelIsJoining(ss[|acts|]);
  }

  /** A connection for the transaction: for a commit the one that holds its prepare, for any other an idle one or one
      that can still be opened. */
  ghost predicate Available(s: State, trx: Trx) {
    if trx.kind.XaCommit? then
      exists c :: 0 <= c < |s.conns| && s.conns[c].status.XaPrepared? && s.conns[c].xid == trx.xid
    else |s.conns| < s.max || exists c :: 0 <= c < |s.conns| && s.conns[c].status.Idle?
  }

  lemma {:induction false} AcquiredIff(s: State, trx: Trx)
    ensures var pc := Acquired(s, trx).control.pc;
            pc.Waiting? && pc.trx == trx && (pc.conn.Some? <==> Available(s, trx))
  {
    var conns := Opened(s.conns, s.max);
    var conn := FirstFit(conns, trx);
    if conn.Some? {
      assert Fits(conns[conn.value], trx) && (conn.value < |s.conns| ==> conns[conn.value] == s.conns[conn.value]);
    } else if Available(s, trx) {
      if trx.kind.XaCommit? {
        var c :| 0 <= c < |s.conns| && s.conns[c].status.XaPrepared? && s.conns[c].xid == trx.xid;
        assert conns[c] == s.conns[c] && Fits(conns[c], trx);
      } else if |s.conns| < s.max {
        assert conns[|s.conns|] == NEW && Fits(NEW, trx);
      } else {
        var c :| 0 <= c < |s.conns| && s.conns[c].status.Idle?;
        assert Fits(conns[c], trx);
      }
    }
  }

  /** In every run the first look at a transaction gives it a connection if and only if it may join those in flight and
      there is one for it; after waiting for other jobs it is given one if and only if there is one. */
  lemma {:induction false} ConnectionGiven(ss: seq<State>, acts: seq<Action>, a: Action)
    requires Run(ss, acts) && Enabled(ss[|acts|], a)
    requires a.Probe? || (a.Leave? && ss[|acts|].control.pc.conn.None? && !ss[|acts|].control.shutdown)
    ensures var s := ss[|acts|];
            var trx, pc := s.control.pc.trx, Apply(s, a).control.pc;
            && pc.Waiting? && pc.trx == trx
            && (pc.conn.Some? <==> (a.Probe? ==> MayJoin(s.queues, trx)) && Available(s, trx))
  {
    RunKeepsInvariant(ss, acts);
    ProperRun(ss, acts);
    ParallelIsJoining(ss[|acts|]);
    AcquiredIff(ss[|acts|], ss[|acts|].control.pc.trx);
  }

  /** How many jobs were dispatched by the steps from `i` on. */
  ghost function Dispatches(ss: seq<State>, i: nat): nat
    requires i < |ss|
    decreases |ss| - i
  {
    if i + 1 == |ss| then 0
    else Dispatches(ss, i + 1) + if |ss[i + 1].queues.jobs| > |ss[i].queues.jobs| then 1 else 0
  }

  lemma {:induction false} ShutdownStep(s: State, a: Action)
    requires Enabled(s, a) && s.control.shutdown
    ensures var t := Apply(s, a);
            && t.control.shutdown && (s.control.pc.Stopped? ==> t.control.pc.Stopped?)
            && (s.control.pc.Top? ==> t.control.pc.Top? || t.control.pc.Stopped?)
            && (|t.queues.jobs| > |s.queues.jobs| ==> HasTrx(s.control.pc) && t.control.pc.Top?)
  {
  }

  /** Once the shutdown flag is set at most one more job is dispatched, and none if the dispatcher is at the top of its
      loop or has left it. */
  lemma {:induction false} ShutdownEnds(ss: seq<State>, acts: seq<Action>, i: nat)
    requires Run(ss, acts) && i < |ss| && ss[i].control.shutdown
    ensures Dispatches(ss, i) <= if ss[i].control.pc.Top? || ss[i].control.pc.Stopped? then 0 else 1
    decreases |ss| - i
  {
    if i + 1 < |ss| {
      ShutdownStep(ss[i], acts[i]);
      ShutdownEnds(ss, acts, i + 1);
    }
  }

  /** The running transactions, and the one being placed, are of the current file. */
  ghost predicate OneFile(s: State) {
    && (forall t :: t in s.control.running ==> t.binlog == s.control.binlog)
    && (HasTrx(s.control.pc) && !s.control.pc.Draining? ==> s.control.pc.trx.binlog == s.control.binlog)
  }

  lemma {:induction false} OneFileStep(s: State, a: Action)
    requires OneFile(s) && Enabled(s, a) && (a.Drained? ==> s.control.running == {})
    ensures OneFile(Apply(s, a))
  {
  }

  lemma {:induction false} OneFileRun(ss: seq<State>, acts: seq<Action>)
    requires Run(ss, acts) && forall i :: 0 <= i < |acts| && acts[i].Drained? ==> ss[i].control.running == {}
    ensures OneFile(ss[|acts|])
  {
    if acts != [] {
      var n := |acts| - 1;
      OneFileRun(ss[..|ss| - 1], acts[..n]);
      OneFileStep(ss[n], acts[n]);
    }
  }

  /** In every run in which no drain gives up before it is done, jobs of different files are never in flight
      together. */
  lemma {:induction false} OneFileInFlight(ss: seq<State>, acts: seq<Action>, j: Job, k: Job)
    requires Run(ss, acts) && forall i :: 0 <= i < |acts| && acts[i].Drained? ==> ss[i].control.running == {}
    requires Holds(ss[|acts|].queues, j) && Holds(ss[|acts|].queues, k)
    ensures j.trx.binlog == k.trx.binlog
  {
    RunKeepsInvariant(ss, acts);
    OneFileRun(ss, acts);
    HeldIsRunning(ss[|acts|], j);
    HeldIsRunning(ss[|acts|], k);
  }

  /** What a step does to a connection that holds a prepared transaction. */
  ghost predicate CommitPutOn(s: State, t: State, c: nat)
    requires c < |s.conns| && c < |t.conns| && s.control.pc.Waiting?
  {
    var pc := s.control.pc;
    && t.conns[c].status.Busy? && pc.trx.kind.XaCommit? && pc.trx.xid == s.conns[c].xid
    && t.queues.jobs == s.queues.jobs + [Job(pc.trx, c, pc.sql)] && (s.conns[c].ignored ==> pc.sql == [])
  }

  lemma {:induction false} PreparedTested(s: State, c: nat)
    requires Invariant(s) && s.control.pc.Waiting? && c < |s.conns| && s.conns[c].status.XaPrepared?
    ensures |Tested(s).conns| == |s.conns| && (Tested(s).conns[c] == s.conns[c] || CommitPutOn(s, Tested(s), c))
  {
    assert ConnectionOk(s.conns[c], s.history.logs[c], s.history.flights, c);
  }

  lemma {:induction false} PreparedNotCompleted(s: State, c: nat)
    requires Invariant(s) && s.queues.finished != [] && c < |s.conns| && s.conns[c].status.XaPrepared?
    ensures |Completed(s).conns| == |s.conns| && Completed(s).conns[c] == s.conns[c]
  {
    assert ConnectionOk(s.conns[c], s.history.logs[c], s.history.flights, c);
    QueuesCompleted(s.queues, s.history.flights);
  }

  /** In every run a connection that holds a prepared transaction is left alone until the commit with its XID is put on
      it. */
  lemma {:induction false} PreparedWaitsForCommit(ss: seq<State>, acts: seq<Action>, a: Action, c: nat)
    requires Run(ss, acts) && Enabled(ss[|acts|], a) && c < |ss[|acts|].conns| && ss[|acts|].conns[c].status.XaPrepared?
    ensures var s, t := ss[|acts|], Apply(ss[|acts|], a);
            c < |t.conns| && (t.conns[c] != s.conns[c] ==> a.Test? && CommitPutOn(s, t, c))
  {
    RunKeepsInvariant(ss, acts);
    if a.Complete? {
      PreparedNotCompleted(ss[|acts|], c);
    } else if a.Test? {
      PreparedTested(ss[|acts|], c);
    }
  }

  // ---------------------------------------------------------------- a prepare that fails

  lemma {:induction false} RunGrows(ss: seq<State>, acts: seq<Action>, a: Action)
    returns (ss': seq<State>, acts': seq<Action>)
    requires Run(ss, acts) && Enabled(ss[|acts|], a)
    ensures Run(ss', acts') && ss'[|acts'|] == Apply(ss[|acts|], a)
  {
    ss', acts' := ss + [Apply(ss[|acts|], a)], acts + [a];
  }

  /** A state with one connection. */
  ghost function Single(c: Connection, q: Queues, control: Control, log: seq<Entry>, flights: map<nat, Flight>,
                        used: set<nat>): State {
    State(1, [c], q, control, History([log], flights, used))
  }

  // Steps with one connection and one job.

  const NONE := Queues([], [], [])

  lemma {:induction false} SingleTest(c: Connection, pc: Pc, binlog: string, stop: bool, log: seq<Entry>,
                                      used: set<nat>)
    requires pc.Waiting? && pc.conn == Some(0)
    ensures var job := Job(pc.trx, 0, pc.sql);
            Tested(Single(c, NONE, Control(pc, binlog, {}, stop), log, map[], used))
            == Single(c.(status := Busy), Queues([job], [], []), Control(Top, binlog, {pc.trx}, stop), log,
                      map[0 := Flight(job, Queued)], used)
  {
    var job := Job(pc.trx, 0, pc.sql);
    assert [c][0 := c.(status := Busy)] == [c.(status := Busy)] && [] + [job] == [job] && {} + {pc.trx} == {pc.trx};
    assert map[][0 := Flight(job, Queued)] == map[0 := Flight(job, Queued)];
  }

  lemma {:induction false} SingleTake(c: Connection, job: Job, control: Control, log: seq<Entry>, used: set<nat>)
    requires job.conn == 0
    ensures Taken(Single(c, Queues([job], [], []), control, log, map[0 := Flight(job, Queued)], used))
            == Single(c, Queues([], [Execution(job, 0)], []), control, log + [Entry(job.trx, [], false)],
                      map[0 := Flight(job, Running(0))], used)
  {
    assert [job][1..] == [] && [] + [Execution(job, 0)] == [Execution(job, 0)];
    SingleLog(log, log + [Entry(job.trx, [], false)], Flight(job, Queued), Flight(job, Running(0)));
  }

  lemma {:induction false} SingleLog(log: seq<Entry>, more: seq<Entry>, f: Flight, g: Flight)
    ensures [log][0 := more] == [more] && map[0 := f][0 := g] == map[0 := g]
  {
  }

  lemma {:induction false} SingleFail(c: Connection, job: Job, control: Control, log: seq<Entry>, last: Entry,
                                      used: set<nat>)
    requires job.conn == 0
    ensures Ended(Single(c, Queues([], [Execution(job, 0)], []), control, log + [last],
                         map[0 := Flight(job, Running(0))], used), 0, true)
            == Single(c, Queues([], [], [job]), control.(shutdown := true), log + [last.(failed := true)],
                      map[0 := Flight(job, Finished)], used)
  {
    var es := [Execution(job, 0)];
    assert es[..0] + es[1..] == [] && [] + [job] == [job];
    assert Closed(log + [last], true) == log + [last.(failed := true)];
    SingleLog(log + [last], log + [last.(failed := true)], Flight(job, Running(0)), Flight(job, Finished));
  }

  lemma {:induction false} SingleComplete(c: Connection, job: Job, pc: Pc, binlog: string, stop: bool, log: seq<Entry>,
                                          used: set<nat>)
    requires job.conn == 0
    ensures Completed(Single(c, Queues([], [], [job]), Control(pc, binlog, {job.trx}, stop), log,
                             map[0 := Flight(job, Finished)], used))
            == Single(Released(c, job.trx), NONE, Control(pc, binlog, {}, stop), log, map[], used)
  {
    assert [job][1..] == [] && [c][0 := Released(c, job.trx)] == [Released(c, job.trx)] && {job.trx} - {job.trx} == {};
    assert map[0 := Flight(job, Finished)] - {0} == map[];
  }

  lemma {:induction false} SingleExecute(c: Connection, job: Job, control: Control, log: seq<Entry>, used: set<nat>)
    requires job.conn == 0 && job.sql != []
    ensures Executed(Single(c, Queues([], [Execution(job, 0)], []), control, log + [Entry(job.trx, [], false)],
                            map[0 := Flight(job, Running(0))], used), 0).history.logs
            == [log + [Entry(job.trx, [job.sql[0]], false)]]
  {
    var more := log + [Entry(job.trx, [job.sql[0]], false)];
    assert [] + [job.sql[0]] == [job.sql[0]];
    assert OneMore(log + [Entry(job.trx, [], false)], job.sql[0]) == more;
    SingleLog(log + [Entry(job.trx, [], false)], more, Flight(job, Running(0)), Flight(job, Running(1)));
  }

  lemma {:induction false} OnlyFit(c: Connection, trx: Trx)
    requires Fits(c, trx)
    ensures FirstFit([c], trx) == Some(0) && Opened([], 1) == [NEW] && Opened([c], 1) == [c]
  {
  }

  /** A prepare is fetched and dispatched. */
  lemma {:induction false} PrepareIsDispatched(p: Trx) returns (ss: seq<State>, acts: seq<Action>)
    requires p.kind.XaPrepare? && p.lastCommitted < p.number && p.binlog != ""
    ensures var job := Job(p, 0, p.sql);
            && Run(ss, acts)
            && ss[|acts|] == Single(NEW.(status := Busy), Queues([job], [], []), Control(Top, p.binlog, {p}, false),
                                    [], map[0 := Flight(job, Queued)], {p.id})
  {
    ss, acts := [State(1, [], NONE, Control(Top, "", {}, false), History([], map[], {}))], [];
    ss, acts := RunGrows(ss, acts, Look);
    ss, acts := RunGrows(ss, acts, Fetch(p));
    ss, acts := RunGrows(ss, acts, Drained);
    assert {} + {p.id} == {p.id};
    assert ss[|acts|] == State(1, [], NONE, Control(Probing(p), p.binlog, {}, false), History([], map[], {p.id}));
    ss, acts := RunGrows(ss, acts, Probe);
    OnlyFit(NEW, p);
    var none: seq<Entry> := [];
    assert [] + [none] == [none];
    var pc := Waiting(p, Some(0), p.sql);
    assert ss[|acts|] == Single(NEW, NONE, Control(pc, p.binlog, {}, false), [], map[], {p.id});
    ss, acts := RunGrows(ss, acts, Test);
    SingleTest(NEW, pc, p.binlog, false, [], {p.id});
  }

  /** The commit is fetched, a worker fails on the prepare, and the dispatcher takes it from its queue. */
  lemma {:induction false} PrepareFails(ss: seq<State>, acts: seq<Action>, p: Trx, c: Trx)
    returns (ss': seq<State>, acts': seq<Action>)
    requires p.kind.XaPrepare? && p.sql != [] && c.lastCommitted < c.number && c.id != p.id && c.binlog != p.binlog
    requires var job := Job(p, 0, p.sql);
             && Run(ss, acts)
             && ss[|acts|] == Single(NEW.(status := Busy), Queues([job], [], []), Control(Top, p.binlog, {p}, false),
                                     [], map[0 := Flight(job, Queued)], {p.id})
    ensures Run(ss', acts')
    ensures ss'[|acts'|] == Single(Connection(XaPrepared, p.xid, false), NONE, Control(Draining(c), p.binlog, {}, true),
                                   [Entry(p, [], true)], map[], {p.id} + {c.id})
  {
    var job, busy, used := Job(p, 0, p.sql), NEW.(status := Busy), {p.id} + {c.id};
    var begun, control := Entry(p, [], false), Control(Draining(c), p.binlog, {p}, false);
    assert [] + [begun] == [begun] && [] + [begun.(failed := true)] == [begun.(failed := true)];
    ss', acts' := RunGrows(ss, acts, Look);
    ss', acts' := RunGrows(ss', acts', Fetch(c));
    assert ss'[|acts'|] == Single(busy, Queues([job], [], []), control, [], map[0 := Flight(job, Queued)], used);
    ss', acts' := RunGrows(ss', acts', Take);
    SingleTake(busy, job, control, [], used);
    ss', acts' := RunGrows(ss', acts', Fail(0));
    SingleFail(busy, job, control, [], begun, used);
    ss', acts' := RunGrows(ss', acts', Complete);
    SingleComplete(busy, job, Draining(c), p.binlog, true, [begun.(failed := true)], used);
  }

  /** The commit then goes to the connection and executes. */
  lemma {:induction false} CommitExecutes(ss: seq<State>, acts: seq<Action>, p: Trx, c: Trx, used: set<nat>)
    returns (ss': seq<State>, acts': seq<Action>)
    requires c.kind.XaCommit? && c.xid == p.xid && c.sql != []
    requires Run(ss, acts)
    requires ss[|acts|] == Single(Connection(XaPrepared, p.xid, false), NONE, Control(Draining(c), p.binlog, {}, true),
                                  [Entry(p, [], true)], map[], used)
    ensures Run(ss', acts') && ss'[|acts'|].history.logs == [[Entry(p, [], true), Entry(c, [c.sql[0]], false)]]
  {
    var conn, job, failed := Connection(XaPrepared, p.xid, false), Job(c, 0, c.sql), Entry(p, [], true);
    var pc, control := Waiting(c, Some(0), c.sql), Control(Top, c.binlog, {c}, true);
    ss', acts' := RunGrows(ss, acts, Drained);
    ss', acts' := RunGrows(ss', acts', Probe);
    OnlyFit(conn, c);
    assert ss'[|acts'|] == Single(conn, NONE, Control(pc, c.binlog, {}, true), [failed], map[], used);
    ss', acts' := RunGrows(ss', acts', Test);
    SingleTest(conn, pc, c.binlog, true, [failed], used);
    ss', acts' := RunGrows(ss', acts', Take);
    SingleTake(conn.(status := Busy), job, control, [failed], used);
    ss', acts' := RunGrows(ss', acts', Execute(0));
    SingleExecute(conn.(status := Busy), job, control, [failed], used);
    assert [failed] + [Entry(c, [c.sql[0]], false)] == [failed, Entry(c, [c.sql[0]], false)];
  }

  /** For every prepare with statements and every commit with its XID in a later file there is a run in which the
      session executes none of the prepare's statements and then the commit: the prepare fails, the drain for the new
      file takes its job, and the commit is dispatched without a look at the shutdown flag. */
  lemma {:induction false} FailedPrepareIsCommitted(p: Trx, c: Trx) returns (ss: seq<State>, acts: seq<Action>)
    requires p.kind.XaPrepare? && p.sql != [] && p.lastCommitted < p.number && p.binlog != ""
    requires c.kind.XaCommit? && c.xid == p.xid && c.sql != [] && c.lastCommitted < c.number
    requires c.id != p.id && c.binlog != p.binlog
    ensures Run(ss, acts) && ss[|acts|].history.logs == [[Entry(p, [], true), Entry(c, [c.sql[0]], false)]]
  {
    ss, acts := PrepareIsDispatched(p);
    ss, acts := PrepareFails(ss, acts, p, c);
    ss, acts := CommitExecutes(ss, acts, p, c, {p.id} + {c.id});
  }

  /** Without a failing statement no entry is marked, so that every prepare was executed before its commit. */
  lemma {:induction false} NothingFails(ss: seq<State>, acts: seq<Action>)
    requires Run(ss, acts) && forall i :: 0 <= i < |acts| ==> !acts[i].Fail?
    ensures NoneFailed(ss[|acts|].history.logs)
  {
    if acts != [] {
      var n := |acts| - 1;
      NothingFails(ss[..|ss| - 1], acts[..n]);
      UnfailedStep(ss[n], acts[n]);
    }
  }

  ghost predicate NoneFailed(logs: seq<seq<Entry>>) {
    forall c, i :: 0 <= c < |logs| && 0 <= i < |logs[c]| ==> !logs[c][i].failed
  }

  lemma {:induction false} UnfailedStep(s: State, a: Action)
    requires Enabled(s, a) && !a.Fail? && NoneFailed(s.history.logs)
    ensures NoneFailed(Apply(s, a).history.logs)
  {
  }
}

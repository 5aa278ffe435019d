/**
 The run ledger and the worker pool over it, cut at the points where the event loop may switch tasks: submission,
 taking work, finishing, reporting, cancellation, draining, crashing and starting again.
 */
module RunPool {
  import opened Wrappers

  // -------------------------------------------------------------------- the ledger

  datatype Status = Queued | Running | Completed | Halted | Failed | Rejected | Interrupted {
    predicate Terminal() {
      this != Queued && this != Running
    }
  }

  datatype Report = Report(turns: nat, findings: nat, summary: Option<string>, error: Option<string>)

  datatype Row = Row(
    runId: string, status: Status, queuedAt: int, startedAt: Option<int>, finishedAt: Option<int>, report: Report)

  type Ledger = map<string, Row>

  const NO_REPORT := Report(0, 0, None, None)
  const CANCELLED_REPORT := Report(0, 0, None, Some("cancelled during shutdown"))
  const RESTARTED := "process restarted while this run was in flight"
  const QUEUE_FULL := "queue full"

  /** `INSERT OR IGNORE`: the primary key decides who owns a delivery. */
  function Claim(rows: Ledger, key: string, runId: string, at: int): Ledger {
    if key in rows then rows else rows[key := Row(runId, Queued, at, None, None, NO_REPORT)]
  }

  /** The updates name a key and nothing else: no status guards them. */
  function MarkRunning(rows: Ledger, key: string, at: int): Ledger {
    if key in rows then rows[key := rows[key].(status := Running, startedAt := Some(at))] else rows
  }

  function MarkFinished(rows: Ledger, key: string, status: Status, report: Report, at: int): Ledger {
    if key in rows then rows[key := rows[key].(status := status, finishedAt := Some(at), report := report)] else rows
  }

  function MarkRejected(rows: Ledger, key: string, reason: string, at: int): Ledger {
    if key in rows
    then
      var r := rows[key];
      rows[key := r.(status := Rejected, finishedAt := Some(at), report := r.report.(error := Some(reason)))]
    else rows
  }

  function Reclaim(rows: Ledger, at: int): Ledger {
    map key | key in rows ::
      if rows[key].status.Terminal() then rows[key]
      else rows[key].(status := Interrupted, finishedAt := Some(at),
                      report := rows[key].report.(error := Some(RESTARTED)))
  }

  /** What a restart makes of a ledger: whatever was queued or running is interrupted; the rest is as it was. */
  lemma ReclaimWrites(rows: Ledger, at: int)
    ensures Reclaim(rows, at).Keys == rows.Keys
    ensures forall key :: key in rows ==>
      Reclaim(rows, at)[key] ==
        if rows[key].status == Queued || rows[key].status == Running
        then rows[key].(status := Interrupted, finishedAt := Some(at),
                        report := rows[key].report.(
                          error := Some("process restarted while this run was in flight")))
        else rows[key]
  {
  }

  // ---------------------------------------------------------------------- the pool

  datatype Worker = Waiting | Working(key: string) | Reporting(key: string) | Gone {
    predicate Busy() {
      Working? || Reporting?
    }
  }

  /** `Down`: no process. The rest is one process: its manager created, started, drained. */
  datatype Mode = Down | Created | Live | Draining | Cancelling | Stopped {
    /** The workers have been started, and the ledger reclaimed. */
    predicate Up() {
      !Down? && !Created?
    }
  }

  /**
   `zeroed`: the unfinished count has been zero since the drain began, so its `join` may return, at once or later.
   `accepted`, `started` (of this process) and `everStarted` (of all) are history.
   */
  datatype Pool = Pool(
    rows: Ledger, queue: seq<string>, active: set<string>, workers: seq<Worker>, unfinished: nat, mode: Mode,
    zeroed: bool, accepted: seq<string>, started: seq<string>, everStarted: seq<string>)

  /** A queue size that is not positive is no bound, as `asyncio.Queue` has it. */
  datatype Config = Config(workers: nat, queueSize: int) {
    predicate Full(length: nat) {
      queueSize > 0 && length >= queueSize
    }

    predicate Fits(length: nat) {
      queueSize > 0 ==> length <= queueSize
    }
  }

  datatype Step =
    | Create
    | Start(at: int)
    | Submit(key: string, runId: string, at: int)
    | CrashInSubmit(key: string, runId: string, at: int)
    | Take(i: nat, at: int)
    | Finish(i: nat, status: Status, report: Report, at: int)
    | Release(i: nat)
    | Cancel(i: nat, at: int)
    | DrainBegin
    | DrainJoined
    | DrainTimeout
    | DrainEnd
    | Crash

  function Lost(p: Pool, rows: Ledger): Pool {
    Pool(rows, [], {}, [], 0, Down, false, [], [], p.everStarted)
  }

  predicate Enabled(p: Pool, s: Step) {
    match s
    case Create => p.mode == Down
    case Start(_) => p.mode == Created
    case Submit(_, _, _) => p.mode != Down
    case CrashInSubmit(_, _, _) => p.mode != Down
    case Take(i, _) => i < |p.workers| && p.workers[i] == Waiting && p.queue != []
    case Finish(i, status, _, _) =>
      i < |p.workers| && p.workers[i].Working? && (status == Completed || status == Halted || status == Failed)
    case Release(i) => i < |p.workers| && p.workers[i].Reporting?
    case Cancel(i, _) => i < |p.workers|
    case DrainBegin => p.mode == Live || p.mode == Created || p.mode == Stopped
    case DrainJoined => p.mode == Draining && p.zeroed
    case DrainTimeout => p.mode == Draining
    case DrainEnd => p.mode == Cancelling && forall i :: 0 <= i < |p.workers| ==> p.workers[i] == Gone
    case Crash => true
  }

  function AfterSubmit(c: Config, p: Pool, key: string, runId: string, at: int): Pool {
    if key in p.rows then p
    else if c.Full(|p.queue|) then p.(rows := MarkRejected(Claim(p.rows, key, runId, at), key, QUEUE_FULL, at))
    else
      p.(rows := Claim(p.rows, key, runId, at), queue := p.queue + [key], unfinished := p.unfinished + 1,
         accepted := p.accepted + [key])
  }

  /** `finally`: out of the active map, and one unfinished task less. */
  function Retire(p: Pool, i: nat, next: Worker): Pool
    requires i < |p.workers| && p.workers[i].Busy()
  {
    p.(active := p.active - {p.workers[i].key}, unfinished := if p.unfinished > 0 then p.unfinished - 1 else 0,
       zeroed := p.zeroed || p.unfinished <= 1, workers := p.workers[i := next])
  }

  /** A step that is not enabled does nothing. */
  function Next(c: Config, p: Pool, s: Step): Pool {
    if !Enabled(p, s) then p
    else match s
      case Create => Lost(p, p.rows).(mode := Created)
      case Start(at) => p.(rows := Reclaim(p.rows, at), workers := seq(c.workers, i => Waiting), mode := Live)
      case Submit(key, runId, at) => AfterSubmit(c, p, key, runId, at)
      case CrashInSubmit(key, runId, at) => Lost(p, Claim(p.rows, key, runId, at))
      case Take(i, at) =>
        var key := p.queue[0];
        p.(rows := MarkRunning(p.rows, key, at), queue := p.queue[1..], active := p.active + {key},
           workers := p.workers[i := Working(key)], started := p.started + [key], everStarted := p.everStarted + [key])
      case Finish(i, status, report, at) =>
        p.(rows := MarkFinished(p.rows, p.workers[i].key, status, report, at),
           workers := p.workers[i := Reporting(p.workers[i].key)])
      case Release(i) => Retire(p, i, Waiting)
      case Cancel(i, at) =>
        if p.workers[i].Working? then
          Retire(p, i, Gone).(rows := MarkFinished(p.rows, p.workers[i].key, Interrupted, CANCELLED_REPORT, at))
        else if p.workers[i].Reporting? then Retire(p, i, Gone)
        else p.(workers := p.workers[i := Gone])
      case DrainBegin =>
        // Without tasks, before the start or after a drain, it returns at once.
        if p.mode != Live then p
        else p.(mode := if p.workers == [] then Stopped else Draining, zeroed := p.unfinished == 0)
      case DrainJoined => p.(mode := Cancelling)
      case DrainTimeout => p.(mode := Cancelling)
      case DrainEnd => p.(mode := Stopped)
      case Crash => Lost(p, p.rows)
  }

  function After(c: Config, p: Pool, steps: seq<Step>): Pool {
    if steps == [] then p else Next(c, After(c, p, steps[..|steps| - 1]), steps[|steps| - 1])
  }

  /** A ledger nobody has written to, and no process. */
  const EMPTY := Pool(map[], [], {}, [], 0, Down, false, [], [], [])

  /** A start finds nothing submitted before it. */
  ghost predicate Clean(p: Pool, s: Step) {
    s.Start? && Enabled(p, s) ==> p.queue == []
  }

  /** Every manager is started before anything is submitted to it. */
  ghost predicate Orderly(c: Config, p: Pool, steps: seq<Step>) {
    steps == []
    || (Orderly(c, p, steps[..|steps| - 1]) && Clean(After(c, p, steps[..|steps| - 1]), steps[|steps| - 1]))
  }

  // ------------------------------------------------------------------ the invariant

  /** What is in the queue is there once, has a queued row, and is in no worker's hands. */
  ghost predicate QueueSound(p: Pool) {
    && Distinct(p.queue)
    && forall key :: key in p.queue ==> key in p.rows && p.rows[key].status == Queued && key !in p.active
  }

  /** And everything that has a queued row is in the queue. */
  ghost predicate QueueAgrees(p: Pool) {
    QueueSound(p) && forall key :: key in p.rows && p.rows[key].status == Queued ==> key in p.queue
  }

  /** Busy workers have distinct active keys; a working one has a running row, a reporting one a finished row. */
  ghost predicate WorkersAgree(p: Pool) {
    && (forall i :: 0 <= i < |p.workers| ==> WorkerAgrees(p, p.workers[i]))
    && (forall i, j :: 0 <= i < j < |p.workers| && p.workers[i].Busy() && p.workers[j].Busy() ==>
          p.workers[i].key != p.workers[j].key)
    && (forall key :: key in p.active ==> exists i :: HasKey(p.workers, i, key))
  }

  ghost predicate HasKey(workers: seq<Worker>, i: int, key: string) {
    0 <= i < |workers| && workers[i].Busy() && workers[i].key == key
  }

  ghost predicate WorkerAgrees(p: Pool, w: Worker) {
    match w
    case Working(key) => key in p.active && key in p.rows && p.rows[key].status == Running
    case Reporting(key) => key in p.active && key in p.rows && p.rows[key].status.Terminal()
    case _ => true
  }

  /** Every running row is in some worker's hands. */
  ghost predicate RunningAgree(p: Pool) {
    forall key :: key in p.rows && p.rows[key].status == Running ==> key in p.active
  }

  ghost predicate Counted(c: Config, p: Pool) {
    && p.unfinished == |p.queue| + |p.active| && c.Fits(|p.queue|)
    && |p.workers| == if p.mode.Up() then c.workers else 0
  }

  /** What was accepted has been started, in that order, or is in the queue. */
  ghost predicate InOrder(p: Pool) {
    p.accepted == p.started + p.queue
  }

  /** Work starts in the order it was accepted, no key starts twice in the life of the ledger, none that was refused. */
  ghost predicate History(p: Pool) {
    && InOrder(p) && Distinct(p.everStarted)
    && forall key :: key in p.everStarted ==>
         key in p.rows && p.rows[key].status != Queued && p.rows[key].status != Rejected
  }

  ghost predicate Inv(c: Config, p: Pool) {
    && WorkersAgree(p) && Counted(c, p) && History(p)
    && match p.mode
       case Down => p.queue == [] && p.active == {} && p.workers == []
       case Created => QueueSound(p) && p.active == {} && p.workers == []
       case _ => QueueAgrees(p) && RunningAgree(p)
  }

  // ---------------------------------------------------------------- one step keeps it

  lemma StartKeepsInv(c: Config, p: Pool, at: int)
    requires Inv(c, p) && p.mode == Created && p.queue == []
    ensures Inv(c, Next(c, p, Start(at)))
  {
  }

  lemma ActiveHaveRows(p: Pool)
    requires WorkersAgree(p)
    ensures forall key :: key in p.active ==> key in p.rows && p.rows[key].status != Queued
  {
    forall key | key in p.active ensures key in p.rows && p.rows[key].status != Queued {
      var i :| HasKey(p.workers, i, key);
      assert WorkerAgrees(p, p.workers[i]);
    }
  }

  /** Whatever else a step does, workers agree as long as their own rows do. */
  lemma SameWorkersAgree(p: Pool, q: Pool)
    requires WorkersAgree(p) && q.workers == p.workers && q.active == p.active
    requires forall key :: key in p.active ==> key in p.rows && key in q.rows && q.rows[key] == p.rows[key]
    ensures WorkersAgree(q)
  {
    forall i | 0 <= i < |q.workers| ensures WorkerAgrees(q, q.workers[i]) {
      assert WorkerAgrees(p, p.workers[i]);
    }
  }

  /** A key the ledger has never seen is nowhere else either. */
  lemma NewKeyIsNew(c: Config, p: Pool, key: string)
    requires Inv(c, p) && p.mode != Down && key !in p.rows
    ensures key !in p.queue && key !in p.active && key !in p.everStarted
  {
    ActiveHaveRows(p);
  }

  lemma SubmitKeepsQueue(c: Config, p: Pool, key: string, runId: string, at: int)
    requires Inv(c, p) && p.mode != Down && key !in p.rows
    ensures var q := AfterSubmit(c, p, key, runId, at);
      && QueueSound(q) && (p.mode.Up() ==> QueueAgrees(q) && RunningAgree(q))
  {
    NewKeyIsNew(c, p, key);
    hide WorkersAgree, Counted, History;
  }

  lemma SubmitKeepsCounts(c: Config, p: Pool, key: string, runId: string, at: int)
    requires Inv(c, p) && p.mode != Down && key !in p.rows
    ensures var q := AfterSubmit(c, p, key, runId, at); Counted(c, q) && History(q)
  {
    NewKeyIsNew(c, p, key);
    hide WorkersAgree, QueueSound, QueueAgrees, RunningAgree;
    assert p.started + (p.queue + [key]) == (p.started + p.queue) + [key];
  }

  lemma SubmitKeepsInv(c: Config, p: Pool, key: string, runId: string, at: int)
    requires Inv(c, p) && p.mode != Down
    ensures Inv(c, AfterSubmit(c, p, key, runId, at))
  {
    if key !in p.rows {
      SubmitKeepsQueue(c, p, key, runId, at);
      SubmitKeepsCounts(c, p, key, runId, at);
      ActiveHaveRows(p);
      SameWorkersAgree(p, AfterSubmit(c, p, key, runId, at));
      hide WorkersAgree, QueueSound, QueueAgrees, RunningAgree, Counted, History;
    }
  }

  lemma TailOfDistinct(keys: seq<string>)
    requires keys != [] && Distinct(keys)
    ensures Distinct(keys[1..])
    ensures forall k :: k in keys[1..] <==> k in keys && k != keys[0]
  {
    forall k | k in keys && k != keys[0] ensures k in keys[1..] {
      var j :| 0 <= j < |keys| && keys[j] == k;
      assert keys[1..][j - 1] == k;
    }
  }

  lemma TakeKeepsQueue(c: Config, p: Pool, i: nat, at: int)
    requires Inv(c, p) && Enabled(p, Take(i, at))
    ensures QueueAgrees(Next(c, p, Take(i, at))) && RunningAgree(Next(c, p, Take(i, at)))
  {
    TailOfDistinct(p.queue);
  }

  lemma TakeKeepsWorkers(c: Config, p: Pool, i: nat, at: int)
    requires Inv(c, p) && Enabled(p, Take(i, at))
    ensures WorkersAgree(Next(c, p, Take(i, at)))
  {
    QueuedKey(p);
    hide QueueAgrees, QueueSound, RunningAgree, History, Counted, WorkersAgree;
    TakenWorkersAgree(p, Next(c, p, Take(i, at)), i, p.queue[0]);
  }

  /** A waiting worker takes up a key that nobody had, and its row says so. */
  lemma TakenWorkersAgree(p: Pool, q: Pool, i: nat, key: string)
    requires WorkersAgree(p) && key !in p.active && q.active == p.active + {key}
    requires i < |p.workers| && p.workers[i] == Waiting && q.workers == p.workers[i := Working(key)]
    requires key in q.rows && q.rows[key].status == Running
    requires q.rows.Keys == p.rows.Keys && forall k :: k in p.rows && k != key ==> q.rows[k] == p.rows[k]
    ensures WorkersAgree(q)
  {
    forall j | 0 <= j < |q.workers| ensures WorkerAgrees(q, q.workers[j]) {
      assert WorkerAgrees(p, p.workers[j]);
    }
    assert HasKey(q.workers, i, key);
    forall k | k in q.active && k != key ensures exists j :: HasKey(q.workers, j, k) {
      var j :| HasKey(p.workers, j, k);
      assert HasKey(q.workers, j, k);
    }
    forall j, k | 0 <= j < k < |q.workers| && q.workers[j].Busy() && q.workers[k].Busy()
      ensures q.workers[j].key != q.workers[k].key
    {
      assert WorkerAgrees(p, p.workers[j]) && WorkerAgrees(p, p.workers[k]);
    }
  }

  lemma QueuedKey(p: Pool)
    requires QueueSound(p) && p.queue != []
    ensures var key := p.queue[0]; key in p.queue && key in p.rows && p.rows[key].status == Queued && key !in p.active
  {
    assert p.queue[0] in p.queue;
  }

  lemma TakeKeepsCounts(c: Config, p: Pool, i: nat, at: int)
    requires Inv(c, p) && Enabled(p, Take(i, at))
    ensures Counted(c, Next(c, p, Take(i, at))) && History(Next(c, p, Take(i, at)))
  {
    hide WorkersAgree, RunningAgree;
    QueuedKey(p);
    assert p.started + p.queue == (p.started + [p.queue[0]]) + p.queue[1..];
  }

  lemma TakeKeepsInv(c: Config, p: Pool, i: nat, at: int)
    requires Inv(c, p) && Enabled(p, Take(i, at))
    ensures Inv(c, Next(c, p, Take(i, at)))
  {
    hide QueueAgrees, RunningAgree, WorkersAgree, Counted, History;
    TakeKeepsQueue(c, p, i, at);
    TakeKeepsWorkers(c, p, i, at);
    TakeKeepsCounts(c, p, i, at);
  }

  /** One worker moves on; the active map loses at most the key it held. */
  lemma MovedWorkersAgree(p: Pool, q: Pool, i: nat)
    requires WorkersAgree(p) && i < |p.workers| == |q.workers| && q.workers == p.workers[i := q.workers[i]]
    requires WorkerAgrees(q, q.workers[i])
    requires if q.workers[i].Busy()
             then p.workers[i].Busy() && q.workers[i].key == p.workers[i].key && q.active == p.active
             else if p.workers[i].Busy() then q.active == p.active - {p.workers[i].key} else q.active == p.active
    requires p.rows.Keys == q.rows.Keys
    requires forall key :: key in p.rows ==>
      q.rows[key] == p.rows[key] || (p.workers[i].Busy() && p.workers[i].key == key)
    ensures WorkersAgree(q)
  {
    forall j | 0 <= j < |q.workers| ensures WorkerAgrees(q, q.workers[j]) {
      assert WorkerAgrees(p, p.workers[j]);
    }
    forall k | k in q.active ensures exists j :: HasKey(q.workers, j, k) {
      var j :| HasKey(p.workers, j, k);
      assert HasKey(q.workers, j, k);
    }
  }

  /** A run in some worker's hands is settled, or stays so; the queue does not change. */
  ghost predicate Settles(p: Pool, q: Pool, key: string) {
    && q.queue == p.queue && q.mode == p.mode && p.active - {key} <= q.active <= p.active
    && key in p.active && key in p.rows && p.rows[key].status != Queued && q.rows.Keys == p.rows.Keys
    && (forall k :: k in p.rows && k != key ==> q.rows[k] == p.rows[k])
    && q.rows[key].status.Terminal() && (q.rows[key] == p.rows[key] || q.rows[key].status != Rejected)
  }

  lemma SettlingKeepsQueue(p: Pool, q: Pool, key: string)
    requires QueueAgrees(p) && RunningAgree(p) && Settles(p, q, key)
    ensures QueueAgrees(q) && RunningAgree(q)
  {
  }

  lemma SettlingKeepsHistory(p: Pool, q: Pool, key: string)
    requires History(p) && Settles(p, q, key)
    requires q.accepted == p.accepted && q.started == p.started && q.everStarted == p.everStarted
    ensures History(q)
  {
  }

  lemma FinishKeepsInv(c: Config, p: Pool, s: Step)
    requires Inv(c, p) && s.Finish? && Enabled(p, s)
    ensures Inv(c, Next(c, p, s))
  {
    hide WorkersAgree, QueueAgrees, QueueSound, RunningAgree, History;
    var q := Next(c, p, s);
    BusyHasRow(p, s.i);
    MovedWorkersAgree(p, q, s.i);
    SettlingKeepsQueue(p, q, p.workers[s.i].key);
    SettlingKeepsHistory(p, q, p.workers[s.i].key);
  }

  lemma BusyHasRow(p: Pool, i: nat)
    requires WorkersAgree(p) && i < |p.workers| && p.workers[i].Busy()
    ensures var key := p.workers[i].key;
      && key in p.active && key in p.rows && p.rows[key].status != Queued
      && (p.workers[i].Reporting? ==> p.rows[key].status.Terminal())
  {
    assert WorkerAgrees(p, p.workers[i]);
  }

  /** Retiring a worker whose row, if still running, is finished by the same step. */
  lemma RetireKeepsInv(c: Config, p: Pool, i: nat, next: Worker, rows: Ledger)
    requires Inv(c, p) && i < |p.workers| && p.workers[i].Busy() && (next == Waiting || next == Gone)
    requires p.workers[i].Reporting? ==> rows == p.rows
    requires p.workers[i].Working? ==>
      && p.workers[i].key in p.rows && rows.Keys == p.rows.Keys && rows[p.workers[i].key].status == Interrupted
      && forall k :: k in rows && k != p.workers[i].key ==> rows[k] == p.rows[k]
    ensures Inv(c, Retire(p, i, next).(rows := rows))
  {
    hide WorkersAgree, QueueAgrees, QueueSound, RunningAgree, History;
    var q := Retire(p, i, next).(rows := rows);
    BusyHasRow(p, i);
    MovedWorkersAgree(p, q, i);
    SettlingKeepsQueue(p, q, p.workers[i].key);
    SettlingKeepsHistory(p, q, p.workers[i].key);
  }

  lemma IdleCancelKeepsInv(c: Config, p: Pool, i: nat)
    requires Inv(c, p) && i < |p.workers| && !p.workers[i].Busy()
    ensures Inv(c, p.(workers := p.workers[i := Gone]))
  {
    MovedWorkersAgree(p, p.(workers := p.workers[i := Gone]), i);
  }

  lemma StepKeepsInv(c: Config, p: Pool, s: Step)
    requires Inv(c, p) && Clean(p, s)
    ensures Inv(c, Next(c, p, s))
  {
    if Enabled(p, s) {
      match s {
        case Start(at) => StartKeepsInv(c, p, at);
        case Submit(key, runId, at) => SubmitKeepsInv(c, p, key, runId, at);
        case Take(i, at) => TakeKeepsInv(c, p, i, at);
        case Finish(_, _, _, _) => FinishKeepsInv(c, p, s);
        case Release(i) => RetireKeepsInv(c, p, i, Waiting, p.rows);
        case Cancel(i, at) =>
          if p.workers[i].Busy() {
            assert WorkerAgrees(p, p.workers[i]);
            RetireKeepsInv(c, p, i, Gone, Next(c, p, s).rows);
          } else {
            IdleCancelKeepsInv(c, p, i);
          }
        case _ => SimpleStepKeepsInv(c, p, s);
      }
    }
  }

  lemma SimpleStepKeepsInv(c: Config, p: Pool, s: Step)
    requires Inv(c, p) && Enabled(p, s)
    requires s.Create? || s.CrashInSubmit? || s.DrainBegin? || s.DrainJoined? || s.DrainTimeout? || s.DrainEnd?
      || s.Crash?
    ensures Inv(c, Next(c, p, s))
  {
    if !s.Create? && !s.Crash? && !s.CrashInSubmit? {
      ActiveHaveRows(p);
      SameWorkersAgree(p, Next(c, p, s));
    }
  }

  lemma {:induction false} RunKeepsInv(c: Config, p: Pool, steps: seq<Step>)
    requires Inv(c, p) && Orderly(c, p, steps)
    ensures Inv(c, After(c, p, steps))
  {
    if steps != [] {
      RunKeepsInv(c, p, steps[..|steps| - 1]);
      StepKeepsInv(c, After(c, p, steps[..|steps| - 1]), steps[|steps| - 1]);
    }
  }

  // ------------------------------------------------------- a finished run stays finished

  /** An update that names one key leaves every other row as it was. */
  ghost predicate OnlyRow(before: Ledger, after: Ledger, key: string) {
    after.Keys == before.Keys && forall k :: k in before && k != key ==> after[k] == before[k]
  }

  /** Rows are never lost, and a row with a terminal status is never written again. */
  ghost predicate Kept(before: Ledger, after: Ledger) {
    forall key :: key in before ==>
      && key in after && after[key].runId == before[key].runId
      && (before[key].status.Terminal() ==> after[key] == before[key])
  }

  lemma TakeKeepsFinished(c: Config, p: Pool, i: nat, at: int)
    requires Inv(c, p) && Enabled(p, Take(i, at))
    ensures Kept(p.rows, Next(c, p, Take(i, at)).rows)
  {
    hide History, Counted, RunningAgree, WorkersAgree, Kept;
    QueuedKey(p);
    UpdateKeeps(p.rows, p.queue[0], MarkRunning(p.rows, p.queue[0], at));
  }

  lemma WorkersKeepFinished(c: Config, p: Pool, s: Step)
    requires Inv(c, p) && (s.Finish? || s.Cancel?) && Enabled(p, s)
    ensures Kept(p.rows, Next(c, p, s).rows)
  {
    hide History, Counted, RunningAgree, QueueAgrees, QueueSound;
    assert WorkerAgrees(p, p.workers[s.i]);
    if p.workers[s.i].Working? {
      UpdateKeeps(p.rows, p.workers[s.i].key, Next(c, p, s).rows);
    }
  }

  /** The updates are unconditional; that they never hit a finished run is what the invariant is for. */
  lemma StepKeepsFinished(c: Config, p: Pool, s: Step)
    requires Inv(c, p)
    ensures Kept(p.rows, Next(c, p, s).rows)
  {
    hide Inv;
    if Enabled(p, s) && s.Take? {
      TakeKeepsFinished(c, p, s.i, s.at);
    } else if Enabled(p, s) && (s.Finish? || s.Cancel?) {
      WorkersKeepFinished(c, p, s);
    }
  }

  lemma UpdateKeeps(rows: Ledger, key: string, after: Ledger)
    requires key in rows && !rows[key].status.Terminal()
    requires OnlyRow(rows, after, key) && after[key].runId == rows[key].runId
    ensures Kept(rows, after)
  {
  }

  lemma KeptTransitive(a: Ledger, b: Ledger, d: Ledger)
    requires Kept(a, b) && Kept(b, d)
    ensures Kept(a, d)
  {
    forall key | key in a
      ensures key in d && d[key].runId == a[key].runId && (a[key].status.Terminal() ==> d[key] == a[key])
    {
      assert key in b;
    }
  }

  /** Over every run, through crashes, drains and restarts, a finished run keeps the status and report it has. */
  lemma {:induction false} FinishedStaysFinished(c: Config, p: Pool, steps: seq<Step>)
    requires Inv(c, p) && Orderly(c, p, steps)
    ensures Kept(p.rows, After(c, p, steps).rows)
  {
    if steps != [] {
      FinishedStaysFinished(c, p, steps[..|steps| - 1]);
      RunKeepsInv(c, p, steps[..|steps| - 1]);
      StepKeepsFinished(c, After(c, p, steps[..|steps| - 1]), steps[|steps| - 1]);
      KeptTransitive(p.rows, After(c, p, steps[..|steps| - 1]).rows, After(c, p, steps).rows);
    }
  }

  /**
   Each delivery starts at most once in the life of the ledger, whatever is redelivered, cancelled, drained or
   restarted; and within one process runs start in the order they were accepted.
   */
  lemma StartsAtMostOnce(c: Config, steps: seq<Step>)
    requires Orderly(c, EMPTY, steps)
    ensures var p := After(c, EMPTY, steps);
      Distinct(p.everStarted) && p.started <= p.accepted && p.accepted == p.started + p.queue
  {
    RunKeepsInv(c, EMPTY, steps);
  }

  /**
   Without `start` first it is not so: what was submitted before it is reclaimed as interrupted while it sits in the
   queue, and the worker that takes it writes over that.
   */
  lemma StartMustComeFirst(c: Config, p: Pool, at: int, later: int)
    requires Inv(c, p) && p.mode == Created && p.queue != [] && c.workers > 0
    ensures var q := Next(c, p, Start(at)); var u := Next(c, q, Take(0, later)); var key := p.queue[0];
      && key in q.rows && q.rows[key].status == Interrupted
      && key in u.rows && u.rows[key].status == Running && !Kept(q.rows, u.rows)
  {
    QueuedKey(p);
    var q := Next(c, p, Start(at));
    assert q.workers[0] == Waiting && Enabled(q, Take(0, later));
  }

  /** In every orderly run from here, finished runs stay finished. */
  ghost predicate SafeFrom(c: Config, p: Pool) {
    forall steps :: Orderly(c, p, steps) ==> Kept(p.rows, After(c, p, steps).rows)
  }

  /** Exactly when a start is safe: finished runs stay finished in every run after it iff nothing came before it. */
  lemma StartIsSafeExactlyWhenFirst(c: Config, p: Pool, at: int)
    requires Inv(c, p) && p.mode == Created && c.workers > 0
    ensures SafeFrom(c, Next(c, p, Start(at))) <==> p.queue == []
  {
    hide Inv, Kept, Next, Enabled, Orderly;
    var q := Next(c, p, Start(at));
    if p.queue == [] {
      StartKeepsInv(c, p, at);
      forall steps | Orderly(c, q, steps) ensures Kept(q.rows, After(c, q, steps).rows) {
        FinishedStaysFinished(c, q, steps);
      }
    } else {
      StartMustComeFirst(c, p, at, at);
      OneStepRun(c, q, Take(0, at));
      assert Orderly(c, q, [Take(0, at)]) && !Kept(q.rows, After(c, q, [Take(0, at)]).rows);
    }
  }

  lemma OneStepRun(c: Config, p: Pool, s: Step)
    ensures After(c, p, [s]) == Next(c, p, s)
    ensures !s.Start? ==> Orderly(c, p, [s])
  {
    hide Next, Enabled;
    assert [s][..0] == [];
    assert After(c, p, []) == p && Orderly(c, p, []);
  }

  /**
   What a submission does: a known key nothing; a new one is claimed and queued while there is room, and otherwise its
   row is rejected.
   */
  lemma SubmitWrites(c: Config, p: Pool, key: string, runId: string, at: int)
    requires p.mode != Down
    ensures Next(c, p, Submit(key, runId, at)) ==
      if key in p.rows then p
      else if c.queueSize > 0 && |p.queue| >= c.queueSize then
        p.(rows := p.rows[key := Row(runId, Rejected, at, None, Some(at), Report(0, 0, None, Some("queue full")))])
      else
        p.(rows := p.rows[key := Row(runId, Queued, at, None, None, Report(0, 0, None, None))],
           queue := p.queue + [key], unfinished := p.unfinished + 1, accepted := p.accepted + [key])
  {
  }

  /** What a start does: it accounts for the ledger and sets its workers waiting. */
  lemma StartWrites(c: Config, p: Pool, at: int)
    requires p.mode == Created
    ensures var q := Next(c, p, Start(at));
      && q == p.(rows := q.rows, workers := q.workers, mode := Live)
      && q.rows == Reclaim(p.rows, at)
      && |q.workers| == c.workers && forall i :: 0 <= i < c.workers ==> q.workers[i] == Waiting
  {
  }

  /** A crash, at any time, loses the process and nothing of the ledger; in a submission, after the claim. */
  lemma CrashLoses(c: Config, p: Pool, key: string, runId: string, at: int)
    ensures Next(c, p, Crash) == Pool(p.rows, [], {}, [], 0, Down, false, [], [], p.everStarted)
    ensures p.mode != Down ==>
      Next(c, p, CrashInSubmit(key, runId, at)) ==
        Pool(if key in p.rows then p.rows
             else p.rows[key := Row(runId, Queued, at, None, None, Report(0, 0, None, None))],
             [], {}, [], 0, Down, false, [], [], p.everStarted)
  {
  }

  /** When every worker is gone the drain is over. */
  lemma DrainEnds(c: Config, p: Pool)
    requires p.mode == Cancelling && forall i :: 0 <= i < |p.workers| ==> p.workers[i] == Gone
    ensures Next(c, p, DrainEnd) == p.(mode := Stopped)
  {
  }

  /** A key that was ever claimed is a duplicate for good. */
  lemma DuplicateChangesNothing(c: Config, p: Pool, steps: seq<Step>, key: string, runId: string, at: int)
    requires Inv(c, p) && key in p.rows && Orderly(c, p, steps)
    ensures Next(c, After(c, p, steps), Submit(key, runId, at)) == After(c, p, steps)
  {
    FinishedStaysFinished(c, p, steps);
  }

  /**
   A delivery refused for a full queue is refused for good: whatever happens then, its row stays as the refusal left
   it, every retry of it is a duplicate that changes nothing, and it is never run.
   */
  lemma RefusedForGood(c: Config, p: Pool, s: Step, steps: seq<Step>, retryId: string, retryAt: int)
    requires Inv(c, p) && s.Submit? && p.mode != Down && s.key !in p.rows
    requires c.queueSize > 0 && |p.queue| >= c.queueSize
    requires Orderly(c, Next(c, p, s), steps)
    ensures var u := After(c, Next(c, p, s), steps);
      && s.key in u.rows
      && u.rows[s.key] == Row(s.runId, Rejected, s.at, None, Some(s.at), Report(0, 0, None, Some("queue full")))
      && s.key !in u.everStarted
      && Next(c, u, Submit(s.key, retryId, retryAt)) == u
  {
    var q := Next(c, p, s);
    SubmitKeepsInv(c, p, s.key, s.runId, s.at);
    assert q == AfterSubmit(c, p, s.key, s.runId, s.at);
    RunKeepsInv(c, q, steps);
    FinishedStaysFinished(c, q, steps);
    DuplicateChangesNothing(c, q, steps, s.key, retryId, retryAt);
    hide Next, After;
    assert s.key in q.rows;
  }

  // -------------------------------------------------------------------------- bounds

  function BusyKeys(workers: seq<Worker>): set<string> {
    if workers == [] then {}
    else BusyKeys(workers[..|workers| - 1])
         + if workers[|workers| - 1].Busy() then {workers[|workers| - 1].key} else {}
  }

  lemma {:induction false} BusyKeysBound(workers: seq<Worker>)
    ensures |BusyKeys(workers)| <= |workers|
    ensures forall i, key :: HasKey(workers, i, key) ==> key in BusyKeys(workers)
  {
    if workers != [] {
      var front := workers[..|workers| - 1];
      BusyKeysBound(front);
      forall i, key | HasKey(workers, i, key) ensures key in BusyKeys(workers) {
        assert i < |front| ==> HasKey(front, i, key);
      }
    }
  }

  lemma {:induction false} SubsetSize(small: set<string>, big: set<string>)
    requires small <= big
    ensures |small| <= |big|
  {
    if small != {} {
      var x :| x in small;
      SubsetSize(small - {x}, big - {x});
    }
  }

  lemma {:induction false} KeysOfQueue(queue: seq<string>)
    ensures |set key | key in queue| <= |queue|
  {
    if queue != [] {
      KeysOfQueue(queue[1..]);
      assert (set key | key in queue) == {queue[0]} + set key | key in queue[1..];
    }
  }

  /** Rows that say work is still to be done, or being done. */
  ghost function InFlight(rows: Ledger): set<string> {
    set key | key in rows && !rows[key].status.Terminal()
  }

  /** The storm has a ceiling: queue, active runs, and unfinished rows of a live process are all bounded. */
  lemma Ceiling(c: Config, steps: seq<Step>)
    requires Orderly(c, EMPTY, steps)
    ensures var p := After(c, EMPTY, steps);
      && (c.queueSize > 0 ==> |p.queue| <= c.queueSize) && |p.active| <= c.workers
      && (p.mode.Up() && c.queueSize > 0 ==> |InFlight(p.rows)| <= c.queueSize + c.workers)
      && p.unfinished == |p.queue| + |p.active|
  {
    RunKeepsInv(c, EMPTY, steps);
    PoolCeiling(c, After(c, EMPTY, steps));
  }

  lemma PoolCeiling(c: Config, p: Pool)
    requires Inv(c, p)
    ensures |p.active| <= c.workers
    ensures p.mode.Up() && c.queueSize > 0 ==> |InFlight(p.rows)| <= c.queueSize + c.workers
  {
    hide History, QueueSound;
    BusyKeysBound(p.workers);
    assert p.active <= BusyKeys(p.workers) by {
      forall key | key in p.active ensures key in BusyKeys(p.workers) {
        var i :| HasKey(p.workers, i, key);
      }
    }
    SubsetSize(p.active, BusyKeys(p.workers));
    if p.mode.Up() {
      var queued := set key | key in p.queue;
      KeysOfQueue(p.queue);
      assert InFlight(p.rows) <= queued + p.active;
      SubsetSize(InFlight(p.rows), queued + p.active);
    }
  }

  // -------------------------------------------------------------------- drain, restart

  /** Nothing queued and nothing in hand. */
  ghost predicate Quiet(p: Pool) {
    p.queue == [] && p.active == {} && InFlight(p.rows) == {}
  }

  /** The count is zero exactly when every row ever claimed has a terminal status, with nothing queued or in hand. */
  lemma ZeroIsQuiet(c: Config, p: Pool)
    requires Inv(c, p) && p.mode.Up()
    ensures p.unfinished == 0 <==> Quiet(p)
  {
    if p.unfinished == 0 {
      assert |p.queue| == 0 && |p.active| == 0;
    }
  }

  ghost predicate IsSubmission(s: Step) {
    s.Submit? || s.CrashInSubmit?
  }

  ghost predicate NoSubmission(steps: seq<Step>) {
    forall i :: 0 <= i < |steps| ==> !IsSubmission(steps[i])
  }

  /** What holds from the start of a drain on, while nothing is submitted. */
  ghost predicate Drying(p: Pool) {
    && (p.mode == Draining && p.zeroed ==> p.unfinished == 0)
    && (p.mode == Created ==> p.queue == [])
  }

  lemma StepKeepsDrying(c: Config, p: Pool, s: Step)
    requires !IsSubmission(s) && (Drying(p) || (p.mode == Live && s == DrainBegin))
    ensures Drying(Next(c, p, s))
  {
    hide Claim, MarkRunning, MarkFinished, MarkRejected, Reclaim;
  }

  lemma {:induction false} RunKeepsDrying(c: Config, p: Pool, steps: seq<Step>)
    requires Inv(c, p) && Drying(p) && NoSubmission(steps)
    ensures Drying(After(c, p, steps)) && Inv(c, After(c, p, steps))
  {
    if steps != [] {
      RunKeepsDrying(c, p, steps[..|steps| - 1]);
      StepKeepsDrying(c, After(c, p, steps[..|steps| - 1]), steps[|steps| - 1]);
      StepKeepsInv(c, After(c, p, steps[..|steps| - 1]), steps[|steps| - 1]);
    }
  }

  /** A drain during which nothing is submitted: when `join` returns, every row ever claimed has a terminal status. */
  lemma JoinedIsQuiet(c: Config, p: Pool, steps: seq<Step>)
    requires Inv(c, p) && p.mode == Live && NoSubmission(steps)
    requires Enabled(After(c, Next(c, p, DrainBegin), steps), DrainJoined)
    ensures Quiet(After(c, Next(c, p, DrainBegin), steps))
  {
    StepKeepsDrying(c, p, DrainBegin);
    StepKeepsInv(c, p, DrainBegin);
    RunKeepsDrying(c, Next(c, p, DrainBegin), steps);
    ZeroIsQuiet(c, After(c, Next(c, p, DrainBegin), steps));
  }

  /**
   `join` does not look again once it has been woken: work accepted between the count's reaching zero and the return
   is left in the queue, and the workers are cancelled over it.
   */
  lemma LateWorkIsLeftBehind(c: Config, p: Pool, key: string, runId: string, at: int)
    requires Inv(c, p) && p.mode == Draining && p.zeroed && p.unfinished == 0 && key !in p.rows
    ensures var q := Next(c, p, Submit(key, runId, at)); var u := Next(c, q, DrainJoined);
      && u.mode == Cancelling && u.queue == [key] && u.unfinished == 1
      && key in u.rows && u.rows[key].status == Queued && !Quiet(u)
  {
    ZeroIsQuiet(c, p);
    hide Inv;
    var u := Next(c, Next(c, p, Submit(key, runId, at)), DrainJoined);
    assert p.queue + [key] == [key];
  }

  /** Whatever happens between the count's reaching zero and the join's return, short of the process's end. */
  ghost predicate BeforeTheJoin(s: Step) {
    !s.Crash? && !s.CrashInSubmit? && !s.DrainTimeout? && !s.DrainJoined?
  }

  /**
   Exactly what a join leaves behind. With the count at zero and the join about to return, one more step leaves the
   joined pool quiet if and only if it is not the submission of a new delivery.
   */
  lemma JoinIsQuietExactly(c: Config, p: Pool, s: Step)
    requires Inv(c, p) && p.mode == Draining && p.zeroed && p.unfinished == 0 && BeforeTheJoin(s)
    ensures var q := Next(c, p, s);
      Enabled(q, DrainJoined) && (Quiet(Next(c, q, DrainJoined)) <==> !(s.Submit? && s.key !in p.rows))
  {
    hide Inv, Quiet;
    if s.Submit? && s.key !in p.rows {
      LateWorkIsLeftBehind(c, p, s.key, s.runId, s.at);
      StaysJoinable(c, p, s);
    } else {
      ZeroIsQuiet(c, p);
      StaysJoinable(c, p, s);
      if !s.Submit? {
        StepKeepsQuiet(c, p, s);
      }
      JoinKeepsQuiet(c, Next(c, p, s));
    }
  }

  lemma StaysJoinable(c: Config, p: Pool, s: Step)
    requires p.mode == Draining && p.zeroed && BeforeTheJoin(s)
    ensures Enabled(Next(c, p, s), DrainJoined)
  {
    hide Claim, MarkRunning, MarkFinished, MarkRejected, Reclaim;
  }

  lemma JoinKeepsQuiet(c: Config, p: Pool)
    requires Enabled(p, DrainJoined)
    ensures Quiet(Next(c, p, DrainJoined)) <==> Quiet(p)
  {
  }

  lemma StepKeepsQuiet(c: Config, p: Pool, s: Step)
    requires Inv(c, p) && Quiet(p) && !IsSubmission(s)
    ensures Quiet(Next(c, p, s)) && Next(c, p, s).rows == p.rows
  {
    if Enabled(p, s) && (s.Finish? || s.Release? || s.Cancel?) {
      assert WorkerAgrees(p, p.workers[s.i]);
    }
    if s.Start? {
      assert forall key :: key in p.rows ==> key !in InFlight(p.rows);
      assert forall key :: key in p.rows ==> Reclaim(p.rows, s.at)[key] == p.rows[key];
    }
  }

  lemma {:induction false} QuietRunsStayQuiet(c: Config, p: Pool, steps: seq<Step>)
    requires Inv(c, p) && Quiet(p) && NoSubmission(steps)
    ensures Quiet(After(c, p, steps)) && After(c, p, steps).rows == p.rows && Inv(c, After(c, p, steps))
  {
    if steps != [] {
      var v := After(c, p, steps[..|steps| - 1]);
      QuietRunsStayQuiet(c, p, steps[..|steps| - 1]);
      StepKeepsQuiet(c, v, steps[|steps| - 1]);
      StepKeepsInv(c, v, steps[|steps| - 1]);
    }
  }

  /**
   A drain that does not time out leaves no run behind. If nothing is submitted from its beginning on, then when the
   queue has joined every row is completed, halted, failed, rejected or interrupted before, and neither cancelling the
   workers nor any crash or restart after it writes to the ledger again.
   */
  lemma DrainLeavesNothingBehind(c: Config, p: Pool, steps: seq<Step>, later: seq<Step>)
    requires Inv(c, p) && p.mode == Live && NoSubmission(steps) && NoSubmission(later)
    requires Enabled(After(c, Next(c, p, DrainBegin), steps), DrainJoined)
    ensures var q := After(c, Next(c, p, DrainBegin), steps); var u := After(c, Next(c, q, DrainJoined), later);
      Quiet(u) && u.rows == q.rows
  {
    StepKeepsDrying(c, p, DrainBegin);
    StepKeepsInv(c, p, DrainBegin);
    RunKeepsDrying(c, Next(c, p, DrainBegin), steps);
    JoinedIsQuiet(c, p, steps);
    var q := After(c, Next(c, p, DrainBegin), steps);
    StepKeepsQuiet(c, q, DrainJoined);
    StepKeepsInv(c, q, DrainJoined);
    QuietRunsStayQuiet(c, Next(c, q, DrainJoined), later);
  }

  /**
   Whatever came before, a timed-out drain or a crash at any point, the next `start` accounts for every run: nothing is
   left queued or running, finished runs are as they were, and each gets one terminal status that it keeps.
   */
  lemma StartAccountsForEveryRun(c: Config, before: seq<Step>, at: int, later: seq<Step>)
    requires Enabled(After(c, EMPTY, before), Start(at)) && Orderly(c, EMPTY, before + [Start(at)])
    requires Orderly(c, Next(c, After(c, EMPTY, before), Start(at)), later)
    ensures var p := After(c, EMPTY, before); var q := Next(c, p, Start(at));
      && q.rows.Keys == p.rows.Keys && Kept(p.rows, q.rows) && InFlight(q.rows) == {}
      && (forall key :: key in q.rows ==>
            key in After(c, q, later).rows && After(c, q, later).rows[key] == q.rows[key])
      && forall key :: key in p.rows ==>
           q.rows[key] ==
             if p.rows[key].status == Queued || p.rows[key].status == Running
             then p.rows[key].(status := Interrupted, finishedAt := Some(at),
                               report := p.rows[key].report.(
                                 error := Some("process restarted while this run was in flight")))
             else p.rows[key]
  {
    ReclaimWrites(After(c, EMPTY, before).rows, at);
    assert (before + [Start(at)])[..|before|] == before;
    var p := After(c, EMPTY, before);
    var q := Next(c, p, Start(at));
    RunKeepsInv(c, EMPTY, before);
    StepKeepsInv(c, p, Start(at));
    StepKeepsFinished(c, p, Start(at));
    FinishedStaysFinished(c, q, later);
    hide Inv;
    forall key | key in q.rows
      ensures key in After(c, q, later).rows && After(c, q, later).rows[key] == q.rows[key]
    {
      assert q.rows[key].status.Terminal();
    }
  }

  /** Cancelling a worker records the run it holds as interrupted, and settles its task in the queue. */
  lemma CancelInterrupts(c: Config, p: Pool, i: nat, at: int)
    requires Inv(c, p) && i < |p.workers| && p.workers[i].Working?
    ensures var q := Next(c, p, Cancel(i, at)); var key := p.workers[i].key;
      && q.rows
         == p.rows[key := p.rows[key].(status := Interrupted, finishedAt := Some(at),
                                       report := Report(0, 0, None, Some("cancelled during shutdown")))]
      && key !in q.active && q.unfinished == p.unfinished - 1 && q.workers[i] == Gone
  {
    assert WorkerAgrees(p, p.workers[i]);
  }
}

/**
 `RunLedger` and `RunManager` as the objects they are. The ledger's updates check no status; the manager's invariant is
 what keeps them from ever hitting a finished run. Between two awaits a manager method is one step of the pool; the
 worker's loop is its three stretches between awaits: take, conclude, release.
 */
module RunManager {
  import opened Wrappers
  import opened RunPool

  /** What a delivery is told. */
  datatype Submission = Accepted(runId: string) | Duplicate(runId: string) | AtCapacity(runId: string)

  /** How the agent's run ended: it raised, or returned with or without a halt. */
  datatype Ending = Raised(error: string) | Returned(report: Report)

  /** `halted` is a reason; none, or an empty one, is a run that was not halted. */
  predicate HasHalted(report: Report) {
    report.error.Some? && report.error.value != ""
  }

  /** The same delivery, claimed as it was. */
  ghost predicate SameEntry(r: Row, s: Row) {
    s.runId == r.runId && s.queuedAt == r.queuedAt
  }

  /** The update of one key is safe: it finds no finished run, or leaves it as it was. */
  ghost predicate SafeUpdate(before: Ledger, after: Ledger, key: string) {
    key in before && before[key].status.Terminal() ==> key in after && after[key] == before[key]
  }

  /** An update of one key that leaves the run's id alone keeps finished runs exactly when it is safe. */
  lemma KeptExactlyWhenSafe(before: Ledger, after: Ledger, key: string)
    requires OnlyRow(before, after, key) && (key in before ==> after[key].runId == before[key].runId)
    ensures Kept(before, after) <==> SafeUpdate(before, after, key)
  {
  }

  class RunLedger {
    var rows: Ledger

    constructor ()
      ensures rows == map[]
    {
      rows := map[];
    }

    /** The insert is the claim. */
    method ClaimDelivery(key: string, runId: string, at: int) returns (claimed: bool)
      modifies this
      ensures rows == Claim(old(rows), key, runId, at)
      ensures claimed <==> key !in old(rows)
      ensures rows ==
        if claimed then old(rows)[key := Row(runId, Queued, at, None, None, Report(0, 0, None, None))] else old(rows)
      ensures Kept(old(rows), rows)
    {
      claimed := key !in rows;
      if claimed {
        rows := rows[key := Row(runId, Queued, at, None, None, NO_REPORT)];
      }
    }

    /** Whatever its status; so a finished run is kept exactly when there is none under the key. */
    method MarkRunningRow(key: string, at: int)
      modifies this
      ensures OnlyRow(old(rows), rows, key)
      ensures key in rows ==>
        rows[key].status == Running && rows[key].startedAt == Some(at) && SameEntry(old(rows)[key], rows[key])
      ensures key in rows ==>
        rows[key].finishedAt == old(rows)[key].finishedAt && rows[key].report == old(rows)[key].report
      ensures Kept(old(rows), rows) <==> (key in old(rows) ==> !old(rows)[key].status.Terminal())
    {
      if key in rows {
        rows := rows[key := rows[key].(status := Running, startedAt := Some(at))];
      }
      KeptExactlyWhenSafe(old(rows), rows, key);
    }

    /** Whatever its status; so a finished run is kept exactly when there is none, or it is given what it has. */
    method MarkFinishedRow(key: string, status: Status, report: Report, at: int)
      modifies this
      ensures OnlyRow(old(rows), rows, key)
      ensures key in rows ==>
        && rows[key].status == status && rows[key].finishedAt == Some(at) && rows[key].report == report
        && SameEntry(old(rows)[key], rows[key]) && rows[key].startedAt == old(rows)[key].startedAt
      ensures Kept(old(rows), rows) <==> SafeUpdate(old(rows), rows, key)
    {
      if key in rows {
        rows := rows[key := rows[key].(status := status, finishedAt := Some(at), report := report)];
      }
      KeptExactlyWhenSafe(old(rows), rows, key);
    }

    /** Whatever its status; the run's numbers and summary stay as they were. */
    method MarkRejectedRow(key: string, reason: string, at: int)
      modifies this
      ensures OnlyRow(old(rows), rows, key)
      ensures key in rows ==>
        && rows[key].status == Rejected && rows[key].finishedAt == Some(at)
        && rows[key].report == old(rows)[key].report.(error := Some(reason))
        && SameEntry(old(rows)[key], rows[key]) && rows[key].startedAt == old(rows)[key].startedAt
      ensures Kept(old(rows), rows) <==> SafeUpdate(old(rows), rows, key)
    {
      if key in rows {
        var r := rows[key];
        rows := rows[key := r.(status := Rejected, finishedAt := Some(at), report := r.report.(error := Some(reason)))];
      }
      KeptExactlyWhenSafe(old(rows), rows, key);
    }

    /** Marks what a dead process left in flight; the count is the number of rows it changed. */
    method ReclaimInterrupted(at: int) returns (count: nat)
      modifies this
      ensures rows == Reclaim(old(rows), at)
      ensures count == |InFlight(old(rows))|
      ensures InFlight(rows) == {} && Kept(old(rows), rows) && rows.Keys == old(rows).Keys
      ensures forall key :: key in rows ==>
        rows[key] ==
          if old(rows)[key].status == Queued || old(rows)[key].status == Running
          then old(rows)[key].(status := Interrupted, finishedAt := Some(at),
                               report := old(rows)[key].report.(
                                 error := Some("process restarted while this run was in flight")))
          else old(rows)[key]
    {
      var hit := set key | key in rows && (rows[key].status == Queued || rows[key].status == Running);
      assert hit == InFlight(rows);
      rows := map key | key in rows ::
        if key in hit
        then rows[key].(status := Interrupted, finishedAt := Some(at),
                        report := rows[key].report.(error := Some(RESTARTED)))
        else rows[key];
      count := |hit|;
    }
  }

  class Manager {
    const ledger: RunLedger
    const workers: nat
    const queueSize: int
    var queue: seq<string>
    var active: set<string>
    var unfinished: nat
    var tasks: seq<Worker>
    var mode: Mode
    ghost var zeroed: bool
    ghost var accepted: seq<string>
    ghost var started: seq<string>
    ghost var everStarted: seq<string>

    ghost function Sizes(): Config {
      Config(workers, queueSize)
    }

    ghost function View(): Pool
      reads this, ledger
    {
      Pool(ledger.rows, queue, active, tasks, unfinished, mode, zeroed, accepted, started, everStarted)
    }

    /** Queue, active map, workers, count and ledger agree, as the pool's invariant says. */
    ghost predicate Valid()
      reads this, ledger
    {
      Inv(Sizes(), View()) && mode != Down
    }

    /** A new manager over a ledger that earlier processes may have written to. */
    constructor (ledger: RunLedger, workers: nat, queueSize: int, ghost before: Pool)
      requires Inv(Config(workers, queueSize), before) && before.mode == Down && before.rows == ledger.rows
      ensures this.ledger == ledger && Sizes() == Config(workers, queueSize)
      ensures Valid() && View() == Next(Sizes(), before, Create)
    {
      this.ledger, this.workers, this.queueSize := ledger, workers, queueSize;
      queue, active, unfinished, tasks, mode := [], {}, 0, [], Created;
      zeroed, accepted, started, everStarted := false, [], [], before.everStarted;
      new;
      StepKeepsInv(Sizes(), before, Create);
    }

    /** Accounts for what a dead process left behind. It leaves a valid manager exactly if nothing was submitted yet. */
    method StartUp(at: int)
      requires Valid() && mode == Created
      modifies this, ledger
      ensures View() == Next(Sizes(), old(View()), Start(at))
      ensures Valid() <==> old(queue) == []
      ensures InFlight(ledger.rows) == {} && Kept(old(ledger.rows), ledger.rows)
      ensures mode == Live && |tasks| == workers && queue == old(queue) && ledger.rows.Keys == old(ledger.rows).Keys
      ensures forall key :: key in ledger.rows ==>
        var was := old(ledger.rows)[key];
        ledger.rows[key] ==
          if was.status == Queued || was.status == Running
          then was.(status := Interrupted, finishedAt := Some(at),
                    report := was.report.(error := Some("process restarted while this run was in flight")))
          else was
    {
      hide Inv, QueueSound, QueueAgrees, RunningAgree, WorkersAgree, History, Counted;
      ghost var p := View();
      var _ := ledger.ReclaimInterrupted(at);
      tasks := seq(workers, i => Waiting);
      mode := Live;
      ValidStart(Sizes(), p, at);
    }

    /** Never waits: claims, then enqueues, or says why not. */
    method SubmitDelivery(key: string, runId: string, at: int) returns (r: Submission)
      requires Valid()
      modifies this, ledger
      ensures Valid() && View() == Next(Sizes(), old(View()), Submit(key, runId, at))
      ensures key in old(ledger.rows) ==> r == Duplicate(old(ledger.rows)[key].runId) && View() == old(View())
      ensures key !in old(ledger.rows) ==>
        r == if queueSize > 0 && |old(queue)| >= queueSize then AtCapacity(runId) else Accepted(runId)
      ensures match r
        case Duplicate(_) => View() == old(View())
        case AtCapacity(_) =>
          && queue == old(queue)
          && ledger.rows == old(ledger.rows)[key :=
               Row(runId, Rejected, at, None, Some(at), Report(0, 0, None, Some("queue full")))]
        case Accepted(_) =>
          && queue == old(queue) + [key]
          && ledger.rows == old(ledger.rows)[key := Row(runId, Queued, at, None, None, Report(0, 0, None, None))]
      ensures r.Accepted? <==> key in queue && key !in old(queue)
      ensures (queueSize > 0 ==> |queue| <= queueSize) && Kept(old(ledger.rows), ledger.rows)
    {
      hide Inv, Kept, OnlyRow, Reclaim, Retire, MarkFinished;
      ghost var p := View();
      StepFacts(Sizes(), p, Submit(key, runId, at));
      QueuedAreClaimed(Sizes(), p);
      var claimed := ledger.ClaimDelivery(key, runId, at);
      if !claimed {
        return Duplicate(ledger.rows[key].runId);
      }
      if queueSize > 0 && |queue| >= queueSize {
        ghost var claimedRows := ledger.rows;
        ledger.MarkRejectedRow(key, QUEUE_FULL, at);
        UpdatedLedger(claimedRows, ledger.rows, key, MarkRejected(claimedRows, key, QUEUE_FULL, at)[key]);
        return AtCapacity(runId);
      }
      queue := queue + [key];
      unfinished := unfinished + 1;
      accepted := accepted + [key];
      r := Accepted(runId);
    }

    /** The first thing `_execute` does. */
    method RecordStart(key: string, at: int)
      requires key in ledger.rows
      modifies ledger
      ensures ledger.rows == MarkRunning(old(ledger.rows), key, at)
      ensures ledger.rows == old(ledger.rows)[key := old(ledger.rows)[key].(status := Running, startedAt := Some(at))]
    {
      hide Kept;
      ghost var before := ledger.rows;
      ledger.MarkRunningRow(key, at);
      RunningLedger(before, ledger.rows, key, at);
    }

    /** From `queue.get` to the call of the agent: the oldest accepted run, which has never been started before. */
    method TakeNext(i: nat, at: int) returns (key: string)
      requires Valid() && i < |tasks| && tasks[i] == Waiting && queue != []
      modifies this, ledger
      ensures Valid() && View() == Next(Sizes(), old(View()), Take(i, at))
      ensures Begun(old(View()), View(), key)
      ensures key in old(ledger.rows) && ledger.rows == old(ledger.rows)[key :=
        old(ledger.rows)[key].(status := Running, startedAt := Some(at))]
    {
      hide Inv, Kept, OnlyRow, Next, MarkRunning, Begun;
      ghost var p := View();
      StepFacts(Sizes(), p, Take(i, at));
      TakeSpelled(Sizes(), p, i, at);
      TakeBegins(Sizes(), p, i, at);
      key := queue[0];
      queue := queue[1..];
      active := active + {key};
      RecordStart(key, at);
      tasks := tasks[i := Working(key)];
      started := started + [key];
      everStarted := everStarted + [key];
    }

    /** From the agent's return, or its exception, to the reporter. */
    method Conclude(i: nat, ending: Ending, at: int)
      requires Valid() && i < |tasks| && tasks[i].Working?
      modifies this, ledger
      ensures Valid() && View() == Next(Sizes(), old(View()), match ending
        case Raised(error) => Finish(i, Failed, Report(0, 0, None, Some(error)), at)
        case Returned(report) => Finish(i, if HasHalted(report) then Halted else Completed, report, at))
      ensures var key := old(tasks)[i].key;
        && OnlyRow(old(ledger.rows), ledger.rows, key) && Kept(old(ledger.rows), ledger.rows)
        && key in ledger.rows && old(ledger.rows)[key].status == Running && ledger.rows[key].status.Terminal()
        && ledger.rows == old(ledger.rows)[key := match ending
             case Raised(error) =>
               old(ledger.rows)[key].(
                 status := Failed, finishedAt := Some(at), report := Report(0, 0, None, Some(error)))
             case Returned(report) =>
               old(ledger.rows)[key].(
                 status := if report.error.Some? && report.error.value != "" then Halted else Completed,
                 finishedAt := Some(at), report := report)]
    {
      hide Inv, Kept;
      ghost var p := View();
      var key := tasks[i].key;
      var (status, report) := match ending
        case Raised(error) => (Failed, Report(0, 0, None, Some(error)))
        case Returned(report) => (if HasHalted(report) then Halted else Completed, report);
      StepFacts(Sizes(), p, Finish(i, status, report, at));
      WorkingIsRunning(Sizes(), p, i);
      ledger.MarkFinishedRow(key, status, report, at);
      UpdatedLedger(p.rows, ledger.rows, key, p.rows[key].(status := status, finishedAt := Some(at), report := report));
      tasks := tasks[i := Reporting(key)];
    }

    /** After the reporter: `finally`, and round again. */
    method ReleaseSlot(i: nat)
      requires Valid() && i < |tasks| && tasks[i].Reporting?
      modifies this
      ensures Valid() && View() == Next(Sizes(), old(View()), Release(i))
      ensures active == old(active) - {old(tasks)[i].key} && |active| == |old(active)| - 1
      ensures unfinished == old(unfinished) - 1 == |queue| + |active|
    {
      hide Inv;
      StepFacts(Sizes(), View(), Release(i));
      BusyIsUnfinished(Sizes(), View(), i);
      active := active - {tasks[i].key};
      unfinished := unfinished - 1;
      zeroed := zeroed || unfinished == 0;
      tasks := tasks[i := Waiting];
      CountIsExact(Sizes(), View());
    }

    /** What `_execute` does about a cancellation: the run it had is interrupted, and no other row is touched. */
    method RecordInterruption(i: nat, at: int)
      requires Valid() && i < |tasks| && tasks[i].Working?
      modifies ledger
      ensures var key := tasks[i].key;
        && ledger.rows == MarkFinished(old(ledger.rows), key, Interrupted, CANCELLED_REPORT, at)
        && OnlyRow(old(ledger.rows), ledger.rows, key) && Kept(old(ledger.rows), ledger.rows)
        && key in ledger.rows && old(ledger.rows)[key].status == Running
        && ledger.rows == old(ledger.rows)[key := old(ledger.rows)[key].(
             status := Interrupted, finishedAt := Some(at),
             report := Report(0, 0, None, Some("cancelled during shutdown")))]
    {
      hide Inv, Kept, MarkFinished;
      WorkingIsRunning(Sizes(), View(), i);
      ghost var before := ledger.rows;
      ledger.MarkFinishedRow(tasks[i].key, Interrupted, CANCELLED_REPORT, at);
      InterruptedLedger(before, ledger.rows, tasks[i].key, at);
    }

    /** `task.cancel()` arriving at whatever the worker awaits. A run it held has a final status afterwards. */
    method CancelSlot(i: nat, at: int)
      requires Valid() && i < |tasks|
      modifies this, ledger
      ensures Valid() && View() == Next(Sizes(), old(View()), Cancel(i, at))
      ensures Kept(old(ledger.rows), ledger.rows)
      ensures queue == old(queue) && mode == old(mode) && tasks == old(tasks)[i := Gone]
      ensures !old(tasks)[i].Busy() ==> ledger.rows == old(ledger.rows) && active == old(active)
      ensures old(tasks)[i].Reporting? ==> ledger.rows == old(ledger.rows)
      ensures old(tasks)[i].Working? ==> var key := old(tasks)[i].key;
        && key in old(ledger.rows)
        && ledger.rows == old(ledger.rows)[key := old(ledger.rows)[key].(
             status := Interrupted, finishedAt := Some(at),
             report := Report(0, 0, None, Some("cancelled during shutdown")))]
      ensures old(tasks)[i].Busy() ==> var key := old(tasks)[i].key;
        && OnlyRow(old(ledger.rows), ledger.rows, key) && key in ledger.rows && ledger.rows[key].status.Terminal()
        && active == old(active) - {key} && unfinished == old(unfinished) - 1
    {
      hide Inv, Kept, Next, MarkFinished, OnlyRow;
      ghost var p := View();
      StepFacts(Sizes(), p, Cancel(i, at));
      KeptReflexive(p.rows);
      if tasks[i].Busy() {
        BusyIsUnfinished(Sizes(), p, i);
      }
      CancelSpelled(Sizes(), p, i, at);
      if tasks[i].Busy() {
        var key := tasks[i].key;
        if tasks[i].Working? {
          RecordInterruption(i, at);
        }
        active := active - {key};
        unfinished := unfinished - 1;
        zeroed := zeroed || unfinished == 0;
      }
      tasks := tasks[i := Gone];
    }

    /** `drain` up to the wait for the queue: it touches no run, and before the start or after a drain does nothing. */
    method BeginDrain()
      requires Valid() && (mode == Created || mode == Live || mode == Stopped)
      modifies this
      ensures Valid() && View() == Next(Sizes(), old(View()), DrainBegin)
      ensures old(mode) != Live ==> View() == old(View())
      ensures old(mode) == Live ==> (mode == Stopped <==> workers == 0) && (mode == Draining <==> workers > 0)
      ensures old(mode) == Live ==> (zeroed <==> queue == [] && active == {})
    {
      hide Inv;
      StepFacts(Sizes(), View(), DrainBegin);
      CountIsExact(Sizes(), View());
      if mode == Live {
        mode := if tasks == [] then Stopped else Draining;
        zeroed := unfinished == 0;
      }
    }

    /** The queue joins, for which the count must have been zero at some time since the drain began, or time is up. */
    method EndJoin(timedOut: bool)
      requires Valid() && mode == Draining && (timedOut || zeroed)
      modifies this
      ensures Valid() && View() == Next(Sizes(), old(View()), if timedOut then DrainTimeout else DrainJoined)
      ensures unfinished == 0 ==> Quiet(View())
    {
      hide Inv;
      StepFacts(Sizes(), View(), if timedOut then DrainTimeout else DrainJoined);
      mode := Cancelling;
      if unfinished == 0 {
        ZeroIsQuiet(Sizes(), View());
      }
    }

    /** The end of `drain`: every worker is cancelled where it stands. */
    method CancelAll(at: int)
      requires Valid() && mode == Cancelling
      modifies this, ledger
      ensures Valid() && mode == Stopped && active == {}
      ensures queue == old(queue) && |tasks| == |old(tasks)|
      ensures Kept(old(ledger.rows), ledger.rows)
      ensures forall key :: key in ledger.rows && ledger.rows[key].status == Queued ==> key in queue
      ensures forall key :: key in ledger.rows ==> ledger.rows[key].status != Running
    {
      hide Inv, Kept, Next, OnlyRow;
      var i := 0;
      KeptReflexive(ledger.rows);
      while i < |tasks|
        invariant 0 <= i <= |tasks| == |old(tasks)|
        invariant Valid() && mode == Cancelling && queue == old(queue)
        invariant Kept(old(ledger.rows), ledger.rows)
        invariant forall j :: 0 <= j < i ==> tasks[j] == Gone
      {
        ghost var was := ledger.rows;
        CancelSlot(i, at);
        KeptTransitive(old(ledger.rows), was, ledger.rows);
        i := i + 1;
      }
      ghost var was := View();
      mode := Stopped;
      AllGoneIsIdle(Sizes(), was);
    }
  }

  lemma UpdatedLedger(before: Ledger, after: Ledger, key: string, row: Row)
    requires OnlyRow(before, after, key) && key in before && after[key] == row
    ensures after == before[key := row]
  {
    assert forall k :: k in after ==> after[k] == before[key := row][k];
  }

  /** What the invariant gives a method before it acts, about the state it will leave. */
  lemma StepFacts(c: Config, p: Pool, s: Step)
    requires Inv(c, p) && Clean(p, s)
    ensures var q := Next(c, p, s);
      && Inv(c, q) && Kept(p.rows, q.rows)
      && c.Fits(|q.queue|) && |q.active| <= c.workers && InOrder(q)
  {
    StepKeepsInv(c, p, s);
    StepKeepsFinished(c, p, s);
    PoolCeiling(c, Next(c, p, s));
    hide Next, WorkersAgree;
  }

  lemma ValidStart(c: Config, p: Pool, at: int)
    requires Inv(c, p) && p.mode == Created
    ensures Inv(c, Next(c, p, Start(at))) <==> p.queue == []
  {
    if p.queue == [] {
      StartKeepsInv(c, p, at);
    } else {
      QueuedKey(p);
      hide WorkersAgree, History, Counted;
      var q := Next(c, p, Start(at));
      assert p.queue[0] in q.queue && q.rows[p.queue[0]].status == Interrupted;
    }
  }

  lemma QueuedAreClaimed(c: Config, p: Pool)
    requires Inv(c, p)
    ensures forall key :: key in p.queue ==> key in p.rows
  {
  }

  lemma WorkingIsRunning(c: Config, p: Pool, i: nat)
    requires Inv(c, p) && i < |p.workers| && p.workers[i].Working?
    ensures p.workers[i].key in p.rows && p.rows[p.workers[i].key].status == Running
  {
    assert WorkerAgrees(p, p.workers[i]);
  }

  lemma BusyIsUnfinished(c: Config, p: Pool, i: nat)
    requires Inv(c, p) && i < |p.workers| && p.workers[i].Busy()
    ensures p.unfinished > 0 && p.workers[i].key in p.active && p.workers[i].key in p.rows
    ensures p.workers[i].Reporting? ==> p.rows[p.workers[i].key].status.Terminal()
  {
    assert WorkerAgrees(p, p.workers[i]);
  }

  lemma CountIsExact(c: Config, p: Pool)
    requires Inv(c, p)
    ensures p.unfinished == |p.queue| + |p.active|
    ensures p.mode.Up() ==> |p.workers| == c.workers
  {
  }

  /** The oldest accepted run has begun: never before, in nobody's hands, and nothing else has changed in the ledger. */
  ghost predicate Begun(p: Pool, q: Pool, key: string) {
    && p.queue == [key] + q.queue && q.started == p.started + [key] && q.accepted == p.accepted && InOrder(q)
    && key !in p.everStarted && key !in p.active && q.active == p.active + {key}
    && OnlyRow(p.rows, q.rows, key) && Kept(p.rows, q.rows)
    && key in p.rows && key in q.rows && p.rows[key].status == Queued && q.rows[key].status == Running
  }

  /** Taking work, field by field. */
  lemma TakeSpelled(c: Config, p: Pool, i: nat, at: int)
    requires Enabled(p, Take(i, at))
    ensures var key := p.queue[0];
      Next(c, p, Take(i, at)) == p.(
           rows := MarkRunning(p.rows, key, at), queue := p.queue[1..], active := p.active + {key},
           workers := p.workers[i := Working(key)], started := p.started + [key], everStarted := p.everStarted + [key])
  {
    hide MarkRunning;
  }

  lemma TakeBegins(c: Config, p: Pool, i: nat, at: int)
    requires Inv(c, p) && Enabled(p, Take(i, at))
    ensures p.queue[0] in p.rows && Begun(p, Next(c, p, Take(i, at)), p.queue[0])
  {
    hide Inv, Next, Kept, InOrder;
    StepFacts(c, p, Take(i, at));
    TakeSpelled(c, p, i, at);
    NeverBegun(c, p);
  }

  lemma NeverBegun(c: Config, p: Pool)
    requires Inv(c, p) && p.queue != []
    ensures var key := p.queue[0];
      key in p.rows && p.rows[key].status == Queued && key !in p.active && key !in p.everStarted
  {
    QueuedKey(p);
  }

  lemma RunningLedger(before: Ledger, after: Ledger, key: string, at: int)
    requires OnlyRow(before, after, key) && key in before
    requires after[key] == before[key].(status := Running, startedAt := Some(at))
    ensures after == MarkRunning(before, key, at)
  {
    UpdatedLedger(before, after, key, after[key]);
  }

  /** A cancellation, field by field. */
  lemma CancelSpelled(c: Config, p: Pool, i: nat, at: int)
    requires i < |p.workers| && (p.workers[i].Busy() ==> p.unfinished > 0)
    ensures var w := p.workers[i];
      Next(c, p, Cancel(i, at)) == p.(
        rows := if w.Working? then MarkFinished(p.rows, w.key, Interrupted, CANCELLED_REPORT, at) else p.rows,
        active := if w.Busy() then p.active - {w.key} else p.active,
        unfinished := if w.Busy() then p.unfinished - 1 else p.unfinished,
        zeroed := p.zeroed || (w.Busy() && p.unfinished == 1),
        workers := p.workers[i := Gone])
  {
    hide MarkFinished;
  }

  lemma InterruptedLedger(before: Ledger, after: Ledger, key: string, at: int)
    requires OnlyRow(before, after, key) && key in before
    requires after[key] == before[key].(status := Interrupted, finishedAt := Some(at), report := CANCELLED_REPORT)
    ensures after == MarkFinished(before, key, Interrupted, CANCELLED_REPORT, at)
  {
    UpdatedLedger(before, after, key, after[key]);
  }

  lemma KeptReflexive(rows: Ledger)
    ensures Kept(rows, rows) && forall key :: OnlyRow(rows, rows, key)
  {
  }

  lemma AllGoneIsIdle(c: Config, p: Pool)
    requires Inv(c, p) && p.mode == Cancelling && forall i :: 0 <= i < |p.workers| ==> p.workers[i] == Gone
    ensures Inv(c, p.(mode := Stopped)) && p.active == {}
    ensures forall key :: key in p.rows ==> p.rows[key].status != Running
    ensures forall key :: key in p.rows && p.rows[key].status == Queued ==> key in p.queue
  {
    StepKeepsInv(c, p, DrainEnd);
    assert forall key, i :: !HasKey(p.workers, i, key);
  }
}

/**
 `get`, `resolve` and `consume` are each two or three autocommit statements, and the lock around them binds one
 process only. Here any other statements run between them, and each operation is still one atomic operation.
 */
module Linearization {
  import opened Wrappers
  import opened ApprovalTable
  import opened Timestamps

  /** What a store operation returns or raises, with the row it carries. */
  datatype Outcome = NotFound | Done(row: Request) | Conflict(row: Request) | Mismatch(row: Request)

  // ------------------------------------------------- the operations, undisturbed

  function AtomicGet(t: Table, id: string, now: UtcTime): (Table, Outcome) {
    var u := Exec(ExpireOne(id, now), t);
    (u, if id in u then Done(u[id]) else NotFound)
  }

  function AtomicResolve(t: Table, d: Statement): (Table, Outcome)
    requires d.Decide?
  {
    if Changes(d, d.id, t) then (Exec(d, t), Done(Exec(d, t)[d.id]))
    else
      var u := Exec(ExpireOne(d.id, d.now), t);
      (u, if d.id in u then Conflict(u[d.id]) else NotFound)
  }

  /** The row of a missing id is nothing; any other is returned as it is, or denied if its time is up. */
  lemma GetMeaning(t: Table, id: string, now: UtcTime)
    ensures id !in t ==> AtomicGet(t, id, now) == (t, NotFound)
    ensures id in t ==>
      var (u, o) := AtomicGet(t, id, now);
      && o == Done(u[id])
      && u == t[id :=
           if t[id].status == Pending && t[id].expiresAt.Instant() <= now.Instant()
           then t[id].(status := Expired, decidedAt := Some(now), decidedBy := Some("system"),
                       note := Some("no response before deadline; denied by default"))
           else t[id]]
  {
    hide TextLess, Iso, DateTime.Instant, DateTime.Valid;
    ExpiryOfOne(t, id, now);
  }

  lemma ExpiryOfOne(t: Table, id: string, now: UtcTime)
    ensures var u := Exec(ExpireOne(id, now), t);
      u == if id in t && t[id].status == Pending && t[id].expiresAt.Instant() <= now.Instant()
           then t[id := t[id].(status := Expired, decidedAt := Some(now), decidedBy := Some("system"),
                               note := Some("no response before deadline; denied by default"))]
           else t
  {
    hide Exec, DateTime.Instant, DateTime.Valid;
    var u := Exec(ExpireOne(id, now), t);
    forall k | k in t ensures u.Keys == t.Keys && (k != id ==> u[k] == t[k]) {
      ExpiryWrites(ExpireOne(id, now), t, k);
    }
    if id in t {
      ExpiryWrites(ExpireOne(id, now), t, id);
    } else {
      UnmatchedExec(ExpireOne(id, now), t);
    }
  }

  /**
   A decision takes exactly when the request is pending inside its deadline, and is then recorded as it was given, with
   everything else as it was; otherwise the caller gets the request as it stands, which is never pending.
   */
  lemma ResolveMeaning(t: Table, d: Statement)
    requires d.Decide?
    ensures AtomicResolve(t, d).1.Done? <==>
      d.id in t && t[d.id].status == Pending && d.now.Instant() < t[d.id].expiresAt.Instant()
    ensures AtomicResolve(t, d).1.NotFound? <==> d.id !in t
    ensures AtomicResolve(t, d).1.Conflict? ==> AtomicResolve(t, d).1.row.status != Pending
    ensures var (u, o) := AtomicResolve(t, d);
      match o
      case Done(row) =>
        && row == t[d.id].(status := if d.approved then Approved else Rejected, decidedAt := Some(d.now),
                           decidedBy := Some(d.reviewer), note := d.note)
        && u == t[d.id := row]
      case Conflict(row) =>
        && row == (if t[d.id].status == Pending
                   then t[d.id].(status := Expired, decidedAt := Some(d.now), decidedBy := Some("system"),
                                 note := Some("no response before deadline; denied by default"))
                   else t[d.id])
        && u == t[d.id := row]
      case _ => u == t
  {
    hide TextLess, Iso, Exec, DateTime.Instant, DateTime.Valid;
    ExpiryOfOne(t, d.id, d.now);
    DecisionWrites(d.id, d.approved, d.reviewer, d.note, d.now, t);
    if d.id in t {
      DeadlineGuards(d.id, t[d.id], d.approved, d.reviewer, d.note, d.now);
    }
  }

  function AtomicConsume(t: Table, id: string, fp: Fingerprint, now: UtcTime): (Table, Outcome) {
    if id !in t then (t, NotFound)
    else if t[id].fingerprint != fp then
      var u := Exec(Burn(id, now), t);
      (u, Mismatch(u[id]))
    else if Changes(Spend(id), id, t) then
      var u := Exec(Spend(id), t);
      (u, Done(u[id]))
    else (t, Conflict(t[id]))
  }

  /**
   An approval is spent exactly for the arguments it was given for; for any others it is taken back; what is not an
   approval is reported and left.
   */
  lemma ConsumeMeaning(t: Table, id: string, fp: Fingerprint, now: UtcTime)
    ensures var (u, o) := AtomicConsume(t, id, fp, now);
      if id !in t then u == t && o == NotFound
      else if t[id].fingerprint != fp then
        && o == Mismatch(u[id])
        && u == if t[id].status == Approved
                then t[id := t[id].(status := Rejected, decidedAt := Some(now), decidedBy := Some("system"),
                                    note := Some("arguments changed after approval"))]
                else t
      else if t[id].status == Approved then u == t[id := t[id].(status := Consumed)] && o == Done(u[id])
      else u == t && o == Conflict(t[id])
  {
    hide Exec;
    BurningWrites(id, now, t);
    SpendingWrites(id, t);
  }

  // ----------------------------------------- the operations, as statements of a run

  /** `get`: statement `i` of the run expires, statement `k` reads. */
  ghost predicate PlaysGet(run: seq<Statement>, i: nat, k: nat, id: string, now: UtcTime) {
    i < k < |run| && run[i] == ExpireOne(id, now) && run[k] == Select(id)
  }

  function Fetched(u: Table, id: string): Outcome {
    if id in u then Done(u[id]) else NotFound
  }

  /** `resolve`: statement `i` decides; when that changed nothing, statement `j` expires; statement `k` reads. */
  ghost predicate PlaysResolve(t: Table, run: seq<Statement>, i: nat, j: nat, k: nat, d: Statement)
    requires d.Decide?
  {
    && i <= j < k < |run| && run[i] == d && run[k] == Select(d.id)
    && if Changes(d, d.id, TableAt(t, run, i)) then j == i else i < j && run[j] == ExpireOne(d.id, d.now)
  }

  function ResolveOutcome(t: Table, run: seq<Statement>, i: nat, k: nat, d: Statement): Outcome
    requires d.Decide? && i <= k <= |run|
  {
    var u := TableAt(t, run, k);
    if d.id !in u then NotFound
    else if Changes(d, d.id, TableAt(t, run, i)) then Done(u[d.id])
    else Conflict(u[d.id])
  }

  /**
   `consume`: statement `i` reads. A missing row ends it (`j == k == i`); otherwise statement `j` burns or spends,
   by the fingerprint that was read, and statement `k` reads again.
   */
  ghost predicate PlaysConsume(t: Table, run: seq<Statement>, i: nat, j: nat, k: nat,
                               id: string, fp: Fingerprint, now: UtcTime)
  {
    && i < |run| && run[i] == Select(id)
    && if id !in TableAt(t, run, i) then i == j == k
       else
         && i < j < k < |run| && run[k] == Select(id)
         && run[j] == if TableAt(t, run, i)[id].fingerprint != fp then Burn(id, now) else Spend(id)
  }

  function ConsumeOutcome(t: Table, run: seq<Statement>, i: nat, j: nat, k: nat, id: string, fp: Fingerprint): Outcome
    requires i <= j <= k < |run|
  {
    var seen, u := TableAt(t, run, i), TableAt(t, run, k);
    if id !in seen || id !in u then NotFound
    else if seen[id].fingerprint != fp then Mismatch(u[id])
    else if Changes(Spend(id), id, TableAt(t, run, j)) then Done(u[id])
    else Conflict(u[id])
  }

  /** Same verdict; the row carried may have moved on since. */
  ghost predicate SameVerdict(a: Outcome, b: Outcome) {
    match a
    case NotFound => b.NotFound?
    case Done(r) => b.Done? && RowEvolves(r, b.row)
    case Conflict(r) => b.Conflict? && RowEvolves(r, b.row)
    case Mismatch(r) => b.Mismatch? && RowEvolves(r, b.row)
  }

  ghost predicate Idle(t: Table, run: seq<Statement>, q: nat)
    requires q < |run|
  {
    TableAt(t, run, q + 1) == TableAt(t, run, q)
  }

  /** The run's table passes through `after` as statement `p` executes. */
  ghost predicate ActsAt(t: Table, run: seq<Statement>, p: nat, after: Table)
    requires p < |run|
  {
    TableAt(t, run, p + 1) == after
  }

  lemma SelectIsIdle(t: Table, run: seq<Statement>, k: nat)
    requires k < |run| && run[k].Select?
    ensures Idle(t, run, k)
  {
    TableStep(t, run, k);
    ExecEvolves(run[k], TableAt(t, run, k));
  }

  lemma UnmatchedIsIdle(t: Table, run: seq<Statement>, q: nat)
    requires q < |run| && (run[q].ExpireOne? || run[q].Decide? || run[q].Burn? || run[q].Spend?)
    requires !Changes(run[q], run[q].id, TableAt(t, run, q))
    ensures Idle(t, run, q)
  {
    TableStep(t, run, q);
    UnmatchedExec(run[q], TableAt(t, run, q));
  }

  // ----------------------------------------------------------------- consume

  /**
   Whatever runs in between, `consume` is one atomic consume: at point `p` the whole of its effect happens, its other
   statements change nothing, and its verdict is the atomic one. Read-then-update is safe because no statement ever
   rewrites `args_fingerprint`.
   */
  lemma ConsumeIsAtomic(t: Table, run: seq<Statement>, i: nat, j: nat, k: nat,
                        id: string, fp: Fingerprint, now: UtcTime)
    returns (p: nat)
    requires PlaysConsume(t, run, i, j, k, id, fp, now)
    ensures p == j
    ensures ActsAt(t, run, p, AtomicConsume(TableAt(t, run, p), id, fp, now).0)
    ensures SameVerdict(AtomicConsume(TableAt(t, run, p), id, fp, now).1, ConsumeOutcome(t, run, i, j, k, id, fp))
    ensures p != i ==> Idle(t, run, i)
    ensures p != k ==> Idle(t, run, k)
  {
    hide Exec, Changes, Matches, Assign, Replay, AtomicConsume, ConsumeOutcome, SameVerdict;
    p := j;
    SelectIsIdle(t, run, i);
    if id in TableAt(t, run, i) {
      SelectIsIdle(t, run, k);
      SeenIsStillThere(t, run, i, j, k, id, fp, now);
      SpendingIsAtomic(t, run, i, j, k, id, fp, now);
    } else {
      AbsentConsumeIsAtomic(t, run, i, id, fp, now);
    }
  }

  lemma AbsentConsumeIsAtomic(t: Table, run: seq<Statement>, i: nat, id: string, fp: Fingerprint, now: UtcTime)
    requires i < |run| && id !in TableAt(t, run, i)
    ensures AtomicConsume(TableAt(t, run, i), id, fp, now) == (TableAt(t, run, i), NotFound)
    ensures SameVerdict(NotFound, ConsumeOutcome(t, run, i, i, i, id, fp))
  {
    hide Replay;
  }

  /** The fingerprint that was read is the one the update and the second read find. */
  lemma SeenIsStillThere(t: Table, run: seq<Statement>, i: nat, j: nat, k: nat,
                         id: string, fp: Fingerprint, now: UtcTime)
    requires PlaysConsume(t, run, i, j, k, id, fp, now) && id in TableAt(t, run, i)
    ensures id in TableAt(t, run, j) && TableAt(t, run, j)[id].fingerprint == TableAt(t, run, i)[id].fingerprint
    ensures id in TableAt(t, run, j + 1) && id in TableAt(t, run, k)
    ensures RowEvolves(TableAt(t, run, j + 1)[id], TableAt(t, run, k)[id])
  {
    hide Exec, Replay, RowEvolves;
    RunEvolves(t, run, i, j);
    RunEvolves(t, run, j, j + 1);
    RunEvolves(t, run, j + 1, k);
    SameFingerprint(TableAt(t, run, i)[id], TableAt(t, run, j)[id]);
  }

  lemma SameFingerprint(r: Request, s: Request)
    requires RowEvolves(r, s)
    ensures r.fingerprint == s.fingerprint
  {
  }

  lemma SpendingIsAtomic(t: Table, run: seq<Statement>, i: nat, j: nat, k: nat,
                         id: string, fp: Fingerprint, now: UtcTime)
    requires PlaysConsume(t, run, i, j, k, id, fp, now) && id in TableAt(t, run, i)
    requires id in TableAt(t, run, j) && TableAt(t, run, j)[id].fingerprint == TableAt(t, run, i)[id].fingerprint
    requires id in TableAt(t, run, j + 1) && id in TableAt(t, run, k)
    requires RowEvolves(TableAt(t, run, j + 1)[id], TableAt(t, run, k)[id])
    ensures ActsAt(t, run, j, AtomicConsume(TableAt(t, run, j), id, fp, now).0)
    ensures SameVerdict(AtomicConsume(TableAt(t, run, j), id, fp, now).1, ConsumeOutcome(t, run, i, j, k, id, fp))
  {
    hide Exec, Changes, Replay, RowEvolves;
    TableStep(t, run, j);
    if !Changes(run[j], id, TableAt(t, run, j)) {
      UnmatchedIsIdle(t, run, j);
    }
  }

  // ----------------------------------------------------------------- resolve

  function Succeeded(o: Outcome): bool {
    o.Done?
  }

  /** A decision that did not take, on a row that was there or has now expired, does not take later either. */
  lemma MissedDecisionStaysMissed(before: Table, u: Table, d: Statement)
    requires d.Decide? && !Changes(d, d.id, before) && Evolves(before, u)
    requires d.id in before || Changes(ExpireOne(d.id, d.now), d.id, u)
    ensures d.id in u && !Changes(d, d.id, u)
    ensures AtomicResolve(u, d).0 == Exec(ExpireOne(d.id, d.now), u)
    ensures AtomicResolve(u, d).1 == Conflict(Exec(ExpireOne(d.id, d.now), u)[d.id])
  {
    DeadlineGuards(d.id, u[d.id], d.approved, d.reviewer, d.note, d.now);
    if d.id in before {
      DeadlineGuards(d.id, before[d.id], d.approved, d.reviewer, d.note, d.now);
      assert RowEvolves(before[d.id], u[d.id]);
    }
  }

  lemma DecidingIsAtomic(t: Table, run: seq<Statement>, i: nat, k: nat, d: Statement)
    requires d.Decide? && PlaysResolve(t, run, i, i, k, d) && Changes(d, d.id, TableAt(t, run, i))
    ensures ActsAt(t, run, i, AtomicResolve(TableAt(t, run, i), d).0)
    ensures SameVerdict(AtomicResolve(TableAt(t, run, i), d).1, ResolveOutcome(t, run, i, k, d))
  {
    TableStep(t, run, i);
    RunEvolves(t, run, i + 1, k);
    ExecEvolves(d, TableAt(t, run, i));
    assert d.id in TableAt(t, run, i + 1);
  }

  lemma ConflictingIsAtomic(t: Table, run: seq<Statement>, i: nat, j: nat, k: nat, d: Statement)
    requires d.Decide? && PlaysResolve(t, run, i, j, k, d) && i < j
    requires d.id in TableAt(t, run, i) || Changes(run[j], d.id, TableAt(t, run, j))
    ensures ActsAt(t, run, j, AtomicResolve(TableAt(t, run, j), d).0)
    ensures SameVerdict(AtomicResolve(TableAt(t, run, j), d).1, ResolveOutcome(t, run, i, k, d))
    ensures Idle(t, run, i)
  {
    hide Changes, Exec, AtomicResolve, DateTime.Valid, DateTime.Instant, DateTime.Day;
    UnmatchedIsIdle(t, run, i);
    RunEvolves(t, run, i, j);
    MissedDecisionStaysMissed(TableAt(t, run, i), TableAt(t, run, j), d);
    TableStep(t, run, j);
    ExecEvolves(run[j], TableAt(t, run, j));
    RunEvolves(t, run, j + 1, k);
    assert d.id in TableAt(t, run, j + 1);
  }

  lemma AbsentIsAtomic(t: Table, run: seq<Statement>, i: nat, j: nat, k: nat, d: Statement)
    requires d.Decide? && PlaysResolve(t, run, i, j, k, d) && i < j
    requires d.id !in TableAt(t, run, i) && !Changes(run[j], d.id, TableAt(t, run, j))
    ensures ActsAt(t, run, i, AtomicResolve(TableAt(t, run, i), d).0)
    ensures AtomicResolve(TableAt(t, run, i), d).1 == NotFound && !Succeeded(ResolveOutcome(t, run, i, k, d))
    ensures SameVerdict(AtomicResolve(TableAt(t, run, i), d).1, ResolveOutcome(t, run, i, k, d))
      <==> d.id !in TableAt(t, run, k)
    ensures Idle(t, run, i) && Idle(t, run, j)
  {
    UnmatchedIsIdle(t, run, i);
    UnmatchedIsIdle(t, run, j);
    UnmatchedExec(ExpireOne(d.id, d.now), TableAt(t, run, i));
  }

  /** Whatever runs in between, `resolve` has the effect of one atomic resolve, and succeeds exactly when that does. */
  lemma ResolveActsAtomically(t: Table, run: seq<Statement>, i: nat, j: nat, k: nat, d: Statement) returns (p: nat)
    requires d.Decide? && PlaysResolve(t, run, i, j, k, d)
    ensures p == i || p == j
    ensures ActsAt(t, run, p, AtomicResolve(TableAt(t, run, p), d).0)
    ensures Succeeded(AtomicResolve(TableAt(t, run, p), d).1) <==> Succeeded(ResolveOutcome(t, run, i, k, d))
    ensures forall q :: q in {i, j, k} && q != p ==> Idle(t, run, q)
  {
    SelectIsIdle(t, run, k);
    if i == j {
      p := i;
      DecidingIsAtomic(t, run, i, k, d);
    } else if d.id in TableAt(t, run, i) || Changes(run[j], d.id, TableAt(t, run, j)) {
      p := j;
      ConflictingIsAtomic(t, run, i, j, k, d);
    } else {
      p := i;
      AbsentIsAtomic(t, run, i, j, k, d);
    }
  }

  /** At point `p` the whole of an atomic resolve happens, with this verdict; the other statements change nothing. */
  ghost predicate ResolvesAt(t: Table, run: seq<Statement>, i: nat, j: nat, k: nat, d: Statement, p: nat)
    requires d.Decide? && i <= j < k < |run|
  {
    && (p == i || p == j || p == k)
    && ActsAt(t, run, p, AtomicResolve(TableAt(t, run, p), d).0)
    && SameVerdict(AtomicResolve(TableAt(t, run, p), d).1, ResolveOutcome(t, run, i, k, d))
    && (p != i ==> Idle(t, run, i)) && (p != j ==> Idle(t, run, j)) && (p != k ==> Idle(t, run, k))
  }

  /** The request was not there to be decided, then was read undecided. */
  predicate CreatedUnseen(t: Table, run: seq<Statement>, i: nat, k: nat, id: string)
    requires i < k < |run|
  {
    id !in TableAt(t, run, i) && id in TableAt(t, run, k) && TableAt(t, run, k)[id].status == Pending
  }

  /** A request created meanwhile and decided by others by the time it is read is an atomic conflict at the read. */
  lemma DecidedMeanwhile(t: Table, run: seq<Statement>, i: nat, j: nat, k: nat, d: Statement)
    requires d.Decide? && PlaysResolve(t, run, i, j, k, d) && i < j
    requires d.id !in TableAt(t, run, i) && !Changes(run[j], d.id, TableAt(t, run, j))
    requires d.id in TableAt(t, run, k) && TableAt(t, run, k)[d.id].status != Pending
    ensures ResolvesAt(t, run, i, j, k, d, k)
  {
    AbsentIsAtomic(t, run, i, j, k, d);
    SelectIsIdle(t, run, k);
    hide DateTime.Valid, DateTime.Instant, TextLess, Iso;
    UnmatchedExec(ExpireOne(d.id, d.now), TableAt(t, run, k));
  }

  lemma SomePointResolves(t: Table, run: seq<Statement>, i: nat, j: nat, k: nat, d: Statement) returns (p: nat)
    requires d.Decide? && PlaysResolve(t, run, i, j, k, d) && !CreatedUnseen(t, run, i, k, d.id)
    ensures ResolvesAt(t, run, i, j, k, d, p)
  {
    hide Exec, AtomicResolve, SameVerdict, ResolveOutcome, Idle, ActsAt;
    SelectIsIdle(t, run, k);
    if i == j {
      p := i;
      DecidingIsAtomic(t, run, i, k, d);
    } else if d.id in TableAt(t, run, i) || Changes(run[j], d.id, TableAt(t, run, j)) {
      p := j;
      ConflictingIsAtomic(t, run, i, j, k, d);
    } else if d.id in TableAt(t, run, k) {
      p := k;
      DecidedMeanwhile(t, run, i, j, k, d);
    } else {
      p := i;
      AbsentIsAtomic(t, run, i, j, k, d);
    }
  }

  lemma UnseenIsNotAtomic(t: Table, run: seq<Statement>, i: nat, j: nat, k: nat, d: Statement, p: nat)
    requires d.Decide? && PlaysResolve(t, run, i, j, k, d) && CreatedUnseen(t, run, i, k, d.id)
    ensures !ResolvesAt(t, run, i, j, k, d, p)
  {
    var u := TableAt(t, run, k);
    SelectIsIdle(t, run, k);
    UnseenStillPending(t, run, i, j, k, d);
    hide DateTime.Valid, DateTime.Day;
    DeadlineGuards(d.id, u[d.id], d.approved, d.reviewer, d.note, d.now);
    if p == k {
      assert AtomicResolve(u, d).0[d.id].status != Pending;
    } else if p == j && d.id in TableAt(t, run, j) {
      DeadlineGuards(d.id, TableAt(t, run, j)[d.id], d.approved, d.reviewer, d.note, d.now);
      assert AtomicResolve(TableAt(t, run, j), d).0[d.id].status != Pending;
    }
  }

  /** What was read undecided was not there, or undecided, at the expiry, which therefore changed nothing. */
  lemma UnseenStillPending(t: Table, run: seq<Statement>, i: nat, j: nat, k: nat, d: Statement)
    requires d.Decide? && PlaysResolve(t, run, i, j, k, d) && CreatedUnseen(t, run, i, k, d.id)
    ensures i < j && Idle(t, run, j) && !Changes(run[j], d.id, TableAt(t, run, j))
    ensures d.id in TableAt(t, run, j) ==> TableAt(t, run, j)[d.id].status == Pending
  {
    hide DateTime.Valid, DateTime.Instant, TextLess, Iso;
    RunEvolves(t, run, j, k);
    RunEvolves(t, run, j + 1, k);
    TableStep(t, run, j);
    if d.id in TableAt(t, run, j) {
      assert RowEvolves(TableAt(t, run, j)[d.id], TableAt(t, run, k)[d.id]);
    }
    if d.id in TableAt(t, run, j + 1) {
      assert RowEvolves(TableAt(t, run, j + 1)[d.id], TableAt(t, run, k)[d.id]);
    }
    assert !Changes(run[j], d.id, TableAt(t, run, j));
    UnmatchedIsIdle(t, run, j);
  }

  /**
   Whatever runs in between, `resolve` is one atomic resolve, verdict and all, exactly when the request was not created
   after the decision was tried and read before anybody decided it.
   */
  lemma ResolveIsAtomic(t: Table, run: seq<Statement>, i: nat, j: nat, k: nat, d: Statement)
    requires d.Decide? && PlaysResolve(t, run, i, j, k, d)
    ensures (exists p :: ResolvesAt(t, run, i, j, k, d, p)) <==> !CreatedUnseen(t, run, i, k, d.id)
  {
    hide ResolvesAt, CreatedUnseen;
    if CreatedUnseen(t, run, i, k, d.id) {
      forall p ensures !ResolvesAt(t, run, i, j, k, d, p) {
        UnseenIsNotAtomic(t, run, i, j, k, d, p);
      }
    } else {
      var p := SomePointResolves(t, run, i, j, k, d);
    }
  }

  /** The exception is real: a conflict that carries a request nobody has decided. */
  lemma ConflictWithPending(d: Statement, tool: string, args: Args, created: UtcTime, expires: UtcTime)
    requires d.Decide?
    ensures var run := [d, ExpireOne(d.id, d.now), Insert(d.id, tool, args, created, expires), Select(d.id)];
      && PlaysResolve(map[], run, 0, 1, 3, d) && CreatedUnseen(map[], run, 0, 3, d.id)
      && ResolveOutcome(map[], run, 0, 3, d) == Conflict(NewRequest(tool, args, created, expires))
  {
    var run := [d, ExpireOne(d.id, d.now), Insert(d.id, tool, args, created, expires), Select(d.id)];
    var empty: Table := map[];
    assert TableAt(empty, run, 0) == empty;
    TableStep(empty, run, 0);
    TableStep(empty, run, 1);
    TableStep(empty, run, 2);
    UnmatchedExec(d, empty);
    UnmatchedExec(ExpireOne(d.id, d.now), empty);
  }

  // --------------------------------------------------------------------- get

  /** Some point of the run at which an atomic `get` has this effect and this verdict, and the other statement none. */
  ghost predicate GetIsAtomicAt(t: Table, run: seq<Statement>, i: nat, k: nat, id: string, now: UtcTime, p: nat)
    requires i < k < |run|
  {
    && (p == i || p == k)
    && ActsAt(t, run, p, AtomicGet(TableAt(t, run, p), id, now).0)
    && SameVerdict(AtomicGet(TableAt(t, run, p), id, now).1, Fetched(TableAt(t, run, k), id))
    && Idle(t, run, if p == i then k else i)
  }

  /** The request was not there to be expired, then was read pending past its deadline. */
  predicate CreatedLate(t: Table, run: seq<Statement>, i: nat, k: nat, id: string, now: UtcTime)
    requires i < k < |run|
  {
    var u := TableAt(t, run, k);
    id !in TableAt(t, run, i) && id in u && u[id].IsOverdue(now)
  }

  lemma PresentGetIsAtomic(t: Table, run: seq<Statement>, i: nat, k: nat, id: string, now: UtcTime)
    requires PlaysGet(run, i, k, id, now) && id in TableAt(t, run, i)
    ensures GetIsAtomicAt(t, run, i, k, id, now, i)
    ensures id in TableAt(t, run, k) && !TableAt(t, run, k)[id].IsOverdue(now)
  {
    var before, after := TableAt(t, run, i), TableAt(t, run, i + 1);
    SelectIsIdle(t, run, k);
    TableStep(t, run, i);
    ExecEvolves(run[i], before);
    RunEvolves(t, run, i + 1, k);
    DeadlineGuards(id, before[id], true, SYSTEM, None, now);
    hide DateTime.Valid, DateTime.Day, TextLess;
    assert id in after && RowEvolves(after[id], TableAt(t, run, k)[id]);
    assert !after[id].IsOverdue(now);
  }

  lemma AbsentGetIsAtomic(t: Table, run: seq<Statement>, i: nat, k: nat, id: string, now: UtcTime)
    requires PlaysGet(run, i, k, id, now)
    requires id !in TableAt(t, run, i) && !CreatedLate(t, run, i, k, id, now)
    ensures GetIsAtomicAt(t, run, i, k, id, now, if id in TableAt(t, run, k) then k else i)
  {
    var u := TableAt(t, run, k);
    SelectIsIdle(t, run, k);
    UnmatchedIsIdle(t, run, i);
    TableStep(t, run, i);
    hide DateTime.Valid, DateTime.Day, TextLess;
    if id in u {
      DeadlineGuards(id, u[id], true, SYSTEM, None, now);
      UnmatchedExec(ExpireOne(id, now), u);
    }
  }

  lemma LateGetIsNotAtomic(t: Table, run: seq<Statement>, i: nat, k: nat, id: string, now: UtcTime, p: nat)
    requires PlaysGet(run, i, k, id, now) && CreatedLate(t, run, i, k, id, now)
    ensures !GetIsAtomicAt(t, run, i, k, id, now, p)
  {
    var u := TableAt(t, run, k);
    SelectIsIdle(t, run, k);
    DeadlineGuards(id, u[id], true, SYSTEM, None, now);
    hide DateTime.Valid, DateTime.Day, TextLess;
    assert AtomicGet(u, id, now).0[id].status == Expired;
  }

  /**
   `get` is one atomic get exactly when the request was not inserted, already overdue, between its two statements.
   A request that exists when `get` begins is therefore never observed pending past its deadline.
   */
  lemma GetIsAtomic(t: Table, run: seq<Statement>, i: nat, k: nat, id: string, now: UtcTime)
    requires PlaysGet(run, i, k, id, now)
    ensures (exists p :: GetIsAtomicAt(t, run, i, k, id, now, p)) <==> !CreatedLate(t, run, i, k, id, now)
    ensures id in TableAt(t, run, i) ==> id in TableAt(t, run, k) && !TableAt(t, run, k)[id].IsOverdue(now)
  {
    hide GetIsAtomicAt;
    if id in TableAt(t, run, i) {
      PresentGetIsAtomic(t, run, i, k, id, now);
    } else if CreatedLate(t, run, i, k, id, now) {
      forall p ensures !GetIsAtomicAt(t, run, i, k, id, now, p) {
        LateGetIsNotAtomic(t, run, i, k, id, now, p);
      }
    } else {
      AbsentGetIsAtomic(t, run, i, k, id, now);
    }
  }

  /** A second of the first minute of 2026. */
  function At(second: nat): UtcTime
    requires second < 60
  {
    DateTime(2026, 1, 1, 0, 0, second, 0)
  }

  /** The exception is real: a request inserted too late is read pending one second past its deadline. */
  lemma LateCreationIsVisible()
    ensures var run := [ExpireOne("a", At(2)), Insert("a", "drain_node", map[], At(0), At(1)), Select("a")];
      && PlaysGet(run, 0, 2, "a", At(2))
      && CreatedLate(map[], run, 0, 2, "a", At(2))
      && Fetched(TableAt(map[], run, 2), "a") == Done(NewRequest("drain_node", map[], At(0), At(1)))
  {
    var run := [ExpireOne("a", At(2)), Insert("a", "drain_node", map[], At(0), At(1)), Select("a")];
    var empty: Table := map[];
    assert TableAt(empty, run, 0) == empty;
    TableStep(empty, run, 0);
    TableStep(empty, run, 1);
    assert TableAt(empty, run, 1) == empty;
    assert TableAt(empty, run, 2) == map["a" := NewRequest("drain_node", map[], At(0), At(1))];
  }
}
